/** Cleaning up duplicate role bindings: per namespace one binding is kept, the one with
    the deterministic name if there is one, otherwise the oldest. */
module Bindings {

  datatype Binding = Binding(namespace: string, name: string, created: int)

  type Key = (string, string)

  function KeyOf(b: Binding): Key {
    (b.namespace, b.name)
  }

  function Keys(bindings: seq<Binding>): set<Key> {
    set b | b in bindings :: KeyOf(b)
  }

  /** The API lists a binding once. */
  predicate Unique(bindings: seq<Binding>) {
    forall i, j :: 0 <= i < j < |bindings| ==> KeyOf(bindings[i]) != KeyOf(bindings[j])
  }

  /** What looking up the deterministically named binding of a group answers. */
  datatype Lookup = Lookup(found: bool, name: string)

  function Group(bindings: seq<Binding>, namespace: string): seq<Binding> {
    if bindings == [] then []
    else
      var last := bindings[|bindings| - 1];
      Group(bindings[..|bindings| - 1], namespace) + if last.namespace == namespace then [last] else []
  }

  lemma {:induction false} GroupExactly(bindings: seq<Binding>, namespace: string)
    ensures forall b :: b in Group(bindings, namespace) <==> b in bindings && b.namespace == namespace
    ensures Unique(bindings) ==> Unique(Group(bindings, namespace))
  {
    if bindings != [] {
      var rest, last := bindings[..|bindings| - 1], bindings[|bindings| - 1];
      GroupExactly(rest, namespace);
      assert bindings == rest + [last];
      if Unique(bindings) {
        assert forall b :: b in rest ==> KeyOf(b) != KeyOf(last);
      }
    }
  }

  lemma UniqueGroup(bindings: seq<Binding>, namespace: string)
    requires Unique(bindings)
    ensures Unique(Group(bindings, namespace))
  {
    GroupExactly(bindings, namespace);
  }

  predicate OldestFirst(bindings: seq<Binding>) {
    forall i, j :: 0 <= i < j < |bindings| ==> bindings[i].created <= bindings[j].created
  }

  function InsertByAge(b: Binding, sorted: seq<Binding>): seq<Binding> {
    if sorted == [] || b.created < sorted[0].created then [b] + sorted
    else [sorted[0]] + InsertByAge(b, sorted[1..])
  }

  lemma {:induction false} InsertByAgeAdds(b: Binding, sorted: seq<Binding>)
    ensures multiset(InsertByAge(b, sorted)) == multiset(sorted) + multiset{b}
  {
    if sorted != [] && b.created >= sorted[0].created {
      InsertByAgeAdds(b, sorted[1..]);
      assert sorted == [sorted[0]] + sorted[1..];
    }
  }

  lemma OlderFirst(b: Binding, rest: seq<Binding>)
    requires OldestFirst(rest) && forall c :: c in rest ==> b.created <= c.created
    ensures OldestFirst([b] + rest)
  {
  }

  lemma {:induction false} InsertByAgeSorts(b: Binding, sorted: seq<Binding>)
    requires OldestFirst(sorted)
    ensures OldestFirst(InsertByAge(b, sorted))
  {
    if sorted != [] && b.created >= sorted[0].created {
      var rest := InsertByAge(b, sorted[1..]);
      InsertByAgeSorts(b, sorted[1..]);
      forall c | c in rest ensures sorted[0].created <= c.created {
        InsertByAgeAdds(b, sorted[1..]);
        assert c in multiset(rest);
        assert c in sorted[1..] || c == b;
      }
      OlderFirst(sorted[0], rest);
    }
  }

  /** Sorting by age; nothing is promised about bindings of the same age. */
  method SortByCreation(bindings: seq<Binding>) returns (sorted: seq<Binding>)
    ensures OldestFirst(sorted) && multiset(sorted) == multiset(bindings)
  {
    sorted := [];
    for i := 0 to |bindings|
      invariant OldestFirst(sorted) && multiset(sorted) == multiset(bindings[..i])
    {
      InsertByAgeSorts(bindings[i], sorted);
      InsertByAgeAdds(bindings[i], sorted);
      sorted := InsertByAge(bindings[i], sorted);
      assert bindings[..i + 1] == bindings[..i] + [bindings[i]];
    }
    assert bindings[..|bindings|] == bindings;
  }

  predicate IsOldest(group: seq<Binding>, b: Binding) {
    b in group && forall c :: c in group ==> b.created <= c.created
  }

  /** The bindings of a group that are to go: all but the one with the found name, or all
      but one of the oldest. */
  ghost predicate IsVictims(group: seq<Binding>, lookup: Lookup, victims: seq<Binding>) {
    if lookup.found then forall b :: b in victims <==> b in group && b.name != lookup.name
    else exists keep :: IsOldest(group, keep) && forall b :: b in victims <==> b in group && b != keep
  }

  lemma {:induction false} OnceIsOnce(a: seq<Binding>, x: Binding)
    requires Unique(a)
    ensures multiset(a)[x] <= 1
  {
    if a != [] {
      OnceIsOnce(a[..|a| - 1], x);
      assert a == a[..|a| - 1] + [a[|a| - 1]];
      if x == a[|a| - 1] {
        assert x !in a[..|a| - 1];
      }
    }
  }

  lemma Twice(b: seq<Binding>, i: nat, j: nat)
    requires i < j < |b| && b[i] == b[j]
    ensures multiset(b)[b[i]] >= 2
  {
    assert b == b[..j] + b[j..];
    assert b[i] in b[..j] && b[j] in b[j..];
    assert multiset(b) == multiset(b[..j]) + multiset(b[j..]);
  }

  lemma {:induction false} UniqueIsSetLike(a: seq<Binding>, b: seq<Binding>)
    requires Unique(a) && multiset(a) == multiset(b)
    ensures Unique(b) && forall x :: x in a <==> x in b
  {
    forall x ensures x in a <==> x in b {
      assert x in multiset(a) <==> x in multiset(b);
    }
    forall i, j | 0 <= i < j < |b| ensures KeyOf(b[i]) != KeyOf(b[j]) {
      if KeyOf(b[i]) == KeyOf(b[j]) {
        assert b[i] in a && b[j] in a;
        var k :| 0 <= k < |a| && a[k] == b[i];
        var l :| 0 <= l < |a| && a[l] == b[j];
        assert k == l;
        OnceIsOnce(a, b[i]);
        Twice(b, i, j);
      }
    }
  }

  function Namespaces(bindings: seq<Binding>): set<string> {
    set b | b in bindings :: b.namespace
  }

  lemma {:induction false} EmptyGroup(bindings: seq<Binding>, ns: string)
    requires ns !in Namespaces(bindings)
    ensures Group(bindings, ns) == []
  {
    if bindings != [] {
      assert bindings[|bindings| - 1].namespace in Namespaces(bindings);
      EmptyGroup(bindings[..|bindings| - 1], ns);
    }
  }

  method GroupByNamespace(bindings: seq<Binding>) returns (groups: map<string, seq<Binding>>)
    ensures groups.Keys == Namespaces(bindings)
    ensures forall ns :: ns in groups ==> groups[ns] == Group(bindings, ns) && groups[ns] != []
  {
    groups := map[];
    for i := 0 to |bindings|
      invariant groups.Keys == Namespaces(bindings[..i])
      invariant forall ns :: ns in groups ==> groups[ns] == Group(bindings[..i], ns) && groups[ns] != []
    {
      var b := bindings[i];
      assert bindings[..i + 1][..i] == bindings[..i];
      assert bindings[..i + 1] == bindings[..i] + [b];
      assert Namespaces(bindings[..i + 1]) == Namespaces(bindings[..i]) + {b.namespace};
      if b.namespace !in groups {
        EmptyGroup(bindings[..i], b.namespace);
      }
      groups := groups[b.namespace := (if b.namespace in groups then groups[b.namespace] else []) + [b]];
    }
    assert bindings[..|bindings|] == bindings;
  }

  ghost predicate GroupCleaned(bindings: seq<Binding>, lookup: Binding -> Lookup, ns: string, victims: seq<Binding>) {
    var group := Group(bindings, ns);
    group != [] && IsVictims(group, lookup(group[0]), Group(victims, ns))
  }

  /** The namespaces outside `rest` are dealt with: `victims` are the bindings to go of each,
      one lookup per namespace being made for its first binding, and no others. */
  ghost predicate Cleaned(bindings: seq<Binding>, lookup: Binding -> Lookup, rest: set<string>, victims: seq<Binding>) {
    && Unique(victims)
    && (forall b :: b in victims ==> b in bindings && b.namespace !in rest)
    && (forall ns :: ns in Namespaces(bindings) && ns !in rest ==> GroupCleaned(bindings, lookup, ns, victims))
  }

  lemma {:induction false} GroupSplits(a: seq<Binding>, b: seq<Binding>, ns: string)
    ensures Group(a + b, ns) == Group(a, ns) + Group(b, ns)
    decreases |b|
  {
    if b == [] {
      assert a + b == a;
    } else {
      assert (a + b)[..|a + b| - 1] == a + b[..|b| - 1];
      GroupSplits(a, b[..|b| - 1], ns);
    }
  }

  lemma {:induction false} WholeGroup(b: seq<Binding>, ns: string)
    requires forall x :: x in b ==> x.namespace == ns
    ensures Group(b, ns) == b
    decreases |b|
  {
    if b != [] {
      WholeGroup(b[..|b| - 1], ns);
      assert b == b[..|b| - 1] + [b[|b| - 1]];
    }
  }

  /** Appending the victims of a new namespace leaves the other groups alone. */
  lemma GroupsJoin(victims: seq<Binding>, gone: seq<Binding>, ns: string)
    requires Unique(victims) && Unique(gone)
    requires forall b :: b in victims ==> b.namespace != ns
    requires forall b :: b in gone ==> b.namespace == ns
    ensures Unique(victims + gone)
    ensures Group(victims + gone, ns) == gone
    ensures forall m :: m != ns ==> Group(victims + gone, m) == Group(victims, m)
  {
    GroupSplits(victims, gone, ns);
    WholeGroup(gone, ns);
    assert ns !in Namespaces(victims);
    EmptyGroup(victims, ns);
    forall m | m != ns ensures Group(victims + gone, m) == Group(victims, m) {
      GroupSplits(victims, gone, m);
      assert m !in Namespaces(gone);
      EmptyGroup(gone, m);
    }
  }

  lemma CleanOneMore(bindings: seq<Binding>, lookup: Binding -> Lookup, rest: set<string>, victims: seq<Binding>,
                     ns: string, gone: seq<Binding>)
    requires Cleaned(bindings, lookup, rest, victims) && ns in rest
    requires Unique(gone) && Group(bindings, ns) != []
    requires IsVictims(Group(bindings, ns), lookup(Group(bindings, ns)[0]), gone)
    ensures Cleaned(bindings, lookup, rest - {ns}, victims + gone)
  {
    GroupExactly(bindings, ns);
    assert forall b :: b in gone ==> b in Group(bindings, ns);
    GroupsJoin(victims, gone, ns);
    forall m | m in Namespaces(bindings) && m !in rest - {ns} ensures GroupCleaned(bindings, lookup, m, victims + gone) {
      if m != ns {
        assert GroupCleaned(bindings, lookup, m, victims);
      }
    }
  }

  lemma DeletionsAdd(before: set<Key>, victims: seq<Binding>, gone: seq<Binding>, refused: set<Key>)
    ensures before - (Keys(victims) - refused) - (Keys(gone) - refused) == before - (Keys(victims + gone) - refused)
  {
    assert Keys(victims + gone) == Keys(victims) + Keys(gone);
  }

  /** The cleanup, on the bindings that exist. `refused` are those whose deletion fails,
      which is only logged. */
  class Cleanup {
    var store: set<Key>
    const dryRun: bool
    const refused: set<Key>

    constructor (store: set<Key>, dryRun: bool, refused: set<Key>)
      ensures this.store == store && this.dryRun == dryRun && this.refused == refused
    {
      this.store, this.dryRun, this.refused := store, dryRun, refused;
    }

    /** The loop over the duplicates, which passes over the binding with the found name. */
    method DeleteAll(duplicates: seq<Binding>, lookup: Lookup) returns (count: nat, ghost victims: seq<Binding>)
      requires Unique(duplicates)
      modifies this
      ensures count == |victims| && Unique(victims)
      ensures forall b :: b in victims <==> b in duplicates && !(lookup.found && b.name == lookup.name)
      ensures store == if dryRun then old(store) else old(store) - (Keys(victims) - refused)
    {
      count, victims := 0, [];
      for i := 0 to |duplicates|
        invariant count == |victims| && Unique(victims)
        invariant forall b :: b in victims <==> b in duplicates[..i] && !(lookup.found && b.name == lookup.name)
        invariant store == if dryRun then old(store) else old(store) - (Keys(victims) - refused)
      {
        var b := duplicates[i];
        assert duplicates[..i + 1] == duplicates[..i] + [b];
        if lookup.found && b.name == lookup.name {
          continue;
        }
        assert forall c :: c in victims ==> KeyOf(c) != KeyOf(b);
        assert Keys(victims + [b]) == Keys(victims) + {KeyOf(b)};
        count := count + 1;
        victims := victims + [b];
        if !dryRun && KeyOf(b) !in refused {
          store := store - {KeyOf(b)};
        }
      }
      assert duplicates[..|duplicates|] == duplicates;
    }

    /** One group: all cluster role bindings of an owner, or its role bindings of one namespace. */
    method DedupeGroup(group: seq<Binding>, lookup: Lookup) returns (count: nat, ghost victims: seq<Binding>)
      requires group != [] && Unique(group)
      modifies this
      ensures IsVictims(group, lookup, victims) && Unique(victims) && count == |victims|
      ensures store == if dryRun then old(store) else old(store) - (Keys(victims) - refused)
    {
      var duplicates := group;
      if !lookup.found {
        var sorted := SortByCreation(group);
        UniqueIsSetLike(group, sorted);
        duplicates := sorted[1..];
        assert sorted == [sorted[0]] + duplicates;
        assert IsOldest(group, sorted[0]);
      }
      count, victims := DeleteAll(duplicates, lookup);
    }

    /** All role bindings, group by group in whatever order the namespaces come. */
    method DedupeRB(bindings: seq<Binding>, lookup: Binding -> Lookup) returns (count: nat, ghost victims: seq<Binding>)
      requires Unique(bindings)
      modifies this
      ensures count == |victims| && Cleaned(bindings, lookup, {}, victims)
      ensures store == if dryRun then old(store) else old(store) - (Keys(victims) - refused)
    {
      var groups := GroupByNamespace(bindings);
      count, victims := 0, [];
      var rest := groups.Keys;
      while rest != {}
        invariant rest <= groups.Keys
        invariant count == |victims| && Cleaned(bindings, lookup, rest, victims)
        invariant store == if dryRun then old(store) else old(store) - (Keys(victims) - refused)
        decreases |rest|
      {
        var ns :| ns in rest;
        UniqueGroup(bindings, ns);
        var n;
        ghost var gone;
        n, gone := DedupeGroup(groups[ns], lookup(groups[ns][0]));
        CleanOneMore(bindings, lookup, rest, victims, ns, gone);
        DeletionsAdd(old(store), victims, gone, refused);
        rest := rest - {ns};
        count := count + n;
        victims := victims + gone;
      }
    }
  }

  lemma SameKeySame(bindings: seq<Binding>, b: Binding, c: Binding)
    requires Unique(bindings) && b in bindings && c in bindings && KeyOf(b) == KeyOf(c)
    ensures b == c
  {
    var i :| 0 <= i < |bindings| && bindings[i] == b;
    var j :| 0 <= j < |bindings| && bindings[j] == c;
  }

  /** After a cleanup that keeps `key` there are left of the group exactly that one, if it is
      in it, and those whose deletion was refused. */
  predicate LeftAfter(group: seq<Binding>, key: Key, refused: set<Key>, after: set<Key>) {
    key in after && forall b :: b in group ==> (KeyOf(b) in after <==> KeyOf(b) == key || KeyOf(b) in refused)
  }

  lemma VictimsGo(bindings: seq<Binding>, ns: string, victims: seq<Binding>, b: Binding)
    requires Unique(bindings) && b in Group(bindings, ns)
    requires forall v :: v in victims ==> v in bindings
    ensures KeyOf(b) in Keys(victims) <==> b in Group(victims, ns)
  {
    GroupExactly(bindings, ns);
    GroupExactly(victims, ns);
    if KeyOf(b) in Keys(victims) {
      var v :| v in victims && KeyOf(v) == KeyOf(b);
      SameKeySame(bindings, b, v);
    }
  }

  /** What a cleanup achieves in a namespace, whatever deletions the API refuses. Of the listed
      bindings there are left exactly the one that is kept and those whose deletion was
      refused; kept is the one with the found name, or one of the oldest when none was
      found. So no namespace is left without a binding: the kept or the found one exists. */
  lemma OneBindingSurvives(bindings: seq<Binding>, lookup: Binding -> Lookup, victims: seq<Binding>, ns: string,
                           refused: set<Key>, before: set<Key>, after: set<Key>)
    requires Unique(bindings) && Cleaned(bindings, lookup, {}, victims) && ns in Namespaces(bindings)
    requires Group(bindings, ns) != [] && Keys(bindings) <= before && after == before - (Keys(victims) - refused)
    requires lookup(Group(bindings, ns)[0]).found ==> (ns, lookup(Group(bindings, ns)[0]).name) in before
    ensures var group, found := Group(bindings, ns), lookup(Group(bindings, ns)[0]);
            if found.found then LeftAfter(group, (ns, found.name), refused, after)
            else exists keep :: IsOldest(group, keep) && LeftAfter(group, KeyOf(keep), refused, after)
    ensures refused == {} ==>
              forall b, c | b in bindings && c in bindings && KeyOf(b) in after && KeyOf(c) in after ::
                b.namespace == c.namespace == ns ==> b == c
  {
    var group, gone, found := Group(bindings, ns), Group(victims, ns), lookup(Group(bindings, ns)[0]);
    GroupExactly(bindings, ns);
    GroupExactly(victims, ns);
    assert GroupCleaned(bindings, lookup, ns, victims);
    forall b | b in group ensures KeyOf(b) in after <==> b !in gone || KeyOf(b) in refused {
      VictimsGo(bindings, ns, victims, b);
    }
    if found.found {
      forall v | v in victims ensures KeyOf(v) != (ns, found.name) {
        assert v.namespace == ns ==> v in gone;
      }
      forall b, c | b in group && c in group && b !in gone && c !in gone ensures b == c {
        SameKeySame(group, b, c);
      }
    } else {
      var keep :| IsOldest(group, keep) && forall b :: b in gone <==> b in group && b != keep;
      forall b | b in group && KeyOf(b) == KeyOf(keep) ensures b == keep { SameKeySame(group, b, keep); }
      assert LeftAfter(group, KeyOf(keep), refused, after);
    }
  }

  lemma KeysButLast(victims: seq<Binding>)
    requires Unique(victims) && victims != []
    ensures var rest, last := victims[..|victims| - 1], victims[|victims| - 1];
            Unique(rest) && Keys(victims) == Keys(rest) + {KeyOf(last)} && KeyOf(last) !in Keys(rest)
  {
    assert victims == victims[..|victims| - 1] + [victims[|victims| - 1]];
  }

  lemma {:induction false} AsManyKeys(victims: seq<Binding>)
    requires Unique(victims)
    ensures |Keys(victims)| == |victims|
    decreases |victims|
  {
    if victims != [] {
      KeysButLast(victims);
      AsManyKeys(victims[..|victims| - 1]);
    }
  }

  lemma DeletedPart(before: set<Key>, keys: set<Key>, refused: set<Key>)
    requires keys <= before
    ensures |before| - |before - (keys - refused)| == |keys| - |keys * refused|
  {
    var gone := keys - refused;
    assert before == (before - gone) + gone && (before - gone) !! gone;
    assert keys == gone + keys * refused && gone !! keys * refused;
  }

  /** The store shrinks by the count, less the refused deletions. */
  lemma CountIsDeletions(victims: seq<Binding>, refused: set<Key>, before: set<Key>)
    requires Unique(victims) && Keys(victims) <= before
    ensures |before| - |before - (Keys(victims) - refused)| == |victims| - |Keys(victims) * refused|
  {
    AsManyKeys(victims);
    DeletedPart(before, Keys(victims), refused);
  }
}
