/** Merging node taints into the kubelet's command line. */
module KubeletTaints {
  import opened Options
  import opened Text
  import opened Taints

  /** Position `i` is the last one in the list with its key and effect. */
  predicate IsLast(taints: seq<Taint>, i: int) {
    0 <= i < |taints| && forall j :: i < j < |taints| ==> KeyEffect(taints[j]) != KeyEffect(taints[i])
  }

  predicate HasKeyEffect(taints: seq<Taint>, key: string) {
    exists j :: 0 <= j < |taints| && KeyEffect(taints[j]) == key
  }

  ghost predicate IsIndex(taints: seq<Taint>, index: map<string, nat>) {
    && (forall k :: k in index <==> HasKeyEffect(taints, k))
    && (forall k :: k in index ==> IsLast(taints, index[k]) && KeyEffect(taints[index[k]]) == k)
  }

  /** The index from key and effect to the last position that has them. */
  method GetKeyEffectTaintSet(taints: seq<Taint>) returns (index: map<string, nat>)
    ensures IsIndex(taints, index)
  {
    index := map[];
    for i := 0 to |taints|
      invariant forall k :: k in index <==> exists j :: 0 <= j < i && KeyEffect(taints[j]) == k
      invariant forall k :: k in index ==>
                  && index[k] < i && KeyEffect(taints[index[k]]) == k
                  && forall j :: index[k] < j < i ==> KeyEffect(taints[j]) != k
    {
      index := index[KeyEffect(taints[i]) := i];
    }
  }

  predicate UniqueKeyEffects(taints: seq<Taint>) {
    forall i, j :: 0 <= i < j < |taints| ==> KeyEffect(taints[i]) != KeyEffect(taints[j])
  }

  ghost predicate Survives(older: seq<Taint>, newer: seq<Taint>, t: Taint) {
    (exists i :: IsLast(older, i) && older[i] == t) && !HasKeyEffect(newer, KeyEffect(t))
  }

  /** `extra` is, in some order, the taints of `older` that no taint of `newer` overrides,
      the last one kept of several with the same key and effect. */
  ghost predicate IsLeftover(older: seq<Taint>, newer: seq<Taint>, extra: seq<Taint>) {
    && UniqueKeyEffects(extra)
    && forall t :: t in extra <==> Survives(older, newer, t)
  }

  /** Survivors are what the index of the older taints holds under keys the newer ones lack. */
  lemma SurvivorsByIndex(older: seq<Taint>, newer: seq<Taint>, index1: map<string, nat>, index2: map<string, nat>, t: Taint)
    requires IsIndex(older, index1) && IsIndex(newer, index2)
    ensures Survives(older, newer, t) <==>
              var k := KeyEffect(t); k in index1 && k !in index2 && older[index1[k]] == t
  {
    var k := KeyEffect(t);
    if Survives(older, newer, t) {
      var i :| IsLast(older, i) && older[i] == t;
      assert HasKeyEffect(older, k);
      assert IsLast(older, index1[k]);
      assert index1[k] == i;
    }
  }

  /** Under way: the keys gone through that the newer taints lack, with their older taints. */
  ghost predicate Merging(older: seq<Taint>, index1: map<string, nat>, index2: map<string, nat>,
                          rest: set<string>, keys: seq<string>, extra: seq<Taint>) {
    && |keys| == |extra| && Distinct(keys)
    && (forall k :: k in index1 ==> index1[k] < |older|)
    && (forall i :: 0 <= i < |keys| ==>
          && keys[i] in index1 && keys[i] !in rest && keys[i] !in index2
          && extra[i] == older[index1[keys[i]]])
    && (forall k :: k in index1 && k !in index2 && k !in rest ==> k in keys)
  }

  lemma MergeOneMore(older: seq<Taint>, index1: map<string, nat>, index2: map<string, nat>,
                     rest: set<string>, keys: seq<string>, extra: seq<Taint>, key: string)
    requires Merging(older, index1, index2, rest, keys, extra) && key in rest && key in index1
    ensures key in index2 ==> Merging(older, index1, index2, rest - {key}, keys, extra)
    ensures key !in index2 ==>
              Merging(older, index1, index2, rest - {key}, keys + [key], extra + [older[index1[key]]])
  {
    forall i | 0 <= i < |keys| ensures keys[i] != key { assert keys[i] !in rest; }
  }

  /** Append the older taints under keys the newer index lacks, in the order in which
      ranging over the older index happens to yield them. */
  method AppendMissing(older: seq<Taint>, newer: seq<Taint>, index1: map<string, nat>, index2: map<string, nat>)
    returns (r: seq<Taint>, ghost keys: seq<string>)
    requires forall k :: k in index1 ==> index1[k] < |older|
    ensures newer <= r && Merging(older, index1, index2, {}, keys, r[|newer|..])
  {
    r, keys := newer, [];
    ghost var extra := [];
    var rest := index1.Keys;
    while rest != {}
      invariant rest <= index1.Keys
      invariant r == newer + extra
      invariant Merging(older, index1, index2, rest, keys, extra)
      decreases |rest|
    {
      var key :| key in rest;
      MergeOneMore(older, index1, index2, rest, keys, extra, key);
      rest := rest - {key};
      if key !in index2 {
        r := r + [older[index1[key]]];
        extra := extra + [older[index1[key]]];
        keys := keys + [key];
      }
    }
  }

  lemma MergedByKeys(older: seq<Taint>, newer: seq<Taint>, index1: map<string, nat>, index2: map<string, nat>,
                     keys: seq<string>, extra: seq<Taint>)
    requires IsIndex(older, index1) && IsIndex(newer, index2)
    requires Merging(older, index1, index2, {}, keys, extra)
    ensures IsLeftover(older, newer, extra)
  {
    forall t ensures t in extra <==> Survives(older, newer, t) {
      SurvivorsByIndex(older, newer, index1, index2, t);
      if Survives(older, newer, t) {
        var i :| 0 <= i < |keys| && keys[i] == KeyEffect(t);
        assert extra[i] == t;
      }
    }
  }

  /** The merge: all newer taints, then the surviving older ones in some order. */
  method MergeTaints(older: seq<Taint>, newer: seq<Taint>) returns (r: seq<Taint>)
    ensures newer <= r && IsLeftover(older, newer, r[|newer|..])
  {
    var index1 := GetKeyEffectTaintSet(older);
    var index2 := GetKeyEffectTaintSet(newer);
    ghost var keys;
    r, keys := AppendMissing(older, newer, index1, index2);
    MergedByKeys(older, newer, index1, index2, keys, r[|newer|..]);
  }

  const KUBELET := "kubelet"
  const FLAG := "--register-with-taints="

  predicate IsTaintArg(arg: string) {
    FLAG <= arg
  }

  /** The value of the first taint argument, None when there is none. */
  function FirstTaintArg(command: seq<string>): Option<string> {
    if command == [] then None
    else if IsTaintArg(command[0]) then Some(command[0][|FLAG|..])
    else FirstTaintArg(command[1..])
  }

  function WithoutFirst(command: seq<string>): seq<string> {
    if command == [] then []
    else if IsTaintArg(command[0]) then command[1..]
    else [command[0]] + WithoutFirst(command[1..])
  }

  /** The taints a command line registers. */
  function CurrentTaints(command: seq<string>): seq<Taint> {
    var arg := FirstTaintArg(command);
    if arg.None? || arg.value == "" then [] else ParseAll(Split(arg.value, ','))
  }

  /** The command line after merging in the node's taints; `extra` is what is left of
      the taints it had. */
  function WithTaints(command: seq<string>, initial: seq<Taint>, extra: seq<Taint>): seq<string> {
    WithoutFirst(command) + [FLAG + Join(PrintAll(initial + extra), ',')]
  }

  function WithMerged(processes: map<string, seq<string>>, nodeTaints: seq<Taint>, extra: seq<Taint>): map<string, seq<string>>
    requires KUBELET in processes
  {
    processes[KUBELET := WithTaints(processes[KUBELET], OnlyPrintable(nodeTaints), extra)]
  }

  ghost predicate RewrittenWith(processes: map<string, seq<string>>, nodeTaints: seq<Taint>,
                                r: map<string, seq<string>>, extra: seq<Taint>)
    requires KUBELET in processes
  {
    && IsLeftover(CurrentTaints(processes[KUBELET]), OnlyPrintable(nodeTaints), extra)
    && r == WithMerged(processes, nodeTaints, extra)
  }

  /** What the rewrite may do to the processes; the order of the leftovers is open. */
  ghost predicate Rewritten(processes: map<string, seq<string>>, nodeTaints: seq<Taint>, r: map<string, seq<string>>) {
    if KUBELET !in processes || nodeTaints == [] then r == processes
    else exists extra :: RewrittenWith(processes, nodeTaints, r, extra)
  }

  /** Finds the first taint argument and takes it out of the command line. */
  method TakeTaintArg(command: seq<string>) returns (arg: Option<string>, rest: seq<string>)
    ensures arg == FirstTaintArg(command) && rest == WithoutFirst(command)
  {
    var i := 0;
    while i < |command|
      invariant 0 <= i <= |command|
      invariant FirstTaintArg(command) == FirstTaintArg(command[i..])
      invariant WithoutFirst(command) == command[..i] + WithoutFirst(command[i..])
    {
      assert command[i..][0] == command[i] && command[i..][1..] == command[i + 1..];
      if IsTaintArg(command[i]) {
        return Some(command[i][|FLAG|..]), command[..i] + command[i + 1..];
      }
      assert command[..i + 1] == command[..i] + [command[i]];
      i := i + 1;
    }
    assert command[..i] == command && command[i..] == [];
    return None, command;
  }

  lemma MergedRewrites(processes: map<string, seq<string>>, nodeTaints: seq<Taint>, merged: seq<Taint>)
    requires KUBELET in processes && OnlyPrintable(nodeTaints) <= merged
    requires IsLeftover(CurrentTaints(processes[KUBELET]), OnlyPrintable(nodeTaints), merged[|OnlyPrintable(nodeTaints)|..])
    ensures RewrittenWith(processes, nodeTaints,
                          processes[KUBELET := WithoutFirst(processes[KUBELET]) + [FLAG + Join(PrintAll(merged), ',')]],
                          merged[|OnlyPrintable(nodeTaints)|..])
  {
    assert merged == OnlyPrintable(nodeTaints) + merged[|OnlyPrintable(nodeTaints)|..];
  }

  method AppendTaintsToKubeletArgs(processes: map<string, seq<string>>, nodeTaints: seq<Taint>)
    returns (r: map<string, seq<string>>)
    ensures Rewritten(processes, nodeTaints, r)
  {
    r := processes;
    if KUBELET in processes && |nodeTaints| != 0 {
      var strings := GetStringsFromTaint(nodeTaints);
      var initial := GetTaintsFromStrings(strings);
      ParsePrintedAll(nodeTaints);
      var command := processes[KUBELET];
      var arg, rest := TakeTaintArg(command);
      var current := [];
      if arg.Some? && arg.value != "" {
        current := GetTaintsFromStrings(Split(arg.value, ','));
      }
      var merged := MergeTaints(current, initial);
      var printed := GetStringsFromTaint(merged);
      r := r[KUBELET := rest + [FLAG + Join(printed, ',')]];
      MergedRewrites(processes, nodeTaints, merged);
    }
  }

  /** The arguments that are not about taints, in their order. */
  function Others(command: seq<string>): seq<string> {
    if command == [] then []
    else (if IsTaintArg(command[0]) then [] else [command[0]]) + Others(command[1..])
  }

  /** The values of the taint arguments, in their order. */
  function Values(command: seq<string>): seq<string> {
    if command == [] then []
    else (if IsTaintArg(command[0]) then [command[0][|FLAG|..]] else []) + Values(command[1..])
  }

  /** The taints a value stands for. */
  function Registered(value: string): seq<Taint> {
    ParseAll(Split(value, ','))
  }

  lemma {:induction false} FirstTaken(command: seq<string>)
    ensures Others(WithoutFirst(command)) == Others(command)
    ensures Values(WithoutFirst(command)) == if Values(command) == [] then [] else Values(command)[1..]
    ensures FirstTaintArg(command) == if Values(command) == [] then None else Some(Values(command)[0])
  {
    if command != [] {
      if IsTaintArg(command[0]) {
        assert Values(command)[1..] == Values(command[1..]);
      } else {
        FirstTaken(command[1..]);
        assert WithoutFirst(command)[1..] == WithoutFirst(command[1..]);
        assert [] + Values(command[1..]) == Values(command[1..]);
        assert [] + Values(WithoutFirst(command[1..])) == Values(WithoutFirst(command[1..]));
      }
    }
  }

  /** What the text of a list of taints reads back as. */
  function Reread(taints: seq<Taint>): seq<Taint> {
    ParseAll(Split(Join(PrintAll(taints), ','), ','))
  }

  lemma NothingToRead()
    ensures ParseAll(Split("", ',')) == [] && Reread([]) == []
  {
    SplitWhole("", ',');
    SplitWhole("", '=');
    assert [""][..0] == [];
  }

  lemma CurrentAreFirst(command: seq<string>)
    ensures CurrentTaints(command) == if Values(command) == [] then [] else Registered(Values(command)[0])
  {
    FirstTaken(command);
    NothingToRead();
  }

  lemma {:induction false} ArgAppended(command: seq<string>, value: string)
    ensures Others(command + [FLAG + value]) == Others(command)
    ensures Values(command + [FLAG + value]) == Values(command) + [value]
    decreases |command|
  {
    var all := command + [FLAG + value];
    if command == [] {
      assert all[0][|FLAG|..] == value && all[1..] == [];
      assert Values(all[1..]) == [];
    } else {
      assert all[1..] == command[1..] + [FLAG + value];
      ArgAppended(command[1..], value);
    }
  }

  predicate NoCommas(taints: seq<Taint>) {
    forall i :: 0 <= i < |taints| ==> ',' !in Print(taints[i])
  }

  /** The values after a rewrite: the first one goes, and at the end comes one that stands for
      the given taints. */
  predicate Follow(values: seq<string>, values': seq<string>, taints: seq<Taint>) {
    && |values'| == (if values == [] then 1 else |values|)
    && values'[..|values'| - 1] == (if values == [] then [] else values[1..])
    && Registered(values'[|values'| - 1]) == taints
  }

  lemma {:induction false} PrintAllAt(taints: seq<Taint>)
    ensures |PrintAll(taints)| == |taints|
    ensures forall i :: 0 <= i < |taints| ==> PrintAll(taints)[i] == Print(taints[i])
  {
    if taints != [] {
      PrintAllAt(taints[..|taints| - 1]);
    }
  }

  /** The text of printable taints without commas reads back as the same taints. */
  lemma ReadBack(taints: seq<Taint>)
    requires NoCommas(taints) && AllPrintable(taints)
    ensures Reread(taints) == taints
  {
    if taints == [] {
      NothingToRead();
    } else {
      PrintAllAt(taints);
      SplitJoined(PrintAll(taints), ',');
      ParsePrintedAll(taints);
    }
  }

  lemma {:induction false} ParseAllSplits(a: seq<string>, b: seq<string>)
    ensures ParseAll(a + b) == ParseAll(a) + ParseAll(b)
    decreases |b|
  {
    if b == [] {
      assert a + b == a;
    } else {
      assert (a + b)[..|a + b| - 1] == a + b[..|b| - 1];
      ParseAllSplits(a, b[..|b| - 1]);
    }
  }

  /** Lists are read back one after the other, whatever their taints look like. */
  lemma RereadSplits(a: seq<Taint>, b: seq<Taint>)
    ensures Reread(a + b) == Reread(a) + Reread(b)
  {
    NothingToRead();
    if a == [] {
      assert a + b == b;
    } else if b == [] {
      assert a + b == a;
    } else {
      PrintAllAt(a);
      PrintAllAt(b);
      PrintAllAt(a + b);
      assert PrintAll(a + b) == PrintAll(a) + PrintAll(b);
      JoinSplits(PrintAll(a), PrintAll(b), ',');
      SplitAt(Join(PrintAll(a), ','), ',', Join(PrintAll(b), ','));
      ParseAllSplits(Split(Join(PrintAll(a), ','), ','), Split(Join(PrintAll(b), ','), ','));
    }
  }

  lemma {:induction false} ParsedFromFree(sources: seq<string>)
    requires Free(sources, ',')
    ensures NoCommas(ParseAll(sources)) && AllPrintable(ParseAll(sources))
  {
    if sources != [] {
      ParsedFromFree(sources[..|sources| - 1]);
      if Parse(sources[|sources| - 1]).Some? {
        PrintParsed(sources[|sources| - 1]);
      }
    }
  }

  lemma CurrentAreClean(command: seq<string>)
    ensures NoCommas(CurrentTaints(command)) && AllPrintable(CurrentTaints(command))
  {
    var arg := FirstTaintArg(command);
    if arg.Some? {
      SplitIsFree(arg.value, ',');
      ParsedFromFree(Split(arg.value, ','));
    }
  }

  lemma LeftoversAreClean(older: seq<Taint>, newer: seq<Taint>, extra: seq<Taint>)
    requires IsLeftover(older, newer, extra) && NoCommas(older) && AllPrintable(older)
    ensures NoCommas(extra) && AllPrintable(extra)
  {
    forall i | 0 <= i < |extra| ensures ',' !in Print(extra[i]) && Printable(extra[i]) {
      assert extra[i] in extra && Survives(older, newer, extra[i]);
    }
  }

  lemma NodeTaintsReadBack(nodeTaints: seq<Taint>)
    requires NoCommas(OnlyPrintable(nodeTaints))
    ensures Reread(OnlyPrintable(nodeTaints)) == OnlyPrintable(nodeTaints)
  {
    var initial := OnlyPrintable(nodeTaints);
    forall i | 0 <= i < |initial| ensures Printable(initial[i]) { OnlyPrintableExactly(nodeTaints, initial[i]); }
    ReadBack(initial);
  }

  /** What the rewrite does to any command line: the first taint argument goes, if there is one,
      and one comes at the end, which registers what the node's taints read back as,
      followed by the leftovers of the one that is gone; the other arguments stay in their
      order. */
  lemma RewriteRegistersMerged(processes: map<string, seq<string>>, nodeTaints: seq<Taint>, extra: seq<Taint>)
    requires KUBELET in processes
    requires IsLeftover(CurrentTaints(processes[KUBELET]), OnlyPrintable(nodeTaints), extra)
    ensures var command, r := processes[KUBELET], WithMerged(processes, nodeTaints, extra);
            && r.Keys == processes.Keys
            && (forall k :: k in processes && k != KUBELET ==> r[k] == processes[k])
            && Others(r[KUBELET]) == Others(command)
            && r[KUBELET] != [] && IsTaintArg(r[KUBELET][|r[KUBELET]| - 1])
            && Follow(Values(command), Values(r[KUBELET]), Reread(OnlyPrintable(nodeTaints)) + extra)
  {
    var command, initial := processes[KUBELET], OnlyPrintable(nodeTaints);
    FirstTaken(command);
    ArgAppended(WithoutFirst(command), Join(PrintAll(initial + extra), ','));
    RereadSplits(initial, extra);
    CurrentAreClean(command);
    LeftoversAreClean(CurrentTaints(command), initial, extra);
    ReadBack(extra);
  }

  lemma LongerKeyShows(s: Taint, t: Taint)
    requires KeyEffect(s) == KeyEffect(t) && |s.key| < |t.key|
    ensures ':' in s.effect
  {
    var text := KeyEffect(s);
    assert text[|t.key|] == ':';
    assert s.effect[|t.key| - |s.key| - 1] == text[|t.key|];
  }

  /** For printable taints the textual key and effect tell key and effect apart. */
  lemma KeyEffectTellsApart(s: Taint, t: Taint)
    requires Printable(s) && Printable(t)
    ensures KeyEffect(s) == KeyEffect(t) <==> s.key == t.key && s.effect == t.effect
  {
    var text := KeyEffect(s);
    if text == KeyEffect(t) {
      if |s.key| < |t.key| { LongerKeyShows(s, t); }
      if |t.key| < |s.key| { LongerKeyShows(t, s); }
      assert s.key == text[..|s.key|] == t.key;
      assert s.effect == text[|s.key| + 1..] == t.effect;
    }
  }

  predicate LastOfItsKind(taints: seq<Taint>, i: int) {
    && 0 <= i < |taints|
    && forall j :: i < j < |taints| ==> taints[j].key != taints[i].key || taints[j].effect != taints[i].effect
  }

  lemma LastByKind(taints: seq<Taint>, i: int)
    requires AllPrintable(taints)
    ensures IsLast(taints, i) <==> LastOfItsKind(taints, i)
  {
    if 0 <= i < |taints| {
      forall j | i < j < |taints|
        ensures KeyEffect(taints[j]) != KeyEffect(taints[i]) <==>
                taints[j].key != taints[i].key || taints[j].effect != taints[i].effect
      {
        KeyEffectTellsApart(taints[j], taints[i]);
      }
    }
  }

  lemma SameKeyEffectSomewhere(taints: seq<Taint>, t: Taint)
    requires Printable(t) && forall n :: n in taints ==> Printable(n)
    ensures HasKeyEffect(taints, KeyEffect(t)) <==>
              exists n :: n in taints && n.key == t.key && n.effect == t.effect
  {
    if HasKeyEffect(taints, KeyEffect(t)) {
      var j :| 0 <= j < |taints| && KeyEffect(taints[j]) == KeyEffect(t);
      KeyEffectTellsApart(taints[j], t);
      assert taints[j] in taints;
    }
    if n :| n in taints && n.key == t.key && n.effect == t.effect {
      KeyEffectTellsApart(n, t);
      var j :| 0 <= j < |taints| && taints[j] == n;
    }
  }

  /** A taint of the former argument is left over exactly when no node taint has its key and
      effect and it is the last of the argument that has them. */
  lemma LeftoverExactly(command: seq<string>, nodeTaints: seq<Taint>, extra: seq<Taint>, t: Taint)
    requires IsLeftover(CurrentTaints(command), OnlyPrintable(nodeTaints), extra)
    ensures t in extra <==>
              && (exists i :: LastOfItsKind(CurrentTaints(command), i) && CurrentTaints(command)[i] == t)
              && forall n :: n in nodeTaints && Printable(n) ==> n.key != t.key || n.effect != t.effect
  {
    var current, initial := CurrentTaints(command), OnlyPrintable(nodeTaints);
    forall n ensures n in initial <==> n in nodeTaints && Printable(n) { OnlyPrintableExactly(nodeTaints, n); }
    CurrentAreClean(command);
    forall i ensures IsLast(current, i) <==> LastOfItsKind(current, i) { LastByKind(current, i); }
    assert t in extra <==> Survives(current, initial, t);
    if i :| 0 <= i < |current| && current[i] == t {
      SameKeyEffectSomewhere(initial, t);
    }
  }

  /** Which taints the new argument, the last one, registers: what the node's taints read back
      as, which are the printable ones if they have no commas, and of those registered by
      the argument that is gone exactly the ones whose key and effect no node taint has, the
      last of several with the same key and effect. */
  lemma RegisteredExactly(processes: map<string, seq<string>>, nodeTaints: seq<Taint>,
                          r: map<string, seq<string>>, t: Taint)
    requires KUBELET in processes && nodeTaints != [] && Rewritten(processes, nodeTaints, r)
    ensures KUBELET in r && Values(r[KUBELET]) != []
    ensures var current, values := CurrentTaints(processes[KUBELET]), Values(r[KUBELET]);
            t in Registered(values[|values| - 1]) <==>
              || t in Reread(OnlyPrintable(nodeTaints))
              || (&& (exists i :: LastOfItsKind(current, i) && current[i] == t)
                  && forall n :: n in nodeTaints && Printable(n) ==> n.key != t.key || n.effect != t.effect)
    ensures NoCommas(OnlyPrintable(nodeTaints)) ==>
              (t in Reread(OnlyPrintable(nodeTaints)) <==> t in nodeTaints && Printable(t))
  {
    var extra :| RewrittenWith(processes, nodeTaints, r, extra);
    RewriteRegistersMerged(processes, nodeTaints, extra);
    LeftoverExactly(processes[KUBELET], nodeTaints, extra, t);
    if NoCommas(OnlyPrintable(nodeTaints)) {
      NodeTaintsReadBack(nodeTaints);
      OnlyPrintableExactly(nodeTaints, t);
    }
  }

  lemma {:induction false} LastWith(taints: seq<Taint>, key: string) returns (i: nat)
    requires HasKeyEffect(taints, key)
    ensures IsLast(taints, i) && KeyEffect(taints[i]) == key
  {
    var last := |taints| - 1;
    if KeyEffect(taints[last]) == key {
      i := last;
    } else {
      i := LastWith(taints[..last], key);
    }
  }

  lemma LeftoverKeys(older: seq<Taint>, newer: seq<Taint>, extra: seq<Taint>, key: string)
    requires IsLeftover(older, newer, extra)
    ensures HasKeyEffect(extra, key) <==> HasKeyEffect(older, key) && !HasKeyEffect(newer, key)
  {
    if HasKeyEffect(extra, key) {
      var j :| 0 <= j < |extra| && KeyEffect(extra[j]) == key;
      assert extra[j] in extra && Survives(older, newer, extra[j]);
    }
    if HasKeyEffect(older, key) && !HasKeyEffect(newer, key) {
      var i := LastWith(older, key);
      assert Survives(older, newer, older[i]);
      assert older[i] in extra;
    }
  }

  lemma LeftoversStay(older: seq<Taint>, newer: seq<Taint>, read: seq<Taint>, extra: seq<Taint>, extra': seq<Taint>, t: Taint)
    requires IsLeftover(older, newer, extra) && IsLeftover(read + extra, newer, extra') && t in extra
    ensures t in extra'
  {
    var i :| 0 <= i < |extra| && extra[i] == t;
    assert Survives(older, newer, t);
    assert IsLast(read + extra, |read| + i);
    assert Survives(read + extra, newer, t);
  }

  /** Every taint that was read has the key and effect of a newer or of an older one. */
  predicate AllKnown(read: seq<Taint>, newer: seq<Taint>, older: seq<Taint>) {
    forall i :: 0 <= i < |read| ==> HasKeyEffect(newer, KeyEffect(read[i])) || HasKeyEffect(older, KeyEffect(read[i]))
  }

  lemma ShadowedIsNotLast(read: seq<Taint>, extra: seq<Taint>, i: nat)
    ensures i < |read| && HasKeyEffect(extra, KeyEffect(read[i])) ==> !IsLast(read + extra, i)
  {
    if i < |read| && HasKeyEffect(extra, KeyEffect(read[i])) {
      var j :| 0 <= j < |extra| && KeyEffect(extra[j]) == KeyEffect(read[i]);
      assert (read + extra)[|read| + j] == extra[j];
    }
  }

  lemma KnownAddNothing(older: seq<Taint>, newer: seq<Taint>, read: seq<Taint>, extra: seq<Taint>, extra': seq<Taint>, t: Taint)
    requires IsLeftover(older, newer, extra) && IsLeftover(read + extra, newer, extra')
    requires AllKnown(read, newer, older) && t in extra'
    ensures t in extra
  {
    assert Survives(read + extra, newer, t);
    var i :| IsLast(read + extra, i) && (read + extra)[i] == t;
    LeftoverKeys(older, newer, extra, KeyEffect(t));
    ShadowedIsNotLast(read, extra, i);
  }

  /** A taint that was read and is not known is one leftover more. */
  lemma UnknownAdds(older: seq<Taint>, newer: seq<Taint>, read: seq<Taint>, extra: seq<Taint>, extra': seq<Taint>, i: nat)
    returns (t: Taint)
    requires IsLeftover(older, newer, extra) && IsLeftover(read + extra, newer, extra') && i < |read|
    requires !HasKeyEffect(newer, KeyEffect(read[i])) && !HasKeyEffect(older, KeyEffect(read[i]))
    ensures t in extra' && t !in extra
  {
    var key := KeyEffect(read[i]);
    assert (read + extra)[i] == read[i];
    var last := LastWith(read + extra, key);
    t := (read + extra)[last];
    LeftoverKeys(older, newer, extra, key);
    assert Survives(read + extra, newer, t);
  }

  lemma {:induction false} AtMostOnce(a: seq<Taint>, t: Taint)
    requires UniqueKeyEffects(a)
    ensures multiset(a)[t] == if t in a then 1 else 0
  {
    if a != [] {
      var rest, last := a[..|a| - 1], a[|a| - 1];
      AtMostOnce(rest, t);
      assert a == rest + [last];
    }
  }

  lemma SameElementsSameMultiset(a: seq<Taint>, b: seq<Taint>)
    requires UniqueKeyEffects(a) && UniqueKeyEffects(b)
    ensures multiset(a) == multiset(b) <==> forall t :: t in a <==> t in b
  {
    forall t ensures (multiset(a)[t] == multiset(b)[t]) <==> (t in a <==> t in b) {
      AtMostOnce(a, t);
      AtMostOnce(b, t);
    }
  }

  lemma SameLeftoversExactlyWhen(older: seq<Taint>, newer: seq<Taint>, read: seq<Taint>, extra: seq<Taint>, extra': seq<Taint>)
    requires IsLeftover(older, newer, extra) && IsLeftover(read + extra, newer, extra')
    ensures multiset(extra') == multiset(extra) <==> AllKnown(read, newer, older)
  {
    SameElementsSameMultiset(extra', extra);
    forall t | t in extra ensures t in extra' { LeftoversStay(older, newer, read, extra, extra', t); }
    if AllKnown(read, newer, older) {
      forall t | t in extra' ensures t in extra { KnownAddNothing(older, newer, read, extra, extra', t); }
    } else {
      var i :| 0 <= i < |read|
            && !HasKeyEffect(newer, KeyEffect(read[i])) && !HasKeyEffect(older, KeyEffect(read[i]));
      var t := UnknownAdds(older, newer, read, extra, extra', i);
    }
  }

  lemma CommonPrefix(p: seq<Taint>, a: seq<Taint>, b: seq<Taint>)
    ensures multiset(p + a) == multiset(p + b) <==> multiset(a) == multiset(b)
  {
    assert multiset(p + a) == multiset(p) + multiset(a) && multiset(p + b) == multiset(p) + multiset(b);
    assert multiset(p + a) - multiset(p) == multiset(a) && multiset(p + b) - multiset(p) == multiset(b);
  }

  /** Exactly when a second rewrite leaves the taints that the first argument registers. With at
      most one taint argument: every taint that the printed node taints read back as has the
      key and effect of a node taint or of a taint registered before. With two: the second
      argument registers what the merge of the first with the node taints does. With more:
      the second and the third argument register the same. */
  ghost predicate Settles(command: seq<string>, initial: seq<Taint>) {
    var values := Values(command);
    if |values| <= 1 then AllKnown(Reread(initial), initial, CurrentTaints(command))
    else if |values| == 2 then
      exists extra :: IsLeftover(CurrentTaints(command), initial, extra)
                   && multiset(Reread(initial) + extra) == multiset(Registered(values[1]))
    else multiset(Registered(values[2])) == multiset(Registered(values[1]))
  }

  lemma SameLeftovers(older: seq<Taint>, newer: seq<Taint>, extra: seq<Taint>, extra': seq<Taint>)
    requires IsLeftover(older, newer, extra) && IsLeftover(older, newer, extra')
    ensures multiset(extra) == multiset(extra')
  {
    SameElementsSameMultiset(extra, extra');
  }

  lemma TwoSettleExactlyWhen(command: seq<string>, initial: seq<Taint>, extra: seq<Taint>)
    requires IsLeftover(CurrentTaints(command), initial, extra) && |Values(command)| == 2
    ensures multiset(Reread(initial) + extra) == multiset(Registered(Values(command)[1])) <==> Settles(command, initial)
  {
    if Settles(command, initial) {
      var other :| IsLeftover(CurrentTaints(command), initial, other)
                && multiset(Reread(initial) + other) == multiset(Registered(Values(command)[1]));
      SameLeftovers(CurrentTaints(command), initial, extra, other);
      CommonPrefix(Reread(initial), extra, other);
    }
  }

  /** What the first values are after a rewrite. */
  lemma FirstFollows(values: seq<string>, values': seq<string>, taints: seq<Taint>)
    requires Follow(values, values', taints)
    ensures |values'| == if values == [] then 1 else |values|
    ensures |values| <= 1 ==> Registered(values'[0]) == taints
    ensures |values| == 2 ==> Registered(values'[1]) == taints
    ensures |values| >= 2 ==> values'[0] == values[1]
    ensures |values| >= 3 ==> values'[1] == values[2]
  {
    if |values| >= 2 {
      assert values'[0] == values'[..|values'| - 1][0];
    }
    if |values| >= 3 {
      assert values'[1] == values'[..|values'| - 1][1];
    }
  }

  lemma CurrentFollows(command: seq<string>, command': seq<string>, taints: seq<Taint>)
    requires Follow(Values(command), Values(command'), taints)
    ensures CurrentTaints(command') == if |Values(command)| <= 1 then taints else Registered(Values(command)[1])
  {
    FirstFollows(Values(command), Values(command'), taints);
    CurrentAreFirst(command');
  }

  lemma OneSettlesExactlyWhen(command: seq<string>, initial: seq<Taint>, extra: seq<Taint>, command': seq<string>, extra': seq<Taint>)
    requires |Values(command)| <= 1 && CurrentTaints(command') == Reread(initial) + extra
    requires IsLeftover(CurrentTaints(command), initial, extra) && IsLeftover(CurrentTaints(command'), initial, extra')
    ensures multiset(Reread(initial) + extra') == multiset(Reread(initial) + extra) <==> Settles(command, initial)
  {
    SameLeftoversExactlyWhen(CurrentTaints(command), initial, Reread(initial), extra, extra');
    CommonPrefix(Reread(initial), extra', extra);
  }

  /** Three command lines, each rewritten to the next. */
  lemma SettledExactlyWhen(command: seq<string>, initial: seq<Taint>, extra: seq<Taint>, command': seq<string>,
                           extra': seq<Taint>, command'': seq<string>)
    requires IsLeftover(CurrentTaints(command), initial, extra) && IsLeftover(CurrentTaints(command'), initial, extra')
    requires Follow(Values(command), Values(command'), Reread(initial) + extra)
    requires Follow(Values(command'), Values(command''), Reread(initial) + extra')
    ensures multiset(CurrentTaints(command'')) == multiset(CurrentTaints(command')) <==> Settles(command, initial)
  {
    CurrentFollows(command, command', Reread(initial) + extra);
    CurrentFollows(command', command'', Reread(initial) + extra');
    FirstFollows(Values(command), Values(command'), Reread(initial) + extra);
    if |Values(command)| <= 1 {
      OneSettlesExactlyWhen(command, initial, extra, command', extra');
    } else if |Values(command)| == 2 {
      TwoSettleExactlyWhen(command, initial, extra);
    }
  }

  /** Rewriting the rewritten command line again, with whatever order of the leftovers, keeps
      the other arguments, and leaves the taints that the first taint argument registers if
      and only if the command line settles. */
  lemma RewriteIsIdempotentExactlyWhen(processes: map<string, seq<string>>, nodeTaints: seq<Taint>,
                                       r: map<string, seq<string>>, r': map<string, seq<string>>)
    requires KUBELET in processes && nodeTaints != []
    requires Rewritten(processes, nodeTaints, r) && Rewritten(r, nodeTaints, r')
    ensures KUBELET in r && r'.Keys == r.Keys
    ensures forall k :: k in r && k != KUBELET ==> r'[k] == r[k]
    ensures Others(r'[KUBELET]) == Others(r[KUBELET])
    ensures multiset(CurrentTaints(r'[KUBELET])) == multiset(CurrentTaints(r[KUBELET])) <==>
            Settles(processes[KUBELET], OnlyPrintable(nodeTaints))
  {
    var extra :| RewrittenWith(processes, nodeTaints, r, extra);
    RewriteRegistersMerged(processes, nodeTaints, extra);
    var extra' :| RewrittenWith(r, nodeTaints, r', extra');
    RewriteRegistersMerged(r, nodeTaints, extra');
    SettledExactlyWhen(processes[KUBELET], OnlyPrintable(nodeTaints), extra, r[KUBELET], extra', r'[KUBELET]);
  }

  /** In particular it does with at most one taint argument, when no node taint has a comma. */
  lemma RewriteIsIdempotent(processes: map<string, seq<string>>, nodeTaints: seq<Taint>,
                            r: map<string, seq<string>>, r': map<string, seq<string>>)
    requires KUBELET in processes && |Values(processes[KUBELET])| <= 1
    requires NoCommas(OnlyPrintable(nodeTaints))
    requires Rewritten(processes, nodeTaints, r) && Rewritten(r, nodeTaints, r')
    ensures KUBELET in r && KUBELET in r'
    ensures multiset(CurrentTaints(r'[KUBELET])) == multiset(CurrentTaints(r[KUBELET]))
  {
    if nodeTaints != [] {
      NodeTaintsReadBack(nodeTaints);
      RewriteIsIdempotentExactlyWhen(processes, nodeTaints, r, r');
    }
  }

  /** A taint with something and a comma in front of its key. */
  function Prefixed(x: string, u: Taint): Taint {
    Taint(x + "," + u.key, u.value, u.effect)
  }

  predicate Prefix(x: string, u: Taint) {
    ',' !in x && '=' !in x && Printable(u) && ',' !in Print(u)
  }

  lemma PrefixedText(x: string, u: Taint)
    requires Prefix(x, u)
    ensures Print(Prefixed(x, u)) == x + [','] + Print(u)
    ensures Printable(Prefixed(x, u))
    ensures KeyEffect(Prefixed(x, u)) != KeyEffect(u)
  {
    assert |KeyEffect(Prefixed(x, u))| == |KeyEffect(u)| + |x| + 1;
    assert Print(Prefixed(x, u)) == (x + ",") + u.key + "=" + u.value + ":" + u.effect;
  }

  lemma ParsePair(x: string, u: Taint)
    requires Prefix(x, u)
    ensures ParseAll([x, Print(u)]) == [u]
  {
    ParsePrinted(u);
    SplitWhole(x, '=');
    assert [x, Print(u)][..1] == [x] && [x][..0] == [];
  }

  /** The text of a taint with a comma in its key reads back as another taint. */
  lemma CommaReadsBack(x: string, u: Taint)
    requires Prefix(x, u)
    ensures Reread([Prefixed(x, u)]) == [u]
  {
    PrintAllAt([Prefixed(x, u)]);
    assert PrintAll([Prefixed(x, u)]) == [Print(Prefixed(x, u))];
    PrefixedText(x, u);
    SplitWhole(Print(u), ',');
    SplitFirst(x, ',', Print(u));
    ParsePair(x, u);
    assert [x] + [Print(u)] == [x, Print(u)];
  }

  /** It happens: with a comma in the key of the node taint, and no taint argument before, the
      second rewrite never registers what the first one did. */
  lemma CommaBreaksIdempotence(x: string, u: Taint, processes: map<string, seq<string>>,
                               r: map<string, seq<string>>, r': map<string, seq<string>>)
    requires Prefix(x, u) && KUBELET in processes && Values(processes[KUBELET]) == []
    requires Rewritten(processes, [Prefixed(x, u)], r) && Rewritten(r, [Prefixed(x, u)], r')
    ensures KUBELET in r && KUBELET in r'
    ensures multiset(CurrentTaints(r'[KUBELET])) != multiset(CurrentTaints(r[KUBELET]))
  {
    var t := Prefixed(x, u);
    RewriteIsIdempotentExactlyWhen(processes, [t], r, r');
    PrefixedText(x, u);
    CommaReadsBack(x, u);
    AllStayExactlyWhen([t]);
    FirstTaken(processes[KUBELET]);
    assert !HasKeyEffect([t], KeyEffect([u][0])) && !HasKeyEffect([], KeyEffect([u][0]));
    assert !AllKnown([u], [t], []);
  }
}
