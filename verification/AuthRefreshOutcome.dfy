/** What a refresh gives in every world, read off the answers themselves: the tokens, the
    attributes and the failures, whatever the order of the providers and whatever fails. */
module AuthRefreshOutcome {
  import opened Options
  import opened AuthRefresh
  import Text
  import opened AuthRefreshLaws

  predicate Asked(p: Provider) {
    p.hasPrincipal && p.disabled != Some(true)
  }

  /** The groups had to be fetched again and could not. */
  predicate Silent(p: Provider) {
    Asked(p) && !p.unrefreshable && p.refetch == Unreachable
  }

  predicate Member(p: Provider) {
    Asked(p) && (p.unrefreshable || p.refetch != NoAccess)
  }

  predicate Welcome(p: Provider) {
    Member(p) && p.access == Some(true)
  }

  /** The per-user secret is needed and not there: the refresh ends with what it has. */
  predicate Locked(p: Provider) {
    Asked(p) && p.perUserSecrets == Some(true) && p.secret == SecretMissing
  }

  predicate LoginToken(w: World, t: string, name: string) {
    t in w.tokens && w.tokens[t].user == w.user && w.tokens[t].provider == name && !w.tokens[t].derived
  }

  predicate DerivedToken(w: World, t: string) {
    t in w.tokens && w.tokens[t].user == w.user && w.tokens[t].derived
  }

  /** One of the first `k` providers was silent. */
  ghost predicate Doubtful(w: World, order: seq<string>, k: nat)
    requires Listed(w, order) && k <= |order|
  {
    exists i :: 0 <= i < k && Silent(w.providers[order[i]])
  }

  /** A token vouches for the user at the `k`-th provider. */
  ghost predicate Vouched(w: World, order: seq<string>, k: nat)
    requires Listed(w, order) && k < |order|
  {
    var p := w.providers[order[k]];
    Member(p) &&
    (|| (exists t :: t in w.listed && LoginToken(w, t, order[k]))
     || ((Doubtful(w, order, k + 1) || p.access == Some(true)) &&
         exists t :: t in w.listed && DerivedToken(w, t) && w.tokens[t].provider == order[k]))
  }

  /** An answer the refresh needs is an error. */
  predicate Fails(p: Provider, doubtful: bool, vouched: bool) {
    || (Asked(p) && p.perUserSecrets == None)
    || (Asked(p) && p.perUserSecrets == Some(true) && p.secret == SecretFailed)
    || (Member(p) && !doubtful && p.access == None)
    || (vouched && !p.principalFound)
  }

  ghost predicate Breaks(w: World, order: seq<string>, k: nat)
    requires Listed(w, order) && k < |order|
  {
    Fails(w.providers[order[k]], Doubtful(w, order, k + 1), Vouched(w, order, k))
  }

  /** The login tokens of the `k`-th provider are to go. */
  ghost predicate Unwelcome(w: World, order: seq<string>, k: nat)
    requires Listed(w, order) && k < |order|
  {
    !Doubtful(w, order, k + 1) && !Welcome(w.providers[order[k]])
  }

  /** One of the first `m` listed tokens is a login token that the API refuses to delete. */
  ghost predicate Refused(w: World, store: Store, name: string, m: nat)
    requires m <= |w.listed|
  {
    exists i :: 0 <= i < m && LoginToken(w, w.listed[i], name) && w.listed[i] in store && w.listed[i] in w.refusesDelete
  }

  /** Token `t` is a login token among the first `m` listed, and nothing up to it is refused. */
  ghost predicate Cleared(w: World, store: Store, name: string, m: nat, t: string)
    requires m <= |w.listed|
  {
    exists i :: 0 <= i < m && w.listed[i] == t && LoginToken(w, t, name) && !Refused(w, store, name, i + 1)
  }

  /** The refresh gets past the `k`-th provider once it is there. */
  ghost predicate Passes(w: World, store: Store, order: seq<string>, k: nat)
    requires Listed(w, order) && k < |order|
  {
    && !Locked(w.providers[order[k]]) && !Breaks(w, order, k)
    && !(Unwelcome(w, order, k) && Refused(w, store, order[k], |w.listed|))
  }

  /** The refresh gets past the first `k` providers. */
  ghost predicate Reaches(w: World, store: Store, order: seq<string>, k: nat)
    requires Listed(w, order) && k <= |order|
  {
    forall i :: 0 <= i < k ==> Passes(w, store, order, i)
  }

  /** Token `t` is deleted in the turn of the `k`-th provider. */
  ghost predicate DropsAt(w: World, store: Store, order: seq<string>, k: nat, t: string)
    requires Listed(w, order) && k < |order|
  {
    && Reaches(w, store, order, k) && !Locked(w.providers[order[k]]) && !Breaks(w, order, k)
    && Unwelcome(w, order, k) && Cleared(w, store, order[k], |w.listed|, t)
  }

  /** All providers have answered, and nobody lets the user in. */
  ghost predicate Nobody(w: World, order: seq<string>)
    requires Listed(w, order)
  {
    !Doubtful(w, order, |order|) && forall n :: n in order ==> !Welcome(w.providers[n])
  }

  /** One of the first `m` listed derived tokens is gone or the API refuses to update it. */
  ghost predicate Stuck(w: World, store: Store, m: nat)
    requires m <= |w.listed|
  {
    exists i :: 0 <= i < m && DerivedToken(w, w.listed[i]) && (w.listed[i] !in store || w.listed[i] in w.refusesUpdate)
  }

  ghost predicate Disabled(w: World, store: Store, m: nat, t: string)
    requires m <= |w.listed|
  {
    exists i :: 0 <= i < m && w.listed[i] == t && DerivedToken(w, t) && !Stuck(w, store, i + 1)
  }

  lemma ClearsOneMore(w: World, store: Store, name: string, m: nat)
    requires m < |w.listed|
    ensures Refused(w, store, name, m + 1) <==>
              || Refused(w, store, name, m)
              || (LoginToken(w, w.listed[m], name) && w.listed[m] in store && w.listed[m] in w.refusesDelete)
    ensures forall t :: Cleared(w, store, name, m + 1, t) <==>
              || Cleared(w, store, name, m, t)
              || (t == w.listed[m] && LoginToken(w, t, name) && !Refused(w, store, name, m + 1))
  {
  }

  /** What is left of the tokens. */
  ghost predicate LeftOf(w: World, store: Store, name: string, m: nat, after: Store)
    requires m <= |w.listed|
  {
    && (forall t :: t in after <==> t in store && !Cleared(w, store, name, m, t))
    && (forall t :: t in after ==> after[t] == store[t])
  }

  function Clearing(w: World, store: Store, name: string, m: nat): (Store, bool)
    requires m <= |w.listed|
  {
    DeleteAll(w, store, Logins(w, name, w.listed[..m]))
  }

  lemma DeletesOneMore(w: World, store: Store, name: string, m: nat)
    requires m < |w.listed|
    ensures Clearing(w, store, name, m + 1)
         == var (rest, ok) := Clearing(w, store, name, m);
            var x := w.listed[m];
            if !LoginToken(w, x, name) then (rest, ok)
            else if ok && x in rest && x !in w.refusesDelete then (rest - {x}, true)
            else (rest, ok && x !in rest)
  {
    var before, x := Logins(w, name, w.listed[..m]), w.listed[m];
    assert w.listed[..m + 1] == w.listed[..m] + [x];
    OneMoreName(w, name, w.listed[..m], x);
    assert (before + [x])[..|before|] == before && before + [] == before;
  }

  lemma LeftOfGrows(w: World, store: Store, name: string, m: nat, rest: Store)
    requires m < |w.listed| && LeftOf(w, store, name, m, rest)
    ensures var x := w.listed[m];
            LeftOf(w, store, name, m + 1,
                   if LoginToken(w, x, name) && !Refused(w, store, name, m + 1) then rest - {x} else rest)
  {
    ClearsOneMore(w, store, name, m);
  }

  lemma {:induction false} ClearsExactly(w: World, store: Store, name: string, m: nat)
    requires m <= |w.listed|
    ensures var (after, ok) := Clearing(w, store, name, m);
            ok == !Refused(w, store, name, m) && LeftOf(w, store, name, m, after)
  {
    if m > 0 {
      ClearsExactly(w, store, name, m - 1);
      DeletesOneMore(w, store, name, m - 1);
      var rest, x := Clearing(w, store, name, m - 1).0, w.listed[m - 1];
      assert x !in rest ==> rest - {x} == rest;
      LeftOfGrows(w, store, name, m - 1, rest);
      ClearsOneMore(w, store, name, m - 1);
    } else {
      assert Logins(w, name, w.listed[..0]) == [];
    }
  }

  lemma DisabledOneMore(w: World, store: Store, m: nat)
    requires m < |w.listed|
    ensures Stuck(w, store, m + 1) <==>
              || Stuck(w, store, m)
              || (DerivedToken(w, w.listed[m]) && (w.listed[m] !in store || w.listed[m] in w.refusesUpdate))
    ensures forall t :: Disabled(w, store, m + 1, t) <==>
              || Disabled(w, store, m, t)
              || (t == w.listed[m] && DerivedToken(w, t) && !Stuck(w, store, m + 1))
  {
  }

  /** The tokens with some disabled. */
  ghost predicate DisabledOf(w: World, store: Store, m: nat, after: Store)
    requires m <= |w.listed|
  {
    && after.Keys == store.Keys
    && forall t :: t in store ==>
         after[t] == if Disabled(w, store, m, t) then w.tokens[t].(enabled := false) else store[t]
  }

  function Disabling(w: World, store: Store, m: nat): (Store, bool)
    requires m <= |w.listed|
  {
    DerivedExactly(w, w.listed[..m]);
    DisableAll(w, store, Derived(w, w.listed[..m]))
  }

  lemma DisablesOneMore(w: World, store: Store, m: nat)
    requires m < |w.listed|
    ensures Disabling(w, store, m + 1)
         == var (rest, ok) := Disabling(w, store, m);
            var x := w.listed[m];
            if !DerivedToken(w, x) then (rest, ok)
            else if ok && x in rest && x !in w.refusesUpdate then (rest[x := w.tokens[x].(enabled := false)], true)
            else (rest, false)
  {
    var before, x := Derived(w, w.listed[..m]), w.listed[m];
    assert w.listed[..m + 1] == w.listed[..m] + [x];
    OneMoreName(w, "", w.listed[..m], x);
    assert (before + [x])[..|before|] == before && before + [] == before;
  }

  lemma DisabledOfGrows(w: World, store: Store, m: nat, rest: Store)
    requires m < |w.listed| && DisabledOf(w, store, m, rest)
    ensures var x := w.listed[m];
            DisabledOf(w, store, m + 1,
                       if DerivedToken(w, x) && !Stuck(w, store, m + 1) then rest[x := w.tokens[x].(enabled := false)]
                       else rest)
  {
    DisabledOneMore(w, store, m);
  }

  lemma {:induction false} DisablesExactly(w: World, store: Store, m: nat)
    requires m <= |w.listed|
    ensures var (after, ok) := Disabling(w, store, m);
            ok == !Stuck(w, store, m) && DisabledOf(w, store, m, after)
  {
    if m > 0 {
      DisablesExactly(w, store, m - 1);
      DisablesOneMore(w, store, m - 1);
      DisabledOfGrows(w, store, m - 1, Disabling(w, store, m - 1).0);
      DisabledOneMore(w, store, m - 1);
    } else {
      assert Derived(w, w.listed[..0]) == [];
    }
  }

  lemma {:induction false} DerivedOfExactly(w: World, provider: string, names: seq<string>)
    ensures forall n :: n in DerivedOf(w, provider, names) <==>
                          n in names && DerivedToken(w, n) && w.tokens[n].provider == provider
  {
    if names != [] {
      DerivedOfExactly(w, provider, names[..|names| - 1]);
      assert names == names[..|names| - 1] + [names[|names| - 1]];
    }
  }

  lemma AsksExactly(w: World, order: seq<string>, k: nat, canAccess: bool)
    requires Listed(w, order) && k < |order|
    requires canAccess == (!Doubtful(w, order, k + 1) && Welcome(w.providers[order[k]]))
    ensures AsksExtra(w, order[k], canAccess, Doubtful(w, order, k + 1)) <==> Vouched(w, order, k)
  {
    var logins, derived := Logins(w, order[k], w.listed), DerivedOf(w, order[k], w.listed);
    LoginsExactly(w, order[k], w.listed);
    DerivedOfExactly(w, order[k], w.listed);
    assert logins != [] ==> logins[0] in logins;
    assert derived != [] ==> derived[0] in derived;
  }

  /** The groups with one provider after its turn. */
  function GroupsNow(w: World, name: string): seq<string>
    requires name in w.providers
  {
    var p := w.providers[name];
    if !Member(p) then []
    else if !p.unrefreshable && p.refetch.Groups? then p.refetch.groups
    else if name in w.groups then w.groups[name]
    else []
  }

  lemma FetchedByAnswers(w: World, st: Progress, name: string)
    requires name in w.providers
    ensures Fetched(w, st, name)
         == Progress(st.store, Attributes(st.attributes.groups[name := GroupsNow(w, name)], st.attributes.extras),
                     st.canLogIn, st.unconfirmed || Silent(w.providers[name]), st.exit)
  {
  }

  lemma CheckedByAnswers(w: World, st: Progress, name: string, vouched: bool)
    requires name in w.providers && st.exit.Running?
    requires var p := w.providers[name];
             vouched == AsksExtra(w, name, !st.unconfirmed && Welcome(p), st.unconfirmed)
    ensures var after, p := Checked(w, st, name), w.providers[name];
            && after.store == st.store && after.unconfirmed == st.unconfirmed
            && after.exit == (if (Member(p) && !st.unconfirmed && p.access == None) || (vouched && !p.principalFound)
                              then Errored else Running)
            && (after.exit.Running? ==>
                  && after.canLogIn == (st.canLogIn || (!st.unconfirmed && Welcome(p)))
                  && after.attributes.groups == st.attributes.groups
                  && after.attributes.extras
                     == if vouched && p.extra.Some? then st.attributes.extras[name := p.extra.value]
                        else st.attributes.extras)
  {
  }

  /** One provider's turn, given whether its answers are in doubt and whether a token vouches
      for the user. */
  lemma VisitByAnswers(w: World, st: Progress, name: string, doubtful: bool, vouched: bool)
    requires name in w.providers && st.exit.Running?
    requires var p := w.providers[name];
             && doubtful == (st.unconfirmed || Silent(p))
             && vouched == AsksExtra(w, name, !doubtful && Welcome(p), doubtful)
    ensures var after, p := Visit(w, st, name), w.providers[name];
            var (left, ok) := DeleteAll(w, st.store, Logins(w, name, w.listed));
            var clears := !Locked(p) && !Fails(p, doubtful, vouched) && !doubtful && !Welcome(p);
            && after.store == (if clears then left else st.store)
            && after.exit == (if Locked(p) then Gave(st.attributes)
                              else if Fails(p, doubtful, vouched) || (clears && !ok) then Errored
                              else Running)
            && (after.exit.Running? ==>
                  && after.unconfirmed == doubtful
                  && after.canLogIn == (st.canLogIn || (!doubtful && Welcome(p)))
                  && after.attributes.groups == st.attributes.groups[name := GroupsNow(w, name)]
                  && after.attributes.extras
                     == if vouched && p.extra.Some? then st.attributes.extras[name := p.extra.value]
                        else st.attributes.extras)
  {
    FetchedByAnswers(w, st, name);
    if SecretExit(w.providers[name], st.attributes).Running? {
      CheckedByAnswers(w, Fetched(w, st, name), name, vouched);
    }
  }

  lemma DoubtGrows(w: World, order: seq<string>, k: nat)
    requires Listed(w, order) && k < |order|
    ensures Doubtful(w, order, k + 1) == (Doubtful(w, order, k) || Silent(w.providers[order[k]]))
  {
  }

  /** The same for the `k`-th provider of an order. */
  lemma VisitInOrder(w: World, order: seq<string>, k: nat, st: Progress)
    requires Listed(w, order) && k < |order| && st.exit.Running? && st.unconfirmed == Doubtful(w, order, k)
    ensures var after, p := Visit(w, st, order[k]), w.providers[order[k]];
            var refused := Refused(w, st.store, order[k], |w.listed|);
            var clears := !Locked(p) && !Breaks(w, order, k) && Unwelcome(w, order, k);
            && (if clears then LeftOf(w, st.store, order[k], |w.listed|, after.store) else after.store == st.store)
            && after.exit == (if Locked(p) then Gave(st.attributes)
                              else if Breaks(w, order, k) || (clears && refused) then Errored
                              else Running)
            && (after.exit.Running? ==>
                  && after.unconfirmed == Doubtful(w, order, k + 1)
                  && after.canLogIn == (st.canLogIn || (!Doubtful(w, order, k + 1) && Welcome(p)))
                  && after.attributes.groups == st.attributes.groups[order[k] := GroupsNow(w, order[k])]
                  && after.attributes.extras
                     == if Vouched(w, order, k) && p.extra.Some? then st.attributes.extras[order[k] := p.extra.value]
                        else st.attributes.extras)
  {
    var p := w.providers[order[k]];
    DoubtGrows(w, order, k);
    AsksExactly(w, order, k, !Doubtful(w, order, k + 1) && Welcome(p));
    assert w.listed[..|w.listed|] == w.listed;
    ClearsExactly(w, st.store, order[k], |w.listed|);
    VisitByAnswers(w, st, order[k], Doubtful(w, order, k + 1), Vouched(w, order, k));
  }

  /** Token `t` is deleted in the turn of one of the first `k` providers. */
  ghost predicate Dropped(w: World, store: Store, order: seq<string>, k: nat, t: string)
    requires Listed(w, order) && k <= |order|
  {
    exists i :: 0 <= i < k && DropsAt(w, store, order, i, t)
  }

  lemma DroppedGrows(w: World, store: Store, order: seq<string>, k: nat, t: string)
    requires Listed(w, order) && k < |order|
    ensures Dropped(w, store, order, k + 1, t) <==> Dropped(w, store, order, k, t) || DropsAt(w, store, order, k, t)
  {
  }

  lemma ClearedAlike(w: World, store: Store, now: Store, name: string, t: string)
    requires forall m: nat | m <= |w.listed| :: Refused(w, now, name, m) <==> Refused(w, store, name, m)
    ensures Cleared(w, now, name, |w.listed|, t) <==> Cleared(w, store, name, |w.listed|, t)
  {
  }

  /** The tokens once the first `k` providers had their turn. */
  ghost predicate TokensAt(w: World, store: Store, order: seq<string>, k: nat, now: Store)
    requires Listed(w, order) && k <= |order|
  {
    && (forall t :: t in now <==> t in store && !Dropped(w, store, order, k, t))
    && (forall t :: t in now ==> now[t] == store[t])
  }

  /** A token refused is never deleted, so it does not matter when it is looked for. */
  lemma RefusedStay(w: World, store: Store, order: seq<string>, k: nat, now: Store, name: string, m: nat)
    requires Listed(w, order) && k <= |order| && TokensAt(w, store, order, k, now) && m <= |w.listed|
    ensures Refused(w, now, name, m) <==> Refused(w, store, name, m)
  {
    forall t | t in store && t in w.refusesDelete ensures t in now {
      forall i | 0 <= i < k ensures !DropsAt(w, store, order, i, t) {}
    }
  }

  lemma TokensGrow(w: World, store: Store, order: seq<string>, k: nat, now: Store, after: Store)
    requires Listed(w, order) && k < |order| && TokensAt(w, store, order, k, now) && Reaches(w, store, order, k)
    requires if !Locked(w.providers[order[k]]) && !Breaks(w, order, k) && Unwelcome(w, order, k)
             then LeftOf(w, now, order[k], |w.listed|, after) else after == now
    ensures TokensAt(w, store, order, k + 1, after)
  {
    forall m: nat | m <= |w.listed| ensures Refused(w, now, order[k], m) <==> Refused(w, store, order[k], m) {
      RefusedStay(w, store, order, k, now, order[k], m);
    }
    forall t
      ensures t in after <==> t in store && !Dropped(w, store, order, k + 1, t)
      ensures t in after ==> after[t] == store[t]
    {
      ClearedAlike(w, store, now, order[k], t);
      DroppedGrows(w, store, order, k, t);
    }
  }

  /** The refresh after the turns of the first `k` providers. */
  function After(w: World, store: Store, order: seq<string>, k: nat): Progress
    requires Listed(w, order) && k <= |order|
  {
    VisitAll(w, Start(w, store), order[..k])
  }

  lemma AfterGrows(w: World, store: Store, order: seq<string>, k: nat)
    requires Listed(w, order) && k < |order|
    ensures After(w, store, order, k + 1) == Visit(w, After(w, store, order, k), order[k])
  {
    assert order[..k + 1][..k] == order[..k];
  }

  /** Where the loop stands once it got past the first `k` providers. */
  ghost predicate Past(w: World, store: Store, order: seq<string>, k: nat, st: Progress)
    requires Listed(w, order) && k <= |order|
  {
    && st.exit.Running? && st.unconfirmed == Doubtful(w, order, k)
    && st.canLogIn == (exists i :: 0 <= i < k && !Doubtful(w, order, i + 1) && Welcome(w.providers[order[i]]))
    && TokensAt(w, store, order, k, st.store)
  }

  lemma OneMoreTurn(w: World, store: Store, order: seq<string>, k: nat)
    requires Listed(w, order) && k < |order| && Reaches(w, store, order, k)
    requires Past(w, store, order, k, After(w, store, order, k))
    ensures var st := After(w, store, order, k + 1);
            && TokensAt(w, store, order, k + 1, st.store)
            && st.exit == (if Locked(w.providers[order[k]]) then Gave(After(w, store, order, k).attributes)
                           else if Passes(w, store, order, k) then Running
                           else Errored)
            && (st.exit.Running? ==> Past(w, store, order, k + 1, st))
  {
    var st := After(w, store, order, k);
    AfterGrows(w, store, order, k);
    VisitInOrder(w, order, k, st);
    RefusedStay(w, store, order, k, st.store, order[k], |w.listed|);
    TokensGrow(w, store, order, k, st.store, After(w, store, order, k + 1).store);
  }

  lemma LoopStarts(w: World, store: Store, order: seq<string>)
    requires Listed(w, order)
    ensures After(w, store, order, 0) == Start(w, store)
    ensures Past(w, store, order, 0, Start(w, store))
  {
  }

  lemma {:induction false} LoopStands(w: World, store: Store, order: seq<string>, k: nat)
    requires Listed(w, order) && k <= |order| && Reaches(w, store, order, k)
    ensures Past(w, store, order, k, After(w, store, order, k))
  {
    if k == 0 {
      LoopStarts(w, store, order);
    } else {
      LoopStands(w, store, order, k - 1);
      OneMoreTurn(w, store, order, k - 1);
      assert Passes(w, store, order, k - 1);
    }
  }

  /** The refresh gets past exactly the first `k` providers. */
  ghost predicate EndsAt(w: World, store: Store, order: seq<string>, k: nat)
    requires Listed(w, order)
  {
    k <= |order| && Reaches(w, store, order, k) && (k < |order| ==> !Passes(w, store, order, k))
  }

  lemma {:induction false} EndsSomewhere(w: World, store: Store, order: seq<string>, i: nat) returns (k: nat)
    requires Listed(w, order) && i <= |order| && Reaches(w, store, order, i)
    ensures EndsAt(w, store, order, k)
    decreases |order| - i
  {
    if i < |order| && Passes(w, store, order, i) {
      k := EndsSomewhere(w, store, order, i + 1);
    } else {
      k := i;
    }
  }

  /** How far the refresh got decides what it reaches. */
  lemma ReachesUpTo(w: World, store: Store, order: seq<string>, k: nat, i: nat)
    requires Listed(w, order) && EndsAt(w, store, order, k) && i <= |order|
    ensures Reaches(w, store, order, i) <==> i <= k
  {
  }

  /** A refresh that does not get past the `k`-th provider ends in its turn. */
  lemma EndsEarly(w: World, store: Store, order: seq<string>, k: nat)
    requires Valid(w) && Listed(w, order) && EndsAt(w, store, order, k) && k < |order|
    ensures Refreshed(w, store, order) == (After(w, store, order, k + 1).store, After(w, store, order, k + 1).exit)
    ensures TokensAt(w, store, order, k + 1, After(w, store, order, k + 1).store)
    ensures After(w, store, order, k + 1).exit
         == if Locked(w.providers[order[k]]) then Gave(After(w, store, order, k).attributes) else Errored
  {
    LoopStands(w, store, order, k);
    OneMoreTurn(w, store, order, k);
    ExitStays(w, Start(w, store), order, k + 1);
  }

  /** Nobody lets the user in: the flags say so. */
  lemma NobodyExactly(w: World, store: Store, order: seq<string>, st: Progress)
    requires Listed(w, order) && Past(w, store, order, |order|, st)
    ensures Nobody(w, order) <==> !st.canLogIn && !st.unconfirmed
  {
    assert forall n :: n in order <==> exists i :: 0 <= i < |order| && order[i] == n;
    assert !Doubtful(w, order, |order|) ==> forall i: nat :: i <= |order| ==> !Doubtful(w, order, i);
  }

  /** A refresh that gets past all providers ends with the derived tokens. */
  lemma EndsLate(w: World, store: Store, order: seq<string>)
    requires Valid(w) && Listed(w, order) && EndsAt(w, store, order, |order|)
    ensures var st := After(w, store, order, |order|);
            && Past(w, store, order, |order|, st)
            && Refreshed(w, store, order)
               == if !Nobody(w, order) then (st.store, Gave(st.attributes))
                  else var (left, ok) := Disabling(w, st.store, |w.listed|); (left, if ok then Gave(st.attributes) else Errored)
  {
    var st := After(w, store, order, |order|);
    LoopStands(w, store, order, |order|);
    NobodyExactly(w, store, order, st);
    assert order[..|order|] == order && w.listed[..|w.listed|] == w.listed;
  }

  /** Derived tokens are never deleted. */
  lemma DerivedStay(w: World, store: Store, order: seq<string>, k: nat, now: Store)
    requires Listed(w, order) && k <= |order| && TokensAt(w, store, order, k, now)
    ensures forall t :: DerivedToken(w, t) ==> (t in now <==> t in store)
  {
    forall t | DerivedToken(w, t) ensures !Dropped(w, store, order, k, t) {}
  }

  lemma StuckAlike(w: World, store: Store, now: Store, m: nat)
    requires m <= |w.listed| && forall t :: DerivedToken(w, t) ==> (t in now <==> t in store)
    ensures Stuck(w, now, m) <==> Stuck(w, store, m)
    ensures forall t :: Disabled(w, now, m, t) <==> Disabled(w, store, m, t)
  {
    forall i: nat | i <= m ensures Stuck(w, now, i) <==> Stuck(w, store, i) {}
  }

  /** Failures. A refresh returns an error if and only if, at the first provider it does not get
      past, the secret, the access or the principal cannot be had or a login token cannot be
      deleted, or it gets past all of them, nobody lets the user in, and a derived token is
      gone or cannot be updated. It always returns. */
  lemma ErrsExactlyWhen(w: World, store: Store, order: seq<string>)
    requires Valid(w) && Listed(w, order)
    ensures !Refreshed(w, store, order).1.Running?
    ensures Refreshed(w, store, order).1.Errored? <==>
              || (exists k :: 0 <= k < |order| && Reaches(w, store, order, k) && !Locked(w.providers[order[k]])
                           && !Passes(w, store, order, k))
              || (Reaches(w, store, order, |order|) && Nobody(w, order) && Stuck(w, store, |w.listed|))
  {
    var k := EndsSomewhere(w, store, order, 0);
    forall i: nat | i <= |order| ensures Reaches(w, store, order, i) <==> i <= k {
      ReachesUpTo(w, store, order, k, i);
    }
    if k < |order| {
      EndsEarly(w, store, order, k);
    } else {
      EndsLate(w, store, order);
      var st := After(w, store, order, |order|);
      DerivedStay(w, store, order, k, st.store);
      StuckAlike(w, store, st.store, |w.listed|);
      DisablesExactly(w, st.store, |w.listed|);
    }
  }

  lemma DropsUpTo(w: World, store: Store, order: seq<string>, k: nat, m: nat, t: string)
    requires Listed(w, order) && EndsAt(w, store, order, k) && k <= m <= |order| && (k < |order| ==> k < m)
    ensures Dropped(w, store, order, m, t) <==> Dropped(w, store, order, |order|, t)
  {
    forall i | m <= i < |order| ensures !DropsAt(w, store, order, i, t) {
      ReachesUpTo(w, store, order, k, i);
    }
  }

  /** Tokens. In every world, a stored token is deleted if and only if it is a login token of a
      provider whose turn comes, where every provider so far has answered and this one does not
      let the user in, and the API refuses no login token of it listed up to this one. A token
      that stays changes if and only if the refresh gets past all providers, all have
      answered, nobody lets the user in, and it is a derived token up to which none is stuck. */
  lemma TokensExactly(w: World, store: Store, order: seq<string>, t: string)
    requires Valid(w) && Listed(w, order)
    ensures var after := Refreshed(w, store, order).0;
            && (t in after <==> t in store && !Dropped(w, store, order, |order|, t))
            && (t in after ==>
                  after[t] == if && Reaches(w, store, order, |order|) && Nobody(w, order)
                                 && Disabled(w, store, |w.listed|, t)
                              then w.tokens[t].(enabled := false) else store[t])
  {
    var k := EndsSomewhere(w, store, order, 0);
    ReachesUpTo(w, store, order, k, |order|);
    if k < |order| {
      EndsEarly(w, store, order, k);
      DropsUpTo(w, store, order, k, k + 1, t);
    } else {
      EndsLate(w, store, order);
      var st := After(w, store, order, |order|);
      DerivedStay(w, store, order, k, st.store);
      StuckAlike(w, store, st.store, |w.listed|);
      DisablesExactly(w, st.store, |w.listed|);
    }
  }

  /** The attributes once the refresh got past the first `k` providers. */
  ghost predicate GroupsAt(w: World, order: seq<string>, k: nat, groups: map<string, seq<string>>)
    requires Listed(w, order) && k <= |order|
  {
    && (forall n :: n in groups <==> n in w.groups || n in order[..k])
    && (forall n :: n in groups ==> groups[n] == if n in order[..k] then GroupsNow(w, n) else w.groups[n])
  }

  /** What the extra attributes of the `i`-th provider are, once it had its turn. */
  ghost predicate ExtraFor(w: World, order: seq<string>, i: nat, extras: map<string, string>)
    requires Listed(w, order) && i < |order|
  {
    var name, p := order[i], w.providers[order[i]];
    if Vouched(w, order, i) && p.extra.Some? then name in extras && extras[name] == p.extra.value
    else (name in extras <==> name in w.extras) && (name in extras ==> extras[name] == w.extras[name])
  }

  ghost predicate ExtrasAt(w: World, order: seq<string>, k: nat, extras: map<string, string>)
    requires Listed(w, order) && k <= |order|
  {
    && (forall n :: n !in order[..k] ==> (n in extras <==> n in w.extras) && (n in extras ==> extras[n] == w.extras[n]))
    && forall i :: 0 <= i < k ==> ExtraFor(w, order, i, extras)
  }

  lemma GroupsOneMore(w: World, order: seq<string>, k: nat, groups: map<string, seq<string>>)
    requires Listed(w, order) && k < |order| && GroupsAt(w, order, k, groups)
    ensures GroupsAt(w, order, k + 1, groups[order[k] := GroupsNow(w, order[k])])
  {
    assert order[..k + 1] == order[..k] + [order[k]];
  }

  lemma {:induction false} GroupsStand(w: World, store: Store, order: seq<string>, k: nat)
    requires Listed(w, order) && k <= |order| && Reaches(w, store, order, k)
    ensures GroupsAt(w, order, k, After(w, store, order, k).attributes.groups)
  {
    if k > 0 {
      GroupsStand(w, store, order, k - 1);
      LoopStands(w, store, order, k - 1);
      LoopStands(w, store, order, k);
      AfterGrows(w, store, order, k - 1);
      VisitInOrder(w, order, k - 1, After(w, store, order, k - 1));
      GroupsOneMore(w, order, k - 1, After(w, store, order, k - 1).attributes.groups);
    }
  }

  lemma ExtrasOneMore(w: World, order: seq<string>, k: nat, extras: map<string, string>)
    requires Listed(w, order) && k < |order| && Text.Distinct(order) && ExtrasAt(w, order, k, extras)
    ensures var p := w.providers[order[k]];
            ExtrasAt(w, order, k + 1,
                     if Vouched(w, order, k) && p.extra.Some? then extras[order[k] := p.extra.value] else extras)
  {
    assert order[..k + 1] == order[..k] + [order[k]];
    assert order[k] !in order[..k];
    var p := w.providers[order[k]];
    var after := if Vouched(w, order, k) && p.extra.Some? then extras[order[k] := p.extra.value] else extras;
    forall i | 0 <= i < k ensures ExtraFor(w, order, i, after) {
      assert order[i] in order[..k] && ExtraFor(w, order, i, extras);
    }
  }

  lemma {:induction false} ExtrasStand(w: World, store: Store, order: seq<string>, k: nat)
    requires Listed(w, order) && k <= |order| && Text.Distinct(order) && Reaches(w, store, order, k)
    ensures ExtrasAt(w, order, k, After(w, store, order, k).attributes.extras)
  {
    if k > 0 {
      ExtrasStand(w, store, order, k - 1);
      LoopStands(w, store, order, k - 1);
      LoopStands(w, store, order, k);
      AfterGrows(w, store, order, k - 1);
      VisitInOrder(w, order, k - 1, After(w, store, order, k - 1));
      ExtrasOneMore(w, order, k - 1, After(w, store, order, k - 1).attributes.extras);
    }
  }

  /** What a refresh returns are the attributes once it got as far as it gets. */
  lemma GivesWhatItHas(w: World, store: Store, order: seq<string>, k: nat)
    requires Valid(w) && Listed(w, order) && EndsAt(w, store, order, k) && Refreshed(w, store, order).1.Gave?
    ensures Refreshed(w, store, order).1.attributes == After(w, store, order, k).attributes
  {
    if k < |order| {
      EndsEarly(w, store, order, k);
    } else {
      EndsLate(w, store, order);
    }
  }

  /** Groups. In every world in which the refresh returns attributes, the groups of each provider
      it got past are: none if the user has no principal there, the provider is disabled or it
      denies access; the ones fetched if they were; otherwise, because they are not refreshed or
      could not be fetched, the ones stored. The groups of every other provider are as stored. */
  lemma GroupsExactly(w: World, store: Store, order: seq<string>, k: nat)
    requires Valid(w) && Listed(w, order) && k < |order| && Refreshed(w, store, order).1.Gave?
    requires Reaches(w, store, order, k + 1)
    ensures var name, groups := order[k], Refreshed(w, store, order).1.attributes.groups;
            var p := w.providers[name];
            && name in groups
            && (!p.hasPrincipal || p.disabled == Some(true) || (!p.unrefreshable && p.refetch == NoAccess) ==>
                  groups[name] == [])
            && (p.hasPrincipal && p.disabled != Some(true) && !p.unrefreshable && p.refetch.Groups? ==>
                  groups[name] == p.refetch.groups)
            && (p.hasPrincipal && p.disabled != Some(true) && (p.unrefreshable || p.refetch == Unreachable) ==>
                  groups[name] == if name in w.groups then w.groups[name] else [])
  {
    var n := EndsSomewhere(w, store, order, 0);
    ReachesUpTo(w, store, order, n, k + 1);
    GivesWhatItHas(w, store, order, n);
    GroupsStand(w, store, order, n);
    assert order[k] in order[..n];
  }

  lemma OtherGroupsStay(w: World, store: Store, order: seq<string>, name: string)
    requires Valid(w) && Listed(w, order) && Refreshed(w, store, order).1.Gave?
    requires forall k :: 0 <= k < |order| && order[k] == name ==> !Reaches(w, store, order, k + 1)
    ensures var groups := Refreshed(w, store, order).1.attributes.groups;
            (name in groups <==> name in w.groups) && (name in groups ==> groups[name] == w.groups[name])
  {
    var n := EndsSomewhere(w, store, order, 0);
    GivesWhatItHas(w, store, order, n);
    GroupsStand(w, store, order, n);
    assert name !in order[..n];
  }

  /** Extra attributes. Those of a provider the refresh got past are the ones it gave, if a token
      of the user vouches for them there and it gave some; in all other cases those stored. */
  lemma ExtrasExactly(w: World, store: Store, order: seq<string>, k: nat)
    requires Valid(w) && Listed(w, order) && Text.Distinct(order) && k < |order| && Refreshed(w, store, order).1.Gave?
    ensures var name, extras := order[k], Refreshed(w, store, order).1.attributes.extras;
            var p := w.providers[name];
            if Reaches(w, store, order, k + 1) && Vouched(w, order, k) && p.extra.Some?
            then name in extras && extras[name] == p.extra.value
            else (name in extras <==> name in w.extras) && (name in extras ==> extras[name] == w.extras[name])
  {
    var n := EndsSomewhere(w, store, order, 0);
    ReachesUpTo(w, store, order, n, k + 1);
    GivesWhatItHas(w, store, order, n);
    ExtrasStand(w, store, order, n);
    if k < n {
      assert ExtraFor(w, order, k, After(w, store, order, n).attributes.extras);
    } else {
      assert order[k] !in order[..n];
    }
  }

  /** When nothing fails but refetches, the refresh gets past every provider. */
  lemma CalmPasses(w: World, store: Store, order: seq<string>)
    requires Calm(w, store) && Listed(w, order)
    ensures Reaches(w, store, order, |order|)
  {
    forall k | 0 <= k < |order| ensures Passes(w, store, order, k) {
      assert CalmProvider(w.providers[order[k]]);
      DoubtGrows(w, order, k);
    }
  }

  /** So then the groups of every provider are as described. */
  lemma CalmGroups(w: World, store: Store, order: seq<string>, name: string)
    requires Calm(w, store) && Listed(w, order) && name in order
    ensures Refreshed(w, store, order).1.Gave?
    ensures var groups := Refreshed(w, store, order).1.attributes.groups;
            var p := w.providers[name];
            && name in groups
            && (!p.hasPrincipal || p.disabled == Some(true) || (!p.unrefreshable && p.refetch == NoAccess) ==>
                  groups[name] == [])
            && (p.hasPrincipal && p.disabled != Some(true) && !p.unrefreshable && p.refetch.Groups? ==>
                  groups[name] == p.refetch.groups)
            && (p.hasPrincipal && p.disabled != Some(true) && (p.unrefreshable || p.refetch == Unreachable) ==>
                  groups[name] == if name in w.groups then w.groups[name] else [])
  {
    var k :| 0 <= k < |order| && order[k] == name;
    CalmPasses(w, store, order);
    ReachesUpTo(w, store, order, |order|, k + 1);
    CalmOutcome(w, store, order);
    GroupsExactly(w, store, order, k);
  }
}
