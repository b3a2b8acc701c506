/** What the refresh promises: tokens are only touched when access is known to be
    lost, and when nothing fails the order of the providers does not matter. */
module AuthRefreshLaws {
  import opened Options
  import opened AuthRefresh
  import Text

  predicate Listed(w: World, order: seq<string>) {
    forall n :: n in order ==> n in w.providers
  }

  /** Going through `order`, no refetch failed. */
  predicate Confirmed(w: World, order: seq<string>)
    requires Listed(w, order)
  {
    forall n :: n in order ==> !RefetchFails(w.providers[n])
  }

  predicate NobodyGrants(w: World, order: seq<string>)
    requires Listed(w, order)
  {
    forall n :: n in order ==> !Grants(w.providers[n])
  }

  /** Token `t` is a login token of a provider of `order` that gave no access, and no
      refetch had failed up to and including that provider. */
  ghost predicate RightlyDeleted(w: World, order: seq<string>, t: string)
    requires Listed(w, order)
  {
    exists k :: 0 <= k < |order| && IsLogin(w, t, order[k]) && !Grants(w.providers[order[k]])
             && Confirmed(w, order[..k + 1])
  }

  /** `small` is `big` with some tokens left out. */
  ghost predicate PartOf(small: Store, big: Store) {
    small.Keys <= big.Keys && forall t :: t in small ==> small[t] == big[t]
  }

  lemma {:induction false} DeletesOnly(w: World, store: Store, names: seq<string>)
    ensures PartOf(DeleteAll(w, store, names).0, store)
    ensures forall t :: t in store && t !in DeleteAll(w, store, names).0 ==> t in names
  {
    if names != [] {
      DeletesOnly(w, store, names[..|names| - 1]);
      assert names == names[..|names| - 1] + [names[|names| - 1]];
    }
  }

  lemma {:induction false} DisablesOnly(w: World, store: Store, names: seq<string>)
    requires forall n :: n in names ==> n in w.tokens
    ensures DisableAll(w, store, names).0.Keys == store.Keys
    ensures forall t :: t in store && DisableAll(w, store, names).0[t] != store[t] ==>
              t in names && DisableAll(w, store, names).0[t] == w.tokens[t].(enabled := false)
  {
    if names != [] {
      DisablesOnly(w, store, names[..|names| - 1]);
      assert names == names[..|names| - 1] + [names[|names| - 1]];
    }
  }

  /** What the loop over the providers keeps, whatever fails. */
  ghost predicate Careful(w: World, store: Store, order: seq<string>, st: Progress)
    requires Listed(w, order)
  {
    && PartOf(st.store, store)
    && (forall t :: t in store && t !in st.store ==> RightlyDeleted(w, order, t))
    && (st.exit.Running? && !st.unconfirmed ==> Confirmed(w, order))
    && (st.exit.Running? && !st.unconfirmed && !st.canLogIn ==> NobodyGrants(w, order))
  }

  lemma RightlyDeletedStays(w: World, order: seq<string>, name: string, t: string)
    requires Listed(w, order + [name]) && Listed(w, order) && RightlyDeleted(w, order, t)
    ensures RightlyDeleted(w, order + [name], t)
  {
    var k :| 0 <= k < |order| && IsLogin(w, t, order[k]) && !Grants(w.providers[order[k]])
          && Confirmed(w, order[..k + 1]);
    assert (order + [name])[..k + 1] == order[..k + 1];
    assert (order + [name])[k] == order[k];
  }

  /** What one provider's turn does to the flags and to the tokens. */
  lemma VisitEffect(w: World, st: Progress, name: string)
    requires name in w.providers
    ensures var after, p := Visit(w, st, name), w.providers[name];
            && (after.exit.Running? ==> st.exit.Running?)
            && (after.exit.Running? ==> after.unconfirmed == (st.unconfirmed || RefetchFails(p)))
            && (after.exit.Running? && !after.unconfirmed ==> after.canLogIn == (st.canLogIn || Grants(p)))
            && (|| after.store == st.store
                || (&& st.exit.Running? && !st.unconfirmed && !RefetchFails(p) && !Grants(p)
                    && after.store == DeleteAll(w, st.store, Logins(w, name, w.listed)).0))
  {
  }

  lemma VisitIsCareful(w: World, store: Store, order: seq<string>, st: Progress, name: string)
    requires Listed(w, order) && name in w.providers && Careful(w, store, order, st)
    ensures Listed(w, order + [name])
    ensures Careful(w, store, order + [name], Visit(w, st, name))
  {
    var after := Visit(w, st, name);
    var longer := order + [name];
    VisitEffect(w, st, name);
    if after.store != st.store {
      LoginsExactly(w, name, w.listed);
      DeletesOnly(w, st.store, Logins(w, name, w.listed));
    }
    forall t | t in store && t !in after.store ensures RightlyDeleted(w, longer, t) {
      if t !in st.store {
        RightlyDeletedStays(w, order, name, t);
      } else {
        assert longer[|order|] == name && longer[..|order| + 1] == longer;
        assert Confirmed(w, longer);
      }
    }
  }

  lemma {:induction false} LoopIsCareful(w: World, store: Store, order: seq<string>)
    requires Listed(w, order)
    ensures Careful(w, store, order, VisitAll(w, Start(w, store), order))
  {
    if order != [] {
      var before, name := order[..|order| - 1], order[|order| - 1];
      LoopIsCareful(w, store, before);
      VisitIsCareful(w, store, before, VisitAll(w, Start(w, store), before), name);
      assert before + [name] == order;
    }
  }

  /** Safety. For every order of the providers and every pattern of answers and early
      returns: no token appears; a token disappears only as a login token of a provider that
      gave no access with no refetch failed up to and including it; a token changes only as
      a derived token that gets disabled, after the whole loop ran with no refetch failed
      and no provider granting access. */
  lemma TokensTouchedOnlyWhenAccessIsLost(w: World, store: Store, order: seq<string>)
    requires Valid(w) && Listed(w, order)
    ensures var after := Refreshed(w, store, order).0;
            && after.Keys <= store.Keys
            && (forall t :: t in store && t !in after ==> RightlyDeleted(w, order, t))
            && (forall t :: t in after && after[t] != store[t] ==>
                  && IsDerived(w, t) && after[t] == w.tokens[t].(enabled := false)
                  && VisitAll(w, Start(w, store), order).exit.Running?
                  && Confirmed(w, order) && NobodyGrants(w, order))
  {
    LoopIsCareful(w, store, order);
    var st := VisitAll(w, Start(w, store), order);
    DerivedExactly(w, w.listed);
    DisablesOnly(w, st.store, Derived(w, w.listed));
  }

  predicate CalmProvider(p: Provider) {
    && (p.hasPrincipal && p.disabled != Some(true) ==>
          p.perUserSecrets == Some(false) || (p.perUserSecrets == Some(true) && p.secret == SecretFound))
    && (p.hasPrincipal && p.disabled != Some(true) && (p.unrefreshable || p.refetch.Groups?) ==> p.access.Some?)
    && p.principalFound
  }

  /** Nothing fails, except perhaps a refetch: secrets are found where needed, access is
      answered, principals are found, the API refuses nothing, and the list is current. */
  ghost predicate Calm(w: World, store: Store) {
    && Valid(w)
    && (forall n :: n in w.providers ==> CalmProvider(w.providers[n]))
    && w.refusesDelete == {} && w.refusesUpdate == {}
    && (forall n :: n in w.listed ==> n in store && store[n] == w.tokens[n])
  }

  /** The providers visited before the first refetch that fails. */
  function Safe(w: World, order: seq<string>): (r: seq<string>)
    requires Listed(w, order)
    ensures r <= order
  {
    if order == [] then []
    else
      var before := order[..|order| - 1];
      if Safe(w, before) == before && !RefetchFails(w.providers[order[|order| - 1]]) then order
      else Safe(w, before)
  }

  /** The listed login tokens of those of the given providers that grant no access. */
  ghost function Lost(w: World, order: seq<string>): set<string>
    requires Listed(w, order)
  {
    set t | t in w.listed && exists n :: n in order && IsLogin(w, t, n) && !Grants(w.providers[n])
  }

  function GroupsOf(w: World, order: seq<string>): map<string, seq<string>>
    requires Listed(w, order)
  {
    map n | n in order :: NewGroups(w, n)
  }

  /** The provider's turn sets extra attributes, before or after a refetch has failed. */
  predicate HasExtra(w: World, name: string, unconfirmed: bool)
    requires name in w.providers
  {
    AsksExtra(w, name, !unconfirmed && Grants(w.providers[name]), unconfirmed) && w.providers[name].extra.Some?
  }

  function ExtrasOf(w: World, order: seq<string>, unconfirmed: bool): map<string, string>
    requires Listed(w, order)
  {
    map n | n in order && HasExtra(w, n, unconfirmed) :: w.providers[n].extra.value
  }

  ghost predicate SomebodyGrants(w: World, order: seq<string>)
    requires Listed(w, order)
  {
    exists n :: n in order && Grants(w.providers[n])
  }

  lemma {:induction false} DeletesAll(w: World, store: Store, names: seq<string>)
    requires w.refusesDelete == {}
    ensures DeleteAll(w, store, names) == (store - (set n | n in names), true)
  {
    if names == [] {
      assert store - (set n | n in names) == store;
    } else {
      var rest, last := names[..|names| - 1], names[|names| - 1];
      DeletesAll(w, store, rest);
      assert names == rest + [last];
      assert (set n | n in names) == (set n | n in rest) + {last};
      var left := store - set n | n in rest;
      assert store - (set n | n in names) == left - {last};
      assert last !in left ==> left - {last} == left;
    }
  }

  function Copies(w: World, names: seq<string>): Store
    requires forall n :: n in names ==> n in w.tokens
  {
    map n | n in names :: w.tokens[n].(enabled := false)
  }

  lemma {:induction false} DisablesAll(w: World, store: Store, names: seq<string>)
    requires w.refusesUpdate == {}
    requires forall n :: n in names ==> n in w.tokens && n in store
    ensures DisableAll(w, store, names)
         == (store + Copies(w, names), true)
  {
    if names == [] {
      assert store + Copies(w, names) == store;
    } else {
      var rest, last := names[..|names| - 1], names[|names| - 1];
      DisablesAll(w, store, rest);
      assert names == rest + [last];
      assert store + Copies(w, names) == (store + Copies(w, rest))[last := w.tokens[last].(enabled := false)];
    }
  }

  lemma LostGrows(w: World, store: Store, order: seq<string>, name: string)
    requires Listed(w, order) && name in w.providers
    ensures Listed(w, order + [name])
    ensures store - Lost(w, order + [name])
         == if Grants(w.providers[name]) then store - Lost(w, order)
            else (store - Lost(w, order)) - set t | t in Logins(w, name, w.listed)
  {
    LoginsExactly(w, name, w.listed);
    var longer := order + [name];
    assert forall n :: n in longer <==> n in order || n == name;
    assert Lost(w, longer)
        == Lost(w, order) + if Grants(w.providers[name]) then {} else set t | t in Logins(w, name, w.listed);
  }

  /** One provider's turn when nothing fails but refetches. */
  lemma CalmVisit(w: World, st: Progress, name: string)
    requires name in w.providers && CalmProvider(w.providers[name]) && w.refusesDelete == {}
    requires st.exit.Running?
    ensures var after, p := Visit(w, st, name), w.providers[name];
            && after.exit.Running?
            && after.unconfirmed == (st.unconfirmed || RefetchFails(p))
            && after.canLogIn == (st.canLogIn || (!after.unconfirmed && Grants(p)))
            && after.store == (if after.unconfirmed || Grants(p) then st.store
                               else st.store - set t | t in Logins(w, name, w.listed))
            && after.attributes.groups == st.attributes.groups[name := NewGroups(w, name)]
            && after.attributes.extras
               == if HasExtra(w, name, after.unconfirmed) then st.attributes.extras[name := p.extra.value]
                  else st.attributes.extras
  {
    DeletesAll(w, st.store, Logins(w, name, w.listed));
  }

  /** Where the loop stands after `order`, in closed form. */
  ghost predicate StandsAt(w: World, store: Store, order: seq<string>, st: Progress)
    requires Listed(w, order)
  {
    && st.exit.Running?
    && st.unconfirmed == (Safe(w, order) != order)
    && Listed(w, Safe(w, order))
    && st.canLogIn == SomebodyGrants(w, Safe(w, order))
    && st.store == store - Lost(w, Safe(w, order))
    && st.attributes.groups == w.groups + GroupsOf(w, order)
    && (!st.unconfirmed ==> st.attributes.extras == w.extras + ExtrasOf(w, order, false))
  }

  lemma GroupsGrow(w: World, order: seq<string>, name: string)
    requires Listed(w, order) && name in w.providers
    ensures Listed(w, order + [name])
    ensures w.groups + GroupsOf(w, order + [name]) == (w.groups + GroupsOf(w, order))[name := NewGroups(w, name)]
  {
    var longer := order + [name];
    assert forall n :: n in longer <==> n in order || n == name;
    assert GroupsOf(w, longer) == GroupsOf(w, order)[name := NewGroups(w, name)];
  }

  lemma ExtrasGrow(w: World, order: seq<string>, name: string, unconfirmed: bool)
    requires Listed(w, order) && name in w.providers
    ensures Listed(w, order + [name])
    ensures w.extras + ExtrasOf(w, order + [name], unconfirmed)
         == if HasExtra(w, name, unconfirmed)
            then (w.extras + ExtrasOf(w, order, unconfirmed))[name := w.providers[name].extra.value]
            else w.extras + ExtrasOf(w, order, unconfirmed)
  {
    var longer := order + [name];
    assert forall n :: n in longer <==> n in order || n == name;
    assert ExtrasOf(w, longer, unconfirmed)
        == if HasExtra(w, name, unconfirmed) then ExtrasOf(w, order, unconfirmed)[name := w.providers[name].extra.value]
           else ExtrasOf(w, order, unconfirmed);
  }

  lemma CalmStep(w: World, store: Store, order: seq<string>, st: Progress, name: string)
    requires Calm(w, store) && Listed(w, order) && name in w.providers && StandsAt(w, store, order, st)
    ensures Listed(w, order + [name])
    ensures StandsAt(w, store, order + [name], Visit(w, st, name))
  {
    CalmVisit(w, st, name);
    GroupsGrow(w, order, name);
    ExtrasGrow(w, order, name, false);
    assert (order + [name])[..|order|] == order;
    if Safe(w, order) == order && !RefetchFails(w.providers[name]) {
      LostGrows(w, store, order, name);
      assert forall n :: n in order + [name] <==> n in order || n == name;
    }
  }

  lemma {:induction false} CalmLoop(w: World, store: Store, order: seq<string>)
    requires Calm(w, store) && Listed(w, order)
    ensures StandsAt(w, store, order, VisitAll(w, Start(w, store), order))
  {
    if order == [] {
      assert store - Lost(w, []) == store;
      assert w.groups + GroupsOf(w, []) == w.groups;
      assert w.extras + ExtrasOf(w, [], false) == w.extras;
    } else {
      var before, name := order[..|order| - 1], order[|order| - 1];
      assert before + [name] == order;
      CalmLoop(w, store, before);
      CalmStep(w, store, before, VisitAll(w, Start(w, store), before), name);
    }
  }

  /** An order in which ranging over the providers may yield them: each exactly once. */
  ghost predicate Enumerates(w: World, order: seq<string>) {
    && (forall n :: n in order <==> n in w.providers)
    && Text.Distinct(order)
  }

  /** The stored tokens after a refresh in which nothing fails but refetches. */
  ghost function TokensAfter(w: World, store: Store, order: seq<string>): Store
    requires Valid(w) && Listed(w, order) && Listed(w, Safe(w, order))
  {
    var kept := store - Lost(w, Safe(w, order));
    if Safe(w, order) == order && !SomebodyGrants(w, order) then
      DerivedExactly(w, w.listed); kept + Copies(w, Derived(w, w.listed))
    else kept
  }

  lemma CalmOutcome(w: World, store: Store, order: seq<string>)
    requires Calm(w, store) && Listed(w, order)
    ensures Listed(w, Safe(w, order))
    ensures Refreshed(w, store, order).0 == TokensAfter(w, store, order)
    ensures Refreshed(w, store, order).1
         == Gave(Attributes(w.groups + GroupsOf(w, order), VisitAll(w, Start(w, store), order).attributes.extras))
    ensures Safe(w, order) == order ==>
              VisitAll(w, Start(w, store), order).attributes.extras == w.extras + ExtrasOf(w, order, false)
  {
    CalmLoop(w, store, order);
    var st := VisitAll(w, Start(w, store), order);
    DerivedExactly(w, w.listed);
    if !st.canLogIn && !st.unconfirmed {
      forall n | n in Derived(w, w.listed) ensures n in w.tokens && n in st.store {}
      DisablesAll(w, st.store, Derived(w, w.listed));
    }
  }

  lemma {:induction false} SafeIsConfirmed(w: World, order: seq<string>)
    requires Listed(w, order)
    ensures Listed(w, Safe(w, order)) && Confirmed(w, Safe(w, order))
    ensures Confirmed(w, order) ==> Safe(w, order) == order
    decreases |order|
  {
    if order != [] {
      SafeIsConfirmed(w, order[..|order| - 1]);
      assert order == order[..|order| - 1] + [order[|order| - 1]];
    }
  }

  lemma OnlyTheSetMatters(w: World, order: seq<string>, order': seq<string>)
    requires Listed(w, order) && Listed(w, order') && forall n :: n in order <==> n in order'
    ensures Lost(w, order) == Lost(w, order')
    ensures GroupsOf(w, order) == GroupsOf(w, order')
    ensures forall unconfirmed :: ExtrasOf(w, order, unconfirmed) == ExtrasOf(w, order', unconfirmed)
    ensures SomebodyGrants(w, order) == SomebodyGrants(w, order')
  {
  }

  /** Order independence. When no refetch fails and nothing else does, every order of the
      providers gives the same tokens and the same attributes. */
  lemma OrderDoesNotMatter(w: World, store: Store, order: seq<string>, order': seq<string>)
    requires Calm(w, store) && Enumerates(w, order) && Enumerates(w, order')
    requires forall n :: n in w.providers ==> !RefetchFails(w.providers[n])
    ensures Refreshed(w, store, order) == Refreshed(w, store, order')
  {
    CalmOutcome(w, store, order);
    CalmOutcome(w, store, order');
    SafeIsConfirmed(w, order);
    SafeIsConfirmed(w, order');
    OnlyTheSetMatters(w, order, order');
  }

  /** What those tokens are: a login token of a listed provider survives exactly when the
      provider grants access, derived tokens are disabled exactly when none does, and
      every other stored token is as it was. */
  lemma TokensFollowAccess(w: World, store: Store, order: seq<string>, t: string)
    requires Calm(w, store) && Enumerates(w, order)
    requires forall n :: n in w.providers ==> !RefetchFails(w.providers[n])
    requires t in store
    ensures var after := Refreshed(w, store, order).0;
            var nobody := forall n :: n in w.providers ==> !Grants(w.providers[n]);
            var login := t in w.listed && w.tokens[t].user == w.user && !w.tokens[t].derived
                         && w.tokens[t].provider in w.providers;
            var derived := t in w.listed && w.tokens[t].user == w.user && w.tokens[t].derived;
            && (t in after <==> (login ==> Grants(w.providers[w.tokens[t].provider])))
            && (t in after ==>
                  after[t] == if derived && nobody then store[t].(enabled := false) else store[t])
  {
    CalmOutcome(w, store, order);
    SafeIsConfirmed(w, order);
    DerivedExactly(w, w.listed);
  }

  /** A provider that would lose login tokens if it were visited before any refetch fails. */
  ghost predicate Exposed(w: World, name: string) {
    && name in w.providers && !RefetchFails(w.providers[name]) && !Grants(w.providers[name])
    && exists t :: t in w.listed && IsLogin(w, t, name)
  }

  ghost predicate SameTokensForAllOrders(w: World, store: Store)
    requires Valid(w)
  {
    forall order, order' :: Enumerates(w, order) && Enumerates(w, order') ==>
      Refreshed(w, store, order).0 == Refreshed(w, store, order').0
  }

  /** The same tokens and the same attributes. */
  ghost predicate SameForAllOrders(w: World, store: Store)
    requires Valid(w)
  {
    forall order, order' :: Enumerates(w, order) && Enumerates(w, order') ==>
      Refreshed(w, store, order) == Refreshed(w, store, order')
  }

  lemma {:induction false} SafeStart(w: World, order: seq<string>)
    requires Listed(w, order) && order != []
    ensures RefetchFails(w.providers[order[0]]) ==> Safe(w, order) == []
    ensures !RefetchFails(w.providers[order[0]]) ==> order[0] in Safe(w, order)
    decreases |order|
  {
    if |order| > 1 {
      SafeStart(w, order[..|order| - 1]);
    } else {
      assert order[..0] == [];
    }
  }

  lemma {:induction false} LostOnlyExposed(w: World, order: seq<string>, t: string)
    requires Listed(w, order) && Listed(w, Safe(w, order)) && t in Lost(w, Safe(w, order))
    ensures exists n :: Exposed(w, n)
  {
    var n :| n in Safe(w, order) && IsLogin(w, t, n) && !Grants(w.providers[n]);
    SafeIsConfirmed(w, order);
    assert Exposed(w, n);
  }

  lemma ExposedFirstLoses(w: World, store: Store, order: seq<string>, failing: string, t: string)
    requires Calm(w, store) && Enumerates(w, order) && order != []
    requires !RefetchFails(w.providers[order[0]]) && !Grants(w.providers[order[0]])
    requires t in w.listed && IsLogin(w, t, order[0])
    requires failing in w.providers && RefetchFails(w.providers[failing])
    ensures t !in Refreshed(w, store, order).0
  {
    CalmOutcome(w, store, order);
    SafeStart(w, order);
    SafeIsConfirmed(w, order);
    assert failing in order && failing !in Safe(w, order);
    assert t in Lost(w, Safe(w, order));
  }

  lemma FailingFirstKeeps(w: World, store: Store, order: seq<string>)
    requires Calm(w, store) && Enumerates(w, order) && order != []
    requires RefetchFails(w.providers[order[0]])
    ensures Refreshed(w, store, order).0 == store
  {
    CalmOutcome(w, store, order);
    SafeStart(w, order);
    assert store - Lost(w, []) == store;
  }

  lemma StartingWith(w: World, name: string) returns (order: seq<string>)
    requires name in w.providers
    ensures Enumerates(w, order) && order != [] && order[0] == name
  {
    order := [name] + Text.InSomeOrder(w.providers.Keys - {name});
  }

  /** A failing and an exposed provider give two orders with different tokens. */
  lemma OrderMatters(w: World, store: Store, failing: string, exposed: string)
    requires Calm(w, store) && Exposed(w, exposed)
    requires failing in w.providers && RefetchFails(w.providers[failing])
    ensures !SameTokensForAllOrders(w, store) && !SameForAllOrders(w, store)
  {
    var t :| t in w.listed && IsLogin(w, t, exposed);
    var order := StartingWith(w, exposed);
    var order' := StartingWith(w, failing);
    ExposedFirstLoses(w, store, order, failing, t);
    FailingFirstKeeps(w, store, order');
    assert Refreshed(w, store, order).0 != Refreshed(w, store, order').0;
  }

  /** With a failing and without an exposed provider, no order touches a token. */
  lemma UnexposedKeeps(w: World, store: Store, order: seq<string>, failing: string)
    requires Calm(w, store) && Enumerates(w, order)
    requires failing in w.providers && RefetchFails(w.providers[failing])
    requires !exists n :: Exposed(w, n)
    ensures Refreshed(w, store, order).0 == store
  {
    CalmOutcome(w, store, order);
    SafeIsConfirmed(w, order);
    assert failing in order;
    if t :| t in Lost(w, Safe(w, order)) {
      LostOnlyExposed(w, order, t);
    }
    assert store - Lost(w, Safe(w, order)) == store;
  }

  /** Exactly when the order of the providers cannot matter for the tokens: no refetch fails,
      or no provider that answers without granting access has login tokens. */
  lemma TokenOrderMattersExactlyWhen(w: World, store: Store)
    requires Calm(w, store)
    ensures SameTokensForAllOrders(w, store) <==>
              || (forall n :: n in w.providers ==> !RefetchFails(w.providers[n]))
              || !exists n :: Exposed(w, n)
  {
    if failing :| failing in w.providers && RefetchFails(w.providers[failing]) {
      if exposed :| Exposed(w, exposed) {
        OrderMatters(w, store, failing, exposed);
      } else {
        forall order | Enumerates(w, order) ensures Refreshed(w, store, order).0 == store {
          UnexposedKeeps(w, store, order, failing);
        }
      }
    } else {
      forall order, order' | Enumerates(w, order) && Enumerates(w, order')
        ensures Refreshed(w, store, order).0 == Refreshed(w, store, order').0
      {
        OrderDoesNotMatter(w, store, order, order');
      }
    }
  }

  /** A provider that answers without granting access and whose user has only derived tokens:
      its extra attributes, new ones, are fetched only after a refetch has failed. */
  predicate Wavers(w: World, name: string) {
    && name in w.providers && !RefetchFails(w.providers[name])
    && HasExtra(w, name, true) && !HasExtra(w, name, false)
    && !(name in w.extras && w.extras[name] == w.providers[name].extra.value)
  }

  /** Which these are, in terms of the answers and the tokens. */
  lemma WaversExactlyWhen(w: World, name: string)
    requires name in w.providers
    ensures Wavers(w, name) <==>
              var p := w.providers[name];
              && !RefetchFails(p) && Kept(p) && !Grants(p)
              && Logins(w, name, w.listed) == [] && DerivedOf(w, name, w.listed) != []
              && p.extra.Some? && (name in w.extras ==> w.extras[name] != p.extra.value)
  {
  }

  lemma SteadyExtras(w: World, order: seq<string>, name: string, unconfirmed: bool)
    requires Listed(w, order) && name in w.providers && !Wavers(w, name)
    requires RefetchFails(w.providers[name]) ==> unconfirmed
    ensures Listed(w, order + [name])
    ensures var extras := w.extras + ExtrasOf(w, order, true);
            w.extras + ExtrasOf(w, order + [name], true)
            == if HasExtra(w, name, unconfirmed) then extras[name := w.providers[name].extra.value] else extras
  {
    ExtrasGrow(w, order, name, true);
    var extras := w.extras + ExtrasOf(w, order, true);
    if HasExtra(w, name, true) && !HasExtra(w, name, unconfirmed) {
      assert extras[name := w.providers[name].extra.value] == extras;
    }
  }

  /** Without such a provider it does not matter when a refetch fails. */
  lemma {:induction false} ExtrasSettle(w: World, store: Store, order: seq<string>)
    requires Calm(w, store) && Listed(w, order) && !exists n :: Wavers(w, n)
    ensures VisitAll(w, Start(w, store), order).attributes.extras == w.extras + ExtrasOf(w, order, true)
    decreases |order|
  {
    if order == [] {
      assert w.extras + ExtrasOf(w, [], true) == w.extras;
    } else {
      var before, name := order[..|order| - 1], order[|order| - 1];
      assert before + [name] == order;
      ExtrasSettle(w, store, before);
      CalmLoop(w, store, before);
      var st := VisitAll(w, Start(w, store), before);
      CalmVisit(w, st, name);
      SteadyExtras(w, before, name, Visit(w, st, name).unconfirmed);
    }
  }

  lemma {:induction false} WavererFirstKeeps(w: World, store: Store, order: seq<string>, name: string)
    requires Calm(w, store) && Listed(w, order) && Text.Distinct(order) && order != [] && order[0] == name && Wavers(w, name)
    ensures var extras := VisitAll(w, Start(w, store), order).attributes.extras;
            (name in extras <==> name in w.extras) && (name in extras ==> extras[name] == w.extras[name])
    decreases |order|
  {
    var before, last := order[..|order| - 1], order[|order| - 1];
    CalmLoop(w, store, before);
    CalmVisit(w, VisitAll(w, Start(w, store), before), last);
    if before != [] {
      WavererFirstKeeps(w, store, before, name);
    }
  }

  lemma WavererLateSets(w: World, store: Store, before: seq<string>, failing: string, name: string)
    requires Calm(w, store) && Listed(w, before) && failing in before && RefetchFails(w.providers[failing]) && Wavers(w, name)
    ensures Listed(w, before + [name])
    ensures var extras := VisitAll(w, Start(w, store), before + [name]).attributes.extras;
            name in extras && extras[name] == w.providers[name].extra.value
  {
    CalmLoop(w, store, before);
    SafeIsConfirmed(w, before);
    assert Safe(w, before) != before;
    CalmVisit(w, VisitAll(w, Start(w, store), before), name);
    assert (before + [name])[..|before|] == before;
  }

  lemma EndingWith(w: World, name: string) returns (before: seq<string>)
    requires name in w.providers
    ensures Enumerates(w, before + [name]) && forall n :: n in before <==> n in w.providers && n != name
  {
    before := Text.InSomeOrder(w.providers.Keys - {name});
  }

  lemma DifferentExtras(w: World, store: Store, order: seq<string>, order': seq<string>, name: string)
    requires Calm(w, store) && Enumerates(w, order) && Enumerates(w, order')
    requires var extras := VisitAll(w, Start(w, store), order).attributes.extras;
             var extras' := VisitAll(w, Start(w, store), order').attributes.extras;
             name in extras' && (name in extras ==> extras[name] != extras'[name])
    ensures !SameForAllOrders(w, store)
  {
    CalmOutcome(w, store, order);
    CalmOutcome(w, store, order');
    assert Refreshed(w, store, order).1 != Refreshed(w, store, order').1;
  }

  /** A failing and a wavering provider give two orders with different attributes. */
  lemma AttributeOrderMatters(w: World, store: Store, failing: string, wavering: string)
    requires Calm(w, store) && Wavers(w, wavering)
    requires failing in w.providers && RefetchFails(w.providers[failing])
    ensures !SameForAllOrders(w, store)
  {
    var order := StartingWith(w, wavering);
    var before := EndingWith(w, wavering);
    WavererFirstKeeps(w, store, order, wavering);
    WavererLateSets(w, store, before, failing, wavering);
    DifferentExtras(w, store, order, before + [wavering], wavering);
  }

  lemma SteadyOutcome(w: World, store: Store, order: seq<string>, order': seq<string>, failing: string)
    requires Calm(w, store) && Enumerates(w, order) && Enumerates(w, order')
    requires failing in w.providers && RefetchFails(w.providers[failing])
    requires !exists n :: Exposed(w, n) || Wavers(w, n)
    ensures Refreshed(w, store, order) == Refreshed(w, store, order')
  {
    UnexposedKeeps(w, store, order, failing);
    UnexposedKeeps(w, store, order', failing);
    CalmOutcome(w, store, order);
    CalmOutcome(w, store, order');
    ExtrasSettle(w, store, order);
    ExtrasSettle(w, store, order');
    OnlyTheSetMatters(w, order, order');
  }

  /** Exactly when the order of the providers cannot matter, for the tokens and for the
      attributes: no refetch fails, or no provider is exposed and none wavers. */
  lemma OrderMattersExactlyWhen(w: World, store: Store)
    requires Calm(w, store)
    ensures SameForAllOrders(w, store) <==>
              || (forall n :: n in w.providers ==> !RefetchFails(w.providers[n]))
              || !exists n :: Exposed(w, n) || Wavers(w, n)
  {
    if failing :| failing in w.providers && RefetchFails(w.providers[failing]) {
      if name :| Exposed(w, name) || Wavers(w, name) {
        if Exposed(w, name) {
          OrderMatters(w, store, failing, name);
        } else {
          AttributeOrderMatters(w, store, failing, name);
        }
      } else {
        forall order, order' | Enumerates(w, order) && Enumerates(w, order')
          ensures Refreshed(w, store, order) == Refreshed(w, store, order')
        {
          SteadyOutcome(w, store, order, order', failing);
        }
      }
    } else {
      forall order, order' | Enumerates(w, order) && Enumerates(w, order')
        ensures Refreshed(w, store, order) == Refreshed(w, store, order')
      {
        OrderDoesNotMatter(w, store, order, order');
      }
    }
  }

  /** It does matter for the tokens of a user with a login token of one provider that answers
      without granting access, when the refetch of another provider fails. */
  lemma OrderMattersHere() returns (w: World, store: Store)
    ensures Calm(w, store) && !SameTokensForAllOrders(w, store)
  {
    var unreachable := Provider(true, Some(false), Some(false), SecretFound, false, Unreachable, Some(false), true, None);
    var refusing := Provider(true, Some(false), Some(false), SecretFound, false, NoAccess, Some(false), true, None);
    store := map["t" := Token("u", "b", false, true)];
    assert "a" != "b";
    w := World("u", map["a" := unreachable, "b" := refusing], ["t"], store, map[], map[], {}, {});
    assert "t" in w.listed && IsLogin(w, "t", "b");
    OrderMatters(w, store, "a", "b");
  }

  /** And for the attributes alone of a user with a derived token in place of the login token. */
  lemma AttributeOrderMattersHere() returns (w: World, store: Store)
    ensures Calm(w, store) && SameTokensForAllOrders(w, store) && !SameForAllOrders(w, store)
  {
    var unreachable := Provider(true, Some(false), Some(false), SecretFound, false, Unreachable, Some(false), true, None);
    var refusing := Provider(true, Some(false), Some(false), SecretFound, false, Groups([]), Some(false), true, Some("x"));
    store := map["t" := Token("u", "b", true, true)];
    assert "a" != "b";
    w := World("u", map["a" := unreachable, "b" := refusing], ["t"], store, map[], map[], {}, {});
    OneMoreName(w, "b", [], "t");
    assert [] + ["t"] == w.listed && IsDerived(w, "t") && !IsLogin(w, "t", "b");
    assert Logins(w, "b", w.listed) == [] && DerivedOf(w, "b", w.listed) == ["t"];
    assert Wavers(w, "b");
    AttributeOrderMatters(w, store, "a", "b");
    assert forall t, n :: t in w.listed ==> !IsLogin(w, t, n);
    TokenOrderMattersExactlyWhen(w, store);
  }
}
