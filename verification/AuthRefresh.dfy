/** Refreshing a user's authentication: every provider is asked, in an order nobody
    controls, whether the user still has access; login tokens are deleted and
    derived tokens disabled accordingly. */
module AuthRefresh {
  import opened Options
  import Text

  datatype Token = Token(user: string, provider: string, derived: bool, enabled: bool)

  datatype Refetch = Groups(groups: seq<string>) | NoAccess | Unreachable

  datatype SecretAnswer = SecretFound | SecretMissing | SecretFailed

  /** What one provider and the services around it answer about the user. None stands
      for an error. `access` is the answer for the group principals of this refresh. */
  datatype Provider = Provider(
    hasPrincipal: bool,
    disabled: Option<bool>,
    perUserSecrets: Option<bool>,
    secret: SecretAnswer,
    unrefreshable: bool,
    refetch: Refetch,
    access: Option<bool>,
    principalFound: bool,
    extra: Option<string>)

  /** The user, the providers, the tokens as listed at the start, the attributes so far,
      and the token names whose deletion or update the API refuses. */
  datatype World = World(
    user: string,
    providers: map<string, Provider>,
    listed: seq<string>,
    tokens: map<string, Token>,
    groups: map<string, seq<string>>,
    extras: map<string, string>,
    refusesDelete: set<string>,
    refusesUpdate: set<string>)

  type Store = map<string, Token>

  datatype Attributes = Attributes(groups: map<string, seq<string>>, extras: map<string, string>)

  datatype Exit = Running | Gave(attributes: Attributes) | Errored

  /** The variables of the refresh. */
  datatype Progress = Progress(
    store: Store,
    attributes: Attributes,
    canLogIn: bool,
    unconfirmed: bool,
    exit: Exit)

  predicate Valid(w: World) {
    && (forall n :: n in w.listed ==> n in w.tokens)
    && Text.Distinct(w.listed)
  }

  predicate IsLogin(w: World, n: string, provider: string) {
    n in w.tokens && w.tokens[n].user == w.user && !w.tokens[n].derived && w.tokens[n].provider == provider
  }

  predicate IsDerived(w: World, n: string) {
    n in w.tokens && w.tokens[n].user == w.user && w.tokens[n].derived
  }

  /** The names of the list that fit, in their order. */
  function Logins(w: World, provider: string, names: seq<string>): seq<string> {
    if names == [] then []
    else Logins(w, provider, names[..|names| - 1]) +
         if IsLogin(w, names[|names| - 1], provider) then [names[|names| - 1]] else []
  }

  function Derived(w: World, names: seq<string>): seq<string> {
    if names == [] then []
    else Derived(w, names[..|names| - 1]) +
         if IsDerived(w, names[|names| - 1]) then [names[|names| - 1]] else []
  }

  function DerivedOf(w: World, provider: string, names: seq<string>): seq<string> {
    if names == [] then []
    else DerivedOf(w, provider, names[..|names| - 1]) +
         if IsDerived(w, names[|names| - 1]) && w.tokens[names[|names| - 1]].provider == provider
         then [names[|names| - 1]] else []
  }

  lemma {:induction false} LoginsExactly(w: World, provider: string, names: seq<string>)
    ensures forall n :: n in Logins(w, provider, names) <==> n in names && IsLogin(w, n, provider)
  {
    if names != [] {
      LoginsExactly(w, provider, names[..|names| - 1]);
      assert names == names[..|names| - 1] + [names[|names| - 1]];
    }
  }

  lemma {:induction false} DerivedExactly(w: World, names: seq<string>)
    ensures forall n :: n in Derived(w, names) <==> n in names && IsDerived(w, n)
  {
    if names != [] {
      DerivedExactly(w, names[..|names| - 1]);
      assert names == names[..|names| - 1] + [names[|names| - 1]];
    }
  }

  /** The user has a principal with the provider and the provider is not known to be disabled. */
  predicate Considered(p: Provider) {
    p.hasPrincipal && p.disabled != Some(true)
  }

  predicate RefetchFails(p: Provider) {
    Considered(p) && !p.unrefreshable && p.refetch.Unreachable?
  }

  /** The principal is kept: the provider did not say "no access". */
  predicate Kept(p: Provider) {
    Considered(p) && !(!p.unrefreshable && p.refetch.NoAccess?)
  }

  predicate Grants(p: Provider) {
    Kept(p) && !RefetchFails(p) && p.access == Some(true)
  }

  function NewGroups(w: World, name: string): seq<string>
    requires name in w.providers
  {
    var p := w.providers[name];
    if !Considered(p) then []
    else if p.unrefreshable || p.refetch.Unreachable? then (if name in w.groups then w.groups[name] else [])
    else if p.refetch.NoAccess? then []
    else p.refetch.groups
  }

  /** Deletes tokens one after another, passing over those already gone, up to a refusal. */
  function DeleteAll(w: World, store: Store, names: seq<string>): (Store, bool) {
    if names == [] then (store, true)
    else
      var (rest, ok) := DeleteAll(w, store, names[..|names| - 1]);
      var n := names[|names| - 1];
      if !ok then (rest, false)
      else if n !in rest then (rest, true)
      else if n in w.refusesDelete then (rest, false)
      else (rest - {n}, true)
  }

  /** Disables tokens one after another, from the copies listed at the start, up to a refusal. */
  function DisableAll(w: World, store: Store, names: seq<string>): (Store, bool)
    requires forall n :: n in names ==> n in w.tokens
  {
    if names == [] then (store, true)
    else
      var (rest, ok) := DisableAll(w, store, names[..|names| - 1]);
      var n := names[|names| - 1];
      if !ok || n !in rest || n in w.refusesUpdate then (rest, false)
      else (rest[n := w.tokens[n].(enabled := false)], true)
  }

  /** The token that vouches for the user when extra attributes are fetched exists. */
  predicate AsksExtra(w: World, name: string, canAccess: bool, unconfirmed: bool)
    requires name in w.providers
  {
    Kept(w.providers[name]) &&
    (Logins(w, name, w.listed) != [] ||
     (DerivedOf(w, name, w.listed) != [] && (canAccess || unconfirmed)))
  }

  /** How the refresh ends when the per-user secret of a provider is needed and not there. */
  function SecretExit(p: Provider, attributes: Attributes): Exit {
    if !Considered(p) then Running
    else if p.perUserSecrets.None? then Errored
    else if !p.perUserSecrets.value || p.secret.SecretFound? then Running
    else if p.secret.SecretMissing? then Gave(attributes)
    else Errored
  }

  /** After the groups were fetched again. */
  function Fetched(w: World, st: Progress, name: string): Progress
    requires name in w.providers
  {
    st.(unconfirmed := st.unconfirmed || RefetchFails(w.providers[name]),
        attributes := st.attributes.(groups := st.attributes.groups[name := NewGroups(w, name)]))
  }

  /** After access was checked and extra attributes fetched. */
  function Checked(w: World, st: Progress, name: string): Progress
    requires name in w.providers
  {
    var p := w.providers[name];
    if Kept(p) && !st.unconfirmed && p.access.None? then st.(exit := Errored)
    else
      var canAccess := Kept(p) && !st.unconfirmed && p.access.value;
      var st := st.(canLogIn := st.canLogIn || canAccess);
      if !AsksExtra(w, name, canAccess, st.unconfirmed) then st
      else if !p.principalFound then st.(exit := Errored)
      else if p.extra.None? then st
      else st.(attributes := st.attributes.(extras := st.attributes.extras[name := p.extra.value]))
  }

  /** One provider's turn. */
  function Visit(w: World, st: Progress, name: string): Progress
    requires name in w.providers
  {
    var p := w.providers[name];
    if !st.exit.Running? then st
    else if !SecretExit(p, st.attributes).Running? then st.(exit := SecretExit(p, st.attributes))
    else
      var st := Checked(w, Fetched(w, st, name), name);
      if !st.exit.Running? || st.unconfirmed || (Kept(p) && p.access == Some(true)) then st
      else
        var (store, ok) := DeleteAll(w, st.store, Logins(w, name, w.listed));
        st.(store := store, exit := if ok then Running else Errored)
  }

  function VisitAll(w: World, st: Progress, order: seq<string>): Progress
    requires forall n :: n in order ==> n in w.providers
  {
    if order == [] then st
    else Visit(w, VisitAll(w, st, order[..|order| - 1]), order[|order| - 1])
  }

  function Start(w: World, store: Store): Progress {
    Progress(store, Attributes(w.groups, w.extras), false, false, Running)
  }

  /** The whole refresh: the stored tokens after it, and what it returns. */
  function Refreshed(w: World, store: Store, order: seq<string>): (Store, Exit)
    requires Valid(w) && forall n :: n in order ==> n in w.providers
  {
    var st := VisitAll(w, Start(w, store), order);
    if !st.exit.Running? then (st.store, st.exit)
    else if st.canLogIn || st.unconfirmed then (st.store, Gave(st.attributes))
    else
      DerivedExactly(w, w.listed);
      var (store', ok) := DisableAll(w, st.store, Derived(w, w.listed));
      (store', if ok then Gave(st.attributes) else Errored)
  }

  method FetchGroups(w: World, name: string, attributes: Attributes)
    returns (exit: Exit, principal: bool, unreachable: bool, groups: seq<string>)
    requires name in w.providers
    ensures exit == SecretExit(w.providers[name], attributes)
    ensures exit.Running? ==>
              && principal == Kept(w.providers[name])
              && unreachable == RefetchFails(w.providers[name])
              && groups == NewGroups(w, name)
  {
    var p := w.providers[name];
    exit, groups, unreachable := Running, [], false;
    principal := p.hasPrincipal && p.disabled != Some(true);
    if principal {
      if p.perUserSecrets.None? {
        exit := Errored;
        return;
      }
      if p.perUserSecrets.value {
        if p.secret.SecretMissing? {
          exit := Gave(attributes);
          return;
        }
        if p.secret.SecretFailed? {
          exit := Errored;
          return;
        }
      }
      if p.unrefreshable {
        groups := if name in w.groups then w.groups[name] else [];
      } else {
        match p.refetch {
          case Groups(fetched) => groups := fetched;
          case Unreachable =>
            unreachable := true;
            groups := if name in w.groups then w.groups[name] else [];
          case NoAccess => principal := false;
        }
      }
    }
  }

  /** The user's login and derived tokens of one provider. */
  datatype Sorted = Sorted(logins: seq<string>, derived: seq<string>)

  function SortedBy(w: World, name: string): Sorted {
    Sorted(Logins(w, name, w.listed), DerivedOf(w, name, w.listed))
  }

  method CheckAccess(w: World, name: string, tokens: Sorted, principal: bool, before: Progress)
    returns (st: Progress, canAccess: bool)
    requires name in w.providers && tokens == SortedBy(w, name) && principal == Kept(w.providers[name])
    ensures st == Checked(w, before, name)
    ensures st.exit.Running? ==>
              canAccess == (principal && !before.unconfirmed && w.providers[name].access == Some(true))
  {
    var p := w.providers[name];
    st, canAccess := before, false;
    if principal && !st.unconfirmed {
      if p.access.None? {
        st := st.(exit := Errored);
        return;
      }
      if p.access.value {
        canAccess := true;
        st := st.(canLogIn := true);
      }
    }
    if principal && (tokens.logins != [] || (tokens.derived != [] && (canAccess || st.unconfirmed))) {
      if !p.principalFound {
        st := st.(exit := Errored);
        return;
      }
      if p.extra.Some? {
        st := st.(attributes := st.attributes.(extras := st.attributes.extras[name := p.extra.value]));
      }
    }
  }

  ghost predicate SortedUpTo(w: World, names: seq<string>, sorted: map<string, Sorted>) {
    && w.providers.Keys <= sorted.Keys
    && (forall p :: p in sorted ==> sorted[p] == Sorted(Logins(w, p, names), DerivedOf(w, p, names)))
    && (forall n :: n in names && n in w.tokens && w.tokens[n].user == w.user ==> w.tokens[n].provider in sorted)
  }

  function WithToken(before: Sorted, n: string, derived: bool): Sorted {
    if derived then before.(derived := before.derived + [n]) else before.(logins := before.logins + [n])
  }

  /** The entries after one more token of the list. */
  function AfterToken(w: World, sorted: map<string, Sorted>, n: string): map<string, Sorted>
    requires n in w.tokens
  {
    var token := w.tokens[n];
    var before := if token.provider in sorted then sorted[token.provider] else Sorted([], []);
    if token.user == w.user then sorted[token.provider := WithToken(before, n, token.derived)] else sorted
  }

  lemma OneMoreName(w: World, provider: string, names: seq<string>, n: string)
    ensures Logins(w, provider, names + [n]) == Logins(w, provider, names) + if IsLogin(w, n, provider) then [n] else []
    ensures DerivedOf(w, provider, names + [n])
         == DerivedOf(w, provider, names) + if IsDerived(w, n) && w.tokens[n].provider == provider then [n] else []
    ensures Derived(w, names + [n]) == Derived(w, names) + if IsDerived(w, n) then [n] else []
  {
    assert (names + [n])[..|names|] == names;
  }

  /** What one more token of the user adds to the entry of its provider. */
  lemma EntryGrows(w: World, names: seq<string>, n: string)
    requires n in w.tokens && w.tokens[n].user == w.user
    ensures var p := w.tokens[n].provider;
            Sorted(Logins(w, p, names + [n]), DerivedOf(w, p, names + [n]))
            == WithToken(Sorted(Logins(w, p, names), DerivedOf(w, p, names)), n, w.tokens[n].derived)
  {
    OneMoreName(w, w.tokens[n].provider, names, n);
  }

  lemma {:induction false} NoneYet(w: World, provider: string, names: seq<string>)
    requires forall n :: n in names && n in w.tokens && w.tokens[n].user == w.user ==> w.tokens[n].provider != provider
    ensures Logins(w, provider, names) == [] && DerivedOf(w, provider, names) == []
  {
    if names != [] {
      NoneYet(w, provider, names[..|names| - 1]);
    }
  }

  lemma SortOneMore(w: World, names: seq<string>, sorted: map<string, Sorted>, n: string)
    requires SortedUpTo(w, names, sorted) && n in w.tokens
    ensures SortedUpTo(w, names + [n], AfterToken(w, sorted, n))
  {
    var token := w.tokens[n];
    if token.user == w.user {
      EntryGrows(w, names, n);
      if token.provider !in sorted {
        NoneYet(w, token.provider, names);
      }
    }
    forall p | p in sorted && (token.user != w.user || token.provider != p)
      ensures Logins(w, p, names + [n]) == Logins(w, p, names) && DerivedOf(w, p, names + [n]) == DerivedOf(w, p, names)
    {
      OneMoreName(w, p, names, n);
    }
  }

  method TakeToken(w: World, n: string, sorted: map<string, Sorted>, derived: seq<string>)
    returns (sorted': map<string, Sorted>, derived': seq<string>)
    requires n in w.tokens
    ensures sorted' == AfterToken(w, sorted, n)
    ensures derived' == derived + if IsDerived(w, n) then [n] else []
  {
    var token := w.tokens[n];
    sorted', derived' := sorted, derived;
    if token.user != w.user {
      return;
    }
    var before := if token.provider in sorted then sorted[token.provider] else Sorted([], []);
    if token.derived {
      sorted' := sorted[token.provider := before.(derived := before.derived + [n])];
      derived' := derived + [n];
    } else {
      sorted' := sorted[token.provider := before.(logins := before.logins + [n])];
    }
  }

  lemma AllSorted(w: World, sorted: map<string, Sorted>)
    requires SortedUpTo(w, w.listed, sorted)
    ensures w.providers.Keys <= sorted.Keys && forall p :: p in sorted ==> sorted[p] == SortedBy(w, p)
  {
  }

  method SortTokens(w: World) returns (sorted: map<string, Sorted>, derived: seq<string>)
    requires Valid(w)
    ensures w.providers.Keys <= sorted.Keys
    ensures forall p :: p in sorted ==> sorted[p] == SortedBy(w, p)
    ensures derived == Derived(w, w.listed)
  {
    sorted := map n | n in w.providers :: Sorted([], []);
    derived := [];
    var k := 0;
    while k < |w.listed|
      invariant 0 <= k <= |w.listed|
      invariant derived == Derived(w, w.listed[..k])
      invariant SortedUpTo(w, w.listed[..k], sorted)
    {
      var n := w.listed[k];
      assert w.listed[..k + 1] == w.listed[..k] + [n];
      SortOneMore(w, w.listed[..k], sorted, n);
      OneMoreName(w, w.tokens[n].provider, w.listed[..k], n);
      sorted, derived := TakeToken(w, n, sorted, derived);
      k := k + 1;
    }
    assert w.listed[..k] == w.listed;
    AllSorted(w, sorted);
  }

  lemma {:induction false} DeletionStops(w: World, store: Store, names: seq<string>, i: nat)
    requires i <= |names| && !DeleteAll(w, store, names[..i]).1
    ensures DeleteAll(w, store, names) == DeleteAll(w, store, names[..i])
    decreases |names|
  {
    if i < |names| {
      assert names[..|names| - 1][..i] == names[..i];
      DeletionStops(w, store, names[..|names| - 1], i);
    } else {
      assert names[..i] == names;
    }
  }

  lemma {:induction false} DisablingStops(w: World, store: Store, names: seq<string>, i: nat)
    requires forall n :: n in names ==> n in w.tokens
    requires i <= |names| && !DisableAll(w, store, names[..i]).1
    ensures DisableAll(w, store, names) == DisableAll(w, store, names[..i])
    decreases |names|
  {
    if i < |names| {
      assert names[..|names| - 1][..i] == names[..i];
      DisablingStops(w, store, names[..|names| - 1], i);
    } else {
      assert names[..i] == names;
    }
  }

  lemma {:induction false} ExitStays(w: World, st: Progress, order: seq<string>, i: nat)
    requires forall n :: n in order ==> n in w.providers
    requires i <= |order| && !VisitAll(w, st, order[..i]).exit.Running?
    ensures VisitAll(w, st, order) == VisitAll(w, st, order[..i])
    decreases |order|
  {
    if i < |order| {
      assert order[..|order| - 1][..i] == order[..i];
      ExitStays(w, st, order[..|order| - 1], i);
    } else {
      assert order[..i] == order;
    }
  }

  /** The refresh itself, on the stored tokens. */
  class Refresher {
    var store: Store

    constructor (store: Store)
      ensures this.store == store
    {
      this.store := store;
    }

    method DeleteTokens(w: World, names: seq<string>) returns (ok: bool)
      modifies this
      ensures (store, ok) == DeleteAll(w, old(store), names)
    {
      var i := 0;
      while i < |names|
        invariant 0 <= i <= |names|
        invariant (store, true) == DeleteAll(w, old(store), names[..i])
      {
        assert names[..i + 1][..i] == names[..i];
        var n := names[i];
        i := i + 1;
        if n !in store {
          continue;
        }
        if n in w.refusesDelete {
          DeletionStops(w, old(store), names, i);
          return false;
        }
        store := store - {n};
      }
      assert names[..i] == names;
      ok := true;
    }

    method DisableTokens(w: World, names: seq<string>) returns (ok: bool)
      requires forall n :: n in names ==> n in w.tokens
      modifies this
      ensures (store, ok) == DisableAll(w, old(store), names)
    {
      var i := 0;
      while i < |names|
        invariant 0 <= i <= |names|
        invariant (store, true) == DisableAll(w, old(store), names[..i])
      {
        assert names[..i + 1][..i] == names[..i];
        var n := names[i];
        i := i + 1;
        if n !in store || n in w.refusesUpdate {
          DisablingStops(w, old(store), names, i);
          return false;
        }
        store := store[n := w.tokens[n].(enabled := false)];
      }
      assert names[..i] == names;
      ok := true;
    }

    /** The body of the loop over the providers: fetch the groups, check access, fetch
        extra attributes, delete the login tokens of a provider without access. */
    method RefreshProvider(w: World, name: string, tokens: Sorted, before: Progress) returns (st: Progress)
      requires name in w.providers && tokens == SortedBy(w, name) && before.exit.Running? && before.store == store
      modifies this
      ensures st == Visit(w, before, name) && st.store == store
    {
      var exit, principal, unreachable, groups := FetchGroups(w, name, before.attributes);
      if !exit.Running? {
        return before.(exit := exit);
      }
      st := before.(unconfirmed := before.unconfirmed || unreachable,
                    attributes := before.attributes.(groups := before.attributes.groups[name := groups]));
      assert st == Fetched(w, before, name);
      var canAccess;
      st, canAccess := CheckAccess(w, name, tokens, principal, st);
      if st.exit.Running? && !canAccess && !st.unconfirmed {
        var ok := DeleteTokens(w, tokens.logins);
        st := st.(store := store, exit := if ok then Running else Errored);
      }
    }

    /** `order` is the order in which ranging over the providers happens to yield them. */
    method RefreshAttributes(w: World, order: seq<string>) returns (exit: Exit)
      requires Valid(w) && forall n :: n in order ==> n in w.providers
      modifies this
      ensures (store, exit) == Refreshed(w, old(store), order)
    {
      var sorted, derived := SortTokens(w);
      var st := Start(w, store);
      var i := 0;
      while i < |order|
        invariant 0 <= i <= |order|
        invariant st == VisitAll(w, Start(w, old(store)), order[..i])
        invariant st.exit.Running? && st.store == store
      {
        assert order[..i + 1][..i] == order[..i];
        st := RefreshProvider(w, order[i], sorted[order[i]], st);
        i := i + 1;
        if !st.exit.Running? {
          ExitStays(w, Start(w, old(store)), order, i);
          return st.exit;
        }
      }
      assert order[..i] == order;
      if st.canLogIn || st.unconfirmed {
        return Gave(st.attributes);
      }
      DerivedExactly(w, w.listed);
      var ok := DisableTokens(w, derived);
      exit := if ok then Gave(st.attributes) else Errored;
    }
  }
}
