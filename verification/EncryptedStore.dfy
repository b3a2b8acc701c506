/** The encrypted store: read, merge and write one secret through an API that
    refuses updates of an outdated version, with a cache that may be arbitrarily
    stale, and any number of callers setting and removing at once. */
module EncryptedStore {
  import opened Options

  type Data = map<string, string>

  /** A stored secret; `version` is its resource version. */
  datatype Secret = Secret(data: Data, version: nat)

  const ATTEMPTS: nat := 5

  /** Copy the secret's data and write every entry of `data` over it. */
  method PrepareSecretForUpdate(current: Data, data: Data) returns (merged: Data)
    ensures merged == current + data
  {
    merged := current;
    var rest := data.Keys;
    while rest != {}
      invariant rest <= data.Keys
      invariant merged == current + map k | k in data && k !in rest :: data[k]
      decreases |rest|
    {
      var k :| k in rest;
      merged := merged[k := data[k]];
      rest := rest - {k};
    }
  }

  /** An update is sent unless merging changes nothing. An empty secret is read back
      as a nil map, which differs from every merged map, so it is always updated. */
  predicate NeedsUpdate(current: Data, data: Data) {
    current == map[] || current + data != current
  }

  datatype How = Wrote | FoundStored | FoundCached(at: nat)

  datatype Outcome = Success(how: How) | Failure

  /** Where a Set stands. `left` counts the attempts left, 0 for the first update,
      which is made from the cache. */
  datatype Pc =
    | Reading
    | Creating
    | Updating(seen: Secret, left: nat)
    | Fetching(left: nat)
    | Done(outcome: Outcome)

  /** A Set, with the number of the store content that was current when it began. */
  datatype Call = Call(data: Data, began: nat, pc: Pc)

  datatype Writer = Nobody | Remover | Setter(call: nat)

  /** `history` holds every content of the store, the last one current, and `writers`
      says who made each of them. */
  datatype State = State(history: seq<Option<Secret>>, writers: seq<Writer>, calls: seq<Call>)

  datatype Answer = Accepted | Conflict | Refused

  datatype Action =
    | BeginSet(data: Data)
    | Remove
    | ReadCache(call: nat, at: Option<nat>)
    | Create(call: nat, answer: Answer)
    | Update(call: nat, answer: Answer)
    | Fetch(call: nat, ok: bool)

  function Current(s: State): Option<Secret>
    requires s.history != []
  {
    s.history[|s.history| - 1]
  }

  predicate Enabled(s: State, act: Action) {
    s.history != [] &&
    match act
    case BeginSet(_) => true
    case Remove => Current(s).Some?
    // The cache may answer with any content there ever was, or fail.
    case ReadCache(c, at) =>
      c < |s.calls| && s.calls[c].pc.Reading? && (at.Some? ==> at.value < |s.history|)
    case Create(c, answer) =>
      && c < |s.calls| && s.calls[c].pc.Creating?
      && (answer.Accepted? ==> Current(s).None?)
      && (answer.Conflict? ==> Current(s).Some?)
    // The store accepts an update exactly of the version it holds.
    case Update(c, answer) =>
      && c < |s.calls| && s.calls[c].pc.Updating?
      && (answer.Accepted? ==> Current(s).Some? && Current(s).value.version == s.calls[c].pc.seen.version)
      && (answer.Conflict? ==> Current(s).None? || Current(s).value.version != s.calls[c].pc.seen.version)
    case Fetch(c, _) => c < |s.calls| && s.calls[c].pc.Fetching?
  }

  function Goto(s: State, c: nat, pc: Pc): State
    requires c < |s.calls|
  {
    s.(calls := s.calls[c := s.calls[c].(pc := pc)])
  }

  function Write(s: State, content: Option<Data>, writer: Writer): State {
    var secret := if content.Some? then Some(Secret(content.value, |s.history|)) else None;
    s.(history := s.history + [secret], writers := s.writers + [writer])
  }

  function Do(s: State, act: Action): State
    requires Enabled(s, act)
  {
    match act
    case BeginSet(data) => s.(calls := s.calls + [Call(data, |s.history| - 1, Reading)])
    case Remove => Write(s, None, Remover)
    case ReadCache(c, at) =>
      if at.None? then Goto(s, c, Done(Failure))
      else if s.history[at.value].None? then Goto(s, c, Creating)
      else
        var seen := s.history[at.value].value;
        if NeedsUpdate(seen.data, s.calls[c].data) then Goto(s, c, Updating(seen, 0))
        else Goto(s, c, Done(Success(FoundCached(at.value))))
    case Create(c, answer) =>
      (match answer
       case Accepted => Goto(Write(s, Some(s.calls[c].data), Setter(c)), c, Done(Success(Wrote)))
       case Conflict => Goto(s, c, Fetching(ATTEMPTS))
       case Refused => Goto(s, c, Done(Failure)))
    case Update(c, answer) =>
      var Updating(seen, left) := s.calls[c].pc;
      (match answer
       case Accepted => Goto(Write(s, Some(seen.data + s.calls[c].data), Setter(c)), c, Done(Success(Wrote)))
       case Conflict =>
         Goto(s, c, if left == 0 then Fetching(ATTEMPTS) else if left == 1 then Done(Failure) else Fetching(left - 1))
       case Refused => Goto(s, c, Done(Failure)))
    case Fetch(c, ok) =>
      if !ok || Current(s).None? then Goto(s, c, Done(Failure))
      else
        var seen := Current(s).value;
        if NeedsUpdate(seen.data, s.calls[c].data) then Goto(s, c, Updating(seen, s.calls[c].pc.left))
        else Goto(s, c, Done(Success(FoundStored)))
  }

  predicate Initial(s: State) {
    s == State([None], [Nobody], [])
  }

  ghost predicate IsRun(states: seq<State>, acts: seq<Action>) {
    && |states| == |acts| + 1
    && Initial(states[0])
    && forall i :: 0 <= i < |acts| ==> Enabled(states[i], acts[i]) && states[i + 1] == Do(states[i], acts[i])
  }

  predicate Holds(content: Option<Secret>, data: Data) {
    content.Some? && forall k :: k in data ==> k in content.value.data && content.value.data[k] == data[k]
  }

  /** Content number `t` of the store held all of the call's data, and was current at
      some moment of the call. */
  predicate StoredAt(s: State, call: Call, t: nat) {
    call.began <= t < |s.history| && Holds(s.history[t], call.data)
  }

  /** What the content before becomes under a Set of `data`: exactly `data`, or itself
      with `data` written over it. */
  function Merged(before: Option<Secret>, data: Data): Data {
    if before.None? then data else before.value.data + data
  }

  predicate WriteFits(s: State, i: nat)
    requires 0 < i < |s.history| == |s.writers|
  {
    match s.writers[i]
    case Nobody => false
    case Remover => s.history[i].None?
    case Setter(c) =>
      c < |s.calls| && s.history[i] == Some(Secret(Merged(s.history[i - 1], s.calls[c].data), i))
  }

  ghost predicate CallFits(s: State, call: Call) {
    && call.began < |s.history|
    && match call.pc
       case Updating(seen, _) => seen.version < |s.history| && s.history[seen.version] == Some(seen)
       case Done(Success(FoundCached(at))) => at < |s.history| && Holds(s.history[at], call.data)
       case Done(Success(_)) => exists t :: StoredAt(s, call, t)
       case _ => true
  }

  ghost predicate Inv(s: State) {
    && |s.history| == |s.writers| > 0
    && (forall i :: 0 <= i < |s.history| && s.history[i].Some? ==> s.history[i].value.version == i)
    && (forall i :: 0 < i < |s.history| ==> WriteFits(s, i))
    && (forall c :: 0 <= c < |s.calls| ==> CallFits(s, s.calls[c]))
  }

  lemma CallFitsStays(s: State, t: State, call: Call)
    requires s.history <= t.history && CallFits(s, call)
    ensures CallFits(t, call)
  {
    if call.pc.Done? && call.pc.outcome.Success? && !call.pc.outcome.how.FoundCached? {
      var at :| StoredAt(s, call, at);
      assert StoredAt(t, call, at);
    }
  }

  /** The merge that changes nothing means the data is there. */
  lemma NoUpdateMeansHeld(current: Data, data: Data)
    requires !NeedsUpdate(current, data)
    ensures forall k :: k in data ==> k in current && current[k] == data[k]
  {
    forall k | k in data ensures k in current && current[k] == data[k] {
      assert k in (current + data) && (current + data)[k] == data[k];
    }
  }

  lemma MoverFits(s: State, act: Action, c: nat)
    requires Inv(s) && Enabled(s, act) && c < |s.calls|
    requires match act
             case ReadCache(d, _) => c == d
             case Create(d, _) => c == d
             case Update(d, _) => c == d
             case Fetch(d, _) => c == d
             case _ => false
    ensures CallFits(Do(s, act), Do(s, act).calls[c])
  {
    var t, call := Do(s, act), Do(s, act).calls[c];
    assert CallFits(s, s.calls[c]);
    if call.pc.Done? && call.pc.outcome.Success? {
      match call.pc.outcome.how {
        case Wrote => assert StoredAt(t, call, |s.history|);
        case FoundStored =>
          NoUpdateMeansHeld(Current(s).value.data, call.data);
          assert StoredAt(t, call, |s.history| - 1);
        case FoundCached(at) => NoUpdateMeansHeld(s.history[at].value.data, call.data);
      }
    }
  }

  lemma WritesKept(s: State, act: Action)
    requires Inv(s) && Enabled(s, act)
    ensures var t := Do(s, act);
            && |t.history| == |t.writers| > 0
            && (forall i :: 0 <= i < |t.history| && t.history[i].Some? ==> t.history[i].value.version == i)
            && (forall i :: 0 < i < |t.history| ==> WriteFits(t, i))
  {
    var t := Do(s, act);
    if act.Update? && act.answer.Accepted? {
      assert CallFits(s, s.calls[act.call]);
    }
    forall i | 0 < i < |t.history| ensures WriteFits(t, i) {
      if i < |s.history| { assert WriteFits(s, i); }
    }
  }

  lemma StepKeeps(s: State, act: Action)
    requires Inv(s) && Enabled(s, act)
    ensures Inv(Do(s, act))
  {
    var t := Do(s, act);
    WritesKept(s, act);
    forall c | 0 <= c < |t.calls| ensures CallFits(t, t.calls[c]) {
      if c < |s.calls| && t.calls[c] == s.calls[c] {
        CallFitsStays(s, t, s.calls[c]);
      } else if c < |s.calls| {
        MoverFits(s, act, c);
      }
    }
  }

  lemma {:induction false} RunKeeps(states: seq<State>, acts: seq<Action>, n: nat)
    requires IsRun(states, acts) && n < |states|
    ensures Inv(states[n])
  {
    if n > 0 {
      RunKeeps(states, acts, n - 1);
      StepKeeps(states[n - 1], acts[n - 1]);
    }
  }

  /** Every accepted write creates exactly the caller's data, turns the secret that is
      current at that moment into itself overridden by the data, or is a removal. */
  lemma EveryWriteMerges(states: seq<State>, acts: seq<Action>, n: nat, i: nat)
    requires IsRun(states, acts) && n < |states| && 0 < i < |states[n].history|
    ensures |states[n].writers| == |states[n].history|
    ensures WriteFits(states[n], i)
  {
    RunKeeps(states, acts, n);
  }

  /** A Set that returns nil after a create, an update or the retry path had all of its
      data stored at some moment of the call. */
  lemma SuccessMeansStored(states: seq<State>, acts: seq<Action>, n: nat, c: nat)
    requires IsRun(states, acts) && n < |states| && c < |states[n].calls|
    requires states[n].calls[c].pc.Done? && states[n].calls[c].pc.outcome.Success?
    requires !states[n].calls[c].pc.outcome.how.FoundCached?
    ensures exists t :: StoredAt(states[n], states[n].calls[c], t)
  {
    RunKeeps(states, acts, n);
    assert CallFits(states[n], states[n].calls[c]);
  }

  /** The remaining way to return nil, finding the data in the cache, keeps the promise
      when the cached content is one that was current during the call. */
  lemma CachedSuccessNeedsCurrentCache(states: seq<State>, acts: seq<Action>, n: nat, c: nat)
    requires IsRun(states, acts) && n < |states| && c < |states[n].calls|
    requires states[n].calls[c].pc.Done? && states[n].calls[c].pc.outcome.Success?
    requires states[n].calls[c].pc.outcome.how.FoundCached?
    requires states[n].calls[c].pc.outcome.how.at >= states[n].calls[c].began
    ensures exists t :: StoredAt(states[n], states[n].calls[c], t)
  {
    RunKeeps(states, acts, n);
    assert CallFits(states[n], states[n].calls[c]);
    assert StoredAt(states[n], states[n].calls[c], states[n].calls[c].pc.outcome.how.at);
  }

  /** A Set that begins now and at once reads content `at` from the cache returns nil although
      its data was stored at no moment of the call. */
  ghost predicate LosesSet(s: State, data: Data, at: nat)
    requires s.history != [] && at < |s.history|
  {
    var c := |s.calls|;
    var t := Do(Do(s, BeginSet(data)), ReadCache(c, Some(at)));
    && t.calls[c].pc.Done? && t.calls[c].pc.outcome.Success?
    && !exists n :: StoredAt(t, t.calls[c], n)
  }

  /** From every reachable state: the Set is lost exactly when merging its data would change
      nothing in the cached content but the store does not hold the data now. */
  lemma LosesSetExactlyWhen(states: seq<State>, acts: seq<Action>, data: Data, at: nat)
    requires IsRun(states, acts) && at < |states[|acts|].history|
    ensures var s := states[|acts|];
            LosesSet(s, data, at) <==>
              && s.history[at].Some? && !NeedsUpdate(s.history[at].value.data, data)
              && !Holds(Current(s), data)
  {
    var s, c := states[|acts|], |states[|acts|].calls|;
    var t := Do(Do(s, BeginSet(data)), ReadCache(c, Some(at)));
    if Holds(Current(s), data) {
      assert StoredAt(t, t.calls[c], |s.history| - 1);
    }
    assert forall n :: StoredAt(t, t.calls[c], n) ==> n == |s.history| - 1;
  }

  /** A run so far and one more action. */
  lemma Extend(states: seq<State>, acts: seq<Action>, act: Action) returns (states': seq<State>, acts': seq<Action>)
    requires IsRun(states, acts) && Enabled(states[|acts|], act)
    ensures IsRun(states', acts') && states'[|acts'|] == Do(states[|acts|], act)
  {
    states', acts' := states + [Do(states[|acts|], act)], acts + [act];
  }

  /** It happens: the secret is created and removed, and a later Set of the same data finds
      the former content in the cache. */
  lemma StaleCacheLosesSet(data: Data) returns (states: seq<State>, acts: seq<Action>)
    requires data != map[]
    ensures IsRun(states, acts) && |states[|acts|].history| == 3 && Current(states[|acts|]).None?
    ensures LosesSet(states[|acts|], data, 1)
  {
    states, acts := [State([None], [Nobody], [])], [];
    states, acts := Extend(states, acts, BeginSet(data));
    states, acts := Extend(states, acts, ReadCache(0, Some(0)));
    states, acts := Extend(states, acts, Create(0, Accepted));
    states, acts := Extend(states, acts, Remove);
    assert data + data == data;
    LosesSetExactlyWhen(states, acts, data, 1);
  }

  /** How often call `c` has fetched the secret. */
  function Fetches(acts: seq<Action>, c: nat): nat {
    if acts == [] then 0
    else
      var last := acts[|acts| - 1];
      Fetches(acts[..|acts| - 1], c) + if last.Fetch? && last.call == c then 1 else 0
  }

  /** The attempts made so far fit the attempts left. */
  predicate AttemptsFit(pc: Pc, fetches: nat) {
    match pc
    case Reading => fetches == 0
    case Creating => fetches == 0
    case Updating(_, left) => if left == 0 then fetches == 0 else left <= ATTEMPTS && fetches == ATTEMPTS + 1 - left
    case Fetching(left) => 1 <= left <= ATTEMPTS && fetches == ATTEMPTS - left
    case Done(_) => fetches <= ATTEMPTS
  }

  predicate CallAttemptsFit(s: State, c: nat, fetches: nat) {
    if c < |s.calls| then AttemptsFit(s.calls[c].pc, fetches) else fetches == 0
  }

  lemma AttemptsFitStep(s: State, act: Action, c: nat, fetches: nat)
    requires Enabled(s, act) && CallAttemptsFit(s, c, fetches)
    ensures CallAttemptsFit(Do(s, act), c, fetches + if act.Fetch? && act.call == c then 1 else 0)
  {
  }

  lemma {:induction false} AttemptsFitRun(states: seq<State>, acts: seq<Action>, n: nat, c: nat)
    requires IsRun(states, acts) && n < |states|
    ensures CallAttemptsFit(states[n], c, Fetches(acts[..n], c))
  {
    if n > 0 {
      AttemptsFitRun(states, acts, n - 1, c);
      assert acts[..n][..n - 1] == acts[..n - 1];
      AttemptsFitStep(states[n - 1], acts[n - 1], c, Fetches(acts[..n - 1], c));
    }
  }

  /** However often the store answers with a conflict, a Set fetches at most five times. */
  lemma RetriesAreBounded(states: seq<State>, acts: seq<Action>, c: nat)
    requires IsRun(states, acts) && c < |states[|acts|].calls|
    ensures Fetches(acts, c) <= 5
    ensures !states[|acts|].calls[c].pc.Done? && Fetches(acts, c) == 5 ==>
              states[|acts|].calls[c].pc.Updating? && states[|acts|].calls[c].pc.left == 1
  {
    AttemptsFitRun(states, acts, |acts|, c);
    assert acts[..|acts|] == acts;
  }

  /** Content `l` was written by a Set that sets key `k` to `v`. */
  predicate WroteValue(s: State, l: nat, k: string, v: string) {
    && l < |s.writers| && s.writers[l].Setter? && s.writers[l].call < |s.calls|
    && k in s.calls[s.writers[l].call].data && s.calls[s.writers[l].call].data[k] == v
  }

  /** Between two contents with no removal in between, no key is lost, and each value is
      the old one or was written by a Set in between. */
  lemma {:induction false} NoLostKeys(states: seq<State>, acts: seq<Action>, n: nat, i: nat, j: nat)
    requires IsRun(states, acts) && n < |states|
    requires i <= j < |states[n].history| && states[n].history[i].Some?
    requires |states[n].writers| == |states[n].history|
    requires forall l :: i < l <= j ==> !states[n].writers[l].Remover?
    ensures states[n].history[j].Some?
    ensures states[n].history[i].value.data.Keys <= states[n].history[j].value.data.Keys
    ensures forall k :: k in states[n].history[j].value.data ==>
              || (k in states[n].history[i].value.data
                  && states[n].history[j].value.data[k] == states[n].history[i].value.data[k])
              || exists l: nat :: WroteValue(states[n], l, k, states[n].history[j].value.data[k]) && i < l <= j
    decreases j
  {
    if i < j {
      var s := states[n];
      NoLostKeys(states, acts, n, i, j - 1);
      EveryWriteMerges(states, acts, n, j);
      var now := s.history[j].value.data;
      forall k | k in now
        ensures (k in s.history[i].value.data && now[k] == s.history[i].value.data[k])
             || exists l: nat :: WroteValue(s, l, k, now[k]) && i < l <= j
      {
        if k in s.calls[s.writers[j].call].data {
          assert WroteValue(s, j, k, now[k]);
        } else {
          assert k in s.history[j - 1].value.data && now[k] == s.history[j - 1].value.data[k];
        }
      }
    }
  }

  /** A merge is needed exactly when the secret is empty or misses or contradicts some of the data. */
  lemma NeedsUpdateExactlyWhen(current: Data, data: Data)
    ensures NeedsUpdate(current, data) <==>
              current == map[] || exists k :: k in data && !(k in current && current[k] == data[k])
  {
    if forall k :: k in data ==> k in current && current[k] == data[k] {
      assert current + data == current;
    } else {
      var k :| k in data && !(k in current && current[k] == data[k]);
      assert k in current + data && (current + data)[k] == data[k];
    }
  }

  /** A step of call `c` that makes the Set fail: the cache gives an error, a create or an update
      is refused, a fetch fails or finds no secret, or an update conflicts after the fifth
      fetch. */
  predicate Fatal(s: State, act: Action, c: nat, fetches: nat) {
    match act
    case ReadCache(d, at) => d == c && at.None?
    case Create(d, answer) => d == c && answer.Refused?
    case Update(d, answer) => d == c && (answer.Refused? || (answer.Conflict? && fetches == 5))
    case Fetch(d, ok) => d == c && (!ok || s.history == [] || Current(s).None?)
    case _ => false
  }

  lemma FatalStep(s: State, act: Action, c: nat, fetches: nat)
    requires Enabled(s, act) && CallAttemptsFit(s, c, fetches) && c < |s.calls|
    ensures var t := Do(s, act);
            && c < |t.calls|
            && (t.calls[c].pc == Done(Failure) <==> s.calls[c].pc == Done(Failure) || Fatal(s, act, c, fetches))
  {
  }

  /** The Set was begun by a step in which nothing of it is fatal. */
  lemma NewCallLives(s: State, act: Action, c: nat)
    requires Enabled(s, act) && |s.calls| <= c < |Do(s, act).calls|
    ensures Do(s, act).calls[c].pc == Reading
  {
  }

  lemma {:induction false} CallsGrow(states: seq<State>, acts: seq<Action>, i: nat, j: nat)
    requires IsRun(states, acts) && i <= j < |states|
    ensures |states[i].calls| <= |states[j].calls|
    decreases j
  {
    if i < j {
      CallsGrow(states, acts, i, j - 1);
      assert Enabled(states[j - 1], acts[j - 1]) && states[j] == Do(states[j - 1], acts[j - 1]);
    }
  }

  ghost predicate SomeFatal(states: seq<State>, acts: seq<Action>, n: nat, c: nat)
    requires n <= |acts| <= |states|
  {
    exists i :: 0 <= i < n && Fatal(states[i], acts[i], c, Fetches(acts[..i], c))
  }

  lemma BeforeItBegan(states: seq<State>, acts: seq<Action>, n: nat, c: nat)
    requires IsRun(states, acts) && n < |states| && |states[n].calls| <= c
    ensures !SomeFatal(states, acts, n, c)
  {
    forall i | 0 <= i < n ensures !Fatal(states[i], acts[i], c, Fetches(acts[..i], c)) {
      CallsGrow(states, acts, i, n);
      assert Enabled(states[i], acts[i]);
    }
  }

  /** In every run a Set has failed if and only if a step of its own was fatal. So a conflict is
      not the end of it before the fifth fetch. */
  lemma {:induction false} FailsExactlyWhen(states: seq<State>, acts: seq<Action>, n: nat, c: nat)
    requires IsRun(states, acts) && n < |states| && c < |states[n].calls|
    ensures states[n].calls[c].pc == Done(Failure) <==> SomeFatal(states, acts, n, c)
  {
    if n > 0 {
      var s, act, fetches := states[n - 1], acts[n - 1], Fetches(acts[..n - 1], c);
      assert Enabled(s, act) && states[n] == Do(s, act);
      if c < |s.calls| {
        FailsExactlyWhen(states, acts, n - 1, c);
        AttemptsFitRun(states, acts, n - 1, c);
        FatalStep(s, act, c, fetches);
        assert SomeFatal(states, acts, n, c) <==> SomeFatal(states, acts, n - 1, c) || Fatal(s, act, c, fetches);
      } else {
        NewCallLives(s, act, c);
        BeforeItBegan(states, acts, n - 1, c);
        assert !Fatal(s, act, c, fetches);
      }
    }
  }

  /** A write of the call that conflicts while attempts are left. */
  predicate ConflictToRetry(s: State, act: Action, c: nat) {
    && Enabled(s, act) && c < |s.calls|
    && match act
       case Create(d, answer) => d == c && answer.Conflict?
       case Update(d, answer) => d == c && answer.Conflict? && s.calls[c].pc.left != 1
       case _ => false
  }

  /** From every state: after such a conflict, with a secret still there, a fetch and an update
      that is granted, with nobody in between, make the Set succeed with all of its data
      stored and nothing else changed. */
  lemma ConflictIsRetried(s: State, act: Action, c: nat) returns (t: State)
    requires ConflictToRetry(s, act, c) && Current(s).Some?
    ensures Enabled(Do(s, act), Fetch(c, true))
    ensures var fetched := Do(Do(s, act), Fetch(c, true));
            if NeedsUpdate(Current(s).value.data, s.calls[c].data)
            then && Enabled(fetched, Update(c, Accepted)) && t == Do(fetched, Update(c, Accepted))
                 && t.history == s.history + [Some(Secret(Current(s).value.data + s.calls[c].data, |s.history|))]
            else t == fetched && t.history == s.history
    ensures c < |t.calls| && t.calls[c].pc.Done? && t.calls[c].pc.outcome.Success?
    ensures t.history != [] && Holds(Current(t), s.calls[c].data)
  {
    var fetched := Do(Do(s, act), Fetch(c, true));
    if NeedsUpdate(Current(s).value.data, s.calls[c].data) {
      t := Do(fetched, Update(c, Accepted));
    } else {
      t := fetched;
      NoUpdateMeansHeld(Current(s).value.data, s.calls[c].data);
    }
  }

  /** Optimistic concurrency is sound: in every run the store can accept an update exactly if
      what the call has seen is what is stored, and can answer with a conflict exactly if it
      is not; it can accept a create exactly if nothing is stored. */
  lemma StoreDecides(states: seq<State>, acts: seq<Action>, n: nat, c: nat)
    requires IsRun(states, acts) && n < |states| && c < |states[n].calls|
    ensures states[n].history != []
    ensures var s, pc := states[n], states[n].calls[c].pc;
            && (Enabled(s, Update(c, Accepted)) <==> pc.Updating? && Current(s) == Some(pc.seen))
            && (Enabled(s, Update(c, Conflict)) <==> pc.Updating? && Current(s) != Some(pc.seen))
            && (Enabled(s, Create(c, Accepted)) <==> pc.Creating? && Current(s) == None)
            && (Enabled(s, Create(c, Conflict)) <==> pc.Creating? && Current(s) != None)
  {
    RunKeeps(states, acts, n);
    assert CallFits(states[n], states[n].calls[c]);
  }
}
