/** The lifecycle of cluster records: starts and stops keyed by the cluster's UID,
    interleaved at every access to the shared map. */
module ClusterManager {
  import opened Options

  /** A cluster as seen by a caller; `settings` stands for the endpoint, token, certificate
      and authorization endpoint that the record depends on. */
  datatype Cluster = Cluster(uid: string, settings: string)

  /** `stored` notes that the record has been put in the map. */
  datatype Record = Record(cluster: Cluster, started: bool, owner: bool, cancelled: bool, stored: bool)

  datatype StopPc = StopLoading | Cancelling(record: nat) | Deleting(record: nat) | Stopped

  /** A call of Stop: load the entry, cancel its record, delete the entry of the UID. */
  datatype Stopper = Stopper(uid: string, pc: StopPc)

  datatype StartPc =
    | Loading
    | AwaitStop(stopper: nat, giveUp: bool)
    | Creating
    | Storing(record: nat)
    | Starting(record: nat)
    | Done(result: Option<nat>)

  /** A call of start, with the wanted ownership. */
  datatype Starter = Starter(cluster: Cluster, controllers: bool, owner: bool, pc: StartPc)

  datatype State = State(
    records: seq<Record>,
    entries: map<string, nat>,
    starters: seq<Starter>,
    stoppers: seq<Stopper>)

  /** What building a record answers: a record, nothing yet, or an error, after which the
      cluster is marked unavailable and, if it can still be read, stopped. */
  datatype Built = Made | NotReady | Failed(readable: bool)

  datatype Action =
    | CallStart(cluster: Cluster, controllers: bool, owner: bool)
    | CallStop(uid: string)
    | Start(starter: nat, built: Built)
    | Stop(stopper: nat)
    | TimeOut(record: nat)

  predicate Changed(r: Record, c: Starter) {
    r.cluster.settings != c.cluster.settings || (c.controllers && r.started && c.owner != r.owner)
  }

  predicate EntryFits(s: State, uid: string) {
    uid in s.entries ==> s.entries[uid] < |s.records|
  }

  predicate Enabled(s: State, act: Action) {
    match act
    case CallStart(_, _, _) => true
    case CallStop(_) => true
    case Start(c, _) =>
      && c < |s.starters|
      && (match s.starters[c].pc
          case Loading => EntryFits(s, s.starters[c].cluster.uid)
          case AwaitStop(i, _) => i < |s.stoppers| && s.stoppers[i].pc.Stopped?
          case Storing(r) => r < |s.records| && EntryFits(s, s.starters[c].cluster.uid)
          case Starting(r) => r < |s.records|
          case Creating => true
          case Done(_) => false)
    case Stop(i) =>
      && i < |s.stoppers|
      && (match s.stoppers[i].pc
          case StopLoading => true
          case Cancelling(r) => r < |s.records|
          case Deleting(_) => true
          case Stopped => false)
    // A background start that takes too long cancels its record before anyone stops it.
    case TimeOut(r) => r < |s.records| && s.records[r].started
  }

  function Goto(s: State, c: nat, pc: StartPc): State
    requires c < |s.starters|
  {
    s.(starters := s.starters[c := s.starters[c].(pc := pc)])
  }

  function Cancel(s: State, r: nat): State
    requires r < |s.records|
  {
    s.(records := s.records[r := s.records[r].(cancelled := true)])
  }

  /** The caller issues a Stop and waits for it. */
  function StopAndWait(s: State, c: nat, uid: string, giveUp: bool): State
    requires c < |s.starters|
  {
    Goto(s.(stoppers := s.stoppers + [Stopper(uid, StopLoading)]), c, AwaitStop(|s.stoppers|, giveUp))
  }

  function DoStart(s: State, c: nat, built: Built): State
    requires Enabled(s, Start(c, built))
  {
    var call := s.starters[c];
    var uid := call.cluster.uid;
    match call.pc
    case Loading =>
      if uid !in s.entries then Goto(s, c, Creating)
      else if Changed(s.records[s.entries[uid]], call) then
        StopAndWait(s, c, s.records[s.entries[uid]].cluster.uid, false)
      else Goto(s, c, Starting(s.entries[uid]))
    case AwaitStop(_, giveUp) => Goto(s, c, if giveUp then Done(None) else Creating)
    case Creating =>
      (match built
       case Made =>
         Goto(s.(records := s.records + [Record(call.cluster, false, false, false, false)]), c, Storing(|s.records|))
       case NotReady => Goto(s, c, Done(None))
       case Failed(readable) => if readable then StopAndWait(s, c, uid, true) else Goto(s, c, Done(None)))
    case Storing(r) =>
      if uid in s.entries then Goto(s, c, Starting(s.entries[uid]))
      else
        Goto(s.(entries := s.entries[uid := r], records := s.records[r := s.records[r].(stored := true)]),
             c, Starting(r))
    case Starting(r) =>
      var started := if call.controllers && !s.records[r].started
                     then s.records[r].(started := true, owner := call.owner) else s.records[r];
      Goto(s.(records := s.records[r := started]), c, Done(Some(r)))
    case Done(_) => s
  }

  function DoStop(s: State, i: nat): State
    requires Enabled(s, Stop(i))
  {
    var stop := s.stoppers[i];
    match stop.pc
    case StopLoading =>
      s.(stoppers := s.stoppers[i := stop.(pc := if stop.uid in s.entries then Cancelling(s.entries[stop.uid])
                                                 else Stopped)])
    case Cancelling(r) => Cancel(s.(stoppers := s.stoppers[i := stop.(pc := Deleting(r))]), r)
    case Deleting(_) => s.(entries := s.entries - {stop.uid}, stoppers := s.stoppers[i := stop.(pc := Stopped)])
    case Stopped => s
  }

  function Do(s: State, act: Action): State
    requires Enabled(s, act)
  {
    match act
    case CallStart(cluster, controllers, owner) =>
      s.(starters := s.starters + [Starter(cluster, controllers, owner, Loading)])
    case CallStop(uid) => s.(stoppers := s.stoppers + [Stopper(uid, StopLoading)])
    case Start(c, built) => DoStart(s, c, built)
    case Stop(i) => DoStop(s, i)
    case TimeOut(r) => Cancel(s, r)
  }

  ghost predicate IsStretch(states: seq<State>, acts: seq<Action>)
    requires |states| == |acts| + 1
  {
    forall i :: 0 <= i < |acts| ==> Enabled(states[i], acts[i]) && states[i + 1] == Do(states[i], acts[i])
  }

  ghost predicate IsRun(states: seq<State>, acts: seq<Action>) {
    && |states| == |acts| + 1
    && states[0] == State([], map[], [], [])
    && IsStretch(states, acts)
  }

  predicate EntryIsRecord(s: State, u: string) {
    u in s.entries ==>
      s.entries[u] < |s.records| && s.records[s.entries[u]].stored && s.records[s.entries[u]].cluster.uid == u
  }

  predicate StarterFits(s: State, c: Starter) {
    match c.pc
    case AwaitStop(i, _) => i < |s.stoppers| && s.stoppers[i].uid == c.cluster.uid
    case Storing(r) => r < |s.records| && s.records[r].cluster == c.cluster
    case Starting(r) => r < |s.records| && s.records[r].stored && s.records[r].cluster.uid == c.cluster.uid
    case Done(Some(r)) =>
      && r < |s.records| && s.records[r].cluster.uid == c.cluster.uid
      && (c.controllers ==> s.records[r].started)
    case _ => true
  }

  predicate StopperFits(s: State, stop: Stopper) {
    match stop.pc
    case Cancelling(r) => r < |s.records|
    case Deleting(r) => r < |s.records| && s.records[r].cancelled
    case _ => true
  }

  /** An entry of the map is a record of its UID; only stored records are started. */
  ghost predicate Inv(s: State) {
    && (forall u :: u in s.entries ==> EntryIsRecord(s, u))
    && (forall r :: 0 <= r < |s.records| && s.records[r].started ==> s.records[r].stored)
    && (forall c :: 0 <= c < |s.starters| ==> StarterFits(s, s.starters[c]))
    && (forall i :: 0 <= i < |s.stoppers| ==> StopperFits(s, s.stoppers[i]))
  }

  /** Records keep their cluster and what happened to them; a started record keeps its owner. */
  predicate RecordGrows(r: Record, t: Record) {
    && r.cluster == t.cluster
    && (r.stored ==> t.stored) && (r.cancelled ==> t.cancelled)
    && (r.started ==> t.started && t.owner == r.owner)
  }

  predicate Grows(s: State, t: State) {
    && |s.records| <= |t.records| && |s.stoppers| <= |t.stoppers|
    && (forall r :: 0 <= r < |s.records| ==> RecordGrows(s.records[r], t.records[r]))
    && (forall i :: 0 <= i < |s.stoppers| ==> t.stoppers[i].uid == s.stoppers[i].uid)
  }

  lemma StepGrows(s: State, act: Action)
    requires Enabled(s, act)
    ensures Grows(s, Do(s, act))
  {
  }

  lemma EntriesKept(s: State, act: Action, u: string)
    requires Inv(s) && Enabled(s, act)
    ensures EntryIsRecord(Do(s, act), u)
  {
    var t := Do(s, act);
    if u in s.entries {
      assert EntryIsRecord(s, u);
      StepGrows(s, act);
    } else if u in t.entries {
      assert StarterFits(s, s.starters[act.starter]);
    }
  }

  lemma StartedAreStored(s: State, act: Action)
    requires Inv(s) && Enabled(s, act)
    ensures forall r :: 0 <= r < |Do(s, act).records| && Do(s, act).records[r].started ==> Do(s, act).records[r].stored
  {
    if act.Start? {
      assert StarterFits(s, s.starters[act.starter]);
    }
  }

  lemma StarterStaysFit(s: State, t: State, c: Starter)
    requires Grows(s, t) && StarterFits(s, c)
    ensures StarterFits(t, c)
  {
  }

  lemma MovedStarterFits(s: State, c: nat, built: Built)
    requires Inv(s) && Enabled(s, Start(c, built))
    ensures StarterFits(DoStart(s, c, built), DoStart(s, c, built).starters[c])
  {
    assert StarterFits(s, s.starters[c]);
  }

  lemma StarterKept(s: State, act: Action, c: nat)
    requires Inv(s) && Enabled(s, act) && c < |Do(s, act).starters|
    ensures StarterFits(Do(s, act), Do(s, act).starters[c])
  {
    if act.Start? && act.starter == c {
      MovedStarterFits(s, c, act.built);
    } else if c < |s.starters| {
      StepGrows(s, act);
      StarterStaysFit(s, Do(s, act), s.starters[c]);
    }
  }

  lemma StopperKept(s: State, act: Action, i: nat)
    requires Inv(s) && Enabled(s, act) && i < |Do(s, act).stoppers|
    ensures StopperFits(Do(s, act), Do(s, act).stoppers[i])
  {
    if i < |s.stoppers| {
      StepGrows(s, act);
      assert StopperFits(s, s.stoppers[i]);
    }
  }

  lemma StepKeeps(s: State, act: Action)
    requires Inv(s) && Enabled(s, act)
    ensures Inv(Do(s, act))
  {
    var t := Do(s, act);
    forall u | u in t.entries ensures EntryIsRecord(t, u) { EntriesKept(s, act, u); }
    StartedAreStored(s, act);
    forall c | 0 <= c < |t.starters| ensures StarterFits(t, t.starters[c]) { StarterKept(s, act, c); }
    forall i | 0 <= i < |t.stoppers| ensures StopperFits(t, t.stoppers[i]) { StopperKept(s, act, i); }
  }

  lemma {:induction false} RunKeeps(states: seq<State>, acts: seq<Action>, n: nat)
    requires IsRun(states, acts) && n < |states|
    ensures Inv(states[n])
  {
    if n > 0 {
      RunKeeps(states, acts, n - 1);
      StepKeeps(states[n - 1], acts[n - 1]);
    }
  }

  /** Every record that was put in the map and is not cancelled is the current entry. */
  ghost predicate LiveAreCurrent(s: State) {
    forall r :: 0 <= r < |s.records| && s.records[r].stored && !s.records[r].cancelled ==>
      s.records[r].cluster.uid in s.entries && s.entries[s.records[r].cluster.uid] == r
  }

  /** A Stop is about to delete an entry whose record nobody has cancelled: between its
      load and its delete, the entry it loaded was replaced. */
  predicate WildDelete(s: State, act: Action) {
    && act.Stop? && act.stopper < |s.stoppers| && s.stoppers[act.stopper].pc.Deleting?
    && s.stoppers[act.stopper].uid in s.entries
    && s.entries[s.stoppers[act.stopper].uid] < |s.records|
    && !s.records[s.entries[s.stoppers[act.stopper].uid]].cancelled
  }

  /** One step breaks the rule exactly when it is a wild delete. */
  lemma StepKeepsLiveExactlyWhen(s: State, act: Action)
    requires Inv(s) && Enabled(s, act) && LiveAreCurrent(s)
    ensures LiveAreCurrent(Do(s, act)) <==> !WildDelete(s, act)
  {
    var t := Do(s, act);
    if act.Start? {
      assert StarterFits(s, s.starters[act.starter]);
    } else if WildDelete(s, act) {
      var r := s.entries[s.stoppers[act.stopper].uid];
      assert t.records[r].stored && !t.records[r].cancelled && t.records[r].cluster.uid !in t.entries;
    }
  }

  lemma {:induction false} NoWildDeleteKeepsLive(states: seq<State>, acts: seq<Action>, n: nat)
    requires IsRun(states, acts) && n < |states|
    requires forall i :: 0 <= i < n ==> !WildDelete(states[i], acts[i])
    ensures LiveAreCurrent(states[n])
  {
    if n > 0 {
      NoWildDeleteKeepsLive(states, acts, n - 1);
      RunKeeps(states, acts, n - 1);
      StepKeepsLiveExactlyWhen(states[n - 1], acts[n - 1]);
    }
  }

  /** Over a whole run, the records that were stored and not cancelled are the current
      entries throughout if and only if no Stop ever deletes an entry that nobody cancelled. */
  lemma LiveAreCurrentExactlyWhen(states: seq<State>, acts: seq<Action>)
    requires IsRun(states, acts)
    ensures (forall i :: 0 <= i < |states| ==> LiveAreCurrent(states[i]))
       <==> (forall i :: 0 <= i < |acts| ==> !WildDelete(states[i], acts[i]))
  {
    if forall i :: 0 <= i < |acts| ==> !WildDelete(states[i], acts[i]) {
      forall i | 0 <= i < |states| ensures LiveAreCurrent(states[i]) {
        NoWildDeleteKeepsLive(states, acts, i);
      }
    } else {
      var i :| 0 <= i < |acts| && WildDelete(states[i], acts[i]);
      if LiveAreCurrent(states[i]) {
        RunKeeps(states, acts, i);
        StepKeepsLiveExactlyWhen(states[i], acts[i]);
        assert !LiveAreCurrent(states[i + 1]);
      }
    }
  }

  predicate Midway(pc: StopPc) {
    pc.Cancelling? || pc.Deleting?
  }

  /** Each Stop runs as one step: once it has loaded an entry, nobody else moves until
      it has deleted it. */
  ghost predicate StopsUninterrupted(states: seq<State>, acts: seq<Action>)
    requires |states| == |acts| + 1
  {
    forall i, k :: 0 <= i < |acts| && 0 <= k < |states[i].stoppers| && Midway(states[i].stoppers[k].pc) ==>
      acts[i] == Stop(k)
  }

  /** What an uninterrupted Stop holds on to. */
  ghost predicate StopsHold(s: State) {
    forall k :: 0 <= k < |s.stoppers| && Midway(s.stoppers[k].pc) ==>
      s.stoppers[k].uid in s.entries && s.entries[s.stoppers[k].uid] == s.stoppers[k].pc.record
  }

  lemma {:induction false} UninterruptedHold(states: seq<State>, acts: seq<Action>, n: nat)
    requires IsRun(states, acts) && StopsUninterrupted(states, acts) && n < |states|
    ensures StopsHold(states[n])
  {
    if n > 0 {
      UninterruptedHold(states, acts, n - 1);
      var s, act, t := states[n - 1], acts[n - 1], states[n];
      RunKeeps(states, acts, n - 1);
      assert Enabled(s, act) && t == Do(s, act);
      forall k | 0 <= k < |t.stoppers| && Midway(t.stoppers[k].pc)
        ensures t.stoppers[k].uid in t.entries && t.entries[t.stoppers[k].uid] == t.stoppers[k].pc.record
      {
        if k < |s.stoppers| && Midway(s.stoppers[k].pc) {
          assert act == Stop(k);
        }
      }
    }
  }

  lemma UninterruptedNeverWild(states: seq<State>, acts: seq<Action>, i: nat)
    requires IsRun(states, acts) && StopsUninterrupted(states, acts) && i < |acts|
    ensures !WildDelete(states[i], acts[i])
  {
    UninterruptedHold(states, acts, i);
    RunKeeps(states, acts, i);
  }

  predicate Active(s: State, r: nat) {
    r < |s.records| && s.records[r].started && !s.records[r].cancelled
  }

  predicate TwoActive(s: State, r: nat, q: nat) {
    Active(s, r) && Active(s, q) && r != q && s.records[r].cluster.uid == s.records[q].cluster.uid
  }

  predicate Current(s: State, r: nat) {
    r < |s.records| && s.records[r].cluster.uid in s.entries && s.entries[s.records[r].cluster.uid] == r
  }

  /** Record `r` is started, or a call is about to start it. */
  ghost predicate InUse(s: State, r: nat) {
    r < |s.records| &&
    (s.records[r].started ||
     exists c :: 0 <= c < |s.starters| && s.starters[c].controllers && s.starters[c].pc == Starting(r))
  }

  /** Record `r` is in use, nobody has cancelled it, and no Stop can find it any more. */
  ghost predicate Stray(s: State, r: nat) {
    r < |s.records| && s.records[r].stored && !s.records[r].cancelled && !Current(s, r) && InUse(s, r)
  }

  ghost predicate NoStrays(s: State) {
    forall r :: 0 <= r < |s.records| ==> !Stray(s, r)
  }

  /** A wild delete of a record that is in use. */
  ghost predicate Leak(s: State, act: Action) {
    WildDelete(s, act) && InUse(s, s.entries[s.stoppers[act.stopper].uid])
  }

  /** A step that is no wild delete makes no stray. */
  lemma StrayNeedsDelete(s: State, act: Action, r: nat)
    requires Inv(s) && Enabled(s, act) && r < |Do(s, act).records|
    requires !(r < |s.records| && Stray(s, r)) && !WildDelete(s, act)
    ensures !Stray(Do(s, act), r)
  {
    if act.Start? {
      assert StarterFits(s, s.starters[act.starter]);
    }
  }

  /** One step makes a stray exactly when it is a wild delete of a record in use. */
  lemma StepStraysExactlyWhen(s: State, act: Action)
    requires Inv(s) && Enabled(s, act) && NoStrays(s)
    ensures NoStrays(Do(s, act)) <==> !Leak(s, act)
  {
    var t := Do(s, act);
    if WildDelete(s, act) {
      var r := s.entries[s.stoppers[act.stopper].uid];
      assert EntryIsRecord(s, s.stoppers[act.stopper].uid);
      assert t.records == s.records && t.starters == s.starters;
      assert InUse(t, r) <==> InUse(s, r);
      assert Stray(t, r) <==> InUse(s, r);
      forall q | 0 <= q < |t.records| && q != r ensures !Stray(t, q) {
        assert !Stray(s, q);
        assert InUse(t, q) <==> InUse(s, q);
      }
    } else {
      forall r | 0 <= r < |t.records| ensures !Stray(t, r) { StrayNeedsDelete(s, act, r); }
    }
  }

  /** Without strays the active records are current, so no two belong to the same UID. */
  lemma NoStraysMeansOneActive(s: State, r: nat, q: nat)
    requires Inv(s) && NoStrays(s)
    ensures Active(s, r) ==> Current(s, r)
    ensures !TwoActive(s, r, q)
  {
    assert r < |s.records| ==> !Stray(s, r);
    assert q < |s.records| ==> !Stray(s, q);
  }

  lemma {:induction false} StretchKeeps(states: seq<State>, acts: seq<Action>, n: nat)
    requires |states| == |acts| + 1 && IsStretch(states, acts) && n < |states|
    requires Inv(states[0]) && NoStrays(states[0])
    requires forall i :: 0 <= i < n ==> !Leak(states[i], acts[i])
    ensures Inv(states[n]) && NoStrays(states[n])
  {
    if n > 0 {
      StretchKeeps(states, acts, n - 1);
      StepKeeps(states[n - 1], acts[n - 1]);
      StepStraysExactlyWhen(states[n - 1], acts[n - 1]);
    }
  }

  /** In every run in which no Stop deletes an entry that is in use and not cancelled: at most
      one record per UID is started and not cancelled, and it is the current entry. */
  lemma AtMostOneActivePerCluster(states: seq<State>, acts: seq<Action>, n: nat, r: nat, q: nat)
    requires IsRun(states, acts) && n < |states|
    requires forall i :: 0 <= i < n ==> !Leak(states[i], acts[i])
    ensures Active(states[n], r) ==> Current(states[n], r)
    ensures !TwoActive(states[n], r, q)
  {
    StretchKeeps(states, acts, n);
    NoStraysMeansOneActive(states[n], r, q);
  }

  /** In particular when Stop runs as one step. */
  lemma UninterruptedStopsNeverLeak(states: seq<State>, acts: seq<Action>, n: nat, r: nat, q: nat)
    requires IsRun(states, acts) && StopsUninterrupted(states, acts) && n < |states|
    ensures Active(states[n], r) ==> Current(states[n], r)
    ensures !TwoActive(states[n], r, q)
  {
    forall i | 0 <= i < n ensures !Leak(states[i], acts[i]) { UninterruptedNeverWild(states, acts, i); }
    AtMostOneActivePerCluster(states, acts, n, r, q);
  }

  ghost predicate Leakless(states: seq<State>, acts: seq<Action>)
    requires |states| == |acts| + 1
  {
    forall i :: 0 <= i < |acts| ==> !Leak(states[i], acts[i])
  }

  /** A stretch of a run and one more action. */
  lemma Extend(states: seq<State>, acts: seq<Action>, act: Action) returns (states': seq<State>, acts': seq<Action>)
    requires |states| == |acts| + 1 && IsStretch(states, acts) && Enabled(states[|acts|], act)
    ensures |states'| == |acts'| + 1 && IsStretch(states', acts') && states'[0] == states[0]
    ensures |acts'| == |acts| + 1 && states'[|acts|] == states[|acts|] && acts'[|acts|] == act
    ensures states'[|acts'|] == Do(states[|acts|], act)
    ensures Leakless(states, acts) && !Leak(states[|acts|], act) ==> Leakless(states', acts')
  {
    states', acts' := states + [Do(states[|acts|], act)], acts + [act];
  }

  /** An undisturbed start of a cluster without an entry, up to the point where it has built a
      record. */
  lemma PlayBuild(states: seq<State>, acts: seq<Action>, cluster: Cluster) returns (states': seq<State>, acts': seq<Action>)
    requires |states| == |acts| + 1 && IsStretch(states, acts) && cluster.uid !in states[|acts|].entries
    ensures |states'| == |acts'| + 1 && IsStretch(states', acts') && states'[0] == states[0]
    ensures Leakless(states, acts) ==> Leakless(states', acts')
    ensures var s, r := states[|acts|], |states[|acts|].records|;
            states'[|acts'|] == State(s.records + [Record(cluster, false, false, false, false)], s.entries,
                                      s.starters + [Starter(cluster, true, true, Storing(r))], s.stoppers)
  {
    var c := |states[|acts|].starters|;
    states', acts' := Extend(states, acts, CallStart(cluster, true, true));
    states', acts' := Extend(states', acts', Start(c, Made));
    states', acts' := Extend(states', acts', Start(c, Made));
  }

  /** An undisturbed start of a cluster without an entry. */
  lemma PlayStart(states: seq<State>, acts: seq<Action>, cluster: Cluster) returns (states': seq<State>, acts': seq<Action>)
    requires |states| == |acts| + 1 && IsStretch(states, acts) && cluster.uid !in states[|acts|].entries
    ensures |states'| == |acts'| + 1 && IsStretch(states', acts') && states'[0] == states[0]
    ensures Leakless(states, acts) ==> Leakless(states', acts')
    ensures var s, r := states[|acts|], |states[|acts|].records|;
            states'[|acts'|] == State(s.records + [Record(cluster, true, true, false, true)],
                                      s.entries[cluster.uid := r],
                                      s.starters + [Starter(cluster, true, true, Done(Some(r)))],
                                      s.stoppers)
  {
    var c := |states[|acts|].starters|;
    states', acts' := PlayBuild(states, acts, cluster);
    states', acts' := Extend(states', acts', Start(c, Made));
    states', acts' := Extend(states', acts', Start(c, Made));
  }

  /** An undisturbed stop of a cluster with an entry. */
  lemma PlayStop(states: seq<State>, acts: seq<Action>, uid: string) returns (states': seq<State>, acts': seq<Action>)
    requires |states| == |acts| + 1 && IsStretch(states, acts)
    requires uid in states[|acts|].entries && states[|acts|].entries[uid] < |states[|acts|].records|
    ensures |states'| == |acts'| + 1 && IsStretch(states', acts') && states'[0] == states[0]
    ensures Leakless(states, acts) ==> Leakless(states', acts')
    ensures var s, e := states[|acts|], states[|acts|].entries[uid];
            states'[|acts'|] == State(s.records[e := s.records[e].(cancelled := true)],
                                      s.entries - {uid},
                                      s.starters,
                                      s.stoppers + [Stopper(uid, Stopped)])
  {
    var i := |states[|acts|].stoppers|;
    states', acts' := Extend(states, acts, CallStop(uid));
    states', acts' := Extend(states', acts', Stop(i));
    states', acts' := Extend(states', acts', Stop(i));
    states', acts' := Extend(states', acts', Stop(i));
  }

  /** A record that is active and not the current entry gets company: a Stop does not find
      it, and the next start makes another. */
  lemma ActiveStrayGetsCompany(states: seq<State>, acts: seq<Action>, r: nat)
    returns (states': seq<State>, acts': seq<Action>, q: nat)
    requires |states| == |acts| + 1 && IsStretch(states, acts) && Leakless(states, acts)
    requires Inv(states[|acts|]) && Active(states[|acts|], r) && !Current(states[|acts|], r)
    ensures |states'| == |acts'| + 1 && IsStretch(states', acts') && Leakless(states', acts')
    ensures states'[0] == states[0] && TwoActive(states'[|acts'|], r, q)
  {
    var cluster := states[|acts|].records[r].cluster;
    states', acts', q := states, acts, |states[|acts|].records|;
    if cluster.uid in states[|acts|].entries {
      assert EntryIsRecord(states[|acts|], cluster.uid);
      states', acts' := PlayStop(states, acts, cluster.uid);
    }
    states', acts' := PlayStart(states', acts', cluster);
  }

  /** From `s` on, without a leak, two records of one UID get active. */
  ghost predicate LeadsToTwo(s: State, states: seq<State>, acts: seq<Action>) {
    && |states| == |acts| + 1 && IsStretch(states, acts) && Leakless(states, acts) && states[0] == s
    && exists r, q :: TwoActive(states[|acts|], r, q)
  }

  lemma StrayLeadsToTwo(s: State, r: nat) returns (states: seq<State>, acts: seq<Action>)
    requires Inv(s) && Stray(s, r)
    ensures LeadsToTwo(s, states, acts)
  {
    states, acts := [s], [];
    if !s.records[r].started {
      var c :| 0 <= c < |s.starters| && s.starters[c].controllers && s.starters[c].pc == Starting(r);
      StepKeeps(s, Start(c, Made));
      states, acts := Extend(states, acts, Start(c, Made));
    }
    var q;
    states, acts, q := ActiveStrayGetsCompany(states, acts, r);
  }

  /** From every reachable state: two records of one UID can get active, with no leak from here
      on, if and only if there is a stray already. */
  lemma TwoActiveExactlyWhen(states: seq<State>, acts: seq<Action>)
    requires IsRun(states, acts)
    ensures (exists more, steps :: LeadsToTwo(states[|acts|], more, steps)) <==> !NoStrays(states[|acts|])
  {
    var s := states[|acts|];
    RunKeeps(states, acts, |acts|);
    if NoStrays(s) {
      forall more, steps ensures !LeadsToTwo(s, more, steps) {
        if |more| == |steps| + 1 && IsStretch(more, steps) && Leakless(more, steps) && more[0] == s {
          StretchKeeps(more, steps, |steps|);
          forall r: nat, q: nat ensures !TwoActive(more[|steps|], r, q) {
            NoStraysMeansOneActive(more[|steps|], r, q);
          }
        }
      }
    } else {
      var r :| 0 <= r < |s.records| && Stray(s, r);
      var more, steps := StrayLeadsToTwo(s, r);
    }
  }

  /** A started record stays started, with the owner it was started with. */
  lemma {:induction false} OwnerNeverChanges(states: seq<State>, acts: seq<Action>, i: nat, j: nat, r: nat)
    requires IsRun(states, acts) && i <= j < |states|
    requires r < |states[i].records| && states[i].records[r].started
    ensures r < |states[j].records| && states[j].records[r].started
    ensures states[j].records[r].owner == states[i].records[r].owner
    decreases j
  {
    if i < j {
      OwnerNeverChanges(states, acts, i, j - 1, r);
      StepGrows(states[j - 1], acts[j - 1]);
    }
  }

  /** The step belongs to start call `c`: its own, or of the Stop it waits for. */
  predicate OwnStep(s: State, act: Action, c: nat) {
    c < |s.starters| &&
    match act
    case Start(d, _) => d == c
    case Stop(i) => s.starters[c].pc.AwaitStop? && s.starters[c].pc.stopper == i
    case _ => false
  }

  predicate FindsEntry(s: State, call: Starter) {
    call.cluster.uid in s.entries && s.entries[call.cluster.uid] < |s.records|
  }

  /** The start finds an entry with other settings, or one that is started with another owner
      while the start wants controllers. */
  predicate FindsOther(s: State, call: Starter) {
    && FindsEntry(s, call)
    && var found := s.records[s.entries[call.cluster.uid]];
       || found.cluster.settings != call.cluster.settings
       || (call.controllers && found.started && found.owner != call.owner)
  }

  /** What the Stop of a start leaves: the record it found cancelled, its entry gone. */
  function ClearedRecords(s: State, call: Starter): seq<Record> {
    if FindsEntry(s, call)
    then s.records[s.entries[call.cluster.uid] := s.records[s.entries[call.cluster.uid]].(cancelled := true)]
    else s.records
  }

  function ClearedEntries(s: State, call: Starter): map<string, nat> {
    s.entries - {call.cluster.uid}
  }

  /** A record in the hands of a start that wants controllers gets started, once. */
  function StartedFor(r: Record, call: Starter): Record {
    if call.controllers && !r.started then r.(started := true, owner := call.owner) else r
  }

  /** How far the Stop of a start that began at `s0` has come. */
  predicate StopAt(s0: State, s: State, call: Starter, pc: StopPc)
    requires FindsEntry(s0, call)
  {
    match pc
    case StopLoading => s.records == s0.records && s.entries == s0.entries
    case Cancelling(r) => r == s0.entries[call.cluster.uid] && s.records == s0.records && s.entries == s0.entries
    case Deleting(_) => s.records == ClearedRecords(s0, call) && s.entries == s0.entries
    case Stopped => s.records == ClearedRecords(s0, call) && s.entries == ClearedEntries(s0, call)
  }

  /** The start keeps the record it finds. */
  predicate Keeps(s0: State, call: Starter) {
    FindsEntry(s0, call) && !FindsOther(s0, call)
  }

  /** Where a start that keeps the record it finds stands: the record may get started and nothing
      else happens. */
  predicate KeepingAt(s0: State, s: State, call: Starter, pc: StartPc)
    requires FindsEntry(s0, call)
  {
    && s.entries == s0.entries && s.stoppers == s0.stoppers
    && match pc
       case Loading => s.records == s0.records
       case Starting(r) => r == s0.entries[call.cluster.uid] && s.records == s0.records
       case Done(Some(r)) =>
         && r == s0.entries[call.cluster.uid] && r < |s0.records|
         && s.records == s0.records[r := StartedFor(s0.records[r], call)]
       case _ => false
  }

  /** Where another start stands: after its Stop, if it found an entry, it builds a record, puts it
      in the map and returns it, started if it wants controllers. */
  predicate ReplacingAt(s0: State, s: State, call: Starter, pc: StartPc) {
    var next := |s0.records|;
    match pc
    case Loading => s.records == s0.records && s.entries == s0.entries && s.stoppers == s0.stoppers
    case AwaitStop(i, giveUp) =>
      && i < |s.stoppers| && s.stoppers[i].uid == call.cluster.uid
      && if giveUp then s.records == ClearedRecords(s0, call) && s.entries == ClearedEntries(s0, call)
                     && (s.stoppers[i].pc.StopLoading? || s.stoppers[i].pc.Stopped?)
         else FindsOther(s0, call) && StopAt(s0, s, call, s.stoppers[i].pc)
    case Creating => s.records == ClearedRecords(s0, call) && s.entries == ClearedEntries(s0, call)
    case Storing(r) =>
      && r == next && s.entries == ClearedEntries(s0, call)
      && s.records == ClearedRecords(s0, call) + [Record(call.cluster, false, false, false, false)]
    case Starting(r) =>
      && r == next && s.entries == ClearedEntries(s0, call)[call.cluster.uid := next]
      && s.records == ClearedRecords(s0, call) + [Record(call.cluster, false, false, false, true)]
    case Done(Some(r)) =>
      && r == next && s.entries == ClearedEntries(s0, call)[call.cluster.uid := next]
      && s.records == ClearedRecords(s0, call) + [StartedFor(Record(call.cluster, false, false, false, true), call)]
    case Done(None) => s.records == ClearedRecords(s0, call) && s.entries == ClearedEntries(s0, call)
  }

  /** Where a start that is alone since `s0` stands. */
  predicate ExactlyAt(s0: State, s: State, c: nat) {
    && c < |s0.starters| && c < |s.starters|
    && s.starters == s0.starters[c := s0.starters[c].(pc := s.starters[c].pc)]
    && if Keeps(s0, s0.starters[c]) then KeepingAt(s0, s, s0.starters[c], s.starters[c].pc)
       else ReplacingAt(s0, s, s0.starters[c], s.starters[c].pc)
  }

  lemma ClearedWithoutEntry(s: State, call: Starter)
    requires call.cluster.uid !in s.entries
    ensures ClearedRecords(s, call) == s.records && ClearedEntries(s, call) == s.entries
  {
  }

  lemma KeepingStarts(s0: State, s: State, c: nat, built: Built)
    requires Inv(s0) && ExactlyAt(s0, s, c) && Keeps(s0, s0.starters[c]) && Enabled(s, Start(c, built))
    ensures ExactlyAt(s0, DoStart(s, c, built), c)
  {
  }

  /** Loading and waiting for the Stop. */
  lemma ReplacingClears(s0: State, s: State, c: nat, built: Built)
    requires Inv(s0) && ExactlyAt(s0, s, c) && !Keeps(s0, s0.starters[c]) && Enabled(s, Start(c, built))
    requires s.starters[c].pc.Loading? || s.starters[c].pc.AwaitStop?
    ensures ExactlyAt(s0, DoStart(s, c, built), c)
  {
    assert EntryIsRecord(s0, s0.starters[c].cluster.uid);
    if s0.starters[c].cluster.uid !in s0.entries {
      ClearedWithoutEntry(s0, s0.starters[c]);
    }
  }

  /** Building a record, putting it in the map and starting it. */
  lemma ReplacingMakes(s0: State, s: State, c: nat, built: Built)
    requires Inv(s0) && ExactlyAt(s0, s, c) && !Keeps(s0, s0.starters[c]) && Enabled(s, Start(c, built))
    requires !s.starters[c].pc.Loading? && !s.starters[c].pc.AwaitStop?
    ensures ExactlyAt(s0, DoStart(s, c, built), c)
  {
    assert |ClearedRecords(s0, s0.starters[c])| == |s0.records|;
  }

  lemma ReplacingStops(s0: State, s: State, c: nat, i: nat)
    requires Inv(s0) && ExactlyAt(s0, s, c) && Enabled(s, Stop(i)) && OwnStep(s, Stop(i), c)
    ensures ExactlyAt(s0, DoStop(s, i), c)
  {
  }

  lemma {:induction false} StaysExactly(states: seq<State>, acts: seq<Action>, m: nat, n: nat, c: nat)
    requires IsRun(states, acts) && m <= n < |states|
    requires c < |states[m].starters| && states[m].starters[c].pc.Loading?
    requires forall i :: m <= i < n ==> OwnStep(states[i], acts[i], c)
    ensures ExactlyAt(states[m], states[n], c)
    decreases n
  {
    RunKeeps(states, acts, m);
    if m < n {
      StaysExactly(states, acts, m, n - 1, c);
      var s, act := states[n - 1], acts[n - 1];
      assert Enabled(s, act) && states[n] == Do(s, act);
      if act.Stop? {
        ReplacingStops(states[m], s, c, act.stopper);
      } else if Keeps(states[m], states[m].starters[c]) {
        KeepingStarts(states[m], s, c, act.built);
      } else if s.starters[c].pc.Loading? || s.starters[c].pc.AwaitStop? {
        ReplacingClears(states[m], s, c, act.built);
      } else {
        ReplacingMakes(states[m], s, c, act.built);
      }
    }
  }

  /** From every reachable state, with controllers or without: a start that nobody disturbs and
      that finds an entry issues a Stop for it if and only if the settings differ, or it
      wants controllers and the record is started with another owner. */
  lemma StopsExactlyWhen(states: seq<State>, acts: seq<Action>, m: nat, c: nat)
    requires IsRun(states, acts) && m < |acts| && acts[m].Start? && acts[m].starter == c
    requires c < |states[m].starters| && states[m].starters[c].pc.Loading?
    requires states[m].starters[c].cluster.uid in states[m].entries
    ensures var s, t, call := states[m], states[m + 1], states[m].starters[c];
            var e := s.entries[call.cluster.uid];
            && e < |s.records|
            && ((|| s.records[e].cluster.settings != call.cluster.settings
                 || (call.controllers && s.records[e].started && s.records[e].owner != call.owner))
                <==> t.stoppers == s.stoppers + [Stopper(call.cluster.uid, StopLoading)])
            && (t.stoppers == s.stoppers || t.stoppers == s.stoppers + [Stopper(call.cluster.uid, StopLoading)])
  {
    RunKeeps(states, acts, m);
    var s, t, call := states[m], states[m + 1], states[m].starters[c];
    assert EntryIsRecord(s, call.cluster.uid);
    assert Enabled(s, acts[m]) && t == Do(s, acts[m]);
    assert |s.stoppers + [Stopper(call.cluster.uid, StopLoading)]| != |s.stoppers|;
  }

  /** What an undisturbed start returns and leaves. If it finds an entry and neither holds, it
      returns that very record, started if it wants controllers, and entries, stoppers and
      what is cancelled are as before. Otherwise it returns a new record, which takes the
      entry, and the record that had it is cancelled. */
  lemma StartAloneReturnsExactly(states: seq<State>, acts: seq<Action>, m: nat, n: nat, c: nat, r: nat)
    requires IsRun(states, acts) && m <= n < |states|
    requires c < |states[m].starters| && states[m].starters[c].pc.Loading?
    requires forall i :: m <= i < n ==> OwnStep(states[i], acts[i], c)
    requires c < |states[n].starters| && states[n].starters[c].pc == Done(Some(r))
    ensures var s, t, call := states[m], states[n], states[m].starters[c];
            var uid := call.cluster.uid;
            if uid in s.entries && s.entries[uid] < |s.records| && var found := s.records[s.entries[uid]];
                 && found.cluster.settings == call.cluster.settings
                 && !(call.controllers && found.started && found.owner != call.owner)
            then && r == s.entries[uid] && t.entries == s.entries && t.stoppers == s.stoppers
                 && t.records == s.records[r := StartedFor(s.records[r], call)]
                 && t.records[r].cancelled == s.records[r].cancelled && t.records[r].cluster == s.records[r].cluster
            else && r == |s.records| && t.entries == s.entries[uid := r] && |t.records| == r + 1
                 && t.records[r] == Record(call.cluster, call.controllers, call.controllers && call.owner, false, true)
                 && forall q :: 0 <= q < r ==>
                      t.records[q] == if uid in s.entries && s.entries[uid] == q then s.records[q].(cancelled := true)
                                      else s.records[q]
  {
    StaysExactly(states, acts, m, n, c);
    var s, call := states[m], states[m].starters[c];
    RunKeeps(states, acts, m);
    assert EntryIsRecord(s, call.cluster.uid);
    assert ClearedEntries(s, call)[call.cluster.uid := |s.records|] == s.entries[call.cluster.uid := |s.records|];
  }

  /** The start's own build, with an answer that is not a record. */
  predicate NotBuilt(s: State, act: Action, c: nat) {
    act.Start? && act.starter == c && c < |s.starters| && s.starters[c].pc.Creating? && !act.built.Made?
  }

  /** The start has given up, or waits for the Stop after which it will. */
  predicate GivenUp(pc: StartPc) {
    pc == Done(None) || (pc.AwaitStop? && pc.giveUp)
  }

  lemma GivesUpStep(s: State, act: Action, c: nat)
    requires Enabled(s, act) && c < |s.starters|
    ensures c < |Do(s, act).starters|
    ensures GivenUp(Do(s, act).starters[c].pc) <==> GivenUp(s.starters[c].pc) || NotBuilt(s, act, c)
  {
  }

  lemma {:induction false} StartersGrow(states: seq<State>, acts: seq<Action>, i: nat, j: nat)
    requires IsRun(states, acts) && i <= j < |states|
    ensures |states[i].starters| <= |states[j].starters|
    decreases j
  {
    if i < j {
      StartersGrow(states, acts, i, j - 1);
      assert Enabled(states[j - 1], acts[j - 1]) && states[j] == Do(states[j - 1], acts[j - 1]);
    }
  }

  /** In every run a start gives up, and in the end returns no record, if and only if its own
      attempt to build one failed or found the cluster not ready. */
  lemma {:induction false} GivesUpExactlyWhen(states: seq<State>, acts: seq<Action>, n: nat, c: nat)
    requires IsRun(states, acts) && n < |states| && c < |states[n].starters|
    ensures GivenUp(states[n].starters[c].pc) <==> exists i :: 0 <= i < n && NotBuilt(states[i], acts[i], c)
  {
    if n > 0 {
      var s, act := states[n - 1], acts[n - 1];
      assert Enabled(s, act) && states[n] == Do(s, act);
      if c < |s.starters| {
        GivesUpExactlyWhen(states, acts, n - 1, c);
        GivesUpStep(s, act, c);
      } else {
        forall i | 0 <= i < n ensures !NotBuilt(states[i], acts[i], c) { StartersGrow(states, acts, i, n - 1); }
      }
    }
  }

  /** The start finds an entry that it need not replace, and whose record is cancelled. */
  predicate FindsCancelled(s: State, call: Starter) {
    Keeps(s, call) && s.records[s.entries[call.cluster.uid]].cancelled
  }

  /** A start that is not interleaved with anything, from any reachable state, returns (if
      it returns a record) one for the cluster as requested, with the same settings, that is
      started with the requested owner. */
  lemma StartAloneGetsItsOwner(states: seq<State>, acts: seq<Action>, m: nat, n: nat, c: nat, r: nat)
    requires IsRun(states, acts) && m <= n < |states|
    requires c < |states[m].starters| && states[m].starters[c].pc.Loading? && states[m].starters[c].controllers
    requires forall i :: m <= i < n ==> OwnStep(states[i], acts[i], c)
    requires c < |states[n].starters| && states[n].starters[c].pc == Done(Some(r))
    ensures r < |states[n].records| && states[n].records[r].started
    ensures states[n].records[r].owner == states[m].starters[c].owner
    ensures states[n].records[r].cluster == states[m].starters[c].cluster
  {
    StartAloneReturnsExactly(states, acts, m, n, c, r);
    RunKeeps(states, acts, m);
    assert EntryIsRecord(states[m], states[m].starters[c].cluster.uid);
  }

  /** The record that such a start returns is active if and only if the start did not find one
      it need not replace that is cancelled: a Stop has cancelled it and not yet deleted its
      entry, or its background start has timed out. */
  lemma StartAloneIsActiveExactlyWhen(states: seq<State>, acts: seq<Action>, m: nat, n: nat, c: nat, r: nat)
    requires IsRun(states, acts) && m <= n < |states|
    requires c < |states[m].starters| && states[m].starters[c].pc.Loading? && states[m].starters[c].controllers
    requires forall i :: m <= i < n ==> OwnStep(states[i], acts[i], c)
    requires c < |states[n].starters| && states[n].starters[c].pc == Done(Some(r))
    ensures Active(states[n], r) <==> !FindsCancelled(states[m], states[m].starters[c])
  {
    StartAloneReturnsExactly(states, acts, m, n, c, r);
    StartAloneGetsItsOwner(states, acts, m, n, c, r);
  }

  /** It happens that it is not: a Stop has cancelled the record and not deleted its entry. */
  lemma StartMayReturnCancelled() returns (states: seq<State>, acts: seq<Action>)
    ensures IsRun(states, acts)
    ensures var s := states[|acts|];
            && |s.starters| == 2 && s.starters[1].controllers && s.starters[1].pc == Done(Some(0))
            && |s.records| == 1 && !Active(s, 0)
  {
    var cluster := Cluster("u", "");
    states, acts := [State([], map[], [], [])], [];
    states, acts := PlayStart(states, acts, cluster);
    states, acts := Extend(states, acts, CallStop("u"));
    states, acts := Extend(states, acts, Stop(0));
    states, acts := Extend(states, acts, Stop(0));
    states, acts := Extend(states, acts, CallStart(cluster, true, true));
    states, acts := Extend(states, acts, Start(1, Made));
    states, acts := Extend(states, acts, Start(1, Made));
  }

  /** Call `d` takes the step that starts record `r`: it wants controllers and finds the record
      not started. */
  predicate Starts(s: State, act: Action, r: nat, d: nat) {
    && act.Start? && act.starter == d && d < |s.starters| && s.starters[d].controllers
    && s.starters[d].pc == Starting(r) && r < |s.records| && !s.records[r].started
  }

  lemma BecomesStarted(s: State, act: Action, r: nat)
    requires Enabled(s, act) && r < |Do(s, act).records| && Do(s, act).records[r].started
    requires r < |s.records| ==> !s.records[r].started
    ensures act.Start? && Starts(s, act, r, act.starter)
    ensures Do(s, act).records[r].owner == s.starters[act.starter].owner
  {
  }

  /** A started record was started by some call, whose owner it has. */
  lemma {:induction false} StartedBySomebody(states: seq<State>, acts: seq<Action>, n: nat, r: nat) returns (i: nat, d: nat)
    requires IsRun(states, acts) && n < |states| && r < |states[n].records| && states[n].records[r].started
    ensures i < n && Starts(states[i], acts[i], r, d)
    ensures states[n].records[r].owner == states[i].starters[d].owner
  {
    var s, act := states[n - 1], acts[n - 1];
    assert Enabled(s, act) && states[n] == Do(s, act);
    if r < |s.records| && s.records[r].started {
      i, d := StartedBySomebody(states, acts, n - 1, r);
      StepGrows(s, act);
    } else {
      BecomesStarted(s, act, r);
      i, d := n - 1, act.starter;
    }
  }

  /** Nobody else starts it, before or after. */
  lemma StartedOnce(states: seq<State>, acts: seq<Action>, i: nat, d: nat, j: nat, e: nat, r: nat)
    requires IsRun(states, acts) && i <= j < |acts|
    requires Starts(states[i], acts[i], r, d) && Starts(states[j], acts[j], r, e)
    ensures i == j && d == e
  {
    if i < j {
      assert states[i + 1] == Do(states[i], acts[i]);
      OwnerNeverChanges(states, acts, i + 1, j, r);
    }
  }

  /** Call `c` has returned record `r` with the owner it asked for. */
  predicate GotOwner(s: State, c: nat, r: nat) {
    && c < |s.starters| && s.starters[c].pc == Done(Some(r))
    && r < |s.records| && s.records[r].started && s.records[r].owner == s.starters[c].owner
  }

  /** In every run: a call with controllers that has returned a record got the owner it asked
      for if and only if the one call that started the record asked for the same. */
  lemma GotOwnerExactlyWhen(states: seq<State>, acts: seq<Action>, n: nat, c: nat, r: nat) returns (i: nat, d: nat)
    requires IsRun(states, acts) && n < |states| && c < |states[n].starters|
    requires states[n].starters[c].controllers && states[n].starters[c].pc == Done(Some(r))
    ensures i < n && Starts(states[i], acts[i], r, d)
    ensures GotOwner(states[n], c, r) <==> states[i].starters[d].owner == states[n].starters[c].owner
  {
    RunKeeps(states, acts, n);
    assert StarterFits(states[n], states[n].starters[c]);
    i, d := StartedBySomebody(states, acts, n, r);
  }

  /** A call keeps what it asked for, and a call that has returned stays as it is. */
  lemma {:induction false} ReturnedStays(states: seq<State>, acts: seq<Action>, i: nat, j: nat, c: nat)
    requires IsRun(states, acts) && i <= j < |states|
    requires c < |states[i].starters| && states[i].starters[c].pc.Done?
    ensures c < |states[j].starters| && states[j].starters[c] == states[i].starters[c]
    decreases j
  {
    if i < j {
      ReturnedStays(states, acts, i, j - 1, c);
      assert Enabled(states[j - 1], acts[j - 1]) && states[j] == Do(states[j - 1], acts[j - 1]);
    }
  }

  /** The same as a guard that can be tested under the record's lock, at the step in which the
      call looks whether the record is started: the call gets its owner, then and for the
      rest of the run, if and only if the record is not started or has that owner. */
  lemma GuardDecidesOwner(states: seq<State>, acts: seq<Action>, k: nat, n: nat, c: nat, r: nat)
    requires IsRun(states, acts) && k < n < |states| && acts[k].Start? && acts[k].starter == c
    requires c < |states[k].starters| && states[k].starters[c].controllers && states[k].starters[c].pc == Starting(r)
    requires r < |states[k].records|
    ensures GotOwner(states[n], c, r) <==>
              !states[k].records[r].started || states[k].records[r].owner == states[k].starters[c].owner
  {
    assert Enabled(states[k], acts[k]) && states[k + 1] == Do(states[k], acts[k]);
    ReturnedStays(states, acts, k + 1, n, c);
    OwnerNeverChanges(states, acts, k + 1, n, r);
  }

  /** It happens that the record has another owner: both calls find no entry, and the second
      adopts the record the first has started. */
  lemma InterleavedStartMayGetOtherOwner() returns (states: seq<State>, acts: seq<Action>)
    ensures IsRun(states, acts)
    ensures var s := states[|acts|];
            && |s.starters| == 2 && s.starters[0].controllers && s.starters[0].pc == Done(Some(1))
            && !GotOwner(s, 0, 1)
  {
    var cluster := Cluster("u", "");
    states, acts := [State([], map[], [], [])], [];
    states, acts := Extend(states, acts, CallStart(cluster, true, false));
    states, acts := Extend(states, acts, Start(0, Made));
    states, acts := Extend(states, acts, Start(0, Made));
    states, acts := PlayStart(states, acts, cluster);
    states, acts := Extend(states, acts, Start(0, Made));
    var k := |acts|;
    states, acts := Extend(states, acts, Start(0, Made));
    GuardDecidesOwner(states, acts, k, |acts|, 0, 1);
  }

  /** A Stop that is interrupted between its load and its delete may leave a started record
      that nobody can reach any more, next to a second one for the same cluster. */
  lemma InterruptedStopMayLeak() returns (states: seq<State>, acts: seq<Action>)
    ensures IsRun(states, acts)
    ensures var s := states[|acts|];
            && |s.records| == 3 && Active(s, 1) && Active(s, 2)
            && s.records[1].cluster == s.records[2].cluster
            && !LiveAreCurrent(s)
  {
    var cluster := Cluster("u", "");
    states, acts := [State([], map[], [], [])], [];
    states, acts := PlayStart(states, acts, cluster);
    states, acts := Extend(states, acts, CallStop("u"));
    states, acts := Extend(states, acts, Stop(0));
    states, acts := PlayStop(states, acts, "u");
    states, acts := PlayStart(states, acts, cluster);
    states, acts := Extend(states, acts, Stop(0));
    states, acts := Extend(states, acts, Stop(0));
    states, acts := PlayStart(states, acts, cluster);
  }

  /** A start whose record cannot be built gives up at once, after a Stop if and only if building
      failed and the cluster can still be read. */
  lemma FailedBuildStopsExactlyWhen(states: seq<State>, acts: seq<Action>, n: nat, c: nat)
    requires IsRun(states, acts) && n < |acts| && NotBuilt(states[n], acts[n], c)
    ensures var s, t := states[n], states[n + 1];
            && c < |t.starters| && t.records == s.records && t.entries == s.entries
            && if acts[n].built == Failed(true)
               then && t.stoppers == s.stoppers + [Stopper(s.starters[c].cluster.uid, StopLoading)]
                    && t.starters[c].pc == AwaitStop(|s.stoppers|, true)
               else t.stoppers == s.stoppers && t.starters[c].pc == Done(None)
  {
  }

  /** What a Stop is about to cancel, and what is cancelled, was stored. */
  ghost predicate OnlyStoredCancelled(s: State) {
    && (forall r :: 0 <= r < |s.records| && s.records[r].cancelled ==> s.records[r].stored)
    && forall i :: 0 <= i < |s.stoppers| && s.stoppers[i].pc.Cancelling? ==>
         s.stoppers[i].pc.record < |s.records| && s.records[s.stoppers[i].pc.record].stored
  }

  lemma StepCancelsOnlyStored(s: State, act: Action)
    requires Inv(s) && Enabled(s, act) && OnlyStoredCancelled(s)
    ensures OnlyStoredCancelled(Do(s, act))
  {
    if act.Stop? {
      assert s.stoppers[act.stopper].uid in s.entries ==> EntryIsRecord(s, s.stoppers[act.stopper].uid);
    }
  }

  /** In every run only records that were in the map are ever cancelled. */
  lemma {:induction false} CancelledWasStored(states: seq<State>, acts: seq<Action>, n: nat)
    requires IsRun(states, acts) && n < |states|
    ensures OnlyStoredCancelled(states[n])
  {
    if n > 0 {
      RunKeeps(states, acts, n - 1);
      CancelledWasStored(states, acts, n - 1);
      StepCancelsOnlyStored(states[n - 1], acts[n - 1]);
    }
  }

  function StopDistance(pc: StopPc): nat {
    match pc
    case StopLoading => 3
    case Cancelling(_) => 2
    case Deleting(_) => 1
    case Stopped => 0
  }

  function StartDistance(pc: StartPc): nat {
    match pc
    case Loading => 6
    case AwaitStop(_, giveUp) => if giveUp then 1 else 5
    case Creating => 4
    case Storing(_) => 3
    case Starting(_) => 2
    case Done(_) => 0
  }

  /** In every reachable state a Stop can go on until it is done, and every step of it brings it nearer. */
  lemma StopStepNears(s: State, i: nat)
    requires Inv(s) && i < |s.stoppers|
    ensures Enabled(s, Stop(i)) <==> s.stoppers[i].pc != Stopped
    ensures Enabled(s, Stop(i)) ==>
              var t := Do(s, Stop(i));
              |t.stoppers| == |s.stoppers| && StopDistance(t.stoppers[i].pc) < StopDistance(s.stoppers[i].pc)
  {
    assert StopperFits(s, s.stoppers[i]);
  }

  /** And a start can go on until it is done, unless it waits for a Stop that is not. */
  lemma StartStepNears(s: State, c: nat, built: Built)
    requires Inv(s) && c < |s.starters|
    ensures Enabled(s, Start(c, built)) <==>
              && !s.starters[c].pc.Done?
              && !(s.starters[c].pc.AwaitStop? && s.stoppers[s.starters[c].pc.stopper].pc != Stopped)
    ensures Enabled(s, Start(c, built)) ==>
              var t := Do(s, Start(c, built));
              |t.starters| == |s.starters| && StartDistance(t.starters[c].pc) < StartDistance(s.starters[c].pc)
  {
    assert StarterFits(s, s.starters[c]);
    assert s.starters[c].cluster.uid in s.entries ==> EntryIsRecord(s, s.starters[c].cluster.uid);
  }

  lemma RunGoesOn(states: seq<State>, acts: seq<Action>, act: Action)
    requires IsRun(states, acts) && Enabled(states[|acts|], act)
    ensures IsRun(states + [Do(states[|acts|], act)], acts + [act])
  {
  }

  /** A Stop does not touch the starts. */
  lemma StopLeavesStarters(s: State, i: nat)
    requires Enabled(s, Stop(i))
    ensures Do(s, Stop(i)).starters == s.starters
  {
  }

  lemma {:induction false} StopCanFinish(states: seq<State>, acts: seq<Action>, i: nat)
    returns (states': seq<State>, acts': seq<Action>)
    requires IsRun(states, acts) && i < |states[|acts|].stoppers|
    ensures IsRun(states', acts') && states <= states' && acts <= acts'
    ensures i < |states'[|acts'|].stoppers| && states'[|acts'|].stoppers[i].pc == Stopped
    ensures states'[|acts'|].starters == states[|acts|].starters
    decreases StopDistance(states[|acts|].stoppers[i].pc)
  {
    var s := states[|acts|];
    RunKeeps(states, acts, |acts|);
    StopStepNears(s, i);
    if s.stoppers[i].pc == Stopped {
      states', acts' := states, acts;
    } else {
      RunGoesOn(states, acts, Stop(i));
      StopLeavesStarters(s, i);
      states', acts' := StopCanFinish(states + [Do(s, Stop(i))], acts + [Stop(i)], i);
    }
  }

  /** No deadlock: from every reachable state every start can return, whatever building its record
      answers, by its own steps and those of the Stops it waits for. */
  lemma {:induction false} EveryStartCanReturn(states: seq<State>, acts: seq<Action>, c: nat, built: Built)
    returns (states': seq<State>, acts': seq<Action>)
    requires IsRun(states, acts) && c < |states[|acts|].starters|
    ensures IsRun(states', acts') && states <= states' && acts <= acts'
    ensures c < |states'[|acts'|].starters| && states'[|acts'|].starters[c].pc.Done?
    decreases StartDistance(states[|acts|].starters[c].pc)
  {
    RunKeeps(states, acts, |acts|);
    assert StarterFits(states[|acts|], states[|acts|].starters[c]);
    var pc := states[|acts|].starters[c].pc;
    if pc.Done? {
      states', acts' := states, acts;
    } else {
      states', acts' := states, acts;
      if pc.AwaitStop? {
        states', acts' := StopCanFinish(states, acts, pc.stopper);
        RunKeeps(states', acts', |acts'|);
      }
      var s := states'[|acts'|];
      StartStepNears(s, c, built);
      RunGoesOn(states', acts', Start(c, built));
      states', acts' := EveryStartCanReturn(states' + [Do(s, Start(c, built))], acts' + [Start(c, built)], c, built);
    }
  }

  /** And a start for any cluster can begin at any time, and return. */
  lemma NewStartCanReturn(states: seq<State>, acts: seq<Action>, cluster: Cluster, controllers: bool, owner: bool, built: Built)
    returns (states': seq<State>, acts': seq<Action>)
    requires IsRun(states, acts)
    ensures IsRun(states', acts') && states <= states' && |acts| < |acts'|
    ensures acts'[|acts|] == CallStart(cluster, controllers, owner)
    ensures var c, t := |states[|acts|].starters|, states'[|acts'|]; c < |t.starters| && t.starters[c].pc.Done?
  {
    var act := CallStart(cluster, controllers, owner);
    RunGoesOn(states, acts, act);
    states', acts' := EveryStartCanReturn(states + [Do(states[|acts|], act)], acts + [act],
                                          |states[|acts|].starters|, built);
  }

  /** A background start can time out as long as its record is there, and then cancels that record
      and nothing else. */
  lemma TimeOutCancels(s: State, r: nat)
    ensures Enabled(s, TimeOut(r)) <==> r < |s.records| && s.records[r].started
    ensures Enabled(s, TimeOut(r)) ==>
              Do(s, TimeOut(r)) == s.(records := s.records[r := s.records[r].(cancelled := true)])
  {
  }
}
