/** The cache of cluster proxies: double-checked locking over two separate
    concurrent maps, with any number of calls interleaved between any two of
    their accesses. */
module ClusterCache {

  /** A cluster object found by the request lookup; `object` tells pointers apart. */
  datatype Cluster = Cluster(name: string, object: nat)

  datatype Result = Nothing | Found(cluster: Cluster, server: nat)

  /** Where a call stands. A call whose request lookup fails returns before touching
      the cache, so a call starts here with its cluster in hand. The fast steps run without the lock; from
      SlowServers to Leaving the call holds the lock of its cluster name. */
  datatype Pc =
    | FastServers
    | FastClusters(server: nat)
    | AwaitLock
    | SlowServers
    | SlowClusters(server: nat)
    | Building
    | StoreServer(server: nat)
    | StoreCluster(server: nat)
    | Leaving(result: Result)
    | Done(result: Result)

  datatype Call = Call(cluster: Cluster, pc: Pc)

  /** `built` lists the names servers were built for; a server is its index there. */
  datatype State = State(
    servers: map<string, nat>,
    clusters: map<string, Cluster>,
    locks: map<string, nat>,
    calls: seq<Call>,
    built: seq<string>)

  /** One access of one call; `buildOk` is what building a server answers, should it be asked. */
  datatype Action = Begin(cluster: Cluster) | Advance(call: nat, buildOk: bool)

  predicate Enabled(s: State, act: Action) {
    match act
    case Begin(_) => true
    case Advance(c, _) =>
      && c < |s.calls|
      && !s.calls[c].pc.Done?
      && (s.calls[c].pc.AwaitLock? ==> s.calls[c].cluster.name !in s.locks)
  }

  function Goto(s: State, c: nat, pc: Pc): State
    requires c < |s.calls|
  {
    s.(calls := s.calls[c := s.calls[c].(pc := pc)])
  }

  function LoadOrStore<V>(m: map<string, V>, key: string, value: V): (map<string, V>, V) {
    if key in m then (m, m[key]) else (m[key := value], value)
  }

  function Do(s: State, act: Action): State
    requires Enabled(s, act)
  {
    match act
    case Begin(cluster) => s.(calls := s.calls + [Call(cluster, FastServers)])
    case Advance(c, buildOk) =>
      var cluster := s.calls[c].cluster;
      var name := cluster.name;
      match s.calls[c].pc
      case FastServers => Goto(s, c, if name in s.servers then FastClusters(s.servers[name]) else AwaitLock)
      case FastClusters(server) =>
        Goto(s, c, if name in s.clusters then Done(Found(s.clusters[name], server)) else AwaitLock)
      case AwaitLock => Goto(s.(locks := s.locks[name := c]), c, SlowServers)
      case SlowServers => Goto(s, c, if name in s.servers then SlowClusters(s.servers[name]) else Building)
      case SlowClusters(server) =>
        Goto(s, c, if name in s.clusters then Leaving(Found(s.clusters[name], server)) else Building)
      case Building =>
        if buildOk then Goto(s.(built := s.built + [name]), c, StoreServer(|s.built|))
        else Goto(s, c, Leaving(Nothing))
      case StoreServer(server) =>
        var (servers, kept) := LoadOrStore(s.servers, name, server);
        Goto(s.(servers := servers), c, StoreCluster(kept))
      case StoreCluster(server) =>
        var (clusters, _) := LoadOrStore(s.clusters, name, cluster);
        Goto(s.(clusters := clusters), c, Leaving(Found(cluster, server)))
      case Leaving(result) => Goto(s.(locks := s.locks - {name}), c, Done(result))
      case Done(_) => s
  }

  predicate Initial(s: State) {
    s == State(map[], map[], map[], [], [])
  }

  ghost predicate IsRun(states: seq<State>, acts: seq<Action>) {
    && |states| == |acts| + 1
    && Initial(states[0])
    && forall i :: 0 <= i < |acts| ==> Enabled(states[i], acts[i]) && states[i + 1] == Do(states[i], acts[i])
  }

  predicate HoldsLock(pc: Pc) {
    pc.SlowServers? || pc.SlowClusters? || pc.Building? || pc.StoreServer? || pc.StoreCluster? || pc.Leaving?
  }

  predicate Returns(s: State, name: string, result: Result) {
    result.Found? ==>
      && name in s.servers && s.servers[name] == result.server
      && name in s.clusters && s.clusters[name] == result.cluster
  }

  /** What a call knows at its point of the code. */
  predicate Knows(s: State, call: Call) {
    var name := call.cluster.name;
    match call.pc
    case FastServers => true
    case FastClusters(server) => name in s.servers && s.servers[name] == server
    case AwaitLock => true
    case SlowServers => name in s.servers <==> name in s.clusters
    case SlowClusters(server) => name in s.servers && s.servers[name] == server && name in s.clusters
    case Building => name !in s.servers && name !in s.clusters && name !in s.built
    case StoreServer(server) =>
      name !in s.servers && name !in s.clusters && server < |s.built| && s.built[server] == name
    case StoreCluster(server) => name in s.servers && s.servers[name] == server && name !in s.clusters
    case Leaving(result) => (name in s.servers <==> name in s.clusters) && Returns(s, name, result)
    case Done(result) => Returns(s, name, result)
  }

  ghost predicate LocksFit(s: State) {
    && (forall c :: 0 <= c < |s.calls| && HoldsLock(s.calls[c].pc) ==>
          s.calls[c].cluster.name in s.locks && s.locks[s.calls[c].cluster.name] == c)
    && (forall n :: n in s.locks ==>
          s.locks[n] < |s.calls| && s.calls[s.locks[n]].cluster.name == n && HoldsLock(s.calls[s.locks[n]].pc))
  }

  /** A built server is published or is in the hands of the call that holds the lock. */
  predicate Accounted(s: State, name: string) {
    name in s.servers ||
    (name in s.locks && s.locks[name] < |s.calls| && s.calls[s.locks[name]].pc.StoreServer?)
  }

  ghost predicate AllKnow(s: State) {
    forall c :: 0 <= c < |s.calls| ==> Knows(s, s.calls[c])
  }

  ghost predicate MapsAgree(s: State) {
    forall n :: n !in s.locks ==> (n in s.servers <==> n in s.clusters)
  }

  ghost predicate BuiltFits(s: State) {
    && (forall n :: n in s.servers ==> s.servers[n] < |s.built| && s.built[s.servers[n]] == n)
    && (forall i :: 0 <= i < |s.built| ==> Accounted(s, s.built[i]))
    && (forall i, j :: 0 <= i < j < |s.built| ==> s.built[i] != s.built[j])
  }

  ghost predicate Inv(s: State) {
    LocksFit(s) && AllKnow(s) && MapsAgree(s) && BuiltFits(s)
  }

  /** How one access moves the lock: taken at AwaitLock, given back at Leaving. */
  lemma LockMoves(s: State, act: Action)
    requires Enabled(s, act) && act.Advance?
    ensures var t, c := Do(s, act), act.call;
            var name, pc := s.calls[c].cluster.name, s.calls[c].pc;
            && t.calls == s.calls[c := s.calls[c].(pc := t.calls[c].pc)]
            && (if pc.AwaitLock? then t.locks == s.locks[name := c] && HoldsLock(t.calls[c].pc)
                else if pc.Leaving? then t.locks == s.locks - {name} && !HoldsLock(t.calls[c].pc)
                else t.locks == s.locks && HoldsLock(t.calls[c].pc) == HoldsLock(pc))
  {
  }

  lemma LocksKept(s: State, act: Action)
    requires LocksFit(s) && Enabled(s, act)
    ensures LocksFit(Do(s, act))
  {
    if act.Advance? {
      LockMoves(s, act);
    }
  }

  lemma KnowsKeptByOthers(s: State, act: Action, d: nat)
    requires Inv(s) && Enabled(s, act) && act.Advance? && d < |s.calls| && d != act.call
    ensures Knows(Do(s, act), s.calls[d])
  {
    assert Knows(s, s.calls[d]);
    assert Knows(s, s.calls[act.call]);
    if HoldsLock(s.calls[act.call].pc) && HoldsLock(s.calls[d].pc) {
      assert s.calls[act.call].cluster.name != s.calls[d].cluster.name;
    }
  }

  lemma KnowsKept(s: State, act: Action)
    requires Inv(s) && Enabled(s, act) && act.Advance?
    ensures var t := Do(s, act); act.call < |t.calls| && Knows(t, t.calls[act.call])
  {
    assert Knows(s, s.calls[act.call]);
    if s.calls[act.call].pc.SlowServers? && s.calls[act.call].cluster.name in s.built {
      assert Accounted(s, s.calls[act.call].cluster.name);
    }
  }

  lemma AllKnowKept(s: State, act: Action)
    requires Inv(s) && Enabled(s, act)
    ensures AllKnow(Do(s, act))
  {
    var t := Do(s, act);
    if act.Advance? {
      KnowsKept(s, act);
      LockMoves(s, act);
      forall c | 0 <= c < |t.calls| && c != act.call ensures Knows(t, t.calls[c]) {
        KnowsKeptByOthers(s, act, c);
      }
    }
  }

  lemma MapsAgreeKept(s: State, act: Action)
    requires Inv(s) && Enabled(s, act)
    ensures MapsAgree(Do(s, act))
  {
    if act.Advance? {
      assert Knows(s, s.calls[act.call]);
    }
  }

  /** The names built for only grow, by a name that was not there. */
  lemma BuiltGrows(s: State, act: Action)
    requires Inv(s) && Enabled(s, act) && act.Advance?
    ensures var t, name := Do(s, act), s.calls[act.call].cluster.name;
            || t.built == s.built
            || (t.built == s.built + [name] && name !in s.built && t.servers == s.servers)
  {
    assert Knows(s, s.calls[act.call]);
  }

  ghost predicate Extends<V>(m: map<string, V>, m': map<string, V>) {
    m.Keys <= m'.Keys && forall n :: n in m ==> m[n] == m'[n]
  }

  lemma StepExtends(s: State, act: Action)
    requires Enabled(s, act)
    ensures Extends(s.servers, Do(s, act).servers) && Extends(s.clusters, Do(s, act).clusters)
  {
  }

  lemma OthersStayAccounted(s: State, act: Action, name: string)
    requires LocksFit(s) && Enabled(s, act) && act.Advance? && Accounted(s, name)
    requires name != s.calls[act.call].cluster.name
    ensures Accounted(Do(s, act), name)
  {
    StepExtends(s, act);
    LockMoves(s, act);
  }

  lemma OwnIsAccounted(s: State, act: Action)
    requires Inv(s) && Enabled(s, act) && act.Advance? && s.calls[act.call].cluster.name in Do(s, act).built
    ensures Accounted(Do(s, act), s.calls[act.call].cluster.name)
  {
    var name := s.calls[act.call].cluster.name;
    assert Knows(s, s.calls[act.call]);
    if name in s.built {
      assert Accounted(s, name);
      StepExtends(s, act);
    }
  }

  lemma AccountedStays(s: State, act: Action, name: string)
    requires Inv(s) && Enabled(s, act) && act.Advance? && name in Do(s, act).built
    ensures Accounted(Do(s, act), name)
  {
    if name == s.calls[act.call].cluster.name {
      OwnIsAccounted(s, act);
    } else {
      BuiltGrows(s, act);
      assert Accounted(s, name);
      OthersStayAccounted(s, act, name);
    }
  }

  lemma ServersStayBuilt(s: State, act: Action, n: string)
    requires Inv(s) && Enabled(s, act) && act.Advance? && n in Do(s, act).servers
    ensures var t := Do(s, act); t.servers[n] < |t.built| && t.built[t.servers[n]] == n
  {
    assert Knows(s, s.calls[act.call]);
  }

  lemma BuiltKept(s: State, act: Action)
    requires Inv(s) && Enabled(s, act)
    ensures BuiltFits(Do(s, act))
  {
    var t := Do(s, act);
    if act.Advance? {
      BuiltGrows(s, act);
      forall n | n in t.servers ensures t.servers[n] < |t.built| && t.built[t.servers[n]] == n {
        ServersStayBuilt(s, act, n);
      }
      forall i | 0 <= i < |t.built| ensures Accounted(t, t.built[i]) {
        AccountedStays(s, act, t.built[i]);
      }
    }
  }

  lemma StepKeeps(s: State, act: Action)
    requires Inv(s) && Enabled(s, act)
    ensures Inv(Do(s, act))
  {
    LocksKept(s, act);
    AllKnowKept(s, act);
    MapsAgreeKept(s, act);
    BuiltKept(s, act);
  }

  lemma {:induction false} RunKeeps(states: seq<State>, acts: seq<Action>, n: nat)
    requires IsRun(states, acts) && n < |states|
    ensures Inv(states[n])
  {
    if n > 0 {
      RunKeeps(states, acts, n - 1);
      StepKeeps(states[n - 1], acts[n - 1]);
    }
  }

  lemma ExtendsTransitive<V>(a: map<string, V>, b: map<string, V>, c: map<string, V>)
    requires Extends(a, b) && Extends(b, c)
    ensures Extends(a, c)
  {
  }

  /** What is published stays as it is, for the rest of the run. */
  lemma {:induction false} EntriesNeverChange(states: seq<State>, acts: seq<Action>, i: nat, j: nat)
    requires IsRun(states, acts) && i <= j < |states|
    ensures Extends(states[i].servers, states[j].servers)
    ensures Extends(states[i].clusters, states[j].clusters)
    decreases j - i
  {
    if i < j {
      StepExtends(states[i], acts[i]);
      EntriesNeverChange(states, acts, i + 1, j);
      ExtendsTransitive(states[i].servers, states[i + 1].servers, states[j].servers);
      ExtendsTransitive(states[i].clusters, states[i + 1].clusters, states[j].clusters);
    }
  }

  /** Any two calls that return a handler for the same name, at whatever points of the
      run, return the same handler and the same cluster object. */
  lemma SameAnswerForSameName(states: seq<State>, acts: seq<Action>, i: nat, j: nat, c: nat, d: nat)
    requires IsRun(states, acts) && i <= j < |states|
    requires c < |states[i].calls| && states[i].calls[c].pc.Done? && states[i].calls[c].pc.result.Found?
    requires d < |states[j].calls| && states[j].calls[d].pc.Done? && states[j].calls[d].pc.result.Found?
    requires states[i].calls[c].cluster.name == states[j].calls[d].cluster.name
    ensures states[i].calls[c].pc.result == states[j].calls[d].pc.result
  {
    RunKeeps(states, acts, i);
    RunKeeps(states, acts, j);
    EntriesNeverChange(states, acts, i, j);
    assert Knows(states[i], states[i].calls[c]);
    assert Knows(states[j], states[j].calls[d]);
  }

  /** With the lock of a name free, both maps have it or neither does. */
  lemma FreeLockMeansBothOrNeither(states: seq<State>, acts: seq<Action>, i: nat, name: string)
    requires IsRun(states, acts) && i < |states| && name !in states[i].locks
    ensures name in states[i].servers <==> name in states[i].clusters
  {
    RunKeeps(states, acts, i);
  }

  /** No name ever has a second server built, let alone published. */
  lemma BuiltOncePerName(states: seq<State>, acts: seq<Action>, n: nat, i: nat, j: nat)
    requires IsRun(states, acts) && n < |states| && i < j < |states[n].built|
    ensures states[n].built[i] != states[n].built[j]
  {
    RunKeeps(states, acts, n);
  }

  /** The step that decides what a call returns: it finds its name in the second map as well as
      in the first, or it learns how building went. */
  predicate Tells(s: State, act: Action, c: nat) {
    && act.Advance? && act.call == c && c < |s.calls|
    && (|| s.calls[c].pc.Building?
        || ((s.calls[c].pc.FastClusters? || s.calls[c].pc.SlowClusters?) && s.calls[c].cluster.name in s.clusters))
  }

  /** What it decides: nothing when building failed, the call's own cluster with the new server
      when it succeeded, and otherwise what is published. */
  function Told(s: State, act: Action, c: nat): Result
    requires Tells(s, act, c)
  {
    var call := s.calls[c];
    if call.pc.Building? then (if act.buildOk then Found(call.cluster, |s.built|) else Nothing)
    else if call.cluster.name in s.servers then Found(s.clusters[call.cluster.name], s.servers[call.cluster.name])
    else Nothing
  }

  /** The call is before or at the step that decides. */
  predicate Undecided(pc: Pc) {
    pc.FastServers? || pc.FastClusters? || pc.AwaitLock? || pc.SlowServers? || pc.SlowClusters? || pc.Building?
  }

  /** What a call that is past it is going to return. */
  function Decided(call: Call): Result
    requires !Undecided(call.pc)
  {
    match call.pc
    case StoreServer(server) => Found(call.cluster, server)
    case StoreCluster(server) => Found(call.cluster, server)
    case Leaving(result) => result
    case Done(result) => result
  }

  /** How a step goes with what the call returns in the end. */
  predicate Follows(s: State, act: Action, c: nat, call: Call, after: Call) {
    && (Tells(s, act, c) ==> Undecided(call.pc) && !Undecided(after.pc) && Decided(after) == Told(s, act, c))
    && (!Tells(s, act, c) ==> Undecided(after.pc) == Undecided(call.pc))
    && (!Undecided(call.pc) ==> !Undecided(after.pc) && Decided(after) == Decided(call))
  }

  lemma OwnStepDecides(s: State, act: Action, c: nat)
    requires Inv(s) && Enabled(s, act) && act.Advance? && act.call == c
    ensures Follows(s, act, c, s.calls[c], Do(s, act).calls[c])
  {
    assert Knows(s, s.calls[c]);
  }

  lemma StepDecides(s: State, act: Action, c: nat)
    requires Inv(s) && Enabled(s, act) && c < |s.calls|
    ensures c < |Do(s, act).calls| && Follows(s, act, c, s.calls[c], Do(s, act).calls[c])
  {
    if act.Advance? && act.call == c {
      OwnStepDecides(s, act, c);
    }
  }

  lemma {:induction false} CallsGrow(states: seq<State>, acts: seq<Action>, i: nat, j: nat)
    requires IsRun(states, acts) && i <= j < |states|
    ensures |states[i].calls| <= |states[j].calls|
    decreases j
  {
    if i < j {
      CallsGrow(states, acts, i, j - 1);
      assert Enabled(states[j - 1], acts[j - 1]) && states[j] == Do(states[j - 1], acts[j - 1]);
    }
  }

  lemma NewCallUndecided(states: seq<State>, acts: seq<Action>, n: nat, c: nat)
    requires IsRun(states, acts) && 0 < n < |states| && |states[n - 1].calls| <= c < |states[n].calls|
    ensures Undecided(states[n].calls[c].pc)
    ensures forall j :: 0 <= j < n ==> !Tells(states[j], acts[j], c)
  {
    assert Enabled(states[n - 1], acts[n - 1]) && states[n] == Do(states[n - 1], acts[n - 1]);
    forall j | 0 <= j < n ensures !Tells(states[j], acts[j], c) { CallsGrow(states, acts, j, n - 1); }
  }

  lemma RunStepDecides(states: seq<State>, acts: seq<Action>, n: nat, c: nat)
    requires IsRun(states, acts) && n < |acts| && c < |states[n].calls|
    ensures c < |states[n + 1].calls| && Follows(states[n], acts[n], c, states[n].calls[c], states[n + 1].calls[c])
  {
    RunKeeps(states, acts, n);
    StepDecides(states[n], acts[n], c);
  }

  /** Of the first `n` steps only the `i`-th may decide, and it does unless the call is undecided. */
  ghost predicate DecidedBy(states: seq<State>, acts: seq<Action>, n: nat, c: nat, i: int)
    requires |states| == |acts| + 1 && n < |states| && c < |states[n].calls|
  {
    && (forall j :: 0 <= j < n && j != i ==> !Tells(states[j], acts[j], c))
    && if Undecided(states[n].calls[c].pc) then i == -1
       else 0 <= i < n && Tells(states[i], acts[i], c) && Told(states[i], acts[i], c) == Decided(states[n].calls[c])
  }

  lemma DecidedByGrows(states: seq<State>, acts: seq<Action>, n: nat, c: nat, i: int)
    requires |states| == |acts| + 1 && n < |acts| && c < |states[n].calls| && DecidedBy(states, acts, n, c, i)
    requires c < |states[n + 1].calls| && Follows(states[n], acts[n], c, states[n].calls[c], states[n + 1].calls[c])
    ensures DecidedBy(states, acts, n + 1, c, if Tells(states[n], acts[n], c) then n else i)
  {
  }

  lemma {:induction false} DecidedOnce(states: seq<State>, acts: seq<Action>, n: nat, c: nat) returns (i: int)
    requires IsRun(states, acts) && n < |states| && c < |states[n].calls|
    ensures DecidedBy(states, acts, n, c, i)
  {
    i := -1;
    if n > 0 {
      if c < |states[n - 1].calls| {
        i := DecidedOnce(states, acts, n - 1, c);
        RunStepDecides(states, acts, n - 1, c);
        DecidedByGrows(states, acts, n - 1, c, i);
        i := if Tells(states[n - 1], acts[n - 1], c) then n - 1 else i;
      } else {
        NewCallUndecided(states, acts, n, c);
      }
    }
  }

  /** What every call returns, in every run: it has exactly one step that decides, and returns
      what that step calls for. */
  lemma AnswersExactly(states: seq<State>, acts: seq<Action>, n: nat, c: nat) returns (i: nat)
    requires IsRun(states, acts) && n < |states| && c < |states[n].calls| && states[n].calls[c].pc.Done?
    ensures i < n && Tells(states[i], acts[i], c)
    ensures states[n].calls[c].pc.result == Told(states[i], acts[i], c)
    ensures forall j :: 0 <= j < n && j != i ==> !Tells(states[j], acts[j], c)
    ensures !states[i].calls[c].pc.Building? ==> states[i].calls[c].cluster.name in states[i].servers
  {
    i := DecidedOnce(states, acts, n, c);
    RunKeeps(states, acts, i);
    assert Knows(states[i], states[i].calls[c]);
  }

  /** The call's own build at step `i` was answered so. */
  predicate Built(states: seq<State>, acts: seq<Action>, i: int, c: nat, ok: bool)
    requires |states| == |acts| + 1
  {
    0 <= i < |acts| && c < |states[i].calls| && states[i].calls[c].pc.Building? && acts[i] == Advance(c, ok)
  }

  /** A call returns nothing if and only if its own build failed; and if its build succeeded it
      returns its own cluster and the server it built. */
  lemma NothingExactlyWhen(states: seq<State>, acts: seq<Action>, n: nat, c: nat)
    requires IsRun(states, acts) && n < |states| && c < |states[n].calls| && states[n].calls[c].pc.Done?
    ensures states[n].calls[c].pc.result.Nothing? <==> exists i :: i < n && Built(states, acts, i, c, false)
    ensures forall i :: i < n && Built(states, acts, i, c, true) ==>
              states[n].calls[c].pc.result == Found(states[i].calls[c].cluster, |states[i].built|)
  {
    var k := AnswersExactly(states, acts, n, c);
    forall i, ok | i < n && Built(states, acts, i, c, ok) ensures i == k { assert Tells(states[i], acts[i], c); }
    if states[n].calls[c].pc.result.Nothing? {
      assert Built(states, acts, k, c, false);
    }
  }

  /** How far a call is from its return. */
  function Distance(pc: Pc): nat {
    match pc
    case FastServers => 9
    case FastClusters(_) => 8
    case AwaitLock => 7
    case SlowServers => 6
    case SlowClusters(_) => 5
    case Building => 4
    case StoreServer(_) => 3
    case StoreCluster(_) => 2
    case Leaving(_) => 1
    case Done(_) => 0
  }

  /** Every step of a call brings its return nearer, and only a lock in other hands holds it up. */
  lemma EveryStepNears(s: State, c: nat, buildOk: bool)
    requires c < |s.calls|
    ensures Enabled(s, Advance(c, buildOk)) <==>
              !s.calls[c].pc.Done? && !(s.calls[c].pc.AwaitLock? && s.calls[c].cluster.name in s.locks)
    ensures Enabled(s, Advance(c, buildOk)) ==>
              Distance(Do(s, Advance(c, buildOk)).calls[c].pc) < Distance(s.calls[c].pc)
  {
  }

  lemma RunGoesOn(states: seq<State>, acts: seq<Action>, act: Action)
    requires IsRun(states, acts) && Enabled(states[|acts|], act)
    ensures IsRun(states + [Do(states[|acts|], act)], acts + [act])
  {
  }

  /** A call whose lock is free or its own can return by steps of its own, and then the lock is free. */
  lemma {:induction false} CallCanReturn(states: seq<State>, acts: seq<Action>, c: nat, buildOk: bool)
    returns (states': seq<State>, acts': seq<Action>)
    requires IsRun(states, acts) && c < |states[|acts|].calls|
    requires var s := states[|acts|];
             s.calls[c].cluster.name in s.locks ==> s.locks[s.calls[c].cluster.name] == c
    ensures IsRun(states', acts') && states <= states' && acts <= acts'
    ensures var s, t := states[|acts|], states'[|acts'|];
            && |t.calls| == |s.calls| && (forall d :: 0 <= d < |s.calls| ==> t.calls[d].cluster == s.calls[d].cluster)
            && t.calls[c].pc.Done? && s.calls[c].cluster.name !in t.locks
    decreases Distance(states[|acts|].calls[c].pc)
  {
    var s := states[|acts|];
    RunKeeps(states, acts, |acts|);
    if s.calls[c].pc.Done? {
      states', acts' := states, acts;
    } else {
      var act := Advance(c, buildOk);
      EveryStepNears(s, c, buildOk);
      LockMoves(s, act);
      RunGoesOn(states, acts, act);
      states', acts' := CallCanReturn(states + [Do(s, act)], acts + [act], c, buildOk);
    }
  }

  /** No deadlock: from every reachable state every call can return, after the call that holds its lock if there is one. */
  lemma EveryCallCanReturn(states: seq<State>, acts: seq<Action>, c: nat, buildOk: bool)
    returns (states': seq<State>, acts': seq<Action>)
    requires IsRun(states, acts) && c < |states[|acts|].calls|
    ensures IsRun(states', acts') && states <= states' && acts <= acts'
    ensures c < |states'[|acts'|].calls| && states'[|acts'|].calls[c].pc.Done?
  {
    var s := states[|acts|];
    var name := s.calls[c].cluster.name;
    states', acts' := states, acts;
    RunKeeps(states, acts, |acts|);
    if name in s.locks {
      states', acts' := CallCanReturn(states, acts, s.locks[name], buildOk);
    }
    states', acts' := CallCanReturn(states', acts', c, buildOk);
  }

  /** And a call for any cluster can begin at any time, and return. */
  lemma NewCallCanReturn(states: seq<State>, acts: seq<Action>, cluster: Cluster, buildOk: bool)
    returns (states': seq<State>, acts': seq<Action>)
    requires IsRun(states, acts)
    ensures IsRun(states', acts') && states <= states' && |acts| < |acts'| && acts'[|acts|] == Begin(cluster)
    ensures var c, t := |states[|acts|].calls|, states'[|acts'|]; c < |t.calls| && t.calls[c].pc.Done?
  {
    RunGoesOn(states, acts, Begin(cluster));
    states', acts' := EveryCallCanReturn(states + [Do(states[|acts|], Begin(cluster))], acts + [Begin(cluster)],
                                         |states[|acts|].calls|, buildOk);
  }

  /** The fast path: a call for a name that is published in both maps returns what is published in
      two steps of its own, whoever holds the lock, and touches no lock and no map. */
  lemma PublishedNeedsNoLock(s: State, c: nat, buildOk: bool)
    requires c < |s.calls| && s.calls[c].pc.FastServers?
    requires s.calls[c].cluster.name in s.servers && s.calls[c].cluster.name in s.clusters
    ensures var act, name := Advance(c, buildOk), s.calls[c].cluster.name;
            && Enabled(s, act) && Enabled(Do(s, act), act)
            && Do(Do(s, act), act) == s.(calls := s.calls[c := Call(s.calls[c].cluster,
                                                                    Done(Found(s.clusters[name], s.servers[name])))])
  {
  }
}
