/** How the protocol of the worker upgrade relates to its two halves: every call in it is an agent
    loop, every handler left alone is the handler, every exchange that nobody disturbs is possible
    at any time, and so an upgrade can always be completed. */
module UpgradeRefinement {
  import opened Options
  import opened NodeServer
  import opened NodeAgent
  import opened UpgradeProtocol
  import opened UpgradeConvergence

  /** What a call has heard, in order. */
  function Heard(acts: seq<Action>, c: nat): seq<Turn> {
    if acts == [] then []
    else
      var last := acts[|acts| - 1];
      Heard(acts[..|acts| - 1], c) +
      if (last.CallHears? || last.CallHearsNoise?) && last.call == c then [last.turn] else []
  }

  /** Step `b` is where call `c` begins. */
  predicate BeginsAt(states: seq<State>, acts: seq<Action>, c: nat, b: nat)
    requires |states| == |acts| + 1
  {
    b < |acts| && acts[b].CallBegins? && |states[b].calls| == c
  }

  lemma HeardOneMore(acts: seq<Action>, n: nat, c: nat)
    requires n < |acts|
    ensures Heard(acts[..n + 1], c)
         == Heard(acts[..n], c) +
            if (acts[n].CallHears? || acts[n].CallHearsNoise?) && acts[n].call == c then [acts[n].turn] else []
  {
    assert acts[..n + 1][..n] == acts[..n];
  }

  lemma {:induction false} CallsGrow(states: seq<State>, acts: seq<Action>, i: nat, j: nat)
    requires IsRun(states, acts) && i <= j < |states|
    ensures |states[i].calls| <= |states[j].calls|
    decreases j
  {
    if i < j {
      CallsGrow(states, acts, i, j - 1);
      assert Enabled(states[j - 1], acts[j - 1]) && states[j] == Do(states[j - 1], acts[j - 1]);
    }
  }

  /** A call that has not begun has heard nothing. */
  lemma {:induction false} NothingHeardYet(states: seq<State>, acts: seq<Action>, n: nat, c: nat)
    requires IsRun(states, acts) && n < |states| && |states[n].calls| <= c
    ensures Heard(acts[..n], c) == []
  {
    if n > 0 {
      CallsGrow(states, acts, n - 1, n);
      NothingHeardYet(states, acts, n - 1, c);
      HeardOneMore(acts, n - 1, c);
      assert Enabled(states[n - 1], acts[n - 1]);
    }
  }

  /** What one step does to a call. */
  lemma StepOfCall(s: State, act: Action, c: nat)
    requires Enabled(s, act) && c < |s.calls|
    ensures var t := Do(s, act);
            && c < |t.calls| && t.calls[c].certOnly == s.calls[c].certOnly
            && t.calls[c].agent == if (act.CallHears? || act.CallHearsNoise?) && act.call == c
                                   then Step(s.calls[c].agent, s.calls[c].certOnly, act.turn) else s.calls[c].agent
  {
  }

  lemma RunOneMore(a: Agent, certOnly: bool, turns: seq<Turn>, turn: Turn)
    ensures Run(a, certOnly, turns + [turn]) == Step(Run(a, certOnly, turns), certOnly, turn)
  {
    assert (turns + [turn])[..|turns|] == turns;
  }

  /** Call `c` is the loop begun in step `b`, on what it has heard. */
  ghost predicate IsLoop(states: seq<State>, acts: seq<Action>, n: nat, c: nat, b: nat)
    requires |states| == |acts| + 1 && n < |states| && c < |states[n].calls|
  {
    && b < n && BeginsAt(states, acts, c, b)
    && states[n].calls[c].certOnly == acts[b].certOnly
    && states[n].calls[c].agent == Run(Start(acts[b].regenerate), acts[b].certOnly, Heard(acts[..n], c))
  }

  lemma LoopGoesOn(states: seq<State>, acts: seq<Action>, n: nat, c: nat, b: nat)
    requires |states| == |acts| + 1 && n < |acts| && c < |states[n].calls| && IsLoop(states, acts, n, c, b)
    requires Enabled(states[n], acts[n]) && states[n + 1] == Do(states[n], acts[n])
    ensures c < |states[n + 1].calls| && IsLoop(states, acts, n + 1, c, b)
  {
    var act, heard := acts[n], Heard(acts[..n], c);
    StepOfCall(states[n], act, c);
    HeardOneMore(acts, n, c);
    if (act.CallHears? || act.CallHearsNoise?) && act.call == c {
      RunOneMore(Start(acts[b].regenerate), acts[b].certOnly, heard, act.turn);
    } else {
      assert heard + [] == heard;
    }
  }

  lemma LoopGoesOnInRun(states: seq<State>, acts: seq<Action>, n: nat, c: nat, b: nat)
    requires IsRun(states, acts) && n < |acts| && c < |states[n].calls| && IsLoop(states, acts, n, c, b)
    ensures c < |states[n + 1].calls| && IsLoop(states, acts, n + 1, c, b)
  {
    LoopGoesOn(states, acts, n, c, b);
  }

  lemma LoopBegins(states: seq<State>, acts: seq<Action>, n: nat, c: nat)
    requires IsRun(states, acts) && n < |acts| && |states[n].calls| <= c < |states[n + 1].calls|
    ensures IsLoop(states, acts, n + 1, c, n)
  {
    assert Enabled(states[n], acts[n]) && states[n + 1] == Do(states[n], acts[n]);
    NothingHeardYet(states, acts, n, c);
    HeardOneMore(acts, n, c);
  }

  /** Every call of every run is the agent's loop on what it has heard, so all laws of the loop
      hold of it, whatever else goes on. */
  lemma {:induction false} CallIsAgent(states: seq<State>, acts: seq<Action>, n: nat, c: nat) returns (b: nat)
    requires IsRun(states, acts) && n < |states| && c < |states[n].calls|
    ensures IsLoop(states, acts, n, c, b)
  {
    assert Initial(states[0]);
    if c < |states[n - 1].calls| {
      b := CallIsAgent(states, acts, n - 1, c);
      LoopGoesOnInRun(states, acts, n - 1, c, b);
    } else {
      LoopBegins(states, acts, n - 1, c);
      b := n - 1;
    }
  }

  /** Every handler's write is made from the node that is current, and changes of it only the
      applied version, to the one reported, or the interval of the plan. A version is written
      for a registered worker of a cluster that is ready, and once per handler. */
  lemma HandlerWritesCurrent(states: seq<State>, acts: seq<Action>, n: nat)
    requires IsRun(states, acts) && n < |acts| && (acts[n].HandlerRecords? || acts[n].HandlerReplies?)
    ensures states[n].nodes != [] && acts[n].handler < |states[n].handlers|
    ensures var s, t := states[n], states[n + 1];
            var current := s.nodes[|s.nodes| - 1];
            var q := s.handlers[acts[n].handler].request;
            || t.nodes == s.nodes
            || (acts[n].HandlerRecords? && q < |s.requests|
                && t.nodes == s.nodes + [current.(appliedVersion := s.requests[q].version)]
                && current.registered && !current.nonWorker && s.requests[q].version != 0
                && s.handlers[acts[n].handler].clusterAt < |s.clusters|
                && s.clusters[s.handlers[acts[n].handler].clusterAt].driver == RKE
                && s.clusters[s.handlers[acts[n].handler].clusterAt].specApplied
                && !s.handlers[acts[n].handler].recorded && t.handlers[acts[n].handler].recorded)
            || (acts[n].HandlerReplies? && current.plan.Some?
                && t.nodes == s.nodes + [current.(plan := Some(current.plan.value.(checkInterval := 35)))])
  {
    UpgradeProtocol.RunKeeps(states, acts, n);
    assert Enabled(states[n], acts[n]) && states[n + 1] == Do(states[n], acts[n]);
  }

  /** A call that waits has sent its request, with the version it has now. */
  predicate WaitFits(s: State, c: nat)
    requires c < |s.calls|
  {
    s.calls[c].waiting.Some? ==>
      && s.calls[c].agent.status.Looping?
      && s.calls[c].waiting.value < |s.requests|
      && s.requests[s.calls[c].waiting.value].version == s.calls[c].agent.version
  }

  ghost predicate WaitsFit(s: State) {
    && (forall c :: 0 <= c < |s.calls| ==> WaitFits(s, c))
    && (forall c, d :: 0 <= c < d < |s.calls| && s.calls[c].waiting.Some? ==> s.calls[c].waiting != s.calls[d].waiting)
  }

  lemma WaitsKept(s: State, act: Action)
    requires WaitsFit(s) && Enabled(s, act)
    ensures WaitsFit(Do(s, act))
  {
    var t := Do(s, act);
    forall c | 0 <= c < |t.calls| ensures WaitFits(t, c) {
      assert c < |s.calls| ==> WaitFits(s, c);
    }
    forall c, d | 0 <= c < d < |t.calls| && t.calls[c].waiting.Some? ensures t.calls[c].waiting != t.calls[d].waiting {
      assert WaitFits(s, c);
      assert d < |s.calls| ==> WaitFits(s, d);
    }
  }

  lemma {:induction false} RunWaits(states: seq<State>, acts: seq<Action>, n: nat)
    requires IsRun(states, acts) && n < |states|
    ensures WaitsFit(states[n])
  {
    if n > 0 {
      RunWaits(states, acts, n - 1);
      WaitsKept(states[n - 1], acts[n - 1]);
    }
  }

  /** No call hears a reply that is not for it: in every run a reply that is heard answers the
      request that this call, and no other, is waiting for, and that carried the version
      this call still has to report. */
  lemma HearsOwnReply(states: seq<State>, acts: seq<Action>, n: nat)
    requires IsRun(states, acts) && n < |acts| && acts[n].CallHears?
    ensures var s, c := states[n], acts[n].call;
            && c < |s.calls| && acts[n].reply < |s.replies|
            && var q := s.replies[acts[n].reply].request;
               && s.calls[c].waiting == Some(q) && q < |s.requests|
               && s.requests[q].version == s.calls[c].agent.version && s.calls[c].agent.status.Looping?
               && forall d :: 0 <= d < |s.calls| && d != c ==> s.calls[d].waiting != Some(q)
  {
    RunWaits(states, acts, n);
    assert Enabled(states[n], acts[n]);
    assert WaitFits(states[n], acts[n].call);
  }

  lemma RunGoesOn(states: seq<State>, acts: seq<Action>, act: Action)
    requires IsRun(states, acts) && Enabled(states[|acts|], act)
    ensures IsRun(states + [Do(states[|acts|], act)], acts + [act])
  {
  }

  lemma {:induction false} SomethingStored(states: seq<State>, acts: seq<Action>, n: nat)
    requires IsRun(states, acts) && n < |states|
    ensures states[n].nodes != [] && states[n].clusters != []
  {
    if n > 0 {
      SomethingStored(states, acts, n - 1);
      StepGrows(states[n - 1], acts[n - 1]);
    }
  }

  function CurrentNode(s: State): Node
    requires s.nodes != []
  {
    s.nodes[|s.nodes| - 1]
  }

  function CurrentCluster(s: State): Cluster
    requires s.clusters != []
  {
    s.clusters[|s.clusters| - 1]
  }

  /** The steps of a handler that reads what is current. */
  function Reads(s: State, q: nat): Action
    requires s.nodes != [] && s.clusters != []
  {
    HandlerReads(q, |s.nodes| - 1, |s.clusters| - 1)
  }

  /** The state once such a handler is done with request `q`: only the node, the handlers, the
      replies and the notes are touched. */
  ghost predicate Answered(s: State, q: nat, node: Node, response: Response, t: State)
    requires s.nodes != [] && s.clusters != []
  {
    && t.calls == s.calls && t.requests == s.requests && t.clusters == s.clusters
    && t.replies == s.replies + [Reply(q, response, |s.nodes| - 1, |s.clusters| - 1)]
    && t.nodes != [] && CurrentNode(t) == node
  }

  /** A handler that answers early has two steps. */
  lemma AnswersEarly(s: State, q: nat, intervalOk: bool, buildOk: bool)
    requires s.nodes != [] && s.clusters != [] && q < |s.requests|
    requires EarlyExit(CurrentCluster(s), Some(CurrentNode(s))).Some?
    ensures Enabled(s, Reads(s, q))
    ensures var read, replies := Do(s, Reads(s, q)), HandlerReplies(|s.handlers|, !intervalOk, buildOk);
            && Enabled(read, replies)
            && Answered(s, q, CurrentNode(s), EarlyExit(CurrentCluster(s), Some(CurrentNode(s))).value, Do(read, replies))
  {
  }

  /** Any other has three. */
  lemma AnswersInFull(s: State, q: nat, versionOk: bool, intervalOk: bool, buildOk: bool)
    requires s.nodes != [] && s.clusters != [] && q < |s.requests|
    requires EarlyExit(CurrentCluster(s), Some(CurrentNode(s))).None?
    ensures Enabled(s, Reads(s, q))
    ensures var read, records := Do(s, Reads(s, q)), HandlerRecords(|s.handlers|, !versionOk);
            && Enabled(read, records)
            && var recorded, replies := Do(read, records), HandlerReplies(|s.handlers|, !intervalOk, buildOk);
               && Enabled(recorded, replies)
               && var (node, response) := Served(CurrentNode(s), CurrentCluster(s), s.requests[q].version,
                                                 versionOk, intervalOk, buildOk);
                  Answered(s, q, node, response, Do(recorded, replies))
  {
  }

  /** From every reachable state any request can be handled alone, and then the stored node and
      the reply are those of the handler. */
  lemma HandlerAloneServes(states: seq<State>, acts: seq<Action>, q: nat, versionOk: bool, intervalOk: bool, buildOk: bool)
    returns (states': seq<State>, acts': seq<Action>)
    requires IsRun(states, acts) && q < |states[|acts|].requests|
    ensures IsRun(states', acts') && states <= states'
    ensures states[|acts|].nodes != [] && states[|acts|].clusters != []
    ensures var s := states[|acts|];
            var (node, response) := Served(CurrentNode(s), CurrentCluster(s), s.requests[q].version,
                                           versionOk, intervalOk, buildOk);
            Answered(s, q, node, response, states'[|acts'|])
  {
    SomethingStored(states, acts, |acts|);
    var s, h := states[|acts|], |states[|acts|].handlers|;
    states', acts' := states, acts;
    if EarlyExit(CurrentCluster(s), Some(CurrentNode(s))).Some? {
      AnswersEarly(s, q, intervalOk, buildOk);
      RunGoesOn(states', acts', Reads(s, q));
      states', acts' := states' + [Do(s, Reads(s, q))], acts' + [Reads(s, q)];
    } else {
      AnswersInFull(s, q, versionOk, intervalOk, buildOk);
      RunGoesOn(states', acts', Reads(s, q));
      states', acts' := states' + [Do(s, Reads(s, q))], acts' + [Reads(s, q)];
      var records := HandlerRecords(h, !versionOk);
      RunGoesOn(states', acts', records);
      states', acts' := states' + [Do(states'[|acts'|], records)], acts' + [records];
    }
    var replies := HandlerReplies(h, !intervalOk, buildOk);
    RunGoesOn(states', acts', replies);
    states', acts' := states' + [Do(states'[|acts'|], replies)], acts' + [replies];
  }

  /** The step in which call `c` hears of its request, reply number `r` if it reached the handler. */
  function HearsIn(w: Weather, c: nat, r: nat, turn: Turn): Action {
    if w.reaches && w.reply.Arrives? then CallHears(c, r, turn)
    else CallHearsNoise(c, if w.reply.Busy? then Response.Status(503, false) else Response.Lost, turn)
  }

  lemma AsksAlone(s: State, c: nat)
    requires c < |s.calls| && s.calls[c].waiting.None? && s.calls[c].agent.status.Looping?
    ensures Enabled(s, CallAsks(c))
    ensures var t := Do(s, CallAsks(c));
            && t.nodes == s.nodes && t.clusters == s.clusters && t.replies == s.replies
            && t.requests == s.requests + [Request(s.calls[c].agent.version)]
            && t.calls == s.calls[c := s.calls[c].(waiting := Some(|s.requests|))]
  {
  }

  lemma HearsAlone(s: State, c: nat, q: nat, response: Response, w: Weather)
    requires c < |s.calls| && s.calls[c].waiting == Some(q)
    requires if w.reaches then s.replies != [] && s.replies[|s.replies| - 1].request == q
                               && s.replies[|s.replies| - 1].response == response
             else response.Lost?
    ensures var act := HearsIn(w, c, if s.replies == [] then 0 else |s.replies| - 1, TurnFor(w, response));
            && Enabled(s, act)
            && var t := Do(s, act);
               && t.nodes == s.nodes && t.clusters == s.clusters && |t.calls| == |s.calls|
               && t.calls[c] == Call(s.calls[c].certOnly,
                                     Step(s.calls[c].agent, s.calls[c].certOnly, TurnFor(w, response)), None)
  {
  }

  /** Call `c` and the node stand as the pair, the call is not waiting, and the cluster is this one. */
  ghost predicate Stands(s: State, c: nat, certOnly: bool, p: Pair, cluster: Cluster) {
    && c < |s.calls| && s.calls[c] == Call(certOnly, p.agent, None)
    && s.nodes != [] && CurrentNode(s) == p.node
    && s.clusters != [] && CurrentCluster(s) == cluster
  }

  /** Call `c` has asked with its version and waits; the request is `q`. */
  ghost predicate HasAsked(s: State, c: nat, certOnly: bool, agent: Agent, q: nat) {
    && c < |s.calls| && s.calls[c] == Call(certOnly, agent, Some(q))
    && q < |s.requests| && s.requests[q].version == agent.version
  }

  lemma AskingIsPossible(states: seq<State>, acts: seq<Action>, c: nat, certOnly: bool, p: Pair, cluster: Cluster)
    returns (states': seq<State>, acts': seq<Action>, q: nat)
    requires IsRun(states, acts) && Stands(states[|acts|], c, certOnly, p, cluster) && p.agent.status.Looping?
    ensures IsRun(states', acts') && states <= states'
    ensures var t := states'[|acts'|];
            && HasAsked(t, c, certOnly, p.agent, q)
            && t.nodes != [] && CurrentNode(t) == p.node && t.clusters != [] && CurrentCluster(t) == cluster
  {
    var s := states[|acts|];
    q := |s.requests|;
    AsksAlone(s, c);
    RunGoesOn(states, acts, CallAsks(c));
    states', acts' := states + [Do(s, CallAsks(c))], acts + [CallAsks(c)];
  }

  lemma HearingIsPossible(states: seq<State>, acts: seq<Action>, c: nat, certOnly: bool, agent: Agent, q: nat,
                          node: Node, cluster: Cluster, response: Response, w: Weather)
    returns (states': seq<State>, acts': seq<Action>)
    requires IsRun(states, acts)
    requires var s := states[|acts|];
             && HasAsked(s, c, certOnly, agent, q)
             && s.nodes != [] && CurrentNode(s) == node && s.clusters != [] && CurrentCluster(s) == cluster
             && if w.reaches then s.replies != [] && s.replies[|s.replies| - 1].request == q
                                  && s.replies[|s.replies| - 1].response == response
                else response.Lost?
    ensures IsRun(states', acts') && states <= states'
    ensures Stands(states'[|acts'|], c, certOnly, Pair(Step(agent, certOnly, TurnFor(w, response)), node), cluster)
  {
    var s := states[|acts|];
    HearsAlone(s, c, q, response, w);
    var act := HearsIn(w, c, if s.replies == [] then 0 else |s.replies| - 1, TurnFor(w, response));
    RunGoesOn(states, acts, act);
    states', acts' := states + [Do(s, act)], acts + [act];
  }

  /** An exchange that nobody disturbs, in any weather, can take place in every reachable state. */
  lemma ExchangeIsPossible(states: seq<State>, acts: seq<Action>, c: nat, certOnly: bool, p: Pair, cluster: Cluster, w: Weather)
    returns (states': seq<State>, acts': seq<Action>)
    requires IsRun(states, acts) && Stands(states[|acts|], c, certOnly, p, cluster) && p.agent.status.Looping?
    ensures IsRun(states', acts') && states <= states'
    ensures Stands(states'[|acts'|], c, certOnly, Exchange(p, cluster, certOnly, w), cluster)
  {
    var q;
    states', acts', q := AskingIsPossible(states, acts, c, certOnly, p, cluster);
    var (node, response) := ServedIn(w, p.node, cluster, p.agent.version);
    if w.reaches {
      states', acts' := HandlerAloneServes(states', acts', q, w.writeOk, w.writeOk, true);
    }
    states', acts' := HearingIsPossible(states', acts', c, certOnly, p.agent, q, node, cluster, response, w);
  }

  lemma {:induction false} ExchangesArePossible(states: seq<State>, acts: seq<Action>, c: nat, certOnly: bool, p: Pair,
                                                cluster: Cluster, ws: seq<Weather>)
    returns (states': seq<State>, acts': seq<Action>)
    requires IsRun(states, acts) && Stands(states[|acts|], c, certOnly, p, cluster)
    ensures IsRun(states', acts') && states <= states'
    ensures Stands(states'[|acts'|], c, certOnly, Exchanges(p, cluster, certOnly, ws), cluster)
    decreases |ws|
  {
    if ws == [] || !p.agent.status.Looping? {
      states', acts' := states, acts;
    } else {
      states', acts' := ExchangeIsPossible(states, acts, c, certOnly, p, cluster, ws[0]);
      states', acts' :=
        ExchangesArePossible(states', acts', c, certOnly, Exchange(p, cluster, certOnly, ws[0]), cluster, ws[1..]);
    }
  }

  /** From every reachable state in which cluster and plan are at `v`, whatever is still on its
      way, a new call can run to its end and leave `v` recorded. */
  lemma UpgradeCanComplete(states: seq<State>, acts: seq<Action>, v: int)
    returns (states': seq<State>, acts': seq<Action>)
    requires IsRun(states, acts)
    requires var s := states[|acts|]; s.nodes != [] && s.clusters != [] && Planned(CurrentCluster(s), CurrentNode(s), v)
    ensures IsRun(states', acts') && states <= states'
    ensures var c, t := |states[|acts|].calls|, states'[|acts'|];
            && c < |t.calls| && t.calls[c].agent.status.Returned? && !t.calls[c].agent.status.failed
            && t.nodes != [] && CurrentNode(t).appliedVersion == v
  {
    var s, begins := states[|acts|], CallBegins(false, false);
    var ws := [Clear(true), Clear(true), Clear(true)];
    RunGoesOn(states, acts, begins);
    CallConverges(CurrentCluster(s), CurrentNode(s), ws, v, 0);
    states', acts' :=
      ExchangesArePossible(states + [Do(s, begins)], acts + [begins], |s.calls|, false,
                           Pair(Start(false), CurrentNode(s)), CurrentCluster(s), ws);
  }

  /** And no reachable state is a dead end: cluster and plan can move to any version, and it can
      be recorded. */
  lemma UpgradeIsAlwaysPossible(states: seq<State>, acts: seq<Action>, v: int)
    returns (states': seq<State>, acts': seq<Action>)
    requires IsRun(states, acts) && v != 0
    ensures IsRun(states', acts') && states <= states'
    ensures states'[|acts'|].nodes != [] && CurrentNode(states'[|acts'|]).appliedVersion == v
  {
    SomethingStored(states, acts, |acts|);
    var s := states[|acts|];
    var moves := ClusterChanges(Cluster(v, false, RKE, true));
    var plans := NodeChanges(Node(Some(Plan(v, 0, false)), CurrentNode(s).appliedVersion, true, false));
    RunGoesOn(states, acts, moves);
    var moved := Do(s, moves);
    RunGoesOn(states + [moved], acts + [moves], plans);
    states', acts' := UpgradeCanComplete(states + [moved] + [Do(moved, plans)], acts + [moves] + [plans], v);
  }

  /** How often a call has asked. */
  function AskedBy(acts: seq<Action>, c: nat): nat {
    if acts == [] then 0
    else AskedBy(acts[..|acts| - 1], c) + if acts[|acts| - 1] == CallAsks(c) then 1 else 0
  }

  lemma AskedOneMore(acts: seq<Action>, n: nat, c: nat)
    requires n < |acts|
    ensures AskedBy(acts[..n + 1], c) == AskedBy(acts[..n], c) + if acts[n] == CallAsks(c) then 1 else 0
  {
    assert acts[..n + 1][..n] == acts[..n];
  }

  /** The request that a call is waiting for, counted. */
  function Open(s: State, c: nat): nat {
    if c < |s.calls| && s.calls[c].waiting.Some? then 1 else 0
  }

  lemma OpenStep(s: State, act: Action, c: nat)
    requires Enabled(s, act)
    ensures Open(Do(s, act), c) + (if (act.CallHears? || act.CallHearsNoise?) && act.call == c then 1 else 0)
         == Open(s, c) + if act == CallAsks(c) then 1 else 0
  {
  }

  /** A call has at most one request open: it has asked as often as it has heard, and once more
      if it is waiting. */
  lemma {:induction false} OneRequestAtATime(states: seq<State>, acts: seq<Action>, n: nat, c: nat)
    requires IsRun(states, acts) && n < |states|
    ensures AskedBy(acts[..n], c) == |Heard(acts[..n], c)| + Open(states[n], c)
  {
    if n > 0 {
      OneRequestAtATime(states, acts, n - 1, c);
      AskedOneMore(acts, n - 1, c);
      HeardOneMore(acts, n - 1, c);
      OpenStep(states[n - 1], acts[n - 1], c);
    }
  }

  /** What is noted when a call hears something: an execution if and only if its log ends with
      one that went well. */
  lemma NotedExactlyWhenExecuted(states: seq<State>, acts: seq<Action>, n: nat)
    requires IsRun(states, acts) && n < |acts| && acts[n].CallHears?
    ensures acts[n].call < |states[n + 1].calls| && states[n + 1].calls[acts[n].call].agent.log != []
    ensures acts[n].reply < |states[n].replies|
    ensures var s, t, c := states[n], states[n + 1], acts[n].call;
            var log, reply := t.calls[c].agent.log, s.replies[acts[n].reply];
            var last := log[|log| - 1];
            t.notes == s.notes + if last.Executed? && last.ok
                                 then [Ran(c, last.config.nodeVersion, reply.nodeAt, reply.clusterAt)] else []
  {
    RunWaits(states, acts, n);
    assert WaitFits(states[n], acts[n].call);
    assert states[n + 1] == Do(states[n], acts[n]);
    assert states[n].notes + [] == states[n].notes;
  }

  /** A run can begin with any node and any cluster. */
  lemma RunsBeginAnywhere(node: Node, cluster: Cluster)
    ensures IsRun([State([node], [cluster], [], [], [], [], [])], [])
  {
  }
}
