/** The worker upgrade handshake as a protocol: any number of agent calls for one
    node, any number of handlers, stale reads, lost, repeated and late messages,
    refused updates, and a cluster and plan that keep changing. */
module UpgradeProtocol {
  import opened Options
  import opened NodeServer
  import opened NodeAgent

  /** One call of the agent; `waiting` is the request it has sent and not heard about. */
  datatype Call = Call(certOnly: bool, agent: Agent, waiting: Option<nat>)

  datatype Request = Request(version: int)

  /** A handler at work on a request, with the stored versions its cache gave it. */
  datatype Handler = Handler(request: nat, nodeAt: nat, clusterAt: nat, recorded: bool)

  datatype Reply = Reply(request: nat, response: Response, nodeAt: nat, clusterAt: nat)

  /** What an observer would note down: a plan executed without error by a call, on a
      configuration built from the given stored versions; a version written to the node. */
  datatype Note =
    | Ran(call: nat, version: int, nodeAt: nat, clusterAt: nat)
    | Recorded(version: int)

  /** `nodes` and `clusters` hold every version ever stored, the last one current; an
      index into them plays the resource version. */
  datatype State = State(
    nodes: seq<Node>,
    clusters: seq<Cluster>,
    calls: seq<Call>,
    requests: seq<Request>,
    handlers: seq<Handler>,
    replies: seq<Reply>,
    notes: seq<Note>)

  datatype Action =
    | NodeChanges(node: Node)
    | ClusterChanges(cluster: Cluster)
    | CallBegins(certOnly: bool, regenerate: bool)
    | CallAsks(call: nat)
    | CallHearsNoise(call: nat, noise: Response, turn: Turn)
    | CallHears(call: nat, reply: nat, turn: Turn)
    | HandlerReads(request: nat, nodeAt: nat, clusterAt: nat)
    | HandlerRecords(handler: nat, refused: bool)
    | HandlerReplies(handler: nat, refused: bool, buildOk: bool)

  predicate Waiting(s: State, call: nat) {
    call < |s.calls| && s.calls[call].waiting.Some?
  }

  predicate HandlerFits(s: State, h: Handler) {
    h.request < |s.requests| && h.nodeAt < |s.nodes| && h.clusterAt < |s.clusters|
  }

  predicate Enabled(s: State, act: Action) {
    match act
    // Everyone else writes the node too, but only the handler writes the applied version.
    case NodeChanges(node) => s.nodes != [] && node.appliedVersion == s.nodes[|s.nodes| - 1].appliedVersion
    case ClusterChanges(_) => true
    case CallBegins(_, _) => true
    case CallAsks(c) => c < |s.calls| && s.calls[c].waiting.None? && s.calls[c].agent.status.Looping?
    case CallHearsNoise(c, noise, turn) => Waiting(s, c) && !noise.Ok? && turn.answer == Interpret(noise)
    case CallHears(c, r, turn) =>
      && Waiting(s, c) && r < |s.replies|
      && s.replies[r].request == s.calls[c].waiting.value
      && turn.answer == Interpret(s.replies[r].response)
    case HandlerReads(q, nodeAt, clusterAt) =>
      q < |s.requests| && nodeAt < |s.nodes| && clusterAt < |s.clusters|
    case HandlerRecords(h, _) =>
      && h < |s.handlers| && HandlerFits(s, s.handlers[h])
      && !s.handlers[h].recorded
      && EarlyExit(s.clusters[s.handlers[h].clusterAt], Some(s.nodes[s.handlers[h].nodeAt])).None?
    case HandlerReplies(h, _, _) =>
      && h < |s.handlers| && HandlerFits(s, s.handlers[h])
      && (s.handlers[h].recorded ||
          EarlyExit(s.clusters[s.handlers[h].clusterAt], Some(s.nodes[s.handlers[h].nodeAt])).Some?)
  }

  /** The call takes one turn; a plan executed without error is noted. */
  function Hear(s: State, c: nat, turn: Turn, nodeAt: nat, clusterAt: nat): State
    requires c < |s.calls|
  {
    var call := s.calls[c];
    var s' := s.(calls := s.calls[c := call.(agent := Step(call.agent, call.certOnly, turn), waiting := None)]);
    if Executes(call.agent, turn) && turn.planOk then
      s'.(notes := s.notes + [Ran(c, turn.answer.config.nodeVersion, nodeAt, clusterAt)])
    else s'
  }

  /** An update succeeds only on the current version of the node, and may be refused anyway. */
  predicate Accepted(s: State, h: Handler, refused: bool) {
    h.nodeAt == |s.nodes| - 1 && !refused
  }

  function Record(s: State, i: nat, refused: bool): State
    requires i < |s.handlers| && HandlerFits(s, s.handlers[i])
  {
    var h := s.handlers[i];
    var node := s.nodes[h.nodeAt];
    var version := s.requests[h.request].version;
    var s' := s.(handlers := s.handlers[i := h.(recorded := true)]);
    if WantsVersionWrite(node, version) && Accepted(s, h, refused) then
      s'.(nodes := s.nodes + [node.(appliedVersion := version)], notes := s.notes + [Recorded(version)])
    else s'
  }

  function Respond(s: State, i: nat, refused: bool, buildOk: bool): State
    requires i < |s.handlers| && HandlerFits(s, s.handlers[i])
  {
    var h := s.handlers[i];
    var node, cluster := s.nodes[h.nodeAt], s.clusters[h.clusterAt];
    var exit := EarlyExit(cluster, Some(node));
    if exit.Some? then
      s.(replies := s.replies + [Reply(h.request, exit.value, h.nodeAt, h.clusterAt)])
    else if node.plan.Some? && !node.nonWorker && !buildOk then
      s.(replies := s.replies + [Reply(h.request, Status(500, false), h.nodeAt, h.clusterAt)])
    else
      var s' := s.(replies := s.replies + [Reply(h.request, Ok(BuildConfig(cluster, node)), h.nodeAt, h.clusterAt)]);
      if WantsIntervalWrite(cluster, node) && Accepted(s, h, refused) then
        s'.(nodes := s.nodes + [WithInterval(node)])
      else s'
  }

  function Do(s: State, act: Action): State
    requires Enabled(s, act)
  {
    match act
    case NodeChanges(node) => s.(nodes := s.nodes + [node])
    case ClusterChanges(cluster) => s.(clusters := s.clusters + [cluster])
    case CallBegins(certOnly, regenerate) => s.(calls := s.calls + [Call(certOnly, Start(regenerate), None)])
    case CallAsks(c) =>
      s.(requests := s.requests + [Request(s.calls[c].agent.version)],
         calls := s.calls[c := s.calls[c].(waiting := Some(|s.requests|))])
    case CallHearsNoise(c, _, turn) => Hear(s, c, turn, 0, 0)
    case CallHears(c, r, turn) => Hear(s, c, turn, s.replies[r].nodeAt, s.replies[r].clusterAt)
    case HandlerReads(q, nodeAt, clusterAt) => s.(handlers := s.handlers + [Handler(q, nodeAt, clusterAt, false)])
    case HandlerRecords(h, refused) => Record(s, h, refused)
    case HandlerReplies(h, refused, buildOk) => Respond(s, h, refused, buildOk)
  }

  /** A node and a cluster are stored; nothing has been asked yet. */
  predicate Initial(s: State) {
    && |s.nodes| == 1 && |s.clusters| == 1
    && s.calls == [] && s.requests == [] && s.handlers == [] && s.replies == [] && s.notes == []
  }

  ghost predicate IsRun(states: seq<State>, acts: seq<Action>) {
    && |states| == |acts| + 1
    && Initial(states[0])
    && forall i :: 0 <= i < |acts| ==> Enabled(states[i], acts[i]) && states[i + 1] == Do(states[i], acts[i])
  }

  /** The stored node and cluster at these indices both ask for version `v`. */
  predicate AskedFor(s: State, v: int, nodeAt: nat, clusterAt: nat) {
    && nodeAt < |s.nodes| && clusterAt < |s.clusters|
    && s.nodes[nodeAt].plan.Some? && s.nodes[nodeAt].plan.value.version == v
    && s.clusters[clusterAt].nodeVersion == v
  }

  /** Note `j` is the execution, by a call that is not for certificates only, of a
      configuration for `v` built from a node and a cluster that both asked for `v`. */
  predicate Vouches(s: State, j: int, v: int) {
    && 0 <= j < |s.notes| && s.notes[j].Ran? && s.notes[j].version == v
    && s.notes[j].call < |s.calls| && !s.calls[s.notes[j].call].certOnly
    && AskedFor(s, v, s.notes[j].nodeAt, s.notes[j].clusterAt)
  }

  ghost predicate Vouched(s: State, v: int) {
    exists j :: Vouches(s, j, v)
  }

  predicate ReplyFits(s: State, r: Reply) {
    r.response.Ok? && r.response.config.nodeVersion != 0 ==>
      AskedFor(s, r.response.config.nodeVersion, r.nodeAt, r.clusterAt)
  }

  ghost predicate Inv(s: State) {
    && s.nodes != []
    && (forall c :: 0 <= c < |s.calls| && s.calls[c].agent.version != 0 ==> Vouched(s, s.calls[c].agent.version))
    && (forall q :: 0 <= q < |s.requests| && s.requests[q].version != 0 ==> Vouched(s, s.requests[q].version))
    && (forall r :: 0 <= r < |s.replies| ==> ReplyFits(s, s.replies[r]))
    && (forall i :: 0 <= i < |s.notes| && s.notes[i].Recorded? ==>
          exists j :: j < i && Vouches(s, j, s.notes[i].version))
  }

  /** Everything recorded stays: histories only grow and calls keep their kind. */
  predicate Grows(s: State, t: State) {
    && s.nodes <= t.nodes && s.clusters <= t.clusters && s.notes <= t.notes
    && |s.calls| <= |t.calls|
    && forall c :: 0 <= c < |s.calls| ==> s.calls[c].certOnly == t.calls[c].certOnly
  }

  lemma StepGrows(s: State, act: Action)
    requires Enabled(s, act)
    ensures Grows(s, Do(s, act))
  {
  }

  lemma VouchesStays(s: State, t: State, j: int, v: int)
    requires Grows(s, t) && Vouches(s, j, v)
    ensures Vouches(t, j, v)
  {
  }

  lemma VouchedStays(s: State, t: State, v: int)
    requires Grows(s, t) && Vouched(s, v)
    ensures Vouched(t, v)
  {
    var j :| Vouches(s, j, v);
    VouchesStays(s, t, j, v);
  }

  lemma InvStays(s: State, t: State)
    requires Inv(s) && Grows(s, t)
    ensures forall c :: 0 <= c < |s.calls| && s.calls[c].agent.version != 0 ==> Vouched(t, s.calls[c].agent.version)
    ensures forall q :: 0 <= q < |s.requests| && s.requests[q].version != 0 ==> Vouched(t, s.requests[q].version)
    ensures forall r :: 0 <= r < |s.replies| ==> ReplyFits(t, s.replies[r])
    ensures forall i :: 0 <= i < |s.notes| && s.notes[i].Recorded? ==>
              exists j :: j < i && Vouches(t, j, s.notes[i].version)
  {
    forall v | Vouched(s, v) ensures Vouched(t, v) { VouchedStays(s, t, v); }
    forall i | 0 <= i < |s.notes| && s.notes[i].Recorded?
      ensures exists j :: j < i && Vouches(t, j, s.notes[i].version)
    {
      var j :| j < i && Vouches(s, j, s.notes[i].version);
      VouchesStays(s, t, j, s.notes[i].version);
    }
  }

  /** A call's reported version changes only when it executes a plan without error and
      is not for certificates only. */
  lemma VersionComesFromPlan(a: Agent, certOnly: bool, turn: Turn)
    ensures var b := Step(a, certOnly, turn);
            b.version == a.version ||
            (Executes(a, turn) && turn.planOk && !certOnly && b.version == turn.answer.config.nodeVersion)
  {
  }

  lemma HearKeeps(s: State, act: Action)
    requires Inv(s) && Enabled(s, act)
    requires act.CallHears? || act.CallHearsNoise?
    ensures Inv(Do(s, act))
  {
    var t := Do(s, act);
    var c := act.call;
    var call := s.calls[c];
    InvStays(s, t);
    VersionComesFromPlan(call.agent, call.certOnly, act.turn);
    var v := t.calls[c].agent.version;
    if v != 0 && v != call.agent.version {
      assert act.CallHears?;
      assert ReplyFits(s, s.replies[act.reply]);
      assert Vouches(t, |s.notes|, v);
    }
  }

  lemma RecordKeeps(s: State, act: Action)
    requires Inv(s) && Enabled(s, act) && act.HandlerRecords?
    ensures Inv(Do(s, act))
  {
    var t := Do(s, act);
    InvStays(s, t);
    if |t.nodes| > |s.nodes| {
      var v := s.requests[s.handlers[act.handler].request].version;
      var j :| Vouches(s, j, v);
      VouchesStays(s, t, j, v);
    }
  }

  lemma StepKeeps(s: State, act: Action)
    requires Inv(s) && Enabled(s, act)
    ensures Inv(Do(s, act))
  {
    StepGrows(s, act);
    if act.CallHears? || act.CallHearsNoise? {
      HearKeeps(s, act);
    } else if act.HandlerRecords? {
      RecordKeeps(s, act);
    } else {
      InvStays(s, Do(s, act));
    }
  }

  lemma {:induction false} RunKeeps(states: seq<State>, acts: seq<Action>, n: nat)
    requires IsRun(states, acts) && n < |states|
    ensures Inv(states[n])
  {
    if n > 0 {
      RunKeeps(states, acts, n - 1);
      StepKeeps(states[n - 1], acts[n - 1]);
    }
  }

  /** Safety. In every run, each version the handler records was before that executed
      without error by a full agent call, on a configuration built from a stored plan and
      a stored cluster that both were at that version. */
  lemma RecordedOnlyAfterExecution(states: seq<State>, acts: seq<Action>, n: nat, i: nat)
    requires IsRun(states, acts) && n < |states|
    requires i < |states[n].notes| && states[n].notes[i].Recorded?
    ensures exists j :: j < i && Vouches(states[n], j, states[n].notes[i].version)
  {
    RunKeeps(states, acts, n);
  }

  /** The applied versions stored one after another, without repeats in a row. */
  function AppliedChanges(nodes: seq<Node>): seq<int> {
    if |nodes| <= 1 then []
    else
      var last, before := nodes[|nodes| - 1].appliedVersion, nodes[|nodes| - 2].appliedVersion;
      AppliedChanges(nodes[..|nodes| - 1]) + if last == before then [] else [last]
  }

  function RecordedVersions(notes: seq<Note>): seq<int> {
    if notes == [] then []
    else
      var last := notes[|notes| - 1];
      RecordedVersions(notes[..|notes| - 1]) + if last.Recorded? then [last.version] else []
  }

  lemma NodeAppended(nodes: seq<Node>, node: Node)
    requires nodes != []
    ensures AppliedChanges(nodes + [node])
         == AppliedChanges(nodes) + if node.appliedVersion == nodes[|nodes| - 1].appliedVersion then [] else [node.appliedVersion]
  {
    assert (nodes + [node])[..|nodes|] == nodes;
  }

  lemma NoteAppended(notes: seq<Note>, note: Note)
    ensures RecordedVersions(notes + [note]) == RecordedVersions(notes) + if note.Recorded? then [note.version] else []
  {
    assert (notes + [note])[..|notes|] == notes;
  }

  /** What is appended to the two histories: nothing, a node that keeps the applied version, a
      note of an execution, or both the node and the note of a recorded version. */
  ghost predicate Appended(nodes: seq<Node>, notes: seq<Note>, nodes': seq<Node>, notes': seq<Note>)
    requires nodes != []
  {
    var applied := nodes[|nodes| - 1].appliedVersion;
    || (nodes' == nodes && notes' == notes)
    || (exists node :: nodes' == nodes + [node] && node.appliedVersion == applied && notes' == notes)
    || (exists note :: notes' == notes + [note] && !note.Recorded? && nodes' == nodes)
    || (exists node, note :: nodes' == nodes + [node] && notes' == notes + [note] && note.Recorded?
          && note.version == node.appliedVersion != applied)
  }

  lemma WhatIsAppended(s: State, act: Action)
    requires Enabled(s, act) && s.nodes != []
    ensures Appended(s.nodes, s.notes, Do(s, act).nodes, Do(s, act).notes)
  {
  }

  lemma HistoriesGrow(nodes: seq<Node>, notes: seq<Note>, nodes': seq<Node>, notes': seq<Note>)
    requires nodes != [] && Appended(nodes, notes, nodes', notes')
    requires AppliedChanges(nodes) == RecordedVersions(notes)
    ensures nodes' != [] && AppliedChanges(nodes') == RecordedVersions(notes')
  {
    if nodes' != nodes {
      NodeAppended(nodes, nodes'[|nodes|]);
    }
    if notes' != notes {
      NoteAppended(notes, notes'[|notes|]);
    }
  }

  /** No write reverts or invents a version: the changes of the stored applied version
      are exactly the recorded versions in their order, although the handler's interval
      write is made from a node read before its version write. */
  lemma {:induction false} AppliedVersionIsWhatWasRecorded(states: seq<State>, acts: seq<Action>, n: nat)
    requires IsRun(states, acts) && n < |states|
    ensures states[n].nodes != []
    ensures AppliedChanges(states[n].nodes) == RecordedVersions(states[n].notes)
  {
    if n > 0 {
      AppliedVersionIsWhatWasRecorded(states, acts, n - 1);
      var s, t := states[n - 1], states[n];
      WhatIsAppended(s, acts[n - 1]);
      HistoriesGrow(s.nodes, s.notes, t.nodes, t.notes);
    }
  }
}
