/** One call of the agent against one server whose cluster does not move:
    how many requests it takes until the version is recorded. */
module UpgradeConvergence {
  import opened Options
  import opened NodeServer
  import opened NodeAgent

  /** The agent's call and the stored node. */
  datatype Pair = Pair(agent: Agent, node: Node)

  datatype Delivery = Arrives | GetsLost | Busy

  /** What happens to one request: whether it reaches the handler, whether the node update it
      leads to, if any, succeeds, what becomes of the reply, what the certificate check says
      and whether the plan succeeds. Busy stands for a 503 on the way. */
  datatype Weather = Weather(reaches: bool, writeOk: bool, reply: Delivery, cert: CertCheck, planOk: bool)

  /** Nothing goes wrong but perhaps the update. */
  function Clear(writeOk: bool): Weather {
    Weather(true, writeOk, Arrives, Fresh, true)
  }

  function ServedIn(w: Weather, node: Node, cluster: Cluster, version: int): (Node, Response) {
    if w.reaches then Served(node, cluster, version, w.writeOk, w.writeOk, true) else (node, Response.Lost)
  }

  /** The turn a request leads to. */
  function TurnFor(w: Weather, response: Response): Turn {
    var answer := match w.reply
                  case Arrives => Interpret(response)
                  case GetsLost => Failed
                  case Busy => NotReady;
    Turn(answer, w.cert, w.planOk, true)
  }

  /** One request and the turn it leads to. */
  function Exchange(p: Pair, cluster: Cluster, certOnly: bool, w: Weather): Pair {
    var (node, response) := ServedIn(w, p.node, cluster, p.agent.version);
    Pair(Step(p.agent, certOnly, TurnFor(w, response)), node)
  }

  function Exchanges(p: Pair, cluster: Cluster, certOnly: bool, ws: seq<Weather>): Pair
    decreases |ws|
  {
    if ws == [] || !p.agent.status.Looping? then p
    else Exchanges(Exchange(p, cluster, certOnly, ws[0]), cluster, certOnly, ws[1..])
  }

  /** The handshake: the handler itself, request by request, and the agent's specification turn
      by turn. `turns` are the agent's turns, so that the agent's loop on them gives the
      same agent. */
  method Handshake(store: NodeStore, cluster: Cluster, certOnly: bool, ws: seq<Weather>) returns (agent: Agent, turns: seq<Turn>)
    modifies store
    ensures Pair(agent, store.node) == Exchanges(Pair(Start(false), old(store.node)), cluster, certOnly, ws)
    ensures agent == Run(Start(false), certOnly, turns)
  {
    agent, turns := Start(false), [];
    var i := 0;
    while i < |ws| && agent.status.Looping?
      invariant 0 <= i <= |ws|
      invariant Exchanges(Pair(agent, store.node), cluster, certOnly, ws[i..])
             == Exchanges(Pair(Start(false), old(store.node)), cluster, certOnly, ws)
      invariant agent == Run(Start(false), certOnly, turns)
    {
      var response := Response.Lost;
      if ws[i].reaches {
        response := store.ServeHTTP(Admitted(true), cluster, agent.version, ws[i].writeOk, ws[i].writeOk, true);
      }
      var turn := TurnFor(ws[i], response);
      agent := Step(agent, certOnly, turn);
      assert (turns + [turn])[..|turns|] == turns;
      turns := turns + [turn];
      assert ws[i..][1..] == ws[i + 1..];
      i := i + 1;
    }
  }

  /** The same with the agent's loop in place of its specification. */
  method HandshakeOfLoops(store: NodeStore, cluster: Cluster, certOnly: bool, ws: seq<Weather>) returns (agent: Agent)
    modifies store
    ensures Pair(agent, store.node) == Exchanges(Pair(Start(false), old(store.node)), cluster, certOnly, ws)
  {
    var turns;
    agent, turns := Handshake(store, cluster, certOnly, ws);
    agent := ConfigClient(certOnly, false, turns);
  }

  /** The cluster and the plan of a registered worker are both at version `v`. */
  predicate Planned(cluster: Cluster, node: Node, v: int) {
    && v != 0
    && cluster.nodeVersion == v && cluster.driver.RKE? && cluster.specApplied
    && node.registered && !node.nonWorker
    && node.plan.Some? && node.plan.value.version == v
  }

  function Requests(log: seq<Event>): nat {
    if log == [] then 0
    else Requests(log[..|log| - 1]) + if log[|log| - 1].Asked? then 1 else 0
  }

  /** The versions of the plans executed, in order. */
  function Versions(log: seq<Event>): seq<int> {
    if log == [] then []
    else Versions(log[..|log| - 1]) +
         if log[|log| - 1].Executed? then [log[|log| - 1].config.nodeVersion] else []
  }

  lemma CountsGrow(log: seq<Event>, e: Event)
    ensures Requests(log + [e]) == Requests(log) + if e.Asked? then 1 else 0
    ensures Versions(log + [e]) == Versions(log) + if e.Executed? then [e.config.nodeVersion] else []
  {
    assert (log + [e])[..|log|] == log;
  }

  function Repeat(v: int, n: nat): seq<int> { seq(n, _ => v) }

  lemma LogCounts(log: seq<Event>, asked: Event, rest: seq<Event>)
    requires asked.Asked? && |rest| <= 1 && (rest != [] ==> !rest[0].Asked?)
    ensures Requests(log + ([asked] + rest)) == Requests(log) + 1
    ensures Versions(log + ([asked] + rest))
         == Versions(log) + if rest != [] && rest[0].Executed? then [rest[0].config.nodeVersion] else []
  {
    CountsGrow(log, asked);
    if rest == [] {
      assert log + ([asked] + rest) == log + [asked];
    } else {
      assert log + ([asked] + rest) == log + [asked] + [rest[0]];
      CountsGrow(log + [asked], rest[0]);
    }
  }

  /** Every turn costs one request, and its plan, if one is executed, is that of the reply. */
  lemma StepCounts(a: Agent, certOnly: bool, turn: Turn)
    requires a.status.Looping?
    ensures var b := Step(a, certOnly, turn);
            && Requests(b.log) == Requests(a.log) + 1
            && Versions(b.log) == Versions(a.log) + if Executes(a, turn) then [turn.answer.config.nodeVersion] else []
  {
    LogCounts(a.log, Asked(a.version, a.regenerate), Happened(a, turn));
  }

  /** After an executed plan the call returns or goes on with the version to report; without
      one it goes on as before, a renewal perhaps opened, or fails. */
  lemma StepOutcome(a: Agent, certOnly: bool, turn: Turn)
    requires a.status.Looping? && turn.paramsOk
    ensures var b := Step(a, certOnly, turn);
            if Executes(a, turn) then
              var sent := turn.answer.config.nodeVersion;
              && !b.renewing
              && b.interval == (if turn.answer.config.checkInterval != 0 then turn.answer.config.checkInterval else a.interval)
              && (if turn.planOk && sent != 0 && !certOnly then b.status.Looping? && b.version == sent
                  else b.status == Returned(b.interval, !turn.planOk))
            else
              && b.version == a.version
              && (turn.answer.Received? || b.renewing == a.renewing)
              && (if b.status.Looping? then turn.answer.Received? ==> !a.renewing && b.renewing
                  else b.status.failed)
  {
  }

  /** A planned worker is sent `v` unless the node read before the update had applied it. */
  lemma ServedPlanned(node: Node, cluster: Cluster, version: int, writeOk: bool, v: int)
    requires Planned(cluster, node, v) && version in {0, v}
    ensures var (node', response) := Served(node, cluster, version, writeOk, writeOk, true);
            && Planned(cluster, node', v)
            && node'.appliedVersion == (if version == v && writeOk then v else node.appliedVersion)
            && response.Ok?
            && response.config.nodeVersion == (if node.appliedVersion == v then 0 else v)
  {
  }

  /** The version a planned worker is sent. */
  function Sent(node: Node, v: int): int {
    if node.appliedVersion == v then 0 else v
  }

  lemma ServedInPlanned(w: Weather, node: Node, cluster: Cluster, version: int, v: int)
    requires Planned(cluster, node, v) && version in {0, v}
    ensures var (node', response) := ServedIn(w, node, cluster, version);
            var answer := TurnFor(w, response).answer;
            && Planned(cluster, node', v)
            && node'.appliedVersion == (if version == v && w.reaches && w.writeOk then v else node.appliedVersion)
            && (answer.Received? <==> w.reaches && w.reply.Arrives?)
            && (answer.Received? ==> answer.config.nodeVersion == Sent(node, v))
            && !answer.NotFound?
  {
    if w.reaches {
      ServedPlanned(node, cluster, version, w.writeOk, v);
    }
  }

  /** The turn of the agent in one exchange. */
  function TurnIn(p: Pair, cluster: Cluster, w: Weather): Turn {
    TurnFor(w, ServedIn(w, p.node, cluster, p.agent.version).1)
  }

  /** One exchange of a looping agent with a planned worker, in any weather. */
  lemma ExchangeOnce(p: Pair, cluster: Cluster, certOnly: bool, w: Weather, v: int)
    requires p.agent.status.Looping? && p.agent.version in {0, v}
    requires Planned(cluster, p.node, v)
    ensures var q, turn, sent := Exchange(p, cluster, certOnly, w), TurnIn(p, cluster, w), Sent(p.node, v);
            && Planned(cluster, q.node, v)
            && q.node.appliedVersion
               == (if p.agent.version == v && w.reaches && w.writeOk then v else p.node.appliedVersion)
            && Requests(q.agent.log) == Requests(p.agent.log) + 1
            && Versions(q.agent.log) == Versions(p.agent.log) + (if Executes(p.agent, turn) then [sent] else [])
            && (if Executes(p.agent, turn) then
                  && !q.agent.renewing
                  && (if w.planOk && sent == v && !certOnly then q.agent.status.Looping? && q.agent.version == v
                      else q.agent.status.Returned? && q.agent.status.failed == !w.planOk)
                else
                  && q.agent.version == p.agent.version
                  && (if q.agent.status.Looping?
                      then if w.reaches && w.reply.Arrives? then !p.agent.renewing && q.agent.renewing
                           else q.agent.renewing == p.agent.renewing
                      else q.agent.status.failed))
  {
    var turn := TurnIn(p, cluster, w);
    ServedInPlanned(w, p.node, cluster, p.agent.version, v);
    StepCounts(p.agent, certOnly, turn);
    StepOutcome(p.agent, certOnly, turn);
  }

  /** One exchange in clear weather. */
  lemma ClearExchange(p: Pair, cluster: Cluster, certOnly: bool, writeOk: bool, v: int)
    requires p.agent.status.Looping? && p.agent.version in {0, v}
    requires Planned(cluster, p.node, v)
    ensures var q, sent := Exchange(p, cluster, certOnly, Clear(writeOk)), Sent(p.node, v);
            && Planned(cluster, q.node, v)
            && q.node.appliedVersion == (if p.agent.version == v && writeOk then v else p.node.appliedVersion)
            && Requests(q.agent.log) == Requests(p.agent.log) + 1
            && Versions(q.agent.log) == Versions(p.agent.log) + [sent]
            && (if sent == v && !certOnly then q.agent.status.Looping? && q.agent.version == v
                else q.agent.status.Returned? && !q.agent.status.failed)
  {
    ExchangeOnce(p, cluster, certOnly, Clear(writeOk), v);
    ServedInPlanned(Clear(writeOk), p.node, cluster, p.agent.version, v);
  }

  /** With the update accepted at once, the next answer carries no version and ends the call. */
  lemma ConvergesAtOnce(p: Pair, cluster: Cluster, ws: seq<Weather>, v: int)
    requires p.agent.status.Looping? && p.agent.version == v
    requires Planned(cluster, p.node, v) && p.node.appliedVersion != v
    requires |ws| == 2 && ws[0] == Clear(true) && ws[1] == Clear(ws[1].writeOk)
    ensures var q := Exchanges(p, cluster, false, ws);
            && q.agent.status.Returned? && !q.agent.status.failed
            && q.node.appliedVersion == v
            && Requests(q.agent.log) == Requests(p.agent.log) + 2
            && Versions(q.agent.log) == Versions(p.agent.log) + [v] + [0]
  {
    ClearExchange(p, cluster, false, ws[0].writeOk, v);
    var q := Exchange(p, cluster, false, ws[0]);
    ClearExchange(q, cluster, false, ws[1..][0].writeOk, v);
    assert Exchanges(q, cluster, false, ws[1..]) == Exchange(q, cluster, false, ws[1..][0]);
  }

  /** An agent that reports `v` while the store refuses the update `failures` times: it
      keeps executing the same plan and stops two requests after the first success. */
  lemma {:induction false} ConvergesFromReport(p: Pair, cluster: Cluster, ws: seq<Weather>, v: int, failures: nat)
    requires p.agent.status.Looping? && p.agent.version == v
    requires Planned(cluster, p.node, v) && p.node.appliedVersion != v
    requires |ws| == failures + 2
    requires forall i :: 0 <= i <= failures ==> ws[i] == Clear(i == failures)
    requires ws[failures + 1] == Clear(ws[failures + 1].writeOk)
    ensures var q := Exchanges(p, cluster, false, ws);
            && q.agent.status.Returned? && !q.agent.status.failed
            && q.node.appliedVersion == v
            && Requests(q.agent.log) == Requests(p.agent.log) + failures + 2
            && Versions(q.agent.log) == Versions(p.agent.log) + Repeat(v, failures + 1) + [0]
    decreases failures
  {
    if failures == 0 {
      assert Repeat(v, 1) == [v];
      ConvergesAtOnce(p, cluster, ws, v);
    } else {
      ClearExchange(p, cluster, false, ws[0].writeOk, v);
      var q := Exchange(p, cluster, false, ws[0]);
      forall i | 0 <= i <= failures - 1 ensures ws[1..][i] == Clear(i == failures - 1) {
        assert ws[1..][i] == ws[i + 1];
      }
      ConvergesFromReport(q, cluster, ws[1..], v, failures - 1);
      assert [v] + Repeat(v, failures) == Repeat(v, failures + 1);
    }
  }

  /** Convergence. Over a worker whose plan and cluster are at `v`, with every reply arriving
      and fresh certificates, one call makes one request when `v` is applied; otherwise
      `failures + 3` requests with as many plan executions, all of the plan at `v` but the
      last, and it ends with `v` applied. With no refused update that is exactly three. */
  lemma CallConverges(cluster: Cluster, node: Node, ws: seq<Weather>, v: int, failures: nat)
    requires Planned(cluster, node, v)
    requires |ws| == failures + 3
    requires ws[0] == Clear(ws[0].writeOk) && ws[failures + 2] == Clear(ws[failures + 2].writeOk)
    requires forall i :: 1 <= i <= failures + 1 ==> ws[i] == Clear(i == failures + 1)
    ensures var q := Exchanges(Pair(Start(false), node), cluster, false, ws);
            && q.agent.status.Returned? && !q.agent.status.failed
            && q.node.appliedVersion == v
            && (if node.appliedVersion == v
                then Requests(q.agent.log) == 1 && Versions(q.agent.log) == [0]
                else && Requests(q.agent.log) == failures + 3
                     && Versions(q.agent.log) == Repeat(v, failures + 2) + [0])
  {
    var p := Pair(Start(false), node);
    ClearExchange(p, cluster, false, ws[0].writeOk, v);
    var q := Exchange(p, cluster, false, ws[0]);
    if node.appliedVersion != v {
      forall i | 0 <= i <= failures ensures ws[1..][i] == Clear(i == failures) {
        assert ws[1..][i] == ws[i + 1];
      }
      ConvergesFromReport(q, cluster, ws[1..], v, failures);
      assert [v] + Repeat(v, failures + 1) == Repeat(v, failures + 2);
    }
  }

  /** A call that only writes certificates runs the plan once and records nothing. */
  lemma CertificateCallRecordsNothing(cluster: Cluster, node: Node, ws: seq<Weather>, v: int)
    requires Planned(cluster, node, v) && ws != [] && ws[0] == Clear(ws[0].writeOk)
    ensures var q := Exchanges(Pair(Start(false), node), cluster, true, ws);
            && q.agent.status.Returned? && !q.agent.status.failed
            && q.node.appliedVersion == node.appliedVersion
            && Requests(q.agent.log) == 1 && |Versions(q.agent.log)| == 1
  {
    var p := Pair(Start(false), node);
    ClearExchange(p, cluster, true, ws[0].writeOk, v);
    var q := Exchange(p, cluster, true, ws[0]);
    assert Exchanges(q, cluster, true, ws[1..]) == q;
  }

  /** The request is handled, its update accepted, and the reply arrives. */
  predicate Good(w: Weather) {
    w.reaches && w.writeOk && w.reply.Arrives?
  }

  function GoodOnes(ws: seq<Weather>): nat {
    if ws == [] then 0 else (if Good(ws[0]) then 1 else 0) + GoodOnes(ws[1..])
  }

  /** How far a looping call is from its end: the executions it still needs, each of them with
      a renewal before it unless that is open already. */
  function Distance(p: Pair, v: int): int {
    2 * (if p.node.appliedVersion == v then 1 else if p.agent.version == v then 2 else 3)
    - if p.agent.renewing then 1 else 0
  }

  /** Good weather brings the end nearer; other weather takes it away by at most one. */
  lemma WeatherMoves(p: Pair, cluster: Cluster, w: Weather, v: int)
    requires p.agent.status.Looping? && p.agent.version in {0, v} && Planned(cluster, p.node, v)
    requires Exchange(p, cluster, false, w).agent.status.Looping?
    ensures var q := Exchange(p, cluster, false, w);
            && q.agent.version in {0, v}
            && Distance(q, v) <= Distance(p, v) + if Good(w) then -1 else 1
  {
    ExchangeOnce(p, cluster, false, w, v);
  }

  predicate AllAre(versions: seq<int>, v: int) {
    forall i :: 0 <= i < |versions| ==> versions[i] == v
  }

  /** Where a call stands in the end: it is still looping and has executed only the plan at `v`,
      or it has returned without an error, with `v` applied and after those a plan without a
      version as its last, or it has failed. */
  predicate Outcome(p: Pair, v: int) {
    var versions := Versions(p.agent.log);
    match p.agent.status
    case Looping => AllAre(versions, v)
    case Returned(_, failed) =>
      failed ||
      (&& p.node.appliedVersion == v
       && versions != [] && versions[|versions| - 1] == 0 && AllAre(versions[..|versions| - 1], v))
  }

  /** What one more executed plan makes of the versions so far. */
  lemma VersionsGrow(versions: seq<int>, v: int)
    requires AllAre(versions, v)
    ensures AllAre(versions + [v], v)
    ensures (versions + [0])[|versions|] == 0 && AllAre((versions + [0])[..|versions|], v)
  {
    assert (versions + [0])[..|versions|] == versions;
  }

  /** A call in any weather, from where it stands. */
  lemma {:induction false} AnyWeatherFrom(p: Pair, cluster: Cluster, ws: seq<Weather>, v: int)
    requires p.agent.status.Looping? && p.agent.version in {0, v} && Planned(cluster, p.node, v)
    requires AllAre(Versions(p.agent.log), v)
    ensures var q := Exchanges(p, cluster, false, ws);
            && Outcome(q, v)
            && (q.agent.status.Looping? ==>
                  && Requests(q.agent.log) == Requests(p.agent.log) + |ws|
                  && 2 * GoodOnes(ws) - |ws| < Distance(p, v))
    decreases |ws|
  {
    if ws != [] {
      VersionsGrow(Versions(p.agent.log), v);
      ExchangeOnce(p, cluster, false, ws[0], v);
      var q := Exchange(p, cluster, false, ws[0]);
      if q.agent.status.Looping? {
        WeatherMoves(p, cluster, ws[0], v);
        AnyWeatherFrom(q, cluster, ws[1..], v);
      }
    }
  }

  /** Convergence in any weather: requests and replies lost, 503 answers, refused updates, stale
      or unreadable certificates, failing plans. A call that returns without an error has
      `v` applied, and has executed the plan at `v` some times and then one without a
      version. And a call does not go on for long: six good exchanges more than others, and
      it has returned. */
  lemma CallConvergesInAnyWeather(cluster: Cluster, node: Node, ws: seq<Weather>, v: int)
    requires Planned(cluster, node, v)
    ensures var q := Exchanges(Pair(Start(false), node), cluster, false, ws);
            && Outcome(q, v)
            && (q.agent.status.Looping? ==> Requests(q.agent.log) == |ws|)
            && (GoodOnes(ws) >= |ws| - GoodOnes(ws) + 6 ==> q.agent.status.Returned?)
  {
    AnyWeatherFrom(Pair(Start(false), node), cluster, ws, v);
  }

  lemma EarlyAnswer(p: Pair, cluster: Cluster, certOnly: bool, writeOk: bool)
    requires p.agent.status.Looping? && EarlyExit(cluster, Some(p.node)).Some?
    ensures var q := Exchange(p, cluster, certOnly, Clear(writeOk));
            && q.node == p.node
            && Requests(q.agent.log) == Requests(p.agent.log) + 1
            && (if cluster.driver.Other?
                then && q.agent.status == Returned(p.agent.interval, false)
                     && Versions(q.agent.log) == Versions(p.agent.log) + [0]
                else && q.agent.status.Looping?
                     && Versions(q.agent.log) == Versions(p.agent.log))
  {
    var turn := TurnIn(p, cluster, Clear(writeOk));
    assert turn.answer == if cluster.driver.Other? then Received(NodeConfig(0, 0, false)) else NotReady;
    StepCounts(p.agent, certOnly, turn);
    StepOutcome(p.agent, certOnly, turn);
  }

  /** What the handler's early answers make of a whole call: 404 to go on without a plan, which
      ends the call with its first request, and 503 to ask again, which keeps the call asking
      as long as nothing changes. Neither writes the node. */
  lemma {:induction false} EarlyAnswersSteerCall(p: Pair, cluster: Cluster, certOnly: bool, ws: seq<Weather>)
    requires p.agent.status.Looping? && EarlyExit(cluster, Some(p.node)).Some?
    requires forall i :: 0 <= i < |ws| ==> ws[i] == Clear(ws[i].writeOk)
    ensures var q := Exchanges(p, cluster, certOnly, ws);
            && q.node == p.node
            && (if cluster.driver.Other? && ws != []
                then && q.agent.status == Returned(p.agent.interval, false)
                     && Requests(q.agent.log) == Requests(p.agent.log) + 1
                     && Versions(q.agent.log) == Versions(p.agent.log) + [0]
                else && q.agent.status.Looping?
                     && Requests(q.agent.log) == Requests(p.agent.log) + |ws|
                     && Versions(q.agent.log) == Versions(p.agent.log))
    decreases |ws|
  {
    if ws != [] {
      EarlyAnswer(p, cluster, certOnly, ws[0].writeOk);
      var q := Exchange(p, cluster, certOnly, ws[0]);
      if q.agent.status.Looping? {
        EarlyAnswersSteerCall(q, cluster, certOnly, ws[1..]);
      } else {
        assert Exchanges(q, cluster, certOnly, ws[1..]) == q;
      }
    }
  }

  /** The plan lags behind an upgrade. */
  predicate Lagging(cluster: Cluster, node: Node) {
    && EarlyExit(cluster, Some(node)).None? && !node.nonWorker && cluster.upgrading
    && node.plan.Some? && node.plan.value.version != cluster.nodeVersion
    && node.appliedVersion != cluster.nodeVersion
  }

  /** One request, and one plan without a version. */
  function LaggingLog(node: Node): seq<Event>
    requires node.plan.Some?
  {
    [Asked(0, false), Executed(NodeConfig(0, 35, node.plan.value.kubeletCerts), true, false)]
  }

  lemma LaggingExchange(cluster: Cluster, node: Node, certOnly: bool)
    requires Lagging(cluster, node)
    ensures var q := Exchange(Pair(Start(false), node), cluster, certOnly, Clear(true));
            && q.node == WithInterval(node)
            && q.agent.status == Returned(35, false)
            && q.agent.log == LaggingLog(node)
  {
    var p := Pair(Start(false), node);
    var turn := TurnIn(p, cluster, Clear(true));
    assert turn.answer == Received(NodeConfig(0, 35, node.plan.value.kubeletCerts));
    StepOutcome(p.agent, certOnly, turn);
  }

  lemma OneExchange(p: Pair, cluster: Cluster, certOnly: bool, ws: seq<Weather>)
    requires p.agent.status.Looping? && ws != []
    requires !Exchange(p, cluster, certOnly, ws[0]).agent.status.Looping?
    ensures Exchanges(p, cluster, certOnly, ws) == Exchange(p, cluster, certOnly, ws[0])
  {
    var q := Exchange(p, cluster, certOnly, ws[0]);
    assert Exchanges(q, cluster, certOnly, ws[1..]) == q;
  }

  /** While the plan lags behind an upgrade, a call makes one request, executes one plan without
      a version, and returns the short interval, which it has stored; a later call answers
      the same and changes nothing. */
  lemma UpgradeIntervalSettles(cluster: Cluster, node: Node, certOnly: bool, ws: seq<Weather>, certOnly': bool, ws': seq<Weather>)
    requires Lagging(cluster, node)
    requires ws != [] && ws[0] == Clear(true) && ws' != [] && ws'[0] == Clear(true)
    ensures var q := Exchanges(Pair(Start(false), node), cluster, certOnly, ws);
            var q' := Exchanges(Pair(Start(false), q.node), cluster, certOnly', ws');
            && q.node == WithInterval(node) == q'.node
            && q.agent.status == Returned(35, false) == q'.agent.status
            && q.agent.log == LaggingLog(node) == q'.agent.log
  {
    LaggingExchange(cluster, node, certOnly);
    OneExchange(Pair(Start(false), node), cluster, certOnly, ws);
    LaggingExchange(cluster, WithInterval(node), certOnly');
    OneExchange(Pair(Start(false), WithInterval(node)), cluster, certOnly', ws');
  }
}
