/** The agent half of the worker upgrade handshake: one call of the loop that
    asks for a configuration, renews kubelet certificates, executes the plan
    and reports the version back. */
module NodeAgent {
  import opened NodeServer

  /** What one request yields: an error, an error that says the node or cluster is
      unknown, no configuration yet, or a configuration. */
  datatype Answer = Failed | NotFound | NotReady | Received(config: NodeConfig)

  datatype CertCheck = Fresh | Stale | Unreadable

  /** Everything outside the agent that one turn of the loop depends on. */
  datatype Turn = Turn(answer: Answer, cert: CertCheck, planOk: bool, paramsOk: bool)

  datatype Event =
    | Asked(version: int, regenerate: bool)
    | Missed
    | Renewed
    | Executed(config: NodeConfig, ok: bool, regenerate: bool)

  datatype Status = Looping | Returned(interval: int, failed: bool)

  /** The variables of one call, with what it has done so far. */
  datatype Agent = Agent(
    retries: int,
    interval: int,
    renewing: bool,
    regenerate: bool,
    version: int,
    status: Status,
    log: seq<Event>)

  /** Reading a response: 503 means wait, 404 means go on with an empty configuration. */
  function Interpret(response: Response): (a: Answer)
  {
    match response
    case Lost => Failed
    case Garbled => Failed
    case Ok(config) => Received(config)
    case Status(code, missing) =>
      if code == 503 then NotReady
      else if code == 404 then Received(NodeConfig(0, 0, false))
      else if missing then NotFound
      else Failed
  }

  /** A call starts with the caller's header, which carries no node version. */
  function Start(regenerate: bool): Agent {
    Agent(3, DEFAULT_INTERVAL, false, regenerate, 0, Looping, [])
  }

  predicate ChecksCert(config: NodeConfig) {
    config.kubeletCerts
  }

  /** The configuration of this turn goes on to be executed. */
  predicate Executes(a: Agent, turn: Turn) {
    && a.status.Looping?
    && turn.answer.Received?
    && (ChecksCert(turn.answer.config) ==> !turn.cert.Unreadable? && (turn.cert.Fresh? || a.renewing))
  }

  /** What happens in a turn after its request: nothing more, or one event. */
  function Happened(a: Agent, turn: Turn): seq<Event> {
    match turn.answer
    case Failed => []
    case NotReady => []
    case NotFound => [Missed]
    case Received(config) =>
      if Executes(a, turn) then [Executed(config, turn.planOk, false)]
      else if turn.cert.Unreadable? then [] else [Renewed]
  }

  /** The variables after a turn of the loop, apart from the log. */
  function Next(a: Agent, certOnly: bool, turn: Turn): Agent
    requires a.status.Looping?
  {
    match turn.answer
    case Failed => a
    case NotReady => a
    case NotFound =>
      if a.retries < 1 then a.(status := Returned(a.interval, true))
      else a.(retries := a.retries - 1)
    case Received(config) =>
      if ChecksCert(config) && turn.cert.Unreadable? then
        a.(status := Returned(a.interval, true))
      else if ChecksCert(config) && turn.cert.Stale? && !a.renewing then
        a.(regenerate := true, renewing := true)
      else
        var interval := if config.checkInterval != 0 then config.checkInterval else a.interval;
        var ran := a.(regenerate := false, renewing := false, interval := interval);
        if !turn.planOk then ran.(status := Returned(interval, true))
        else if config.nodeVersion != 0 && !certOnly then
          if turn.paramsOk then ran.(version := config.nodeVersion)
          else ran.(status := Returned(interval, true))
        else ran.(status := Returned(interval, false))
  }

  /** One turn of the loop. */
  function Step(a: Agent, certOnly: bool, turn: Turn): Agent {
    if !a.status.Looping? then a
    else Next(a, certOnly, turn).(log := a.log + ([Asked(a.version, a.regenerate)] + Happened(a, turn)))
  }

  /** The call after the turns so far. */
  function Run(a: Agent, certOnly: bool, turns: seq<Turn>): Agent {
    if turns == [] then a
    else Step(Run(a, certOnly, turns[..|turns| - 1]), certOnly, turns[|turns| - 1])
  }

  /** Once the call has returned, later answers change nothing. */
  lemma {:induction false} StaysReturned(a: Agent, certOnly: bool, turns: seq<Turn>, i: nat)
    requires i <= |turns|
    requires !Run(a, certOnly, turns[..i]).status.Looping?
    ensures Run(a, certOnly, turns) == Run(a, certOnly, turns[..i])
    decreases |turns|
  {
    if i < |turns| {
      assert turns[..|turns| - 1][..i] == turns[..i];
      StaysReturned(a, certOnly, turns[..|turns| - 1], i);
    } else {
      assert turns[..i] == turns;
    }
  }

  /** The body of the loop: one turn of a call that has not returned. */
  method TakeTurn(a: Agent, certOnly: bool, turn: Turn) returns (b: Agent)
    requires a.status.Looping?
    ensures b == Step(a, certOnly, turn)
  {
    var asked := [Asked(a.version, a.regenerate)];
    assert asked + [] == asked;
    match turn.answer {
      case Failed => b := a.(log := a.log + asked);
      case NotReady => b := a.(log := a.log + asked);
      case NotFound =>
        b := a.(log := a.log + (asked + [Missed]));
        if b.retries < 1 {
          return b.(status := Returned(b.interval, true));
        }
        b := b.(retries := b.retries - 1);
      case Received(config) =>
        if ChecksCert(config) {
          if turn.cert.Unreadable? {
            return a.(log := a.log + asked, status := Returned(a.interval, true));
          }
          if turn.cert.Stale? && !a.renewing {
            return a.(regenerate := true, log := a.log + (asked + [Renewed]), renewing := true);
          }
        }
        b := a.(regenerate := false, renewing := false);
        if config.checkInterval != 0 {
          b := b.(interval := config.checkInterval);
        }
        b := b.(log := a.log + (asked + [Executed(config, turn.planOk, b.regenerate)]));
        if !turn.planOk {
          return b.(status := Returned(b.interval, true));
        }
        if config.nodeVersion != 0 && !certOnly {
          if !turn.paramsOk {
            return b.(status := Returned(b.interval, true));
          }
          return b.(version := config.nodeVersion);
        }
        b := b.(status := Returned(b.interval, false));
    }
  }

  /** The loop itself, over the turns the outside world has answered so far. */
  method ConfigClient(certOnly: bool, headerRegenerate: bool, turns: seq<Turn>) returns (a: Agent)
    ensures a == Run(Start(headerRegenerate), certOnly, turns)
  {
    a := Agent(3, DEFAULT_INTERVAL, false, headerRegenerate, 0, Looping, []);
    var i := 0;
    while i < |turns|
      invariant 0 <= i <= |turns|
      invariant a == Run(Start(headerRegenerate), certOnly, turns[..i]) && a.status.Looping?
    {
      assert turns[..i + 1][..i] == turns[..i];
      a := TakeTurn(a, certOnly, turns[i]);
      i := i + 1;
      if a.status.Returned? {
        StaysReturned(Start(headerRegenerate), certOnly, turns, i);
        return;
      }
    }
    assert turns[..i] == turns;
  }

  function Misses(log: seq<Event>): nat {
    if log == [] then 0
    else Misses(log[..|log| - 1]) + if log[|log| - 1].Missed? then 1 else 0
  }

  /** The interval the call reports: the last non-zero one accepted for execution. */
  function LastInterval(log: seq<Event>): int {
    if log == [] then DEFAULT_INTERVAL
    else
      var e := log[|log| - 1];
      if e.Executed? && e.config.checkInterval != 0 then e.config.checkInterval
      else LastInterval(log[..|log| - 1])
  }

  /** A renewal request not yet followed by an execution. */
  predicate RenewalOpen(log: seq<Event>) {
    log != [] &&
    var e := log[|log| - 1];
    e.Renewed? || (!e.Executed? && RenewalOpen(log[..|log| - 1]))
  }

  /** No renewal is requested while one is open, and no plan runs with the header set. */
  predicate Orderly(log: seq<Event>) {
    log == [] ||
    (var rest, e := log[..|log| - 1], log[|log| - 1];
     && Orderly(rest)
     && (e.Renewed? ==> !RenewalOpen(rest))
     && (e.Executed? ==> !e.regenerate))
  }

  /** What a log satisfies after some turns, by its own shape. */
  ghost predicate LogFits(log: seq<Event>, interval: int, renewing: bool, misses: int) {
    && Orderly(log)
    && interval == LastInterval(log) != 0
    && renewing == RenewalOpen(log)
    && misses == Misses(log)
  }

  /** What every turn keeps. */
  ghost predicate Bounded(a: Agent) {
    match a.status
    case Looping => a.retries >= 0 && LogFits(a.log, a.interval, a.renewing, 3 - a.retries)
    case Returned(interval, _) =>
      && interval == a.interval
      && a.log != []
      && LogFits(a.log, a.interval, RenewalOpen(a.log), Misses(a.log))
      && (Misses(a.log) <= 3 || (Misses(a.log) == 4 && a.log[|a.log| - 1].Missed?))
  }

  lemma LogFitsGrown(log: seq<Event>, interval: int, renewing: bool, misses: int, e: Event)
    requires LogFits(log, interval, renewing, misses)
    requires e.Renewed? ==> !renewing
    requires e.Executed? ==> !e.regenerate
    ensures LogFits(log + [e],
                    if e.Executed? && e.config.checkInterval != 0 then e.config.checkInterval else interval,
                    e.Renewed? || (!e.Executed? && renewing),
                    misses + (if e.Missed? then 1 else 0))
  {
    assert (log + [e])[..|log|] == log;
  }

  /** The log after a turn: a request, and perhaps one more event. */
  lemma TurnFits(log: seq<Event>, interval: int, renewing: bool, misses: int, asked: Event, rest: seq<Event>)
    requires LogFits(log, interval, renewing, misses) && asked.Asked?
    requires |rest| <= 1 && (rest != [] ==> (rest[0].Renewed? ==> !renewing) && (rest[0].Executed? ==> !rest[0].regenerate))
    ensures LogFits(log + ([asked] + rest),
                    if rest != [] && rest[0].Executed? && rest[0].config.checkInterval != 0
                    then rest[0].config.checkInterval else interval,
                    if rest == [] then renewing else rest[0].Renewed? || (!rest[0].Executed? && renewing),
                    misses + (if rest != [] && rest[0].Missed? then 1 else 0))
  {
    LogFitsGrown(log, interval, renewing, misses, asked);
    if rest == [] {
      assert log + ([asked] + rest) == log + [asked];
    } else {
      LogFitsGrown(log + [asked], interval, renewing, misses, rest[0]);
      assert log + ([asked] + rest) == log + [asked] + [rest[0]];
    }
  }

  /** How the variables after a turn go with what happened in it. */
  lemma NextFollows(a: Agent, certOnly: bool, turn: Turn)
    requires a.status.Looping?
    ensures var n, rest := Next(a, certOnly, turn), Happened(a, turn);
            && (rest != [] && rest[0].Renewed? ==> !a.renewing) && (rest != [] && rest[0].Executed? ==> !rest[0].regenerate)
            && n.interval == (if rest != [] && rest[0].Executed? && rest[0].config.checkInterval != 0
                              then rest[0].config.checkInterval else a.interval)
            && n.renewing == (if rest == [] then a.renewing else rest[0].Renewed? || (!rest[0].Executed? && a.renewing))
            && (if n.status.Looping? then n.retries == a.retries - (if rest != [] && rest[0].Missed? then 1 else 0)
                else n.status.interval == n.interval)
            && (rest != [] && rest[0].Missed? ==> (n.status.Looping? <==> a.retries >= 1))
  {
  }

  /** The bounds, from the shape of the log and the variables. */
  lemma BoundedByFit(b: Agent, misses: int)
    requires b.log != [] && LogFits(b.log, b.interval, b.renewing, misses)
    requires b.status.Looping? ==> b.retries >= 0 && misses == 3 - b.retries
    requires b.status.Returned? ==> b.status.interval == b.interval
    requires b.status.Returned? ==> misses <= 3 || (misses == 4 && b.log[|b.log| - 1].Missed?)
    ensures Bounded(b)
  {
  }

  lemma StepKeepsBounds(a: Agent, certOnly: bool, turn: Turn)
    requires Bounded(a)
    ensures Bounded(Step(a, certOnly, turn))
  {
    if a.status.Looping? {
      var rest, asked, b := Happened(a, turn), Asked(a.version, a.regenerate), Step(a, certOnly, turn);
      NextFollows(a, certOnly, turn);
      TurnFits(a.log, a.interval, a.renewing, 3 - a.retries, asked, rest);
      assert b.log[|b.log| - 1] == if rest == [] then asked else rest[0];
      BoundedByFit(b, 3 - a.retries + if rest != [] && rest[0].Missed? then 1 else 0);
    }
  }

  lemma {:induction false} RunKeepsBounds(certOnly: bool, headerRegenerate: bool, turns: seq<Turn>)
    ensures Bounded(Run(Start(headerRegenerate), certOnly, turns))
  {
    if turns != [] {
      RunKeepsBounds(certOnly, headerRegenerate, turns[..|turns| - 1]);
      StepKeepsBounds(Run(Start(headerRegenerate), certOnly, turns[..|turns| - 1]), certOnly, turns[|turns| - 1]);
    }
  }

  /** An orderly log has an execution between any two renewal requests. */
  lemma {:induction false} RenewalsAreSeparated(log: seq<Event>, i: nat, j: nat) returns (k: nat)
    requires Orderly(log) && i < j <= |log| && log[i].Renewed?
    requires j == |log| ==> !RenewalOpen(log)
    requires j < |log| ==> log[j].Renewed?
    ensures i < k < j && log[k].Executed?
    decreases |log|
  {
    var rest := log[..|log| - 1];
    if j < |log| - 1 {
      k := RenewalsAreSeparated(rest, i, j);
    } else if j == |log| && log[j - 1].Executed? {
      k := j - 1;
    } else {
      k := RenewalsAreSeparated(rest, i, |rest|);
    }
  }

  lemma {:induction false} OrderlyThroughout(log: seq<Event>, i: nat)
    requires Orderly(log) && i < |log| && log[i].Executed?
    ensures !log[i].regenerate
    decreases |log|
  {
    if i < |log| - 1 {
      OrderlyThroughout(log[..|log| - 1], i);
    }
  }

  /** The bounds of the loop, over every call and every pattern of answers: at most
      one renewal request per executed plan, the renewal header off whenever a plan
      runs, a return at the fourth not-found answer and never a fifth, and an
      interval that is the last non-zero one accepted (120 when there is none). */
  lemma LoopBounds(certOnly: bool, headerRegenerate: bool, turns: seq<Turn>)
    ensures var a := Run(Start(headerRegenerate), certOnly, turns);
            && (forall i, j :: 0 <= i < j < |a.log| && a.log[i].Renewed? && a.log[j].Renewed? ==>
                  exists k :: i < k < j && a.log[k].Executed?)
            && (forall i :: 0 <= i < |a.log| && a.log[i].Executed? ==> !a.log[i].regenerate)
            && (a.status.Looping? ==> Misses(a.log) <= 3)
            && Misses(a.log) <= 4
            && (Misses(a.log) == 4 ==> a.status.Returned? && a.log[|a.log| - 1].Missed?)
            && (a.status.Returned? ==> a.status.interval == LastInterval(a.log) != 0)
  {
    RunKeepsBounds(certOnly, headerRegenerate, turns);
    var log := Run(Start(headerRegenerate), certOnly, turns).log;
    forall i, j | 0 <= i < j < |log| && log[i].Renewed? && log[j].Renewed?
      ensures exists k :: i < k < j && log[k].Executed?
    {
      var k := RenewalsAreSeparated(log, i, j);
    }
    forall i | 0 <= i < |log| && log[i].Executed?
      ensures !log[i].regenerate
    {
      OrderlyThroughout(log, i);
    }
  }

  function Renewals(log: seq<Event>): nat {
    if log == [] then 0
    else Renewals(log[..|log| - 1]) + if log[|log| - 1].Renewed? then 1 else 0
  }

  lemma TurnRenews(log: seq<Event>, asked: Event, rest: seq<Event>)
    requires asked.Asked? && |rest| <= 1
    ensures Renewals(log + ([asked] + rest)) == Renewals(log) + if rest != [] && rest[0].Renewed? then 1 else 0
  {
    assert (log + [asked])[..|log|] == log;
    if rest == [] {
      assert log + ([asked] + rest) == log + [asked];
    } else {
      assert (log + ([asked] + rest))[..|log| + 1] == log + [asked];
    }
  }

  /** A renewal is counted when the turn opens one. */
  lemma RenewalsOfStep(a: Agent, certOnly: bool, turn: Turn)
    requires a.status.Looping?
    ensures var b := Step(a, certOnly, turn);
            Renewals(b.log) == Renewals(a.log) + if !a.renewing && b.renewing then 1 else 0
  {
    TurnRenews(a.log, Asked(a.version, a.regenerate), Happened(a, turn));
  }

  /** At most one renewal so far, and in a call that goes on one exactly when it is open. */
  predicate RenewedOnce(a: Agent) {
    Renewals(a.log) <= 1 && (a.status.Looping? ==> Renewals(a.log) == if a.renewing then 1 else 0)
  }

  /** A call for certificates only never goes on after a plan, so it renews at most once,
      counted from its start or from any point of it. */
  lemma {:induction false} CertificateCallRenewsOnce(a: Agent, turns: seq<Turn>)
    requires RenewedOnce(a)
    ensures RenewedOnce(Run(a, true, turns))
  {
    if turns != [] {
      CertificateCallRenewsOnce(a, turns[..|turns| - 1]);
      var b := Run(a, true, turns[..|turns| - 1]);
      if b.status.Looping? {
        RenewalsOfStep(b, true, turns[|turns| - 1]);
      }
    }
  }

  /** A stale certificate and the plan of an upgrade: the turn opens a renewal, or executes the
      plan and goes on if one is open. */
  lemma StaleTurn(a: Agent, turn: Turn)
    requires a.status.Looping? && turn.answer.Received? && turn.cert.Stale? && turn.planOk && turn.paramsOk
    requires turn.answer.config.kubeletCerts && turn.answer.config.nodeVersion != 0
    ensures var b := Step(a, false, turn);
            && b.status.Looping? && b.renewing == !a.renewing
            && Renewals(b.log) == Renewals(a.log) + if a.renewing then 0 else 1
  {
    RenewalsOfStep(a, false, turn);
  }

  lemma RunOneMore(a: Agent, certOnly: bool, turns: seq<Turn>, turn: Turn)
    ensures Run(a, certOnly, turns + [turn]) == Step(Run(a, certOnly, turns), certOnly, turn)
  {
    assert (turns + [turn])[..|turns|] == turns;
  }

  lemma ThreeStaleTurns(a: Agent, turn: Turn)
    requires a.status.Looping? && !a.renewing
    requires turn.answer.Received? && turn.cert.Stale? && turn.planOk && turn.paramsOk
    requires turn.answer.config.kubeletCerts && turn.answer.config.nodeVersion != 0
    ensures Renewals(Run(a, false, [] + [turn] + [turn] + [turn]).log) == Renewals(a.log) + 2
  {
    RunOneMore(a, false, [], turn);
    RunOneMore(a, false, [] + [turn], turn);
    RunOneMore(a, false, [] + [turn] + [turn], turn);
    StaleTurn(a, turn);
    StaleTurn(Step(a, false, turn), turn);
    StaleTurn(Step(Step(a, false, turn), false, turn), turn);
  }

  /** Another call may renew again after each plan it executes and reports: here the plan of an
      upgrade comes between two stale certificates. */
  lemma UpgradeCallRenewsTwice(headerRegenerate: bool, config: NodeConfig) returns (turns: seq<Turn>)
    requires config.kubeletCerts && config.nodeVersion != 0
    ensures Renewals(Run(Start(headerRegenerate), false, turns).log) == 2
  {
    var turn := Turn(Received(config), Stale, true, true);
    turns := [] + [turn] + [turn] + [turn];
    ThreeStaleTurns(Start(headerRegenerate), turn);
  }

  /** At most one renewal request per call, whatever the answers, is a promise that holds
      exactly for calls that only write certificates. */
  lemma OneRenewalExactlyWhen(certOnly: bool, headerRegenerate: bool)
    ensures (forall turns :: Renewals(Run(Start(headerRegenerate), certOnly, turns).log) <= 1) <==> certOnly
  {
    if certOnly {
      forall turns ensures Renewals(Run(Start(headerRegenerate), certOnly, turns).log) <= 1 {
        CertificateCallRenewsOnce(Start(headerRegenerate), turns);
      }
    } else {
      var turns := UpgradeCallRenewsTwice(headerRegenerate, NodeConfig(1, 0, true));
      assert Renewals(Run(Start(headerRegenerate), certOnly, turns).log) == 2;
    }
  }

  /** The renewal header after this log: on after a renewal request, off after an executed plan,
      and the caller's before either. */
  function HeaderAfter(header: bool, log: seq<Event>): bool {
    if log == [] then header
    else
      var e := log[|log| - 1];
      if e.Renewed? then true else if e.Executed? then false else HeaderAfter(header, log[..|log| - 1])
  }

  /** The version of the last plan executed without error, 0 when there is none. */
  function VersionAfter(log: seq<Event>): int {
    if log == [] then 0
    else
      var e := log[|log| - 1];
      if e.Executed? && e.ok then e.config.nodeVersion else VersionAfter(log[..|log| - 1])
  }

  /** Every request carries the header and the version that the log before it calls for. */
  predicate Truthful(header: bool, log: seq<Event>) {
    forall i :: 0 <= i < |log| && log[i].Asked? ==>
      log[i].regenerate == HeaderAfter(header, log[..i]) && log[i].version == VersionAfter(log[..i])
  }

  /** The variables of a call that goes on are what its log calls for. */
  predicate Remembers(header: bool, a: Agent) {
    && Truthful(header, a.log)
    && (a.status.Looping? ==>
          && a.regenerate == HeaderAfter(header, a.log) && a.version == VersionAfter(a.log)
          && a.renewing == RenewalOpen(a.log) && a.retries == 3 - Misses(a.log))
  }

  lemma TruthfulGrown(header: bool, log: seq<Event>, e: Event)
    requires Truthful(header, log)
    requires e.Asked? ==> e.regenerate == HeaderAfter(header, log) && e.version == VersionAfter(log)
    ensures Truthful(header, log + [e])
  {
    var longer := log + [e];
    assert longer[..|log|] == log;
    forall i | 0 <= i < |longer| && longer[i].Asked?
      ensures longer[i].regenerate == HeaderAfter(header, longer[..i]) && longer[i].version == VersionAfter(longer[..i])
    {
      assert i < |log| ==> longer[..i] == log[..i];
    }
  }

  lemma AfterGrown(header: bool, log: seq<Event>, e: Event)
    ensures HeaderAfter(header, log + [e])
         == if e.Renewed? then true else if e.Executed? then false else HeaderAfter(header, log)
    ensures VersionAfter(log + [e]) == if e.Executed? && e.ok then e.config.nodeVersion else VersionAfter(log)
    ensures RenewalOpen(log + [e]) == (e.Renewed? || (!e.Executed? && RenewalOpen(log)))
    ensures Misses(log + [e]) == Misses(log) + if e.Missed? then 1 else 0
  {
    assert (log + [e])[..|log|] == log;
  }

  /** What one turn does to a log: a request with what the log calls for, and then nothing, or
      the event that the answer and the log call for. */
  function Reaction(log: seq<Event>, turn: Turn): seq<Event> {
    match turn.answer
    case Failed => []
    case NotReady => []
    case NotFound => [Missed]
    case Received(config) =>
      if !config.kubeletCerts || turn.cert.Fresh? then [Executed(config, turn.planOk, false)]
      else if turn.cert.Unreadable? then []
      else if RenewalOpen(log) then [Executed(config, turn.planOk, false)]
      else [Renewed]
  }

  /** Whether the call returns after the turn, and whether with an error. */
  function Verdict(log: seq<Event>, certOnly: bool, turn: Turn): Status {
    match turn.answer
    case Failed => Looping
    case NotReady => Looping
    case NotFound => if Misses(log) == 3 then Returned(LastInterval(log), true) else Looping
    case Received(config) =>
      var interval := if config.checkInterval != 0 then config.checkInterval else LastInterval(log);
      if config.kubeletCerts && turn.cert.Unreadable? then Returned(LastInterval(log), true)
      else if config.kubeletCerts && turn.cert.Stale? && !RenewalOpen(log) then Looping
      else if !turn.planOk then Returned(interval, true)
      else if config.nodeVersion == 0 || certOnly then Returned(interval, false)
      else if turn.paramsOk then Looping
      else Returned(interval, true)
  }

  lemma ReactionIsHappened(header: bool, a: Agent, certOnly: bool, turn: Turn)
    requires Remembers(header, a) && Bounded(a) && a.status.Looping?
    ensures Happened(a, turn) == Reaction(a.log, turn)
    ensures Next(a, certOnly, turn).status == Verdict(a.log, certOnly, turn)
  {
  }

  lemma NextRemembers(a: Agent, certOnly: bool, turn: Turn)
    requires a.status.Looping?
    ensures var n, rest := Next(a, certOnly, turn), Happened(a, turn);
            n.status.Looping? ==>
              && n.regenerate == (if rest == [] then a.regenerate
                                  else rest[0].Renewed? || (!rest[0].Executed? && a.regenerate))
              && n.version == (if rest != [] && rest[0].Executed? && rest[0].ok then rest[0].config.nodeVersion else a.version)
              && n.renewing == (if rest == [] then a.renewing else rest[0].Renewed? || (!rest[0].Executed? && a.renewing))
              && n.retries == a.retries - if rest != [] && rest[0].Missed? then 1 else 0
  {
  }

  /** The log after a turn whose request carries what the log calls for. */
  lemma TurnTruthful(header: bool, log: seq<Event>, asked: Event, rest: seq<Event>)
    requires Truthful(header, log) && |rest| <= 1 && (rest != [] ==> !rest[0].Asked?)
    requires asked == Asked(VersionAfter(log), HeaderAfter(header, log))
    ensures var longer := log + ([asked] + rest);
            && Truthful(header, longer)
            && HeaderAfter(header, longer)
               == (if rest == [] then asked.regenerate else rest[0].Renewed? || (!rest[0].Executed? && asked.regenerate))
            && VersionAfter(longer)
               == (if rest != [] && rest[0].Executed? && rest[0].ok then rest[0].config.nodeVersion else asked.version)
            && RenewalOpen(longer)
               == (if rest == [] then RenewalOpen(log) else rest[0].Renewed? || (!rest[0].Executed? && RenewalOpen(log)))
            && Misses(longer) == Misses(log) + if rest != [] && rest[0].Missed? then 1 else 0
  {
    TruthfulGrown(header, log, asked);
    AfterGrown(header, log, asked);
    if rest == [] {
      assert log + ([asked] + rest) == log + [asked];
    } else {
      TruthfulGrown(header, log + [asked], rest[0]);
      AfterGrown(header, log + [asked], rest[0]);
      assert log + ([asked] + rest) == log + [asked] + [rest[0]];
    }
  }

  lemma StepRemembers(header: bool, a: Agent, certOnly: bool, turn: Turn)
    requires Remembers(header, a) && a.status.Looping?
    ensures Remembers(header, Step(a, certOnly, turn))
  {
    NextRemembers(a, certOnly, turn);
    TurnTruthful(header, a.log, Asked(a.version, a.regenerate), Happened(a, turn));
  }

  lemma {:induction false} RunRemembers(certOnly: bool, header: bool, turns: seq<Turn>)
    ensures Remembers(header, Run(Start(header), certOnly, turns))
  {
    if turns != [] {
      RunRemembers(certOnly, header, turns[..|turns| - 1]);
      var a := Run(Start(header), certOnly, turns[..|turns| - 1]);
      if a.status.Looping? {
        StepRemembers(header, a, certOnly, turns[|turns| - 1]);
      }
    }
  }

  /** What the requests of a call carry, for every kind of call, header and pattern of answers:
      the renewal header is on if the last renewal request or executed plan before is a
      renewal request, off if it is a plan, and the caller's before either; the version is
      that of the last plan executed without error, 0 when there is none. */
  lemma RequestsCarry(certOnly: bool, header: bool, turns: seq<Turn>, i: nat)
    requires var log := Run(Start(header), certOnly, turns).log; i < |log| && log[i].Asked?
    ensures var log := Run(Start(header), certOnly, turns).log;
            log[i].regenerate == HeaderAfter(header, log[..i]) && log[i].version == VersionAfter(log[..i])
  {
    RunRemembers(certOnly, header, turns);
  }

  /** One more answer to a call that goes on, in terms of its log alone: the request it sends,
      what happens, whether the call returns, with which interval and with an error or not. */
  lemma TurnExactly(certOnly: bool, header: bool, turns: seq<Turn>, turn: Turn)
    requires Run(Start(header), certOnly, turns).status.Looping?
    ensures var log, b := Run(Start(header), certOnly, turns).log, Run(Start(header), certOnly, turns + [turn]);
            && b.log == log + ([Asked(VersionAfter(log), HeaderAfter(header, log))] + Reaction(log, turn))
            && b.status == Verdict(log, certOnly, turn)
  {
    RunRemembers(certOnly, header, turns);
    RunKeepsBounds(certOnly, header, turns);
    RunOneMore(Start(header), certOnly, turns, turn);
    ReactionIsHappened(header, Run(Start(header), certOnly, turns), certOnly, turn);
  }

  /** The answer to a response that is neither 404 nor 503 nor a configuration, whose body says, if
      `missing`, that the node or the cluster is unknown. */
  ghost predicate IsError(answer: Answer, missing: bool) {
    exists code :: code != 404 && code != 503 && answer == Interpret(Response.Status(code, missing))
  }

  /** A call that is told each time that its node or cluster is unknown gives up at the fourth
      answer, and one that only meets other errors goes on asking, whatever their codes. */
  lemma {:induction false} ErrorsSteerCall(certOnly: bool, header: bool, turns: seq<Turn>, missing: bool)
    requires forall i :: 0 <= i < |turns| ==> IsError(turns[i].answer, missing)
    ensures var a := Run(Start(header), certOnly, turns);
            if !missing then a == Start(header).(log := a.log)
            else if |turns| < 4 then a == Start(header).(retries := 3 - |turns|, log := a.log)
            else a.status == Returned(120, true)
    decreases |turns|
  {
    if turns != [] {
      ErrorsSteerCall(certOnly, header, turns[..|turns| - 1], missing);
      assert IsError(turns[|turns| - 1].answer, missing);
    }
  }
}
