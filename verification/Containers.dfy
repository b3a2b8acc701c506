/** Reconciling the containers of one process on a worker: whatever was there under its
    labels before, one container is left. */
module Containers {
  import opened Options
  import opened Text

  datatype Status = Running | Exited(code: int) | Created

  /** A container: what Docker calls it, its process name under the current and under the former
      label, if it has them, what Docker records about its process, and whether it runs. */
  datatype Container = Container(
    called: string,
    name: Option<string>,
    formerName: Option<string>,
    spec: string,
    status: Status)

  type Host = map<string, Container>

  /** The ids listed for a process: by the current label, then by the former one. */
  ghost predicate IsListing(host: Host, name: string, ids: seq<string>, formerIds: seq<string>) {
    && Distinct(ids) && Distinct(formerIds)
    && (forall id :: id in ids <==> id in host && host[id].name == Some(name))
    && (forall id :: id in formerIds <==> id in host && host[id].formerName == Some(name))
  }

  /** The containers of a process. */
  function Owned(host: Host, name: string): set<string> {
    set id | id in host && (host[id].name == Some(name) || host[id].formerName == Some(name))
  }

  /** No container carries both labels of the process. */
  predicate LabelsDisjoint(host: Host, name: string) {
    forall id :: id in host ==> !(host[id].name == Some(name) && host[id].formerName == Some(name))
  }

  /** The desired process: when a recorded spec differs from it, what Docker will record for
      it, and whether its container is one that need not be running. */
  datatype Process = Process(changed: string -> bool, spec: string, isShareMount: bool, isSidekick: bool)

  /** How making a new container goes: not at all, or up to its start, or to the end. */
  datatype Creation = CreateFails | StartFails | AllGoes

  /** How linking to the log of a container goes: up to inspecting that container, up to creating
      the log linker, up to a linker that stays behind because its start, its work or its
      removal fails, or to the end. */
  datatype Linking = NoInspect | NoLinker | Stays(spec: string, status: Status) | Links

  /** The answers of Docker: the ids for which comparing, removing, restarting, inspecting and
      starting fail, how making and linking a container go, and the ids that a new container
      and a new log linker get. */
  datatype Daemon = Daemon(
    noCompare: set<string>,
    noRemove: set<string>,
    noRestart: set<string>,
    noInspect: set<string>,
    noStart: set<string>,
    creation: Creation,
    linking: Linking,
    freshId: string,
    linkerId: string)

  predicate Fresh(host: Host, d: Daemon) {
    d.freshId !in host && d.linkerId !in host && d.freshId != d.linkerId
  }

  const LOG_LINKER := "rke-log-linker"

  /** What the log linker of a process is called. */
  function LinkerName(name: string): (linker: string)
    ensures |linker| > |name|
  {
    LOG_LINKER + "-" + name
  }

  /** The containers that are called so; Docker sees to it that it is one at most. */
  function Called(host: Host, called: string): set<string> {
    set id | id in host && host[id].called == called
  }

  /** The listed containers that do not differ. */
  function Matches(host: Host, p: Process, listed: seq<string>): seq<string> {
    if listed == [] then []
    else
      var last := listed[|listed| - 1];
      Matches(host, p, listed[..|listed| - 1]) +
      if last in host && !p.changed(host[last].spec) then [last] else []
  }

  /** One container's turn in the first loop: it is removed if it differs, and restarted if it
      does not and that is asked for. One that is not there any more is an error. */
  function SortedOne(h: Host, d: Daemon, p: Process, id: string, forceRestart: bool): (Host, bool) {
    if id !in h || id in d.noCompare then (h, false)
    else if p.changed(h[id].spec) then (if id in d.noRemove then (h, false) else (h - {id}, true))
    else if forceRestart then
      (if id in d.noRestart then (h, false) else (h[id := h[id].(status := Running)], true))
    else (h, true)
  }

  /** The first loop. */
  function SortedOut(host: Host, d: Daemon, p: Process, listed: seq<string>, forceRestart: bool): (Host, bool) {
    if listed == [] then (host, true)
    else
      var (h, ok) := SortedOut(host, d, p, listed[..|listed| - 1], forceRestart);
      if !ok then (h, false) else SortedOne(h, d, p, listed[|listed| - 1], forceRestart)
  }

  /** The second loop: containers are removed one after another, up to an error. */
  function RemovedAll(host: Host, d: Daemon, ids: seq<string>): (Host, bool) {
    if ids == [] then (host, true)
    else
      var (h, ok) := RemovedAll(host, d, ids[..|ids| - 1]);
      var id := ids[|ids| - 1];
      if !ok || id !in h || id in d.noRemove then (h, false) else (h - {id}, true)
  }

  /** The container needs no start: a mount helper that has finished, a volume holder, or one
      that is running. */
  predicate Settled(p: Process, status: Status) {
    (p.isShareMount && status == Exited(0)) || p.isSidekick || status == Running
  }

  function LeftLinker(name: string, d: Daemon): Container
    requires d.linking.Stays?
  {
    Container(LinkerName(name), None, None, d.linking.spec, d.linking.status)
  }

  /** Linking to the log: a linker of that name is removed, if Docker lets it go, and another is
      made, which removes itself when it is done. */
  function Linked(h: Host, name: string, d: Daemon): (Host, bool) {
    if d.linking.NoInspect? || Called(h, name) == {} then (h, false)
    else
      var left := h - (Called(h, LinkerName(name)) - d.noRemove);
      if d.linking.NoLinker? || Called(left, LinkerName(name)) != {} then (left, false)
      else if d.linking.Stays? then (left[d.linkerId := LeftLinker(name, d)], false)
      else (left, true)
  }

  /** The new container, if Docker makes it. */
  function Make(name: string, d: Daemon, p: Process, start: bool): Container {
    Container(name, Some(name), None, p.spec, if start && !d.creation.StartFails? then Running else Created)
  }

  /** Without a match: create a container, unless another one is called so, start it if asked
      for, and link to its log unless it is the mount helper. */
  function MadeNew(h: Host, name: string, d: Daemon, p: Process, start: bool): (Host, bool) {
    if d.creation.CreateFails? || Called(h, name) != {} then (h, false)
    else
      var made := h[d.freshId := Make(name, d, p, start)];
      if !start then (made, true)
      else if d.creation.StartFails? then (made, false)
      else if p.isShareMount then (made, true)
      else Linked(made, name, d)
  }

  /** With a match: it is kept, and started and linked if it needs a start. Whether starting and
      linking succeed is not looked at. */
  function Continued(h: Host, name: string, d: Daemon, p: Process, id: string): (Host, bool) {
    if id !in h || id in d.noInspect then (h, false)
    else if Settled(p, h[id].status) then (h, true)
    else
      var started := if id in d.noStart then h else h[id := h[id].(status := Running)];
      (if p.isShareMount then started else Linked(started, name, d).0, true)
  }

  function Finished(h: Host, name: string, d: Daemon, p: Process, matched: seq<string>, start: bool): (Host, bool) {
    if matched == [] then MadeNew(h, name, d, p, start) else Continued(h, name, d, p, matched[0])
  }

  /** The whole reconciliation: the host after it, and whether it succeeded. */
  function Reconciled(host: Host, name: string, d: Daemon, p: Process, listed: seq<string>,
                      start: bool, forceRestart: bool): (Host, bool)
  {
    var (h, ok) := SortedOut(host, d, p, listed, forceRestart);
    if !ok then (h, false)
    else
      var matched := Matches(host, p, listed);
      var (h, ok) := RemovedAll(h, d, if matched == [] then [] else matched[1..]);
      if !ok then (h, false) else Finished(h, name, d, p, matched, start)
  }

  lemma {:induction false} SortingStops(host: Host, d: Daemon, p: Process, listed: seq<string>, forceRestart: bool, i: nat)
    requires i <= |listed| && !SortedOut(host, d, p, listed[..i], forceRestart).1
    ensures SortedOut(host, d, p, listed, forceRestart) == SortedOut(host, d, p, listed[..i], forceRestart)
    decreases |listed|
  {
    if i < |listed| {
      assert listed[..|listed| - 1][..i] == listed[..i];
      SortingStops(host, d, p, listed[..|listed| - 1], forceRestart, i);
    } else {
      assert listed[..i] == listed;
    }
  }

  lemma {:induction false} RemovingStops(host: Host, d: Daemon, ids: seq<string>, i: nat)
    requires i <= |ids| && !RemovedAll(host, d, ids[..i]).1
    ensures RemovedAll(host, d, ids) == RemovedAll(host, d, ids[..i])
    decreases |ids|
  {
    if i < |ids| {
      assert ids[..|ids| - 1][..i] == ids[..i];
      RemovingStops(host, d, ids[..|ids| - 1], i);
    } else {
      assert ids[..i] == ids;
    }
  }

  /** `h` is `host` without some containers, the status of some others changed, and only the
      given ids concerned. */
  ghost predicate Touched(host: Host, ids: seq<string>, h: Host) {
    && h.Keys <= host.Keys
    && (forall id :: id in h ==> h[id] == host[id].(status := h[id].status))
    && (forall id :: id in host && id !in ids ==> id in h && h[id] == host[id])
  }

  /** The first loop only removes containers that differ and changes the status of others. */
  lemma {:induction false} SortingTouches(host: Host, d: Daemon, p: Process, listed: seq<string>, forceRestart: bool)
    ensures var h := SortedOut(host, d, p, listed, forceRestart).0;
            && Touched(host, listed, h)
            && forall id :: id in host && !p.changed(host[id].spec) ==> id in h
    decreases |listed|
  {
    if listed != [] {
      SortingTouches(host, d, p, listed[..|listed| - 1], forceRestart);
      assert listed == listed[..|listed| - 1] + [listed[|listed| - 1]];
    }
  }

  lemma {:induction false} RemovingTouches(host: Host, d: Daemon, ids: seq<string>)
    ensures Touched(host, ids, RemovedAll(host, d, ids).0)
    decreases |ids|
  {
    if ids != [] {
      RemovingTouches(host, d, ids[..|ids| - 1]);
      assert ids == ids[..|ids| - 1] + [ids[|ids| - 1]];
    }
  }

  class Docker {
    var host: Host
    const answers: Daemon

    constructor (host: Host, answers: Daemon)
      ensures this.host == host && this.answers == answers
    {
      this.host, this.answers := host, answers;
    }

    /** Removing a container that is not there is an error. */
    method Remove(id: string) returns (ok: bool)
      modifies this
      ensures ok == (id in old(host) && id !in answers.noRemove)
      ensures host == if ok then old(host) - {id} else old(host)
    {
      ok := id in host && id !in answers.noRemove;
      if ok {
        host := host - {id};
      }
    }

    method Restart(id: string) returns (ok: bool)
      requires id in host
      modifies this
      ensures ok == (id !in answers.noRestart)
      ensures host == if ok then old(host)[id := old(host)[id].(status := Running)] else old(host)
    {
      ok := id !in answers.noRestart;
      if ok {
        host := host[id := host[id].(status := Running)];
      }
    }

    method SortOut(p: Process, listed: seq<string>, forceRestart: bool) returns (ok: bool, matched: seq<string>)
      modifies this
      ensures (host, ok) == SortedOut(old(host), answers, p, listed, forceRestart)
      ensures ok ==> matched == Matches(old(host), p, listed)
    {
      matched := [];
      ok := true;
      var i := 0;
      while i < |listed|
        invariant 0 <= i <= |listed| && ok
        invariant matched == Matches(old(host), p, listed[..i])
        invariant (host, true) == SortedOut(old(host), answers, p, listed[..i], forceRestart)
      {
        assert listed[..i + 1][..i] == listed[..i];
        SortingTouches(old(host), answers, p, listed[..i], forceRestart);
        var id := listed[i];
        i := i + 1;
        ok := id in host && id !in answers.noCompare;
        if ok {
          if p.changed(host[id].spec) {
            ok := Remove(id);
          } else {
            matched := matched + [id];
            if forceRestart {
              ok := Restart(id);
            }
          }
        }
        if !ok {
          SortingStops(old(host), answers, p, listed, forceRestart, i);
          return;
        }
      }
      assert listed[..i] == listed;
    }

    method RemoveAll(ids: seq<string>) returns (ok: bool)
      modifies this
      ensures (host, ok) == RemovedAll(old(host), answers, ids)
    {
      ok := true;
      var i := 0;
      while i < |ids|
        invariant 0 <= i <= |ids| && ok
        invariant (host, true) == RemovedAll(old(host), answers, ids[..i])
      {
        assert ids[..i + 1][..i] == ids[..i];
        ok := Remove(ids[i]);
        i := i + 1;
        if !ok {
          RemovingStops(old(host), answers, ids, i);
          return;
        }
      }
      assert ids[..i] == ids;
    }

    /** Links to the log of the container that is called `name`. */
    method RunLogLinker(name: string) returns (ok: bool)
      modifies this
      ensures (host, ok) == Linked(old(host), name, answers)
    {
      if answers.linking.NoInspect? || Called(host, name) == {} {
        return false;
      }
      host := host - (Called(host, LinkerName(name)) - answers.noRemove);
      if answers.linking.NoLinker? || Called(host, LinkerName(name)) != {} {
        return false;
      }
      if answers.linking.Stays? {
        host := host[answers.linkerId := LeftLinker(name, answers)];
        return false;
      }
      return true;
    }

    method KeepMatch(name: string, p: Process, id: string) returns (ok: bool)
      modifies this
      ensures (host, ok) == Continued(old(host), name, answers, p, id)
    {
      if id !in host || id in answers.noInspect {
        return false;
      }
      var inspected := host[id].status;
      if p.isShareMount && inspected == Exited(0) {
        return true;
      }
      if p.isSidekick || inspected == Running {
        return true;
      }
      if id !in answers.noStart {
        host := host[id := host[id].(status := Running)];
      }
      if !p.isShareMount {
        var linked := RunLogLinker(name);
      }
      return true;
    }

    method MakeContainer(name: string, p: Process, start: bool) returns (ok: bool)
      modifies this
      ensures (host, ok) == MadeNew(old(host), name, answers, p, start)
    {
      if answers.creation.CreateFails? || Called(host, name) != {} {
        return false;
      }
      var id := answers.freshId;
      host := host[id := Container(name, Some(name), None, p.spec, Created)];
      if !start {
        return true;
      }
      if answers.creation.StartFails? {
        return false;
      }
      host := host[id := host[id].(status := Running)];
      assert host == old(host)[id := Make(name, answers, p, start)];
      if p.isShareMount {
        return true;
      }
      ok := RunLogLinker(name);
    }

    method RunProcess(name: string, p: Process, ids: seq<string>, formerIds: seq<string>, start: bool, forceRestart: bool)
      returns (ok: bool)
      requires IsListing(host, name, ids, formerIds) && Fresh(host, answers)
      modifies this
      ensures (host, ok) == Reconciled(old(host), name, answers, p, ids + formerIds, start, forceRestart)
    {
      var matched;
      ok, matched := SortOut(p, ids + formerIds, forceRestart);
      if !ok {
        return;
      }
      ok := RemoveAll(if matched == [] then [] else matched[1..]);
      if !ok {
        return;
      }
      if |matched| > 0 {
        ok := KeepMatch(name, p, matched[0]);
      } else {
        ok := MakeContainer(name, p, start);
      }
    }
  }

  /** The first loop gets through a container without an error. */
  predicate Passes(host: Host, d: Daemon, p: Process, id: string, forceRestart: bool) {
    && id in host && id !in d.noCompare
    && (if p.changed(host[id].spec) then id !in d.noRemove else forceRestart ==> id !in d.noRestart)
  }

  predicate AllPass(host: Host, d: Daemon, p: Process, listed: seq<string>, forceRestart: bool) {
    forall i :: 0 <= i < |listed| ==> Passes(host, d, p, listed[i], forceRestart)
  }

  /** The host without the listed containers that differ. */
  function Kept(host: Host, p: Process, listed: seq<string>, forceRestart: bool): Host {
    map id | id in host && !(id in listed && p.changed(host[id].spec)) ::
      if forceRestart && id in listed then host[id].(status := Running) else host[id]
  }

  lemma KeptGrows(host: Host, p: Process, listed: seq<string>, id: string, forceRestart: bool)
    requires id in host && id !in listed
    ensures id in Kept(host, p, listed, forceRestart) && Kept(host, p, listed, forceRestart)[id] == host[id]
    ensures var h := Kept(host, p, listed, forceRestart);
            Kept(host, p, listed + [id], forceRestart)
            == if p.changed(host[id].spec) then h - {id}
               else if forceRestart then h[id := h[id].(status := Running)] else h
  {
  }

  /** Over a list without repeats the first loop succeeds exactly when every container passes,
      and then removes exactly the containers that differ. */
  lemma {:induction false} SortedOutExactly(host: Host, d: Daemon, p: Process, listed: seq<string>, forceRestart: bool)
    requires Distinct(listed) && forall i :: 0 <= i < |listed| ==> listed[i] in host
    ensures SortedOut(host, d, p, listed, forceRestart).1 <==> AllPass(host, d, p, listed, forceRestart)
    ensures AllPass(host, d, p, listed, forceRestart) ==>
              SortedOut(host, d, p, listed, forceRestart).0 == Kept(host, p, listed, forceRestart)
    decreases |listed|
  {
    if listed == [] {
      assert Kept(host, p, listed, forceRestart) == host;
    } else {
      var rest, last := listed[..|listed| - 1], listed[|listed| - 1];
      SortedOutExactly(host, d, p, rest, forceRestart);
      assert listed == rest + [last];
      assert last !in rest;
      assert AllPass(host, d, p, listed, forceRestart) <==>
             AllPass(host, d, p, rest, forceRestart) && Passes(host, d, p, last, forceRestart);
      KeptGrows(host, p, rest, last, forceRestart);
    }
  }

  lemma {:induction false} RemovedAllExactly(host: Host, d: Daemon, ids: seq<string>)
    requires Distinct(ids) && forall i :: 0 <= i < |ids| ==> ids[i] in host
    ensures RemovedAll(host, d, ids).1 <==> Elements(ids) !! d.noRemove
    ensures Elements(ids) !! d.noRemove ==> RemovedAll(host, d, ids).0 == host - Elements(ids)
    decreases |ids|
  {
    if ids == [] {
      assert host - Elements(ids) == host;
    } else {
      var rest, last := ids[..|ids| - 1], ids[|ids| - 1];
      RemovedAllExactly(host, d, rest);
      assert ids == rest + [last];
      assert last !in rest;
      assert Elements(ids) == Elements(rest) + {last};
      assert host - Elements(ids) == (host - Elements(rest)) - {last};
    }
  }

  lemma {:induction false} MatchesExactly(host: Host, p: Process, listed: seq<string>)
    ensures Distinct(listed) ==> Distinct(Matches(host, p, listed))
    ensures forall id :: id in Matches(host, p, listed) <==> id in listed && id in host && !p.changed(host[id].spec)
    decreases |listed|
  {
    if listed != [] {
      MatchesExactly(host, p, listed[..|listed| - 1]);
      assert listed == listed[..|listed| - 1] + [listed[|listed| - 1]];
    }
  }

  /** The container that is left: the first listed one that does not differ, or a new one. */
  function Survivor(host: Host, p: Process, listed: seq<string>, freshId: string): string {
    if listed == [] then freshId
    else if listed[0] in host && !p.changed(host[listed[0]].spec) then listed[0]
    else Survivor(host, p, listed[1..], freshId)
  }

  lemma {:induction false} MatchesFromFront(host: Host, p: Process, listed: seq<string>)
    requires listed != []
    ensures Matches(host, p, listed)
         == (if listed[0] in host && !p.changed(host[listed[0]].spec) then [listed[0]] else []) +
            Matches(host, p, listed[1..])
    decreases |listed|
  {
    if |listed| > 1 {
      var rest := listed[..|listed| - 1];
      MatchesFromFront(host, p, rest);
      assert listed[1..][..|listed| - 2] == rest[1..];
    }
  }

  lemma {:induction false} SurvivorIsFirstMatch(host: Host, p: Process, listed: seq<string>, freshId: string)
    ensures var matched := Matches(host, p, listed);
            Survivor(host, p, listed, freshId) == if matched == [] then freshId else matched[0]
    decreases |listed|
  {
    if listed != [] {
      MatchesFromFront(host, p, listed);
      SurvivorIsFirstMatch(host, p, listed[1..], freshId);
    }
  }

  /** Making a container on this host succeeds: no other is called so, it starts if asked to,
      and then its log is linked, which needs every linker of that name to go. */
  predicate MakingGoes(h: Host, name: string, d: Daemon, p: Process, start: bool) {
    && !d.creation.CreateFails? && Called(h, name) == {}
    && (start ==>
          && !d.creation.StartFails?
          && (p.isShareMount || (d.linking.Links? && Called(h, LinkerName(name)) * d.noRemove == {})))
  }

  /** Docker does not stand in the way: every listed container passes the first loop, the
      matches after the first can be removed, and the first can be inspected or, without a
      match, a container made on the host that is left. */
  predicate Obliges(host: Host, name: string, d: Daemon, p: Process, listed: seq<string>, start: bool, forceRestart: bool) {
    && AllPass(host, d, p, listed, forceRestart)
    && var matched := Matches(host, p, listed);
       if matched == [] then MakingGoes(host - Elements(listed), name, d, p, start)
       else Elements(matched[1..]) !! d.noRemove && matched[0] !in d.noInspect
  }

  /** Of the listed containers only the first match is left, with nothing but its status
      touched, and that only by a restart. */
  ghost predicate OnlyFirstMatchLeft(host: Host, listed: seq<string>, matched: seq<string>, forceRestart: bool, h: Host) {
    && (forall id :: id in h <==> id in host && (id !in listed || (matched != [] && id == matched[0])))
    && (forall id :: id in h && id !in listed ==> h[id] == host[id])
    && (matched != [] ==>
          && matched[0] in listed && matched[0] in h
          && h[matched[0]] == host[matched[0]].(status := h[matched[0]].status)
          && (if forceRestart then h[matched[0]].status == Running else h[matched[0]] == host[matched[0]]))
  }

  lemma MatchesAreKept(host: Host, p: Process, listed: seq<string>, forceRestart: bool)
    requires Distinct(listed) && Matches(host, p, listed) != []
    ensures var matched, kept := Matches(host, p, listed), Kept(host, p, listed, forceRestart);
            && Distinct(matched[1..]) && matched[0] !in matched[1..]
            && (forall id :: id in matched[1..] ==> id in matched)
            && (forall id :: id in matched ==> id == matched[0] || id in matched[1..])
            && (forall i :: 0 <= i < |matched[1..]| ==> matched[1..][i] in kept)
  {
    MatchesExactly(host, p, listed);
    var matched := Matches(host, p, listed);
    var rest := matched[1..];
    assert matched == [matched[0]] + rest;
    forall i | 0 <= i < |rest| ensures rest[i] in Kept(host, p, listed, forceRestart) { assert rest[i] in matched; }
  }

  lemma OnlyFirstKept(host: Host, p: Process, listed: seq<string>, forceRestart: bool)
    requires Distinct(listed) && Matches(host, p, listed) != []
    ensures var matched := Matches(host, p, listed);
            OnlyFirstMatchLeft(host, listed, matched, forceRestart,
                               Kept(host, p, listed, forceRestart) - Elements(matched[1..]))
  {
    MatchesExactly(host, p, listed);
    MatchesAreKept(host, p, listed, forceRestart);
    assert Matches(host, p, listed)[0] in Matches(host, p, listed);
  }

  /** Both loops, over a list without repeats: they succeed exactly when Docker lets them, and
      then only the first match is left of the list. */
  lemma AfterLoops(host: Host, d: Daemon, p: Process, listed: seq<string>, forceRestart: bool)
    requires Distinct(listed) && forall i :: 0 <= i < |listed| ==> listed[i] in host
    ensures var matched := Matches(host, p, listed);
            var rest := if matched == [] then [] else matched[1..];
            var (sorted, ok) := SortedOut(host, d, p, listed, forceRestart);
            var (h, ok') := RemovedAll(sorted, d, rest);
            && (ok && ok' <==> AllPass(host, d, p, listed, forceRestart) && Elements(rest) !! d.noRemove)
            && (ok && ok' ==> OnlyFirstMatchLeft(host, listed, matched, forceRestart, h))
  {
    SortedOutExactly(host, d, p, listed, forceRestart);
    var matched := Matches(host, p, listed);
    if AllPass(host, d, p, listed, forceRestart) {
      if matched == [] {
        MatchesExactly(host, p, listed);
        assert Elements([]) == {};
      } else {
        MatchesAreKept(host, p, listed, forceRestart);
        OnlyFirstKept(host, p, listed, forceRestart);
        RemovedAllExactly(Kept(host, p, listed, forceRestart), d, matched[1..]);
      }
    }
  }

  /** The survivor is linked to its log: it is new and started, or it needs a start. */
  predicate IsLinked(host: Host, p: Process, start: bool, forceRestart: bool, survivor: string) {
    !p.isShareMount &&
    if survivor in host then !forceRestart && !Settled(p, host[survivor].status) else start
  }

  /** The survivor is itself called like its log linker, and so removed when it is linked: for
      that some container that is not listed has to be called like the process. */
  predicate LostToLinker(host: Host, name: string, d: Daemon, p: Process, listed: seq<string>,
                         start: bool, forceRestart: bool, survivor: string)
  {
    && survivor in host && IsLinked(host, p, start, forceRestart, survivor)
    && host[survivor].called == LinkerName(name) && survivor !in d.noRemove
    && !d.linking.NoInspect? && Called(host - Elements(listed), name) != {}
  }

  /** Apart from the survivor and a log linker that stays behind, all containers are ones that
      were not listed, as they were; and of those only log linkers may be missing. */
  ghost predicate OthersLeft(host: Host, name: string, d: Daemon, listed: seq<string>, survivor: string, after: Host) {
    && (forall id :: id in after && id != survivor && id != d.linkerId ==>
          id in host && id !in listed && after[id] == host[id])
    && (forall id :: id in host && id !in listed && host[id].called != LinkerName(name) ==> id in after)
    && (d.linkerId in after ==> d.linking.Stays? && after[d.linkerId] == LeftLinker(name, d))
  }

  /** The survivor, which needs no start or whose start failed unnoticed, or which is new. */
  predicate SurvivorLeft(host: Host, name: string, d: Daemon, p: Process, start: bool, survivor: string, c: Container) {
    if survivor in host
    then c == host[survivor].(status := c.status) && (Settled(p, c.status) || survivor in d.noStart)
    else c == Container(name, Some(name), None, p.spec, if start then Running else Created)
  }

  /** What is left on the host. */
  ghost predicate Left(host: Host, name: string, d: Daemon, p: Process, listed: seq<string>, start: bool, forceRestart: bool,
                       survivor: string, after: Host)
  {
    && OthersLeft(host, name, d, listed, survivor, after)
    && (survivor in after <==> !LostToLinker(host, name, d, p, listed, start, forceRestart, survivor))
    && (survivor in after ==> SurvivorLeft(host, name, d, p, start, survivor, after[survivor]))
    && (!IsLinked(host, p, start, forceRestart, survivor) ==> after.Keys == host.Keys - Elements(listed) + {survivor})
    && (survivor !in host && IsLinked(host, p, start, forceRestart, survivor) ==> Called(after, LinkerName(name)) == {})
  }

  /** What linking does to a host. */
  lemma LinkTouches(h: Host, name: string, d: Daemon)
    requires d.linkerId !in h
    ensures var (t, ok) := Linked(h, name, d);
            && (forall id :: id in t && id != d.linkerId ==> id in h && t[id] == h[id])
            && (forall id :: id in h && h[id].called != LinkerName(name) ==> id in t)
            && (forall id :: id in h && h[id].called == LinkerName(name) ==>
                  (id in t <==> id in d.noRemove || d.linking.NoInspect? || Called(h, name) == {}))
            && (d.linkerId in t ==> d.linking.Stays? && t[d.linkerId] == LeftLinker(name, d))
            && (ok <==> d.linking.Links? && Called(h, name) != {} && Called(h, LinkerName(name)) * d.noRemove == {})
            && (ok ==> Called(t, LinkerName(name)) == {})
  {
    var left := h - (Called(h, LinkerName(name)) - d.noRemove);
    assert Called(left, LinkerName(name)) == Called(h, LinkerName(name)) * d.noRemove;
  }

  lemma CreatedIsLeft(host: Host, name: string, d: Daemon, p: Process, listed: seq<string>,
                      start: bool, forceRestart: bool, h: Host)
    requires Fresh(host, d) && (forall i :: 0 <= i < |listed| ==> listed[i] in host)
    requires h == host - Elements(listed)
    ensures var (after, ok) := MadeNew(h, name, d, p, start);
            && (ok <==> MakingGoes(h, name, d, p, start))
            && (ok ==> Left(host, name, d, p, listed, start, forceRestart, d.freshId, after))
  {
    var made := h[d.freshId := Make(name, d, p, start)];
    LinkTouches(made, name, d);
    assert d.freshId in Called(made, name);
    assert Called(made, LinkerName(name)) == Called(h, LinkerName(name));
  }

  /** A first match that is started and linked. */
  lemma StartedIsLinked(host: Host, name: string, d: Daemon, p: Process, listed: seq<string>,
                        start: bool, forceRestart: bool, matched: seq<string>, h: Host)
    requires Fresh(host, d) && forall i :: 0 <= i < |listed| ==> listed[i] in host
    requires matched != [] && OnlyFirstMatchLeft(host, listed, matched, forceRestart, h)
    requires !Settled(p, h[matched[0]].status) && !p.isShareMount
    ensures var started := if matched[0] in d.noStart then h else h[matched[0] := h[matched[0]].(status := Running)];
            Left(host, name, d, p, listed, start, forceRestart, matched[0], Linked(started, name, d).0)
  {
    var id := matched[0];
    assert id in host.Keys;
    var started := if id in d.noStart then h else h[id := h[id].(status := Running)];
    LinkTouches(started, name, d);
    assert host[id].called != name ==> Called(started, name) == Called(host - Elements(listed), name);
  }

  lemma FirstMatchIsLeft(host: Host, name: string, d: Daemon, p: Process, listed: seq<string>,
                         start: bool, forceRestart: bool, matched: seq<string>, h: Host)
    requires Fresh(host, d) && forall i :: 0 <= i < |listed| ==> listed[i] in host
    requires matched != [] && OnlyFirstMatchLeft(host, listed, matched, forceRestart, h) && matched[0] !in d.noInspect
    ensures Left(host, name, d, p, listed, start, forceRestart, matched[0], Continued(h, name, d, p, matched[0]).0)
  {
    var id := matched[0];
    assert id in host.Keys;
    assert h.Keys == host.Keys - Elements(listed) + {id};
    if !Settled(p, h[id].status) && !p.isShareMount {
      StartedIsLinked(host, name, d, p, listed, start, forceRestart, matched, h);
    }
  }

  /** Success, and what is left on the host then, in terms of the list. */
  lemma LeftOfListed(host: Host, name: string, d: Daemon, p: Process, listed: seq<string>, start: bool, forceRestart: bool)
    requires Distinct(listed) && forall i :: 0 <= i < |listed| ==> listed[i] in host
    requires Fresh(host, d)
    ensures var (after, ok) := Reconciled(host, name, d, p, listed, start, forceRestart);
            && (ok <==> Obliges(host, name, d, p, listed, start, forceRestart))
            && (ok ==> Left(host, name, d, p, listed, start, forceRestart, Survivor(host, p, listed, d.freshId), after))
  {
    AfterLoops(host, d, p, listed, forceRestart);
    SurvivorIsFirstMatch(host, p, listed, d.freshId);
    var matched := Matches(host, p, listed);
    var rest := if matched == [] then [] else matched[1..];
    assert Elements([]) == {};
    var (sorted, ok) := SortedOut(host, d, p, listed, forceRestart);
    var (h, ok') := RemovedAll(sorted, d, rest);
    if ok && ok' {
      if matched == [] {
        assert h == host - Elements(listed);
        CreatedIsLeft(host, name, d, p, listed, start, forceRestart, h);
      } else if matched[0] !in d.noInspect {
        FirstMatchIsLeft(host, name, d, p, listed, start, forceRestart, matched, h);
      }
    }
  }

  lemma ListedOnce(host: Host, name: string, ids: seq<string>, formerIds: seq<string>)
    requires IsListing(host, name, ids, formerIds)
    ensures Distinct(ids + formerIds) <==> LabelsDisjoint(host, name)
    ensures Elements(ids + formerIds) == Owned(host, name)
    ensures forall i :: 0 <= i < |ids + formerIds| ==> (ids + formerIds)[i] in host
  {
    var listed := ids + formerIds;
    forall id ensures id in listed <==> id in Owned(host, name) {
      assert id in listed <==> id in ids || id in formerIds;
    }
    forall i | 0 <= i < |listed| ensures listed[i] in host { assert listed[i] in listed; }
    if LabelsDisjoint(host, name) {
      forall i, j | 0 <= i < j < |listed| ensures listed[i] != listed[j] {
        if i < |ids| <= j {
          assert ids[i] in ids && formerIds[j - |ids|] in formerIds;
        }
      }
    } else {
      var id :| id in host && host[id].name == Some(name) && host[id].formerName == Some(name);
      var i :| 0 <= i < |ids| && ids[i] == id;
      var j :| 0 <= j < |formerIds| && formerIds[j] == id;
      assert listed[i] == listed[|ids| + j];
    }
  }

  lemma {:induction false} GoneOnceVisited(host: Host, d: Daemon, p: Process, listed: seq<string>, forceRestart: bool, i: nat)
    requires i < |listed| && listed[i] in host && p.changed(host[listed[i]].spec)
    requires SortedOut(host, d, p, listed, forceRestart).1
    ensures listed[i] !in SortedOut(host, d, p, listed, forceRestart).0
    decreases |listed|
  {
    var rest := listed[..|listed| - 1];
    SortingTouches(host, d, p, rest, forceRestart);
    if i < |rest| {
      GoneOnceVisited(host, d, p, rest, forceRestart, i);
    }
  }

  /** A container listed twice stops the first loop if it differs. */
  lemma {:induction false} ChangedTwiceFails(host: Host, d: Daemon, p: Process, listed: seq<string>, forceRestart: bool, i: nat, j: nat)
    requires i < j < |listed| && listed[i] == listed[j] && listed[i] in host && p.changed(host[listed[i]].spec)
    ensures !SortedOut(host, d, p, listed, forceRestart).1
    decreases |listed|
  {
    var rest := listed[..|listed| - 1];
    if j < |listed| - 1 {
      ChangedTwiceFails(host, d, p, rest, forceRestart, i, j);
    } else if SortedOut(host, d, p, rest, forceRestart).1 {
      GoneOnceVisited(host, d, p, rest, forceRestart, i);
    }
  }

  /** A container among those removed twice stops the second loop, and one removed that is
      also the first match is missing afterwards. */
  lemma {:induction false} RemovedIsGone(host: Host, d: Daemon, ids: seq<string>, i: nat)
    requires i < |ids| && RemovedAll(host, d, ids).1
    ensures ids[i] !in RemovedAll(host, d, ids).0
    ensures forall j :: i < j < |ids| ==> ids[j] != ids[i]
    decreases |ids|
  {
    if i < |ids| - 1 {
      RemovedIsGone(host, d, ids[..|ids| - 1], i);
    }
  }

  lemma {:induction false} MatchedTwice(host: Host, p: Process, listed: seq<string>, i: nat, j: nat) returns (k: nat, l: nat)
    requires i < j < |listed| && listed[i] == listed[j] && listed[i] in host && !p.changed(host[listed[i]].spec)
    ensures k < l < |Matches(host, p, listed)| && Matches(host, p, listed)[k] == Matches(host, p, listed)[l] == listed[i]
    decreases |listed|
  {
    var rest := listed[..|listed| - 1];
    if j < |listed| - 1 {
      k, l := MatchedTwice(host, p, rest, i, j);
    } else {
      MatchesExactly(host, p, rest);
      assert rest[i] in rest;
      k :| 0 <= k < |Matches(host, p, rest)| && Matches(host, p, rest)[k] == listed[i];
      l := |Matches(host, p, rest)|;
    }
  }

  lemma MatchedTwiceFails(host: Host, name: string, d: Daemon, p: Process, listed: seq<string>,
                          start: bool, forceRestart: bool, i: nat, j: nat)
    requires i < j < |listed| && listed[i] == listed[j] && listed[i] in host && !p.changed(host[listed[i]].spec)
    ensures !Reconciled(host, name, d, p, listed, start, forceRestart).1
  {
    var k, l := MatchedTwice(host, p, listed, i, j);
    var matched := Matches(host, p, listed);
    var (sorted, ok) := SortedOut(host, d, p, listed, forceRestart);
    var rest := matched[1..];
    if ok && RemovedAll(sorted, d, rest).1 {
      RemovedIsGone(sorted, d, rest, l - 1);
      if k > 0 {
        RemovedIsGone(sorted, d, rest, k - 1);
      }
    }
  }

  /** The reconciliation succeeds exactly when Docker obliges and no container carries both
      labels: such a container is listed twice, and its second turn finds it removed. */
  lemma SucceedsExactlyWhen(host: Host, name: string, d: Daemon, p: Process, ids: seq<string>, formerIds: seq<string>,
                            start: bool, forceRestart: bool)
    requires IsListing(host, name, ids, formerIds) && Fresh(host, d)
    ensures Reconciled(host, name, d, p, ids + formerIds, start, forceRestart).1 <==>
              LabelsDisjoint(host, name) && Obliges(host, name, d, p, ids + formerIds, start, forceRestart)
  {
    var listed := ids + formerIds;
    ListedOnce(host, name, ids, formerIds);
    if LabelsDisjoint(host, name) {
      LeftOfListed(host, name, d, p, listed, start, forceRestart);
    } else {
      var i, j :| 0 <= i < j < |listed| && listed[i] == listed[j];
      if p.changed(host[listed[i]].spec) {
        ChangedTwiceFails(host, d, p, listed, forceRestart, i, j);
      } else {
        MatchedTwiceFails(host, name, d, p, listed, start, forceRestart, i, j);
      }
    }
  }

  lemma OwnedAfter(host: Host, name: string, d: Daemon, p: Process, ids: seq<string>, formerIds: seq<string>,
                   start: bool, forceRestart: bool, survivor: string, after: Host)
    requires IsListing(host, name, ids, formerIds) && LabelsDisjoint(host, name) && Fresh(host, d)
    requires survivor == d.freshId || survivor in ids + formerIds
    requires Left(host, name, d, p, ids + formerIds, start, forceRestart, survivor, after)
    ensures Owned(after, name) == if survivor in after then {survivor} else {}
    ensures LabelsDisjoint(after, name)
  {
    var listed := ids + formerIds;
    forall id | id in after && id != survivor ensures after[id].name != Some(name) && after[id].formerName != Some(name) {
      if id != d.linkerId {
        assert id !in ids && id !in formerIds by {
          assert id in ids || id in formerIds ==> id in listed;
        }
      }
    }
    if survivor in after && survivor in host {
      assert survivor in ids || survivor in formerIds;
    }
  }

  lemma {:induction false} SurvivorMatches(host: Host, p: Process, listed: seq<string>, freshId: string)
    requires freshId !in host
    ensures var survivor := Survivor(host, p, listed, freshId);
            if survivor in host then survivor in listed && !p.changed(host[survivor].spec) else survivor == freshId
  {
    if listed != [] {
      SurvivorMatches(host, p, listed[1..], freshId);
    }
  }

  /** What every successful run leaves. Of the containers of the process there is exactly one,
      the first listed one that does not differ or else a new one, unless that is called
      like its log linker and lost by linking. Of the other containers only log linkers of
      the process may be missing or new, and only when the survivor is linked; all the rest
      is as it was. */
  lemma OneContainerIsLeft(host: Host, name: string, d: Daemon, p: Process, ids: seq<string>, formerIds: seq<string>,
                           start: bool, forceRestart: bool)
    requires IsListing(host, name, ids, formerIds) && Fresh(host, d)
    requires Reconciled(host, name, d, p, ids + formerIds, start, forceRestart).1
    ensures var after := Reconciled(host, name, d, p, ids + formerIds, start, forceRestart).0;
            var survivor := Survivor(host, p, ids + formerIds, d.freshId);
            && Left(host, name, d, p, ids + formerIds, start, forceRestart, survivor, after)
            && Owned(after, name) == (if LostToLinker(host, name, d, p, ids + formerIds, start, forceRestart, survivor)
                                      then {} else {survivor})
            && LabelsDisjoint(after, name)
            && Elements(ids + formerIds) == Owned(host, name)
  {
    var after := Reconciled(host, name, d, p, ids + formerIds, start, forceRestart).0;
    SucceedsExactlyWhen(host, name, d, p, ids, formerIds, start, forceRestart);
    ListedOnce(host, name, ids, formerIds);
    LeftOfListed(host, name, d, p, ids + formerIds, start, forceRestart);
    SurvivorMatches(host, p, ids + formerIds, d.freshId);
    OwnedAfter(host, name, d, p, ids, formerIds, start, forceRestart, Survivor(host, p, ids + formerIds, d.freshId), after);
  }

  /** A list with a container in it that does not differ: it is the survivor if it is alone. */
  lemma SoleMatch(host: Host, p: Process, listed: seq<string>, freshId: string, survivor: string)
    requires Distinct(listed) && Elements(listed) == {survivor} && survivor in host
    requires !p.changed(host[survivor].spec)
    ensures listed == [survivor] && Matches(host, p, listed) == [survivor]
    ensures Survivor(host, p, listed, freshId) == survivor
  {
    assert forall i :: 0 <= i < |listed| ==> listed[i] in Elements(listed);
    assert survivor in Elements(listed);
    var last := |listed| - 1;
    assert listed[0] == survivor == listed[last];
    assert last == 0 && listed[..0] == [];
  }

  /** Only log linkers of the process are removed or made, and only the status of `id` changes. */
  ghost predicate OnlyRestarted(host: Host, name: string, d: Daemon, id: string, after: Host) {
    && (forall k :: k in host && host[k].called != LinkerName(name) ==> k in after)
    && (forall k :: k in after && k != d.linkerId ==>
          k in host && (if k == id then after[k] == host[k].(status := after[k].status) else after[k] == host[k]))
    && (d.linkerId in after ==> d.linking.Stays? && after[d.linkerId] == LeftLinker(name, d))
  }

  lemma LoopsOnOne(host: Host, d: Daemon, p: Process, id: string)
    requires id in host && !p.changed(host[id].spec)
    ensures SortedOut(host, d, p, [id], false) == (host, id !in d.noCompare)
    ensures Matches(host, p, [id]) == [id] && [id][1..] == []
    ensures RemovedAll(host, d, []) == (host, true)
  {
    assert [id][..0] == [];
    assert SortedOut(host, d, p, [], false) == (host, true);
    assert SortedOut(host, d, p, [id], false) == SortedOne(host, d, p, id, false);
    assert Matches(host, p, []) == [];
  }

  lemma RunOnOne(host: Host, name: string, d: Daemon, p: Process, start: bool, id: string)
    requires id in host && !p.changed(host[id].spec)
    ensures Reconciled(host, name, d, p, [id], start, false)
         == if id in d.noCompare then (host, false) else Continued(host, name, d, p, id)
  {
    LoopsOnOne(host, d, p, id);
  }

  lemma ContinuedRestarts(host: Host, name: string, d: Daemon, p: Process, id: string)
    requires id in host && Fresh(host, d)
    ensures var (after, ok) := Continued(host, name, d, p, id);
            && (ok <==> id !in d.noInspect)
            && OnlyRestarted(host, name, d, id, after)
            && (Settled(p, host[id].status) || p.isShareMount ==> after.Keys == host.Keys)
            && (Settled(p, host[id].status) ==> after == host)
  {
    var started := if id in d.noStart then host else host[id := host[id].(status := Running)];
    LinkTouches(started, name, d);
  }

  /** A run on a host with one container of the process, which does not differ: it succeeds
      exactly when Docker compares and inspects that container; apart from log linkers of
      the process it removes and creates nothing, and it changes nothing at all if the
      container is settled. */
  lemma RunOnSettledHost(host: Host, name: string, d: Daemon, p: Process, ids: seq<string>, formerIds: seq<string>,
                         start: bool, survivor: string)
    requires IsListing(host, name, ids, formerIds) && LabelsDisjoint(host, name) && Fresh(host, d)
    requires Owned(host, name) == {survivor} && !p.changed(host[survivor].spec)
    ensures var (after, ok) := Reconciled(host, name, d, p, ids + formerIds, start, false);
            && (ok <==> survivor !in d.noCompare + d.noInspect)
            && (ok ==> OnlyRestarted(host, name, d, survivor, after))
            && (ok && (Settled(p, host[survivor].status) || p.isShareMount) ==> after.Keys == host.Keys)
            && (ok && Settled(p, host[survivor].status) ==> after == host)
  {
    ListedOnce(host, name, ids, formerIds);
    assert survivor in Owned(host, name);
    SoleMatch(host, p, ids + formerIds, d.freshId, survivor);
    RunOnOne(host, name, d, p, start, survivor);
    ContinuedRestarts(host, name, d, p, survivor);
  }

  /** A second run, on the host a successful first run has left, for a process that does not
      differ from what Docker records for it, if the survivor was not lost by linking:
      whatever Docker answered before, it succeeds exactly when the survivor is compared
      and inspected; apart from log linkers it removes and creates nothing, and it changes
      nothing at all if the survivor is settled. */
  lemma SecondRunChangesNothing(host: Host, name: string, d: Daemon, p: Process, ids: seq<string>, formerIds: seq<string>,
                                start: bool, forceRestart: bool,
                                d': Daemon, ids': seq<string>, formerIds': seq<string>, start': bool)
    requires IsListing(host, name, ids, formerIds) && Fresh(host, d) && !p.changed(p.spec)
    requires Reconciled(host, name, d, p, ids + formerIds, start, forceRestart).1
    requires !LostToLinker(host, name, d, p, ids + formerIds, start, forceRestart, Survivor(host, p, ids + formerIds, d.freshId))
    requires var after := Reconciled(host, name, d, p, ids + formerIds, start, forceRestart).0;
             IsListing(after, name, ids', formerIds') && Fresh(after, d')
    ensures var after := Reconciled(host, name, d, p, ids + formerIds, start, forceRestart).0;
            var survivor := Survivor(host, p, ids + formerIds, d.freshId);
            var (again, ok) := Reconciled(after, name, d', p, ids' + formerIds', start', false);
            && survivor in after
            && (ok <==> survivor !in d'.noCompare + d'.noInspect)
            && (ok ==> OnlyRestarted(after, name, d', survivor, again))
            && (ok && (Settled(p, after[survivor].status) || p.isShareMount) ==> again.Keys == after.Keys)
            && (ok && Settled(p, after[survivor].status) ==> again == after)
  {
    var after := Reconciled(host, name, d, p, ids + formerIds, start, forceRestart).0;
    var survivor := Survivor(host, p, ids + formerIds, d.freshId);
    OneContainerIsLeft(host, name, d, p, ids, formerIds, start, forceRestart);
    SurvivorMatches(host, p, ids + formerIds, d.freshId);
    RunOnSettledHost(after, name, d', p, ids', formerIds', start', survivor);
  }

  /** The host after both loops, wherever they stopped. */
  function AfterBoth(host: Host, d: Daemon, p: Process, listed: seq<string>, forceRestart: bool): Host {
    var matched := Matches(host, p, listed);
    RemovedAll(SortedOut(host, d, p, listed, forceRestart).0, d, if matched == [] then [] else matched[1..]).0
  }

  lemma LoopsTouch(host: Host, d: Daemon, p: Process, listed: seq<string>, forceRestart: bool)
    ensures Touched(host, listed, AfterBoth(host, d, p, listed, forceRestart))
  {
    var matched := Matches(host, p, listed);
    var rest := if matched == [] then [] else matched[1..];
    var sorted := SortedOut(host, d, p, listed, forceRestart).0;
    SortingTouches(host, d, p, listed, forceRestart);
    RemovingTouches(sorted, d, rest);
    MatchesExactly(host, p, listed);
    forall id | id in rest ensures id in listed { assert id in matched; }
  }

  /** The last part, wherever it stops. */
  lemma FinishTouches(h: Host, name: string, d: Daemon, p: Process, matched: seq<string>, start: bool)
    requires Fresh(h, d)
    ensures var after := Finished(h, name, d, p, matched, start).0;
            && after.Keys <= h.Keys + {d.freshId, d.linkerId}
            && (forall id :: id in h && h[id].called != LinkerName(name) ==> id in after)
            && (forall id :: id in h && id in after && id !in matched ==> after[id] == h[id])
            && (d.linkerId in after ==> d.linking.Stays? && after[d.linkerId] == LeftLinker(name, d))
  {
    if matched == [] {
      LinkTouches(h[d.freshId := Make(name, d, p, start)], name, d);
    } else if matched[0] in h {
      var id := matched[0];
      LinkTouches(if id in d.noStart then h else h[id := h[id].(status := Running)], name, d);
    }
  }

  /** A run stops in the first loop, in the second, or in the last part. */
  lemma StopsSomewhere(host: Host, name: string, d: Daemon, p: Process, listed: seq<string>, start: bool, forceRestart: bool)
    ensures var after := Reconciled(host, name, d, p, listed, start, forceRestart).0;
            var both := AfterBoth(host, d, p, listed, forceRestart);
            || after == SortedOut(host, d, p, listed, forceRestart).0
            || after == both
            || after == Finished(both, name, d, p, Matches(host, p, listed), start).0
  {
  }

  lemma FirstMatchStays(host: Host, d: Daemon, p: Process, listed: seq<string>, forceRestart: bool)
    ensures var matched := Matches(host, p, listed);
            matched != [] ==>
              && matched[0] in SortedOut(host, d, p, listed, forceRestart).0
              && (Distinct(listed) ==> matched[0] in AfterBoth(host, d, p, listed, forceRestart))
  {
    var matched := Matches(host, p, listed);
    if matched != [] {
      MatchesExactly(host, p, listed);
      assert matched[0] in matched;
      SortingTouches(host, d, p, listed, forceRestart);
      RemovingTouches(SortedOut(host, d, p, listed, forceRestart).0, d, matched[1..]);
    }
  }

  /** Safety, whatever Docker answers and wherever the run stops: of the containers of other
      processes only log linkers of this one may go, and none is changed; at most the new
      container and a log linker appear; and with disjoint labels the first container that
      does not differ is not removed unless it is called like a log linker. */
  lemma WhateverFails(host: Host, name: string, d: Daemon, p: Process, ids: seq<string>, formerIds: seq<string>,
                      start: bool, forceRestart: bool)
    requires IsListing(host, name, ids, formerIds) && Fresh(host, d)
    ensures var after := Reconciled(host, name, d, p, ids + formerIds, start, forceRestart).0;
            var survivor := Survivor(host, p, ids + formerIds, d.freshId);
            && after.Keys <= host.Keys + {d.freshId, d.linkerId}
            && (d.linkerId in after ==> d.linking.Stays? && after[d.linkerId] == LeftLinker(name, d))
            && (forall id :: id in host && id !in Owned(host, name) ==>
                  && (host[id].called != LinkerName(name) ==> id in after)
                  && (id in after ==> after[id] == host[id]))
            && (LabelsDisjoint(host, name) && survivor in host && host[survivor].called != LinkerName(name) ==>
                  survivor in after)
  {
    var listed := ids + formerIds;
    ListedOnce(host, name, ids, formerIds);
    SurvivorIsFirstMatch(host, p, listed, d.freshId);
    SortingTouches(host, d, p, listed, forceRestart);
    LoopsTouch(host, d, p, listed, forceRestart);
    FirstMatchStays(host, d, p, listed, forceRestart);
    FinishTouches(AfterBoth(host, d, p, listed, forceRestart), name, d, p, Matches(host, p, listed), start);
    StopsSomewhere(host, name, d, p, listed, start, forceRestart);
    MatchesExactly(host, p, listed);
    forall id | id in host && id !in Owned(host, name) ensures id !in listed { assert id !in Elements(listed); }
  }

  /** For example, a container with both labels, alone on the host, whatever Docker answers. */
  lemma BothLabelsFail(id: string, c: Container, name: string, d: Daemon, p: Process, start: bool, forceRestart: bool)
    requires c.name == c.formerName == Some(name) && Fresh(map[id := c], d)
    ensures IsListing(map[id := c], name, [id], [id])
    ensures !Reconciled(map[id := c], name, d, p, [id] + [id], start, forceRestart).1
  {
    var host: Host := map[id := c];
    SucceedsExactlyWhen(host, name, d, p, [id], [id], start, forceRestart);
    assert id in host && !LabelsDisjoint(host, name);
  }

  /** A survivor is lost to its linker, for example, when it is stopped and called like it, and
      another container is called like the process: the run succeeds and leaves none. */
  lemma LinkerMayTakeSurvivor(id: string, c: Container, other: string, o: Container, name: string, d: Daemon, p: Process, start: bool)
    requires c.called == LinkerName(name) && c.name == Some(name) && c.formerName == None
    requires !p.changed(c.spec) && !Settled(p, c.status) && !p.isShareMount
    requires o.called == name && o.name == o.formerName == None && id != other
    requires Fresh(map[id := c, other := o], d) && d.linking.Links? && id !in d.noCompare + d.noInspect + d.noRemove
    ensures var host: Host := map[id := c, other := o];
            var (after, ok) := Reconciled(host, name, d, p, [id] + [], start, false);
            IsListing(host, name, [id], []) && ok && Owned(after, name) == {}
  {
    var host: Host := map[id := c, other := o];
    assert IsListing(host, name, [id], []);
    assert LabelsDisjoint(host, name);
    var listed := [id] + [];
    assert listed == [id] && Elements(listed) == {id};
    SoleMatch(host, p, listed, d.freshId, id);
    RunOnOne(host, name, d, p, start, id);
    ContinuedRestarts(host, name, d, p, id);
    OneContainerIsLeft(host, name, d, p, [id], [], start, false);
    assert other in Called(host - Elements(listed), name);
  }
}
