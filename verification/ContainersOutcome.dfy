/** What the reconciliation of a process leaves on the host, container by container, and when it
    succeeds, read off the host and the answers of Docker. */
module ContainersOutcome {
  import opened Options
  import opened Text
  import opened Containers

  /** The `k`-th listed container is the first that does not differ. */
  predicate FirstKept(host: Host, p: Process, listed: seq<string>, k: nat) {
    && k < |listed| && (forall i :: 0 <= i <= k ==> listed[i] in host)
    && !p.changed(host[listed[k]].spec)
    && forall i :: 0 <= i < k ==> p.changed(host[listed[i]].spec)
  }

  predicate AllDiffer(host: Host, p: Process, listed: seq<string>) {
    forall i :: 0 <= i < |listed| ==> listed[i] in host && p.changed(host[listed[i]].spec)
  }

  lemma {:induction false} FirstKeptIsMatch(host: Host, p: Process, listed: seq<string>, k: nat)
    requires FirstKept(host, p, listed, k)
    ensures Matches(host, p, listed) != [] && Matches(host, p, listed)[0] == listed[k]
    decreases k
  {
    MatchesFromFront(host, p, listed);
    if k > 0 {
      FirstKeptIsMatch(host, p, listed[1..], k - 1);
    }
  }

  lemma AllDifferNoMatch(host: Host, p: Process, listed: seq<string>)
    requires AllDiffer(host, p, listed)
    ensures Matches(host, p, listed) == []
  {
    MatchesExactly(host, p, listed);
  }

  /** A container called so is left once the two loops are done with the list. */
  ghost predicate StillCalled(host: Host, listed: seq<string>, kept: string, called: string) {
    exists c :: c in host && (c !in listed || c == kept) && host[c].called == called
  }

  /** And Docker does not let it go. */
  ghost predicate StuckCalled(host: Host, d: Daemon, listed: seq<string>, kept: string, called: string) {
    exists c :: c in host && (c !in listed || c == kept) && host[c].called == called && c in d.noRemove
  }

  /** The status a kept container is found with. */
  function FoundStatus(c: Container, forceRestart: bool): Status {
    if forceRestart then Running else c.status
  }

  /** It has to be started: it is not running, and neither a volume holder nor a mount helper that
      has done its work. */
  predicate NeedsStart(p: Process, found: Status) {
    found != Running && !p.isSidekick && !(p.isShareMount && found == Exited(0))
  }

  /** Where its log gets linked. */
  ghost predicate GetsLinked(host: Host, name: string, d: Daemon, p: Process, listed: seq<string>, id: string, forceRestart: bool)
    requires id in host
  {
    && NeedsStart(p, FoundStatus(host[id], forceRestart)) && !p.isShareMount
    && d.linking != NoInspect && StillCalled(host, listed, id, name)
  }

  /** The host `after` a run that kept container `id`. */
  ghost predicate KeptOnly(host: Host, name: string, d: Daemon, p: Process, listed: seq<string>, id: string,
                           forceRestart: bool, after: Host)
    requires id in host
  {
    var found := FoundStatus(host[id], forceRestart);
    var linker := "rke-log-linker-" + name;
    var linked := GetsLinked(host, name, d, p, listed, id, forceRestart);
    && (forall c :: c in host ==>
          (c in after <==> (c !in listed || c == id) && !(linked && host[c].called == linker && c !in d.noRemove)))
    && (forall c :: c in host && c in after && c != id ==> after[c] == host[c])
    && (id in after ==>
          after[id] == host[id].(status := if NeedsStart(p, found) && id !in d.noStart then Running else found))
    && (forall c :: c in after && c !in host ==> c == d.linkerId)
    && (d.linkerId in after <==> linked && d.linking.Stays? && !StuckCalled(host, d, listed, id, linker))
    && (d.linkerId in after ==> after[d.linkerId] == Container(linker, None, None, d.linking.spec, d.linking.status))
  }

  lemma LinkerIs(name: string)
    ensures LinkerName(name) == "rke-log-linker-" + name
  {
    assert "rke-log-linker" + "-" == "rke-log-linker-";
  }

  ghost predicate SomeCalled(h: Host, called: string) {
    exists c :: c in h && h[c].called == called
  }

  ghost predicate StuckIn(h: Host, d: Daemon, called: string) {
    exists c :: c in h && h[c].called == called && c in d.noRemove
  }

  lemma CalledExactly(h: Host, called: string)
    ensures Called(h, called) != {} <==> SomeCalled(h, called)
  {
    if c :| c in h && h[c].called == called {
      assert c in Called(h, called);
    }
  }

  /** What linking does, to every container. */
  lemma LinkExactly(h: Host, name: string, d: Daemon)
    requires d.linkerId !in h
    ensures var t := Linked(h, name, d).0;
            var finds := d.linking != NoInspect && SomeCalled(h, name);
            && (forall c :: c in h ==> (c in t <==> !(finds && h[c].called == LinkerName(name) && c !in d.noRemove)))
            && (forall c :: c in h && c in t ==> t[c] == h[c])
            && (forall c :: c in t && c !in h ==> c == d.linkerId)
            && (d.linkerId in t <==> finds && d.linking.Stays? && !StuckIn(h, d, LinkerName(name)))
            && (d.linkerId in t ==> t[d.linkerId] == Container(LinkerName(name), None, None, d.linking.spec, d.linking.status))
  {
    LinkTouches(h, name, d);
    var left := h - (Called(h, LinkerName(name)) - d.noRemove);
    CalledExactly(h, name);
    CalledExactly(left, LinkerName(name));
  }

  lemma CalledAlike(host: Host, d: Daemon, listed: seq<string>, id: string, h: Host, called: string)
    requires forall c :: c in h <==> c in host && (c !in listed || c == id)
    requires forall c :: c in h ==> h[c].called == host[c].called
    ensures SomeCalled(h, called) <==> StillCalled(host, listed, id, called)
    ensures StuckIn(h, d, called) <==> StuckCalled(host, d, listed, id, called)
  {
    if c :| c in host && (c !in listed || c == id) && host[c].called == called {
      assert c in h && h[c].called == called;
    }
    if c :| c in host && (c !in listed || c == id) && host[c].called == called && c in d.noRemove {
      assert c in h && h[c].called == called && c in d.noRemove;
    }
  }

  /** Once the two loops are done: container `id` is all that is left of the list. */
  ghost predicate LoopsLeft(host: Host, listed: seq<string>, id: string, status: Status, h: Host)
    requires id in host
  {
    && (forall c :: c in h <==> c in host && (c !in listed || c == id))
    && forall c :: c in h ==> h[c] == if c == id then host[id].(status := status) else host[c]
  }

  lemma LinkedIsKept(host: Host, name: string, d: Daemon, p: Process, listed: seq<string>, id: string,
                     forceRestart: bool, h: Host)
    requires Fresh(host, d) && id in host && id in listed
    requires var found := FoundStatus(host[id], forceRestart);
             && NeedsStart(p, found) && !p.isShareMount
             && LoopsLeft(host, listed, id, if id in d.noStart then found else Running, h)
    ensures KeptOnly(host, name, d, p, listed, id, forceRestart, Linked(h, name, d).0)
  {
    LinkerIs(name);
    LinkExactly(h, name, d);
    CalledAlike(host, d, listed, id, h, name);
    CalledAlike(host, d, listed, id, h, LinkerName(name));
  }

  lemma ContinuedExactly(host: Host, name: string, d: Daemon, p: Process, listed: seq<string>, id: string,
                         forceRestart: bool, h: Host)
    requires Fresh(host, d) && id in host && id in listed && id !in d.noInspect
    requires LoopsLeft(host, listed, id, FoundStatus(host[id], forceRestart), h)
    ensures Continued(h, name, d, p, id).1
    ensures KeptOnly(host, name, d, p, listed, id, forceRestart, Continued(h, name, d, p, id).0)
  {
    var found := FoundStatus(host[id], forceRestart);
    if NeedsStart(p, found) && !p.isShareMount {
      LinkedIsKept(host, name, d, p, listed, id, forceRestart,
                   if id in d.noStart then h else h[id := h[id].(status := Running)]);
    }
  }

  /** A run that succeeds and finds a container that does not differ: of the listed containers the
      first such is kept, with its status as it is found, or running if it has to be started
      and the start does not fail; containers that are not listed stay as they are. Where the
      log is linked, exactly the containers called like the linker that Docker lets go are gone
      too, and a linker is added exactly when it stays behind. */
  lemma KeepsExactly(host: Host, name: string, d: Daemon, p: Process, ids: seq<string>, formerIds: seq<string>,
                     start: bool, forceRestart: bool, k: nat)
    requires IsListing(host, name, ids, formerIds) && Fresh(host, d) && FirstKept(host, p, ids + formerIds, k)
    requires Reconciled(host, name, d, p, ids + formerIds, start, forceRestart).1
    ensures KeptOnly(host, name, d, p, ids + formerIds, (ids + formerIds)[k], forceRestart,
                     Reconciled(host, name, d, p, ids + formerIds, start, forceRestart).0)
  {
    var listed := ids + formerIds;
    SucceedsExactlyWhen(host, name, d, p, ids, formerIds, start, forceRestart);
    ListedOnce(host, name, ids, formerIds);
    FirstKeptIsMatch(host, p, listed, k);
    AfterLoops(host, d, p, listed, forceRestart);
    var matched := Matches(host, p, listed);
    var h := RemovedAll(SortedOut(host, d, p, listed, forceRestart).0, d, matched[1..]).0;
    ContinuedExactly(host, name, d, p, listed, listed[k], forceRestart, h);
  }

  /** A run that succeeds and finds none: the listed containers are gone and there is a new one,
      running if it was to be started. If its log is linked, no container called like the
      linker is left; all others stay as they are. */
  lemma CreatesExactly(host: Host, name: string, d: Daemon, p: Process, ids: seq<string>, formerIds: seq<string>,
                       start: bool, forceRestart: bool)
    requires IsListing(host, name, ids, formerIds) && Fresh(host, d) && AllDiffer(host, p, ids + formerIds)
    requires Reconciled(host, name, d, p, ids + formerIds, start, forceRestart).1
    ensures var after := Reconciled(host, name, d, p, ids + formerIds, start, forceRestart).0;
            && (forall c :: c in after <==>
                  || c == d.freshId
                  || (c in host && c !in ids + formerIds
                      && !(start && !p.isShareMount && host[c].called == "rke-log-linker-" + name)))
            && (forall c :: c in after && c != d.freshId ==> after[c] == host[c])
            && after[d.freshId] == Container(name, Some(name), None, p.spec, if start then Running else Created)
  {
    var listed := ids + formerIds;
    LinkerIs(name);
    SucceedsExactlyWhen(host, name, d, p, ids, formerIds, start, forceRestart);
    ListedOnce(host, name, ids, formerIds);
    AllDifferNoMatch(host, p, listed);
    AfterLoops(host, d, p, listed, forceRestart);
    var h := RemovedAll(SortedOut(host, d, p, listed, forceRestart).0, d, []).0;
    var made := h[d.freshId := Container(name, Some(name), None, p.spec, if start then Running else Created)];
    LinkExactly(made, name, d);
    LinkTouches(made, name, d);
    CalledExactly(Linked(made, name, d).0, LinkerName(name));
  }

  /** Docker lets the first loop through this container. */
  predicate LetsThrough(d: Daemon, p: Process, id: string, spec: string, forceRestart: bool) {
    id !in d.noCompare && if p.changed(spec) then id !in d.noRemove else !(forceRestart && id in d.noRestart)
  }

  /** Some container does not differ, or all do. */
  lemma {:induction false} KeptOrNone(host: Host, p: Process, listed: seq<string>, k: nat) returns (m: nat)
    requires forall i :: 0 <= i < |listed| ==> listed[i] in host
    requires k <= |listed| && forall i :: 0 <= i < k ==> p.changed(host[listed[i]].spec)
    ensures if m < |listed| then FirstKept(host, p, listed, m) else AllDiffer(host, p, listed)
    decreases |listed| - k
  {
    if k < |listed| && p.changed(host[listed[k]].spec) {
      m := KeptOrNone(host, p, listed, k + 1);
    } else {
      m := k;
    }
  }

  /** The matches after the first, and whether they can be removed. */
  lemma LaterMatches(host: Host, d: Daemon, p: Process, listed: seq<string>, k: nat)
    requires Distinct(listed) && FirstKept(host, p, listed, k) && forall i :: 0 <= i < |listed| ==> listed[i] in host
    ensures Matches(host, p, listed) != []
    ensures Elements(Matches(host, p, listed)[1..]) !! d.noRemove <==>
              forall i :: k < i < |listed| && !p.changed(host[listed[i]].spec) ==> listed[i] !in d.noRemove
  {
    FirstKeptIsMatch(host, p, listed, k);
    MatchesExactly(host, p, listed);
    MatchesAreKept(host, p, listed, false);
    var rest := Matches(host, p, listed)[1..];
    forall i | k < i < |listed| && !p.changed(host[listed[i]].spec) ensures listed[i] in Elements(rest) {
      assert listed[i] in Matches(host, p, listed);
    }
    forall id | id in Elements(rest) ensures exists i :: k < i < |listed| && listed[i] == id && !p.changed(host[id].spec) {
      assert id in Matches(host, p, listed);
      var i :| 0 <= i < |listed| && listed[i] == id;
      assert i != k;
    }
  }

  lemma LetThroughExactly(host: Host, d: Daemon, p: Process, listed: seq<string>, forceRestart: bool)
    requires forall i :: 0 <= i < |listed| ==> listed[i] in host
    ensures AllPass(host, d, p, listed, forceRestart) <==>
              forall i :: 0 <= i < |listed| ==> LetsThrough(d, p, listed[i], host[listed[i]].spec, forceRestart)
  {
  }

  /** When a run that finds a container that does not differ succeeds: no container carries both
      labels, the first loop gets through all that are listed, the later ones that do not
      differ can be removed, and the first can be inspected. */
  lemma KeepingSucceedsExactlyWhen(host: Host, name: string, d: Daemon, p: Process, ids: seq<string>, formerIds: seq<string>,
                                   start: bool, forceRestart: bool, k: nat)
    requires IsListing(host, name, ids, formerIds) && Fresh(host, d) && FirstKept(host, p, ids + formerIds, k)
    ensures forall i :: 0 <= i < |ids + formerIds| ==> (ids + formerIds)[i] in host
    ensures var listed := ids + formerIds;
            Reconciled(host, name, d, p, listed, start, forceRestart).1 <==>
              && !(exists c :: c in host && host[c].name == host[c].formerName == Some(name))
              && (forall i :: 0 <= i < |listed| ==> LetsThrough(d, p, listed[i], host[listed[i]].spec, forceRestart))
              && (forall i :: k < i < |listed| && !p.changed(host[listed[i]].spec) ==> listed[i] !in d.noRemove)
              && listed[k] !in d.noInspect
  {
    var listed := ids + formerIds;
    ListedOnce(host, name, ids, formerIds);
    SucceedsExactlyWhen(host, name, d, p, ids, formerIds, start, forceRestart);
    LetThroughExactly(host, d, p, listed, forceRestart);
    if LabelsDisjoint(host, name) {
      FirstKeptIsMatch(host, p, listed, k);
      LaterMatches(host, d, p, listed, k);
    }
  }

  /** When a run that finds none succeeds: no container carries both labels, all that are listed
      are compared and removed, no other is called like the process, the new one is made and,
      if it is to be started, starts and, unless it is the mount helper, has its log linked,
      for which every container called like the linker has to go. */
  lemma CreatingSucceedsExactlyWhen(host: Host, name: string, d: Daemon, p: Process, ids: seq<string>, formerIds: seq<string>,
                                    start: bool, forceRestart: bool)
    requires IsListing(host, name, ids, formerIds) && Fresh(host, d) && AllDiffer(host, p, ids + formerIds)
    ensures var listed := ids + formerIds;
            Reconciled(host, name, d, p, listed, start, forceRestart).1 <==>
              && !(exists c :: c in host && host[c].name == host[c].formerName == Some(name))
              && (forall i :: 0 <= i < |listed| ==> listed[i] !in d.noCompare + d.noRemove)
              && d.creation != CreateFails && !StillCalled(host, listed, d.freshId, name)
              && (start ==>
                    && d.creation == AllGoes
                    && (p.isShareMount ||
                        (d.linking == Links && !StuckCalled(host, d, listed, d.freshId, "rke-log-linker-" + name))))
  {
    var listed := ids + formerIds;
    var left := host - Elements(listed);
    LinkerIs(name);
    ListedOnce(host, name, ids, formerIds);
    SucceedsExactlyWhen(host, name, d, p, ids, formerIds, start, forceRestart);
    LetThroughExactly(host, d, p, listed, forceRestart);
    AllDifferNoMatch(host, p, listed);
    CalledExactly(left, name);
    CalledAlike(host, d, listed, d.freshId, left, name);
    CalledAlike(host, d, listed, d.freshId, left, LinkerName(name));
    assert Called(left, LinkerName(name)) * d.noRemove == {} <==> !StuckIn(left, d, LinkerName(name)) by {
      if c :| c in left && left[c].called == LinkerName(name) && c in d.noRemove {
        assert c in Called(left, LinkerName(name)) * d.noRemove;
      }
    }
  }

  /** A run that only fails to start the new container leaves it behind, not running. */
  lemma FailedStartLeavesCreated(host: Host, name: string, d: Daemon, p: Process, ids: seq<string>, formerIds: seq<string>,
                                 forceRestart: bool)
    requires IsListing(host, name, ids, formerIds) && Fresh(host, d) && AllDiffer(host, p, ids + formerIds)
    requires !(exists c :: c in host && host[c].name == host[c].formerName == Some(name))
    requires forall i :: 0 <= i < |ids + formerIds| ==> (ids + formerIds)[i] !in d.noCompare + d.noRemove
    requires d.creation == StartFails && !StillCalled(host, ids + formerIds, d.freshId, name)
    ensures var (after, ok) := Reconciled(host, name, d, p, ids + formerIds, true, forceRestart);
            && !ok
            && (forall c :: c in after <==> c == d.freshId || (c in host && c !in ids + formerIds))
            && (forall c :: c in after && c != d.freshId ==> after[c] == host[c])
            && after[d.freshId] == Container(name, Some(name), None, p.spec, Created)
  {
    var listed := ids + formerIds;
    ListedOnce(host, name, ids, formerIds);
    LetThroughExactly(host, d, p, listed, forceRestart);
    AllDifferNoMatch(host, p, listed);
    AfterLoops(host, d, p, listed, forceRestart);
    assert Elements([]) == {};
    var left := RemovedAll(SortedOut(host, d, p, listed, forceRestart).0, d, []).0;
    CalledExactly(left, name);
    CalledAlike(host, d, listed, d.freshId, left, name);
  }
}
