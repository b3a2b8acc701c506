/** The server half of the worker upgrade handshake: what the node-config
    handler answers, and what it writes to the stored node object. */
module NodeServer {
  import opened Options

  const DEFAULT_INTERVAL := 120
  const UPGRADE_INTERVAL := 35
  const CREATE_INTERVAL := 15

  /** The configuration sent to an agent. `kubeletCerts` says whether the kubelet
      process in it names both a certificate file and a key file. */
  datatype NodeConfig = NodeConfig(nodeVersion: int, checkInterval: int, kubeletCerts: bool)

  datatype Plan = Plan(version: int, checkInterval: int, kubeletCerts: bool)

  datatype Node = Node(plan: Option<Plan>, appliedVersion: int, registered: bool, nonWorker: bool)

  datatype Driver = Unset | RKE | Other

  datatype Cluster = Cluster(nodeVersion: int, upgrading: bool, driver: Driver, specApplied: bool)

  /** What the handler writes back. `missing` on a plain status says that the body
      reads like "node ... not found" or "cluster ... not found". */
  datatype Response =
    | Lost
    | Status(code: int, missing: bool)
    | Garbled
    | Ok(config: NodeConfig)

  /** The early exits of the handler, in order; None when the request goes on to
      a configuration. */
  function EarlyExit(cluster: Cluster, node: Option<Node>): (r: Option<Response>)
  {
    if node.None? then Some(Status(404, false))
    else if cluster.driver.Unset? then Some(Status(503, false))
    else if !cluster.driver.RKE? then Some(Status(404, false))
    else if !node.value.registered then Some(Status(503, false))
    else if !cluster.specApplied then Some(Status(503, false))
    else None
  }

  /** The handler records the version an agent reports unless it is already recorded. */
  predicate WantsVersionWrite(node: Node, version: int) {
    !node.nonWorker && version != 0 && node.appliedVersion != version
  }

  /** The configuration for a node as read by the handler. */
  function BuildConfig(cluster: Cluster, node: Node): (nc: NodeConfig)
  {
    match node.plan
    case None => NodeConfig(0, CREATE_INTERVAL, false)
    case Some(plan) =>
      if node.nonWorker || node.appliedVersion == cluster.nodeVersion then
        NodeConfig(0, plan.checkInterval, plan.kubeletCerts)
      else if plan.version == cluster.nodeVersion then
        NodeConfig(cluster.nodeVersion, plan.checkInterval, plan.kubeletCerts)
      else if cluster.upgrading then
        NodeConfig(0, UPGRADE_INTERVAL, plan.kubeletCerts)
      else
        NodeConfig(0, plan.checkInterval, plan.kubeletCerts)
  }

  /** While an upgrade waits for its plan, the handler also stores the shorter interval. */
  predicate WantsIntervalWrite(cluster: Cluster, node: Node) {
    && !node.nonWorker
    && node.plan.Some?
    && node.appliedVersion != cluster.nodeVersion
    && node.plan.value.version != cluster.nodeVersion
    && cluster.upgrading
    && node.plan.value.checkInterval != UPGRADE_INTERVAL
  }

  function WithInterval(node: Node): Node
    requires node.plan.Some?
  {
    node.(plan := Some(node.plan.value.(checkInterval := UPGRADE_INTERVAL)))
  }

  /** The effect of one undisturbed request on the stored node, and the reply. */
  function Served(node: Node, cluster: Cluster, version: int, versionWriteOk: bool, intervalWriteOk: bool, buildOk: bool)
    : (r: (Node, Response))
  {
    if EarlyExit(cluster, Some(node)).Some? then
      (node, EarlyExit(cluster, Some(node)).value)
    else
      var recorded := WantsVersionWrite(node, version) && versionWriteOk;
      var node' := if recorded then node.(appliedVersion := version) else node;
      if node.plan.Some? && !node.nonWorker && !buildOk then
        (node', Status(500, false))
      else if WantsIntervalWrite(cluster, node) && intervalWriteOk && !recorded then
        (WithInterval(node), Ok(BuildConfig(cluster, node)))
      else
        (node', Ok(BuildConfig(cluster, node)))
  }

  /** What authorizing a request answers: an error, whose text may read like "not found", a
      refusal, or the client, which need not be a node. */
  datatype Auth = Broken(missing: bool) | Denied | Admitted(isNode: bool)

  /** The effect of one undisturbed request, authorization included. */
  function Handled(node: Node, auth: Auth, cluster: Cluster, version: int,
                   versionWriteOk: bool, intervalWriteOk: bool, buildOk: bool): (Node, Response)
  {
    match auth
    case Broken(missing) => (node, Status(500, missing))
    case Denied => (node, Status(401, false))
    case Admitted(isNode) =>
      if isNode then Served(node, cluster, version, versionWriteOk, intervalWriteOk, buildOk)
      else (node, EarlyExit(cluster, None).value)
  }

  /** Every request gets exactly one of these answers: "go on without a plan" (404) if the client is
      no node or the cluster is not one of ours; "come back later" (503) while the driver, the
      registration or the applied spec is missing; an error if it cannot be authorized or the
      configuration cannot be built; a configuration otherwise. It names a version if and
      only if that is the cluster's, the plan of this worker is for it and the worker has not
      applied it; it asks for a quicker check while there is no plan, and while an upgrade is
      under way and the plan is for another version. */
  lemma RepliesExactly(node: Node, auth: Auth, cluster: Cluster, version: int,
                       versionWriteOk: bool, intervalWriteOk: bool, buildOk: bool)
    ensures var reply := Handled(node, auth, cluster, version, versionWriteOk, intervalWriteOk, buildOk).1;
            var ready := cluster.driver == RKE && node.registered && cluster.specApplied;
            var builds := node.plan == None || node.nonWorker || buildOk;
            var behind := !node.nonWorker && node.appliedVersion != cluster.nodeVersion;
            && (reply == Status(404, false) <==>
                  auth == Admitted(false) || (auth == Admitted(true) && cluster.driver == Other))
            && (reply == Status(503, false) <==> auth == Admitted(true) && cluster.driver != Other && !ready)
            && (reply == Status(401, false) <==> auth == Denied)
            && (reply == Status(500, true) <==> auth == Broken(true))
            && (reply == Status(500, false) <==> auth == Broken(false) || (auth == Admitted(true) && ready && !builds))
            && (reply.Ok? <==> auth == Admitted(true) && ready && builds)
            && (reply.Ok? && node.plan == None ==> reply.config == NodeConfig(0, 15, false))
            && (reply.Ok? && node.plan.Some? ==>
                  var plan := node.plan.value;
                  && reply.config.kubeletCerts == plan.kubeletCerts
                  && reply.config.nodeVersion
                     == (if behind && plan.version == cluster.nodeVersion then cluster.nodeVersion else 0)
                  && reply.config.checkInterval
                     == (if behind && plan.version != cluster.nodeVersion && cluster.upgrading then 35
                         else plan.checkInterval))
  {
  }

  /** What a request changes of the stored node: a worker's recorded version becomes the one it
      reports, if it reports one and the store accepts it; the interval of its plan becomes the
      quicker one, if an upgrade waits for its plan, the configuration can be built and the store
      accepts the write, which it never does right after a record. Nothing else changes. */
  lemma StoresExactly(node: Node, auth: Auth, cluster: Cluster, version: int,
                      versionWriteOk: bool, intervalWriteOk: bool, buildOk: bool)
    ensures var after := Handled(node, auth, cluster, version, versionWriteOk, intervalWriteOk, buildOk).0;
            var serves := auth == Admitted(true) && cluster.driver == RKE && node.registered && cluster.specApplied
                          && !node.nonWorker;
            var records := serves && version != 0 && node.appliedVersion != version && versionWriteOk;
            var waits := serves && buildOk && cluster.upgrading && node.plan.Some? && node.appliedVersion != cluster.nodeVersion
                         && node.plan.value.version != cluster.nodeVersion;
            && after.registered == node.registered && after.nonWorker == node.nonWorker
            && after.appliedVersion == (if records then version else node.appliedVersion)
            && (node.plan == None ==> after.plan == None)
            && (node.plan.Some? ==>
                  var plan := node.plan.value;
                  after.plan == Some(Plan(plan.version,
                                          if waits && intervalWriteOk && !records then 35 else plan.checkInterval,
                                          plan.kubeletCerts)))
  {
  }

  /** The stored node, seen by one handler that runs without interference: reads
      are current, so an update fails only when the store refuses it. */
  class NodeStore {
    var node: Node

    constructor (node: Node)
      ensures this.node == node
    {
      this.node := node;
    }

    /** One request. `versionWriteOk`, `intervalWriteOk` and `buildOk` are what the store
        and the certificate bundle answer. The reply is built from the node as it was
        before the version write. */
    method ServeHTTP(auth: Auth, cluster: Cluster, version: int,
                     versionWriteOk: bool, intervalWriteOk: bool, buildOk: bool)
      returns (response: Response)
      modifies this
      ensures (node, response) ==
                Handled(old(node), auth, cluster, version, versionWriteOk, intervalWriteOk, buildOk)
    {
      if auth.Broken? {
        return Status(500, auth.missing);
      }
      if auth.Denied? {
        return Status(401, false);
      }
      var exit := EarlyExit(cluster, if auth.isNode then Some(node) else None);
      if exit.Some? {
        return exit.value;
      }
      var snapshot := node;
      var stale := false;
      if WantsVersionWrite(snapshot, version) && versionWriteOk {
        node := snapshot.(appliedVersion := version);
        stale := true;
      }
      if snapshot.plan.Some? && !snapshot.nonWorker && !buildOk {
        return Status(500, false);
      }
      // After the version write the snapshot is out of date and the store refuses it.
      if WantsIntervalWrite(cluster, snapshot) && intervalWriteOk && !stale {
        node := WithInterval(snapshot);
      }
      response := Ok(BuildConfig(cluster, snapshot));
    }
  }
}
