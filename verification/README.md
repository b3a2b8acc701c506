# Rancher core protocols and transformations, modelled and proved

This project models parts of Rancher in which several actors touch shared state, or in
which a loop rewrites the very data it goes through, and proves what they promise.

| module | what it is about |
|---|---|
| `NodeServer`, `NodeAgent` | the two halves of the worker upgrade handshake: the node-config handler and the agent's loop |
| `UpgradeConvergence` | one agent call against one handler: how many requests until the version is recorded |
| `UpgradeProtocol` | the handshake as a protocol: any number of calls and handlers, stale reads, lost, repeated and late messages, refused updates, a moving plan |
| `UpgradeRefinement` | how the protocol relates to the two halves: each call in it is an agent loop, each handler left alone is the handler, and an upgrade can always be completed |
| `ClusterCache` | the cluster proxy cache: double-checked locking over two maps |
| `EncryptedStore` | read, merge and write of a secret with optimistic concurrency, a stale cache and bounded retries |
| `ClusterManager` | start and stop of cluster records, interleaved at every access to the shared map |
| `RoleTemplates` | the depth-first walk over referenced role templates, with cycles and dangling references |
| `AuthRefresh`, `AuthRefreshLaws`, `AuthRefreshOutcome` | refreshing a user over all providers, in any order and with any failures: the code, its safety and the role of the order, and the outcome in every world |
| `Redaction` | redacting a JSON tree for the audit log |
| `Images` | renaming the keys of a map while ranging over it, and printing the map |
| `Taints`, `KubeletTaints` | the text form of taints and rewriting the kubelet's command line |
| `Features` | printing feature flags and reading them back |
| `Containers`, `ContainersOutcome` | reconciling the containers of one process: the code and its safety, and the outcome container by container |
| `Bindings` | removing duplicate role bindings |
| `Text`, `Options` | strings and options shared by the others |

How it is built:

- A protocol is a state machine. `Action` names the steps, `Enabled` says when one may be taken,
  `Do` takes it, and `IsRun` describes the runs: sequences of states and actions from the initial
  state, with every interleaving allowed. An inductive invariant is kept by every step, and the
  theorems are about all runs.
- A loop or an object that changes state is a method or a class, proved equal to a specification
  function; the laws are proved about that function.
- What an operation does is also stated in terms of the fields it reads and writes, without the
  functions by which it is specified. These laws are named `...Exactly` or `...ExactlyWhen`.
- That a protocol cannot get stuck is a lemma that continues every run to the wanted end.
- What the program learns from outside (HTTP, Docker, Kubernetes, providers, certificates) is a
  parameter that may take every value, errors included.
- Ranging over a Go map has no fixed order. Where the order matters it is a parameter of the
  specification or a free choice in the method, and the laws hold for every order.
- Some promises turn out not to hold for all inputs. Each of the following has a lemma with a case
  in which it fails and a lemma named `...ExactlyWhen` with the condition for it: the renewal limit
  of the agent, order independence of the refresh (for the tokens, and for tokens and attributes) and
  of image renaming, conservation of image sources, the stale cache of the encrypted store, the owner
  a cluster start returns and whether its record is active, one active record per cluster,
  idempotence of the taint rewrite, the round trip of features, and containers that carry both
  labels. That a successful reconciliation leaves one container fails in one corner too:
  `Containers.OneContainerIsLeft` states when, and `Containers.LinkerMayTakeSurvivor` is a case.

Where code and comments differ, the code is followed: a comment in the agent
(`pkg/rkenodeconfigclient/client.go:102`) limits renewal requests to one per call, but the flag is
reset for every executed plan; `NodeAgent.OneRenewalExactlyWhen` says for which calls the comment
is right.

## Model

| member | source | states |
|---|---|---|
| `NodeServer.NodeStore.ServeHTTP` | pkg/rkenodeconfigserver/nodeserver.go:74-254 | the answers to a request that is not authorized, comes from no node or is too early; the record of a reported version; the reply built from the node as read before that record; and the interval write that an accepted record makes stale |
| `NodeServer.RepliesExactly` | pkg/rkenodeconfigserver/nodeserver.go:74-254 | for every request exactly one answer: 401, 404, 500, 503 or a configuration, each with the condition for it; the version, the interval and the certificates of the configuration in terms of the node, its plan and the cluster |
| `NodeServer.StoresExactly` | pkg/rkenodeconfigserver/nodeserver.go:119-253 | what a request changes of the stored node: the recorded version and the interval of the plan, each with the condition for it, and nothing else |
| `NodeAgent.TakeTurn` | pkg/rkenodeconfigclient/client.go:71-150 | the body of the agent's loop: for every answer what happens and what it leaves in the variables, all ways to return included; `NodeAgent.TurnExactly` says what that is |
| `NodeAgent.ConfigClient` | pkg/rkenodeconfigclient/client.go:65-152 | the agent's loop equals the turn-by-turn specification for every sequence of answers, including all ways to return |
| `NodeAgent.RequestsCarry` | pkg/rkenodeconfigclient/client.go:65-143 | over every call: each request carries the renewal header if the last renewal or plan before it was a renewal, not if it was a plan, and as at the start of the call if there was neither; and the version of the last plan executed without error, 0 if there was none |
| `NodeAgent.TurnExactly` | pkg/rkenodeconfigclient/client.go:71-150 | what one more answer does to a call, in terms of what has happened in it so far: the request sent, the event that follows, and whether the call goes on or how it returns |
| `NodeAgent.LoopBounds` | pkg/rkenodeconfigclient/client.go:66-147 | over every call: an executed plan lies between any two renewal requests, the renewal header is off whenever a plan runs, the call returns at the fourth not-found answer, and the returned interval is the last non-zero one accepted, 120 if none |
| `NodeAgent.CertificateCallRenewsOnce` | pkg/rkenodeconfigclient/client.go:100-146 | a call that only writes certificates requests at most one renewal, counted from its start or from any point of it |
| `NodeAgent.UpgradeCallRenewsTwice` | pkg/rkenodeconfigclient/client.go:100-144 | a full call may request two renewals, with the plan of an upgrade in between |
| `NodeAgent.OneRenewalExactlyWhen` | pkg/rkenodeconfigclient/client.go:100-111 | at most one renewal request per call, for all answers, holds if and only if the call only writes certificates |
| `NodeAgent.ErrorsSteerCall` | pkg/rkenodeconfigclient/client.go:70-84 | a call that is told each time that its node or cluster is unknown returns with an error at the fourth answer; one that only meets other errors goes on asking |
| `UpgradeConvergence.Handshake` | pkg/rkenodeconfigclient/client.go:70-147 | the handler and the agent's turns against each other follow the specified exchange, and the turns are handed out for the agent's loop |
| `UpgradeConvergence.HandshakeOfLoops` | pkg/rkenodeconfigclient/client.go:65-152 | the agent's loop on those turns ends as the exchange does |
| `UpgradeConvergence.ExchangeOnce` | pkg/rkenodeconfigclient/client.go:71-151 | one exchange, whatever is lost, busy, refused, stale or failing in it: what is recorded, what is executed, and how the call goes on |
| `UpgradeConvergence.ServedPlanned` | pkg/rkenodeconfigserver/nodeserver.go:119-138 | a worker whose plan is current is sent the version exactly while the node as read has not applied it, and a reported version is recorded if the store accepts it |
| `UpgradeConvergence.ConvergesFromReport` | pkg/rkenodeconfigserver/nodeserver.go:123-138 | an agent that reports the version re-executes the same plan for each refused update and stops two requests after the first accepted one |
| `UpgradeConvergence.CallConverges` | pkg/rkenodeconfigclient/client.go:119-147 | with every reply arriving and fresh certificates, one call makes one request if the version is applied, otherwise three plus one per refused update, executes the plan of that version each time but the last, and ends with the version recorded |
| `UpgradeConvergence.WeatherMoves` | pkg/rkenodeconfigclient/client.go:71-147 | every good exchange brings the end of a call nearer, renewals included; any other takes it away by at most one |
| `UpgradeConvergence.CallConvergesInAnyWeather` | pkg/rkenodeconfigclient/client.go:65-152 | for every pattern of lost requests and replies, 503 answers, refused updates, stale or unreadable certificates and failing plans: a call that returns without an error has the version recorded and has executed only its plan before the last one, and it has returned once the good exchanges are six more than the others |
| `UpgradeConvergence.CertificateCallRecordsNothing` | pkg/rkenodeconfigclient/client.go:124-146 | a certificate-only call makes one request, runs one plan and leaves the recorded version alone |
| `UpgradeConvergence.EarlyAnswersSteerCall` | pkg/rkenodeconfigserver/nodeserver.go:75-113 | over a whole call: another driver ends it at its first request, with one plan without a version; every other early answer keeps it asking, with nothing executed; neither writes the node |
| `UpgradeConvergence.UpgradeIntervalSettles` | pkg/rkenodeconfigserver/nodeserver.go:237-253 | over two calls while the plan lags behind: each makes one request and returns the interval 35, the first stores it, the second changes nothing |
| `UpgradeProtocol.VersionComesFromPlan` | pkg/rkenodeconfigclient/client.go:119-143 | the version an agent reports changes only to that of a plan it executed without error in a full call |
| `UpgradeProtocol.StepKeeps` | pkg/rkenodeconfigserver/nodeserver.go:115-138 | every step of the protocol keeps: each version held by a call, in flight or recorded is vouched for by an execution |
| `UpgradeProtocol.RecordedOnlyAfterExecution` | pkg/rkenodeconfigserver/nodeserver.go:119-138 | in every run each recorded version was executed before, without error, by a full call, on a configuration built from a stored plan and a stored cluster that were both at that version |
| `UpgradeProtocol.AppliedVersionIsWhatWasRecorded` | pkg/rkenodeconfigserver/nodeserver.go:123-250 | in every run the changes of the stored applied version are exactly the recorded versions in order, so the later interval write from an older read never reverts one |
| `UpgradeRefinement.CallIsAgent` | pkg/rkenodeconfigclient/client.go:65-152 | in every run every call is the agent's loop on exactly what it has heard, so that all laws of the loop hold of it |
| `UpgradeRefinement.HearsOwnReply` | pkg/rkenodeconfigclient/client.go:71-80 | in every run a reply that is heard answers the request that this call, and no other, is waiting for, and that carried the version the call still has |
| `UpgradeRefinement.OneRequestAtATime` | pkg/rkenodeconfigclient/client.go:70-80 | in every run a call has asked as often as it has heard, and once more while it is waiting |
| `UpgradeRefinement.NotedExactlyWhenExecuted` | pkg/rkenodeconfigclient/client.go:119-128 | an execution is noted if and only if the log of the call ends with one that went well |
| `UpgradeRefinement.HandlerWritesCurrent` | pkg/rkenodeconfigserver/nodeserver.go:119-250 | in every run a handler writes only from the node that is current and changes only the applied version, once, for a registered worker of a ready cluster, or the interval of the plan |
| `UpgradeRefinement.HandlerAloneServes` | pkg/rkenodeconfigserver/nodeserver.go:74-254 | from every reachable state any request can be handled undisturbed, and then the stored node and the reply are those of the handler |
| `UpgradeRefinement.ExchangeIsPossible` | pkg/rkenodeconfigclient/client.go:71-147 | from every reachable state an undisturbed exchange, in any weather, is possible and ends as specified for the two halves |
| `UpgradeRefinement.UpgradeCanComplete` | pkg/rkenodeconfigclient/client.go:65-152 | from every reachable state with cluster and plan at a version, whatever is still on its way, a new call can run to its end and leave that version recorded |
| `UpgradeRefinement.UpgradeIsAlwaysPossible` | pkg/rkenodeconfigserver/nodeserver.go:119-254 | no reachable state is a dead end: cluster and plan can move to any version, and it can be recorded |
| `ClusterCache.StepKeeps` | pkg/clusterrouter/factory.go:36-75 | every interleaved access keeps: one holder per lock, what each call knows at its point of the code, agreement of the two maps outside a critical section, one server built per name |
| `ClusterCache.SameAnswerForSameName` | pkg/clusterrouter/factory.go:47-75 | in every run any two calls that return a handler for a name return the same handler and the same cluster object |
| `ClusterCache.AnswersExactly` | pkg/clusterrouter/factory.go:36-75 | in every run what a call has returned was decided by exactly one of its steps: the published handler and cluster if that step found the name in both maps, with or without the lock, otherwise the outcome of its own build |
| `ClusterCache.NothingExactlyWhen` | pkg/clusterrouter/factory.go:58-75 | in every run a call has returned no handler if and only if its own build failed, and a call whose build succeeded has returned its own cluster and the server it built |
| `ClusterCache.EveryStepNears` | pkg/clusterrouter/factory.go:36-75 | a call can go on unless it is done or waits for a lock that is held, and every step of its own brings it nearer to the end |
| `ClusterCache.PublishedNeedsNoLock` | pkg/clusterrouter/factory.go:36-56 | a call for a name that is published in both maps returns what is published in two steps, whoever holds the lock, and touches no lock and no map |
| `ClusterCache.EveryCallCanReturn` | pkg/clusterrouter/factory.go:47-75 | no deadlock: from every reachable state every call can return, after the call that holds its lock if there is one |
| `ClusterCache.NewCallCanReturn` | pkg/clusterrouter/factory.go:47-75 | a call for any cluster can begin in every reachable state, and return |
| `ClusterCache.EntriesNeverChange` | pkg/clusterrouter/factory.go:71-72 | what is published in either map stays for the rest of the run |
| `ClusterCache.FreeLockMeansBothOrNeither` | pkg/clusterrouter/factory.go:58-72 | whenever the lock of a name is free, both maps have the name or neither has |
| `ClusterCache.BuiltOncePerName` | pkg/clusterrouter/factory.go:58-71 | no name ever has a second server built, whatever the interleaving |
| `EncryptedStore.PrepareSecretForUpdate` | pkg/encryptedstore/secrets_store.go:138-147 | the merge is the current data overridden by the new data |
| `EncryptedStore.NeedsUpdateExactlyWhen` | pkg/encryptedstore/secrets_store.go:93-94 | a secret is written if and only if it is empty or some key of the new data is missing or has another value |
| `EncryptedStore.StepKeeps` | pkg/encryptedstore/secrets_store.go:72-155 | every step keeps: versions tell contents apart, every write fits the content before it, every call's knowledge is of a real content |
| `EncryptedStore.EveryWriteMerges` | pkg/encryptedstore/secrets_store.go:72-147 | in every run each accepted write is a removal, or turns the content that is current at that moment into itself overridden by the caller's data |
| `EncryptedStore.StoreDecides` | pkg/encryptedstore/secrets_store.go:72-136 | in every run the store can accept an update if and only if what the call has seen is what is stored, and can answer with a conflict if and only if it is not; a create likewise, with nothing stored |
| `EncryptedStore.NoLostKeys` | pkg/encryptedstore/secrets_store.go:138-147 | between two contents without a removal no key is lost, and every value is the old one or was written by a Set in between |
| `EncryptedStore.SuccessMeansStored` | pkg/encryptedstore/secrets_store.go:72-136 | a Set that succeeds by a create, an update or the retry path had all of its data stored at some moment of the call |
| `EncryptedStore.CachedSuccessNeedsCurrentCache` | pkg/encryptedstore/secrets_store.go:74-105 | a Set that finds its data in the cache keeps the same promise if the cached content was current during the call |
| `EncryptedStore.LosesSetExactlyWhen` | pkg/encryptedstore/secrets_store.go:74-105 | from every reachable state, a Set that reads a given cached content returns success without being stored if and only if merging changes nothing in that content and the store does not hold the data |
| `EncryptedStore.StaleCacheLosesSet` | pkg/encryptedstore/secrets_store.go:74-105 | such a state is reachable, for any data: create, remove, and set again from a stale cache |
| `EncryptedStore.RetriesAreBounded` | pkg/encryptedstore/secrets_store.go:107-136 | however often the store answers with a conflict, a Set fetches the secret at most five times |
| `EncryptedStore.FailsExactlyWhen` | pkg/encryptedstore/secrets_store.go:72-136 | in every run a Set has failed if and only if its cache read failed, its create or update was refused, its fetch failed or found no secret, or its update met a conflict after the fifth fetch |
| `EncryptedStore.ConflictIsRetried` | pkg/encryptedstore/secrets_store.go:107-136 | a Set whose write meets a conflict and that is then left alone and granted succeeds, with its data merged into the secret that is stored |
| `ClusterManager.StepKeeps` | pkg/clustermanager/manager.go:80-172 | every interleaved access keeps: entries are stored records of their UID, only stored records are started, starts and stops hold records that exist |
| `ClusterManager.StepKeepsLiveExactlyWhen` | pkg/clustermanager/manager.go:80-88 | a step breaks "records stored and not cancelled are the current entries" if and only if it deletes an entry whose record nobody cancelled |
| `ClusterManager.LiveAreCurrentExactlyWhen` | pkg/clustermanager/manager.go:80-151 | over a whole run that rule holds throughout if and only if no Stop ever makes such a delete |
| `ClusterManager.StepStraysExactlyWhen` | pkg/clustermanager/manager.go:80-88 | a step leaves a record in use that is neither cancelled nor the current entry if and only if it deletes the entry of a record that is in use and not cancelled |
| `ClusterManager.AtMostOneActivePerCluster` | pkg/clustermanager/manager.go:80-172 | in every run without such a delete at most one record per UID is started and not cancelled, and it is the current entry |
| `ClusterManager.UninterruptedStopsNeverLeak` | pkg/clustermanager/manager.go:80-172 | so it is in every run in which Stops are not interrupted |
| `ClusterManager.TwoActiveExactlyWhen` | pkg/clustermanager/manager.go:80-172 | from every reachable state, two active records of one UID can come about without a further such delete if and only if there is a record in use that is neither cancelled nor current |
| `ClusterManager.OwnerNeverChanges` | pkg/clustermanager/manager.go:158-170 | a started record stays started with the owner it was started with |
| `ClusterManager.StopsExactlyWhen` | pkg/clustermanager/manager.go:123-145 | in every run a start that finds an entry issues a Stop if and only if the settings differ, or it wants controllers and the record is started with another owner |
| `ClusterManager.StartAloneReturnsExactly` | pkg/clustermanager/manager.go:123-188 | from every reachable state, with or without controllers, a start that is not interleaved and returns a record returns the one it found, with entries, stops and cancellations as before, if it need not replace it; otherwise a new one with the requested cluster and owner, the one it found cancelled and all others untouched |
| `ClusterManager.GivesUpExactlyWhen` | pkg/clustermanager/manager.go:123-188 | in every run a start has returned without a record if and only if its own step of building the record failed |
| `ClusterManager.FailedBuildStopsExactlyWhen` | pkg/clustermanager/manager.go:113-142 | a start whose record cannot be built gives up, after a Stop if and only if building failed and the cluster can be read |
| `ClusterManager.CancelledWasStored` | pkg/clustermanager/manager.go:80-88 | in every run only records that were in the map are cancelled |
| `ClusterManager.TimeOutCancels` | pkg/clustermanager/manager.go:244-253 | a background start that takes too long cancels its own record and nothing else |
| `ClusterManager.StopStepNears` | pkg/clustermanager/manager.go:80-88 | in every reachable state a Stop can go on until it is done, and each step brings it nearer |
| `ClusterManager.StartStepNears` | pkg/clustermanager/manager.go:123-188 | so can a start, unless it waits for a Stop that is not done |
| `ClusterManager.EveryStartCanReturn` | pkg/clustermanager/manager.go:80-188 | no deadlock: from every reachable state every start can return, by its own steps and those of the Stops it waits for |
| `ClusterManager.NewStartCanReturn` | pkg/clustermanager/manager.go:123-188 | a start for any cluster can begin in every reachable state, and return |
| `ClusterManager.StartAloneGetsItsOwner` | pkg/clustermanager/manager.go:123-188 | from every reachable state, a start that is not interleaved returns a started record with the requested owner and the requested settings, if it returns one |
| `ClusterManager.StartAloneIsActiveExactlyWhen` | pkg/clustermanager/manager.go:123-172 | the record such a start returns is active if and only if the start did not find an unchanged entry whose record is cancelled already |
| `ClusterManager.StartMayReturnCancelled` | pkg/clustermanager/manager.go:80-130 | a run in which it did: a Stop has cancelled the record and not yet deleted its entry |
| `ClusterManager.StartedBySomebody` | pkg/clustermanager/manager.go:158-170 | in every run a started record was started in a step of some call with controllers that found it not started, and has that call's owner |
| `ClusterManager.StartedOnce` | pkg/clustermanager/manager.go:158-170 | there is only one such step |
| `ClusterManager.GotOwnerExactlyWhen` | pkg/clustermanager/manager.go:123-172 | in every run a call with controllers that has returned a record got the owner it asked for if and only if the call that started the record asked for the same |
| `ClusterManager.GuardDecidesOwner` | pkg/clustermanager/manager.go:158-170 | it gets that owner, and keeps it for the rest of the run, if and only if under the record's lock the record is not started or has that owner |
| `ClusterManager.InterleavedStartMayGetOtherOwner` | pkg/clustermanager/manager.go:127-145 | a run in which the guard fails: an interleaved start returns a record with another owner than requested |
| `ClusterManager.InterruptedStopMayLeak` | pkg/clustermanager/manager.go:80-88 | a run in which an interrupted Stop leaves two active records of the same cluster, one of them unreachable |
| `RoleTemplates.TakeOwnRules` | pkg/rbac/common.go:239-247 | fails exactly when the cluster role of an external cluster template is missing, otherwise appends its rules and the template's own |
| `RoleTemplates.Walk.GatherRules` | pkg/rbac/common.go:236-264 | terminates on cyclic references, visits each template once and depth first, leaves everything the visited ones reference seen, and fails only if something reachable fails |
| `RoleTemplates.Walk.FollowReferences` | pkg/rbac/common.go:249-262 | after the references of a template all of them are seen, and the rules gathered are those of the templates newly visited |
| `RoleTemplates.Walk.FollowReference` | pkg/rbac/common.go:250-261 | a seen reference adds nothing, a missing one is a failure |
| `RoleTemplates.RulesFromTemplate` | pkg/rbac/common.go:222-233 | an error if and only if a lookup for something reachable fails; otherwise the rules are, as a multiset, the sum over exactly the reachable templates, each taken once, and as a list those of the one depth-first order |
| `RoleTemplates.VisitOrderIsOne` | pkg/rbac/common.go:236-264 | there is only one depth-first order of a graph of templates: each next template is the first unseen reference of the last visited one that has any |
| `RoleTemplates.RulesExactly` | pkg/rbac/common.go:239-247 | a rule is gathered if and only if it belongs to a reachable template, or to the cluster role of a reachable external template of cluster context |
| `RoleTemplates.FailsExactlyWhen` | pkg/rbac/common.go:239-257 | the walk fails if and only if a reachable template is missing, or is external and of cluster context and its cluster role is missing |
| `RoleTemplates.ConcatenatedIsSum` | pkg/rbac/common.go:244-247 | whatever the order of the visit, the rules gathered are the sum over the set of templates visited |
| `RoleTemplates.TrailIsReach` | pkg/rbac/common.go:249-262 | a finished walk from the root has visited exactly the reachable templates, and none of them fails |
| `AuthRefresh.SortTokens` | pkg/auth/providerrefresh/refresher.go:170-187 | per provider the user's login and derived tokens in listed order, also for providers that are not registered |
| `AuthRefresh.TakeToken` | pkg/auth/providerrefresh/refresher.go:176-186 | one token of the list: other users are passed over, a derived token goes to its provider and to the list of derived tokens, another to the logins of its provider |
| `AuthRefresh.FetchGroups` | pkg/auth/providerrefresh/refresher.go:190-253 | how the turn of a provider ends early, whether the principal is kept, whether the refetch failed, and the new groups, which are those of `AuthRefreshOutcome.GroupsExactly` |
| `AuthRefresh.CheckAccess` | pkg/auth/providerrefresh/refresher.go:257-293 | access is only checked while no refetch has failed; extra attributes are fetched under the stated conditions |
| `AuthRefresh.Refresher.DeleteTokens` | pkg/auth/providerrefresh/refresher.go:297-305 | deletes in order, passes over tokens already gone, stops at the first other refusal |
| `AuthRefresh.Refresher.DisableTokens` | pkg/auth/providerrefresh/refresher.go:315-322 | disables in order from the listed copies, stops at the first failure |
| `AuthRefresh.Refresher.RefreshProvider` | pkg/auth/providerrefresh/refresher.go:189-307 | one provider's turn: new progress and stored tokens |
| `AuthRefresh.Refresher.RefreshAttributes` | pkg/auth/providerrefresh/refresher.go:145-324 | the whole refresh: stored tokens and returned attributes or error, for every order of the providers; `AuthRefreshOutcome` says what they are |
| `AuthRefreshLaws.VisitIsCareful` | pkg/auth/providerrefresh/refresher.go:189-307 | every provider's turn, whatever fails in it, keeps the safety invariant of the loop |
| `AuthRefreshLaws.TokensTouchedOnlyWhenAccessIsLost` | pkg/auth/providerrefresh/refresher.go:189-323 | for every order and every failure: no token appears; one disappears only as a login token of a provider that gave no access with no refetch failed so far; one changes only as a derived token that is disabled after a whole loop with no failed refetch and no access anywhere |
| `AuthRefreshLaws.CalmOutcome` | pkg/auth/providerrefresh/refresher.go:189-323 | if nothing fails but refetches, the outcome in closed form: login tokens lost up to the first failed refetch, derived tokens disabled only if none failed and nobody grants access, all groups fetched, and the extra attributes if no refetch failed |
| `AuthRefreshLaws.OrderDoesNotMatter` | pkg/auth/providerrefresh/refresher.go:189-323 | if no refetch fails either, every order of the providers gives the same tokens and attributes |
| `AuthRefreshLaws.TokensFollowAccess` | pkg/auth/providerrefresh/refresher.go:295-322 | what they are then: a login token survives if and only if its provider grants access, derived tokens are disabled if and only if none does, everything else is unchanged |
| `AuthRefreshLaws.OrderMatters` | pkg/auth/providerrefresh/refresher.go:231-306 | a failing refetch and a provider that would lose tokens give two orders with different tokens |
| `AuthRefreshLaws.TokenOrderMattersExactlyWhen` | pkg/auth/providerrefresh/refresher.go:231-306 | the tokens are the same for all orders if and only if no refetch fails or no provider that answers without access has login tokens |
| `AuthRefreshLaws.WaversExactlyWhen` | pkg/auth/providerrefresh/refresher.go:272-293 | the providers whose extra attributes depend on whether a refetch failed before: they answer without access, the user has only derived tokens of them, and the attributes they offer are new |
| `AuthRefreshLaws.AttributeOrderMatters` | pkg/auth/providerrefresh/refresher.go:231-293 | a failing refetch and such a provider give two orders with different attributes |
| `AuthRefreshLaws.OrderMattersExactlyWhen` | pkg/auth/providerrefresh/refresher.go:189-323 | tokens and attributes are the same for all orders if and only if no refetch fails, or there is neither a provider that answers without access and has login tokens nor one whose extra attributes depend on it |
| `AuthRefreshLaws.OrderMattersHere` | pkg/auth/providerrefresh/refresher.go:231-306 | a user, two providers and a token for which the order does matter |
| `AuthRefreshLaws.AttributeOrderMattersHere` | pkg/auth/providerrefresh/refresher.go:231-293 | a user for whom the order matters for the attributes and not for the tokens |
| `AuthRefreshOutcome.ErrsExactlyWhen` | pkg/auth/providerrefresh/refresher.go:189-323 | in every world and every order: the refresh returns an error if and only if, at the first provider it does not get past, the secret, the access or the principal cannot be had or a login token cannot be deleted, or it gets past all, nobody lets the user in and a derived token is gone or cannot be updated |
| `AuthRefreshOutcome.TokensExactly` | pkg/auth/providerrefresh/refresher.go:295-322 | in every world and every order, errors included: which tokens are deleted and which are disabled, both directions, in terms of the answers and refusals |
| `AuthRefreshOutcome.GroupsExactly` | pkg/auth/providerrefresh/refresher.go:190-253 | in every world: the groups of each provider the refresh got past are none without a principal, with a disabled provider or after a denial, the fetched ones if they were fetched, and otherwise the stored ones |
| `AuthRefreshOutcome.OtherGroupsStay` | pkg/auth/providerrefresh/refresher.go:205-223 | the groups of all other providers are the stored ones, also when a missing secret ends the refresh early |
| `AuthRefreshOutcome.ExtrasExactly` | pkg/auth/providerrefresh/refresher.go:272-293 | in every world: the extra attributes of a provider are those it gave if the refresh got past it, a token vouches for the user there and it gave some, and otherwise the stored ones |
| `AuthRefreshOutcome.CalmGroups` | pkg/auth/providerrefresh/refresher.go:190-253 | if nothing fails but refetches, the groups of every provider are as `GroupsExactly` says |
| `Redaction.RedactMap` | pkg/auth/audit/audit.go:394-417 | rewrites an object to its redacted form in any order of its keys, and reports a change exactly when it touched something |
| `Redaction.RedactSlice` | pkg/auth/audit/audit.go:419-443 | the same for a list, whose flags overwrite the next element before it is read |
| `Redaction.RedactedIsClean` | pkg/auth/audit/audit.go:394-443 | afterwards every string under a sensitive key and every element after a sensitive flag is the placeholder, at every depth the pass reaches |
| `Redaction.CleanExactlyWhenFixed` | pkg/auth/audit/audit.go:394-443 | a value is clean if and only if the pass leaves it as it is |
| `Redaction.RedactionIsIdempotent` | pkg/auth/audit/audit.go:394-443 | a second pass changes nothing |
| `Redaction.NoReportMeansUnchanged` | pkg/auth/audit/audit.go:395-416 | a pass that reports no change made none |
| `Redaction.RedactionOnlyCovers` | pkg/auth/audit/audit.go:394-443 | the result is the value with some parts replaced by the placeholder: keys, lengths and everything else are kept |
| `Redaction.RedactionSpares` | pkg/auth/audit/audit.go:394-443 | what is not sensitive is spared at every depth: strings under other keys, and list elements that are neither hidden by a flag nor objects |
| `Redaction.CleanAndSparingIsRedacted` | pkg/auth/audit/audit.go:394-443 | nothing but the result of the pass is both clean and sparing |
| `Redaction.FieldsExactly` | pkg/auth/audit/audit.go:398-402 | a string under a key is covered if and only if the pattern or the fixed list names the key |
| `Redaction.HiddenExactly` | pkg/auth/audit/audit.go:429-440 | an element of a list is covered if and only if the number of flags in a row before it is odd, a flag being a string that begins with two dashes and fits the pattern |
| `Redaction.ReportsExactlyWhenChanged` | pkg/auth/audit/audit.go:395-443 | on a value without placeholders a change is reported if and only if one is made |
| `Images.AddSourceToImage` | pkg/image/resolve.go:161-171 | adds the sources to the image's set, and nothing for the empty name |
| `Images.MoveSources` | pkg/image/resolve.go:179-181 | all sources are added to the other name, one by one in any order; no source, no entry |
| `Images.VisitImage` | pkg/image/resolve.go:175-182 | one turn of the range loop |
| `Images.ConvertMirroredImages` | pkg/image/resolve.go:173-184 | the range loop over the map it changes takes one of the orders Go allows, any number of the new keys visited or not, for every renaming |
| `Images.MirroredExactly` | pkg/image/resolve.go:173-184 | for every allowed order: a name is in the result if and only if some image mirrors to it, and it holds the union of the sources of all images that do |
| `Images.MirroringConservesExactlyWhen` | pkg/image/resolve.go:173-184 | no source appears from nowhere, and none is lost if and only if no image with sources is mirrored to the empty name |
| `Images.AllSourcesConserved` | pkg/image/resolve.go:173-184 | for every renaming, chains included, and every order: the union of all sources never grows, and is unchanged if nothing that is visited is renamed to the empty name |
| `Images.EmptyNameLosesSources` | pkg/image/resolve.go:161-184 | an image with a source that is mirrored to the empty name is lost with its source |
| `Images.SameForAllOrdersExactlyWhen` | pkg/image/resolve.go:173-184 | all allowed orders give the same map if and only if no image with sources moves to a name that is itself renamed |
| `Images.ChainsDependOnOrder` | pkg/image/resolve.go:173-184 | a map and a renaming for which two orders differ |
| `Images.GetSourcesList` | pkg/image/resolve.go:205-213 | the sources sorted, each once, joined by commas |
| `Images.GenerateImageAndSourceLists` | pkg/image/resolve.go:186-203 | exactly the images of the map, sorted and without repeats, and for each its line with its sources |
| `Images.PrintedListsAreUnique` | pkg/image/resolve.go:186-213 | there is only one such pair of lists, however the map is ranged over |
| `Taints.GetStringsFromTaint` | pkg/taints/utils.go:114-120 | the printed taints in order |
| `Taints.GetTaintsFromStrings` | pkg/taints/utils.go:122-132 | the parsed taints in order, malformed strings passed over |
| `Taints.ParsePrinted` | pkg/taints/utils.go:13-44 | print then parse gives the taint back if it has no separator in the wrong place, and nothing otherwise |
| `Taints.PrintParsed` | pkg/taints/utils.go:13-44 | parse then print gives every accepted string back |
| `Taints.ParsePrintedAll` | pkg/taints/utils.go:114-132 | a list comes back without its unprintable taints; it comes back whole if and only if all are printable |
| `Taints.PrintParsedAll` | pkg/taints/utils.go:114-132 | a list of accepted strings comes back |
| `KubeletTaints.GetKeyEffectTaintSet` | pkg/taints/utils.go:54-60 | an index of exactly the keys and effects in the list, to the last position that has them |
| `KubeletTaints.AppendMissing` | pkg/taints/utils.go:138-146 | appends the older taints under keys the newer index lacks, in any order, each key once |
| `KubeletTaints.MergeTaints` | pkg/taints/utils.go:134-147 | the newer taints in order, then exactly the older ones that no newer one overrides, the last of several with the same key and effect |
| `KubeletTaints.KeyEffectTellsApart` | pkg/taints/utils.go:21-23 | for taints that can be parsed, equal index keys mean equal key and equal effect |
| `KubeletTaints.TakeTaintArg` | pkg/rkenodeconfigserver/nodeserver.go:366-373 | the value of the first taint argument, and the command line without it |
| `KubeletTaints.AppendTaintsToKubeletArgs` | pkg/rkenodeconfigserver/nodeserver.go:362-386 | what the rewrite may do to the processes, and nothing without a kubelet or without node taints |
| `KubeletTaints.RewriteRegistersMerged` | pkg/rkenodeconfigserver/nodeserver.go:362-386 | for any command line: other processes and other arguments stay in their order, the first taint argument goes, the rest of them stay, and one comes at the end that registers what the node taints read back as, followed by the leftovers of the one that is gone |
| `KubeletTaints.LeftoverExactly` | pkg/taints/utils.go:134-147 | a former taint is left over if and only if no node taint has its key and effect and it is the last that has them |
| `KubeletTaints.RegisteredExactly` | pkg/rkenodeconfigserver/nodeserver.go:378-384 | for any command line: the new argument registers what the node taints read back as, which are the printable ones if they have no commas, and exactly those of the argument that is gone that no node taint overrides |
| `KubeletTaints.RewriteIsIdempotentExactlyWhen` | pkg/rkenodeconfigserver/nodeserver.go:362-386 | rewriting twice leaves the taints that are read if and only if, with at most one taint argument, everything the printed node taints read back as has the key and effect of a node taint or of a former one; with two, the second registers what the merge of the first does; with more, the second and third register the same |
| `KubeletTaints.RewriteIsIdempotent` | pkg/rkenodeconfigserver/nodeserver.go:362-386 | so it does with at most one taint argument when no node taint has a comma in it |
| `KubeletTaints.CommaBreaksIdempotence` | pkg/rkenodeconfigserver/nodeserver.go:374-384 | with a comma in the key of a node taint the second rewrite never registers what the first one did |
| `Features.ToFeatureString` | pkg/systemtemplate/import.go:53-74 | the items of exactly the given features, in the order of their names, joined by commas |
| `Features.FeatureStringIsUnique` | pkg/systemtemplate/import.go:53-74 | there is only one such text for a map of features |
| `Text.SortStrings` | pkg/systemtemplate/import.go:55-59 | the keys of a map in their order, each once |
| `Features.ReadItems` | pkg/features/feature.go:248-265 | all items or an error; the last of several for a name counts |
| `Features.Registry.Apply` | pkg/features/feature.go:268-271 | exactly the named features get the value, as default and as value |
| `Features.Registry.ApplyArgumentDefaults` | pkg/features/feature.go:238-274 | all or nothing: with any error the registry is as it was |
| `Features.RefusedExactlyWhen` | pkg/features/feature.go:248-265 | an argument is refused if and only if some item is malformed or names no registered feature |
| `Features.RoundTripExactlyWhen` | pkg/systemtemplate/import.go:53-74 | printed features read back as the same map if and only if every name is registered and free of separators |
| `Features.SeparatorBreaksRoundTrip` | pkg/features/feature.go:244-252 | every name with a separator in it breaks the round trip, registered or not |
| `Features.CommaBreaksRoundTrip` | pkg/features/feature.go:244-252 | a feature named a,b is printed and then refused |
| `Features.RoundTripSetsExactly` | pkg/features/feature.go:238-274 | then exactly the printed features of the registry take the printed values |
| `Containers.Docker.SortOut` | pkg/rkeworker/docker.go:70-90 | the first loop: containers that differ are removed, the others are matched and restarted if asked for, up to the first call Docker refuses |
| `Containers.Docker.RemoveAll` | pkg/rkeworker/docker.go:91-95 | the second loop: removes in order, up to the first call Docker refuses |
| `Containers.Docker.RunLogLinker` | pkg/rkeworker/docker.go:336-404 | a log linker that is there is removed if Docker lets it go, another is made unless the name is still taken, and it stays behind if its start, its work or its removal fails |
| `Containers.Docker.KeepMatch` | pkg/rkeworker/docker.go:97-125 | the first match is left alone if it is settled, and otherwise started and linked, with failures of both ignored |
| `Containers.Docker.MakeContainer` | pkg/rkeworker/docker.go:127-163 | a new container is made unless its name is taken, started if asked for, and linked unless it is the mount helper |
| `Containers.LinkTouches` | pkg/rkeworker/docker.go:336-404 | linking removes only containers called like the linker, adds at most one, changes nothing else, and succeeds if and only if nothing in its way fails |
| `Containers.Docker.RunProcess` | pkg/rkeworker/docker.go:42-163 | the whole reconciliation of one process, log linker included, for every pattern of refused, failing and ignored calls |
| `Containers.OneContainerIsLeft` | pkg/rkeworker/docker.go:69-163 | after every successful run exactly one container of the process is left, the first listed that does not differ or a new one, unless it is called like its log linker and lost by linking, with the exact condition; it needs no further start unless new or its start failed unnoticed; of the others only log linkers of the process may be missing or new, and only after linking |
| `Containers.RunOnSettledHost` | pkg/rkeworker/docker.go:97-125 | on a host with one container of the process, which does not differ, a run succeeds if and only if Docker compares and inspects it, removes and creates nothing but log linkers, and changes nothing at all if it is settled |
| `Containers.SecondRunChangesNothing` | pkg/rkeworker/docker.go:69-125 | the host a successful first run leaves, its container not lost, is such a host: a second run removes and creates nothing but log linkers, and changes nothing at all if the container is settled |
| `Containers.WhateverFails` | pkg/rkeworker/docker.go:69-163 | whatever Docker answers and wherever the run stops: of the containers of other processes only log linkers of this one may go and none changes, at most the new one and a log linker appear, and the first container that does not differ is not removed unless it is called like a log linker |
| `Containers.SucceedsExactlyWhen` | pkg/rkeworker/docker.go:49-163 | it succeeds if and only if no container carries both labels, which would list it twice, and Docker refuses none of the calls the run needs, a taken name included |
| `Containers.BothLabelsFail` | pkg/rkeworker/docker.go:49-80 | a container with both labels, alone on the host, makes every run fail |
| `Containers.LinkerMayTakeSurvivor` | pkg/rkeworker/docker.go:119-124 | a host on which a successful run leaves no container: the survivor is called like its log linker |
| `ContainersOutcome.LinkExactly` | pkg/rkeworker/docker.go:336-404 | which containers linking takes away, which it leaves, and when a linker is added |
| `ContainersOutcome.KeepsExactly` | pkg/rkeworker/docker.go:69-125 | after a successful run with a match, for every container: whether it is left and with which status; the first listed that does not differ is kept, and started if it has to be and the start does not fail |
| `ContainersOutcome.CreatesExactly` | pkg/rkeworker/docker.go:69-163 | after a successful run without a match: the listed ones are gone, the new one is there, running if it was to be started, and only log linkers of the process are missing of the rest |
| `ContainersOutcome.KeptOrNone` | pkg/rkeworker/docker.go:69-95 | every run is one of these two |
| `ContainersOutcome.KeepingSucceedsExactlyWhen` | pkg/rkeworker/docker.go:49-125 | a run with a match succeeds if and only if no container carries both labels, and the comparisons, removals, restarts and the one inspection it needs are not refused |
| `ContainersOutcome.CreatingSucceedsExactlyWhen` | pkg/rkeworker/docker.go:49-163 | a run without one succeeds if and only if no container carries both labels, all listed are compared and removed, the name is free, and the new one is made, started and linked as far as asked for |
| `ContainersOutcome.FailedStartLeavesCreated` | pkg/rkeworker/docker.go:152-156 | a run that only fails to start the new container leaves it behind, not running |
| `Bindings.SortByCreation` | pkg/agent/clean/dupe_bindings.go:387-396 | a permutation, oldest first |
| `Bindings.GroupByNamespace` | pkg/agent/clean/dupe_bindings.go:260-263 | exactly the namespaces of the list, each with its bindings in order |
| `Bindings.Cleanup.DedupeGroup` | pkg/agent/clean/dupe_bindings.go:219-251 | deletes all of a group but the binding with the found name, or all but one of the oldest |
| `Bindings.Cleanup.DeleteAll` | pkg/agent/clean/dupe_bindings.go:281-294 | deletes exactly the listed bindings without the found name that the API lets go, nothing in a dry run, and counts them |
| `Bindings.Cleanup.DedupeRB` | pkg/agent/clean/dupe_bindings.go:253-297 | the same per namespace, in any order of the namespaces, with the total count |
| `Bindings.OneBindingSurvives` | pkg/agent/clean/dupe_bindings.go:265-295 | whatever deletions the API refuses: of the listed bindings of a namespace there are left exactly the kept one, which has the found name or is one of the oldest, and those refused; so none is left without one, and with no refusal at most one survives |
| `Bindings.CountIsDeletions` | pkg/agent/clean/dupe_bindings.go:281-296 | the store shrinks by the count, less the refused deletions |

## Left out

- Everything outside the cited functions: the API server, controllers, provisioning, catalogs, the user interface and the command line.
- HTTP, Docker, Kubernetes, tunnel, TLS and certificate calls are not modelled; their answers are parameters.
- How a node-config request is authorized is not modelled; its outcome is a parameter of the handler.
- The upgrade protocol follows one node, because the handler reads and writes only the node of the request; that an update of an outdated object is refused, and that nobody but the handler writes the applied version, are taken as given.
- Waiting times and logging are not modelled.
- The cache of cluster proxies starts after the request lookup has found a cluster; a failed lookup returns before touching the cache.
- The encrypted store is modelled for one secret, since calls for different keys share nothing; the backoff helper is taken to make five attempts.
- `Start` for a cluster that is being deleted (it returns at once) and the controllers that a background start runs are not modelled; a failed background start is a Stop that may come at any time.
- Refreshing starts after the user and the tokens were listed; how a principal is found for a provider is a parameter.
- Redaction works on values and returns them: the original updates maps and slices in place, on trees from a JSON decoder, which share nothing. The separate treatment of secrets by request path is not modelled.
- Images and kubelet command lines are values too; aliasing of slices between processes is not captured.
- The renaming of image names is any function; the external table behind it is not modelled.
- With chains of renamings a range loop may in principle go on adding names for ever; the model covers the loops that end.
- KubeletTaints.RewriteIsIdempotent: is about command lines with at most one taint argument, because with more each rewrite reads another one; `KubeletTaints.RewriteIsIdempotentExactlyWhen` covers them all.
- EncryptedStore.CachedSuccessNeedsCurrentCache: goes one way, because a writer that sets the same data during the call also makes the promise true; `EncryptedStore.LosesSetExactlyWhen` is exact for a call that nobody interrupts.
- Whether a container differs from its process is any predicate on what Docker records; pulling an image is part of making a container, a failing listing or client returns before anything happens, and labels a process brings itself are not modelled. Docker finds a container by its name, and the name prefix of log linkers, which comes from another repository, is `rke-log-linker`.
- Names of bindings are compared exactly; the original ignores case, which makes no difference for the lower-case names Kubernetes admits.
- Sorting is an insertion sort in place of the library's; the contracts state only what any sort gives.
