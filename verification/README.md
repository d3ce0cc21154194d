# P2SER cluster control plane in Dafny

P2SER runs containers on a group of peer nodes.  There is no master: every node keeps a replica of one key/value
store behind a Raft log, and every node runs the same loops over its own replica.  The **scheduler** claims pods,
renews leases, promotes standbys, orders replacement standbys and deletes superseded pods; the **agent** reports what
containers do and fences stateful pods; a posted **compose file** is diffed against the store.  A loop decides on
what it has read, which may be stale, and sends a versioned compare-and-swap (or an unconditional `set` or `del`)
that may be committed seconds later.

The project models these parts and proves what they keep over whole runs.

| files | part |
|---|---|
| `StateMachine`, `Sealing`, `FSM`, `KeyOrder` | the replicated state machine: its meaning on a plain map, the encrypted bucket, the class that works on it, cursor order |
| `Pods`, `Names` | pod records and the names the system generates |
| `Scheduler`, `Agent`, `ComposeDiff` | the control loops as classes; each is proved to send exactly the requests that a function of its inputs gives |
| `SchedulerRules`, `AgentRules`, `DiffRules` | what these functions give, in terms of the fields of the records read and sent |
| `Cluster`, `Invariant` | the transition system over (log, requests in flight, clock) and the invariant of its runs |
| `Leases`, `WarmStandby`, `RollingUpdate`, `StartOrder`, `Readiness`, `Confluence` | the theorems about runs |
| `Interpolation`, `ComposeParser`, `ComposeOrder`, `ComposeTranslation` | compose files: the two interpolators, the parser, the UI's converter |
| `ReferenceForms`, `ReplicaRules`, `ConverterRules` | what these give, in terms of characters and fields |
| `Gossip`, `FencingTimer` | gossiped metrics and the fencing watch |

## How a run is modelled

A `World` is the store at the start, the committed log, every request issued so far, and a clock.  A step lets time
pass, lets a node run one pass of a loop on the store after *any* prefix of the log, or commits *any* issued request.
Issued requests are never taken away, so a request may be committed late, in any order, many times, or never.  Two
things are assumed of the environment: Raft's State Machine Safety (section 5.4.3 of the extended Raft paper), so that
replicas are prefixes of one log; and one clock that never runs backwards.  IDs that contain a reading of the
nanosecond clock are taken to be unused.

Every request carries what made its sender send it: the records it had read, and what an agent had observed or a
compose file asked for.  `Invariant` proves that in every reachable world
each request is justified by the prefix its sender had read; the theorems start from there.

## What is true only in part

* A compare-and-swap protects a key only against other compare-and-swaps.  A compose file posted again rewrites a pod
  with `set` at an unchanged version and without its lease, so `Leases.VersionsIdentifyRecords` and
  `Leases.NoLiveLeaseIsStolen` speak of stretches of the log without `set` or `del` on the key, `Leases.StatusOnlyClimbs`
  of keys that are only compared-and-swapped after the `set` that first stores them, and `Leases.BoundedFailover` of pods
  that were not rewritten while assigned.  `Leases.RewrittenPodIsStuck` states what such a rewrite does: if the pod was
  assigned and its holder sends nothing more, every later attempt of others to take it is refused, and its lease never
  runs out.
* Stored standbys plus replacements on order *can* become fewer.  `WarmStandby.SumFallsExactlyWhen` says when: in the
  step that commits a promotion for the app which the log accepts, by exactly one, and in no other step.
  `WarmStandby.SumFallsInSomeRun` gives a run with such a step.  What no step lowers is the reserve that leaves out
  standbys some promotion already aims at (`WarmStandby.StepKeepsReserve`); from it follows that, from any point of a
  run on, the sum never falls below the reserve at that point (`WarmStandby.ReserveIsConserved`).  All of this is about
  one app, whose own pods are only compared-and-swapped once they are stored; other apps may be deployed, rewritten,
  rolled out and deleted meanwhile.
* The theorems of `StartOrder` ask of the initial pods of the apps they speak of, and of no other, that they are
  unplaced, and that no other app's initial pod carries a base ID of theirs.  Any compose file may be posted at any
  time; of what the files ask for it matters only what it depends on.
* The UI's environment is a JavaScript object, and every object literal inherits a value for names such as
  `constructor`.  For `$constructor` the UI puts in the text of a function and the server nothing
  (`Interpolation.OrdinaryObjectsDiffer`).  On a text none of whose references gets such an inherited answer the two
  programs agree (`Interpolation.ProgramsAgreeOnText`), and for the environments the UI builds they agree on no other
  (`Interpolation.OrdinaryProgramsAgreeExactlyWhen`), unless the text gives references to `__proto__` both a default of
  fewer than 15 characters and one of more.  Then two wrong answers can make up for each other, and in one text they do
  (`Interpolation.WrongAnswersCanMakeUp`).
* The server parses what the UI sends without any environment, so a reference left behind by the UI is resolved a
  second time.  `Interpolation.SecondPassIsIdentityExactlyWhen` gives the exact condition for this to be harmless.
* The claim loop and the renewal loop of a node are not synchronised.  A pod that the node itself held under a lease
  that had run out may be renewed before it is claimed, so what a run ends up *claiming* can differ in such pods, and
  only in those; the records it ends up with do not differ, but for versions and leases
  (`Confluence.GreedyIsConfluent`).  `Confluence.ClaimsCanDiffer` gives two runs that claim different pods, and
  `Confluence.OneCycleCanTakeTwo` a cycle after which two pods fewer are needy.  All long enough runs claim the same pods
  exactly when none of the node's own needy pods is in the least fixed point (`Confluence.ClaimsAgreeExactlyWhen`), and
  one run claims the least fixed point exactly when no renewal took a pod of it first
  (`Confluence.ClaimsAreLeastExactlyWhen`).
* Gossip converges exactly when no node gives its highest version to two different reports
  (`Gossip.ConvergesExactlyWhen`).
* An app can have two Active pods (`WarmStandby.TwoActivesInSomeRun`): a promotion leaves the dead Active record in
  place (`WarmStandby.LandingAddsAnActive`).  How many containers run for a pod is not part of the model.
* A rolling update never empties a lineage, provided the marks found at the start respect an order of birth
  (`RollingUpdate.LatestBornIsStored`).  From two running pods marked for replacement by each other one cycle has both
  deleted (`RollingUpdate.MarksInACycleEmptyALineage`).
* `tryLockPod` logs that a claim succeeded whenever `/apply` answers 200, which it does even if the state machine
  refused the compare-and-swap.  The model sends requests and reads nothing back.

## Model

| member | source | states |
|---|---|---|
| FSM.FSM.Apply | backend/internal/cluster/fsm.go:49-106 | one log entry changes the decrypted content exactly as the plain state machine does and returns the same error; the bucket itself is the encrypted outcome |
| FSM.FSM.Put | backend/internal/cluster/fsm.go:67-70 | a write either fails for lack of a nonce or of a key and leaves the bucket alone, or stores the value under a fresh encryption |
| FSM.FSM.GetState | backend/internal/cluster/fsm.go:137-152 | returns the readable document under the key; absent and unreadable look the same |
| FSM.FSM.Seek | backend/internal/cluster/fsm.go:161 | all keys before the cursor are smaller than the sought key, the key at the cursor is not |
| FSM.FSM.PrefixScan | backend/internal/cluster/fsm.go:155-168 | seek-and-stop over sorted keys returns exactly the readable values whose key has the prefix, in key order: the same as filtering the whole bucket |
| FSM.FSM.WindowIsPrefixRange | backend/internal/cluster/fsm.go:161-164 | the keys between the seek position and the first key without the prefix are all the keys with the prefix |
| FSM.FSM.CursorLoop | backend/internal/cluster/fsm.go:161-164 | from a cursor position on, the readable values up to the first key without the prefix |
| FSM.FSM.GetAllPods | backend/internal/cluster/fsm.go:155-168 | the scan for pod records |
| FSM.FSM.GetAllBots | backend/internal/cluster/fsm.go:173-189 | a name is returned if and only if the document under it with the prefix in front is readable and true; the names come in order, each once |
| FSM.FSM.Snapshot | backend/internal/cluster/fsm.go:191-207 | the clone is exactly the readable content |
| FSM.FSM.Restore | backend/internal/cluster/fsm.go:210-234 | succeeds exactly when the snapshot decodes, every key is storable and every value gets a nonce; then the readable content is the snapshot, otherwise nothing changed |
| KeyOrder.PrefixedKeysAreAdjacent | backend/internal/cluster/fsm.go:161 | a key between the prefix and a key with the prefix has the prefix too |
| KeyOrder.SortedUnique | backend/internal/cluster/fsm.go:159-161 | a set of keys has only one order in which a cursor can visit it |
| StateMachine.RefusedCommandChangesNothing | backend/internal/cluster/fsm.go:57-106 | a command that fails leaves the store as it was; a storable compare-and-swap fails exactly when its expectation is stale |
| StateMachine.CommandDoes | backend/internal/cluster/fsm.go:57-106 | key by key, what is stored after a command: a `set` or an unrefused `cas` puts its value under its key, a `del` takes its key away, no other key changes, and nothing is written under an empty key or without randomness |
| StateMachine.ScanMembers | backend/internal/cluster/fsm.go:161-164 | a document is in a scan if and only if it is stored under a key with the prefix |
| StateMachine.ReplayAppend | backend/internal/cluster/fsm.go:49-106 | replaying a log in two parts is replaying it whole |
| Sealing.Box.EncryptRoundTrip | backend/internal/cluster/fsm.go:263-298 | what was encrypted under any nonce decrypts to itself |
| Sealing.Box.SealedApplyRefines | backend/internal/cluster/fsm.go:49-106 | every command commutes with decryption: content and verdict are those of the plain map |
| Sealing.Box.SealedReplayRefines | backend/internal/cluster/fsm.go:49-106 | so does every log, with any nonces |
| Sealing.Box.ReplicasAgree | backend/internal/cluster/fsm.go:263-298 | replicas with different nonces agree on every read and on the verdict about any next command |
| Sealing.Box.CompactionIsInvisible | backend/internal/cluster/fsm.go:191-257 | restoring the snapshot of any prefix and applying the rest gives the content of the whole log, on any replica, with any nonces |
| Names.BaseNameInjective | backend/internal/compose/compose_parser.go:153-183 | base IDs of different (service, role, index) differ, even if service names contain dashes |
| Names.RollingNameInjective | backend/internal/api/api.go:496 | a rolling-update ID determines its base ID and its clock reading |
| Names.RollingNameIsNotBaseName | backend/internal/api/api.go:496 | no rolling-update ID is the base ID of any replica |
| Names.ReplacementNameIsNotBaseName | backend/internal/scheduler/scheduler.go:311 | no replacement-standby ID is the base ID of any replica, although it has the form of one |
| Names.BaseOfRollingName | backend/internal/api/api.go:496-499 | the base ID of a rolling-update ID can be read off it in only one way |
| Names.BaseOfReplacementName | backend/internal/scheduler/scheduler.go:310-319 | a replacement standby belongs to no base ID |
| Names.PodKeyInjective | backend/internal/scheduler/scheduler.go:388 | different pods have different store keys |
| Names.DecimalDigits | backend/internal/compose/compose_parser.go:154 | numbers in IDs are written in decimal, most significant digit first |
| Scheduler.Scheduler.TryLockPod | backend/internal/scheduler/scheduler.go:368-391 | sends one compare-and-swap that expects the version read and carries the next version, the node, a 15 s lease, and Scheduled in place of Pending |
| Scheduler.Scheduler.UpdatePod | backend/internal/scheduler/scheduler.go:435-451 | sends one compare-and-swap that expects the version read and carries the next |
| Scheduler.Scheduler.DeletePod | backend/internal/scheduler/scheduler.go:416-423 | sends one unconditional delete |
| Scheduler.Scheduler.CreateNewStandbyPod | backend/internal/scheduler/scheduler.go:309-332 | sends one compare-and-swap that expects version 0 and carries a blank Pending standby at version 0, without dependencies |
| Scheduler.Scheduler.CheckDependencies | backend/internal/scheduler/scheduler.go:243-268 | true exactly when for each dependency the list has an Active pod of that app that is Scheduled or Running, and for `service_healthy` Running and ready |
| Scheduler.Scheduler.PromoteIfDead | backend/internal/scheduler/scheduler.go:277-304 | promotes for the first pod of the app that is confirmed dead, and only if there is one |
| Scheduler.Scheduler.Promote | backend/internal/scheduler/scheduler.go:294-301 | sends the promotion and then the order for its replacement |
| Scheduler.Scheduler.ReconcileStandby | backend/internal/scheduler/scheduler.go:273-307 | promotes the first own standby that has a dead Active of its app, and no other |
| Scheduler.Scheduler.SweepPod | backend/internal/scheduler/scheduler.go:145-162 | deletes a pod exactly when it is marked and the first pod listed under that ID is Running, and ready if it has a readiness probe |
| Scheduler.Scheduler.SweepSuperseded | backend/internal/scheduler/scheduler.go:144-163 | the deletes of a cycle, one per superseded pod, in list order |
| Scheduler.Scheduler.ClaimFirst | backend/internal/scheduler/scheduler.go:168-225 | at most one claim, for the first listed pod that is needy, has its dependencies met and fits |
| Scheduler.Scheduler.Reconcile | backend/internal/scheduler/scheduler.go:133-226 | a cycle sends its deletes, then its promotion, then its claim, all decided on the one list that was fetched |
| Scheduler.Scheduler.RenewLeases | backend/internal/scheduler/scheduler.go:346-365 | one renewal for each own assigned pod whose container runs, if that can be asked |
| SchedulerRules.CycleSends | backend/internal/scheduler/scheduler.go:133-226 | a cycle sends its deletes, its promotion and its claim, in this order, each as below |
| SchedulerRules.SweepsExactly | backend/internal/scheduler/scheduler.go:144-163 | one delete for each listed pod that is marked for a pod that runs and, if probed, is ready; in list order, and no other |
| SchedulerRules.DeletesExactly | backend/internal/scheduler/scheduler.go:144-163 | a cycle sends a delete under an ID if and only if such a pod is listed under it |
| SchedulerRules.PromotionsExactly | backend/internal/scheduler/scheduler.go:273-332 | the first own assigned standby with an Active pod of its app under a run-out lease, Fenced or on a node not called alive, becomes Active and Running at the next version under a 15 s lease, and a record that is blank but for a new ID, the app, Pending, Standby and the standby's CPU, memory and architecture is created; otherwise nothing |
| SchedulerRules.ClaimsExactly | backend/internal/scheduler/scheduler.go:168-225 | the first listed pod that is Pending or assigned under a run-out lease, has its dependencies met, is of the node's architecture or of none, and asks for at most 90% of the node's memory is claimed by one compare-and-swap to the next version, a 15 s lease and Scheduled in place of Pending; otherwise nothing |
| SchedulerRules.RenewalsExactly | backend/internal/scheduler/scheduler.go:346-391 | one compare-and-swap with a 15 s lease for each own assigned pod whose container runs, in list order, and no other |
| Agent.Agent.ReconcilePod | backend/internal/engine/agent.go:94-166 | the updates sent about one pod for each answer of runtime and probes |
| Agent.Agent.Reconcile | backend/internal/engine/agent.go:73-168 | the updates of a pass, for the node's own pods only |
| Agent.Agent.FenceStatefulPods | backend/internal/engine/agent.go:171-189 | one Fenced update for each own stateful pod, whatever its status |
| AgentRules.ReadinessIsReported | backend/internal/engine/agent.go:140-165 | a running container whose liveness probe does not fail: the record last sent, or the fetched one, says Running, and ready if and only if no TCP or HTTP readiness probe with a known address fails; one update per change, each expecting the fetched version, with nothing else changed |
| AgentRules.FailuresAreNotReported | backend/internal/engine/agent.go:140-152 | when the liveness probe fails nothing is said about readiness, and only a Scheduled pod is reported Running |
| AgentRules.RestartsAreReported | backend/internal/engine/agent.go:106-139 | after a restart the address of the new container and Running are reported in one update, unless both are known or there is no image or no start |
| AgentRules.OthersAreNotReported | backend/internal/engine/agent.go:81-103 | no update about pods of other nodes, unassigned pods, or when the runtime gives no answer |
| AgentRules.ReportsInOrder | backend/internal/engine/agent.go:92-168 | a pass sends the updates of its pods one pod after the other, in list order |
| AgentRules.FencingsExactly | backend/internal/engine/agent.go:171-189 | one update to Fenced for each own stateful pod, in list order, and no other |
| ComposeDiff.APIServer.HandleCompose | backend/internal/api/api.go:463-537 | the commands of a posted file: a rollout, a rewrite or a new pod per replica, against the last listed pod of each base ID that is not being replaced |
| ComposeDiff.APIServer.ApplyDiff | backend/internal/api/api.go:483-537 | the commands in file order, none after a mark that the log refused |
| ComposeDiff.APIServer.Change | backend/internal/api/api.go:485-536 | an image change marks the old pod and then stores a new one under a new ID; otherwise one record is stored |
| DiffRules.TableHoldsCurrent | backend/internal/api/api.go:469-481 | the table holds for each base ID the last listed pod that is not marked, if there is one |
| DiffRules.ChangesExactly | backend/internal/api/api.go:483-536 | a replica whose current pod in the posted project has another image gets a mark on that pod and, unless it is refused, the parsed pod under a new ID; with the same image the parsed pod replaces it, with its ID, status, node, readiness and version; otherwise the parsed pod is stored; always in the posted project and with every other field as parsed |
| DiffRules.DeployExactly | backend/internal/api/api.go:463-537 | a posted file does this for its replicas one by one in its order, and stops exactly after the first mark that is refused |
| ComposeDiff.RewriteForgetsLease | backend/internal/api/api.go:514-521 | a rewrite is a `set` that keeps the version but drops the lease, so that the version no longer identifies the record |
| Invariant.RequestsJustified | backend/internal/scheduler/scheduler.go:133-226 | whatever a pass of any loop sends is justified by the records in the list it read, and not sent before it was read |
| Invariant.NewReplacement | backend/internal/scheduler/scheduler.go:294-311 | only a scheduling cycle orders a replacement, at most one, under an unused key |
| Invariant.RequestKinds | backend/internal/scheduler/scheduler.go:133-226 | which loop can send which kind of request |
| Invariant.StoreWellFormed | backend/internal/scheduler/scheduler.go:388 | at every position of the log each record is stored under its own key, at a version of at least 0, with the base ID of its name |
| Invariant.ListingMember | backend/internal/scheduler/scheduler.go:114-131 | a fetched list has a record if and only if that record is stored under its own key |
| Invariant.StepKeepsInv | backend/internal/scheduler/scheduler.go:133-226 | every step, with any stale view and any commit, keeps the invariant |
| Invariant.RunKeepsInv | backend/internal/scheduler/scheduler.go:97-112 | every run keeps the invariant |
| Invariant.ReachableInv | backend/internal/scheduler/scheduler.go:97-112 | every reachable world satisfies the invariant |
| Leases.CasReads | backend/internal/scheduler/scheduler.go:368-391 | a compare-and-swap in flight, other than a replacement's, expects the version its sender read at least 0 and advances that very record at any time from its sending on |
| Leases.ReplacementRecord | backend/internal/scheduler/scheduler.go:309-332 | while a replacement's key shows version 0 it holds the record that was ordered |
| Leases.VersionsIdentifyRecords | backend/internal/cluster/fsm.go:74-98 | no ABA: while a key is only compared-and-swapped its record stays, its version never goes down, and equal versions mean equal records |
| Leases.AtMostOneWriteWins | backend/internal/cluster/fsm.go:92-98 | of the writes that expect one version of a key, at most one takes effect; only the creation of a replacement can repeat |
| Leases.EffectiveCasAdvances | backend/internal/scheduler/scheduler.go:368-391 | an effective compare-and-swap replaces exactly the record that its sender had read |
| Leases.NoLiveLeaseIsStolen | backend/internal/scheduler/scheduler.go:168-223 | an effective write that moves a pod to another node is that node's claim and finds it Pending, or assigned under a lease that has run out when the write takes effect |
| Leases.StatusOnlyClimbs | backend/internal/scheduler/scheduler.go:371-374 | Pending < Scheduled < Running < Fenced never goes down on a key that is only compared-and-swapped after the `set` that first stores it; Fenced is absorbing and freezes the lease |
| Leases.StoredLeases | backend/internal/scheduler/scheduler.go:377 | no lease of a node silent since t outlives t+15, and every assigned pod has a positive lease, under every key that no compose file rewrote while it was assigned, if that was so at the start |
| Leases.BoundedFailover | backend/internal/scheduler/scheduler.go:169-175 | 15 s after a node fell silent every pod it still holds is claimable, however late its last messages are committed, unless a compose file rewrote the pod while it was assigned or the pod started with a longer lease or none |
| Leases.RewrittenPodIsStuck | backend/internal/api/api.go:514-537 | after a committed rewrite of an assigned pod the record stays as written, is never claimable, and every compare-and-swap is refused that a node other than the holder decides on later |
| WarmStandby.FlipsAreJustified | backend/internal/scheduler/scheduler.go:273-302 | at an effective Standby-to-Active flip the promoter held that very record as assigned, and had read an Active record of the app with a run-out lease that was Fenced or on a node not called alive |
| WarmStandby.StepKeepsReserve | backend/internal/scheduler/scheduler.go:294-301 | no step, delivery or repetition lowers the number of an app's standbys not aimed at plus replacements on order, if the app's own pods are only compared-and-swapped once stored; what happens to other apps is irrelevant |
| WarmStandby.ReserveIsConserved | backend/internal/scheduler/scheduler.go:299-342 | between any two points of a run in which the app is undisturbed in this sense, its stored standbys plus replacements on order at the second are no fewer than the reserve at the first; with no order outstanding, stored standbys alone are not |
| WarmStandby.ReserveOverRun | backend/internal/scheduler/scheduler.go:294-301 | between any two points of such a run the reserve does not shrink |
| WarmStandby.SumFallsExactlyWhen | backend/internal/scheduler/scheduler.go:294-301 | stored standbys of an undisturbed app plus replacements on order become fewer exactly in the steps that commit an accepted promotion for the app, and then by one |
| WarmStandby.SumFallsInSomeRun | backend/internal/scheduler/scheduler.go:294-301 | a run in which they become fewer: a dead Active pod and one spare standby, the cycle that decides the promotion, and its commit |
| WarmStandby.LandingAddsAnActive | backend/internal/scheduler/scheduler.go:294-301 | when a promotion takes effect, every Active pod of the app is still Active, and the promoted one is another |
| WarmStandby.TwoActivesInSomeRun | backend/internal/scheduler/scheduler.go:277-301 | a run after which two Active pods of one app are stored |
| RollingUpdate.RunKeepsLinks | backend/internal/api/api.go:495-507 | in every run, from any store whose marks respect an order of birth, a marked pod's successor has the same base ID and, if ever born, is born later |
| RollingUpdate.DeletesAreJustified | backend/internal/scheduler/scheduler.go:144-163 | each committed delete was decided on a view in which a later-born pod of the same base ID was Running, and ready if it has a readiness probe |
| RollingUpdate.LatestIsNotDeleted | backend/internal/scheduler/scheduler.go:159 | no delete, however stale or repeated, names the latest-born pod of a base ID |
| RollingUpdate.LatestBornIsStored | backend/internal/scheduler/scheduler.go:142-163 | at every position of every run, from any store whose marks respect an order of birth, the latest-born pod of each base ID is stored: a rolling update never empties a lineage |
| RollingUpdate.MarksInACycleEmptyALineage | backend/internal/scheduler/scheduler.go:144-163 | a run from two running pods of one base ID, marked for replacement by each other, that ends with an empty store |
| StartOrder.StartsAreCleared | backend/internal/scheduler/scheduler.go:181-187 | if any pod of an app has left Pending, whatever was posted and whatever other apps did, then at a strictly earlier position all dependencies were met of a pod that the app had at the start or that a compose file asked for; asks only that the initial pods of this app were unplaced |
| StartOrder.StartsAfterDependency | backend/internal/scheduler/scheduler.go:243-268 | an app starts at a strictly later position than one at which each app that all its initial and posted pods depend on has an Active pod that is Scheduled or Running, or Running and ready if that is the condition of a pod |
| StartOrder.StartsAfterCondition | backend/internal/scheduler/scheduler.go:243-268 | the same in terms of the condition, if all these pods name one |
| StartOrder.CyclesNeverStart | backend/internal/scheduler/scheduler.go:181-187 | if every initial and every posted pod of a set of apps depends on some app of the set, no pod of these apps ever leaves Pending or gets a node, in any run, among any other apps |
| Readiness.ReadyWasFound | backend/internal/engine/agent.go:140-165 | in every run, a pod that is ready was so at the start or an accepted report at an earlier position made it so, of the agent that held it, had seen its container running and had no failing probe |
| Readiness.StartsAfterHealth | backend/internal/scheduler/scheduler.go:243-268 | an app that asks for the health of another starts at a strictly later position than such a report about a Running, ready, Active pod of the other, unless that pod was ready at the start |
| Confluence.CycleLowersNeedyByOne | backend/internal/scheduler/scheduler.go:168-225 | a cycle with an eligible pod takes one pod from the needy, and besides only the node's own by renewing them; any other cycle only renews; with no needy pod of its own the number falls by exactly one or stays |
| Confluence.GreedyReachesLeastFixedPoint | backend/internal/scheduler/scheduler.go:168-225 | after more cycles than needy pods, with any renewals in between, the claimed pods and those of its own that the node may have renewed instead are the least fixed point of the rules on the initial store; nothing else has changed but own leases |
| Confluence.PassesRenew | backend/internal/scheduler/scheduler.go:346-365 | passes of the renewal loop change nothing but versions and leases of the node's own assigned pods, and put these off to 15 s after the pass |
| Confluence.GreedyIsConfluent | backend/internal/scheduler/scheduler.go:168-225 | two long enough runs that list pods in any orders, at any times and with any renewals claim the same pods but for the node's own, and end with the same records but for versions and leases |
| Confluence.ClaimsAreLeastExactlyWhen | backend/internal/scheduler/scheduler.go:168-225 | what a finished run has claimed is the least fixed point if and only if it has claimed every pod of it that was the node's own |
| Confluence.ClaimsAgreeExactlyWhen | backend/internal/scheduler/scheduler.go:168-225 | all long enough runs from a store claim the same pods if and only if the least fixed point holds no needy pod of the node's own |
| Confluence.ClaimsCanDiffer | backend/internal/scheduler/scheduler.go:346-365 | a store with one own pod under a lease that has run out, and two finished runs that claim different pods |
| Confluence.OneCycleCanTakeTwo | backend/internal/scheduler/scheduler.go:346-365 | a store and a cycle after which two pods fewer are needy |
| Gossip.MyDelegate.NotifyMsg | backend/internal/network/delegate.go:43-65 | both tables are those of the packets received so far |
| Gossip.NetworkManager.UpdateNodeMetrics | backend/internal/network/network.go:33-40 | the report replaces that of its node, no other changes |
| Gossip.NetworkManager.GetNodeMetrics | backend/internal/network/network.go:42-50 | returns the stored report of the node, if there is one |
| Gossip.TablesHoldTheLatest | backend/internal/network/delegate.go:52-62 | the two tables are in step and hold, for exactly the nodes with a positive report, one of highest version |
| Gossip.DeliveriesConverge | backend/internal/network/delegate.go:43-65 | receivers of the same reports, in any orders, with repetitions and garbage, hold the same tables |
| Gossip.ConvergesExactlyWhen | backend/internal/network/delegate.go:52-56 | that holds if and only if no node gives its highest version to two different reports |
| FencingTimer.Watch.Observe | backend/internal/engine/fencing.go:30-53 | a loss starts a timer only if there is none, a leader stops and clears it |
| FencingTimer.Watch.Elapse | backend/internal/engine/fencing.go:38-43 | an armed timer fires once, at its deadline, and stays in the variable |
| FencingTimer.Watch.Turn | backend/internal/engine/fencing.go:28-54 | after each event callbacks, timer and its state are those of the trace so far |
| FencingTimer.Watch.Run | backend/internal/engine/fencing.go:25-54 | over any timed trace the callbacks are exactly those of its leaderless windows of at least 5 s |
| FencingTimer.CallbacksMatchWindows | backend/internal/engine/fencing.go:36-44 | there is one callback for each such window, 5 s after its first loss, and no other; callbacks strictly follow one another |
| FencingTimer.CallsBackExactlyWhen | backend/internal/engine/fencing.go:30-53 | there is a callback at a time if and only if 5000 ms earlier the leader was lost, not right after another loss, and no leader was seen in between |
| Interpolation.BothReadReferences | backend/internal/compose/compose_parser.go:25 | at every position of every string the server's and the UI's regular expressions, with backtracking, match and capture what a plain scanner reads |
| ReferenceForms.ReadExactly | backend/internal/compose/compose_parser.go:25 | what is read at the start of a text is a reference if and only if the text begins with `$NAME`, `${NAME}`, `${NAME-default}` or `${NAME:-default}`, of letters, digits and underscores with no digit first, as long a name as there is, and no brace in the default |
| ReferenceForms.ReferenceIsReplaced | backend/internal/compose/compose_parser.go:27-44 | a reference gives way to the value of its variable, or to its default if that is unset or empty, and what follows is interpolated on its own |
| ReferenceForms.CharacterStays | backend/internal/compose/compose_parser.go:27-44 | a character at which no such form begins stays |
| Interpolation.ServerRefines | backend/internal/compose/compose_parser.go:27-44 | the server's replacement, which matches each match a second time, yields the interpolated text |
| Interpolation.ReadIsLocal | backend/internal/compose/compose_parser.go:28-29 | a reference cut out of its string reads the same, so the second matching finds the same parts |
| Interpolation.UIRefines | ui/src/App.jsx:651-657 | the UI's replacement yields the interpolated text for what its object answers |
| Interpolation.ProgramsAgreeOnText | ui/src/App.jsx:651-657 | the two programs agree on a text when none of its references gets an inherited answer that shows |
| Interpolation.ProgramsAgreeOnTextExactlyWhen | ui/src/App.jsx:651-657 | they agree only then, if at most one reference gets such an answer, or no such answer is shorter than its default, or none is longer |
| Interpolation.OrdinaryProgramsAgreeExactlyWhen | ui/src/App.jsx:760-776 | for every environment the UI builds they agree on a text if and only if no inherited answer shows, but for texts with both a shorter and a longer default of `__proto__` than its 15 characters |
| Interpolation.OrdinaryObjectsDiffer | ui/src/App.jsx:760-776 | for every environment the UI builds, whatever text a function has, they differ on `$__proto__`, and on `$constructor` unless the user sets it |
| Interpolation.WrongAnswersCanMakeUp | ui/src/App.jsx:651-657 | for every environment the UI builds there is a text with two wrong answers on which both programs nevertheless agree |
| Interpolation.ProgramsAgreeOnAllTextsExactlyWhen | ui/src/App.jsx:651-657 | the two programs agree on all strings if and only if the object inherits no variable it does not have itself |
| Interpolation.SecondPassIsIdentityExactlyWhen | backend/internal/api/api.go:463 | interpolating again without an environment changes nothing if and only if no reference is left; no dollar sign is enough |
| ComposeParser.ParseDependencies | backend/internal/compose/compose_parser.go:81-98 | listed names ask for a start, mapped names for their condition; everything else is ignored |
| ComposeParser.ParseEnvironment | backend/internal/compose/compose_parser.go:100-134 | the interpolated text entries in the order visited, and for a database a password if it has none |
| ComposeParser.AddPassword | backend/internal/compose/compose_parser.go:120-134 | the first password entry is filled if it is empty and otherwise kept; without one an entry is added |
| ComposeParser.ParseVolumes | backend/internal/compose/compose_parser.go:136-146 | interpolated volumes, relative ones joined to the working directory if there is one |
| ComposeParser.ParseService | backend/internal/compose/compose_parser.go:71-200 | the pods of one service: at most 100 active replicas, at least one, then its standbys |
| ComposeParser.ParseComposeFile | backend/internal/compose/compose_parser.go:63-204 | the pods of all services in the order visited, or an error if the file does not decode |
| ReplicaRules.ServiceExactly | backend/internal/compose/compose_parser.go:71-200 | a service has as many Active pods as it asks for, at least 1 and at most 100, named NAME-active-i, and then its Standby pods, named NAME-standby-i; all have the service's name as app, its ports, interpolated image or PROJECT-NAME, user (1000:1000 only for an Active pod without one), dependencies, volumes and environment, are Pending, and are blank in every other field |
| ReplicaRules.FileExactly | backend/internal/compose/compose_parser.go:71-202 | the pods of a file are those of its services, one service after the other |
| ReplicaRules.DependenciesExactly | backend/internal/compose/compose_parser.go:81-98 | `service_started` for each listed text; for each mapped name with settings their condition, or the empty one; and no others |
| ReplicaRules.VolumesExactly | backend/internal/compose/compose_parser.go:136-146 | each volume interpolated, and joined to the working directory if there is one and it starts with ./ or ../ |
| ReplicaRules.EnvironmentExactly | backend/internal/compose/compose_parser.go:100-134 | the interpolated texts of the list, or NAME=TEXT for those of the map, in order and no others; for an image that mentions postgres, the first POSTGRES_PASSWORD= entry filled if empty, or one added |
| ComposeParser.ParseYieldsTheReplicas | backend/internal/compose/compose_parser.go:153-200 | a pod is parsed if and only if it is one of the replicas the file asks for |
| ComposeParser.ParsedPodsAreFreshExactlyWhen | backend/internal/compose/compose_parser.go:162-200 | every parsed pod is Pending, unowned, at version 0 and named by its base ID, as the diff expects, if and only if no service asks for more than 10^9 standbys |
| ComposeParser.ParsedIDsAreDistinct | backend/internal/compose/compose_parser.go:154-182 | no two pods of a file share an ID, whatever the services are called |
| ComposeOrder.ParseIgnoresOrder | backend/internal/compose/compose_parser.go:71 | two visits of the same file in any map orders yield the same pods equally often, up to the order of environment entries, if no database sets its password twice in an environment map |
| ComposeTranslation.ConvertService | ui/src/App.jsx:667-707 | one turn of the first loop: interpolated texts, chosen settings, fields dropped |
| ComposeTranslation.ConvertServices | ui/src/App.jsx:667-708 | the first loop does this to every service |
| ComposeTranslation.FlattenServices | ui/src/App.jsx:711-727 | the second loop replaces device-bound named volumes and nothing else |
| ComposeTranslation.ConvertCompose | ui/src/App.jsx:659-733 | the converted file |
| ConverterRules.ConvertedExactly | ui/src/App.jsx:659-733 | the same services, each with its image, environment and volumes interpolated; replicas, standbys and remapping from its own settings, else the general ones, else 1, 0 and off, where a number counts only if positive; without the four keys that are dropped, and otherwise as in the file; no named volumes, no networks |
| ConverterRules.FlattenedExactly | ui/src/App.jsx:711-727 | a volume without a slash or a leading dot, whose part before the first colon names a volume bound to a device, gets the device in its place; any other stays |
| ComposeTranslation.TextTranslates | ui/src/App.jsx:651-657 | for a text on which no inherited answer shows, the server, given the UI's text and no environment, gets what it gets from the original text and the environment, if and only if no reference is left |
| ComposeTranslation.ServiceTranslates | ui/src/App.jsx:667-727 | a converted service gives the pods of the original service with the chosen settings |
| ComposeTranslation.TranslationPreservesMeaning | ui/src/App.jsx:659-733 | converting and parsing without an environment gives the same pods, equally often, as parsing the original with the environment and the chosen settings, if on none of the file's texts an inherited answer shows or a reference is left |

## Left out

- HTTP handlers, proxying to the leader, authentication, rate limiting, bot management, ZIP and Git upload, the exec socket: I/O around the commands that matter.
- Raft elections and log replication, memberlist, mDNS: library code; the model has one committed log and prefixes of it.
- `HandleRestartPod`, `HandleDeletePod`, uploads and raw `/apply` as writers: runs have the scheduler, the agent, fencing and compose diffs only.
- AES-GCM, JSON, YAML and MessagePack codecs: a cipher with a round trip, and decoded records; a stored value whose version cannot be read counts as version 0 through the `version` function; invalid UTF-8 is not modelled.
- Key and value size limits of the store, and I/O errors of its file: a write fails only for an empty key or for lack of randomness; over runs the random source does not fail.
- Integer width: versions, leases and clock readings are unbounded.
- Floating point in the memory test: `RAMReq > 0.9 * FreeRAM` is compared in whole numbers as `10*RAMReq > 9*FreeRAM`.
- Anti-affinity and jitter: they only lengthen the delay between reading and claiming, which the model leaves arbitrary.
- `IsNodeAlive` and container state: arbitrary answers, the liveness answers fixed during one pass.
- Containers, network interfaces and probes themselves: the agent's observations are inputs; stopping and starting containers has no effect in the model.
- A node's clock skew: all nodes read one clock.
- `FreeRAM` accounting: the code never lowers it, so there is none to prove.
- The race between a timer and the leader event that would stop it: a timer due by the time of an event has fired before the event is handled.
- `filepath.Join` and the password generator: parameters of the parse.
- YAML values that fail to decode into a service, and prototype properties of the map of named volumes.
- Confluence.GreedyIsConfluent: is about the claims and renewals of one live writer with no other lease running out between cycles; deletes, promotions and the agent's reports are not part of it, since reports change what dependency checks see, and with several writers which node gets a pod is a race.  Each renewal pass reads and commits within one cycle.
- WarmStandby.ReserveIsConserved: is about runs in which each pod of the app is only compared-and-swapped after the `set` that first stores it, since a rolling update of the app can delete a standby that has been promoted or replaced.
- StartOrder.CyclesNeverStart: asks that the initial pods of these apps are Pending and unowned, and that no initial pod of another app carries a base ID of one of them.
- Leases.BoundedFailover: asks that the pod was not rewritten while assigned (see `Leases.RewrittenPodIsStuck`) and, if it was there at the start, had a lease that ends by t+15.
- Interpolation.OrdinaryProgramsAgreeExactlyWhen: leaves open the texts with both a shorter and a longer default of `__proto__`, where agreement depends on what stands between the references; it is sufficient there that no inherited answer shows, and not necessary (`Interpolation.WrongAnswersCanMakeUp`).
- RollingUpdate.LatestBornIsStored: asks that the pods of the initial store carry the base ID of their name and that its marks respect some order of birth, as those of posted files do; for marks in a cycle it fails (`RollingUpdate.MarksInACycleEmptyALineage`).
- ComposeTranslation.TranslationPreservesMeaning: compares parses that draw the same passwords from the generator, and leaves out images that become or cease to be a database's by interpolation, databases that set their password twice in an environment map, and volumes bound to a device, which the UI rewrites on purpose.
