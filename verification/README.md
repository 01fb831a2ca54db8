# Verified models of the cluster operators

Dafny models of six parts of the repository, with proofs about whole runs of them:

1. **Spectrum scheduler** (`SchedulerPlan`, `SchedulerStep`, `SchedulerMilp`, `SchedulerRun`, `Scheduler`):
   prefilling of locked resources, three passes of solver calls over priority tiers, and delivery by index.
   `SchedulerMilp` builds the constraints of a call as expressions, in the loops the solver uses, and
   proves that the whole list holds at a valuation exactly when `SchedulerStep.Feasible` does. The outside
   optimiser is an arbitrary function that returns a feasible point, says "infeasible" only when nothing is
   feasible, or fails; nothing is claimed about optimality. `SchedulerRun.LegalRun` describes every round
   the scheduler can go through, and the theorems are about all legal rounds.
2. **VINE session switch** (`Session`, `NodeSessions`, `SessionProtocol`, `SessionOperator`): one node, its
   application, the current binding and the clock. Steps are a reconciliation with its node patch, the
   handler's reaction to a label, profile edits, application syncing and deletion, taint edits and time.
3. **KISS control-plane join** (`Boxes`, `ControlPlanes`, `JoinProtocol`, `BoxStore`): the planned move of one
   box, the join gate computed on the sorted control planes, and the protocol in which a decision and its
   status write are separate steps that interleave with callbacks, job results and group changes.
4. **Data Pond controller** (`PondDevices`, `PondController`, `PondDiscovery`, `PondPublish`, `PondServer`): the
   greedy choice of devices, accounting over runs, rediscovery from binding records and publish modes, for
   the calls of the sections "CreateVolume", "DeleteVolume" and "ControllerPublishVolume" of the Container
   Storage Interface specification.
5. **Spectrum histogram** (`Bits`, `Histogram`): the bit code against a threshold specification. Words are
   natural numbers; shifts, masks and single bits are quotients and remainders by powers of two.
6. **Pipe pair pool** (`PipePools`): reference counts, the free queue and id wrap-around.

Each part has its state and steps as values, theorems about all runs of those steps, and methods or classes
in the form of the original code whose contracts equate the new state with the step function.

## Findings

- The weight given to a resource without one is documented as an average. It is the smallest known weight
  exactly when that weight is at least one (`Scheduler.FallbackIsSmallestKnown`).
- A penalty counts as load, so a served tier can end below its min. It keeps its min in all calls and rounds
  exactly when the penalty is not positive, the min is not positive, or the penalty or the min alone exceeds the
  cap, which is the max or, without one, the min (`SchedulerRun.CallKeepsMinIff`, `SchedulerRun.RoundKeepsMinIff`).
- Mutual exclusion of joins depends on what happens between a decision and its status write. A step is harmful if it
  is one of these: a commission callback that leaves an older control plane without a pending write ready and not
  bound to its group, a result of the decided control plane's own join job, or a group change that brings together two
  busy control planes or an older one that may be decided and a younger one that is, or that makes a running box a
  decided control plane. Not every harmful step lets two control planes in at once, but each of them can with
  harmless steps to follow, and runs without harmful steps never do (`JoinProtocol.HarmlessIffSafe`,
  `JoinProtocol.JoinsAreExclusiveIff`). A bound control plane that comes back without a reset is harmless. Two concrete
  runs are `JoinProtocol.EarlyResultBreaksExclusion` and `JoinProtocol.LateCommissionBreaksExclusion`.
- The sign-out grace period holds exactly as long as the handler does not untaint the node, which it does when it
  sees a label that says the node is signed in and has not stopped already (`SessionProtocol.GraceHoldsIff`). A handler
  that sees the current label never does; one that acts on an old label lets an application in at once
  (`SessionProtocol.UntaintingLetsAppIn`).
- The privileges of a binding are put into the session but never written to the node
  (`SessionProtocol.OperatorKeepsPrivilege`).
- Creating a volume under a name in use keeps the accounts right exactly when the overwritten volume had
  nothing reserved (`PondController.CreateAccountsIff`; a failing run is `PondController.RepeatedNameLosesSpace`).
- Deleting a volume that was rediscovered subtracts space that was never booked; a delete keeps the accounts right
  exactly when the volume was live or reserves nothing on devices with an account
  (`PondController.DeleteAccountsIff`; a failing run is `PondController.RediscoveredDeleteLosesSpace`).
- Devices that are full have negative availability because of the padding. The greedy choice is complete exactly
  when they come last, as they do without a topology (`PondDevices.CompleteIff`); a preferred full device in front
  makes a create fail although there is space (`PondController.FullPreferredDeviceBlocksCreate`).
- Unpublishing undoes a publish exactly when the volume was known before, since a rediscovered one stays cached, and
  the node was not the first read-only one among nodes that share it (`PondPublish.UnpublishUndoesPublishIff`).
- A negative penalty makes room for more weight than the max; a served call keeps the max exactly when the penalty is
  not negative or the min exceeds the max (`SchedulerRun.CallKeepsMaxIff`).
- The histogram's scale starts at the least known weight exactly when no weight is missing or that weight is zero; one
  missing weight moves its lower end to zero (`Histogram.LowestIsLightestIff`).

## Model

| member | source | states |
|---|---|---|
| Scheduler.FallbackIsSmallestKnown | crates/openark-spectrum-scheduler/src/lib.rs:36-62 | the fallback weight is the smallest known weight if and only if that weight is at least one |
| Scheduler.InputsReflect | crates/openark-spectrum-scheduler/src/lib.rs:36-62 | the scheduler works on the demands and bindings it is given, keeps every known weight, and gives a missing one the least known weight if that is at least one, otherwise half of one plus the smaller of one and the greatest, or one half when none is known |
| SchedulerPlan.PrefillIsValid | crates/openark-spectrum-scheduler/src/lib.rs:64-92 | after prefilling no index is lost or doubled, `filled` is the weight held, and each item holds exactly its locked resources |
| SchedulerPlan.PrefillLocksPreparing | crates/openark-spectrum-scheduler/src/lib.rs:64-92 | a resource is locked to an item exactly when its record claims that item and is still preparing, and is free exactly when its record has no claim or is not preparing |
| SchedulerPlan.ConservedIffPlacedOnce | crates/openark-spectrum-scheduler/src/lib.rs:64-92 | the index bag is conserved if and only if every index sits in exactly one list, once, or is free |
| SchedulerPlan.StoreRowsInvariant | crates/openark-spectrum-scheduler/src/solvers/milp.rs:155-164 | storing a solution keeps the plan valid and frees exactly the unmarked rows |
| SchedulerPlan.StoreRowsFill | crates/openark-spectrum-scheduler/src/solvers/milp.rs:155-164 | a target gains exactly the weight of its marked rows and all other items are untouched |
| SchedulerStep.StepKeepsPlanValid | crates/openark-spectrum-scheduler/src/solvers/milp.rs:73-86 | every allowed outcome keeps the partition, and a call that must use all resources leaves none |
| SchedulerStep.ServedBelowMax | crates/openark-spectrum-scheduler/src/solvers/milp.rs:88-111 | a served target with a non-negative penalty holds at most its max |
| SchedulerStep.ServedAboveMin | crates/openark-spectrum-scheduler/src/solvers/milp.rs:88-95 | a served target with a non-positive penalty holds at least its min |
| SchedulerStep.ServedSafeMin | crates/openark-spectrum-scheduler/src/solvers/milp.rs:60-111 | with non-negative weights a served target whose penalty cannot count towards its min holds at least its min |
| SchedulerStep.BestEffortIsFeasible | crates/openark-spectrum-scheduler/src/solvers/milp.rs:119-133 | the best-effort problem has a feasible assignment whenever the weights are positive |
| SchedulerMilp.BuildLoads | crates/openark-spectrum-scheduler/src/solvers/milp.rs:60-71 | the load expressions denote the weight plus penalty of the assigned rows at every valuation |
| SchedulerMilp.BindRows | crates/openark-spectrum-scheduler/src/solvers/milp.rs:73-86 | the row constraints hold exactly when each resource goes to one target, or to at most one |
| SchedulerMilp.BoundLoads | crates/openark-spectrum-scheduler/src/solvers/milp.rs:88-111 | the bound constraints hold exactly when every target meets its min and max, or its min exactly without a max |
| SchedulerMilp.SpreadLoads | crates/openark-spectrum-scheduler/src/solvers/milp.rs:119-133 | the deviation constraints hold exactly when all weighted loads lie within the deviation of each other |
| SchedulerMilp.BuildProblem | crates/openark-spectrum-scheduler/src/solvers/milp.rs:40-134 | the written problem holds at a valuation if and only if the valuation is feasible, and its objective denotes the sum of the loads when maximising and the deviation otherwise |
| SchedulerMilp.State.PrefillLocked | crates/openark-spectrum-scheduler/src/lib.rs:64-92 | the prefill loop leaves the state equal to the prefilled plan |
| SchedulerMilp.State.Store | crates/openark-spectrum-scheduler/src/solvers/milp.rs:155-164 | the nested loop leaves the state equal to the stored plan |
| SchedulerMilp.State.Solve | crates/openark-spectrum-scheduler/src/solvers/milp.rs:22-166 | whatever an honest optimiser answers, the outcome is one allowed for the state before, and the result tells served from stopped from failed |
| SchedulerRun.RoundPartitionsResources | crates/openark-spectrum-scheduler/src/lib.rs:132-180 | after prefilling and after every solver call each resource has exactly one place, lists weigh what is recorded, and locked resources stay with their claim |
| SchedulerRun.MaxIsRespected | crates/openark-spectrum-scheduler/src/lib.rs:98-164 | over all tiers and passes an item with a max ends at or below the larger of its max and its locked weight, if its penalty is not negative, it has no min, or its min exceeds its max |
| SchedulerRun.CallKeepsMaxIff | crates/openark-spectrum-scheduler/src/solvers/milp.rs:60-111 | all served calls leave an item with a given demand at or below its max if and only if its penalty is not negative or its min exceeds its max |
| SchedulerRun.ClassesAre | crates/openark-spectrum-scheduler/src/lib.rs:98-112 | an item takes part in the guaranteed pass exactly with a min and a max, in the burstable pass exactly with a min, and in the best-effort pass exactly without a max, always in index order |
| SchedulerRun.PenaltyCountsIff | crates/openark-spectrum-scheduler/src/solvers/milp.rs:60-111 | a bounded call may give its one item its one resource exactly when the weight, with the penalty exactly if the resource is bound to another item, lies in the bounds of the item |
| SchedulerRun.StoppedTierFitsNowhere | crates/openark-spectrum-scheduler/src/solvers/milp.rs:73-164 | when a bounded call is stopped, every assignment of free resources to its targets leaves some target outside its min or max |
| SchedulerRun.EvenCallSpreadsWeight | crates/openark-spectrum-scheduler/src/solvers/milp.rs:119-133 | after a served best-effort call the holdings of any two targets without penalty, divided by their item weights, differ by at most the deviation |
| SchedulerRun.MaxWithoutMinKeepsLockedOnly | crates/openark-spectrum-scheduler/src/lib.rs:98-112 | an item with a max but no min ends with exactly its locked resources |
| SchedulerRun.EarlierTier | crates/openark-spectrum-scheduler/src/lib.rs:114-126 | in either bounded pass an item whose priority number is not above that of a tier belongs to that tier or an earlier one |
| SchedulerRun.ServedTierKeepsItsMin | crates/openark-spectrum-scheduler/src/lib.rs:114-164 | if the guaranteed or the burstable pass serves a tier, every item of that pass with that or a smaller priority number whose min is safe from its penalty finishes at or above its min |
| SchedulerRun.EveryResourceIsPlaced | crates/openark-spectrum-scheduler/src/lib.rs:170-180 | if some item has no max and such items have positive weights, a round that does not fail hands out exactly the resources with a binding record, which is every resource when each has one |
| SchedulerRun.LockedRoundSucceeds | crates/openark-spectrum-scheduler/src/lib.rs:132-180 | a round whose resources are all locked succeeds whatever the optimiser does and delivers exactly what is locked |
| SchedulerRun.CallKeepsMinIff | crates/openark-spectrum-scheduler/src/solvers/milp.rs:60-95 | all served calls leave an item with a given demand at or above its min if and only if its penalty is not positive, its min is not positive, or its penalty or its min exceeds its cap |
| SchedulerRun.RoundKeepsMinIff | crates/openark-spectrum-scheduler/src/lib.rs:132-164 | the same for a guaranteed or burstable demand over all rounds in which its pass serves its tier |
| SchedulerRun.UnsafeRound | crates/openark-spectrum-scheduler/src/solvers/milp.rs:60-95 | for every other guaranteed demand, and every other burstable one without a max, there is a round of two items in which its tier is served and it ends below its min |
| Scheduler.BuildTiers | crates/openark-spectrum-scheduler/src/lib.rs:120-126 | the ordered map yields the targets grouped by ascending priority, each group in index order |
| Scheduler.SplitItems | crates/openark-spectrum-scheduler/src/lib.rs:98-112 | the three class lists hold exactly the items of their class, in order |
| Scheduler.RunPass | crates/openark-spectrum-scheduler/src/lib.rs:132-164 | a pass solves tiers in order and ends at the first one not served |
| Scheduler.RunPasses | crates/openark-spectrum-scheduler/src/lib.rs:128-180 | the three passes are a legal round and end in its final plan |
| Scheduler.TakeIsExact | crates/openark-spectrum-scheduler/src/state.rs:52-57 | taking distinct indices out of untouched slots yields exactly those resources, in order, and empties only those slots |
| Scheduler.Collect | crates/openark-spectrum-scheduler/src/state.rs:19-61 | disjoint index lists are delivered exactly, none dropped or delivered twice |
| Scheduler.Schedule | crates/openark-spectrum-scheduler/src/lib.rs:16-187 | every result comes from a legal round over the given demands, bindings and weights, is an error exactly when a call failed, and delivers the final plan |
| Scheduler.DeliveryMeetsMin | crates/openark-spectrum-scheduler/src/lib.rs:16-187 | an item with a safe min in a served tier is delivered resources, none twice, whose given weights, or what stands in for missing ones, add up to at least its min |
| Session.WithTaintTimes | crates/openark-vine-session-api/src/lib.rs:819-845 | setting a taint dates it only if it is new and dates no other taint |
| Session.WithTaintValues | crates/openark-vine-session-api/src/lib.rs:819-845 | setting a taint gives it the value and leaves the values of all others |
| Session.RemainingIsDeadline | crates/openark-vine-session-api/src/lib.rs:783-817 | the remaining sign-out time is the date of the taint plus the grace period, as long as that lies ahead |
| Session.WithoutTaintTimes | crates/openark-vine-session-api/src/lib.rs:767-778 | removing a taint leaves the dates of all others |
| NodeSessions.NodeSession.SetTaint | crates/openark-vine-session-api/src/lib.rs:819-845 | the first matching taint is updated in place or a new one is appended, and the result is its date |
| NodeSessions.NodeSession.RemoveTaint | crates/openark-vine-session-api/src/lib.rs:767-778 | the first matching taint is removed |
| NodeSessions.NodeSession.ApplyProfile | crates/openark-vine-session-api/src/lib.rs:693-758 | the whole new session and the profile state, for all targets |
| NodeSessions.NodeSession.SetSignOut | crates/openark-vine-session-api/src/lib.rs:783-817 | the whole new session and the remaining sign-out time |
| SessionProtocol.StepKeepsRecord | crates/openark-vine-session-operator/src/main.rs:584-747 | every step keeps that a live application was built from the recorded profile and revision and that a node without a profile has none |
| SessionProtocol.LiveAppIsRecorded | crates/openark-vine-session-operator/src/main.rs:653-723 | the same in every state of every run |
| SessionProtocol.SkippedDeletionLeaksNothing | crates/openark-vine-session-operator/src/main.rs:695-713 | whenever the profile state is deleted with nothing recorded there is no application |
| SessionProtocol.SwitchPassesThroughSignOut | crates/openark-vine-session-operator/src/main.rs:584-747 | between two live applications with different profile or revision a run passes a state with no application, signed out and unbound |
| SessionProtocol.OperatorDatesSignOutOnce | crates/openark-vine-session-api/src/lib.rs:783-845 | a reconciliation adds the sign-out taint, dated now, only to a node without one, and never redates or removes it |
| SessionProtocol.GraceStepIff | crates/openark-vine-session-handler/src/main.rs:101-161 | during the grace period a step leaves the node signed out without an application if and only if the handler does not untaint it |
| SessionProtocol.GraceHoldsIff | crates/openark-vine-session-handler/src/main.rs:61-75 | in any run from a sign-out at t0, the node stays signed out without an application up to a state before t0 + D if and only if no step untaints it |
| SessionProtocol.GracePeriodHasNoApp | crates/openark-vine-session-operator/src/main.rs:591-601 | after a sign-out at t0 no state before t0 + D has an application, in any interleaving where the handler sees the current label |
| SessionProtocol.DeadlineNeverMoves | crates/openark-vine-session-handler/src/main.rs:127-161 | every step keeps the sign-out date until the handler removes the taint |
| SessionProtocol.UntaintingLetsAppIn | crates/openark-vine-session-handler/src/main.rs:101-161 | from any unbound node without an application, a handler that untaints lets a live application appear at the same time |
| SessionOperator.Cluster.AppIsSynced | crates/openark-vine-session-operator/src/main.rs:516-580 | the application is settled when it is gone, or live and synced |
| SessionProtocol.AppIsCreatedSignedIn | crates/openark-vine-session-operator/src/main.rs:463-486 | a reconciliation creates an application only on a bound node that it signs in, from the current profile and revision |
| SessionProtocol.AppIsNeverReplaced | crates/openark-vine-session-operator/src/main.rs:491-510 | a reconciliation never removes or replaces an application, and when it starts a deletion it forgets the recorded revision and keeps the recorded profile |
| SessionProtocol.OperatorWaits | crates/openark-vine-session-operator/src/main.rs:584-652 | a reconciliation changes nothing while the node signs out, while its application is being built or deleted, and while it is unreachable and not to be drained |
| SessionProtocol.LiveAppStaysIff | crates/openark-vine-session-operator/src/main.rs:653-747 | a reconciliation that may act leaves a live application alone if the node is reachable and the target has the recorded profile and revision, and otherwise starts its deletion and forgets the revision |
| SessionProtocol.AppAppearsIff | crates/openark-vine-session-operator/src/main.rs:653-747 | with no application one appears if and only if it can be built, the node is reachable, there is a target, and the record is empty or equal to it |
| SessionProtocol.OtherwiseEndsCleared | crates/openark-vine-session-operator/src/main.rs:653-747 | with no application and no target, an unreachable node, or another record, the node ends signed out, unbound and with nothing recorded |
| SessionProtocol.SignsInWithTarget | crates/openark-vine-session-operator/src/main.rs:584-652 | a reconciliation for the recorded or a new target signs the node in with all data of that target, dated by the first binding |
| SessionProtocol.SignedInTaints | crates/openark-vine-session-api/src/lib.rs:693-758 | a node that is signed in has taints with its binding and profile, and the value of its sign-out taint is not changed |
| SessionProtocol.ClearedTaints | crates/openark-vine-session-api/src/lib.rs:693-817 | a node that is cleared has the sign-out taint, and without a target it has no taint of a binding or profile, if each was there at most once |
| SessionProtocol.OperatorKeepsPrivilege | crates/openark-vine-session-api/src/lib.rs:436-534 | a reconciliation never changes the privileges that the node shows |
| SessionProtocol.HandlerUntaintsOnce | crates/openark-vine-session-handler/src/main.rs:61-161 | after a start the first stop removes exactly the sign-out taints, and later stops leave all taints alone |
| SessionProtocol.OperatorKeepsOtherTaints | crates/openark-vine-session-operator/src/main.rs:584-747 | a reconciliation leaves every taint that is not its own |
| SessionProtocol.SwitchCompletes | crates/openark-vine-session-operator/src/main.rs:584-747 | from any settled node with a live application a changed target, reconciled, synced and waited for, ends in a live application of the new profile and revision after six steps |
| SessionOperator.Cluster.Reconcile | crates/openark-vine-session-operator/src/main.rs:584-747 | the stored node and application after a reconciliation are those of the protocol step |
| SessionOperator.Cluster.Apply | crates/openark-vine-session-handler/src/main.rs:61-124 | the handler's state and the node's taints after its reaction are those of the protocol step |
| Boxes.LaunchesAreOrderly | crates/openark-kiss-operator/src/box.rs:119-160 | a join is launched only for a ready box not bound to its group, and no other launch makes a box ready or running |
| Boxes.LaunchMeaning | crates/openark-kiss-operator/src/box.rs:38-213 | a box with a role of its own is launched to a state other than joining exactly when it is new with an address, new and silent for thirty seconds, commissioning or joining and silent for two hours, or running with another binding than its group |
| Boxes.RespawnMeaning | crates/openark-kiss-operator/src/box.rs:137-213 | a job is repeated exactly with cron jobs enabled, for a running box bound to its group and for a regrouped, failed or disconnected one |
| Boxes.TaskMeaning | crates/openark-kiss-api/src/box.rs:150-160 | a new box with an address is launched with the commission task, a ready one with the join task and any other with a reset; a repeated job pings a running box and resets the others |
| Boxes.PromotionMeaning | crates/openark-kiss-operator/src/box.rs:38-80 | exactly a box without a role of its own is given the default role, before anything else |
| Boxes.PlanMove | crates/openark-kiss-operator/src/box.rs:38-213 | the chain of overwriting checks plans exactly the specified move |
| ControlPlanes.LoadIsFaithful | crates/openark-kiss-ansible/src/cluster.rs:226-246 | the loaded list is sorted by creation and holds exactly the cluster's control planes |
| ControlPlanes.LoadIsByCreation | crates/openark-kiss-ansible/src/cluster.rs:226-246 | the loaded control planes come in the order of creation, those without a time first, and by id when created together |
| ControlPlanes.AllCounted | crates/openark-kiss-ansible/src/cluster.rs:294-307 | equal counts mean that all nodes are ready, or all running |
| ControlPlanes.NextIsFirstNotRunning | crates/openark-kiss-ansible/src/cluster.rs:275-281 | a node is next exactly when it does not run and all earlier ones do |
| ControlPlanes.GateMeaning | crates/openark-kiss-ansible/src/cluster.rs:165-213 | the gate opens for a control plane exactly when all are ready or running, it is not running, and all older ones are |
| ControlPlanes.WorkerGateMeaning | crates/openark-kiss-ansible/src/cluster.rs:180-213 | for a box that is no control plane of the cluster the gate is open exactly when every control plane of the cluster runs and the cluster is the default one or has a control plane |
| ControlPlanes.EtcdSize | crates/openark-kiss-ansible/src/cluster.rs:124-132 | the largest odd number within the count and the limit, zero standing for no limit |
| ControlPlanes.SelectEtcd | crates/openark-kiss-ansible/src/cluster.rs:118-132 | truncating and popping leave the first nodes of that size |
| ControlPlanes.RunningWithIsPrefix | crates/openark-kiss-ansible/src/cluster.rs:287-292 | when exactly the nodes before the owner run, the filtered list is the order up to the owner |
| ControlPlanes.RunningWithHolds | crates/openark-kiss-ansible/src/cluster.rs:287-292 | the filtered list holds exactly the running nodes and the owner |
| JoinProtocol.OpenGateFindsNoRival | crates/openark-kiss-ansible/src/cluster.rs:207-213 | when the gate opens for a box that may be decided no peer is decided or joining and every older peer runs |
| JoinProtocol.JoinIsDecidedIff | crates/openark-kiss-ansible/src/lib.rs:101-119 | a reconciliation decides a join exactly for a ready box not bound to its group, whose role and cluster are let in, when the gate is open: for a control plane that is the oldest not running with all started, and for a worker when all control planes run |
| JoinProtocol.WorkersFindControlPlanesRunning | crates/openark-kiss-ansible/src/cluster.rs:207-213 | at each join decision of a worker in any run every control plane of its cluster runs, and there is one unless the cluster is the default one |
| JoinProtocol.JoinTimesOutIff | crates/openark-kiss-operator/src/box.rs:163-227 | once written, a joining status is followed by a failed one exactly when two hours have passed, and is left alone until then |
| JoinProtocol.RegroupedBoxLeavesIff | crates/openark-kiss-operator/src/box.rs:137-227 | a running box whose group changes is decided to be disconnected exactly when its binding is another group, and keeps that binding |
| JoinProtocol.StepKeepsExclusiveIff | crates/openark-kiss-operator/src/box.rs:163-227 | a step keeps that at most one control plane per cluster is decided or joining and that no decided one runs or has an older peer that may be decided, if and only if it is harmless |
| JoinProtocol.ExclusiveIffSafe | crates/openark-kiss-operator/src/box.rs:137-227 | this invariant holds if and only if no run of harmless steps reaches two control planes of a cluster that are decided or joining |
| JoinProtocol.HarmlessIffSafe | crates/openark-kiss-operator/src/box.rs:163-227 | from a state with the invariant a step is harmless if and only if mutual exclusion holds after it and after whatever harmless steps follow |
| JoinProtocol.OlderIsDecidedToo | crates/openark-kiss-backend/src/routes/commission.rs:48-64 | once an older peer of a decided control plane is ready, unbound and without a pending write, harmless steps lead to both being decided |
| JoinProtocol.YoungerIsDecidedToo | crates/openark-kiss-operator/src/job.rs:146-156 | once a decided control plane runs, a machine may arrive and be decided as well |
| JoinProtocol.JoinsAreExclusiveIff | crates/openark-kiss-operator/src/box.rs:163-227 | a run keeps the invariant in every state up to k if and only if no step before k was harmful |
| JoinProtocol.DecisionFindsOlderRunning | crates/openark-kiss-ansible/src/lib.rs:101-119 | at each join decision of a run without harmful steps every older control plane runs and none is busy |
| JoinProtocol.EarlyResultBreaksExclusion | crates/openark-kiss-operator/src/job.rs:146-156 | a run in which a join result before the status write lets two control planes in |
| JoinProtocol.LateCommissionBreaksExclusion | crates/openark-kiss-backend/src/routes/commission.rs:48-64 | a run in which an older control plane commissioned with a reset before the status write lets two in |
| JoinProtocol.StepKeepsOrder | crates/openark-kiss-operator/src/box.rs:137-160 | during bring-up every control plane ever let in has all older ones running |
| JoinProtocol.FreshClusterIsInOrder | crates/openark-kiss-backend/src/routes/new.rs:39-90 | a cluster with nothing bound, decided or running starts in order |
| JoinProtocol.MembersFormPrefix | crates/openark-kiss-ansible/src/cluster.rs:207-213 | the running or joining control planes form a prefix in creation order |
| JoinProtocol.DecisionSeesPrefix | crates/openark-kiss-ansible/src/cluster.rs:287-292 | at a join decision the members are the whole creation order up to the joining box |
| JoinProtocol.QuorumOnlyGrows | crates/openark-kiss-ansible/src/cluster.rs:118-138 | the etcd list of a later join extends that of an earlier one and has odd size |
| JoinProtocol.ReturningBoxSkipsJoin | crates/openark-kiss-backend/src/routes/new.rs:39-90 | a bound box that registers and is commissioned again runs without a join exactly if it was not reset, and after a reset it is decided to join exactly if the gate is open |
| JoinProtocol.NewMachineJoins | crates/openark-kiss-backend/src/routes/new.rs:32-90 | from any state in which the control planes of the default cluster run, a machine that registers for the first time ends up running and bound to the default cluster in its default role, if that role is let in and no control plane |
| JoinProtocol.JobsFollowDecisions | crates/openark-kiss-ansible/src/lib.rs:78-119 | a decision that launches or repeats a job drops the earlier join job of its box, and exactly a decided join creates one |
| JoinProtocol.FailedBoxWaits | crates/openark-kiss-operator/src/job.rs:137-178 | a box whose job failed keeps its binding and is not decided to join while it stays failed |
| BoxStore.Store.Commission | crates/openark-kiss-backend/src/routes/commission.rs:37-66 | the box becomes ready, a reset forgets its binding, and an unknown machine is refused |
| BoxStore.Store.Spawn | crates/openark-kiss-ansible/src/lib.rs:78-119 | earlier jobs are dropped first, and a join job is created exactly when the gate is open |
| BoxStore.Store.Reconcile | crates/openark-kiss-operator/src/box.rs:38-213 | the store after a reconciliation is that of the decision step |
| BoxStore.Store.ReconcileJob | crates/openark-kiss-operator/src/job.rs:137-178 | success moves a box to the completed state of its task if there is one, failure to Failed, and success is looked at first |
| PondDevices.PickDevices | contrib/data-pond/src/controller.rs:451-471 | one iterator over the candidates, consumed replica by replica, yields the specified filling |
| PondDevices.FillOneTakesNext | contrib/data-pond/src/volume.rs:80-96 | a replica's bindings are the next candidates, reserve at most what is available and never more than the demand |
| PondDevices.FillOneFindsPrefix | contrib/data-pond/src/controller.rs:459-470 | a replica is filled exactly when some prefix of the candidates covers the demand |
| PondDevices.OneReplicaIsComplete | contrib/data-pond/src/controller.rs:451-477 | when full devices come last a replica is filled exactly when the positive space covers the demand |
| PondDevices.CompleteIff | contrib/data-pond/src/controller.rs:451-477 | the choice fills every demand that the positive space covers if and only if full devices come last |
| PondDevices.FewestDevices | contrib/data-pond/src/controller.rs:451-477 | any choice of candidates that covers the demand has at least as many devices |
| PondDevices.FillAllFindsRuns | contrib/data-pond/src/controller.rs:451-477 | all replicas are filled exactly when the candidates fall into that many runs, one after the other, each of them the shortest that covers the demand |
| PondDevices.TotalMeansEachReplica | contrib/data-pond/src/controller.rs:451-477 | if the grand total suffices, every replica got the whole demand from its own contiguous run of bindings |
| PondDevices.RankInvariant | contrib/data-pond/src/controller.rs:396-441 | the candidates are ordered, list each device once and hold all the space of the admissible ponds |
| PondDevices.RankOrigin | contrib/data-pond/src/controller.rs:396-441 | every candidate is a listed device at its current offset, and none is preferred without a topology |
| PondDevices.RankOrder | contrib/data-pond/src/controller.rs:396-441 | the candidates come by falling preference, then by falling space, then by the names of pond and device in dictionary order |
| PondDevices.LaterTwinReplaces | contrib/data-pond/src/controller.rs:396-441 | of two devices of the same rank only the later one is a candidate |
| PondDevices.MeetsMeans | contrib/data-pond/src/controller.rs:354-391 | a pond meets the requirements exactly when there is no topology or it offers every segment of some requisite topology |
| PondDevices.PreferenceCounts | contrib/data-pond/src/controller.rs:354-391 | a pond is preferred by the number of the preferred topologies of which it offers every segment |
| PondDevices.RankIsAdmissible | contrib/data-pond/src/controller.rs:396-441 | every candidate is a device of a pond that offers every segment of some requisite topology, and carries the preference of that pond |
| PondDevices.CandidateIff | contrib/data-pond/src/controller.rs:396-441 | a listed device is a candidate if and only if its pond offers every segment of some requisite topology or there is no topology |
| PondController.CreateIsComplete | contrib/data-pond/src/controller.rs:396-477 | a one-replica request of positive size is planned exactly when a prefix of the ranked devices covers it; when full devices come last, as without topology, exactly when the total space covers it |
| PondController.PlannedOnAdmissiblePond | contrib/data-pond/src/controller.rs:396-484 | every planned binding lies on a listed device of a pond that offers every segment of some requisite topology, if there is a topology |
| PondController.NoAdmissiblePondIsRefused | contrib/data-pond/src/controller.rs:396-477 | a request of positive size is refused as exhausted when no pond is admissible or the list of requisite topologies is empty |
| PondController.CreateFindsRunsIff | contrib/data-pond/src/controller.rs:443-477 | a request of positive size for n replicas is planned exactly when the candidates fall into n shortest covering runs |
| PondController.CreateRefusals | contrib/data-pond/src/controller.rs:293-352 | a request without bytes, options or attributes is invalid, one with a content source unimplemented, and nothing else is refused for another reason than lack of space |
| PondController.CreateStoresPlan | contrib/data-pond/src/controller.rs:486-552 | a create succeeds exactly when it is planned and every pond accepts, and then stores the planned bindings under its name with no node published |
| PondController.FullPreferredDeviceBlocksCreate | contrib/data-pond/src/controller.rs:396-441 | with a topology a preferred full device in front makes a create fail that the total space covers |
| PondController.CreateUsesFewestDevices | contrib/data-pond/src/controller.rs:396-477 | such a plan uses the fewest devices possible |
| PondController.CreateFillsEachReplica | contrib/data-pond/src/controller.rs:443-484 | a planned volume gives every replica the whole demand, the number of replicas being the parsed one or one if that is missing or below one, uses no device twice and is numbered in order |
| PondController.CreateAccountsIff | contrib/data-pond/src/controller.rs:521-532 | after a create the accounts are right exactly when the name was fresh or the overwritten volume reserved nothing |
| PondController.RepeatedNameLosesSpace | contrib/data-pond/src/controller.rs:521-532 | a run that creates a name twice ends with twice the space booked that is live |
| PondController.PlannedBindingFits | contrib/data-pond/src/volume.rs:80-96 | a planned binding reserves between zero and what its device has left |
| PondController.DeleteAccounts | contrib/data-pond/src/controller.rs:580-596 | deleting a live volume gives back exactly what it reserved |
| PondController.DeleteAccountsIff | contrib/data-pond/src/controller.rs:580-596 | after a delete the accounts are right exactly when the volume was live or reserves nothing on devices with an account |
| PondController.DeleteSucceedsIff | contrib/data-pond/src/controller.rs:554-598 | a delete succeeds exactly when the ponds accept and the volume is cached without a published node or can be rediscovered, and then forgets it |
| PondController.RediscoveredDeleteLosesSpace | contrib/data-pond/src/controller.rs:166-172 | a run that deletes a rediscovered volume gives back the space of another live one |
| PondController.OpKeepsSound | contrib/data-pond/src/controller.rs:293-741 | every disciplined call keeps the accounts right and within capacity |
| PondController.AccountsAreConserved | contrib/data-pond/src/controller.rs:522-596 | over every disciplined run each account is the sum over live bindings and stays between zero and the capacity |
| PondController.AccountMovesByBooked | contrib/data-pond/src/controller.rs:522-596 | every call moves every account by exactly what it books or gives back, failed calls by nothing |
| PondDiscovery.DiscoverAllFindsRecords | contrib/data-pond/src/controller.rs:116-140 | discovery finds exactly the reported records, and succeeds when every device is listed |
| PondDiscovery.DiscoverAllFailsIff | contrib/data-pond/src/controller.rs:116-140 | discovery fails exactly when some record names a device that is not listed, as an internal error |
| PondDiscovery.RediscoveryErrors | contrib/data-pond/src/controller.rs:142-164 | a volume is unavailable exactly when all devices are listed and no record or another number than the first one says is reported, and every other failure is internal |
| PondDiscovery.RediscoveryRoundTrip | contrib/data-pond/src/controller.rs:110-176 | from any rearrangement of written records the original order is rebuilt exactly when none is lost |
| PondDiscovery.CreatedVolumeIsRediscovered | contrib/data-pond/src/controller.rs:110-176 | from any rearrangement of the records a create planned the controller rebuilds exactly the planned bindings, devices included, if there were any and none is lost, and refuses otherwise |
| PondDiscovery.RediscoveryIsOrdered | contrib/data-pond/src/controller.rs:142-164 | every success has record i at position i and nothing that was not reported |
| PondPublish.OpKeepsModes | contrib/data-pond/src/controller.rs:643-684 | every call keeps that the nodes of an unshared volume hold it in the stored mode, and that no flag is up when there are none |
| PondPublish.UnsharedVolumesHaveOneMode | contrib/data-pond/src/controller.rs:643-738 | the same over every run |
| PondPublish.RefusedExactlyOnConflict | contrib/data-pond/src/controller.rs:646-659 | in a run a node is refused an unshared volume exactly when the other mode is already granted |
| PondPublish.DeleteNeedsNoNode | contrib/data-pond/src/controller.rs:568-574 | a delete that succeeds finds no node holding the volume |
| PondPublish.SharedVolumesMixModes | contrib/data-pond/src/controller.rs:646-659 | a shared volume takes nodes in both modes |
| PondPublish.RediscoveredVolumeKeepsMode | contrib/data-pond/src/controller.rs:600-692 | after a first node on a rediscovered volume a second one is refused exactly if the request that found it was not shared and the modes differ |
| PondPublish.FailuresOf | contrib/data-pond/src/controller.rs:554-684 | a failed publish or delete books and grants nothing, and fails as aborted exactly on a cached volume with a conflict or a published node |
| PondServer.Server.FilterDevices | contrib/data-pond/src/controller.rs:396-441 | the nested iteration yields the ranked candidates |
| PondServer.Server.CreateVolume | contrib/data-pond/src/controller.rs:293-552 | the service state and the result are those of the create step |
| PondServer.Server.GetVolumeOrProvision | contrib/data-pond/src/controller.rs:110-176 | the volume is cached or rediscovered, or the state is unchanged |
| PondServer.Server.DeleteVolume | contrib/data-pond/src/controller.rs:554-598 | the service state and the result are those of the delete step |
| PondServer.Server.PublishVolume | contrib/data-pond/src/controller.rs:600-692 | the service state and the result are those of the publish step |
| PondPublish.UnpublishUndoesPublishIff | contrib/data-pond/src/controller.rs:694-741 | unpublishing a newly published node restores the state exactly when the volume was known before and the node was not the first read-only one among nodes that share it |
| Histogram.MaskedWordIsLevel | crates/openark-spectrum-operator/src/utils/histogram.rs:57-79 | masked and clamped, an item's word is its quantised weight, at least one, or all ones without a usable weight |
| Histogram.LevelIsThreshold | crates/openark-spectrum-operator/src/utils/histogram.rs:57-67 | on a spread scale the level of a known weight is at least n > 1 exactly when its distance from the low end, times the top power, is at least n times the length of the scale |
| Histogram.HighestIsHeaviest | crates/openark-spectrum-operator/src/utils/histogram.rs:47-55 | the scale ends at the largest known weight, or at zero when none is known |
| Histogram.AccumulatedMeansReached | crates/openark-spectrum-operator/src/utils/histogram.rs:57-92 | with accumulation an item is in bucket k exactly if k is zero, its weight is missing, no scale spreads, or its distance from the low end reaches that share of the scale |
| Histogram.HeavierIsHigher | crates/openark-spectrum-operator/src/utils/histogram.rs:57-67 | a heavier item never gets a lower level |
| Histogram.HeaviestReachesTop | crates/openark-spectrum-operator/src/utils/histogram.rs:57-67 | the heaviest item gets exactly the top power |
| Histogram.FillBelow | crates/openark-spectrum-operator/src/utils/histogram.rs:80-87 | the loop with a break marks exactly the powers of two the word reaches |
| Histogram.Classify | crates/openark-spectrum-operator/src/utils/histogram.rs:76-92 | an item's flags are the thresholds it reaches with accumulation and its bits without |
| Histogram.Build | crates/openark-spectrum-operator/src/utils/histogram.rs:13-106 | sizes out of range are refused; bucket k holds exactly the items of its level, and with accumulation exactly the items that reach its share of the scale, in their order |
| Histogram.SelectKeepsOrder | crates/openark-spectrum-operator/src/utils/histogram.rs:94-103 | a bucket takes the flagged items, each once and in their order |
| Histogram.AccumulatedBucketsNest | crates/openark-spectrum-operator/src/utils/histogram.rs:80-92 | with accumulation each bucket contains the next one as a subsequence |
| Histogram.PlainBucketsAddUp | crates/openark-spectrum-operator/src/utils/histogram.rs:73-92 | without accumulation the powers of an item's buckets add up to its level |
| Histogram.EveryItemLands | crates/openark-spectrum-operator/src/utils/histogram.rs:73-103 | every item lands in some bucket, and one without a weight in all |
| Histogram.LowestIsLightestIff | crates/openark-spectrum-operator/src/utils/histogram.rs:47-55 | the scale starts at the least known weight if and only if no weight is missing or that weight is zero; a missing weight moves it to zero |
| PipePools.OpKeepsValid | contrib/dark-lake-rt-io-uring/src/pipe.rs:298-332 | every operation keeps that a pair is queued, once, exactly when both ends are back, and that the pool is as large as its peak use, when the id of a new pair is free |
| PipePools.HandedOutIsFreeIff | contrib/dark-lake-rt-io-uring/src/pipe.rs:51-59 | a handed-out pair has no end outstanding if and only if it was queued or its new id is free |
| PipePools.PoolStaysValid | contrib/dark-lake-rt-io-uring/src/pipe.rs:288-333 | the same in every state of every run that has not opened more pairs than there are ids, however many it reused; until then the next id counts the opened pairs |
| PipePools.NoPairIsHandedOutEarly | contrib/dark-lake-rt-io-uring/src/pipe.rs:298-316 | in such a run a handed-out pair has no end outstanding before and both after |
| PipePools.NewPairIsUnlimited | contrib/dark-lake-rt-io-uring/src/pipe.rs:34-59 | a new pair has the next id and no limits, and ids run through all 32-bit words but never wrap to zero |
| PipePools.PoolSizeIsPeakUse | contrib/dark-lake-rt-io-uring/src/pipe.rs:288-333 | in such a run the pool size is the largest number of pairs in use at any one time so far |
| PipePools.Pipe2Pool.DequeuePair | contrib/dark-lake-rt-io-uring/src/pipe.rs:298-316 | both ends of the pair become outstanding; in a valid pool neither was before exactly when the next id was free or not needed, and the pool then stays valid |
| PipePools.Pipe2Pool.EnqueuePipe | contrib/dark-lake-rt-io-uring/src/pipe.rs:318-332 | ends come back one by one; ends that were out leave a valid pool valid, with the pair queued exactly when both are back |
| PipePools.ReturnedStatesAreKept | contrib/dark-lake-rt-io-uring/src/pipe.rs:318-332 | an end that comes back leaves its state with the pair, and no other end or pair changes |
| PipePools.LastBackIsNextOut | contrib/dark-lake-rt-io-uring/src/pipe.rs:298-332 | the pair that came back last is handed out next, with the states it came back with |

## Left out

- Optimality of schedules: the optimiser runs with a gap above one and a time limit of a second, so any feasible answer is allowed.
- Floating-point rounding, infinities and NaN: weights are exact reals, and a ratio with a zero item weight is treated as no constraint on an honest optimiser.
- The tolerance of binary variables: a matrix entry is a truth value, so the comparison with one half is exact.
- 64-bit overflow of byte counts in Data Pond: sizes are unbounded integers.
- Parsing of labels, attributes, capabilities and secrets: a parse failure is an input of the call.
- Pond discovery over the network: a refresh replaces the pond list; failed remote calls are inputs.
- Extents: `offset` is a running total, so extents of different volumes may overlap once an earlier one is deleted; only totals are accounted.
- Remote effects of a create that fails after some ponds have allocated: only the controller's own state is modelled.
- Choice of the binding for a node by selector and priority: the environment sets the current binding and profile.
- Node resource labels and GPU labels: one opaque label stands for them, and whether an application can be built is an input.
- Failed node patches: a reconciliation is one step with its patch.
- Deletion of the node object and restarts of the handler.
- Contents of jobs, playbooks, environment variables and rendered etcd host strings; hosts without an address are dropped only there.
- Jobs as objects: live join jobs are kept as a set, and any job may report failure at any time.
- Two-phase writes inside one callback of the backend: registering or commissioning a box is one step.
- Pair pools after their ids have wrapped: `PipePools.HandedOutIsFreeIff` says when a pair is then handed out early.
- The single-file pool beside the pair pool, and the event loop that uses both.
