# dockrail: a verified model

dockrail deploys Docker Compose projects over SSH. This project models its two engines and
two of its text codecs in Dafny, and proves what they promise.

`dafny verify dfyconfig.toml` checks every file.

**The fleet reconciler.** A declared fleet (backends with replicas on GPUs, routed services)
is compared with what is observed, by container labels. The packer (`Schedule`, `Packing`,
`Packer`) chooses GPUs greedily for the missing replicas. The planner (`Observe`, `Plan`,
`Compute`) emits three phases: converge, rewire, drain. The executor (`Apply`) carries them out
in a scope, and on a failure holds or rolls back. `World` says what each action leaves for the
next observation to find, and `Services` which container of a service is seen. The theorems are
in `Reconcile`, `Loss`, `HoldRun` and `Rerun` (resumption, the fixpoint, losses, rewires,
confluence), `Capacity` (the diff, serving capacity, phase order), `Memory` (no
over-commit) and `Rollback`; `PlanFacts` and `Resume` lead up to them. `Greedy`, `PlanExact` and
`Placement` say what the packer and the planner answer in the words of the configuration and the
observation alone. `Examples` and `Unsettled`
have the fleets at which a promise fails.

**The single-host engine.** `History` has what is derived from the append-only deploy history,
`BlueGreen` and `Recreate` the cutover of one service command by command, `Engine` the deploys,
rollbacks and pruning of a project that calls them, `Traffic` what its services serve beside what
the history says, and `Lock` the deploy lock with any number of clients and the wait loop of one.

**The codecs.** `Shell` is the secrets env-file and its quoting, `Vars` the `${vars.x}`
substitution pass. `Override` (config hashes, image tags) and `Vram` (memory need) serve the
reconciler.

How the model is built:

- Code that loops over mutable state is a method with loop invariants, proved against a
  specification function (`Compute` against `PlanOf`, `PlanDelta` against `PlanDeltaSpec`,
  `Run` against `RunEnd`, `RetainedTags` against `Window`); the theorems are about those
  functions. Objects that issue host commands are classes.
- A host is adversarial. In `Apply` a script decides how each action ends: done, failed without
  effect, failed with its whole effect, or, for an update, failed with its container lost. In
  `BlueGreen`, `Recreate` and `Engine` every command chooses its own outcome, and a container that
  was started may have exited when it is probed. A theorem holds for every script and choice.
- What is observed is an index (`Fleet.Observed`): unreachable hosts, replicas by (backend,
  index), the one container of each service that the planner sees, the containers of services on
  every host, free MiB by GPU. `Compute` takes the host listings and plans on the index of them.
  Planning again means planning on any listings whose index is the state an execution left.
- A deploy or an update leaves a service's containers on other hosts alone. The observer lists
  the hosts by name, so the one on the last host is seen (`Observe.Orderly`). An image is its
  repository with the tag, or with an empty tag whatever the compose file makes of that.
- A placed replica takes exactly its need from its GPU; a removed or a lost one gives it back.
- Labels enter as the planner reads them: a replica label that is not an integer is `None`, a
  GPU label that is not one is 0. A pin is what ParsePin makes of it, and `vram_min` is the
  integer that ParseMiB returns, or the fact that it does not parse.
- The digest of a config hash is represented by the text it is taken over, so two hashes agree
  exactly when the joined tuples do.
- A GPU occupancy map of maps is a set of (GPU, backend) pairs; kept and placed replicas are
  keyed by (backend, index).

Where the code and its documentation differ, the model follows the code:

- `docs/specs/2026-07-14-dockrail-scheduler-design.md:58` schedules pins before everything else;
  the packer takes all backends in name order. Pins come first exactly when no backend that may go
  anywhere is named before a pinned one (`Packer.PinsFirstExact`); in
  `Examples.PinnedBackendIsStarved` the packer gives up where pins first would fit.
- `docs/specs/2026-07-14-dockrail-v2-fleet-design.md:221-222` calls a re-run idempotent by
  construction. That holds for replicas. A service settles exactly when it runs on no host listed
  after its own and its tag reads back; otherwise it is updated on every run, as it is when it
  was moved (`Unsettled.MovedServiceIsUpdatedForever`) or has no tag but an image with one
  (`Unsettled.UntaggedServiceIsUpdatedForever`). The end state is the same all the same
  (`Rerun.Confluence`).
- A rewire that was not reached comes back exactly when some of the work left touches its
  backend's replicas or deploys its service (`HoldRun.PendingRewires`), so it may be lost
  (`Examples.RewireIsLost`). After a failed update that lost its container the fleet can be planned
  exactly if the packer succeeds without that replica and with its memory (`Loss.ReplicaLost`), so
  it may be that it cannot (`Examples.LostUpdateCannotBePlanned`).
- The same document (line 41) says rollback reverses the applied actions, and that a failed action
  rolls itself back. An updated replica is removed, not restored, and a placement that fails its
  probe stays up: `Rollback.RollbackRestores` says exactly when the fleet is restored.
- `engine/engine.go:27-30` says that a rollback's record carries no hash. The hash is kept in the
  engine, so that is true of an engine that has not deployed (`Engine.DeployThenRollback`); the
  command line makes an engine for each command.
- `engine/engine.go:139-141` offers every tag of the window for rollback. One may be refused as
  gone, because pruning also removes an image that the compose file names with a fixed tag equal
  to an old one (`Engine.StepKeepsFixed`, `Engine.FixedImageIsLost`).
- `engine/engine.go:115-119` and `139-141` promise rollbacks to the tags of the history. A record
  has one tag, that of the service visited last, so after a deploy whose services differ in tag a
  tag of the window may lack an image (`Engine.StepKeepsWindow`, `Engine.MixedTagsBreakTheWindow`).
- `README.md` of the repository names `state.json`; the engine keeps `history.jsonl`. It says
  that a failed readiness on the stop-old-first path restarts the old color; the new color is not
  stopped there. Whether the next cutover then knows which color serves is said exactly by
  `BlueGreen.AfterFailedSequencedProbe`, with `BlueGreen.ServingColorMistaken` for both ways it may not.

## Model

| member | source | states |
|---|---|---|
| Schedule.SelectGpu | fleet/schedule/schedule.go:175-222 | the scan takes, among the pool's GPUs with enough free memory and not holding the backend, the one with the least free memory for binpack, the first for first-fit, the one with the most for any other policy, ties to the least (host, index); best is the largest free memory in the pool; on failure the affinity flag holds exactly when some pool GPU fits |
| Schedule.ChoiceUnique | fleet/schedule/schedule.go:205-216 | an eligible GPU that the policy prefers to every other candidate is the choice |
| Packer.PlanDelta | fleet/schedule/schedule.go:67-168 | the nested loops over backends, pins and replicas give, per backend, the placements of the sequential run of demands, or its error |
| Greedy.TurnExact | fleet/schedule/schedule.go:111-166 | turn by turn, with the memory that the turns before have left: a kept replica stays, a pinned one is on its pin with room, any other on the policy's best GPU of its pool with room and no replica of its backend |
| Greedy.DemandsExact | fleet/schedule/schedule.go:105-150 | the turns are those of every replica of every backend on GPUs, by backend name and index, with need, pin, pool and policy (the backend's, then the fleet's, then spread) |
| Packer.BackendFeasible | fleet/schedule/schedule.go:150-166 | an auto backend's turn succeeds, under every policy, exactly when at least as many pool GPUs fit and do not hold the backend as replicas are missing |
| Packer.PinsFirstExact | fleet/schedule/schedule.go:105-119 | every pinned replica takes its turn before every other one if and only if no backend that goes anywhere has a name before that of a pinned one |
| Examples.PinnedBackendIsStarved | fleet/schedule/schedule.go:111-166 | a configuration at which a backend placed anywhere takes the GPU another is pinned to, so the packer gives up, and pins first would pack |
| Packing.AutoFailsLate | fleet/schedule/schedule.go:150-166 | otherwise it fails at the missing replica before which exactly as many were placed as there were such GPUs |
| Packing.StuckExplained | fleet/schedule/schedule.go:33-42 | the packer gives up only at a replica for which no GPU is acceptable, and its error is true of the ledger at that point: the pin's free memory, or the pool's largest and whether some GPU with room is held by the backend |
| Packing.PackCovers | fleet/schedule/schedule.go:111-166 | a successful run answers every demand once and in order; kept replicas are echoed, pins go to their pin, auto replicas to schedulable GPUs of their pool |
| Packing.AntiAffinity | fleet/schedule/schedule.go:83-104 | a newly placed auto replica shares its GPU with no other replica of its backend, kept or new |
| Packing.PackConserves | fleet/schedule/schedule.go:77-93 | ledger plus reservations is what was free at the start, on every GPU, and the ledger never goes below zero |
| Packing.PackIdempotent | fleet/schedule/schedule.go:63-66 | feeding the whole result back as kept returns it unchanged for any state |
| Packing.PackResumes | fleet/schedule/schedule.go:67-168 | with the first placement kept and its memory gone, the packer makes every later choice as before |
| Packer.GroupedByBackend | fleet/schedule/schedule.go:111-166 | each backend's placements are its replicas 0..n-1 in order, and the groups in name order are the whole run |
| Vram.NeededIsNearest | vram/vram.go:44-50 | the need is the integer nearest to 1.2 times the size, in MiB, exactly for sizes that are not negative; for negative ones it is given too |
| Order.StringLessExact | fleet/schedule/schedule.go:105-109 | the order on names: equal up to a position, and there at its end or with the lesser character |
| Override.BaseNameIdempotent | fleet/override/override.go:26-41 | taking the base name twice is taking it once, for every path |
| Override.BaseNameOf | fleet/override/override.go:26-34 | the base name is the last part of the path that is not empty |
| Override.StampedHashIsDiffedHash | fleet/override/override.go:26-41 | the hash stamped from the base name is the hash diffed from the full path |
| Override.ReplicaHashExact | fleet/override/override.go:21-34 | two replicas carry the same hash exactly when every field of the tuple agrees |
| Override.ServiceHashExact | fleet/override/override.go:36-41 | the same of services: tag, compose file, template, name |
| Override.TagRoundTrip | fleet/plan/plan.go:83-91 | the observed tag of repo:tag is the deployed tag, for every repository and every tag that the executor's pattern admits |
| Override.TagOfParts | fleet/plan/plan.go:83-91 | the tag of any reference is what follows the last colon of its last part, none without one |
| Override.SafeTagExact | fleet/apply/exec.go:20-21 | the tags that the executor admits, character by character |
| Observe.Index | fleet/plan/plan.go:97-125 | the loops over hosts, containers and GPUs build the index |
| Observe.IndexFaithful | fleet/plan/plan.go:106-125 | a replica is in the index exactly when some managed container carries its labels, and its entry reads such a container |
| Observe.UniqueMeansExact | fleet/plan/plan.go:106-125 | with one container per identity the entry has that container's host, GPU label, image tag and hash label |
| Observe.ReplicaIsLastListed | fleet/plan/plan.go:106-125 | with several the entry has those of the last one listed |
| Observe.ServiceIsLastListed | fleet/plan/plan.go:106-125 | the same of services: tag and hash |
| Observe.ErrorsExact | fleet/plan/plan.go:97-103 | the hosts in error are those listed with an error |
| Observe.FreeExact | fleet/schedule/schedule.go:77-85 | the packer is offered exactly the GPUs of the other hosts, each with the free memory listed |
| Observe.FreeIsReachable | fleet/schedule/schedule.go:77-85 | no GPU of a host in error is offered to the packer |
| Observe.ListingIsOrderly | fleet/observe/observe.go:65-80 | with the hosts listed by name the container seen of a service is the one on its last host |
| Compute.Compute | fleet/plan/plan.go:97-266 | the whole planner, loop by loop, computes the plan of the indexed observation, or the packer's error, for every input |
| PlanExact.BlockedExact | fleet/plan/plan.go:129-149 | a backend is left unplanned exactly when it is auto with a pool host in error, or not auto with a pin on one |
| PlanExact.WarningsExact | fleet/plan/plan.go:129-149 | the warnings name exactly those backends, and the services on hosts in error |
| PlanExact.WarningsOrdered | fleet/plan/plan.go:129-149 | backends first, each kind by name and once |
| PlanExact.HiddenLeftAlone | fleet/plan/plan.go:129-149 | no action names such a backend |
| PlanExact.ActionsExact | fleet/plan/plan.go:151-251 | an action is in the converge or the drain phase if and only if the configuration, the observation and the packer's result call for it, field by field: missing, drifted by tag or hash, beyond the count |
| PlanExact.RewireExact | fleet/plan/plan.go:232-261 | the same of the rewire phase, endpoints included |
| PlanExact.PlanOrdered | fleet/plan/plan.go:151-251 | updates, then placements, both by backend and index, then services by name; drains by backend and index |
| PlanExact.RewireOrdered | fleet/plan/plan.go:232-261 | rewires by service name and in the order of its uses |
| Placement.PlacementExact | fleet/plan/plan.go:181-213 | each placement of a plan is on its pin with room, or on the policy's best GPU of its pool, given the free memory observed, the replicas that stay and the placements before it |
| Capacity.DiffExact | fleet/plan/plan.go:151-230 | a replica is placed exactly when wanted and missing, updated exactly when wanted and stale, removed exactly when observed, not blocked and beyond the desired count |
| Capacity.UnreachableLeftAlone | fleet/plan/plan.go:129-149 | no action names a blocked backend; nothing is placed, deployed or wired on a host in error |
| HoldRun.RewiresExact | fleet/plan/plan.go:232-261 | the rewire phase is exactly the uses of a reachable service whose deploy or whose backend changed |
| World.StampIsFresh | fleet/apply/exec.go:63-95 | a replica that was placed or updated is not stale for the planner |
| World.ServiceStampIsFresh | fleet/apply/exec.go:97-119 | a service that was deployed and is seen needs no change if and only if its tag reads back: always with a tag, without one exactly if the bare image has none |
| Services.ServicesAfter | fleet/plan/plan.go:232-261 | after the first j service actions the service phase is the repeats of those that do not settle and then the other actions |
| Apply.Executor.Run | fleet/apply/apply.go:61-95 | applied, failed and pending are the plan's actions that carry the scope's name, in its order, split at the first that does not succeed; exactly those up to it are dispatched, then a rollback's removals, and the fleet ends in the state after them |
| Apply.Executor.Rollback | fleet/apply/apply.go:97-109 | the commands remove the placements and updates, latest first, and nothing else, whatever each removal returns |
| Reconcile.Resumption | fleet/plan/plan.go:151-261 | stop an unscoped run after any of its actions and plan again: the converge and drain phases are exactly the unexecuted converge and drain actions, in order, with the same hosts, GPUs and tags, behind one update for each service carried out that does not settle |
| Reconcile.Fixpoint | fleet/plan/plan.go:97-266 | once every action was carried out, planning again gives three empty phases, with or without unreachable hosts, if and only if every service deployed or updated settles |
| Unsettled.MovedServiceIsUpdatedForever | fleet/plan/plan.go:106-125 | a service moved to a host listed earlier: the update is planned again on the listing it leaves, and changes nothing |
| Unsettled.UntaggedServiceIsUpdatedForever | fleet/apply/exec.go:97-119 | a service without a tag whose image has one is updated on every run |
| Unsettled.CopiesDrainOneByOne | fleet/plan/plan.go:213-230 | of two containers with the labels of one extra replica the planner drains the last listed, and the other when it plans again |
| Rerun.Confluence | fleet/apply/apply.go:82-94 | stopping after any action, planning again and carrying that out ends in the state of the whole first run |
| Rerun.RerunsEndAlike | fleet/apply/apply.go:82-94 | the same for any number of hold runs that stop, cleanly or not but without a loss, until one gets through |
| HoldRun.HoldRunResumes | fleet/apply/apply.go:82-94 | for every pattern of failures a hold run leaves nothing to plan, or its pending work, with the failed action in front unless it took effect, and before it the services that do not settle; or what the loss of a container leaves |
| Loss.ReplicaLost | fleet/apply/exec.go:63-95 | after an update that lost its container planning succeeds if and only if the packer does without that replica and with its memory back; the whole converge phase is then given, that replica placed in it |
| Loss.ServiceLost | fleet/apply/exec.go:97-119 | after the same of a service its update is replaced by what its containers on other hosts call for |
| Loss.LostServiceIsDeployed | fleet/plan/plan.go:242-251 | which is a deploy if there are none |
| Examples.LostUpdateCannotBePlanned | fleet/apply/exec.go:63-95 | such a loss can leave a fleet that cannot be planned, although its memory is given back |
| HoldRun.PendingRewires | fleet/plan/plan.go:232-261 | wherever a run stops, a rewire of its plan is planned again if and only if some of the work left touches its backend's replicas or deploys its service, or that service was carried out and does not settle |
| Examples.RewireIsLost | fleet/plan/plan.go:254-260 | a plan whose rewire fails and is never planned again |
| HoldRun.RewiresPointAtLive | fleet/plan/plan.go:253-261 | from the end of the converge phase on, every rewire lists one host per desired replica in order, and that replica is there with the desired tag |
| Capacity.Capacity | fleet/apply/apply.go:61-95 | after any number of actions, in any scope, every backend has at least the smaller of its observed and its desired replica count |
| Capacity.CapacityInFlight | fleet/apply/apply.go:82-83 | and while an update is in flight at least that, less one for the backend being updated |
| Capacity.CapacityAtEnd | fleet/apply/apply.go:82-94 | the same at the end of every hold run, less one only if the failed action is an update that lost its container |
| Capacity.DrainsComeLast | fleet/apply/apply.go:73-82 | a drain is dispatched only after every converge and rewire action in scope, for every computed plan |
| Memory.NeverOvercommitted | fleet/schedule/schedule.go:86-93 | no prefix of a run, in any scope, drives a GPU's free memory below zero, although drains come last |
| Rollback.RollbackLeaves | fleet/apply/apply.go:82-109 | replica by replica what a failed run leaves when its rollback's removals work: those it had not touched, as they were, and what the failed action itself created |
| Rollback.RollbackRestores | fleet/apply/apply.go:82-109 | so the replicas are as before the run if and only if it had updated and drained none and the failed action left nothing behind, for every scope, point and kind of failure |
| Examples.RollbackKeepsTheFailedPlacement | fleet/apply/exec.go:140-153 | a run that only places, fails its first probe and is rolled back with one replica more than before |
| History.CurrentRecord | engine/history.go:84-91 | the record is a success with none after it; without one there is none in the history |
| History.PreviousTag | engine/history.go:97-112 | the tag is that of a success after which all have the anchor's tag, another than its own; it is empty if all have |
| History.RetainedTags | engine/engine.go:175-187 | a tag is in the result if and only if it was deployed and fewer than n deployed tags have a later success; each once, newest first |
| History.WindowExact | engine/engine.go:175-187 | the same of the window that the theorems speak of |
| History.LastSuccessExact | engine/engine.go:180-185 | the position that orders tags is that of their latest success |
| History.RecencyExact | engine/engine.go:175-187 | that list has every deployed tag once, newest first |
| History.WindowStartsWithAnchor | engine/history.go:84-112 | it starts with the anchor's tag, then the previous tag |
| History.WindowAfter | engine/engine.go:284-298 | a success brings only its own tag into the window, in front; a failure changes nothing |
| History.FailureChangesNothing | engine/engine.go:300-307 | a trailing failure leaves the anchor, the previous tag and the window as they were |
| History.TwoRollbacksCancel | engine/engine.go:120-137 | rolling back twice restores the anchor's tag and the previous tag |
| History.SkipExact | engine/confighash.go:13-28 | a deploy is skipped exactly if it is not forced, nothing failed since the anchor, and the anchor carries the desired hash |
| Engine.SkipAfter | engine/confighash.go:13-28 | after an attempt that wrote a record a deploy is skipped exactly if that was a success with its hash: never after a failure, and after a rollback only if its engine had deployed that hash |
| Engine.Project.Prune | engine/retention.go:36-76 | only images that compose maps and whose tag was deployed and left the window are removed, and none of those is left if every removal worked |
| Engine.Project.CutoverService | engine/engine.go:266-278 | one service changes as its strategy's cutover says, the others at most by a reload of an nginx they share, and only its own image may be pulled |
| Engine.Project.RunServices | engine/engine.go:82-113 | services are cut over in turn, each to its tag; the attempt fails at one, the others as they were or replaced, or ends in one success record with the last service's tag and the engine's hash, and a prune |
| Engine.Project.Deploy | engine/engine.go:42-73 | a deploy skips only on a matching hash, otherwise does what one attempt may do and writes the record of that end; when it succeeds the same deploy is skipped next |
| Engine.Project.Rollback | engine/engine.go:115-137 | a rollback that succeeds restores the previous tag on every service and records it as rolled back; no deploy is skipped after it, unless its engine had deployed; without a previous tag it is refused, and for want of one only then |
| Engine.Project.RollbackTo | engine/engine.go:139-173 | a tag that succeeds was in the window; one outside it, or with an image missing, is refused, for that reason only when it is true; one in the window is found gone only if an image with a tag of its own is |
| Engine.StepKeepsWindow | engine/engine.go:284-298 | an attempt keeps the images of every tag in the window if and only if, in case it recorded a success, the images of the recorded tag are all there |
| Engine.RunKeepsWindow | engine/engine.go:284-298 | after any run of successful and failed deploys and rollbacks, none of whose successes mixed tags, every tag in the window still has all its images |
| Engine.MixedTagsBreakTheWindow | engine/engine.go:99-113 | a deploy of two services with two tags, after which the one tag of the window lacks an image |
| Engine.CleanAfterSuccess | engine/retention.go:36-76 | over whole runs: once a deploy's removals worked, every image of a deployed tag is in the window or was pulled by an attempt that failed since |
| Engine.RunKeepsFixed | engine/retention.go:48-67 | images with a tag of their own stay as long as none of those tags was deployed and left the window |
| Engine.FixedImageIsLost | engine/engine.go:194-222 | a deploy that prunes such an image, after which every tag of the window is found gone |
| Traffic.AgreementAfter | engine/engine.go:99-113 | when an attempt leaves every service on the anchor's tag: a failure exactly if it had moved none to another tag and was contained where it came, a success exactly if every service has the recorded tag |
| BlueGreen.ProxyService.ProxyCutover | engine/bluegreen.go:70-163 | the commands of every path, in order, with color, tag and GPU, and which of them may have failed; what each way to fail leaves; from the flip on the new color has passed its probe; zero-gap safety after every command; the old color is never recreated |
| BlueGreen.ProxyService.ZeroGap | engine/bluegreen.go:142-163 | start, flip, stop the old color, or after a failed probe stop the new one, which is then down if that worked; after every command nginx sends traffic to a running container, the untouched old one or one that passed its probe |
| BlueGreen.ProxyService.StopOldFirst | engine/bluegreen.go:113-139 | stop the old color, start, flip, or after a failed probe start the old color, which is then exactly the container it was if that worked; what each way to fail leaves, gap included |
| BlueGreen.ProxyService.FlipUpstream | engine/nginx.go:14-26 | file first, then nginx; a failure leaves one of the states in between |
| BlueGreen.ContainedExact | engine/bluegreen.go:70-163 | a failed cutover to another tag leaves the service on its tag if and only if it failed before any command that matters, or at a first stop without effect, or with zero gap at the start with the new color down, or at readiness with the new color down and the old one as it was |
| BlueGreen.ColorsAlternate | engine/bluegreen.go:70-163 | through any sequence of cutovers whose failures are contained exactly the upstream color is up, and colors alternate on successes |
| Recreate.RecreatedService.RecreateService | engine/engine.go:235-265 | the commands of every path in order; what each way to fail leaves; a success has passed its probe |
| Recreate.RecreateContainedExact | engine/engine.go:235-265 | its failure leaves the old tag served if and only if it came before the container was stopped |
| BlueGreen.AfterFailedSequencedProbe | engine/bluegreen.go:125-134 | after a failed sequenced probe a running old color is the original container, and the next cutover replaces it if and only if it is blue and its restart worked, or green and the new color down |
| BlueGreen.ServingColorMistaken | engine/bluegreen.go:22-33 | the two states at which the next cutover takes the other color for the one that serves |
| BlueGreen.ExitedColorIsContained | engine/bluegreen.go:36-56 | a new color that exits leaves the restarted old one serving alone |
| Traffic.AnchorServes | engine/engine.go:82-137 | over any run of deploys, rollbacks, skips and refusals whose failures are contained at the first service and whose successes are recorded and bring one tag, every service serves the anchor's tag, a proxied one from exactly one color, set by the parity of the successes |
| Lock.MutualExclusion | engine/lock.go:71-94 | any number of clients trying, waiting, crashing or losing replies: at most one is inside, and the history it hands to prune is the one on the host |
| Lock.StaleForever | engine/lock.go:17-20 | a lock left by a crash, a lost reply or a manual acquire is never entered again without a manual release |
| Lock.AcquireLockWait | engine/lock.go:116-153 | a retry after every poll interval, or at the deadline if that is sooner; it stops at the first attempt that finds the lock free, at a cancellation, or at the first retry past the deadline; at most 1 + ceil(wait/poll) attempts |
| Lock.FreeLockServes | engine/lock.go:71-94 | a free lock is taken, used and given back by a client that nothing disturbs |
| Lock.GoesStale | engine/lock.go:17-20 | a lost reply, a manual acquire, a crash inside or a failed release leaves a stale lock |
| Shell.EnvFile | engine/secrets.go:22-32 | the body is the lines export name=value, quoted, of all secrets in name order |
| Shell.ShQuoteIsOneWord | engine/shell.go:5-10 | a quoted value is one shell word with exactly that value, by POSIX.1-2017 XCU sections 2.2.1 and 2.2.2, for every NUL-free string |
| Shell.EnvFileRoundTrip | engine/secrets.go:22-32 | sourcing the file gives exactly the secrets, for every map of valid names to NUL-free values |
| Vars.Interpolate | config/vars.go:38-63 | one pass: the rendered tokens, or every undefined name in order, or a value with a newline |
| Vars.ReferenceReplaced | config/vars.go:11-14 | a reference gives its variable's value, then the pass over the rest; without a value it adds its name to the missing |
| Vars.EscapeReplaced | config/vars.go:16-20 | an escaped brace gives one dollar sign and the brace |
| Vars.CharacterKept | config/vars.go:11-14 | where neither begins the character is kept and the pass goes on after it |
| Vars.LexLossless | config/vars.go:11-14 | the tokens spell the text they were read from |
| Vars.EscapeRoundTrip | config/vars.go:16-20 | a text with every ${ escaped comes through as itself, for every text and every vars map |
| Vars.OtherTextUntouched | config/vars.go:11-14 | a text without a match comes through unchanged |

## Left out

- Packer.PlanDelta: kept replicas are a map by (backend, index), not lists that could repeat an index; the planner never passes such lists.
- Reconcile.Resumption: unscoped hold runs, and the same unreachable hosts at the second planning.
- Reconcile.Fixpoint: one running container per replica. Of two with the same labels only the last listed is in the index; no plan makes a second one, and extra ones are drained run by run (Unsettled.CopiesDrainOneByOne).
- World.StampIsFresh: the compose file names a backend's image, and a tagged service's, with `${TAG}`.
- HoldRun.RewiresPointAtLive: replicas do not stop by themselves.
- Capacity.CapacityAtEnd: hold runs only; a rollback removes replicas by design.
- Memory.NeverOvercommitted: assumes that no need is negative, and that a replica takes exactly its need.
- Rollback.RollbackRestores: speaks of the replicas, and of rollbacks whose own removals work; services deployed by the run stay deployed.
- Vram.NeededIsNearest: exact rational arithmetic instead of float64, starting from the integer that ParseMiB returns.
- Observe.IndexFaithful: for replicas; the service index is built the same way and is not restated.
- Engine.Project.RollbackTo: compose entries that follow the tag without being services of deploy.yml, which no attempt pulls; a lookup of images that itself fails counts as not ready.
- BlueGreen.ProxyService.ZeroGap: a container exits by itself only before its probe.
- Recreate.RecreatedService.RecreateService: a probe that passes means that the container is up.
- BlueGreen.ColorsAlternate: nothing is claimed after a failed flip, a failed final stop or a failed teardown, where both colors may be up and blue is taken for the active one.
- Lock.MutualExclusion: without the manual lock release, which may displace a live deploy.
- Lock.AcquireLockWait: when cancellation and the timer coincide the cancellation wins; the message to the operator is left out.
- Vars.Interpolate: how the vars block is found and parsed as YAML.
- SSH and local execution, docker, compose and nginx themselves, readiness polling: commands that may fail.
- The wiring driver: a stub in the repository; a rewire changes nothing that is observed.
- Lock metadata, performers, timestamps, container ids in records, captured logs and the log part of pruning.
- Mode and base64 transport of the env-file, registry login, secret providers.
- Status, drift, audit, preflight checks and the command line.
- Config loading and validation: its guarantees are the predicate Fleet.Config.Valid.
