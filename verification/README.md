# Dafny model of the nos MIG control loop

`nos` carves NVIDIA GPUs into MIG devices with two controllers. On the cluster side a *partitioner* looks at pending
pods, picks a new geometry for a node and writes it to the node as *spec annotations*. On each node an *agent* compares
the spec with the real devices, deletes and creates devices, and reports what exists as *status annotations*, from
which the partitioner builds its picture of the node. This project models both halves, the wire format between them,
the lock protocol inside the agent, and the memory-slicing allocator, and proves what each part guarantees and what
they guarantee together.

`dafny verify dfyconfig.toml` checks everything.

## How it is organised

| module | what it holds |
|---|---|
| `GoMaps`, `Lists`, `Text` | Go idioms: counter maps, grouping loops, stable sort, `%d`, `Atoi`, `Split` |
| `Devices`, `DeviceListing`, `Annotations` | MIG devices, listing them, spec and status annotations, and counting |
| `Plan`, `Planner`, `PlanEquality`, `Matching`, `Reasons` | the agent's plan: its contract, its construction, its equality, and why each device goes |
| `StateCheck`, `Actuator`, `Agent` | the agent's checks, carrying out a plan with rollback, the reconcile loops of actuator and reporter |
| `SharedState`, `Protocol` | the mutex and report token, and all interleavings of actuator and reporters |
| `Wire`, `NodeAnnotations`, `Reporter` | printing, parsing and rewriting annotations, and the status report |
| `MigGpu`, `MigNode`, `Extraction`, `Partitioner` | the geometry allocator, nodes, reading status, writing specs |
| `Pods`, `Controller`, `Victims` | planning for pending pods, dry run and real run, preemption |
| `ClosedLoop`, `FullRound` | partitioner and agent composed |
| `Nvml` | creating MIG devices on one GPU by trying orderings |
| `Slicing` | GPUs shared by memory slices |

Go map ranges have no order: the model picks keys arbitrarily, so every result holds for every order. The order of the
GPUs of one node, which the source also takes from a map range, is an input. Objects that the source updates in place
(GPUs, nodes, the shared state, the actuator, the slicing GPU, the permutation generator) are classes; each of their
methods is proved against a function or relation on values, about which the lemmas speak. The answers of the hardware,
the Kubernetes API and the device plugin are inputs: functions or flags that may be anything.

## Where the code does not do what one might expect

Each of these is a lemma with a concrete input, next to a statement of when the property does hold.

- A rollback after a partly refused create can leave more devices than before (`RollbackCanOvershoot`); it is sure to
  restore them exactly when all creates of the plan are on one GPU (`RollbackRestoresExactlyWhen`).
- A spec that mentions a profile with quantity 0 never counts as matched (`ZeroQuantityNeverMatches`,
  `EmptyPlanIffMatches`).
- A reporter run that fails still puts the token that lets the next apply through (`FailedReportCounts`); a successful
  report section lies between two applies exactly when some report between them succeeds (`SuccessBetweenExactlyWhen`).
- GPUs missing from the annotations are numbered by position, which can duplicate an index
  (`MissingGpuIsMisnumbered`, `DistinctExactlyWhen`).
- A node counts as providing a request although the devices are in use (`PassingNodeMayNotHost`). The updated node hosts
  the request exactly when the walk leaves no demand outstanding (`WalkMeetsDemand`), which a caller can rely on for a
  passing node if no requested profile is in use (`PassesUnlessInUse`).
- Victim selection can return pods whose eviction makes no room, because a candidate that is skipped leaves devices free
  in the simulation (`SkippedCandidateMisleads`, on an A30). Every simulation is exact exactly when each candidate finds
  all of its devices in use in its turn, or none of them (`SimulationExactlyWhen`, `CleanExactlyWhen`), and then the
  victims make room (`CleanSuffices`); all candidates are released in turn exactly when the node's use covers their sum
  (`CoveredExactlyWhen`).
- The slicing allocator can report success without any change (`CreatedSliceCanBeLost`). For one missing profile
  `SuccessMeansChangeExactlyWhen` gives the exact condition on memory, free slices and request; for any number of them
  success means a change if no missing profile is named like an original free slice (`NewNamesLast`). An unsuccessful run
  loses free slices under unusual names (`FalseRestoresExactlyWhen`).
- Creating an empty list of profiles on a GPU is refused (`Nvml.CreateMigDevices`).

## Model

| member | source | states |
|---|---|---|
| `Lists.GroupBy` | pkg/gpu/device.go:60-132 | every bucket holds exactly the elements of its key, in order, and there are no empty buckets |
| `Lists.StableSortSorts` | pkg/gpu/device.go:72-79 | a stable sort orders its list and keeps the relative order of ties |
| `DeviceListing.ExtractMigDevices` | pkg/gpu/mig/client.go:166-199 | the MIG devices that are found on a GPU, in order; an error exactly if some look-up fails |
| `DeviceListing.ComputeFreeDevicesAndUpdateStatus` | pkg/gpu/util.go:91-105 | the allocatable devices whose id no used one has, all marked free |
| `DeviceListing.GetMigDevices` | pkg/gpu/mig/client.go:105-120 | used devices followed by the remaining allocatable ones; an error exactly if a request or a look-up fails |
| `DeviceListing.ListingSettled` | pkg/gpu/mig/client.go:105-120 | every listed device is used or free, no id is both, and ids are unique if they are in each of the kubelet's lists |
| `DeviceListing.ListedExactly` | pkg/gpu/mig/client.go:105-199 | a device is listed as used exactly if the kubelet reports it in use and the hardware finds it, as free exactly if the kubelet reports it allocatable, the hardware finds it and it is not listed as used; its GPU is the one where it is found |
| `Planner.NewMigState` | internal/controllers/migagent/plan/mig_state.go:47-56 | the state lists, under each GPU index, exactly the devices of that GPU in their order |
| `Planner.Flatten` | internal/controllers/migagent/plan/mig_state.go:80-86 | flattening a state gives back every device exactly once, for any order of the GPUs |
| `Planner.WithoutMigProfiles` | internal/controllers/migagent/plan/mig_state.go:94-103 | for any list of names: on the given GPU exactly the devices of other profiles stay, in order, and the other GPUs are as they were |
| `Planner.GetResourcesNotIncludedInSpec` | internal/controllers/migagent/plan/plan.go:185-198 | the result has distinct ids, consists of existing devices, and per GPU and profile holds all devices where the spec is silent and none elsewhere |
| `Planner.ExtractCandidatesForDeletion` | internal/controllers/migagent/plan/plan.go:127-150 | the two scans choose the first free devices and then, if needed, the first others |
| `Planner.CandidateCounts` | internal/controllers/migagent/plan/plan.go:127-150 | among `n` devices chosen for deletion as many as possible are free and as few as possible are not; all are distinct existing devices |
| `Planner.CandidatesAreExcess` | internal/controllers/migagent/plan/plan.go:60-150 | the devices chosen from the list sorted by id are exactly those that have fewer devices of their kind before them than the surplus takes |
| `Planner.ExtractResourcesToRecreate` | internal/controllers/migagent/plan/plan.go:110-125 | the devices to recreate are the free ones that no delete operation has taken |
| `Planner.DeleteExcluded` | internal/controllers/migagent/plan/plan.go:48-57 | after the first step every profile outside the spec is settled: all of its devices are deleted, no other profile is touched |
| `Planner.SettleProfile` | internal/controllers/migagent/plan/plan.go:64-87 | settling one profile deletes exactly its surplus, free devices first, or creates exactly its shortage, and leaves all other profiles as they stood |
| `Planner.SettleGpu` | internal/controllers/migagent/plan/plan.go:61-87 | after the loop over a GPU every profile that the spec mentions there is settled, and creates were added exactly if the GPU has a shortage |
| `Planner.RecreateFree` | internal/controllers/migagent/plan/plan.go:94-104 | on a GPU that grows, every remaining free device is deleted and created again, nothing else changes |
| `Planner.NewMigConfigPlan` | internal/controllers/migagent/plan/plan.go:47-108 | for every state with unique ids and every spec: no device is deleted twice, every count is exact per GPU and profile, free devices are recycled exactly on the GPUs that grow, the plan is empty exactly when state and spec are in sync, and up to order there is one delete operation per reason, holding exactly the devices that go for it, and one create operation per shortage and per recycled profile |
| `Plan.Convergence` | internal/controllers/migagent/plan/plan.go:47-125 | removing a plan's deletes and adding its creates leaves exactly the desired number of devices of every profile, 0 where the spec is silent |
| `Plan.DamageBound` | internal/controllers/migagent/plan/plan.go:77-104 | the deletes contain exactly max(0, non-free - desired) devices that are not free, per GPU and profile |
| `Plan.OnlySurplusUseIsDeleted` | internal/controllers/migagent/plan/plan.go:127-150 | a device that is not free is scheduled for deletion only if the spec wants fewer than are in use |
| `Plan.NoChurn` | internal/controllers/migagent/plan/plan.go:61-92 | on a GPU without a shortage nothing is created and only the surplus is deleted |
| `Reasons.DeletedExactlyWhen` | internal/controllers/migagent/plan/plan.go:47-125 | a device is deleted exactly if its profile is not in the spec, or it is in excess, or it is free on a GPU that gets new devices |
| `Reasons.SmallerIdsGo` | internal/controllers/migagent/plan/plan.go:60-87 | of two devices of the same profile, both free or both not, on a GPU that gets no new device, the one that goes has the smaller id |
| `Reasons.RoomIsMade` | internal/controllers/migagent/plan/plan.go:89-104 | a free device of which there are not too many goes exactly if some profile of its GPU has too few devices |
| `Reasons.PlanIsDetermined` | internal/controllers/migagent/plan/plan.go:47-108 | plans for the same devices and the same spec, listed in any order, are equal in the sense of the agent |
| `StateCheck.Matches` | internal/controllers/migagent/plan/mig_state.go:58-78 | true exactly when every GPU and profile has the desired count and the spec mentions no profile just to want none of it |
| `StateCheck.KeyInjective` | internal/controllers/migagent/plan/mig_state.go:59-61 | the textual key of index and profile tells any two profiles apart |
| `StateCheck.SpecMatchesStatus` | pkg/gpu/mig/annotation.go:40-51 | true exactly when spec and status mention the same profiles with the same totals; on a faithful report of any devices that is the same answer as comparing the spec with those devices |
| `Text.IndexedNameInjective` | pkg/gpu/annotation.go:154-156 | printing an index, a dash and a name is injective for all integers and strings |
| `ClosedLoop.EmptyPlanIffMatches` | internal/controllers/migagent/plan/plan.go:168-170 | for specs with positive quantities the plan is empty exactly when the state check succeeds |
| `ClosedLoop.ZeroQuantityNeverMatches` | internal/controllers/migagent/plan/mig_state.go:63-77 | counterexample: a zero quantity makes the check fail although nothing has to change |
| `ClosedLoop.AppliedStateMatches` | internal/controllers/migagent/actuator.go:144-237 | after an apply that was carried out in full, any listing of what is then held passes the state check |
| `Matching.UnorderedEqual` | pkg/util/util.go:186-214 | the greedy pass with a visited array decides, for any equivalence, whether a bijection of equivalent elements exists |
| `Matching.MatchableIffSameClasses` | pkg/util/util.go:186-214 | such a bijection exists exactly when every element is equivalent to equally many elements of both lists |
| `Matching.MatchableIsEquivalence` | pkg/util/util.go:186-214 | sameness up to order is reflexive, symmetric and transitive, so it can be nested |
| `Matching.MatchableMultiset` | pkg/gpu/annotation.go:238-240 | for plain equality, sameness up to order is equality of multisets |
| `PlanEquality.DeleteOperationEqual` | internal/controllers/migagent/plan/operation.go:60-62 | delete operations are equal exactly when they list the same devices in some order |
| `PlanEquality.PlanEqual` | internal/controllers/migagent/plan/plan.go:172-183 | plans are equal exactly when their operations can be paired up, deletes up to the order of their devices |
| `PlanEquality.SamePlanIsEquivalence` | internal/controllers/migagent/plan/operation.go:84-98 | plan equality is reflexive, symmetric and transitive |
| `PlanEquality.SamePlanSameEffect` | internal/controllers/migagent/plan/plan.go:172-183 | equal plans delete the same devices and create the same quantities |
| `Actuator.ContainsUsedMeans` | internal/controllers/migagent/actuator.go:343-352 | the test holds exactly when some device that the plan deletes is not free |
| `Actuator.FlattenCreates` | internal/controllers/migagent/plan/operation.go:74-82 | every profile occurs as often as the create operations ask for it |
| `Actuator.ApplyDeleteOp` | internal/controllers/migagent/actuator.go:247-292 | exactly the listed free devices that the hardware lets go are gone, by their ids; devices held plus devices reported as deleted are conserved, per profile, and an error is reported exactly if some free device stays |
| `Actuator.ApplyDeletes` | internal/controllers/migagent/actuator.go:194-206 | the same over all delete operations, none of which stops the others |
| `Actuator.ListingCounts` | pkg/gpu/mig/client.go:105-120 | a listing of all devices, each id once and under its own profile, counts exactly what is held |
| `Actuator.Client.CreateMigDevices` | pkg/gpu/mig/client.go:72-99 | every GPU of the request is asked; exactly the requests of the GPUs that accept are created and returned, and an error is reported exactly if some GPU refuses |
| `Actuator.Apply` | internal/controllers/migagent/actuator.go:171-237 | a plan is refused, with nothing changed, exactly when it deletes a device that is not free; otherwise the answers of the hardware alone decide which devices go, on which GPUs creates succeed and, after a failed create, on which GPUs the deleted devices are created again; every count is accounted for, and success is reported exactly when all deletes, creates and the restart succeeded |
| `Actuator.RollbackRestores` | internal/controllers/migagent/actuator.go:194-216 | if all creates are refused and the rollback succeeds, every count is as before, even if some deletes had failed |
| `Actuator.RollbackBringsBack` | internal/controllers/migagent/actuator.go:208-216 | if a create is refused and the GPUs that lost devices accept the rollback, no profile ends with fewer devices than before |
| `Actuator.DoneExactlyWhen` | internal/controllers/migagent/actuator.go:194-236 | an apply is carried out in full exactly when the hardware lets every device go, every GPU accepts and the plugin restarts |
| `Actuator.RollbackRestoresExactlyWhen` | internal/controllers/migagent/actuator.go:208-216 | a plan that deletes a held device is undone by every complete rollback exactly when all its creates are on one GPU |
| `Actuator.RollbackCanOvershoot` | internal/controllers/migagent/actuator.go:208-216 | counterexample: devices, a spec and the plan for them, and an apply in which one of two GPUs refuses, the rollback is complete, and more devices are left than before |
| `Actuator.FullApplyConverges` | internal/controllers/migagent/actuator.go:171-237 | an apply that is carried out in full leaves exactly the desired number of devices of every profile |
| `Agent.MakePlan` | internal/controllers/migagent/actuator.go:144-169 | the plan satisfies the plan contract for the listed devices, also on the short cut when the state matches; a failed listing is an error, and a missing device leads to a restart of the plugin and, if that succeeds, to the empty plan |
| `Agent.MigActuator.Act` | internal/controllers/migagent/actuator.go:107-141 | the outcome for a parsed node follows from totals, listing, plan and last plan: every plan fits the listed devices, and it is applied unless it is empty or the last one tried on the same status |
| `Agent.MigActuator.Reconcile` | internal/controllers/migagent/actuator.go:90-142 | without a token nothing changes; with one it is spent, the plan id of the node is recorded, the decision for the parsed node is carried out, the node is rewritten only to take back a refused spec, and no token is left after an apply, even if a reporter put one before the lock was taken; all of it is a sequence of steps of the protocol between the shared states before and after |
| `Agent.NotAppliedTwice` | internal/controllers/migagent/actuator.go:124-139 | after a run that applied a plan, a run with the same devices, spec and status, in whatever order, applies nothing |
| `Agent.MigReporter.Reconcile` | internal/controllers/migagent/reporter.go:70-125 | the token is put whatever happens; it succeeds exactly if node and devices can be read and the node is up to date or can be patched; then the node holds a faithful report and the last parsed plan id, otherwise it is as before; all of it is one reporter run of the protocol between the shared states before and after |
| `Agent.ResetTakesSpecBack` | internal/controllers/migagent/actuator.go:354-370 | after the reset no spec is parsed from the node and no plan id is set, while the status is parsed as before |
| `SharedState.SharedState.OnReportDone` | internal/controllers/migagent/shared.go:52-57 | afterwards the channel holds one token, and never more than one |
| `SharedState.SharedState.OnApplyDone` | internal/controllers/migagent/shared.go:59-64 | afterwards the channel is empty |
| `SharedState.SharedState.AtLeastOneReportSinceLastApply` | internal/controllers/migagent/shared.go:66-73 | tells whether there was a token, and takes it |
| `Protocol.ActuatorRuns` | internal/controllers/migagent/actuator.go:90-142 | the steps of an actuator run that finds a token are possible and lead back to idle, with the parsed plan id, and with a token exactly if a reporter overtook it and nothing was applied |
| `Protocol.ReporterRuns` | internal/controllers/migagent/reporter.go:70-75 | the steps of a reporter run are possible whenever the lock is free, wherever the actuator is, and leave a token |
| `Protocol.RunOn` | internal/controllers/migagent/shared.go:30-73 | steps from the state that a run ends in continue it, so that all statements about runs apply to any sequence of reconcile calls |
| `Protocol.Exclusion` | internal/controllers/migagent/actuator.go:99-100 | in every reachable state the actuator is inside its critical section exactly when it holds the lock |
| `Protocol.EntriesArePaidFor` | internal/controllers/migagent/shared.go:52-73 | in every run, lock entries of the actuator plus a pending one plus the token never exceed the reporter runs that signalled, and lock entries never exceed finished reporter runs |
| `Protocol.ReportBetweenApplies` | internal/controllers/migagent/reporter.go:70-125 | between any two applies of any interleaving a whole reporter critical section runs, after the first unlocks and before the second locks, and it reports the plan id of the first apply, successfully if no report in between fails |
| `Protocol.ReportBeforeApply` | internal/controllers/migagent/actuator.go:93-100 | the first apply, too, comes after a finished reporter run |
| `Protocol.FailedReportCounts` | internal/controllers/migagent/reporter.go:73-75 | counterexample: a run with two applies in which every report fails |
| `Protocol.SuccessBetweenExactlyWhen` | internal/controllers/migagent/reporter.go:73-125 | a whole reporter section with a successful report lies between two applies exactly when some report between them succeeds |
| `Wire.SpecRoundTrip` | pkg/gpu/annotation.go:45-71 | a printed spec annotation is parsed back to itself exactly when its index is not negative and its profile has no dash |
| `Wire.StatusRoundTrip` | pkg/gpu/annotation.go:73-101 | a printed status annotation is parsed back to itself exactly when its index is not negative and its profile has no dash |
| `Wire.PrefixesDisjoint` | pkg/api/nos.nebuly.com/v1alpha1/annotations.go:37-74 | no key is both a spec and a status annotation |
| `Wire.DocumentedKeys` | pkg/api/nos.nebuly.com/v1alpha1/annotations.go:48-74 | the documented examples of spec and status keys are what is printed |
| `Wire.DocumentedPlanKeys` | pkg/api/nos.nebuly.com/v1alpha1/annotations.go:37-46 | the keys of the plan ids |
| `Wire.DocumentedValues` | pkg/gpu/annotation.go:45-101 | the documented examples, with any quantity, are parsed to what they say |
| `Wire.StatusIgnoresCase` | pkg/resource/device.go:44-61 | statuses are read in upper and lower case |
| `NodeAnnotations.ParseNodeAnnotations` | pkg/gpu/annotation.go:103-117 | both lists hold exactly what the two parsers accept among the annotations, each entry once, in any order |
| `NodeAnnotations.RewriteHarvest` | internal/controllers/migagent/reporter.go:105-117 | after clearing a prefix and writing a list of distinguishable entries, parsing gives exactly that list |
| `Reporter.AsStatusAnnotation` | pkg/gpu/device.go:136-153 | exactly one annotation, with the right quantity, for every combination of GPU, profile and status that occurs |
| `Reporter.Report` | internal/controllers/migagent/reporter.go:77-125 | parsing the new annotations gives exactly the device counts, the reported plan id is the last parsed one, all other annotations are untouched, and a patch is due exactly if the old annotations do not say so already |
| `Reporter.SpecsKept` | internal/controllers/migagent/reporter.go:109-117 | a report does not change what is parsed as spec |
| `Extraction.ExtractGpus` | pkg/gpu/mig/node.go:82-117 | annotated GPUs come first, once each and with annotated counts; missing ones follow, empty and numbered by position; an unknown model is an error as soon as there is a GPU |
| `Extraction.ExtractedIsSane` | pkg/gpu/mig/node.go:86-104 | from any annotated quantities of at least 0, including 0, comes a node that the controller can work with |
| `Extraction.DistinctExactlyWhen` | pkg/gpu/mig/node.go:107-114 | GPU indexes are distinct exactly when no annotated index is one that a missing GPU is given |
| `Extraction.MissingGpuIsMisnumbered` | pkg/gpu/mig/node.go:107-114 | counterexample: with only GPU 1 annotated a node of two GPUs gets GPU 1 twice |
| `Extraction.NodeSeesDevices` | pkg/gpu/mig/node.go:86-104 | a node built from a report has, on every GPU, exactly the reported used and free counts |
| `MigGpu.GPU.constructor` | pkg/gpu/mig/gpu.go:61-73 | the GPU holds the given index, geometries and counts |
| `MigGpu.GPU.Clone` | pkg/gpu/mig/gpu.go:75-90 | a fresh GPU with the same counts |
| `MigGpu.GPU.GetGeometry` | pkg/gpu/mig/gpu.go:100-111 | every profile is given with its used plus free count |
| `MigGpu.GPU.ApplyGeometry` | pkg/gpu/mig/gpu.go:115-170 | accepted exactly when the geometry is allowed and covers all used devices; then used plus free is the geometry, otherwise nothing changes |
| `MigGpu.Retarget` | pkg/gpu/mig/gpu.go:155-168 | afterwards exactly the profiles of the geometry have a free entry, namely geometry minus used |
| `MigGpu.Provided` | pkg/gpu/mig/gpu.go:193-214 | the increments of the inner loop add up to the sum of max(0, min(required, new free) - min(required, old free)) |
| `MigGpu.Search` | pkg/gpu/mig/gpu.go:183-225 | the chosen candidate is eligible, no eligible candidate scores higher and no earlier one as high; none is chosen exactly if none scores |
| `MigGpu.BestOfIsFirstMax` | pkg/gpu/mig/gpu.go:216-229 | a search result is the earliest of the highest positive values, and there is none exactly when no value is positive |
| `MigGpu.BestDecides` | pkg/gpu/mig/gpu.go:183-229 | a candidate is found exactly when some eligible one has a positive score, and it is the only one that qualifies as first best |
| `MigGpu.ScoreMeansChange` | pkg/gpu/mig/gpu.go:193-236 | a score is positive exactly when some requested profile is short and the candidate has more of it than the GPU, so the chosen geometry always differs from the current one |
| `MigGpu.ScoreUnfolds` | pkg/gpu/mig/gpu.go:193-214 | a score adds up, profile by profile, the smaller of what is short and what the geometry has room for beyond the current one |
| `MigGpu.EligibleMeans` | pkg/gpu/mig/gpu.go:184-191 | a candidate counts exactly if it covers all use and, if it is a 3-2-1-1 geometry, the GPU has no device at all |
| `MigGpu.BusySensitiveGeometries` | pkg/gpu/mig/gpu.go:318-349 | the two 3-2-1-1 geometries and no others |
| `MigGpu.InstalledIsBest` | pkg/gpu/mig/gpu.go:176-237 | what a search installs is the earliest of the eligible geometries with the highest score, and it leaves the GPU alone only if none scores |
| `MigGpu.InstallExact` | pkg/gpu/mig/gpu.go:150-170 | installing an eligible geometry keeps used devices, makes used plus free equal to it pointwise, and leaves no negative count |
| `MigGpu.UpdateForKeeps` | pkg/gpu/mig/gpu.go:176-237 | an update keeps used devices, ends in an allowed geometry or changes nothing, and changes the GPU exactly when it can be improved |
| `MigGpu.GPU.UpdateGeometryFor` | pkg/gpu/mig/gpu.go:176-237 | the GPU ends, used devices unchanged, in the earliest of the eligible geometries with the highest score, and true is returned exactly when some eligible one scores; the ignored error and the equal-geometry branch cannot occur |
| `MigGpu.IsIdleIsIdle` | pkg/gpu/mig/gpu.go:278-290 | the loop test means that the GPU has no device at all |
| `MigGpu.GPU.ReleaseProfiles` | pkg/gpu/mig/gpu.go:302-316 | succeeds exactly when enough devices are in use, and then moves exactly the requested ones from used to free; otherwise changes nothing |
| `MigNode.Subtract` | pkg/gpu/mig/node.go:181-186 | the positive part of the request is lowered by the free devices, down to 0 |
| `MigNode.GreedyLedger` | pkg/gpu/mig/node.go:176-187 | after each GPU the outstanding demand of every profile is max(0, required - free devices of the GPUs so far) |
| `MigNode.NodeUpdateKeeps` | pkg/gpu/mig/node.go:162-194 | every GPU keeps its used devices, and is untouched or in an allowed geometry |
| `MigNode.WalkMeetsDemand` | pkg/gpu/mig/node.go:162-194 | the demand is used up exactly when the node ends with enough free devices of every requested profile |
| `MigNode.NodeStepwise` | pkg/gpu/mig/node.go:176-187 | each GPU is updated for exactly max(0, required - free devices of the GPUs before it) |
| `MigNode.LaterGpusUntouched` | pkg/gpu/mig/node.go:176-187 | once the free devices of the first GPUs meet the request, the remaining GPUs are left alone |
| `MigNode.Node.UpdateGeometryFor` | pkg/gpu/mig/node.go:162-194 | every GPU is updated for exactly what the free devices of the GPUs before it leave of the request, and true is returned exactly when some GPU changed |
| `MigNode.Node.Clone` | pkg/gpu/mig/node.go:229-239 | a copy on fresh objects with the same counts |
| `MigNode.Node.Geometry` | pkg/gpu/mig/node.go:125-133 | used plus free devices of all GPUs, per profile |
| `MigNode.Node.FreeGeometry` | pkg/gpu/mig/node.go:242-250 | free devices of all GPUs, per profile |
| `MigNode.Node.ReleaseProfiles` | pkg/gpu/mig/node.go:254-277 | true exactly when node-wide use covers every profile; used plus free of every GPU is conserved either way, and a refusal may leave partial releases of a known form |
| `MigNode.ReleasedConserves` | pkg/gpu/mig/node.go:254-277 | a successful release lowers node-wide use by exactly the request and keeps used plus free on every GPU |
| `Partitioner.BuildNodePartitioning` | internal/partitioning/mig/state.go:41-61 | the partitioning states the geometry of every GPU, without empty entries |
| `Partitioner.GetGpuSpecAnnotationList` | internal/partitioning/mig/partitioner.go:90-107 | the annotations ask for exactly the partitioning, and are distinct if the GPU indexes are |
| `Partitioner.ApplyPartitioning` | internal/partitioning/mig/partitioner.go:56-88 | whatever list is parsed from the node afterwards asks for exactly the partitioning; the plan id is set and all other annotations are untouched |
| `Partitioner.StatusesKept` | internal/partitioning/mig/partitioner.go:66-79 | writing a spec does not change what is parsed as status |
| `Partitioner.SpecWantsGeometry` | internal/partitioning/mig/state.go:41-61 | such a spec wants the geometry of every GPU of the node and nothing on any other GPU |
| `Pods.PodOrders` | internal/controllers/gpupartitioner/mig_controller.go:379-404 | both comparison functions are strict weak orders, as sorting requires |
| `Pods.SortedMeans` | internal/controllers/gpupartitioner/mig_controller.go:379-404 | being sorted means higher priority first and older first at the same priority, or for evictions the other way round |
| `Pods.DefaultPriority` | internal/controllers/gpupartitioner/mig_controller.go:399-404 | a pod without a priority ranks as one of priority 1000 |
| `Pods.SortPodsByPriorityAndAge` | internal/controllers/gpupartitioner/mig_controller.go:379-397 | a permutation in which nobody follows a pod of lower priority, or a younger one of the same priority, and ties keep their order |
| `Pods.AddPodRequestedProfiles` | internal/controllers/gpupartitioner/mig_controller.go:355-359 | the request of the pod is added, key by key |
| `Controller.ProvidesRequestedProfiles` | internal/controllers/gpupartitioner/mig_controller.go:369-377 | used and free devices together cover the request |
| `Controller.DryRun` | internal/controllers/gpupartitioner/mig_controller.go:235-251 | tells whether repartitioning would change the node into one that provides the request, writing to no existing object |
| `Controller.RealRun` | internal/controllers/gpupartitioner/mig_controller.go:317-328 | succeeds exactly when the dry run does, and leaves the node updated |
| `Controller.CanRepartition` | internal/controllers/gpupartitioner/mig_controller.go:222-255 | true exactly when some readable node passes the test |
| `Controller.ProfilePresentOnAnyNode` | internal/controllers/gpupartitioner/mig_controller.go:267-281 | true exactly when some readable node has that many free devices of the profile |
| `Controller.ProfileAlreadyPresent` | internal/controllers/gpupartitioner/mig_controller.go:257-281 | true exactly when every requested profile is free in the requested quantity on some node |
| `Controller.BuildRequestedProfilesPlan` | internal/controllers/gpupartitioner/mig_controller.go:193-220 | the demand is the sum of the requests of the planned pods |
| `Controller.PlannedIsLongest` | internal/controllers/gpupartitioner/mig_controller.go:200-217 | the planned pods are the longest prefix all of whose non-empty prefixes are feasible, and the only such prefix |
| `Controller.NoBypass` | internal/controllers/gpupartitioner/mig_controller.go:193-220 | if a pod is planned, so is every pending pod of higher priority, or of the same priority and older |
| `Controller.UpdateNodeGeometry` | internal/controllers/gpupartitioner/mig_controller.go:305-338 | the node is rewritten exactly if it passes the test and the patch is accepted, and then its spec asks for the updated geometry |
| `Controller.TryRepartition` | internal/controllers/gpupartitioner/mig_controller.go:283-303 | the first node that passes the test and whose patch is accepted is chosen, and only its annotations change |
| `Controller.TryPlanWithoutPreemption` | internal/controllers/gpupartitioner/mig_controller.go:406-420 | unless the planned demand is empty or already present some node passes the dry run, and if patches are accepted the first such node is repartitioned |
| `Controller.PlanPending` | internal/controllers/gpupartitioner/mig_controller.go:95-134 | the pending pods are planned for in the order of priority and age, however they are listed |
| `Controller.PassesUnlessInUse` | internal/controllers/gpupartitioner/mig_controller.go:369-377 | a passing node can host the request if no requested profile is in use there |
| `Controller.PassingNodeMayNotHost` | internal/controllers/gpupartitioner/mig_controller.go:369-377 | counterexample: a passing node whose free devices do not cover the request |
| `Victims.CandidatesAreEvictable` | internal/controllers/gpupartitioner/mig_controller.go:520-561 | the candidates are exactly the pods of the node below the target's priority that ask for devices, are not terminating and belong to neither a DaemonSet nor the node, lowest priority first, then youngest |
| `Victims.ListCandidateVictims` | internal/controllers/gpupartitioner/mig_controller.go:520-561 | the filter and sort compute the candidates in that order |
| `Victims.HasFreeCapacityFor` | internal/controllers/gpupartitioner/mig_controller.go:571-578 | the node's free devices cover the request |
| `Victims.CoveredExactlyWhen` | internal/controllers/gpupartitioner/mig_controller.go:486-499 | every candidate can be released in turn exactly when node-wide use covers the sum of their requests |
| `Victims.Evict` | internal/controllers/gpupartitioner/mig_controller.go:486-517 | the loop is a run over working copies in which each candidate is released, skipped with something left behind, or ignored; it stops at the first release that makes room and returns the released candidates |
| `Victims.FindVictims` | internal/controllers/gpupartitioner/mig_controller.go:459-518 | no victims when there is room already; otherwise the outcome of the loop over the candidates. If each candidate finds all of its devices in use in its turn or none, evicting the victims makes room, and infeasible means that no release does; if use covers all candidates, the victims are the shortest non-empty prefix whose release makes room, and infeasible means that no prefix does |
| `Victims.PrefixExactlyWhen` | internal/controllers/gpupartitioner/mig_controller.go:489-515 | the victims are all candidates looked at exactly when each of them finds its devices in use in its turn |
| `Victims.CleanExactlyWhen` | internal/controllers/gpupartitioner/mig_controller.go:489-497 | in every run no skipped candidate leaves anything behind exactly when each candidate finds all of its devices in use in its turn, or none of them; a condition on node and candidates alone |
| `Victims.SimulationExactlyWhen` | internal/controllers/gpupartitioner/mig_controller.go:489-515 | in every run the working copy is what evicting the victims leads to, under exactly the same condition |
| `Victims.CleanSuffices` | internal/controllers/gpupartitioner/mig_controller.go:489-517 | under that condition the loop stops at the first release that makes room, evicting its victims does make room, and it gives up only if no release does |
| `Victims.NothingInUseIsClean` | internal/controllers/gpupartitioner/mig_controller.go:495-497 | a skipped candidate leaves nothing behind if none of the profiles it asks for is in use |
| `Victims.CoveredFindsShortest` | internal/controllers/gpupartitioner/mig_controller.go:489-517 | if use covers all candidates, the loop finds the shortest prefix that makes room, if there is one |
| `Victims.VictimsAreLower` | internal/controllers/gpupartitioner/mig_controller.go:527-543 | every victim is a pod of the node with strictly lower priority than the target, which asks for devices, is not terminating and belongs to neither a DaemonSet nor the node |
| `Victims.NobodyIsSpared` | internal/controllers/gpupartitioner/mig_controller.go:545-558 | in a prefix of the candidates no evictable pod of lower priority than a victim, or of the same priority and younger, is spared |
| `Victims.SkippedCandidateMisleads` | internal/controllers/gpupartitioner/mig_controller.go:495-504 | counterexample: an A30 with its known geometries and two pods, which are the candidates in order, for which every run returns the second one alone, although evicting it makes no room |
| `ClosedLoop.PlanIsSafe` | internal/controllers/migagent/actuator.go:182-189 | for any spec built from an updated node and any devices of which no more are in use than the partitioner saw, the agent's plan deletes free devices only |
| `ClosedLoop.SafeExactlyWhen` | internal/controllers/migagent/plan/plan.go:47-150 | a plan spares all devices in use exactly when the spec wants at least as many as are in use, for every profile |
| `FullRound.AgentTurn` | internal/controllers/migagent/actuator.go:90-142 | a run of the actuator on a spec from the partitioner is never refused, is carried out in full on hardware that never refuses, a full apply leaves exactly the geometry it was built from, finding nothing to do means that geometry is held already, and devices in use stay, by count and by id |
| `FullRound.PartitionerTurn` | internal/controllers/gpupartitioner/mig_controller.go:305-338 | from a faithful report a spec is written exactly if the rebuilt node passes the test, and it asks for the updated geometry |
| `FullRound.Round` | internal/controllers/gpupartitioner/mig_controller.go:305-338 | list, report, repartition and reconcile in sequence: a written spec asks for the computed geometry and leads to an apply unless the same plan was tried on the same status, the apply is not refused, is full on hardware that never refuses, a full one leaves exactly the computed geometry, and devices in use stay whatever fails |
| `FullRound.AtRest` | internal/controllers/migagent/actuator.go:111-115 | once the geometry of the spec is held, the next report and run of the actuator find that the status matches and change nothing |
| `FullRound.RoundThenRest` | internal/controllers/migagent/actuator.go:90-142 | after a round that is applied in full, any number of reports and actuator runs find that the status matches; devices and spec stay as that round left them |
| `Nvml.OrderingsComplete` | pkg/util/stat.go:45-68 | the enumerated orderings are exactly the lists with the same elements |
| `Nvml.PermutationGenerator.Next` | pkg/util/stat.go:63-68 | advances through the orderings, of which an empty list has none |
| `Nvml.Cleanup` | pkg/gpu/nvml/client.go:278-300 | without an error exactly the instances of the attempt are gone, and there is an error exactly if some destruction fails |
| `Nvml.TryOrdering` | pkg/gpu/nvml/client.go:278-340 | an ordering is created in full, or refused with every instance cleaned up exactly if the hardware does not take it; it fails exactly if a look-up or destruction fails |
| `Nvml.CreateMigDevices` | pkg/gpu/nvml/client.go:241-349 | success adds exactly the requested profiles, each with its compute instance; refusal leaves the device unchanged and means that no ordering is taken or the list is empty; it fails exactly if a look-up or destruction fails |
| `Nvml.CreatedNames` | pkg/gpu/nvml/client.go:309-339 | the multiset of profiles on the device grows by exactly the request |
| `Slicing.SizeRoundTrip` | pkg/gpu/slicing/profile.go:64-75 | the size of a printed profile is read back, for every int |
| `Slicing.SizeOfResource` | pkg/gpu/slicing/profile.go:52-75 | the size is read from a resource name with the prefix as well |
| `Slicing.SizesInNames` | pkg/gpu/slicing/gpu.go:84-114 | names are printed as size and unit, and 1GB is the smallest size that is accepted |
| `Slicing.GPU.Validate` | pkg/gpu/slicing/gpu.go:84-114 | accepted exactly when all slices have at least 1GB and fit the memory together, which for non-negative quantities is validity |
| `Slicing.GPU.GetTotSlicesMemory` | pkg/gpu/slicing/gpu.go:273-282 | the memory of all used and free slices |
| `Slicing.GPU.CreateSlices` | pkg/gpu/slicing/gpu.go:255-264 | slices are added exactly if the spare memory holds all of them |
| `Slicing.GPU.CanCreateMoreSlices` | pkg/gpu/slicing/gpu.go:267-271 | at least 1GB is left beside all slices |
| `Slicing.SortedBySize` | pkg/gpu/slicing/gpu.go:190-199 | each missing profile once, in order of size |
| `Slicing.GetMissingSlices` | pkg/gpu/slicing/gpu.go:239-249 | exactly the requested profiles of which fewer are free, each with the difference |
| `Slicing.GPU.UpdateGeometryFor` | pkg/gpu/slicing/gpu.go:179-237 | every missing profile has one turn, smaller ones first; true exactly when some turn created a slice; used slices are unchanged, and for requests of at least 1GB the GPU stays valid; a request for new profiles that fits beside the free slices is served in full and nothing is lost |
| `Slicing.TurnsKeep` | pkg/gpu/slicing/gpu.go:201-234 | after every turn all slices have at least 1GB and the memory of the GPU is not exceeded |
| `Slicing.RequestIsServed` | pkg/gpu/slicing/gpu.go:179-237 | if every requested profile is free already in the requested quantity or is new, and the new ones fit beside the free ones, every profile ends with the larger of what was free and what is requested |
| `Slicing.OneIsServedAsFits` | pkg/gpu/slicing/gpu.go:201-234 | of a single missing profile under a new name exactly as many slices end up free as are missing and fit the memory that used slices leave |
| `Slicing.FalseRestoresExactlyWhen` | pkg/gpu/slicing/gpu.go:215-233 | after turns that created nothing the free slices are the original ones exactly when those are named canonically |
| `Slicing.NewNamesLast` | pkg/gpu/slicing/gpu.go:201-234 | a call that creates something changes the geometry if no missing profile has the name of an original free slice |
| `Slicing.SuccessMeansChangeExactlyWhen` | pkg/gpu/slicing/gpu.go:179-237 | with one missing profile, success always means a change unless that profile is an original one and either spare memory holds all that is missing, or just the original number is created from freed memory and does not fit a second time; in those cases some run ends unchanged |
| `Slicing.UnchangedExactlyWhen` | pkg/gpu/slicing/gpu.go:204-233 | a turn ends on the original free slices exactly when nothing is there under a new name and either nothing was created from freed memory, or exactly the original number of that profile was and it alone could not be restored |
| `Slicing.SpareSlicesLastExactlyWhen` | pkg/gpu/slicing/gpu.go:204-233 | a single missing profile that fits the spare memory is created in full, and yet the geometry is unchanged in the end exactly when that profile is among the original free ones |
| `Slicing.CreatedSliceCanBeLost` | pkg/gpu/slicing/gpu.go:204-233 | counterexample: a run that creates a slice, deletes it again and returns true on unchanged slices |

## Left out

- Device ids are compared, never computed, and those of new devices are any that are not in use; resource names and the
  regular expressions over them are skipped, so a device and a request name their MIG profile directly.
- Integers are unbounded, except that printed and parsed numbers are 64-bit; overflow of sums is not modelled.
- `strings.ToLower` is modelled on ASCII letters only.
- The difference between a nil and an empty Go map or slice, and the log output.
- Kubernetes reads and writes, the restart of the device plugin, evictions and taints: each is a parameter or an
  arbitrary success or failure. `tryPreemption` is not modelled beyond `findVictims`.
- `framework.NodeInfo`, scalar resources, `AddPod`, `InitGeometry`, `HasFreeCapacity` and, but for the A30, the tables of
  known geometries.
- `pkg/clusterinfo`, `pkg/util/batcher.go`, `internal/controllers/gpuagent`, metrics and commands: simple or separate.
- NVML itself: a device is a list of instances, and its answer to a request depends on that list only.
- The order in which the permutation library enumerates; the model fixes one, and no result depends on it.
- Slicing.NewNamesLast: a sufficient condition for several missing profiles; exact are `SuccessMeansChangeExactlyWhen` for
  one missing profile and `UnchangedExactlyWhen` for the last turn of any run.
- Victims.CleanSuffices: a sufficient condition for one target; exact, for all targets, is when the simulation agrees with
  the eviction (`SimulationExactlyWhen`). Whether a disagreement misleads depends on what the target asks for.
- Negative quantities, which an annotation or a pod could state by hand and neither controller writes.
- Actuator.Apply: the clean-up of the repartitioning taint is not modelled, and the reset of a refused spec is part of
  `Agent.MigActuator.Reconcile`.
- Protocol.FailedReportCounts: reporter runs are not distinguished by the reason for which they fail.
- Actuator.Client.CreateMigDevices: whether a GPU accepts is an arbitrary choice here; that a refusal leaves the GPU as
  it was is the subject of `Nvml.CreateMigDevices`.
- Sorting is modelled by an insertion sort, proved ordered and stable, instead of the standard library's in-place sort.
