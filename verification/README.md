# Verification of xk6-otel-gen

xk6-otel-gen turns a service topology written in YAML into synthetic OpenTelemetry
traffic. This project models the parts of it where things can go wrong
quietly, and proves what they promise.

Run `dafny verify dfyconfig.toml` in this directory.

## What is modelled

**Graph check, plan builder, visualiser** (`Topology`, `CallGraph`, `DagCheck`, `Validate`,
`Plan`, `PlanProofs`, `Engine`, `VizReach`). A schema is a heap of operation and
service objects named by identities, possibly shared and cyclic. `validateDAG` is
Kahn's algorithm with its in-degree map and queue; `buildPlan` unfolds calls into a
tree under one mutable visiting map; the visualiser walks the same graph with a
visited set. The main result is that whatever `Validate` accepts can be
planned, so the panic in `NewEngineWithSeed` is unreachable after validation.

**Executor** (`ExecModel`, `Interp`, `SpanLog`, `Executor`, `ExecCoherence`, `ExecCascade`,
`ExecTime`, `ExecSim`, `ExecTheorems`, `JourneyRuns`, `ExecFaults`, `ExecMeaning`,
`ExecConcurrent`, `ExecSchedules`). `Interp` is the interpreter as a function
of a plan, an environment and a stream state; `Executor` is the source's
imperative form, an object with a cursor into the random stream, a count of
`ctx.Err` calls and clock readings, and a log of begin and finish events, proved to
compute that function in index order. `ExecFaults` and `ExecMeaning` say what it computes
without it: from the fault overlay, and by the lists of runs inside a run.
`ExecConcurrent` and `ExecSchedules` let the branches of a group run at the same
time: a run is a log of atomic actions, what a branch is answered depends on the
schedule, and the results hold for every schedule.
Time is integer nanoseconds, probabilities are reals.

**Schema and document** (`Strings`, `RawDocument`, `Tokens`, `Resolve`, `Resolver`, `ResolveMeaning`,
`Marshal`, `Marshaller`, `MarshalMeaning`, `Equal`, `RoundTrip`, `SchemaRoundTrip`, `ResolvedShape`,
`NormalForm`, `Reload`, `ReloadValid`, `ReloadLosses`, `ReloadRuns`, `EqualMeaning`, `EqualExact`).
`Resolve` and `Marshal` say what parsing and printing compute below YAML,
`Resolver` and `Marshaller` are their loops over maps and lists in any order.
`RoundTrip.Kept` is the schema that survives printing and reading back.

**k6 output queue and tag cache** (`SampleQueue`, `TagCache`). The bounded queue with its
non-atomic producers, batching consumer and draining shutdown is a state
machine of atomic steps with a program counter per goroutine; its
uncontended calls are methods of a class as well.

**Accumulator and span finish** (`Accumulator`, `SpanFinish`). The compare-and-swap loop over
a cell that `LoadOrStore` chose, and the once-only finish closure, as state
machines over any number of goroutines.

## Where the code says something else than one would expect

- Two services-map entries holding one operation object make Kahn's check report operations
  that lie on no cycle (`DagCheck.ValidateDAG`, `DagCheck.ListedTwiceIsStuck`); the earlier pointer
  rules exclude this.
- The retry delay leaves int64 for large retry counts; it is the intended delay exactly
  when that fits (`ExecTime.DelayExactIffFits`, `ExecTime.OverflowingRetry`).
- The timeout cap after the retry loop can report less time than the attempts took. Without
  recovery, spans leave the reported interval exactly when the attempts fail past the timeout
  (`ExecTime.ContainedIffWithinTimeout`; `ExecTime.CoversIff` with recovery); a call that is not
  retried and calls nothing never does (`ExecTime.LeafWithinTimeout`).
- An error-rate override at intensity zero is not invisible: it replaces a native error
  rate by zero (`ExecTheorems.QuietFoldsAgreeIff`, `ExecTheorems.ClashShows`).
- Printing drops the delta of a link that has a value, a sample rate of zero, and a zero P95; each
  can make a parsed schema come back not Equal (`ReloadLosses`).
- `Equal` compares joined names: over the operations of a schema it can be trusted exactly when no
  two of them, such as `c` of service `a.b` and `b.c` of service `a`, share one
  (`EqualExact.EqualExactIff`, `EqualExact.DottedNamesConfuse`).
- A sample can stay in the queue for good, neither emitted nor counted as dropped. After the
  drain's last look at the channel this is possible exactly when some producer past its context
  check still has a sample to push (`SampleQueue.StaysEmptyIff`, `SampleQueue.StrandedSample`).
- A tag map shares its cache key with another map exactly when it has at least two entries or an
  '=' in its only key or value (`TagCache.SharesHashIff`), and whichever is asked for second gets
  the attributes of the first (`TagCache.StaleAnswer`). Among maps without '=' in keys and without
  ';' in values there is no such pair (`TagCache.HashInjective`).

## Model

| member | source | states |
|---|---|---|
| CallGraph.StuckFree | topology/validate.go:137-193 | Kahn's loop can leave nothing over exactly when the graph is acyclic and no operation listed under two keys calls anything |
| CallGraph.OrderedNotStuck | topology/validate.go:165-179 | an operation that is dequeued lies behind no cycle and behind no doubly listed caller |
| CallGraph.LeftoverStuck | topology/validate.go:181-193 | an operation whose degree stays positive lies behind a cycle or a doubly listed operation |
| DagCheck.AllSchemaOperations | topology/validate.go:675-691 | every non-nil operation of every non-nil service is listed, once per map position |
| DagCheck.TargetsAreCalled | topology/validate.go:633-663 | an operation's targets are exactly where its calls and those calls' own fallbacks lead, through any parallel nesting and no deeper into fallbacks |
| DagCheck.InitialDegrees | topology/validate.go:142-156 | after the first loops each degree is the number of edges, with multiplicity, that lead to the operation from the listing |
| DagCheck.InitialQueue | topology/validate.go:158-163 | the queue starts with exactly the operations of degree zero, each once |
| DagCheck.Release | topology/validate.go:167-178 | draining one operation takes its out-edges off the degrees and queues exactly those that reach zero, once |
| DagCheck.Drain | topology/validate.go:165-190 | the loop drains exactly the operations that are not stuck, each at most once, callers before callees |
| DagCheck.ValidateDAG | topology/validate.go:137-193 | no error if and only if the graph of calls and first-level fallbacks is acyclic and no doubly listed operation has a listed target; otherwise the reported operations are exactly those behind a cycle or a doubly listed operation; the dequeue order is topological |
| DagCheck.ListedTwiceIsStuck | topology/validate.go:137-193 | two operations, one calling the other and listed under two keys: nothing calls in a circle, and the callee is what counts as stuck |
| Validate.ValidateNoOrphanCallReferences | topology/validate.go:102-135 | reports nothing exactly when every edge and first-level fallback, through any parallel nesting, starts and ends at listed operations |
| Validate.ValidateStepsReachable | topology/validate.go:213-236 | reports nothing exactly when every step is non-nil, is an operation or a nonempty group but not both, and names a listed operation |
| Validate.ValidateCallNodeVariantList | topology/validate.go:309-327 | reports nothing exactly when every call node is non-nil and is an edge or a nonempty group but not both |
| Validate.ValidateRecoveryPolicyOwnership | topology/validate.go:341-359 | reports nothing exactly when every fallback at any depth is non-nil and starts where its owner starts |
| Validate.ValidateFaultSchedule | topology/validate.go:515-532 | comparing neighbours reports nothing exactly when all times are non-negative and strictly increasing pairwise and all intensities are non-negative |
| Validate.ValidateFaultTarget | topology/validate.go:238-287 | counting the set pointers and checking the one the kind asks for reports nothing exactly when just that one is set, into the schema |
| Validate.ValidateEdgeDomain | topology/validate.go:577-614 | field by field it reports nothing exactly on edges in range |
| Validate.ValidateObservableMetricSpec | topology/validate.go:534-575 | reports nothing exactly on named observable metrics whose source has an accumulator and subtracts only in a gauge |
| Validate.ValidateOperationDomain | topology/validate.go:395-475 | reports nothing on an operation exactly when its name and all log events, metrics, state updates and its profile are in range |
| Validate.ValidateServiceDomain | topology/validate.go:377-393 | reports nothing on a service exactly when it has a replica, a kind and an operation, and its metrics are in order |
| Validate.ValidateJourneys | topology/validate.go:195-211 | reports nothing exactly when every journey is non-nil, reachable and in range |
| Validate.ValidateFaults | topology/validate.go:238-287 | reports nothing exactly when each fault sets the one pointer its kind asks for, into the schema, and is in range |
| Validate.ValidateGraph | topology/validate.go:15-20 | the first rules together accept exactly the schemas with consistent keys and back pointers and an acyclic graph |
| Validate.ValidateMapKeyConsistency | topology/validate.go:31-48 | reports nothing exactly when every service is non-nil and bears the name of its key |
| Validate.ValidateBackPointers | topology/validate.go:50-78 | reports nothing exactly when every operation is non-nil, points back to its service and bears the name of its key |
| Validate.ValidateOperation | topology/validate.go:577-614 | reports nothing on one operation exactly when its references, variants, ownership and edge domains are in order and its names are 1 to 120 bytes of UTF-8 |
| Validate.ValidateOperations | topology/validate.go:80-100 | the same for every listed operation |
| Validate.Validate | topology/validate.go:15-29 | the report is empty if and only if every rule predicate holds |
| Validate.NotAliased | topology/validate.go:31-78 | keys and back pointers in order mean that no operation is listed twice |
| Plan.VisitSet.constructor | journey/plan.go:54-56 | a fresh visiting map holds what it is given |
| Plan.BuildOperationNode | journey/plan.go:87-114 | at entry the shared visiting map holds exactly the operations on the build path; it is restored on every return, error returns included; terminates on every schema, cyclic or not |
| Plan.BuildCallNode | journey/plan.go:116-138 | parallel branches build under clones of the map, and the caller's map comes back unchanged |
| Plan.BuildStepNode | journey/plan.go:66-85 | every step starts from an empty visiting map and leaves it empty |
| Plan.BuildJourneyPlan | journey/plan.go:43-64 | the imperative builder returns what the specification of plans says |
| PlanProofs.BuildIffUnfolds | journey/plan.go:87-138 | on any schema the builder returns a tree if and only if that tree unfolds the calls position by position, each node with the service, name, telemetry and edge of its call, and groups bare |
| PlanProofs.StepsIffUnfold | journey/plan.go:66-85 | the same for step lists |
| PlanProofs.PlanIffUnfolds | journey/plan.go:43-64 | the same for whole journeys: one step is its own root, several hang under a virtual node |
| PlanProofs.CycleIff | journey/plan.go:93-100 | on otherwise well-formed operations the only error is cycle, and it is returned if and only if some call path repeats an operation or meets one being visited |
| PlanProofs.JourneyCycleIff | journey/plan.go:43-64 | a journey over well-formed steps and operations fails to plan, always with the cycle error, if and only if some call path from one of its steps, through any parallel nesting, meets an operation twice |
| PlanProofs.PlanErrorReal | journey/plan.go:43-138 | every error is about something real: an unknown or empty journey exactly when it is one, otherwise a defective step, or what a call walk from a step meets: an operation without service or met before, a nil call, a nil edge or an edge without target |
| PlanProofs.ValidOperationBuilds | journey/plan.go:87-114 | a validated schema's listed operations all build |
| PlanProofs.ValidatedSchemaPlans | journey/engine.go:65-72 | every journey of a schema that validates can be planned, so no plan error is reachable |
| Engine.NewEngine | journey/engine.go:45-77 | succeeds exactly when every journey plans, always on validated schemas, and then caches the unfolding of every journey |
| VizReach.Search.WalkOp | cmd/xk6-otel-gen-viz/vizdata.go:224-241 | one call of the closure adds exactly what is reachable through operations not visited before, their services and edge ids, and terminates on any graph |
| VizReach.Search.WalkEdge | cmd/xk6-otel-gen-viz/vizdata.go:230-240 | the callback records its edge and everything behind its target |
| VizReach.Search.WalkEdges | cmd/xk6-otel-gen-viz/vizdata.go:150-167 | collectEdges visits calls and first-level fallbacks of one operation and nothing else |
| VizReach.Search.WalkSteps | cmd/xk6-otel-gen-viz/vizdata.go:243-252 | all operations named by the steps, through any parallel nesting, are explored |
| VizReach.JourneyReachability | cmd/xk6-otel-gen-viz/vizdata.go:219-267 | the two sorted lists hold exactly the services and edges reachable from the steps through call and first-level fallback edges |
| VizReach.ReachedIsClosed | cmd/xk6-otel-gen-viz/vizdata.go:219-258 | the visited set holds the steps, is closed under calls, and lies inside every such set |
| VizReach.PlanIsShown | cmd/xk6-otel-gen-viz/vizdata.go:219-258 | every service of a built plan is among the shown nodes |
| VizReach.ValidIsRenderable | cmd/xk6-otel-gen-viz/vizdata.go:189-193 | on a validated schema every operation the search meets, and both ends of every edge, have a service, so no nil is dereferenced |
| Executor.Engine.DrawEdgeLatency | journey/fault.go:102-143 | two draws exactly for a lognormal with 0 < P50 < P95, one exactly for a uniform with P50 < P95, none otherwise; a uniform latency lies in [P50, P95), and none is negative when P50 is not |
| Executor.Engine.ScheduledFaultIntensity | journey/fault.go:176-192 | the scan reads the clock once and yields the schedule's step function, never negative |
| Executor.Engine.IntensityFor | journey/fault.go:161-174 | a target override wins and reads no clock; otherwise the clock is read exactly when there is a schedule, whose intensity is never negative |
| Executor.Engine.IsActive | journey/fault.go:149-159 | one draw exactly when probability times intensity lies strictly between 0 and 1, and then the fault is active exactly when the draw is below it; at 0 and below never, at 1 and above always |
| Executor.Engine.FoldNode | journey/fault.go:29-41 | crash and inflation faults of the service, in order |
| Executor.Engine.FoldEdge | journey/fault.go:48-62 | disconnect and inflation faults of the edge, in order |
| Executor.Engine.FoldOperation | journey/fault.go:68-80 | error-rate overrides and inflation faults of the operation, in order |
| Executor.Engine.FoldFaultsOf | journey/fault.go:23-82 | node, native error rate, edge and operation faults folded in that order with the same draws |
| ExecFaults.FoldedFromOverlay | journey/fault.go:23-82 | read off the overlay: the faults of the service, the edge and the operation are judged once each in that order; crashed and disconnected say whether such a fault is active, the error rate is that of the last override or the clamped native one, the error type is fixed by service kind and protocol, and the latency is the sum over the active inflations |
| ExecFaults.OneJudgment | journey/fault.go:149-192 | the judgment is determined: intensity by target, schedule or global setting with one clock reading for a schedule, and a draw only between impossible and certain |
| ExecFaults.ScheduleMeans | journey/fault.go:176-192 | on any schedule, sorted or not, the intensity is that of the last point before the first one still to come, never negative |
| ExecFaults.AddedMeans | journey/fault.go:84-100 | an inflation adds its fixed part and the stretch of 10ms by a multiplier over 1, scaled by the intensity and cut to whole nanoseconds |
| ExecFaults.CertainFaultStrikes | journey/fault.go:28-62 | a disconnect on the edge or a crash of the service whose probability times intensity reaches 1 always strikes |
| Executor.Engine.EmitMessagingProducerSpan | journey/messaging.go:20-44 | one producer span and no draw, only on a messaging edge with a known sender |
| Executor.Engine.CheckAttempt | journey/executor.go:149-192 | the attempt stops exactly when crashed, canceled, past its timeout or disconnected, and every stop is a failure that cascades; cancellation is asked exactly when the node has not crashed, and the forcing draw is made exactly when nothing stopped it and an error rate is set |
| Executor.Engine.ExecuteNodeAt | journey/executor.go:71-85 | dispatch to group, virtual node, cascade or attempts; outcome, stream state and span log are those of the specification |
| ExecMeaning.NodeMeans | journey/executor.go:71-85 | which of the four forms a node takes, and that a skipped one repeats its parent's status and error in no time |
| Executor.Engine.ExecuteCascadeAt | journey/executor.go:232-250 | one zero-length span repeating the parent's failure, one instance draw |
| Executor.Engine.ExecuteSequentialVirtualAt | journey/executor.go:252-266 | steps run one after another, the latest failure becoming the parent of what follows |
| ExecMeaning.StepsRun | journey/executor.go:252-266 | every step runs, at the time and in the state its predecessors leave, under the latest failure among them; the last outcome is reported with the time of all |
| Executor.Engine.ExecuteParallelGroupAt | journey/executor.go:268-286 | every branch starts at the group's start under the group's parent; branches run in index order here, under every schedule in `ExecSchedules` |
| ExecMeaning.BranchesRun | journey/executor.go:268-286 | every branch runs from the group's start under the group's parent, and reports at its own place |
| Executor.Engine.AggregateParallelOutcomes | journey/executor.go:491-505 | the left fold of latency maximum and first failure |
| ExecMeaning.GroupReports | journey/executor.go:491-505 | the latency is the largest of the branches, or 0; a failure is reported with status, error type and cascade mark of the first failing branch, a success with 200 |
| Executor.Engine.ExecuteAttempts | journey/executor.go:92-112 | the retry loop with its delays, stopping at success or cancellation |
| ExecMeaning.AttemptsMade | journey/executor.go:87-112 | one attempt and as many retries as the edge asks for, unless one succeeds or is canceled, which then is the last; each starts in the state its predecessor leaves |
| Executor.Engine.ExecuteAttemptSequence | journey/executor.go:87-126 | retries, cap and relabelling at the timeout, recovery, then cascade to children |
| ExecMeaning.SequenceMeans | journey/executor.go:87-126 | a success takes the time of all attempts; a failure is cut to the timeout and relabelled when it took longer, goes through recovery where the edge has a policy, and reaches the children exactly with the five cascading error types |
| Executor.Engine.ExecuteSingleAttempt | journey/executor.go:128-218 | draws, spans, early failures, children and forced failure of one attempt, in the source's order |
| ExecMeaning.AttemptMeans | journey/executor.go:128-218 | instance, latency and poll from their places in the streams; the outcome of each way to stop and of a forced or a free finish; the sender's span before the callee's, each with service, operation, edge, instance, times and ending |
| Executor.Engine.ExecuteChildrenAt | journey/executor.go:220-230 | children under a failed parent, none skipped |
| Executor.Engine.ExecuteChildrenFrom | journey/executor.go:196-203 | children of a live attempt, stopping at the first failure |
| ExecMeaning.KidsRun | journey/executor.go:196-230 | children run one after another in time and state; under a live parent the first failure is the last to run, under a failed one all run |
| Executor.Engine.ApplyRecoveryAt | journey/recovery.go:17-53 | fallbacks in order until one succeeds, latencies added, failures recorded, then the exhaustion policy |
| ExecMeaning.FallbacksRun | journey/recovery.go:17-65 | fallbacks run after the failed call and each other until one succeeds, as childless nodes or refused with 503; the report is that of the rescuer with the failed ones before it, or what the exhaustion policy makes of the failure |
| Executor.Engine.OnExhausted | journey/recovery.go:37-52 | success exactly under the two forgiving actions, each setting the flag it is named for and no other; latency and recorded attempts are kept |
| Executor.Engine.ExecuteFallbackAt | journey/recovery.go:55-65 | an undialable fallback fails at once; any other runs as a childless node of its own |
| Executor.Engine.Execute | journey/executor.go:50-65 | the log of a whole sequential run is well bracketed, and every span begun is finished exactly once |
| SpanLog.ForestBracketed | journey/executor.go:128-218 | replaying the log of any run opens and closes every span in nested order |
| SpanLog.EmissionBalanced | journey/executor.go:268-286 | in every interleaving of the siblings of a span forest the number of open spans of each label never falls below zero and ends there |
| SpanLog.SequentialEmits | journey/executor.go:268-286 | the index-order run is one of those interleavings |
| SpanLog.ShuffleBalanced | journey/executor.go:268-286 | interleaving two balanced logs gives a balanced log |
| SpanLog.EmitsTogether | journey/executor.go:268-286 | two emissions interleaved emit both forests |
| ExecConcurrent.TraceNode | journey/executor.go:71-85 | the open order of a run: it emits the spans of the run and asks each stream for exactly what lies between the first and the last state, once each, branches of a group side by side |
| ExecSchedules.AttemptInTurn | journey/executor.go:128-218 | in every schedule of an attempt exactly the draws and clock readings for its faults, instance and latency come before its own span begins, which ends last |
| ExecSchedules.BranchesMix | journey/executor.go:268-286 | the logs of a group are exactly the interleavings of logs of its branches |
| ExecSchedules.StepsInTurn | journey/executor.go:252-266 | in every schedule a step is over before the next begins |
| ExecSchedules.KidsInTurn | journey/executor.go:196-230 | so is a child before its next sibling |
| ExecSchedules.FallbacksInTurn | journey/recovery.go:25-36 | and a failed fallback before the next is tried |
| ExecSchedules.EverySpanOnce | journey/executor.go:268-286 | in every schedule of a concurrent run each begin has an identity of its own, is finished exactly once and later, and both events are those of one span of the forest that this schedule gives |
| ExecSchedules.StreamsShared | journey/replica.go:20-33 | in every schedule each place of the random stream, of the cancellation checks and of the clock readings, from the first state to the last, answers exactly one question |
| ExecSchedules.EveryScheduleCoherent | journey/executor.go:268-286 | under every schedule the outcome is coherent and, for calm plans, all spans lie inside their interval |
| ExecSchedules.GaugeBalanced | journey/executor.go:268-286 | under every schedule the number of open spans of each label never falls below zero and ends there |
| ExecSchedules.IndexOrderIsARun | journey/executor.go:268-286 | running the branches in index order is one of the schedules, with the log of the sequential engine |
| ExecSchedules.AnswersExist | journey/replica.go:20-33 | whatever the schedule, there are answers it gives |
| ExecSchedules.ScheduleDecides | journey/replica.go:29-33 | which of two calls in a group fails depends on the schedule: whichever branch runs first takes the first draw |
| ExecCascade.NodeCascades | journey/executor.go:71-85 | under a failed parent a node of any shape takes no time, asks no context, samples no fault, draws at most one instance per span, and emits only zero-length spans repeating the failure |
| ExecCascade.BranchesCascade | journey/executor.go:268-286 | the same for every branch of a group |
| ExecCascade.StepsCascade | journey/executor.go:252-266 | the same for the rest of a step list, whichever cascaded outcome is the current parent |
| ExecCascade.StepsSplit | journey/executor.go:252-266 | running a step list is running a prefix and then the rest under the parent it leaves |
| ExecCascade.StepCascade | journey/executor.go:252-266 | after the first failed step, every later step only repeats its failure and costs nothing |
| JourneyRuns.UnfoldedStepSolid | journey/plan.go:66-85 | every planned step, through any nesting, reaches an operation |
| JourneyRuns.PlannedStepCascade | journey/executor.go:252-266 | the run of a built plan ends with its first failed step's status and error type and takes no longer than up to that step |
| JourneyRuns.PlannedRunContained | journey/executor.go:50-65 | every journey of a validated schema whose timeouts sit only on unretried calls to operations that call nothing plans, and its run is coherent with all operation spans inside the journey's interval and inside their parents |
| JourneyRuns.ValidScheduleIsStepFunction | journey/fault.go:176-192 | on a validated schedule the intensity is 0 before the first point and then that of the latest point reached |
| ExecCoherence.FoldedErrorType | journey/fault.go:207-215 | the folded error type is empty or one that faults may force |
| ExecCoherence.SingleCoherent | journey/executor.go:128-218 | success exactly without an error type, success with status 200, failures within the allowed error types, no recovery flags |
| ExecCoherence.SequenceCoherent | journey/executor.go:87-126 | recovery flags are set exactly when the edge has a policy and the attempts failed, and the attempted fallbacks are the failed prefix of the policy's list, all of it on exhaustion |
| ExecCoherence.FallbacksCoherent | journey/recovery.go:17-53 | the same from any point of the fallback loop |
| ExecCoherence.NodeCoherent | journey/executor.go:71-85 | every outcome any node can return is coherent: at most one recovery flag, each with a failed primary and success |
| ExecCoherence.JourneyCoherent | journey/executor.go:50-65 | every journey run ends in a coherent outcome |
| ExecTime.BackoffAdds | journey/executor.go:507-525 | the closed forms b(k-1), bk(k-1)/2 and b(2^(k-1)-1) are the sums of the delays |
| ExecTime.DelayExactIffFits | journey/executor.go:507-525 | the computed delay is the intended one if and only if the intended one fits in an int64 |
| ExecTime.DelayWraps | journey/executor.go:507-525 | for any retry count the computed delay is the intended one wrapped into 64 bits, shifts past the word included |
| ExecTime.OverflowingRetry | journey/executor.go:507-525 | at the default delay with doubling the 38th retry is past int64 and the wrapped delay is negative |
| ExecTime.RetryAccounting | journey/executor.go:92-112 | attempt k starts at the earlier latencies plus the closed-form backoff, and the total is all of them together |
| ExecTime.TimeoutCaps | journey/executor.go:115-118 | without recovery a failed sequence on a timed edge reports at most the timeout, relabelled exactly when the uncapped total exceeded it |
| ExecTime.AggregateIsSlowest | journey/executor.go:491-505 | a group takes as long as its slowest branch |
| ExecTime.NodeContained | journey/executor.go:71-126 | where timeouts sit only on unretried calls that call nothing and on fallbacks, every operation span lies in its run's interval and inside its parent's span, through retries, fallbacks, cascades and groups |
| ExecTime.CoversIff | journey/executor.go:87-126 | with any timeout, retries and recovery on the node itself, the reported interval contains the run if and only if the attempts succeeded or took no longer than what is reported |
| ExecTime.ContainedIffWithinTimeout | journey/executor.go:115-118 | without recovery that is exactly the guard of the cap: the run escapes its interval if and only if it fails past its timeout |
| ExecTime.LeafWithinTimeout | journey/executor.go:171-179 | a call that is not retried and calls nothing never fails past its timeout |
| ExecTime.TimeoutLetsSpansEscape | journey/executor.go:115-118 | one family on which the cap reports less time than the retries took |
| ExecSim.NodesRunAlike | journey/executor.go:71-85 | plans whose settings and folded faults agree run alike from the same stream |
| ExecSim.SinglesRunAlike | journey/executor.go:128-218 | the same for one attempt |
| ExecSim.SequencesRunAlike | journey/executor.go:87-126 | the same through retries and recovery |
| ExecSim.TimeoutsAlike | journey/executor.go:534-559 | every protocol's timeout failure is in the same cascade class |
| ExecTheorems.FaultsBlind | journey/fault.go:23-82 | folding faults depends on the protocol only for the name of the error |
| ExecTheorems.ProtocolNonInterference | journey/messaging.go:16-44 | plans that differ in protocols only consume the same draws, take the same time and emit operation spans with the same times, instances and success |
| ExecTheorems.QuietFoldsAgreeIff | journey/fault.go:23-82 | at a node, faults at intensity zero fold like no faults if and only if no error-rate override meets a native error rate |
| ExecTheorems.DisabledFaultsInvisible | journey/fault.go:149-174 | without such a meeting anywhere in the plan a whole run is identical with and without the overlay |
| ExecTheorems.ClashShows | journey/fault.go:73-75 | where they do meet, a whole run of a call tried once always succeeds under the silent override, and without it fails exactly on the draws below its own error rate |
| Strings.Cut | topology/parse.go:297-300 | the parts around the first occurrence of the separator, or none when it does not occur |
| Strings.SortKeys | topology/marshal.go:43-50 | any map order gives the one ascending listing of the keys |
| Strings.LessMeans | topology/marshal.go:43-50 | the order of keys is that of strings: a proper prefix first, otherwise the smaller letter where they first differ |
| Strings.FoldMeans | topology/parse.go:535-550 | a string reads as a token exactly when it is that token in some letter case between blanks |
| Strings.TokenFolds | topology/parse.go:535-550 | trimming and lower-casing leave a printed token alone |
| Tokens.ServiceKindRoundTrip | topology/parse.go:535-550 | every service kind, the invalid one included, is parsed back from its token |
| Tokens.ProtocolRoundTrip | topology/parse.go:552-563 | the same for protocols |
| Tokens.BackoffRoundTrip | topology/parse.go:565-576 | the same for backoff policies |
| Tokens.FaultKindRoundTrip | topology/parse.go:578-591 | the same for fault kinds |
| Tokens.ExhaustedRoundTrip | topology/parse.go:593-604 | the same for exhaustion actions |
| Tokens.ConditionRoundTrip | topology/parse.go:629-640 | the same for log conditions |
| Tokens.MetricTypeRoundTrip | topology/parse.go:787-802 | the same for metric types |
| Tokens.SeverityRoundTrip | topology/parse.go:804-821 | the same for log severities |
| Tokens.CallTokens | topology/parse.go:552-604 | which tokens read as which protocol, backoff policy and exhaustion action, the empty one included where it has a meaning |
| Tokens.KindTokens | topology/parse.go:535-591 | the same for service and fault kinds |
| Tokens.TelemetryTokens | topology/parse.go:787-821 | the same for metric types, conditions and severities, warning besides warn |
| Resolver.ResolveCallNode | topology/parse.go:201-253 | a call node resolves to an edge or a nonempty group, or to the joined errors of everything in it |
| Resolver.ResolveCallNodes | topology/parse.go:213-226 | the append loop yields the resolved children in order and all their errors |
| ResolveMeaning.CallMeans | topology/parse.go:201-253 | a call resolves exactly when it reads as something: one call or one nonempty group, every name in the directory, every fallback a single call, through all nesting; it yields that, with what was given and the default of each field left out |
| Resolver.ResolveRecoveryPolicy | topology/parse.go:350-379 | every fallback must come out as a single edge, and all errors are joined |
| Resolver.ResolveStep | topology/parse.go:255-294 | a step is an operation or a nonempty group, never both or neither |
| Resolver.ResolveSteps | topology/parse.go:265-279 | the append loop over steps |
| ResolveMeaning.StepsMean | topology/parse.go:255-294 | steps resolve exactly when each is a name in the directory or a nonempty group without a name, and yield that |
| Resolver.FindEdgeInCalls | topology/parse.go:441-463 | the recursive search finds the first matching edge in visiting order |
| Resolver.FindEdge | topology/parse.go:427-439 | walking all operations in any map order finds that of the calls of the sender |
| ResolveMeaning.FirstMatchMeans | topology/parse.go:427-463 | the edge found is the first in visiting order with both ends, or none when none has them |
| Resolver.BuildOperations | topology/parse.go:103-116 | a later operation of the same name replaces an earlier one |
| ResolveMeaning.LastDeclares | topology/parse.go:103-116 | the last entry of a name declares the operation, a nil entry standing for an empty one |
| ResolveMeaning.LastCallsAre | topology/parse.go:131-152 | its calls are those of the last entry that is not nil |
| Resolver.BuildService | topology/parse.go:90-119 | one service with its defaults, its inherited namespace and its operations |
| Resolver.BuildSchema | topology/parse.go:76-122 | every service and operation of the document, in any map order |
| Resolver.ResolveServiceCalls | topology/parse.go:131-152 | call lists are filled in per non-nil entry, the last of a name staying, and an error in any entry counts |
| Resolver.ResolveCalls | topology/parse.go:129-153 | the same over all services in any map order |
| Resolver.ResolveJourneys | topology/parse.go:155-175 | journeys with their default weight and resolved steps |
| Resolver.ResolveFaultTarget | topology/parse.go:296-348 | the three target forms, cut at the first separators, with the error each malformed form gives |
| ResolveMeaning.RefMeans | topology/parse.go:419-425 | an operation reference is cut at its first dot into two nonempty names |
| ResolveMeaning.TargetMeans | topology/parse.go:296-348 | a target resolves exactly when it has one of the three forms with every name in the directory and, for an edge, a call between its ends |
| Resolver.ResolveEdgeTarget | topology/parse.go:319-344 | an edge target needs both ends and an edge between them |
| Resolver.ResolveFaults | topology/parse.go:177-195 | the append loop over faults, a nil fault being an error |
| ResolveMeaning.PointMeans | topology/parse.go:490-506 | a schedule point without a time stands at the start, without an intensity at 1 |
| Resolver.ResolveReferences | topology/parse.go:124-198 | a schema comes back exactly when no reference failed |
| ResolveMeaning.DocumentMeans | topology/parse.go:124-198 | a document resolves exactly when all its calls, replaced entries included, its steps and its fault targets can be read |
| Resolver.Parse | topology/parse.go:37-50 | a schema is returned exactly when references resolve and the result validates |
| ResolvedShape.TargetPrints | topology/marshal.go:399-416 | a fault target prints as the very string it was resolved from |
| ResolvedShape.ResolvedIsShaped | topology/parse.go:76-198 | every resolved schema has objects under their own names, edges owned by their operation, and targets that can be found again |
| Reload.ResolvedPointersOk | topology/parse.go:89-119 | resolved schemas satisfy the key and back-pointer rules by construction |
| Marshaller.MarshalCallNodes | topology/marshal.go:252-261 | the append loop over call nodes |
| Marshaller.MarshalEdge | topology/marshal.go:273-300 | the record with every default patched away |
| Marshaller.MarshalRecoveryPolicy | topology/marshal.go:335-350 | fallbacks in order and the exhaustion action unless it is the default |
| Marshaller.MarshalSteps | topology/marshal.go:365-374 | the append loop over steps |
| Marshaller.MarshalOperations | topology/marshal.go:80-99 | operations in ascending order of name whatever the map order |
| Marshaller.MarshalService | topology/marshal.go:52-71 | inherited namespace and single replica are dropped |
| Marshaller.MarshalServices | topology/marshal.go:22-24 | every service under its key |
| Marshaller.MarshalJourneys | topology/marshal.go:25-27 | every journey under its key |
| Marshaller.MarshalYAML | topology/marshal.go:12-32 | the raw document of a schema |
| MarshalMeaning.LatencyElides | topology/marshal.go:313-333 | a latency is left out exactly when constantly 0, a tail exactly when 0 or equal to the median |
| MarshalMeaning.EdgeElides | topology/marshal.go:273-350 | of an edge exactly the fields at their defaults are left out, the retry delay when unset or 100ms |
| MarshalMeaning.TelemetryElides | topology/marshal.go:101-250 | zero numbers, severity info, condition always, sample rates 0 and 100 and the delta of a link with a value are left out, and nothing else |
| MarshalMeaning.SchemaElides | topology/marshal.go:12-71 | the default or inherited namespace, a single replica, weight 1 and all-zero severities are left out exactly when they are that |
| MarshalMeaning.NilPrints | topology/marshal.go:399-416 | nil objects print as empty entries, and their names as the source spells them |
| RoundTrip.LatencyReadsBack | topology/marshal.go:313-333 | a latency reads back as itself but for a zero P95, which becomes P50 |
| RoundTrip.EdgeReadsBack | topology/marshal.go:273-300 | a printed edge with its fallback tree resolves to the edge, default delay filled in |
| RoundTrip.CallNodesReadBack | topology/marshal.go:252-261 | the same for whole call trees, at the same positions |
| RoundTrip.StepsReadBack | topology/marshal.go:365-374 | step trees read back unchanged |
| RoundTrip.LinkReadsBack | topology/marshal.go:239-250 | a fault link reads back without the delta a value hides |
| RoundTrip.ProfileReadsBack | topology/marshal.go:123-139 | a profile reads back with a zero sample rate turned into 100 |
| RoundTrip.OperationReadsBack | topology/marshal.go:80-99 | a printed operation reads back with its calls and telemetry |
| SchemaRoundTrip.ServiceReadsBack | topology/marshal.go:52-71 | a printed service reads back with its namespace, kind, replicas, names and metrics |
| SchemaRoundTrip.FaultsReadBack | topology/marshal.go:390-416 | printed faults read back to the same targets in the reloaded schema |
| SchemaRoundTrip.ReadsBack | topology/marshal.go:12-32 | for every resolved schema, resolving what was printed succeeds and yields exactly the kept schema |
| NormalForm.KeptPrints | topology/marshal.go:12-32 | the kept schema prints as the same document |
| NormalForm.MarshalIsNormalForm | topology/marshal.go:12-32 | for every resolved schema, printing, resolving and printing again gives the same document |
| NormalForm.ReloadIsIdempotent | topology/parse.go:76-198 | after one reload, printing and resolving gives the identical schema |
| Reload.EqualIffCarried | topology/equal.go:12-20 | Equal accepts the kept schema exactly when the document carried everything it compares |
| ReloadValid.ValidKept | topology/validate.go:15-29 | a valid schema is still valid after the round trip |
| ReloadValid.CheckedCallsKeep | topology/validate.go:741-757 | where edge domains are checked, only fallbacks of fallbacks can lose a latency |
| ReloadValid.ParsedRoundTrip | topology/equal.go:12-20 | for every parsed schema the round trip succeeds, validates, and is Equal if and only if no link has value and delta, no disabled profile has rate 0, and no fallback nested two deep has a zero P95 under a non-zero P50 |
| ReloadLosses.ValueAndDeltaLost | topology/marshal.go:243-248 | a parsed schema whose link has both a value and a delta does not come back Equal |
| ReloadLosses.DisabledRateLost | topology/marshal.go:132-134 | nor does one with a disabled profile of sample rate 0 |
| ReloadLosses.NestedLatencyLost | topology/marshal.go:329-331 | nor does one with such a nested fallback |
| ReloadRuns.KeptPlans | journey/plan.go:43-64 | the reloaded schema builds the kept plan |
| ReloadRuns.SameFolds | journey/fault.go:23-82 | faults of the reloaded schema fold as before |
| ReloadRuns.SameNode | journey/executor.go:71-85 | the kept plan runs as the original from the same stream |
| ReloadRuns.ReloadRunsAlike | journey/executor.go:50-65 | a parsed schema that survives reloading and its reload run every journey with the same draws, the same spans and the same outcome |
| EqualMeaning.NamesTellApart | topology/validate.go:665-673 | joined names tell the operations of a directory apart when no two share one |
| EqualMeaning.ClashForm | topology/validate.go:665-673 | two references share a joined name if and only if one moves a dotted piece from service to operation |
| EqualMeaning.EqualNodesMean | topology/equal.go:206-223 | call trees are Equal exactly when they are the same but for unset retry delays |
| EqualMeaning.DelaysTold | topology/equal.go:378-383 | equal edges have the same retry delay, or one leaves unset what the other sets to 100ms |
| EqualMeaning.EqualStepsMean | topology/equal.go:278-295 | step trees are Equal exactly when they are the same |
| EqualMeaning.EqualMeansSame | topology/equal.go:12-20 | resolved schemas none of whose operations share a joined name are Equal exactly when they are the same but for unset retry delays, fault targets compared as printed |
| EqualExact.CatalogueResolves | topology/parse.go:76-198 | every directory has a document that resolves over it, with one journey calling any operation of it |
| EqualExact.CatalogueValid | topology/validate.go:15-29 | that schema is valid as soon as services have operations and operation names fit |
| EqualExact.ParsedNamesFit | topology/validate.go:386-405 | and in every parsed schema they do |
| EqualExact.CollisionConfuses | topology/equal.go:278-295 | any two operations of one joined name make two parsed schemas that are Equal and not the same |
| EqualExact.EqualExactIff | topology/equal.go:12-20 | Equal is sameness on all parsed schemas over a directory if and only if no two of its operations share a joined name |
| EqualExact.DottedNamesConfuse | topology/equal.go:278-295 | a concrete pair: a journey calling operation c of service a.b, and one calling operation b.c of service a |
| SampleQueue.StepPlaces | k6output/output.go:152-166 | every step of any goroutine keeps each offered sample in exactly one place |
| SampleQueue.StepOrders | k6output/output.go:270-330 | emitted, batch and queue together keep each producer's order |
| SampleQueue.StepCounts | k6output/output.go:270-288 | the drop counter is the number of discarded samples, less those about to be counted |
| SampleQueue.CallOffersAll | k6output/output.go:152-166 | a call offers all its samples one by one before it returns, and none once the output is canceled |
| SampleQueue.FlushStarts | k6output/output.go:306-330 | a flush begins exactly at a tick, at the end of the drain and when the batch is full |
| SampleQueue.FlushEmits | k6output/output.go:296-304 | from its beginning to its end a flush emits the batch, in order, and nothing else |
| SampleQueue.EveryMoment | k6output/output.go:270-330 | in every state of every interleaving each offered sample is in exactly one of emitted, batch, queue, discarded and in hand; each producer's order is kept; drops plus the pushes about to count one are the discarded samples; the queue is within capacity and the batch below its limit except inside a flush |
| SampleQueue.SoleProducer | k6output/output.go:270-288 | with one producer the retry always enqueues the newest sample |
| SampleQueue.StrandedOnlyInFlight | k6output/output.go:306-319 | after the drain's last look at the channel nothing more is received, and whatever is in the queue was pushed by a producer that at that look still had a sample to push |
| SampleQueue.StaysEmptyIff | k6output/output.go:306-319 | after the last look every continuation keeps the queue empty if and only if no producer holds a sample or has one left to send |
| SampleQueue.FinalAccount | k6output/output.go:170-201 | at rest after the close the samples neither emitted nor counted are exactly those in the queue |
| SampleQueue.CleanShutdown | k6output/output.go:306-319 | if at the last look no producer had, the queue stays empty and every offered sample ends up emitted once or discarded and counted once |
| SampleQueue.StrandedSample | k6output/output.go:152-166 | a push between the last look and the close of flushDone leaves a sample in the queue, neither emitted nor counted, with every producer idle at the close |
| SampleQueue.Output.constructor | k6output/output.go:76-100 | an output starts empty |
| SampleQueue.Output.TryPush | k6output/output.go:270-288 | undisturbed, the queue becomes the newest samples within capacity and every other one is counted |
| SampleQueue.Output.AddMetricSamples | k6output/output.go:152-166 | a canceled output ignores the call; otherwise the queue becomes the newest samples within capacity and every other one is counted |
| SampleQueue.Output.FlushBatch | k6output/output.go:290-330 | the batch is emitted in order and emptied |
| SampleQueue.Output.DrainAndFlush | k6output/output.go:290-330 | the shutdown drain emits batch and queue in order and leaves both empty |
| TagCache.HashTags | k6output/convert.go:53-71 | the encoding is one function of the tag map, whatever the map order |
| TagCache.HashInjective | k6output/convert.go:53-71 | on keys without '=' and values without ';' equal hashes mean equal maps |
| TagCache.SharesHashIff | k6output/convert.go:53-71 | a tag map shares its hash with some other map if and only if it has at least two entries, or its only key or value contains '=' |
| TagCache.TagSetCache.constructor | k6output/convert.go:49-51 | a cache starts empty |
| TagCache.TagSetCache.Get | k6output/convert.go:73-84 | after any history of plain requests, and whatever others store between its Load and its LoadOrStore, the cached set is the freshly built one; otherwise it is the set of some request of the same hash; entries never change |
| TagCache.TagSetCache.LoadOrStore | k6output/convert.go:82-83 | the first set stored under a hash stays and is what every later call gets |
| TagCache.StaleAnswer | k6output/convert.go:73-84 | of two maps with one hash the second gets the attributes of the first, which are not its own |
| Accumulator.StepInv | synth/observable.go:36-50 | every atomic step keeps each cell equal to the sum of the updates done to its key |
| Accumulator.LoadIsSum | synth/observable.go:52-65 | at every moment of every interleaving Load is the sum of the deltas that have taken effect, and each update has been begun exactly as often as it has taken effect or is in the hands of a goroutine |
| Accumulator.CellNeverReplaced | synth/observable.go:67-74 | a key keeps its first cell for good |
| Accumulator.EffectOnce | synth/observable.go:36-50 | an Add takes effect exactly once, at its successful swap |
| Accumulator.FailureMeansProgress | synth/observable.go:42-48 | a swap fails only if another goroutine has swapped the same cell since the read |
| SpanFinish.StepActive | synth/synthesizer.go:504-514 | every step keeps each active-request counter equal to its begun and unreleased counted spans |
| SpanFinish.StepSpans | synth/synthesizer.go:123-150 | a finished span has ended and been released, or one caller is doing it |
| SpanFinish.AlwaysInv | synth/synthesizer.go:104-150 | both hold in every state of every interleaving |
| SpanFinish.RepeatedFinish | synth/synthesizer.go:123-150 | a finish call on a finished span changes nothing |
| SpanFinish.NeverTwice | synth/synthesizer.go:123-150 | no span ends twice and no counter goes below zero |
| SpanFinish.AllFinished | synth/synthesizer.go:123-150 | at rest with every span finished, each has ended exactly once and every counter is back at its start |

## Left out

- YAML encoding and decoding, duration texts and Lint: the raw document is the boundary.
- Texts and paths of errors; trees and faults keep the kind of each error, whole-document parsing keeps only whether there was one.
- Nil slices are not told from empty ones, and `map[string]any` payloads are opaque tokens that are only copied and compared.
- Floating-point rounding, NaN and infinity: reals, with finite inputs.
- int64 overflow other than in the retry delay; sums of latencies are unbounded integers.
- The lognormal transform is an arbitrary function of its two draws, required to be non-negative where containment needs it.
- Metric records, log events, state updates and profiles emitted when a span finishes (`finishAndEmitAt` after the finish call), and the links of consumer spans.
- A nil plan node, panics of the synthesizer and their recovery inside parallel branches and in `Execute`.
- Fault intensities are constant during a run; setting them concurrently is not modelled.
- `ExecSchedules` treats faults and latency drawn by one branch between two of its span events as free to interleave across the three streams, which admits a few schedules more than there are.
- The simulation results (`ExecSim`, `ExecTheorems`, `ReloadRuns`) compare runs of one schedule, index order.
- ApplyFaults, which sorts fault specs by target into the overlay; a run takes any overlay.
- Executor.Engine.EmitMessagingProducerSpan: does not model the duration metric of the producer span or the context it returns.
- PlanProofs.CycleIff: is stated for operations whose calls are otherwise well formed, because on others the builder may report another error first.
- PlanProofs.JourneyCycleIff: likewise for steps and operations that are otherwise well formed.
- Executor.Engine.ExecuteParallelGroupAt: runs the branches in index order; other schedules are runs of `ExecSchedules`, not of this method.
- Marshaller.MarshalOperations: the flat lists of log events, metrics, state updates, stacks, schedule points and faults' fields are mapped by functions, not by the source's append loops.
- Resolver.BuildSchema: likewise for the flat lists it reads; and names are looked up in a directory of operation names instead of the objects themselves.
- SampleQueue.Output.DrainAndFlush: is the drain without concurrent producers; the state machine covers those. The emission of one container into instruments is one atomic step.
- SampleQueue.Output.FlushBatch: empties the batch at the end, where the state machine takes each container out as it is emitted.
- TagCache.TagSetCache.Get: a set of attributes is a map of prefixed tags; the nil cache is left out.
- Accumulator.LoadIsSum: sums are over reals, so reordering of floating-point additions is not visible.
- SpanFinish.AllFinished: attributes, status and events set while finishing are left out, as is the panic of race-enabled builds on a second call.
- Waiting in `Stop` with its timeouts, exporters, the shared pipeline, k6 and JavaScript bindings, configuration and journey picking.
