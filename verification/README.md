# LinkGuardian and CorrOpt: a verified model

This project models two parts of the repository in Dafny and proves what they are for.

**The link-disabling engine of the simulator.** A three-tier fabric (ToR, aggregation and core switches) suffers
corrupting links. An event loop replays a failure trace. On a failure, CorrOpt's fast checker, optionally after
activating LinkGuardian on the link, disables the link if every ToR below it keeps enough paths to the core. On a
recovery, the repaired link is enabled and CorrOpt's optimizer disables the set of corrupting links that removes the
most loss without breaking the constraint. The topology object keeps a dozen indexes up to date incrementally. The
main results:

* every index equals its definition from scratch in every reachable state (`Topology.Valid`): path counts, aggregation
  lists, uplink counters, both loss totals, pod capacities, the heap of top loss rates, LinkGuardian ports per pipe
  and their heap;
* the optimizer is optimal among all safe subsets of the corrupting links, although it works in two stages, filters by
  single links and prunes by a reject cache;
* over a whole run from a freshly built FatTree or FB Fabric (`Experiments.Experiment`): the run terminates; it
  handles every failure of the trace exactly once, in the order of their queued times, and beyond them only repairs of
  links that one of its events took down, each two or four days after that event or as soon after as a time was free;
  each recorded state and its pending events follow from the one before by the specified effect of the event handled in
  between; every ToR keeps at least the demanded percentage of its initial paths in every recorded state; no corrupting
  link that stays enabled could be disabled; at the end nothing is disabled and nothing is pending; and the printed
  counts and dumped rows are those of this course of events;
* the FB Fabric is built with the greatest number of core switches per plane that the oversubscription allows, and in
  both fabrics every link is on the port, and so on the pipe, that its place in the fabric gives it;
* every dumped sample reports what a scan of the whole state would report, at strictly increasing times.

**The LinkGuardian receiver protocol.** A register machine with 16-bit sequence numbers and one era bit detects holes,
releases packets in order in blocking mode with recirculation and de-duplication, skips numbers by timer, and requests
priority flow control. The receiver's methods are proved to be the steps of a machine (`BlockingMode.Step`) on unbounded
numbers that decides as the 16-bit registers do, without any assumption on the numbers in play. That machine is then
related to the protocol it is meant to be: exactly which decisions agree, which runs follow the protocol, and what
becomes of order once they do not.

Each `.dfy` file holds one component: `Collections` (sums, cardinalities, list operations), `Fabric` (links, paths,
safety), `Indexes` (the indexes and how updates carry them), `Topology`, `Traversal`, `Metrics`, `SubsetSearch` (the
optimizer's mathematics), `CorrOpt`, `LinkGuardian`, `EventQueue`, `PendingEvents` (what is queued when,
pending recoveries and the termination measure), `Transitions` (what one event does, and what follows over whole runs),
`Simulation`, `Growth`, `Ports` and `Builders` (the topology builders), `Experiments` (whole runs), `SequenceNumbers`,
`HoleDetection`, `BlockingMode`, `FlowControl`.

Modelling conventions. Switches and links are named by what they are (pod, index, pair of ends), where the code draws
ids from a generator. Rates and capacities are real numbers. A repair delay is a free choice of two or four days.
Python sets and dictionaries are visited in an arbitrary order. A priority queue gives up an arbitrary least entry.
Rows that cite a class method state its effect on the whole object: what a contract does not mention is outside its
`modifies` clause or fixed by the invariant.

Where the code and its comments disagree, the model follows the code:

* `add_link` says that the loss rate is set to zero; it is set to 1e-18, and that is what the totals and heaps hold.
* The era registers are said to toggle between 0 and 1; they hold 0 or 255, and only the low bit is used.

Properties that turned out to hold only under a condition, with the exact condition:

* The FatTree builder announces k^3/2 links. The loss totals are right if and only if k is even
  (`Builders.BuildFatTree`, `Builders.FatTreeNumLinksRight`); for k = 3 it builds 6 links and announces 13.5
  (`Builders.ThreePortFatTree`).
* Adding a link keeps the indexes right if and only if it is not a ToR link of an aggregation switch that is already
  wired to the core: the links to the core do not hear of the new ToR (`Growth.AddLink`, `Growth.ExtendUnheard`). The
  builders wire in the right order.
* Setting an effective capacity keeps every index right if and only if LinkGuardian runs on the enabled link or the
  capacity does not change (`Topologies.Topology.UpdateEffectiveLinkCapacity`); LinkGuardian calls it only where it runs.
* The constraint holds initially if and only if the percentage is at most 100 (`Experiments.FinishedMeets`).
* The reported greatest loss rate always bounds the rates of the enabled links; it is the rate of one of them if and
  only if some enabled link has at least the initial rate (`Metrics.GreatestRateIsScan`, `Transitions.FaithfulMaximum`
  for every sample of a run). In the FatTree with k = 2 all four links can fail at a rate below 1e-18, stay enabled, and
  the report is 1e-18, which no link has (`Experiments.LowRates`).
* Hole reports cover all missing numbers if and only if every loss burst is shorter than 65536
  (`HoleDetection.ReportsComplete`, `HoleDetection.LongBurstUnreported`).
* Let d be the distance in half blocks of 32768 numbers from the acknowledgement to a packet. With the era register in
  step, the registers decide as unbounded numbers do if and only if d is 0, or d is odd and d mod 4 = 1 exactly for
  positive d, or d is even and the offsets in the half blocks differ in the sense of d; out of step the odd case is
  reversed (`BlockingMode.DecisionExact`). 32768 is the largest window within which decisions in step are always right
  (`BlockingMode.WindowTight`).
* The timer pass advances the acknowledgement past 65535 without toggling the era register, which is right if and only
  if that has happened an even number of times (`BlockingMode.EraInStep`). Otherwise decisions within the window are
  right only in the half block of the acknowledgement (`BlockingMode.NearDistinguishable`): right after the first missed
  toggle a duplicate of 65535 is held and 98304, still needed, is dropped (`BlockingMode.MissedToggleMisleads`). A number
  that is held by mistake is held until the acknowledgement next has its 16 bits, and is then released in the place of
  another (`BlockingMode.StaleFate`). Over a whole run, with missed toggles or not, release stays in order and exactly
  once if and only if no recirculated packet ever comes round with the 16 bits of the acknowledgement of another number
  (`BlockingMode.OrderOutOfStep`, `BlockingMode.StepKeepsOrder`). `BlockingMode.StaleRelease` gives the run from power-on
  in which that fails: the wait for 65535 runs out, its retransmission comes late and is held, and it is released after
  131070 in the place of 131071. No packet is lost from sight even then (`BlockingMode.RunConserves`).
* Sent flow control frames repeat if and only if an even number of requests was scheduled between them
  (`FlowControl.FramesAlternate`, `FlowControl.RepeatedPause`).

## Model

| member | source | states |
|---|---|---|
| Fabrics.PathsAntitone | simulator/topology/topology.py:866-905 | fewer enabled links never give a ToR more paths |
| Fabrics.PathsLocal | simulator/topology/topology.py:598-603 | disabling links leaves the paths of every ToR outside their affected sets untouched, so recounting only affected ToRs is enough |
| Fabrics.SafeSubset | simulator/solutions/corropt.py:228-246 | subsets of safe sets are safe: what justifies rejecting supersets of rejected sets |
| Fabrics.SafeMeets | simulator/solutions/corropt.py:98-135 | where the constraint holds, checking only the affected ToRs decides whether it still holds for all ToRs |
| Fabrics.SafeExtend | simulator/solutions/corropt.py:306-424 | a set that is safe after a safe set has gone down is safe together with it |
| Fabrics.FastCountIsPathCount | simulator/topology/topology.py:880-905 | summing active uplinks over the listed aggregation switches counts the enabled ToR-Agg-Core paths |
| Fabrics.TraversalPaths | simulator/topology/topology.py:809-816 | with cutoff tiers - 1 a traversal from a ToR to a core switch finds exactly the up-up paths, one per upper link |
| Indexes.AggListsDisable | simulator/topology/topology.py:413-424 | the aggregation switch to be removed is on the list, and removing its first occurrence keeps the lists exact |
| Indexes.UplinkCountsDisable | simulator/topology/topology.py:591-594 | decrementing one counter keeps all uplink counters exact |
| Indexes.PathCacheElsewhere | simulator/topology/topology.py:597-603 | a change of one link leaves the cached counts right everywhere but at its affected ToRs |
| Indexes.LossTotalsDrop | simulator/topology/topology.py:558-563 | subtracting a disabled link's rate keeps the total equal to the sum over enabled links |
| Indexes.TopRatesDrop | simulator/topology/topology.py:297-299 | the rate of a corrupting link is in the heap, and removing one copy keeps the heap the initial rate plus the corrupting rates |
| Indexes.TopRatesAdd | simulator/topology/topology.py:286-295 | pushing the rate of a newly corrupting link keeps the heap exact |
| Indexes.PodIndexDisable | simulator/topology/topology.py:719-728 | subtracting the effective capacity of a disabled link keeps every pod entry the sum over its enabled links |
| Indexes.PodIndexEnable | simulator/topology/topology.py:719-728 | adding the reset capacity of an enabled link keeps every pod entry exact |
| Indexes.PodIndexCapacity | simulator/topology/topology.py:730-743 | replacing the effective capacity of a link moves the entry of its pod by the difference, which is right for an enabled link, and for a disabled one only if nothing changes |
| Indexes.TopCountsMove | simulator/topology/topology.py:459-493 | moving one counter keeps the heap 0 plus all nonzero counters; a nonzero old value is found in it |
| Indexes.Fabric.DealtInTurn | simulator/topology/topology.py:444-454 | the j-th port of a switch is on pipe j modulo the number of pipes |
| Indexes.LgCountsAdd | simulator/topology/topology.py:445-464 | incrementing the counter of a port's pipe keeps all per-pipe counters exact |
| Indexes.LgCountsDrop | simulator/topology/topology.py:476-488 | the counter of an active port is positive, and decrementing it keeps all counters exact |
| Topologies.Topology.constructor | simulator/topology/topology.py:89-171 | an empty topology has all indexes right |
| Topologies.Topology.CollectUplinks | simulator/topology/topology.py:887-901 | the uplinks of the listed switches, replaced where an update is given |
| Topologies.Topology.GetNumPathsToCore | simulator/topology/topology.py:866-905 | with exclusions and replacements that describe a set of enabled links, the result is the path count over that set |
| Topologies.Topology.RefreshPathCounts | simulator/topology/topology.py:597-603 | recounting the affected ToRs makes the whole cache right |
| Topologies.Topology.IncrLgPortsPerPipe | simulator/topology/topology.py:459-474 | counters and heap stay exact with one more LinkGuardian port |
| Topologies.Topology.DecrLgPortsPerPipe | simulator/topology/topology.py:476-493 | counters and heap stay exact with one port less; the asserted non-negativity holds |
| Topologies.Topology.SetLinkGuardianEnabled | simulator/topology/topology.py:516-524 | LinkGuardian runs on exactly one more link, all indexes exact, also when it ran there already |
| Topologies.Topology.StopLinkGuardian | simulator/topology/topology.py:608-615 | LinkGuardian stops on the link, counters and heap exact |
| Topologies.Topology.DropFromPaths | simulator/topology/topology.py:587-606 | lists, counters, path counts and pod capacity follow a link going down |
| Topologies.Topology.AddToPaths | simulator/topology/topology.py:669-687 | lists, counters, path counts and pod capacity follow a link coming up |
| Topologies.Topology.RetireLink | simulator/topology/topology.py:545-563 | flags, sets, heap and both totals follow a link going down |
| Topologies.Topology.DisableLink | simulator/topology/topology.py:544-615 | exactly the link moves from corrupting to disabled, LinkGuardian stops on it, and every index equals its definition again |
| Topologies.Topology.EnableLink | simulator/topology/topology.py:617-687 | exactly the link leaves the disabled set, with initial rates and full capacity, and every index equals its definition again |
| Topologies.Topology.RecordLinkTopLossRate | simulator/topology/topology.py:286-295 | the heap already holds the rate about to be set, also on a link that was corrupting before |
| Topologies.Topology.SetLinkLossRate | simulator/topology/topology.py:689-702 | the rate is set and the total is the sum over enabled links |
| Topologies.Topology.SetLinkEffectiveLossRate | simulator/topology/topology.py:704-717 | the effective rate is set and the effective total is the sum over enabled links |
| Topologies.Topology.UpdateEffectiveLinkCapacity | simulator/topology/topology.py:730-743 | the effective capacity is set; every index still equals its definition exactly if LinkGuardian runs on the link or the value does not change |
| Traversal.TraceLinks | simulator/topology/topology.py:820-834 | following a switch path link by link finds a disabled link exactly if the path is not enabled |
| Traversal.GetPathsToCoreSwitch | simulator/topology/topology.py:809-836 | as many enabled paths to a core switch as enabled upper links lead there, each its two links |
| Traversal.CountPathsByTraversal | simulator/topology/topology.py:838-864 | the number of paths found by traversal over all core switches is the path count |
| Traversal.CompareCounts | simulator/topology/topology.py:853-864 | in every state satisfying the invariant the cached count equals the count by traversal |
| Metrics.GreatestRateIsScan | simulator/topology/topology.py:927-928 | in a state that a sample describes, the reported rate bounds the rates of all enabled links, and is attained exactly if some enabled rate is at least the initial one |
| Metrics.GetAvgNumPaths | simulator/topology/topology.py:916-917 | the average path count over all ToRs, counted from scratch |
| Metrics.GetMinNumPaths | simulator/topology/topology.py:908-914 | the least path count of any ToR, counted from scratch |
| Metrics.GetAvgPodCapacity | simulator/topology/topology.py:923-925 | for some map that holds for every pod the least of its effective capacities, summed from scratch, the average of its values |
| Metrics.GetMinPodCapacity | simulator/topology/topology.py:919-921 | the least effective capacity of any pod and link type, summed from scratch |
| Metrics.GetMaxLinkLossRate | simulator/topology/topology.py:927-928 | the greatest of the initial rate and the rates of all enabled links |
| Metrics.GetMaxLgPortsPerPipe | simulator/topology/topology.py:930-931 | the greatest number of LinkGuardian ports on any pipe of any switch |
| Metrics.GetCurrentMetrics | simulator/simulation/simulation.py:326-338 | all ten metrics describe the state as a full scan would |
| Metrics.StepRowsAre | simulator/simulation/simulation.py:89-106 | the file holds every sample, and before each but the first the previous values at its own time |
| Metrics.DataDumper.Dump | simulator/simulation/simulation.py:89-106 | a sample at another time than the last is appended; the rows are those of a step function |
| Metrics.DataDumper.DumpLastRow | simulator/simulation/simulation.py:108-116 | the last values are repeated four days later |
| SubsetSearch.SafeIffNoViolators | simulator/solutions/corropt.py:252-269 | a set is safe exactly if the violation check finds no ToR |
| SubsetSearch.BulkSafe | simulator/solutions/corropt.py:302-325 | any part of the bulk step is safe |
| SubsetSearch.BulkCostsNothing | simulator/solutions/corropt.py:302-325 | disabling the bulk links first takes nothing away from any safe choice |
| SubsetSearch.TwoStagesOptimal | simulator/solutions/corropt.py:302-424 | the bulk links with an optimal choice among the rest are an optimal choice among all |
| SubsetSearch.OptimalIsMaximal | simulator/solutions/corropt.py:404-422 | with positive rates no link left enabled by an optimal choice could be disabled on top of it |
| SubsetSearch.CombinationsComplete | simulator/solutions/corropt.py:161-174 | the combinations of a length are exactly the subsets of that size |
| SubsetSearch.CombinationsDistinct | simulator/solutions/corropt.py:161-174 | no combination is enumerated twice |
| SubsetSearch.SupersetRejected | simulator/solutions/corropt.py:229-246 | a superset of a rejected set is unsafe |
| SubsetSearch.SinglesAndCombinationsExplore | simulator/solutions/corropt.py:352-389 | single links and the combinations of the safe ones include every nonempty safe subset |
| SubsetSearch.NoSinglesExplore | simulator/solutions/corropt.py:361-366 | if no single link is a candidate, no subset is |
| SubsetSearch.LeastIsOptimal | simulator/solutions/corropt.py:395-404 | an entry of least remaining loss is an optimal choice; with an empty queue nothing can go |
| SubsetSearch.OptimalMakesMaximal | simulator/solutions/corropt.py:277-424 | after an optimal choice no remaining corrupting link can be disabled |
| SubsetSearch.MaximalDrop | simulator/solutions/corropt.py:137-152 | disabling a link makes it no easier to disable another |
| Events.GetRecoveryEvent | simulator/solutions/corropt_recovery.py:12-26 | a recovery of the link two or four days later |
| CorrOpt.Ceil | simulator/solutions/corropt.py:39 | the least integer not below the argument |
| CorrOpt.ActivePathsConstraint | simulator/solutions/corropt.py:32-39 | the least number of paths that is at least the given percentage of the initial ones |
| CorrOpt.CandidateSubsetQueue.GetLeastLossRateSubset | simulator/solutions/corropt.py:21-25 | removes one entry of least remaining loss; an empty queue is an error |
| CorrOpt.CorrOptSolution.constructor | simulator/solutions/corropt.py:29-50 | the constraint is the least number of paths that is at least the given percentage of the paths of one ToR |
| CorrOpt.CorrOptSolution.CanDisableSafely | simulator/solutions/corropt.py:88-135 | the answer is whether every affected ToR keeps enough paths without the link |
| CorrOpt.CorrOptSolution.FastChecker | simulator/solutions/corropt.py:77-159 | the link goes down and its repair is requested exactly if that is safe, otherwise nothing changes but a counter |
| CorrOpt.CorrOptSolution.Tally | simulator/solutions/corropt.py:182-203 | exclusions, reduced uplink counts and affected ToRs describe the network without the links, also when ToR and core links of one switch mix |
| CorrOpt.CorrOptSolution.GetTorsWithViolation | simulator/solutions/corropt.py:177-226 | exactly the affected ToRs that fall below the constraint without the links |
| CorrOpt.CorrOptSolution.PredictAndDisable | simulator/solutions/corropt.py:177-226 | what-if equals doing it: after disabling the links one by one in any order, exactly the predicted ToRs are below the constraint |
| CorrOpt.CorrOptSolution.LossRateReduction | simulator/solutions/corropt.py:260-262 | the sum of the rates of the subset |
| CorrOpt.CorrOptSolution.ProcessSubset | simulator/solutions/corropt.py:228-274 | the subset is queued with the loss it would leave exactly if it is safe; an unsafe one enters the reject cache exactly if no cached set is part of it, and is counted as an early reject otherwise |
| CorrOpt.CorrOptSolution.ProcessSingles | simulator/solutions/corropt.py:352-359 | exactly the safe single links are candidates |
| CorrOpt.CorrOptSolution.ProcessCombinations | simulator/solutions/corropt.py:371-389 | every subset of two or more safe links is processed |
| CorrOpt.CorrOptSolution.FindLeastSubset | simulator/solutions/corropt.py:346-404 | the found subset is optimal among all subsets of the corrupting links |
| CorrOpt.CorrOptSolution.DisableUnconstrained | simulator/solutions/corropt.py:302-327 | exactly the corrupting links upstream of no violated ToR go down, with one repair each |
| CorrOpt.CorrOptSolution.DisableSubset | simulator/solutions/corropt.py:411-422 | exactly the subset goes down, with one repair each |
| CorrOpt.CorrOptSolution.Optimize | simulator/solutions/corropt.py:277-424 | what goes down is a safe subset of the corrupting links of greatest total loss, with exactly one repair per link and nothing else changed |
| LinkGuardian.TableHolds | simulator/solutions/linkguardian.py:18-22 | the dictionary holds exactly the measured rates, each once and with the values of its last entry |
| LinkGuardian.PerfTable.NearestMeasured | simulator/solutions/linkguardian.py:30-41 | a measured rate is looked up as itself |
| LinkGuardian.LinkGuardianSolution.GetEffectiveLossRateCapacity | simulator/solutions/linkguardian.py:30-41 | the values of the first measured rate such that none lies strictly between it and its mirror image in the rate looked up; a measured rate gets its own values; none exactly if all are out of reach |
| LinkGuardian.LinkGuardianSolution.ProcessFailure | simulator/solutions/linkguardian.py:46-73 | on a capable link LinkGuardian runs with the nearest measured rate's effective rate and capacity, on others nothing changes and nothing is looked up, and every index equals its definition |
| LinkGuardian.LgCorrOptSolution.ProcessFailure | simulator/solutions/linkguardian_and_corropt.py:41-67 | LinkGuardian first, then the link goes down exactly if that is safe; the three counters count what they say |
| EventQueues.EventQueue.AddEvent | simulator/simulation/simulation.py:31-51 | the event gets the least time not used before, at or after the one it asks for |
| EventQueues.LeastUnusedSoon | simulator/simulation/simulation.py:36-38 | an event is put off by no more than the number of times used before |
| EventQueues.EventQueue.GetNextEvent | simulator/simulation/simulation.py:53-65 | the earliest event is taken, and all others lie strictly later |
| EventQueues.EventQueue.GetHeadEventTime | simulator/simulation/simulation.py:67-72 | the least queued time, 0 for an empty queue |
| PendingEvents.LoadTrace | simulator/simulation/simulation.py:221-231 | the queue holds exactly the failures of the trace, each with its link and rate, at the least time not taken by an earlier one at or after its own |
| PendingEvents.ScheduledOnTime | simulator/simulation/simulation.py:298-301 | what an event queues are repairs of the links it took down, each at the least time not used before, at or after two or four days from the event |
| PendingEvents.MatchedCardinality | simulator/simulation/simulation.py:254-321 | as many recoveries are pending as links are disabled |
| PendingEvents.MatchedSchedule | simulator/simulation/simulation.py:298-301 | scheduling the repair of a link just disabled keeps the bijection of disabled links and pending recoveries |
| PendingEvents.MatchedRepair | simulator/simulation/simulation.py:303-305 | handling a recovery keeps the bijection |
| PendingEvents.FailureDone | simulator/simulation/simulation.py:256-301 | a handled failure frees three units of the termination measure, and at most two are used whatever becomes of its link |
| PendingEvents.RecoveryDone | simulator/simulation/simulation.py:303-321 | a handled recovery frees one unit, and disabling corrupting links pays for their repairs |
| Transitions.FailureSettles | simulator/simulation/simulation.py:272-292 | a failure keeps the state maximal and the constraint, if the link stays and if it goes |
| Transitions.RepairSettles | simulator/simulation/simulation.py:303-321 | a repair followed by an optimal choice leaves a maximal state and keeps the constraint |
| Transitions.FaithfulMaximum | simulator/simulation/simulation.py:326-338 | the reported maximum of every sample of a run bounds all enabled rates, and is attained exactly if some enabled rate is at least the initial one |
| Transitions.HandledInOrder | simulator/simulation/simulation.py:365-368 | events are handled at strictly increasing times, and whatever is still pending lies later than all of them |
| Transitions.RunHandlesAll | simulator/simulation/simulation.py:365-381 | a run that ends with nothing pending has handled each event that was pending at first exactly once, and beyond them only repairs of links that one of its events took down, on time |
| Transitions.FirstHandled | simulator/simulation/simulation.py:365-368 | the first event handled is the earliest of those pending at first |
| Simulations.Solution.ProcessFailureEvent | simulator/simulation/simulation.py:291-292 | both solutions disable the link exactly if that is safe, the hybrid after activating LinkGuardian where the link supports it |
| Simulations.Simulation.constructor | simulator/simulation/simulation.py:221-246 | the queue holds exactly the loaded trace, and the invariant of the event loop holds |
| Simulations.Simulation.RecordFailure | simulator/simulation/simulation.py:272-289 | heap, rates, totals and corrupting set follow the failure; the effective rate follows unless LinkGuardian runs |
| Simulations.Simulation.HandleFailure | simulator/simulation/simulation.py:256-301 | a failure on a disabled link is skipped, counted and changes nothing, any other has exactly the specified effect and queues the requested repair at the requested time or the next one free, and the measure decreases |
| Simulations.Simulation.HandleRecovery | simulator/simulation/simulation.py:303-323 | the link is reset and enabled, an optimal choice goes down and exactly its repairs are queued at the requested times or the next ones free, and the measure decreases |
| Simulations.Simulation.Step | simulator/simulation/simulation.py:365-368 | the earliest event has its specified effect on state, pending events and used times, and the invariant holds again |
| Simulations.Simulation.Run | simulator/simulation/simulation.py:341-400 | the run ends with nothing pending and nothing disabled; every queued event was handled exactly once, beyond them only repairs on time; handled = queued + added = processed + skipped, and processed counts the handled events that were not skipped; each moment follows from the one before by the event handled in between; samples at increasing times, the first four days before the first event, describe maximal states, which keep the constraint if it held initially |
| Growth.AddSwitch | simulator/topology/topology.py:177-246 | a new switch with free ports keeps all indexes exact |
| Growth.AddLink | simulator/topology/topology.py:252-284 | a new link enters every index; all of them stay exact if and only if it is not a ToR link of an aggregation switch already wired to the core |
| Ports.PipeOfSlot | simulator/topology/topology.py:444-454 | where ports are placed in the order of the other ends, a link is on the pipe of its place modulo the number of pipes |
| Builders.PipesFor | simulator/topology/topology.py:199-216 | as many pipes as the ports need and no more |
| Builders.CoresPerPlane | simulator/topology/topology.py:1127 | the greatest number of core links per aggregation switch that carries its lower links at the oversubscription asked for |
| Builders.LinksCardinality | simulator/topology/topology.py:1127-1129 | the finished fabric has pods * (torsPerPod * planes + planes * coresPerPlane) links |
| Builders.PathsOfFinishedFabric | simulator/solutions/corropt.py:33-37 | every ToR of a finished fabric has exactly one path to every core switch, so any ToR gives the same initial count |
| Builders.FatTreeNumLinksRight | simulator/topology/topology.py:991-994 | the announced number of links is right exactly for even k, and by how much it is wrong for odd k |
| Builders.ThreePortFatTree | simulator/topology/topology.py:991-994 | for k = 3, 6 links are built and 13.5 announced |
| Builders.AllCores | simulator/topology/topology.py:1044-1048 | numbering core switches stride by stride reaches every core switch of every plane |
| Builders.BuildPods | simulator/topology/topology.py:1004-1035 | exactly the ToRs, aggregation switches and full meshes of the pods, LinkGuardian-capable where deployed, every link on its port |
| Builders.ConnectCores | simulator/topology/topology.py:1037-1063 | exactly the links from each core switch to the aggregation switch of its plane in every pod, every link on its port |
| Builders.PopulatePathCounts | simulator/topology/topology.py:838-851 | the cached path counts are right for all ToRs |
| Builders.InitialTotals | simulator/topology/topology.py:1072-1073 | the initial totals are right exactly if the announced number of links is |
| Builders.BuildFatTree | simulator/topology/topology.py:980-1077 | an untouched FatTree whose ToRs all have (k/2)^2 paths, every link on its port, and as many pipes as k ports need; it satisfies the whole invariant exactly if k is even |
| Builders.BuildFbFabric | simulator/topology/topology.py:1089-1244 | an untouched FB Fabric satisfying the whole invariant, with the number of core switches that the oversubscription asks for, every link on its port, the pipes of each kind of switch, and LinkGuardian-capable exactly where deployed |
| Experiments.FinishedMeets | simulator/solutions/corropt.py:32-39 | on a finished fabric the least number of paths that is at least a percentage of those of any ToR is kept by all ToRs exactly if the percentage is at most 100 |
| Experiments.RunTrace | simulator/simulation/simulation.py:206-246 | from the untouched fabric the trace, exactly as queued, is worked off: every failure handled once, beyond them only repairs on time, each moment explained by its event, all samples faithful, nothing pending or disabled at the end, the printed counts and dumped rows those of this course, and in every moment every ToR has at least the demanded percentage of its initial paths if that is at most 100 |
| Experiments.SimulateFatTree | simulator/simulation/simulation.py:206-246 | the same from scratch for every FatTree with even k and every trace on its links |
| Experiments.SimulateFbFabric | simulator/simulation/simulation.py:206-246 | the same from scratch for every FB Fabric and deployment, and every trace on its links |
| Experiments.LowRates | simulator/topology/topology.py:927-928 | in the FatTree with k = 2 all links fail in turn at a rate below the initial one and stay enabled; the reported maximum is the initial rate, above every link |
| SequenceNumbers.NextNumber | switch_impl/system_impl/sender/sender.p4:1024-1030 | the next number has the next 16-bit number, and another era exactly after 65535 |
| SequenceNumbers.Sender.Protect | switch_impl/system_impl/sender/sender.p4:676-713 | data packets carry the consecutive numbers 0, 1, 2, ... and their eras |
| SequenceNumbers.Sender.Dummy | switch_impl/system_impl/sender/sender.p4:738-760 | a dummy carries number and era of the next packet to be sent |
| HoleDetection.ReportsAscend | switch_impl/system_impl/receiver/receiver.p4:169-217 | over a FIFO link the reported ranges are disjoint, ascending and not empty |
| HoleDetection.ReportsSound | switch_impl/system_impl/receiver/receiver.p4:169-217 | only numbers whose original never arrived are reported |
| HoleDetection.ReportsComplete | switch_impl/system_impl/receiver/receiver.p4:169-217 | all of them are reported exactly if every burst is shorter than 65536 |
| HoleDetection.LongBurstUnreported | switch_impl/system_impl/receiver/receiver.p4:677-678 | a burst of 65536 losses is not reported at all |
| HoleDetection.HoleDetector.Receive | switch_impl/system_impl/receiver/receiver.p4:668-716 | a pass reports exactly the hole it opens; leading acknowledgement and era name the number before the expected one, for data and dummies, across wrap-around |
| BlockingMode.EraInStep | switch_impl/system_impl/receiver/receiver.p4:375-396 | the era register is right exactly after an even number of missed toggles |
| BlockingMode.DecisionExact | switch_impl/system_impl/receiver/receiver.p4:396-440 | by the distance in half blocks and the offsets, for which numbers equality, era correction and minimum decide as the comparison of unbounded numbers, in step and out of step |
| BlockingMode.NearDistinguishable | switch_impl/system_impl/receiver/receiver.p4:375-440 | within the window all decisions are right in step, and out of step exactly those in the half block of the acknowledgement |
| BlockingMode.WindowTight | switch_impl/system_impl/receiver/receiver.p4:406-440 | all decisions within a window are right exactly if the window is at most 32768 |
| BlockingMode.MissedToggleMisleads | switch_impl/system_impl/receiver/receiver.p4:349-352 | after a timeout at 65535 a duplicate is held and a needed packet is dropped |
| BlockingMode.StaleFate | switch_impl/system_impl/receiver/receiver.p4:769-806 | out of step a number already past is dropped in its own half block, then held until the acknowledgement next has its 16 bits, and then released |
| BlockingMode.NextInOrder | switch_impl/system_impl/receiver/receiver.p4:629-807 | every admissible step of the protocol keeps: released numbers strictly increase, each number below the acknowledgement was released once or skipped once, drops are of numbers already past |
| BlockingMode.EveryRun | switch_impl/system_impl/receiver/receiver.p4:629-807 | the same for every interleaving of originals, dummies, retransmissions, recirculated packets and timer passes |
| BlockingMode.StepFollows | switch_impl/system_impl/receiver/receiver.p4:629-807 | in step and within the window one pass of the registers is one step of the protocol |
| BlockingMode.RunFollows | switch_impl/system_impl/receiver/receiver.p4:629-807 | over every run within the window and without a timeout at 65535 the registers follow the protocol |
| BlockingMode.StepKeepsOrder | switch_impl/system_impl/receiver/receiver.p4:769-806 | in step or not, a pass keeps release in order and exactly once exactly if no recirculated packet has the 16 bits of the acknowledgement of another number |
| BlockingMode.OrderOutOfStep | switch_impl/system_impl/receiver/receiver.p4:629-807 | the same over whole runs with missed toggles, at every point of the run |
| BlockingMode.RunConserves | switch_impl/system_impl/receiver/receiver.p4:769-806 | what has entered is what was released, is held or was dropped, in step or not |
| BlockingMode.StaleRelease | switch_impl/system_impl/receiver/receiver.p4:349-352 | the run from power-on in which the timeout at 65535 leads to the release of 65535 in the place of 131071 |
| BlockingMode.GivenUpInTime | switch_impl/system_impl/receiver/receiver.p4:337-364 | whatever passes in between, while the acknowledgement stays, every timer pass that finds a number outstanding counts down, so at most as many go by as the wait, before one more gives the number up |
| BlockingMode.RegisterAdvance | switch_impl/system_impl/receiver/receiver.p4:326-352 | the acknowledgement registers step to the next number; the era register keeps up if it toggles after 65535 and falls out of step if it does not |
| BlockingMode.BlockingReceiver.BlockingPass | switch_impl/system_impl/receiver/receiver.p4:769-806 | the decision of the registers on the packet, and release, hold or drop accordingly, for every number |
| BlockingMode.BlockingReceiver.ReceiveOriginal | switch_impl/system_impl/receiver/receiver.p4:668-807 | hole detection and blocking mode of an original are one step of the machine |
| BlockingMode.BlockingReceiver.ReceiveDummy | switch_impl/system_impl/receiver/receiver.p4:668-716 | a dummy moves the expected number and nothing else |
| BlockingMode.BlockingReceiver.ReceiveRetransmission | switch_impl/system_impl/receiver/receiver.p4:717-807 | a retransmission is one step of the machine, however far it is from the acknowledgement |
| BlockingMode.BlockingReceiver.ReceiveRecirculated | switch_impl/system_impl/receiver/receiver.p4:759-807 | a held packet that comes back is one step of the machine, however far it is from the acknowledgement |
| BlockingMode.BlockingReceiver.TimerPass | switch_impl/system_impl/receiver/receiver.p4:631-656 | the countdown, the give-up and the toggle missed exactly at 65535 are one step of the machine |
| BlockingMode.Play | switch_impl/system_impl/receiver/receiver.p4:629-807 | over a whole run the registers are those of the machine, and follow the protocol if the run is admissible without a timeout at 65535 |
| FlowControl.ShouldPauseStep | switch_impl/system_impl/receiver/receiver.p4:1113-1143 | the state asked for is decided by the last queue depth outside the hysteresis band |
| FlowControl.PfcEgress.BufferedPass | switch_impl/system_impl/receiver/receiver.p4:1416-1448 | the state follows the queue depths; a change schedules the matching request, and requests alternate starting with a pause |
| FlowControl.PfcEgress.TimerPass | switch_impl/system_impl/receiver/receiver.p4:1450-1485 | the pending request is sent once as pause or resume frame, and nothing stays pending |
| FlowControl.PfcEgress.Converged | switch_impl/system_impl/receiver/receiver.p4:1145-1220 | a pending request matches the state; with none pending the last frame sent does |
| FlowControl.FramesAlternate | switch_impl/system_impl/receiver/receiver.p4:1192-1220 | two frames in a row differ exactly if an odd number of requests was scheduled between them |
| FlowControl.RepeatedPause | switch_impl/system_impl/receiver/receiver.p4:1416-1485 | a run in which two pause frames are sent in a row |

## Left out

- Floating point: rates, capacities and the percentage are real numbers; rounding in sums, comparisons and the ceiling is not modelled.
- networkx and heapq: the graph is a set of links, simple paths are produced directly, a heap is a multiset with an arbitrary least or greatest element.
- Ids: generated switch and link ids, and the limits on their number, are replaced by structural names.
- Logging, progress bars, summaries, configuration parsing, plotting and the text format of the data file.
- The LeafSpine topology, a stub in the code, and the DoNothing, DisableAndRepair and plain LinkGuardian solutions as drivers of the event loop.
- Randomness: the repair delay is a free choice, the pods of a partial deployment are a parameter, traces are arbitrary; the trace generator is not modelled.
- Traces in the model name links of the fabric and have positive rates; a rate that the LinkGuardian hybrid looks up (on a link that supports it) is within reach of the performance table, where the code would raise a key error otherwise.
- Runs on a FatTree with odd k: the loss totals are wrong from the start there, which is stated, and the run theorems are for even k.
- The order in which core switches are added and wired in FB Fabric is the flattened order of the code's nested loops.
- Sender-side retransmission, buffering and the dummy notification counter; that retransmissions carry numbers already passed is an assumption about the environment.
- The 8-bit hole size on the wire, egress leading-acknowledgement registers, mirroring, loss notification packets as packets, ECN marking, debug and measurement code, and L2 forwarding of the receiver.
- The configurable port index of the timer (fixed to 36 in the code) is taken to be the port of the packets.
- Thresholds of the flow control registers are fixed during a run.
- Hardware setup and polling scripts, `corruptd`, `topo.p4` and the analysis scripts.
