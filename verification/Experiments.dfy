/** Whole experiments: build a fabric, choose a solution, run a failure trace to the end. */
module Experiments {
  import opened Collections
  import opened Fabrics
  import opened Indexes
  import opened Topologies
  import opened SubsetSearch
  import opened Events
  import opened CorrOpt
  import opened LinkGuardian
  import opened EventQueues
  import opened Metrics
  import opened PendingEvents
  import opened Transitions
  import opened Simulations
  import opened Builders

  lemma TimesOrder(x: real, y: real, n: real, xn: real, yn: real)
    requires n > 0.0 && xn == x * n && yn == y * n
    ensures x <= y <==> xn <= yn
  {
    var difference := y - x;
    assert yn - xn == difference * n;
    assert difference >= 0.0 <==> difference * n >= 0.0;
  }

  /** A percentage of the initial paths can be kept exactly when it is at most 100. */
  lemma DemandReachable(min: int, paths: nat, percent: real)
    requires paths > 0 && Demands(min, paths, percent)
    ensures min <= paths <==> percent <= 100.0
  {
    var demanded := percent * paths as real;
    TimesOrder(percent, 100.0, paths as real, demanded, 100.0 * paths as real);
    assert min <= paths <==> demanded <= 100.0 * paths as real;
  }

  /** On a finished fabric every ToR starts with the same number of paths, so the constraint derived from any one
      of them holds for all exactly when it asks for at most 100 percent. */
  lemma FinishedMeets(topo: Topology, pods: nat, torsPerPod: nat, planes: nat, coresPerPlane: nat, capacity: real,
                      percent: real, t: Tor, min: int)
    requires Finished(topo, pods, torsPerPod, planes, coresPerPlane, capacity) && planes * coresPerPlane > 0
    requires t in topo.fabric.tors && Demands(min, PathCount(topo.Up(), t), percent)
    ensures PathCount(topo.Up(), t) == planes * coresPerPlane
    ensures Meets(topo.fabric.tors, topo.Up(), min) <==> percent <= 100.0
  {
    hide Topology.Indexed, Demands, PathCount;
    assert topo.Up() == topo.fabric.links;
    assert PathCount(topo.Up(), t) == topo.numPathsToCore[t];
    DemandReachable(min, planes * coresPerPlane, percent);
  }

  // ---------- the state at the start ----------

  /** Every link is enabled and clean, and LinkGuardian runs nowhere. */
  ghost predicate Fresh(s: State) {
    && s.down == s.corrupting == s.lgEnabled == {} && s.fabric.capacity.Keys == s.fabric.links
    && s.rate == s.effectiveRate == (map l | l in s.fabric.links :: INITIAL_LINK_LOSS_RATE)
    && s.effectiveCapacity == s.fabric.capacity
  }

  lemma FinishedFresh(topo: Topology, pods: nat, torsPerPod: nat, planes: nat, coresPerPlane: nat, capacity: real)
    requires Finished(topo, pods, torsPerPod, planes, coresPerPlane, capacity)
    requires pods * torsPerPod > 0 && planes * coresPerPlane > 0
    ensures topo.disabledLinks == {} && topo.corruptingLinks == {} && Fresh(topo.CurrentState())
    ensures topo.fabric.tors != {} && topo.fabric.links != {}
  {
    hide Fabric.WellFormed, AggLists, UplinkCounts, TopRates, PodIndex, LgCounts, TopCounts, PathCount, Aggs, Cores,
      Spine;
    assert Tor(0, 0) in Tors(pods, torsPerPod);
    assert TorAgg(Tor(0, 0), Agg(0, 0)) in Mesh(Tors(pods, torsPerPod), planes);
  }

  // ---------- the solution ----------

  /** The performance table of the hybrid; CorrOpt alone has none. */
  function TableFor(entries: Option<seq<PerfEntry>>): Option<PerfTable> {
    match entries
    case None => None
    case Some(perf) => Some(TableOf(perf))
  }

  /** CorrOpt alone, or LinkGuardian with CorrOpt when LinkGuardian's performance data is given. */
  method ChooseSolution(topo: Topology, percent: real, entries: Option<seq<PerfEntry>>) returns (solution: Solution)
    requires topo.Valid() && topo.fabric.tors != {}
    ensures solution.Wired() && solution.Topo() == topo && fresh(solution.Objects() - {topo})
    ensures solution.Table() == TableFor(entries)
    ensures exists t ::
              t in topo.fabric.tors && Demands(solution.Checker().minActivePaths, PathCount(topo.Up(), t), percent)
  {
    hide Topology.Valid, PathCount, Demands, PerfTable.WellFormed, TableOf;
    var tors := SetToList(topo.fabric.tors);
    var corropt := new CorrOptSolution(topo, percent, tors);
    assert tors[0] in topo.fabric.tors;
    match entries {
      case None =>
        solution := CorrOptOnly(corropt);
      case Some(perf) =>
        var linkguardian := new LinkGuardianSolution(topo, perf);
        var hybrid := new LgCorrOptSolution(linkguardian, corropt);
        solution := LgCorrOpt(hybrid);
    }
  }

  // ---------- the run ----------

  /** What an experiment prints and dumps. */
  datatype Report = Report(processed: nat, skipped: nat, added: nat, rows: seq<Row>)

  /** What happened: the least number of paths demanded, the trace as it was queued, the moment behind every sample,
      and the event before each. */
  datatype Course = Course(minPaths: int, loaded: seq<LinkEvent>, samples: seq<Row>, history: seq<Moment>,
                           handled: seq<LinkEvent>)

  /** The course starts at an untouched fabric with the loaded trace pending, and ends with nothing pending and every
      link enabled. */
  ghost predicate Complete(f: Fabric, trace: seq<LinkEvent>, c: Course) {
    && |c.history| == |c.handled| + 1 && Enqueued({}, trace, c.loaded)
    && c.history[0].state.fabric == f && Fresh(c.history[0].state)
    && (forall e :: e in c.history[0].pending <==> e in c.loaded) && c.history[0].used == Times(c.loaded)
    && c.history[|c.handled|].pending == {} && c.history[|c.handled|].state.down == {}
  }

  /** The report is what the course amounts to; the file starts four days early and ends four days late. */
  ghost predicate Reports(r: Report, trace: seq<LinkEvent>, c: Course) {
    && |c.samples| == |c.history| == |c.handled| + 1 && r.processed == ProcessedCount(c.history, c.handled)
    && |c.handled| == r.processed + r.skipped == |trace| + r.added
    && r.rows == StepRows(c.samples) + [(c.samples[|c.handled|].0 + 4 * DAY, c.samples[|c.handled|].1)]
    && if c.handled == [] then c.samples[0].0 == -4 * DAY
       else !c.handled[0].Nop? && c.samples[0].0 == c.handled[0].time - 4 * DAY
  }

  /** In every moment every ToR has at least `percent` of `paths` enabled paths, if that can be met at all. */
  ghost predicate Kept(tors: set<Tor>, paths: int, percent: real, history: seq<Moment>) {
    percent <= 100.0 ==>
      forall i, t :: 0 <= i < |history| && t in tors ==>
        100.0 * PathCount(history[i].state.Up(), t) as real >= percent * paths as real
  }

  lemma MeetsKept(table: Option<PerfTable>, min: int, f: Fabric, paths: int, percent: real, samples: seq<Row>,
                  history: seq<Moment>, handled: seq<LinkEvent>)
    requires Explained(table, min, samples, history, handled) && history[0].state.fabric == f
    requires Demands(min, paths, percent)
    requires percent <= 100.0 ==> forall i :: 0 <= i < |history| ==> MeetsConstraint(min, history[i].state)
    ensures Kept(f.tors, paths, percent, history)
  {
    hide Turn, PathCount;
    if percent <= 100.0 {
      forall i, t | 0 <= i < |history| && t in f.tors
        ensures 100.0 * PathCount(history[i].state.Up(), t) as real >= percent * paths as real
      {
        SameFabric(table, min, samples, history, handled, i);
        assert MeetsConstraint(min, history[i].state);
        assert PathCount(history[i].state.Up(), t) >= min;
      }
    }
  }

  /** A whole experiment on fabric `f` whose ToRs have `paths` paths each: the trace is worked off event by event, each
      with its effect, the samples report the states in between, and all of these keep the demanded percentage. */
  ghost predicate Experiment(f: Fabric, table: Option<PerfTable>, paths: int, percent: real, trace: seq<LinkEvent>,
                             r: Report, c: Course)
  {
    && Demands(c.minPaths, paths, percent)
    && Complete(f, trace, c) && HandlesAll(c.history, c.handled)
    && Explained(table, c.minPaths, c.samples, c.history, c.handled) && Faithful(c.minPaths, c.samples, c.history)
    && Reports(r, trace, c) && Kept(f.tors, paths, percent, c.history)
  }

  /** Runs a trace on a finished fabric. */
  method RunTrace(topo: Topology, pods: nat, torsPerPod: nat, planes: nat, coresPerPlane: nat, capacity: real,
                  percent: real, entries: Option<seq<PerfEntry>>, trace: seq<LinkEvent>)
    returns (report: Report, ghost course: Course)
    requires topo.Valid() && Finished(topo, pods, torsPerPod, planes, coresPerPlane, capacity)
    requires pods * torsPerPod > 0 && planes * coresPerPlane > 0
    requires forall i :: 0 <= i < |trace| ==>
               IsTraceEvent(topo.fabric.links, topo.fabric.lgCapable, TableFor(entries), trace[i])
    modifies topo
    ensures topo.Valid() && topo.fabric == old(topo.fabric) && topo.disabledLinks == {}
    ensures Experiment(topo.fabric, TableFor(entries), planes * coresPerPlane, percent, trace, report, course)
  {
    hide Topology.Valid, Finished, Faithful, Meets, Maximal, PositiveRates, Matched, EventQueue.Valid, PathCount, Fresh,
      Demands, StepRows, Explained, Enqueued, Times, HandlesAll, TableFor, IsTraceEvent, ProcessedCount, NoDup;
    FinishedFresh(topo, pods, torsPerPod, planes, coresPerPlane, capacity);
    var solution := ChooseSolution(topo, percent, entries);
    ghost var min := solution.Checker().minActivePaths;
    ghost var t :| t in topo.fabric.tors && Demands(min, PathCount(topo.Up(), t), percent);
    FinishedMeets(topo, pods, torsPerPod, planes, coresPerPlane, capacity, percent, t, min);
    var simulation := new Simulation(topo, solution, trace);
    var dumper := new DataDumper();
    var processed;
    ghost var history, handled;
    processed, history, handled := simulation.Run(dumper);
    report := Report(processed, simulation.skippedLossEvents, simulation.addedRecoveryEvents, dumper.rows);
    course := Course(min, simulation.loaded, dumper.samples, history, handled);
    ExplainedLengths(TableFor(entries), min, dumper.samples, history, handled);
    MeetsKept(TableFor(entries), min, topo.fabric, planes * coresPerPlane, percent, dumper.samples, history, handled);
  }

  /** A FatTree with an even number of ports per switch. */
  method SimulateFatTree(k: nat, capacity: real, percent: real, entries: Option<seq<PerfEntry>>, trace: seq<LinkEvent>)
    returns (topo: Topology, report: Report, ghost course: Course)
    requires k >= 2 && k % 2 == 0
    requires var links := FabricLinks(k, k / 2, k / 2, k / 2);
             forall i :: 0 <= i < |trace| ==> IsTraceEvent(links, links, TableFor(entries), trace[i])
    ensures fresh(topo) && topo.Valid() && topo.disabledLinks == {}
    ensures topo.fabric.links == topo.fabric.lgCapable == FabricLinks(k, k / 2, k / 2, k / 2)
    ensures Experiment(topo.fabric, TableFor(entries), (k / 2) * (k / 2), percent, trace, report, course)
  {
    hide Topology.Valid, Topology.Indexed, Experiment, FabricLinks, IsTraceEvent, TableFor;
    topo := BuildFatTree(k, capacity);
    assert k * (k / 2) > 0 && (k / 2) * (k / 2) > 0;
    report, course := RunTrace(topo, k, k / 2, k / 2, k / 2, capacity, percent, entries, trace);
  }

  /** The links of an FB Fabric that support LinkGuardian. */
  function FbLgCapable(links: set<Link>, partialDeployment: bool, lgPods: set<nat>): set<Link> {
    if partialDeployment then set l | l in links && l.TorAgg? && l.agg.pod in lgPods else links
  }

  /** The same for FB Fabric. */
  method SimulateFbFabric(numPods: nat, torsPerPod: nat, oversubscription: real, capacity: real,
                          partialDeployment: bool, lgPods: set<nat>, percent: real, entries: Option<seq<PerfEntry>>,
                          trace: seq<LinkEvent>)
    returns (topo: Topology, report: Report, ghost course: Course)
    requires numPods > 0 && torsPerPod > 0 && oversubscription > 0.0 && CoresPerPlane(torsPerPod, oversubscription) > 0
    requires var links := FabricLinks(numPods, torsPerPod, FB_PLANES, CoresPerPlane(torsPerPod, oversubscription));
             forall i :: 0 <= i < |trace| ==>
               IsTraceEvent(links, FbLgCapable(links, partialDeployment, lgPods), TableFor(entries), trace[i])
    ensures fresh(topo) && topo.Valid() && topo.disabledLinks == {}
    ensures topo.fabric.links ==
              FabricLinks(numPods, torsPerPod, FB_PLANES, CoresPerPlane(torsPerPod, oversubscription))
    ensures topo.fabric.lgCapable == FbLgCapable(topo.fabric.links, partialDeployment, lgPods)
    ensures Experiment(topo.fabric, TableFor(entries), FB_PLANES * CoresPerPlane(torsPerPod, oversubscription), percent,
                       trace, report, course)
  {
    hide Topology.Valid, Topology.Indexed, Experiment, FabricLinks, IsTraceEvent, TableFor, CoresPerPlane;
    topo := BuildFbFabric(numPods, torsPerPod, oversubscription, capacity, partialDeployment, lgPods);
    var coresPerPlane: nat := CoresPerPlane(torsPerPod, oversubscription);
    assert numPods * torsPerPod > 0;
    report, course := RunTrace(topo, numPods, torsPerPod, FB_PLANES, coresPerPlane, capacity, percent, entries, trace);
  }

  // ---------- a reported maximum that no link has ----------

  /** The links of the smallest FatTree: two pods of one ToR and one aggregation switch, and one core switch. */
  function SmallestFatTree(): set<Link> {
    FabricLinks(2, 1, 1, 1)
  }

  function LowerLink(pod: nat): Link {
    TorAgg(Tor(pod, 0), Agg(pod, 0))
  }

  function UpperLink(pod: nat): Link {
    AggCore(Agg(pod, 0), Core(0, 0))
  }

  lemma SmallestLinks()
    ensures SmallestFatTree() == {LowerLink(0), LowerLink(1), UpperLink(0), UpperLink(1)}
  {
    assert Tor(0, 0) in Tors(2, 1) && Tor(1, 0) in Tors(2, 1) && Core(0, 0) in Cores(1, 1);
  }

  /** Every link is on the only path of a ToR. */
  lemma OnlyPath(l: Link)
    requires l in SmallestFatTree()
    ensures !Safe(SmallestFatTree(), SmallestFatTree(), 1, {l})
  {
    SmallestLinks();
    hide FabricLinks;
    var links, t := SmallestFatTree(), Tor(l.agg.pod, 0);
    assert t in AffectedTors(links, l) && t in AffectedByAny(links, {l});
    assert PathLinks(links - {l}, t) == {};
  }

  lemma StaysEnabled(s: State, l: Link, r: real)
    requires s.fabric.links == s.Up() == SmallestFatTree() && l in s.Up()
    ensures FailureEffect(None, 1, s, Recorded(s, l, r), l, r)
  {
    hide Safe, SmallestFatTree;
    OnlyPath(l);
    assert FailureVia(None, 1, s, Recorded(s, l, r), Recorded(s, l, r), l, r);
  }

  /** All four links fail in turn at a rate below the initial one. All stay enabled, and the reported maximum is the
      initial rate, above the rate of every link. */
  lemma LowRates(s0: State, r: real)
    requires Fresh(s0) && s0.fabric.links == SmallestFatTree() && 0.0 < r < INITIAL_LINK_LOSS_RATE
    ensures var s1 := Recorded(s0, LowerLink(0), r);
            var s2 := Recorded(s1, LowerLink(1), r);
            var s3 := Recorded(s2, UpperLink(0), r);
            var s4 := Recorded(s3, UpperLink(1), r);
            && FailureEffect(None, 1, s0, s1, LowerLink(0), r) && FailureEffect(None, 1, s1, s2, LowerLink(1), r)
            && FailureEffect(None, 1, s2, s3, UpperLink(0), r) && FailureEffect(None, 1, s3, s4, UpperLink(1), r)
            && s4.Up() == s4.corrupting == SmallestFatTree()
            && forall m :: Describes(m, s4) ==>
                 m.maxLinkLossRate == INITIAL_LINK_LOSS_RATE &&
                 forall l :: l in s4.Up() ==> s4.rate[l] == r < m.maxLinkLossRate
  {
    hide FailureEffect, FabricLinks, Average, AverageCapacity, LeastPaths, LeastCapacity, GreatestPorts;
    SmallestLinks();
    var s1 := Recorded(s0, LowerLink(0), r);
    var s2 := Recorded(s1, LowerLink(1), r);
    var s3 := Recorded(s2, UpperLink(0), r);
    StaysEnabled(s0, LowerLink(0), r);
    StaysEnabled(s1, LowerLink(1), r);
    StaysEnabled(s2, UpperLink(0), r);
    StaysEnabled(s3, UpperLink(1), r);
  }
}
