/** The topology-wide metrics that are dumped after every event, and the file they are dumped to. */
module Metrics {
  import opened Collections
  import opened Fabrics
  import opened Indexes
  import opened Topologies

  datatype Metrics = Metrics(
    totalPenalty: real,
    totalEffectivePenalty: real,
    avgPerTorPaths: real,
    minPerTorPaths: int,
    avgPerPodCapacity: real,
    minPerPodCapacity: real,
    maxLinkLossRate: real,
    currDisabledLinks: nat,
    currCorruptingLinks: nat,
    maxLgPortsPerPipe: int)

  // ---------- what a scan of the state reports ----------

  ghost predicate LeastPaths(n: int, tors: set<Tor>, up: set<Link>) {
    (exists t :: t in tors && n == PathCount(up, t)) && forall t :: t in tors ==> n <= PathCount(up, t)
  }

  function PathCounts(tors: set<Tor>, up: set<Link>): map<Tor, real> {
    map t | t in tors :: PathCount(up, t) as real
  }

  /** `avg` is the mean of the values of `m`. */
  ghost predicate Average<T>(avg: real, m: map<T, real>) {
    m != map[] && avg * |m.Keys| as real == Sum(m.Keys, m)
  }

  /** The effective capacity of the enabled links of one pod and type. */
  ghost function CapacityOf(s: State, key: PodKey): real
    requires s.Up() <= s.effectiveCapacity.Keys
  {
    Sum(PodLinks(s.Up(), key), s.effectiveCapacity)
  }

  ghost predicate LeastCapacity(c: real, s: State) {
    && s.Up() <= s.effectiveCapacity.Keys
    && (exists key :: key in s.podKeys && c == CapacityOf(s, key))
    && forall key :: key in s.podKeys ==> c <= CapacityOf(s, key)
  }

  function Pods(keys: set<PodKey>): set<nat> {
    set key | key in keys :: key.0
  }

  /** `low` holds for every pod the least of its capacities. */
  ghost predicate LeastPerPod(low: map<nat, real>, s: State)
    requires s.Up() <= s.effectiveCapacity.Keys
  {
    && low.Keys == Pods(s.podKeys)
    && (forall p :: p in low ==> exists key :: key in s.podKeys && key.0 == p && low[p] == CapacityOf(s, key))
    && forall key :: key in s.podKeys ==> low[key.0] <= CapacityOf(s, key)
  }

  /** `avg` is the mean over all pods of the least capacity of the pod. */
  ghost predicate AverageCapacity(avg: real, s: State) {
    s.Up() <= s.effectiveCapacity.Keys && exists low: map<nat, real> :: LeastPerPod(low, s) && Average(avg, low)
  }

  /** The greatest of the initial rate and the rates of all enabled links. */
  ghost predicate GreatestRate(r: real, up: set<Link>, rate: map<Link, real>) {
    && up <= rate.Keys
    && (r == INITIAL_LINK_LOSS_RATE || exists l :: l in up && rate[l] == r)
    && r >= INITIAL_LINK_LOSS_RATE && forall l :: l in up ==> rate[l] <= r
  }

  /** The greatest number of LinkGuardian ports on any pipe, 0 if there are none. */
  ghost predicate GreatestPorts(n: int, f: Fabric, lg: set<Link>) {
    && (forall p :: p in LgPorts(lg) ==> f.Wired(p.0, p.1))
    && (n == 0 || exists s, i :: s in f.pipes && i < f.pipes[s] && n == |PortsOnPipe(f, LgPorts(lg), (s, i))|)
    && n >= 0 && forall s, i :: s in f.pipes && i < f.pipes[s] ==> |PortsOnPipe(f, LgPorts(lg), (s, i))| <= n
  }

  /** `m` is what a scan of the whole state would report. */
  ghost predicate Describes(m: Metrics, s: State) {
    && s.Up() <= s.rate.Keys && s.Up() <= s.effectiveRate.Keys
    && m.totalPenalty == Sum(s.Up(), s.rate) && m.totalEffectivePenalty == Sum(s.Up(), s.effectiveRate)
    && Average(m.avgPerTorPaths, PathCounts(s.fabric.tors, s.Up()))
    && LeastPaths(m.minPerTorPaths, s.fabric.tors, s.Up())
    && AverageCapacity(m.avgPerPodCapacity, s) && LeastCapacity(m.minPerPodCapacity, s)
    && GreatestRate(m.maxLinkLossRate, s.Up(), s.rate)
    && m.currDisabledLinks == |s.down| && m.currCorruptingLinks == |s.corrupting|
    && GreatestPorts(m.maxLgPortsPerPipe, s.fabric, s.lgEnabled)
  }

  /** The reported maximum bounds the rates of all enabled links; it is the rate of one of them exactly if some enabled
      link has at least the initial rate. */
  lemma GreatestRateIsScan(m: Metrics, s: State)
    requires Describes(m, s)
    ensures forall l :: l in s.Up() ==> s.rate[l] <= m.maxLinkLossRate
    ensures (exists l :: l in s.Up() && s.rate[l] == m.maxLinkLossRate) <==>
              exists l :: l in s.Up() && s.rate[l] >= INITIAL_LINK_LOSS_RATE
  {
    hide Average, AverageCapacity, LeastPaths, LeastCapacity, GreatestPorts;
    var r := m.maxLinkLossRate;
    if l :| l in s.Up() && s.rate[l] >= INITIAL_LINK_LOSS_RATE {
      assert r == INITIAL_LINK_LOSS_RATE ==> s.rate[l] == r;
    }
  }

  // ---------- the getters ----------

  /** The extreme element of a nonempty set under a total preorder: Python's min, and heapq.nlargest(1). */
  method Extreme<T(==,!new)>(values: set<T>, better: (T, T) -> bool) returns (v: T)
    requires values != {}
    requires forall x, y :: better(x, y) || better(y, x)
    requires forall x, y, z :: better(x, y) && better(y, z) ==> better(x, z)
    ensures v in values && forall w :: w in values ==> better(v, w)
  {
    v :| v in values;
    var todo := values;
    while todo != {}
      invariant todo <= values && v in values
      invariant forall w :: w in values && w !in todo ==> better(v, w)
    {
      var w :| w in todo;
      if !better(v, w) {
        v := w;
      }
      todo := todo - {w};
    }
  }

  lemma NumPathsReport(f: Fabric, up: set<Link>, numPaths: map<Tor, int>, n: int)
    requires PathCache(f, up, numPaths, f.tors)
    requires n in numPaths.Values && forall m :: m in numPaths.Values ==> n <= m
    ensures LeastPaths(n, f.tors, up)
  {
    forall t | t in f.tors ensures n <= PathCount(up, t) { assert numPaths[t] in numPaths.Values; }
    var t :| t in numPaths && numPaths[t] == n;
    assert PathCount(up, t) == n;
  }

  lemma NumPathsKnown(f: Fabric, up: set<Link>, numPaths: map<Tor, int>)
    requires PathCache(f, up, numPaths, f.tors) && f.tors != {}
    ensures numPaths.Values != {}
  {
    var t :| t in f.tors;
    assert numPaths[t] in numPaths.Values;
  }

  method GetMinNumPaths(topo: Topology) returns (n: int)
    requires topo.Valid() && topo.fabric.tors != {}
    ensures LeastPaths(n, topo.fabric.tors, topo.Up())
  {
    hide LeastPaths, LeastCapacity, GreatestRate, GreatestPorts, Fabric.WellFormed, Attributes, AggLists, UplinkCounts,
      TopRates, PodIndex, LgCounts, TopCounts, PathCache, LossTotals;
    NumPathsKnown(topo.fabric, topo.Up(), topo.numPathsToCore);
    n := Extreme(topo.numPathsToCore.Values, (x: int, y: int) => x <= y);
    NumPathsReport(topo.fabric, topo.Up(), topo.numPathsToCore, n);
  }

  lemma PodCapacityReport(s: State, pods: map<PodKey, real>, c: real)
    requires PodIndex(s.fabric, s.Up(), s.effectiveCapacity, pods) && s.podKeys == pods.Keys
    requires c in pods.Values && forall d :: d in pods.Values ==> c <= d
    ensures LeastCapacity(c, s)
  {
    forall key | key in s.podKeys ensures c <= CapacityOf(s, key) { assert pods[key] in pods.Values; }
    var key :| key in pods && pods[key] == c;
    assert CapacityOf(s, key) == c;
  }

  method GetMinPodCapacity(topo: Topology) returns (c: real)
    requires topo.Valid() && topo.perPodCapacity != map[]
    ensures LeastCapacity(c, topo.CurrentState())
  {
    hide LeastPaths, LeastCapacity, GreatestRate, GreatestPorts, Fabric.WellFormed, Attributes, AggLists, UplinkCounts,
      TopRates, PodIndex, LgCounts, TopCounts, PathCache, LossTotals;
    var key :| key in topo.perPodCapacity;
    assert topo.perPodCapacity[key] in topo.perPodCapacity.Values;
    c := Extreme(topo.perPodCapacity.Values, (x: real, y: real) => x <= y);
    PodCapacityReport(topo.CurrentState(), topo.perPodCapacity, c);
  }

  lemma QuotientTimes(sum: real, n: real)
    requires n != 0.0
    ensures sum / n * n == sum
  {
  }

  /** sum(d.values()) / len(d). */
  method AverageOf<T(==)>(m: map<T, real>) returns (avg: real)
    requires m != map[]
    ensures Average(avg, m)
  {
    var sum := 0.0;
    var todo := m.Keys;
    while todo != {}
      invariant todo <= m.Keys && sum + Sum(todo, m) == Sum(m.Keys, m)
    {
      var x :| x in todo;
      SumRemove(todo, x, m);
      sum := sum + m[x];
      todo := todo - {x};
    }
    assert |m.Keys| > 0;
    QuotientTimes(sum, |m.Keys| as real);
    avg := sum / |m.Keys| as real;
  }

  method GetAvgNumPaths(topo: Topology) returns (avg: real)
    requires topo.Valid() && topo.fabric.tors != {}
    ensures Average(avg, PathCounts(topo.fabric.tors, topo.Up()))
  {
    hide Topology.Valid, PathCount;
    topo.CachedCounts();
    var paths := map t | t in topo.numPathsToCore :: topo.numPathsToCore[t] as real;
    assert paths == PathCounts(topo.fabric.tors, topo.Up());
    var t :| t in topo.fabric.tors;
    assert t in paths;
    avg := AverageOf(paths);
  }

  lemma PodsExact(topo: Topology)
    requires topo.Valid()
    ensures var s := topo.CurrentState();
            && s.Up() <= s.effectiveCapacity.Keys
            && topo.perPodCapacity == map key | key in s.podKeys :: CapacityOf(s, key)
  {
  }

  /** The smaller of a pod's two capacities, or the one it has. */
  function PodMinimum(pods: map<PodKey, real>, p: nat): real
    requires p in Pods(pods.Keys)
  {
    var lower, upper := (p, TorToAgg), (p, AggToCore);
    assert lower in pods || upper in pods by {
      var key :| key in pods && key.0 == p;
      assert key == (p, key.1) && (key.1 == TorToAgg || key.1 == AggToCore);
    }
    if lower in pods && (upper in pods ==> pods[lower] <= pods[upper]) then pods[lower] else pods[upper]
  }

  function PodMinima(pods: map<PodKey, real>): map<nat, real> {
    map p | p in Pods(pods.Keys) :: PodMinimum(pods, p)
  }

  lemma KeysOfPod(key: PodKey)
    ensures key == (key.0, TorToAgg) || key == (key.0, AggToCore)
  {
    assert key == (key.0, key.1);
    assert key.1 == TorToAgg || key.1 == AggToCore;
  }

  lemma PodMinimumLeast(pods: map<PodKey, real>, p: nat)
    requires p in Pods(pods.Keys)
    ensures exists key :: key in pods && key.0 == p && PodMinimum(pods, p) == pods[key]
    ensures forall key :: key in pods && key.0 == p ==> PodMinimum(pods, p) <= pods[key]
  {
    var lower, upper := (p, TorToAgg), (p, AggToCore);
    forall key | key in pods && key.0 == p
      ensures key == lower || key == upper
    {
      KeysOfPod(key);
    }
    var key := if lower in pods && PodMinimum(pods, p) == pods[lower] then lower else upper;
    assert key in pods && PodMinimum(pods, p) == pods[key];
  }

  lemma PodMinimaLeast(s: State, pods: map<PodKey, real>)
    requires s.Up() <= s.effectiveCapacity.Keys && pods == map key | key in s.podKeys :: CapacityOf(s, key)
    ensures LeastPerPod(PodMinima(pods), s)
  {
    hide CapacityOf, PodMinimum;
    var low := PodMinima(pods);
    assert pods.Keys == s.podKeys;
    forall p | p in low
      ensures exists key :: key in s.podKeys && key.0 == p && low[p] == CapacityOf(s, key)
    {
      PodMinimumLeast(pods, p);
      var key :| key in pods && key.0 == p && PodMinimum(pods, p) == pods[key];
      assert key in s.podKeys;
    }
    forall key | key in s.podKeys
      ensures key.0 in low && low[key.0] <= CapacityOf(s, key)
    {
      assert key.0 in Pods(pods.Keys);
      PodMinimumLeast(pods, key.0);
      assert key in pods;
    }
  }

  method GetAvgPodCapacity(topo: Topology) returns (avg: real)
    requires topo.Valid() && topo.perPodCapacity != map[]
    ensures AverageCapacity(avg, topo.CurrentState())
  {
    hide Topology.Valid, PodMinimum, Average, LeastPerPod;
    PodsExact(topo);
    PodMinimaLeast(topo.CurrentState(), topo.perPodCapacity);
    var key :| key in topo.perPodCapacity;
    var minima := PodMinima(topo.perPodCapacity);
    assert key.0 in minima;
    avg := AverageOf(minima);
  }

  function Elements<T(==)>(heap: multiset<T>): set<T> {
    set x | x in heap
  }

  lemma RatesInHeap(corrupting: set<Link>, rate: map<Link, real>, top: multiset<real>)
    requires TopRates(corrupting, rate, top)
    ensures corrupting <= rate.Keys && INITIAL_LINK_LOSS_RATE in top
    ensures forall l :: l in corrupting ==> rate[l] in top
    ensures forall v :: v in top ==> v == INITIAL_LINK_LOSS_RATE || exists l :: l in corrupting && rate[l] == v
  {
    assert top[INITIAL_LINK_LOSS_RATE] >= 1;
    forall l | l in corrupting
      ensures rate[l] in top
    {
      assert l in At(corrupting, rate, rate[l]);
    }
    forall v | v in top && v != INITIAL_LINK_LOSS_RATE
      ensures exists l :: l in corrupting && rate[l] == v
    {
      assert |At(corrupting, rate, v)| > 0;
      var l :| l in At(corrupting, rate, v);
    }
  }

  lemma TopRatesReport(corrupting: set<Link>, up: set<Link>, rate: map<Link, real>, top: multiset<real>, r: real)
    requires TopRates(corrupting, rate, top) && corrupting <= up <= rate.Keys
    requires forall l :: l in up - corrupting ==> rate[l] == INITIAL_LINK_LOSS_RATE
    requires r in top && forall v :: v in Elements(top) ==> r >= v
    ensures GreatestRate(r, up, rate)
  {
    hide TopRates;
    RatesInHeap(corrupting, rate, top);
    assert INITIAL_LINK_LOSS_RATE in Elements(top);
    forall l | l in up
      ensures rate[l] <= r
    {
      assert l in corrupting ==> rate[l] in Elements(top);
    }
  }

  method GetMaxLinkLossRate(topo: Topology) returns (r: real)
    requires topo.Valid()
    ensures GreatestRate(r, topo.Up(), topo.lossRate)
  {
    hide LeastPaths, LeastCapacity, GreatestRate, GreatestPorts, Fabric.WellFormed, Attributes, AggLists, UplinkCounts,
      TopRates, PodIndex, LgCounts, TopCounts, PathCache, LossTotals;
    RatesInHeap(topo.corruptingLinks, topo.lossRate, topo.topLossRates);
    AttributesRates(topo.fabric, topo.disabledLinks, topo.disabled, topo.lossRate, topo.effectiveLossRate,
                    topo.effectiveCapacity, topo.corruptingLinks, topo.lgEnabled);
    assert INITIAL_LINK_LOSS_RATE in Elements(topo.topLossRates);
    r := Extreme(Elements(topo.topLossRates), (x: real, y: real) => x >= y);
    TopRatesReport(topo.corruptingLinks, topo.Up(), topo.lossRate, topo.topLossRates, r);
  }

  lemma CountsInHeap(counts: map<Pipe, int>, top: multiset<int>)
    requires TopCounts(counts, top)
    ensures 0 in top
    ensures forall pipe :: pipe in counts && counts[pipe] > 0 ==> counts[pipe] in top
    ensures forall v :: v in top ==> v == 0 || exists pipe :: pipe in counts && counts[pipe] == v
  {
    assert top[0] == 1;
    forall pipe | pipe in counts && counts[pipe] > 0
      ensures counts[pipe] in top
    {
      assert pipe in At(counts.Keys, counts, counts[pipe]);
    }
    forall v | v in top && v != 0
      ensures exists pipe :: pipe in counts && counts[pipe] == v
    {
      assert |At(counts.Keys, counts, v)| > 0;
      var pipe :| pipe in At(counts.Keys, counts, v);
    }
  }

  lemma TopCountsReport(f: Fabric, lg: set<Link>, counts: map<Pipe, int>, top: multiset<int>, n: int)
    requires LgCounts(f, LgPorts(lg), counts) && TopCounts(counts, top)
    requires n in top && forall v :: v in Elements(top) ==> n >= v
    ensures GreatestPorts(n, f, lg)
  {
    hide TopCounts, LgPorts, PortsOnPipe, Fabric.Wired, Fabric.PipeOf;
    CountsInHeap(counts, top);
    assert 0 in Elements(top);
    if n != 0 {
      var pipe :| pipe in counts && counts[pipe] == n;
      assert pipe == (pipe.0, pipe.1);
      assert n == |PortsOnPipe(f, LgPorts(lg), (pipe.0, pipe.1))|;
    }
    forall s, i | s in f.pipes && i < f.pipes[s]
      ensures |PortsOnPipe(f, LgPorts(lg), (s, i))| <= n
    {
      assert (s, i) in counts;
      assert counts[(s, i)] > 0 ==> counts[(s, i)] in Elements(top);
    }
  }

  method GetMaxLgPortsPerPipe(topo: Topology) returns (n: int)
    requires topo.Valid()
    ensures GreatestPorts(n, topo.fabric, topo.lgEnabled)
  {
    hide LeastPaths, LeastCapacity, GreatestRate, GreatestPorts, Fabric.WellFormed, Attributes, AggLists, UplinkCounts,
      TopRates, PodIndex, LgCounts, TopCounts, PathCache, LossTotals;
    CountsInHeap(topo.lgPortsPerPipe, topo.topLgPortsPerPipe);
    assert 0 in Elements(topo.topLgPortsPerPipe);
    n := Extreme(Elements(topo.topLgPortsPerPipe), (x: int, y: int) => x >= y);
    TopCountsReport(topo.fabric, topo.lgEnabled, topo.lgPortsPerPipe, topo.topLgPortsPerPipe, n);
  }

  /** All metrics of the current state. */
  method GetCurrentMetrics(topo: Topology) returns (m: Metrics)
    requires topo.Valid() && topo.fabric.tors != {} && topo.perPodCapacity != map[]
    ensures Describes(m, topo.CurrentState())
  {
    hide Average, AverageCapacity, LeastPaths, LeastCapacity, GreatestRate, GreatestPorts, Topology.Valid;
    var avgPaths := GetAvgNumPaths(topo);
    var minPaths := GetMinNumPaths(topo);
    var avgCapacity := GetAvgPodCapacity(topo);
    var minCapacity := GetMinPodCapacity(topo);
    var maxRate := GetMaxLinkLossRate(topo);
    var maxPorts := GetMaxLgPortsPerPipe(topo);
    topo.Totals();
    m := Metrics(topo.totalLossRate, topo.totalEffectiveLossRate, avgPaths, minPaths, avgCapacity, minCapacity, maxRate,
                 |topo.disabledLinks|, |topo.corruptingLinks|, maxPorts);
  }

  // ---------- the data file ----------

  const DATA_DUMPER_START_END_OFFSET := 4 * 24 * 3600

  type Row = (int, Metrics)

  /** The rows of a step function: each sample but the first is preceded by its predecessor's values at its own time. */
  function StepRows(samples: seq<Row>): (rows: seq<Row>)
    decreases |samples|
  {
    if |samples| <= 1 then samples else
    var n := |samples| - 1;
    StepRows(samples[..n]) + [(samples[n].0, samples[n - 1].1), samples[n]]
  }

  /** Where times increase, the file holds no two different values at one time except at the step itself. */
  class DataDumper {
    var rows: seq<Row>
    var prevRow: Option<Row>
    ghost var samples: seq<Row>

    ghost predicate Valid()
      reads this
    {
      && rows == StepRows(samples)
      && prevRow == if samples == [] then None else Some(samples[|samples| - 1])
    }

    constructor ()
      ensures Valid() && samples == []
    {
      rows, prevRow, samples := [], None, [];
    }

    /** Appends a sample; two samples in a row at the same time are an error. */
    method Dump(time: int, m: Metrics)
      requires Valid()
      requires samples != [] ==> samples[|samples| - 1].0 != time
      modifies this
      ensures Valid() && samples == old(samples) + [(time, m)]
    {
      var currRow := (time, m);
      if prevRow.None? {
        rows := [currRow];
      } else {
        rows := rows + [(time, prevRow.value.1), currRow];
      }
      assert (samples + [currRow])[..|samples|] == samples;
      prevRow, samples := Some(currRow), samples + [currRow];
    }

    /** Repeats the last sample's values at a somewhat later time. */
    method DumpLastRow()
      requires Valid() && samples != []
      modifies `rows
      ensures rows == old(rows) + [(samples[|samples| - 1].0 + DATA_DUMPER_START_END_OFFSET, samples[|samples| - 1].1)]
    {
      rows := rows + [(prevRow.value.0 + DATA_DUMPER_START_END_OFFSET, prevRow.value.1)];
    }
  }

  ghost predicate Increasing(samples: seq<Row>) {
    forall i, j :: 0 <= i < j < |samples| ==> samples[i].0 < samples[j].0
  }

  /** Row 2i is sample i, and row 2i - 1 carries sample i - 1's values up to sample i's time. */
  lemma {:induction false} StepRowsAre(samples: seq<Row>, i: nat)
    requires i < |samples|
    ensures |StepRows(samples)| == 2 * |samples| - 1
    ensures StepRows(samples)[2 * i] == samples[i]
    ensures i > 0 ==> StepRows(samples)[2 * i - 1] == (samples[i].0, samples[i - 1].1)
  {
    if |samples| > 1 {
      var n := |samples| - 1;
      if i == n {
        StepRowsAre(samples[..n], n - 1);
      } else {
        StepRowsAre(samples[..n], i);
      }
    }
  }
}
