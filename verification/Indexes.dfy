/** The indexes the topology maintains incrementally, each defined from scratch,
    and how the updates of the topology's operations carry each definition along. */
module Indexes {
  import opened Collections
  import opened Fabrics

  const INITIAL_LINK_LOSS_RATE := 0.000000000000000001

  datatype PodCapacityType = TorToAgg | AggToCore

  type PodKey = (nat, PodCapacityType)
  type Pipe = (Switch, nat)
  type Port = (Switch, Link)

  /** What a builder fixes once and for all. */
  datatype Fabric = Fabric(
    tors: set<Tor>,
    cores: set<Core>,
    links: set<Link>,
    capacity: map<Link, real>,
    lgCapable: set<Link>,
    affectedTors: map<Link, set<Tor>>,
    ports: map<Switch, seq<Link>>,
    pipes: map<Switch, nat>)
  {
    /** `l` occupies a port of `s`. */
    predicate Wired(s: Switch, l: Link) {
      s in ports && s in pipes && l in ports[s] && pipes[s] > 0
    }

    ghost predicate WellFormed() {
      && capacity.Keys == links && affectedTors.Keys == links && lgCapable <= links
      && (forall l :: l in links ==> affectedTors[l] == AffectedTors(links, l))
      && (forall l :: l in links && l.TorAgg? ==> l.tor in tors)
      && (forall l :: l in links && l.AggCore? ==> l.core in cores)
      && (forall l, s :: l in links && s in l.Ends() ==> Wired(s, l))
    }

    /** Ports are dealt to pipes in turn. */
    function PipeOf(s: Switch, l: Link): Pipe
      requires Wired(s, l)
    {
      (s, IndexOf(ports[s], l) % pipes[s])
    }

    /** The `j`-th port is on pipe `j` modulo the number of pipes. */
    lemma DealtInTurn(s: Switch, j: nat)
      requires s in ports && s in pipes && pipes[s] > 0 && j < |ports[s]| && ports[s][j] !in ports[s][..j]
      ensures PipeOf(s, ports[s][j]) == (s, j % pipes[s])
    {
    }

    lemma Known(l: Link)
      requires WellFormed() && l in links
      ensures l.TorAgg? ==> l.tor in tors
      ensures forall s :: s in l.Ends() ==> Wired(s, l)
      ensures l in affectedTors && affectedTors[l] == AffectedTors(links, l) <= tors
    {
    }
  }

  // ---------- link attributes ----------

  /** A link that is enabled and not corrupting has the initial rate; only LinkGuardian separates
      effective values from raw ones; the disabled flags and the set of disabled links agree. */
  ghost predicate Attributes(f: Fabric, down: set<Link>, disabled: map<Link, bool>, rate: map<Link, real>,
                             effectiveRate: map<Link, real>, effectiveCapacity: map<Link, real>,
                             corrupting: set<Link>, lg: set<Link>)
  {
    && disabled.Keys == rate.Keys == effectiveRate.Keys == effectiveCapacity.Keys == f.capacity.Keys == f.links
    && down <= f.links && corrupting <= f.links - down && lg <= f.links - down
    && (forall l :: l in f.links ==> (disabled[l] <==> l in down))
    && (forall l :: l in f.links - down - corrupting ==> rate[l] == INITIAL_LINK_LOSS_RATE)
    && (forall l :: l in f.links - down - lg ==> effectiveRate[l] == rate[l] && effectiveCapacity[l] == f.capacity[l])
  }

  lemma AttributesShape(f: Fabric, down: set<Link>, disabled: map<Link, bool>, rate: map<Link, real>,
      effectiveRate: map<Link, real>, effectiveCapacity: map<Link, real>, corrupting: set<Link>, lg: set<Link>)
    requires Attributes(f, down, disabled, rate, effectiveRate, effectiveCapacity, corrupting, lg)
    ensures disabled.Keys == rate.Keys == effectiveRate.Keys == effectiveCapacity.Keys == f.capacity.Keys == f.links
    ensures down <= f.links && corrupting <= f.links - down && lg <= f.links - down
  {
  }

  lemma AttributesRates(f: Fabric, down: set<Link>, disabled: map<Link, bool>, rate: map<Link, real>,
      effectiveRate: map<Link, real>, effectiveCapacity: map<Link, real>, corrupting: set<Link>, lg: set<Link>)
    requires Attributes(f, down, disabled, rate, effectiveRate, effectiveCapacity, corrupting, lg)
    ensures corrupting <= f.links - down <= rate.Keys
    ensures forall l :: l in f.links - down - corrupting ==> rate[l] == INITIAL_LINK_LOSS_RATE
  {
  }

  lemma AttributesDisable(f: Fabric, down: set<Link>, disabled: map<Link, bool>, rate: map<Link, real>,
      effectiveRate: map<Link, real>, effectiveCapacity: map<Link, real>, corrupting: set<Link>, lg: set<Link>, l: Link)
    requires Attributes(f, down, disabled, rate, effectiveRate, effectiveCapacity, corrupting, lg) && l in f.links
    ensures Attributes(f, down + {l}, disabled[l := true], rate, effectiveRate, effectiveCapacity, corrupting - {l},
                       lg - {l})
  {
  }

  lemma AttributesEnable(f: Fabric, down: set<Link>, disabled: map<Link, bool>, rate: map<Link, real>,
      effectiveRate: map<Link, real>, effectiveCapacity: map<Link, real>, corrupting: set<Link>, lg: set<Link>, l: Link)
    requires Attributes(f, down, disabled, rate, effectiveRate, effectiveCapacity, corrupting, lg) && l in down
    ensures Attributes(f, down - {l}, disabled[l := false], rate[l := INITIAL_LINK_LOSS_RATE],
                       effectiveRate[l := INITIAL_LINK_LOSS_RATE], effectiveCapacity[l := f.capacity[l]],
                       corrupting, lg)
  {
  }

  /** A failure sets the raw rate; the effective rate follows unless LinkGuardian already runs. */
  lemma AttributesFail(f: Fabric, down: set<Link>, disabled: map<Link, bool>, rate: map<Link, real>,
      effectiveRate: map<Link, real>, effectiveCapacity: map<Link, real>, corrupting: set<Link>, lg: set<Link>,
      l: Link, r: real)
    requires Attributes(f, down, disabled, rate, effectiveRate, effectiveCapacity, corrupting, lg)
    requires l in f.links - down
    ensures Attributes(f, down, disabled, rate[l := r], if l in lg then effectiveRate else effectiveRate[l := r],
                       effectiveCapacity, corrupting + {l}, lg)
  {
  }

  /** LinkGuardian runs on `l`: its effective values are free from now on. */
  lemma AttributesGuard(f: Fabric, down: set<Link>, disabled: map<Link, bool>, rate: map<Link, real>,
      effectiveRate: map<Link, real>, effectiveCapacity: map<Link, real>, corrupting: set<Link>, lg: set<Link>,
      l: Link, r: real, c: real)
    requires Attributes(f, down, disabled, rate, effectiveRate, effectiveCapacity, corrupting, lg)
    requires l in f.links - down
    ensures Attributes(f, down, disabled, rate, effectiveRate[l := r], effectiveCapacity[l := c], corrupting, lg + {l})
    ensures l in lg ==> Attributes(f, down, disabled, rate, effectiveRate[l := r], effectiveCapacity[l := c],
                                   corrupting, lg)
  {
    if l in lg {
      assert lg + {l} == lg;
    }
  }

  /** A new effective capacity is accounted for on a disabled link, on one on which LinkGuardian runs, and where it
      is no change. */
  lemma AttributesCapacity(f: Fabric, down: set<Link>, disabled: map<Link, bool>, rate: map<Link, real>,
      effectiveRate: map<Link, real>, effectiveCapacity: map<Link, real>, corrupting: set<Link>, lg: set<Link>,
      l: Link, c: real)
    requires Attributes(f, down, disabled, rate, effectiveRate, effectiveCapacity, corrupting, lg) && l in f.links
    ensures Attributes(f, down, disabled, rate, effectiveRate, effectiveCapacity[l := c], corrupting, lg) <==>
              l in down + lg || c == effectiveCapacity[l]
  {
    if l !in down + lg {
      assert effectiveCapacity[l] == f.capacity[l];
      assert effectiveCapacity[l := c][l] == c;
    }
  }

  // ---------- path counters ----------

  /** Each ToR lists exactly the aggregation switches it still reaches. */
  ghost predicate AggLists(tors: set<Tor>, up: set<Link>, lists: map<Tor, seq<Agg>>) {
    && lists.Keys == tors
    && (forall t :: t in tors ==> NoDup(lists[t]))
    && forall t, a :: t in tors ==> (a in lists[t] <==> TorAgg(t, a) in up)
  }

  /** Each aggregation switch counts its enabled uplinks. */
  ghost predicate UplinkCounts(links: set<Link>, up: set<Link>, uplinks: map<Agg, int>) {
    && (forall l :: l in links ==> l.agg in uplinks)
    && forall a :: a in uplinks ==> uplinks[a] == |Uplinks(up, a)|
  }

  /** The cached path counts of `done` are the numbers of enabled paths. */
  ghost predicate PathCache(f: Fabric, up: set<Link>, numPaths: map<Tor, int>, done: set<Tor>) {
    && numPaths.Keys == f.tors && done <= f.tors
    && forall t :: t in done ==> numPaths[t] == PathCount(up, t)
  }

  function DropFromPathLists(l: Link, aggSwitches: map<Tor, seq<Agg>>): map<Tor, seq<Agg>>
    requires l.TorAgg? ==> l.tor in aggSwitches && l.agg in aggSwitches[l.tor]
  {
    if l.TorAgg? then aggSwitches[l.tor := RemoveFirst(aggSwitches[l.tor], l.agg)] else aggSwitches
  }

  function AddToPathLists(l: Link, aggSwitches: map<Tor, seq<Agg>>): map<Tor, seq<Agg>>
    requires l.TorAgg? ==> l.tor in aggSwitches
  {
    if l.TorAgg? then aggSwitches[l.tor := aggSwitches[l.tor] + [l.agg]] else aggSwitches
  }

  function ShiftUplinks(l: Link, activeUplinks: map<Agg, int>, delta: int): map<Agg, int>
    requires l.AggCore? ==> l.agg in activeUplinks
  {
    if l.AggCore? then activeUplinks[l.agg := activeUplinks[l.agg] + delta] else activeUplinks
  }

  lemma AggListsDisable(tors: set<Tor>, up: set<Link>, l: Link, lists: map<Tor, seq<Agg>>)
    requires AggLists(tors, up, lists) && l in up && (l.TorAgg? ==> l.tor in tors)
    ensures l.TorAgg? ==> l.tor in lists && l.agg in lists[l.tor]
    ensures AggLists(tors, up - {l}, DropFromPathLists(l, lists))
  {
    if l.TorAgg? {
      RemoveFirstNoDup(lists[l.tor], l.agg);
    }
  }

  lemma AggListsEnable(tors: set<Tor>, up: set<Link>, l: Link, lists: map<Tor, seq<Agg>>)
    requires AggLists(tors, up, lists) && l !in up && (l.TorAgg? ==> l.tor in tors)
    ensures l.TorAgg? ==> l.tor in lists
    ensures AggLists(tors, up + {l}, AddToPathLists(l, lists))
  {
    if l.TorAgg? {
      AppendNoDup(lists[l.tor], l.agg);
    }
  }

  lemma UplinksShift(up: set<Link>, l: Link, a: Agg)
    requires l !in up
    ensures |Uplinks(up + {l}, a)| == |Uplinks(up, a)| + (if l.AggCore? && l.agg == a then 1 else 0)
  {
    assert Uplinks(up + {l}, a) == if l.AggCore? && l.agg == a then Uplinks(up, a) + {l} else Uplinks(up, a);
  }

  lemma UplinkCountsDisable(links: set<Link>, up: set<Link>, l: Link, uplinks: map<Agg, int>)
    requires UplinkCounts(links, up, uplinks) && l in links && l in up
    ensures l.agg in uplinks && UplinkCounts(links, up - {l}, ShiftUplinks(l, uplinks, -1))
  {
    assert up - {l} + {l} == up;
    forall a { UplinksShift(up - {l}, l, a); }
  }

  lemma UplinkCountsEnable(links: set<Link>, up: set<Link>, l: Link, uplinks: map<Agg, int>)
    requires UplinkCounts(links, up, uplinks) && l in links && l !in up
    ensures l.agg in uplinks && UplinkCounts(links, up + {l}, ShiftUplinks(l, uplinks, 1))
  {
    forall a { UplinksShift(up, l, a); }
  }

  /** Changing the state of `l` leaves the cached counts right everywhere but at the ToRs `l` affects. */
  lemma PathCacheElsewhere(f: Fabric, up: set<Link>, l: Link, numPaths: map<Tor, int>)
    requires f.WellFormed() && up <= f.links && l in f.links
    ensures l in up && PathCache(f, up, numPaths, f.tors) ==>
              PathCache(f, up - {l}, numPaths, f.tors - AffectedTors(f.links, l))
    ensures l !in up && PathCache(f, up, numPaths, f.tors) ==>
              PathCache(f, up + {l}, numPaths, f.tors - AffectedTors(f.links, l))
  {
    forall t | t in f.tors - AffectedTors(f.links, l)
      ensures PathLinks(up - {l}, t) == PathLinks(up, t)
      ensures PathLinks(up + {l} - {l}, t) == PathLinks(up + {l}, t)
    {
      PathsLocal(f.links, up, {l}, t);
      PathsLocal(f.links, up + {l}, {l}, t);
    }
    if l !in up {
      assert up + {l} - {l} == up;
    }
  }

  // ---------- loss totals and the heap of top loss rates ----------

  ghost predicate LossTotals(up: set<Link>, rate: map<Link, real>, total: real) {
    up <= rate.Keys && total == Sum(up, rate)
  }

  lemma LossTotalsDrop(up: set<Link>, rate: map<Link, real>, total: real, l: Link)
    requires LossTotals(up, rate, total) && l in up
    ensures LossTotals(up - {l}, rate, total - rate[l])
  {
    SumRemove(up, l, rate);
  }

  lemma LossTotalsAdd(up: set<Link>, rate: map<Link, real>, total: real, l: Link, r: real)
    requires LossTotals(up, rate, total) && l !in up
    ensures LossTotals(up + {l}, rate[l := r], total + r)
  {
    SumAgree(up, rate, rate[l := r]);
    SumAdd(up, l, rate[l := r]);
  }

  lemma LossTotalsSet(up: set<Link>, rate: map<Link, real>, total: real, l: Link, r: real)
    requires LossTotals(up, rate, total) && l in up
    ensures LossTotals(up, rate[l := r], total - rate[l] + r)
  {
    SumUpdate(up, l, rate, rate[l := r]);
  }

  function At<K, V(==)>(s: set<K>, m: map<K, V>, v: V): set<K>
    requires s <= m.Keys
  {
    set x | x in s && m[x] == v
  }

  /** How many elements of `s` have value `v`. */
  function CountAt<K, V(==)>(s: set<K>, m: map<K, V>, v: V): nat
    requires s <= m.Keys
  {
    |At(s, m, v)|
  }

  /** The heap holds the initial rate once, and the rate of every corrupting link. */
  ghost predicate TopRates(corrupting: set<Link>, rate: map<Link, real>, top: multiset<real>) {
    && corrupting <= rate.Keys
    && forall v :: top[v] == CountAt(corrupting, rate, v) + (if v == INITIAL_LINK_LOSS_RATE then 1 else 0)
  }

  lemma CountAtDrop<K, V>(s: set<K>, m: map<K, V>, x: K, v: V)
    requires s <= m.Keys && x in s
    ensures CountAt(s, m, v) == CountAt(s - {x}, m, v) + (if m[x] == v then 1 else 0)
  {
    assert At(s, m, v) == if m[x] == v then At(s - {x}, m, v) + {x} else At(s - {x}, m, v);
  }

  lemma CountAtAgree<K, V>(s: set<K>, m: map<K, V>, m': map<K, V>, v: V)
    requires s <= m.Keys && s <= m'.Keys
    requires forall x :: x in s ==> m[x] == m'[x]
    ensures CountAt(s, m, v) == CountAt(s, m', v)
  {
    assert At(s, m, v) == At(s, m', v);
  }

  lemma TopRatesDrop(corrupting: set<Link>, rate: map<Link, real>, top: multiset<real>, l: Link)
    requires TopRates(corrupting, rate, top) && l in corrupting
    ensures rate[l] in top
    ensures TopRates(corrupting - {l}, rate, top - multiset{rate[l]})
  {
    forall v
      ensures CountAt(corrupting, rate, v) == CountAt(corrupting - {l}, rate, v) + (if rate[l] == v then 1 else 0)
    {
      CountAtDrop(corrupting, rate, l, v);
    }
    assert top[rate[l]] >= CountAt(corrupting, rate, rate[l]) > 0;
  }

  lemma TopRatesAdd(corrupting: set<Link>, rate: map<Link, real>, top: multiset<real>, l: Link, r: real)
    requires l !in corrupting && l in rate && TopRates(corrupting, rate, top)
    ensures TopRates(corrupting + {l}, rate[l := r], top + multiset{r})
  {
    var rate' := rate[l := r];
    assert corrupting + {l} - {l} == corrupting;
    forall v
      ensures CountAt(corrupting + {l}, rate', v) == CountAt(corrupting, rate, v) + (if r == v then 1 else 0)
    {
      CountAtDrop(corrupting + {l}, rate', l, v);
      CountAtAgree(corrupting, rate, rate', v);
    }
  }

  /** The rate bookkeeping does not look at links that are not corrupting. */
  lemma TopRatesFrame(corrupting: set<Link>, rate: map<Link, real>, rate': map<Link, real>, top: multiset<real>)
    requires TopRates(corrupting, rate, top) && corrupting <= rate'.Keys
    requires forall l :: l in corrupting ==> rate[l] == rate'[l]
    ensures TopRates(corrupting, rate', top)
  {
    forall v
      ensures CountAt(corrupting, rate, v) == CountAt(corrupting, rate', v)
    {
      CountAtAgree(corrupting, rate, rate', v);
    }
  }

  // ---------- pod capacities ----------

  function PodKeyOf(l: Link): PodKey {
    (l.agg.pod, if l.TorAgg? then TorToAgg else AggToCore)
  }

  /** The enabled links of one pod, between its ToRs and aggregation switches or from there to the core. */
  function PodLinks(up: set<Link>, key: PodKey): set<Link> {
    set l | l in up && l.agg.pod == key.0 && (l.TorAgg? <==> key.1 == TorToAgg)
  }

  /** Each pod's entry is the effective capacity of its enabled links of that type. */
  ghost predicate PodIndex(f: Fabric, up: set<Link>, capacity: map<Link, real>, pods: map<PodKey, real>) {
    && up <= capacity.Keys
    && (forall l :: l in f.links ==> PodKeyOf(l) in pods)
    && forall key :: key in pods ==> pods[key] == Sum(PodLinks(up, key), capacity)
  }

  function ShiftPod(l: Link, pods: map<PodKey, real>, delta: real): map<PodKey, real>
    requires PodKeyOf(l) in pods
  {
    pods[PodKeyOf(l) := pods[PodKeyOf(l)] + delta]
  }

  lemma PodIndexDisable(f: Fabric, up: set<Link>, l: Link, capacity: map<Link, real>, pods: map<PodKey, real>)
    requires PodIndex(f, up, capacity, pods) && l in up && up <= f.links
    ensures PodKeyOf(l) in pods && PodIndex(f, up - {l}, capacity, ShiftPod(l, pods, -capacity[l]))
  {
    forall key | key in pods
      ensures Sum(PodLinks(up - {l}, key), capacity) ==
                Sum(PodLinks(up, key), capacity) - (if key == PodKeyOf(l) then capacity[l] else 0.0)
    {
      if key == PodKeyOf(l) {
        SumRemove(PodLinks(up, key), l, capacity);
        assert PodLinks(up - {l}, key) == PodLinks(up, key) - {l};
      } else {
        assert PodLinks(up - {l}, key) == PodLinks(up, key);
      }
    }
  }

  lemma PodIndexEnable(f: Fabric, up: set<Link>, l: Link, capacity: map<Link, real>, pods: map<PodKey, real>, c: real)
    requires PodIndex(f, up, capacity, pods) && l in f.links - up
    ensures PodKeyOf(l) in pods && PodIndex(f, up + {l}, capacity[l := c], ShiftPod(l, pods, c))
  {
    var capacity' := capacity[l := c];
    forall key | key in pods
      ensures Sum(PodLinks(up + {l}, key), capacity') ==
                Sum(PodLinks(up, key), capacity) + (if key == PodKeyOf(l) then c else 0.0)
    {
      SumAgree(PodLinks(up, key), capacity, capacity');
      if key == PodKeyOf(l) {
        SumAdd(PodLinks(up, key), l, capacity');
        assert PodLinks(up + {l}, key) == PodLinks(up, key) + {l};
      } else {
        assert PodLinks(up + {l}, key) == PodLinks(up, key);
      }
    }
  }

  /** Moving the pod entry with the effective capacity is right for an enabled link, and where it is no change. */
  lemma PodIndexCapacity(f: Fabric, up: set<Link>, l: Link, capacity: map<Link, real>, pods: map<PodKey, real>, c: real)
    requires PodIndex(f, up, capacity, pods) && up <= f.links && l in f.links && l in capacity
    ensures PodKeyOf(l) in pods && ShiftPod(l, pods, c - capacity[l]).Keys == pods.Keys
    ensures PodIndex(f, up, capacity[l := c], ShiftPod(l, pods, c - capacity[l])) <==> l in up || c == capacity[l]
  {
    var key := PodKeyOf(l);
    forall k | k in pods
      ensures Sum(PodLinks(up, k), capacity[l := c]) ==
                Sum(PodLinks(up, k), capacity) + (if l in PodLinks(up, k) then c - capacity[l] else 0.0)
    {
      SumUpdate(PodLinks(up, k), l, capacity, capacity[l := c]);
    }
    var pods' := ShiftPod(l, pods, c - capacity[l]);
    assert pods'[key] == pods[key] + (c - capacity[l]);
    assert l in up <==> l in PodLinks(up, key);
  }

  // ---------- LinkGuardian ports per pipe ----------

  /** The switch ports on which LinkGuardian runs. */
  function LgPorts(enabled: set<Link>): set<Port> {
    set l, s | l in enabled && s in l.Ends() :: (s, l)
  }

  function PortsOf(l: Link, switches: set<Switch>): set<Port> {
    set s | s in switches :: (s, l)
  }

  lemma LgPortsDrop(enabled: set<Link>, l: Link)
    requires l in enabled
    ensures LgPorts(enabled - {l}) == LgPorts(enabled) - PortsOf(l, l.Ends())
    ensures PortsOf(l, l.Ends()) <= LgPorts(enabled)
  {
  }

  function PortsOnPipe(f: Fabric, ports: set<Port>, pipe: Pipe): set<Port>
    requires forall p :: p in ports ==> f.Wired(p.0, p.1)
  {
    set p | p in ports && f.PipeOf(p.0, p.1) == pipe
  }

  /** Per-pipe counters count the LinkGuardian ports of the pipe. */
  ghost predicate LgCounts(f: Fabric, ports: set<Port>, counts: map<Pipe, int>) {
    && (forall p :: p in ports ==> f.Wired(p.0, p.1))
    && (forall s, i :: (s, i) in counts <==> s in f.pipes && i < f.pipes[s])
    && (forall pipe :: pipe in counts ==> counts[pipe] == |PortsOnPipe(f, ports, pipe)|)
  }

  /** The heap holds 0 once, and every nonzero counter. */
  ghost predicate TopCounts(counts: map<Pipe, int>, top: multiset<int>) {
    && (forall pipe :: pipe in counts ==> counts[pipe] >= 0)
    && forall v :: top[v] == if v == 0 then 1 else if v < 0 then 0 else CountAt(counts.Keys, counts, v)
  }

  /** The heap after one counter has moved to `next`. */
  function MoveTop(top: multiset<int>, curr: int, next: int): multiset<int> {
    (if curr != 0 then top - multiset{curr} else top) + (if next != 0 then multiset{next} else multiset{})
  }

  lemma CountAtMove(counts: map<Pipe, int>, pipe: Pipe, next: int, v: int)
    requires pipe in counts
    ensures counts[pipe := next].Keys == counts.Keys
    ensures CountAt(counts.Keys, counts[pipe := next], v) ==
              CountAt(counts.Keys, counts, v) - (if counts[pipe] == v then 1 else 0) + (if next == v then 1 else 0)
  {
    hide CountAt;
    var counts' := counts[pipe := next];
    assert counts'.Keys == counts.Keys;
    CountAtDrop(counts.Keys, counts, pipe, v);
    CountAtDrop(counts.Keys, counts', pipe, v);
    CountAtAgree(counts.Keys - {pipe}, counts, counts', v);
  }

  lemma TopCountsMove(counts: map<Pipe, int>, top: multiset<int>, pipe: Pipe, next: int)
    requires TopCounts(counts, top) && pipe in counts && next >= 0
    ensures counts[pipe] != 0 ==> counts[pipe] in top
    ensures TopCounts(counts[pipe := next], MoveTop(top, counts[pipe], next))
  {
    hide CountAt;
    var counts' := counts[pipe := next];
    CountAtMove(counts, pipe, next, 0);
    forall v
      ensures CountAt(counts'.Keys, counts', v) ==
                CountAt(counts.Keys, counts, v) - (if counts[pipe] == v then 1 else 0) + (if next == v then 1 else 0)
    {
      CountAtMove(counts, pipe, next, v);
    }
    CountAtDrop(counts.Keys, counts, pipe, counts[pipe]);
  }

  lemma PortsOnPipeAdd(f: Fabric, ports: set<Port>, p: Port, q: Pipe)
    requires f.Wired(p.0, p.1) && p !in ports
    requires forall x :: x in ports ==> f.Wired(x.0, x.1)
    ensures forall x :: x in ports + {p} ==> f.Wired(x.0, x.1)
    ensures |PortsOnPipe(f, ports + {p}, q)| == |PortsOnPipe(f, ports, q)| + (if q == f.PipeOf(p.0, p.1) then 1 else 0)
  {
    assert PortsOnPipe(f, ports + {p}, q) ==
             if q == f.PipeOf(p.0, p.1) then PortsOnPipe(f, ports, q) + {p} else PortsOnPipe(f, ports, q);
  }

  lemma LgCountsAdd(f: Fabric, ports: set<Port>, counts: map<Pipe, int>, s: Switch, l: Link)
    requires LgCounts(f, ports, counts) && (s, l) !in ports && f.Wired(s, l)
    ensures var pipe := f.PipeOf(s, l);
            pipe in counts && LgCounts(f, ports + {(s, l)}, counts[pipe := counts[pipe] + 1])
  {
    forall q ensures |PortsOnPipe(f, ports + {(s, l)}, q)| ==
        |PortsOnPipe(f, ports, q)| + (if q == f.PipeOf(s, l) then 1 else 0)
    {
      PortsOnPipeAdd(f, ports, (s, l), q);
    }
  }

  lemma LgCountsDrop(f: Fabric, ports: set<Port>, counts: map<Pipe, int>, s: Switch, l: Link)
    requires LgCounts(f, ports, counts) && (s, l) in ports
    ensures var pipe := f.PipeOf(s, l);
            pipe in counts && counts[pipe] > 0 && LgCounts(f, ports - {(s, l)}, counts[pipe := counts[pipe] - 1])
  {
    var pipe := f.PipeOf(s, l);
    assert pipe in counts;
    assert (s, l) in PortsOnPipe(f, ports, pipe);
    forall q | q in counts
      ensures PortsOnPipe(f, ports - {(s, l)}, q) == PortsOnPipe(f, ports, q) - (if q == pipe then {(s, l)} else {})
    {}
  }
}
