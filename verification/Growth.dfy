/** Growing a topology switch by switch and link by link, as the builders do. */
module Growth {
  import opened Collections
  import opened Fabrics
  import opened Indexes
  import opened Topologies

  /** Exactly the known switches have ports, on at least one pipe each. */
  ghost predicate Seated(f: Fabric, aggs: set<Agg>) {
    && f.pipes.Keys == f.ports.Keys
    && (forall s :: s in f.pipes ==> f.pipes[s] > 0)
    && forall s :: s in f.ports <==> match s
                                     case TorSwitch(t) => t in f.tors
                                     case AggSwitch(a) => a in aggs
                                     case CoreSwitch(c) => c in f.cores
  }

  /** A fabric with its link attributes and indexes. */
  datatype Indexing = Indexing(
    fabric: Fabric,
    disabled: map<Link, bool>,
    rate: map<Link, real>,
    effectiveRate: map<Link, real>,
    effectiveCapacity: map<Link, real>,
    lists: map<Tor, seq<Agg>>,
    uplinks: map<Agg, int>,
    pods: map<PodKey, real>,
    counts: map<Pipe, int>,
    rates: multiset<real>,
    top: multiset<int>)
  {
    /** Every index is right, if every link is enabled and untouched. */
    ghost predicate Consistent() {
      && fabric.WellFormed() && Seated(fabric, uplinks.Keys)
      && Attributes(fabric, {}, disabled, rate, effectiveRate, effectiveCapacity, {}, {})
      && AggLists(fabric.tors, fabric.links, lists) && UplinkCounts(fabric.links, fabric.links, uplinks)
      && TopRates({}, rate, rates) && PodIndex(fabric, fabric.links, effectiveCapacity, pods)
      && LgCounts(fabric, {}, counts) && TopCounts(counts, top)
    }
  }

  ghost function IndexingOf(topo: Topology): Indexing
    reads topo
  {
    Indexing(topo.fabric, topo.disabled, topo.lossRate, topo.effectiveLossRate, topo.effectiveCapacity,
             topo.aggSwitches, topo.activeUplinks, topo.perPodCapacity, topo.lgPortsPerPipe, topo.topLossRates,
             topo.topLgPortsPerPipe)
  }

  /** A topology under construction: indexes kept, totals and path counts still to come. */
  ghost predicate Growing(topo: Topology)
    reads topo
  {
    topo.disabledLinks == {} && topo.corruptingLinks == {} && topo.lgEnabled == {} && IndexingOf(topo).Consistent()
  }

  lemma GrowingIndexed(topo: Topology)
    requires Growing(topo)
    ensures topo.Indexed() && topo.Up() == topo.fabric.links
  {
    hide Fabric.WellFormed, Attributes, AggLists, UplinkCounts, TopRates, PodIndex, LgCounts, TopCounts, Seated;
    assert LgPorts({}) == {};
    assert topo.fabric.links - {} == topo.fabric.links;
  }

  // ---------- a switch ----------

  function Seat(f: Fabric, s: Switch, pipes: nat): Fabric {
    f.(ports := f.ports[s := []], pipes := f.pipes[s := pipes],
       tors := if s.TorSwitch? then f.tors + {s.tor} else f.tors,
       cores := if s.CoreSwitch? then f.cores + {s.core} else f.cores)
  }

  function NewLists(lists: map<Tor, seq<Agg>>, s: Switch): map<Tor, seq<Agg>> {
    if s.TorSwitch? then lists[s.tor := []] else lists
  }

  function NewUplinks(uplinks: map<Agg, int>, s: Switch): map<Agg, int> {
    if s.AggSwitch? then uplinks[s.agg := 0] else uplinks
  }

  function NewCounts(counts: map<Pipe, int>, s: Switch, pipes: nat): map<Pipe, int> {
    counts + map i | 0 <= i < pipes :: (s, i) := 0
  }

  lemma SeatWellFormed(f: Fabric, uplinks: map<Agg, int>, s: Switch, pipes: nat)
    requires f.WellFormed() && Seated(f, uplinks.Keys) && s !in f.ports && pipes > 0
    ensures Seat(f, s, pipes).WellFormed() && s !in f.pipes
    ensures Seated(Seat(f, s, pipes), NewUplinks(uplinks, s).Keys)
  {
    var g := Seat(f, s, pipes);
    forall l, x | l in g.links && x in l.Ends()
      ensures g.Wired(x, l)
    {
      assert f.Wired(x, l);
    }
  }

  lemma SeatUnused(f: Fabric, up: set<Link>, lists: map<Tor, seq<Agg>>, uplinks: map<Agg, int>, s: Switch, pipes: nat)
    requires f.WellFormed() && up <= f.links && AggLists(f.tors, up, lists) && UplinkCounts(f.links, up, uplinks)
    requires Seated(f, uplinks.Keys) && s !in f.ports
    ensures AggLists(Seat(f, s, pipes).tors, up, NewLists(lists, s))
    ensures UplinkCounts(f.links, up, NewUplinks(uplinks, s))
  {
    forall l | l in f.links
      ensures s !in l.Ends()
    {
      assert forall x :: x in l.Ends() ==> f.Wired(x, l);
    }
    if s.AggSwitch? {
      assert Uplinks(up, s.agg) == {};
    }
    if s.TorSwitch? {
      assert forall a :: TorSwitch(s.tor) in TorAgg(s.tor, a).Ends();
    }
  }

  lemma SeatCounts(f: Fabric, counts: map<Pipe, int>, top: multiset<int>, s: Switch, pipes: nat)
    requires LgCounts(f, {}, counts) && TopCounts(counts, top) && s !in f.pipes
    ensures LgCounts(Seat(f, s, pipes), {}, NewCounts(counts, s, pipes))
    ensures TopCounts(NewCounts(counts, s, pipes), top)
  {
    var counts' := NewCounts(counts, s, pipes);
    forall v | v > 0
      ensures CountAt(counts'.Keys, counts', v) == CountAt(counts.Keys, counts, v)
    {
      assert At(counts'.Keys, counts', v) == At(counts.Keys, counts, v);
    }
    forall pipe | pipe in counts'
      ensures counts'[pipe] == 0 == |PortsOnPipe(Seat(f, s, pipes), {}, pipe)|
    {
      assert PortsOnPipe(Seat(f, s, pipes), {}, pipe) == {};
      assert pipe in counts ==> counts[pipe] == |PortsOnPipe(f, {}, pipe)| && PortsOnPipe(f, {}, pipe) == {};
    }
  }

  lemma SeatFrame(f: Fabric, disabled: map<Link, bool>, rate: map<Link, real>, effectiveRate: map<Link, real>,
                  effectiveCapacity: map<Link, real>, pods: map<PodKey, real>, s: Switch, pipes: nat)
    requires Attributes(f, {}, disabled, rate, effectiveRate, effectiveCapacity, {}, {})
    requires PodIndex(f, f.links, effectiveCapacity, pods)
    ensures Attributes(Seat(f, s, pipes), {}, disabled, rate, effectiveRate, effectiveCapacity, {}, {})
    ensures PodIndex(Seat(f, s, pipes), f.links, effectiveCapacity, pods)
  {
  }

  /** One more switch. */
  function WithSeat(x: Indexing, s: Switch, pipes: nat): Indexing {
    x.(fabric := Seat(x.fabric, s, pipes), lists := NewLists(x.lists, s), uplinks := NewUplinks(x.uplinks, s),
       counts := NewCounts(x.counts, s, pipes))
  }

  lemma SeatConsistent(x: Indexing, s: Switch, pipes: nat)
    requires x.Consistent() && s !in x.fabric.ports && pipes > 0
    ensures WithSeat(x, s, pipes).Consistent()
  {
    hide Fabric.WellFormed, Attributes, AggLists, UplinkCounts, TopRates, PodIndex, LgCounts, TopCounts, Seated,
      NewLists, NewUplinks, NewCounts;
    SeatWellFormed(x.fabric, x.uplinks, s, pipes);
    SeatUnused(x.fabric, x.fabric.links, x.lists, x.uplinks, s, pipes);
    SeatFrame(x.fabric, x.disabled, x.rate, x.effectiveRate, x.effectiveCapacity, x.pods, s, pipes);
    SeatCounts(x.fabric, x.counts, x.top, s, pipes);
  }

  /** Adds a switch with its ports still free. */
  method AddSwitch(topo: Topology, s: Switch, pipes: nat)
    requires Growing(topo) && s !in topo.fabric.ports && pipes > 0
    modifies topo
    ensures Growing(topo) && topo.fabric == Seat(old(topo.fabric), s, pipes)
    ensures topo.activeUplinks == NewUplinks(old(topo.activeUplinks), s)
    ensures topo.perPodCapacity == old(topo.perPodCapacity)
  {
    hide Indexing.Consistent, Seat, NewLists, NewUplinks, NewCounts;
    ghost var before := IndexingOf(topo);
    SeatConsistent(before, s, pipes);
    topo.fabric, topo.aggSwitches, topo.activeUplinks, topo.lgPortsPerPipe :=
      Seat(topo.fabric, s, pipes), NewLists(topo.aggSwitches, s), NewUplinks(topo.activeUplinks, s),
      NewCounts(topo.lgPortsPerPipe, s, pipes);
    assert IndexingOf(topo) == WithSeat(before, s, pipes);
  }

  // ---------- a link ----------

  /** The switches adjacent to `a` of type ToR. */
  function AdjacentTors(links: set<Link>, a: Agg): set<Tor> {
    set x | x in links && x.TorAgg? && x.agg == a :: x.tor
  }

  function NewPorts(ports: map<Switch, seq<Link>>, l: Link): map<Switch, seq<Link>>
    requires l.Ends() <= ports.Keys
  {
    ports + map s | s in l.Ends() :: ports[s] + [l]
  }

  function Extend(f: Fabric, l: Link, capacity: real, isLgLink: bool): Fabric
    requires l.Ends() <= f.ports.Keys
  {
    f.(links := f.links + {l}, capacity := f.capacity[l := capacity],
       lgCapable := if isLgLink then f.lgCapable + {l} else f.lgCapable,
       affectedTors := f.affectedTors[l := if l.TorAgg? then {l.tor} else AdjacentTors(f.links, l.agg)],
       ports := NewPorts(f.ports, l))
  }

  /** Aggregation switches are wired to their ToRs before they are wired to the core. */
  ghost predicate WiredBelowFirst(f: Fabric, l: Link) {
    l.TorAgg? ==> forall x :: x in f.links && x.AggCore? ==> x.agg != l.agg
  }

  /** The affected ToRs of the links already there do not change. */
  lemma ExtendAffected(f: Fabric, l: Link)
    requires WiredBelowFirst(f, l) && l !in f.links
    ensures AffectedTors(f.links + {l}, l) == if l.TorAgg? then {l.tor} else AdjacentTors(f.links, l.agg)
    ensures forall k :: k in f.links ==> AffectedTors(f.links + {l}, k) == AffectedTors(f.links, k)
  {
  }

  lemma ExtendWired(f: Fabric, l: Link, capacity: real, isLgLink: bool, k: Link, s: Switch)
    requires l.Ends() <= f.ports.Keys && s in k.Ends() && s in f.pipes && f.pipes[s] > 0
    requires f.Wired(s, k) || k == l
    ensures Extend(f, l, capacity, isLgLink).Wired(s, k)
  {
    if s in l.Ends() {
      assert NewPorts(f.ports, l)[s] == f.ports[s] + [l];
    }
  }

  lemma ExtendAllWired(f: Fabric, aggs: set<Agg>, l: Link, capacity: real, isLgLink: bool)
    requires f.WellFormed() && Seated(f, aggs) && l.Ends() <= f.ports.Keys
    ensures forall k, s :: k in f.links + {l} && s in k.Ends() ==> Extend(f, l, capacity, isLgLink).Wired(s, k)
  {
    forall k, s | k in f.links + {l} && s in k.Ends()
      ensures Extend(f, l, capacity, isLgLink).Wired(s, k)
    {
      assert k != l ==> f.Wired(s, k);
      ExtendWired(f, l, capacity, isLgLink, k, s);
    }
  }

  lemma ExtendSeated(f: Fabric, aggs: set<Agg>, l: Link, capacity: real, isLgLink: bool)
    requires Seated(f, aggs) && l.Ends() <= f.ports.Keys
    ensures Seated(Extend(f, l, capacity, isLgLink), aggs)
    ensures if l.TorAgg? then l.tor in f.tors else l.core in f.cores
  {
    assert (if l.TorAgg? then TorSwitch(l.tor) else CoreSwitch(l.core)) in l.Ends();
  }

  /** Otherwise a link to the core does not hear of the new ToR. */
  lemma ExtendUnheard(f: Fabric, l: Link, capacity: real, isLgLink: bool)
    requires f.WellFormed() && l !in f.links && l.Ends() <= f.ports.Keys && !WiredBelowFirst(f, l)
    ensures !Extend(f, l, capacity, isLgLink).WellFormed()
  {
    var x :| x in f.links && x.AggCore? && x.agg == l.agg;
    assert l.tor in AffectedTors(f.links + {l}, x) && l.tor !in AffectedTors(f.links, x);
    assert Extend(f, l, capacity, isLgLink).affectedTors[x] == f.affectedTors[x] == AffectedTors(f.links, x);
  }

  lemma ExtendWellFormed(f: Fabric, aggs: set<Agg>, l: Link, capacity: real, isLgLink: bool)
    requires f.WellFormed() && Seated(f, aggs) && l !in f.links && l.Ends() <= f.ports.Keys
    ensures Seated(Extend(f, l, capacity, isLgLink), aggs)
    ensures Extend(f, l, capacity, isLgLink).WellFormed() <==> WiredBelowFirst(f, l)
  {
    hide WiredBelowFirst, AffectedTors, AdjacentTors, NewPorts, Fabric.Wired, Seated, Link.Ends;
    ExtendSeated(f, aggs, l, capacity, isLgLink);
    if WiredBelowFirst(f, l) {
      ExtendAffected(f, l);
      ExtendAllWired(f, aggs, l, capacity, isLgLink);
    } else {
      ExtendUnheard(f, l, capacity, isLgLink);
    }
  }

  lemma ExtendPaths(f: Fabric, lists: map<Tor, seq<Agg>>, uplinks: map<Agg, int>, l: Link)
    requires AggLists(f.tors, f.links, lists) && UplinkCounts(f.links, f.links, uplinks)
    requires Seated(f, uplinks.Keys) && l !in f.links && l.Ends() <= f.ports.Keys
    ensures l.agg in uplinks && (l.TorAgg? ==> l.tor in lists)
    ensures AggLists(f.tors, f.links + {l}, AddToPathLists(l, lists))
    ensures UplinkCounts(f.links + {l}, f.links + {l}, ShiftUplinks(l, uplinks, 1))
  {
    assert AggSwitch(l.agg) in l.Ends() && (l.TorAgg? ==> TorSwitch(l.tor) in l.Ends());
    AggListsEnable(f.tors, f.links, l, lists);
    assert UplinkCounts(f.links + {l}, f.links, uplinks);
    UplinkCountsEnable(f.links + {l}, f.links, l, uplinks);
  }

  lemma ExtendAttributes(f: Fabric, disabled: map<Link, bool>, rate: map<Link, real>, effectiveRate: map<Link, real>,
                         effectiveCapacity: map<Link, real>, l: Link, capacity: real, isLgLink: bool)
    requires Attributes(f, {}, disabled, rate, effectiveRate, effectiveCapacity, {}, {}) && l.Ends() <= f.ports.Keys
    ensures Attributes(Extend(f, l, capacity, isLgLink), {}, disabled[l := false], rate[l := INITIAL_LINK_LOSS_RATE],
                       effectiveRate[l := INITIAL_LINK_LOSS_RATE], effectiveCapacity[l := capacity], {}, {})
  {
    hide AdjacentTors, NewPorts, Link.Ends;
    var g := Extend(f, l, capacity, isLgLink);
    assert g.links == f.links + {l} && g.capacity == f.capacity[l := capacity];
  }

  lemma ExtendCounts(f: Fabric, counts: map<Pipe, int>, rate: map<Link, real>, top: multiset<real>,
                     l: Link, capacity: real, isLgLink: bool)
    requires LgCounts(f, {}, counts) && TopRates({}, rate, top) && l.Ends() <= f.ports.Keys
    ensures LgCounts(Extend(f, l, capacity, isLgLink), {}, counts)
    ensures TopRates({}, rate[l := INITIAL_LINK_LOSS_RATE], top)
  {
    var g := Extend(f, l, capacity, isLgLink);
    forall pipe | pipe in counts
      ensures PortsOnPipe(g, {}, pipe) == PortsOnPipe(f, {}, pipe)
    {
    }
    TopRatesFrame({}, rate, rate[l := INITIAL_LINK_LOSS_RATE], top);
  }

  lemma ExtendPods(f: Fabric, effectiveCapacity: map<Link, real>, pods: map<PodKey, real>, l: Link, capacity: real,
                   isLgLink: bool)
    requires PodIndex(f, f.links, effectiveCapacity, pods) && l !in f.links && PodKeyOf(l) in pods
    requires l.Ends() <= f.ports.Keys
    ensures PodIndex(Extend(f, l, capacity, isLgLink), f.links + {l}, effectiveCapacity[l := capacity],
                     ShiftPod(l, pods, capacity))
  {
    var g := Extend(f, l, capacity, isLgLink);
    assert PodIndex(g, f.links, effectiveCapacity, pods);
    PodIndexEnable(g, f.links, l, effectiveCapacity, pods, capacity);
  }

  /** One more link, enabled and clean. */
  function WithLink(x: Indexing, l: Link, capacity: real, isLgLink: bool): Indexing
    requires l.Ends() <= x.fabric.ports.Keys && l.agg in x.uplinks && PodKeyOf(l) in x.pods
    requires l.TorAgg? ==> l.tor in x.lists
  {
    x.(fabric := Extend(x.fabric, l, capacity, isLgLink), disabled := x.disabled[l := false],
       rate := x.rate[l := INITIAL_LINK_LOSS_RATE], effectiveRate := x.effectiveRate[l := INITIAL_LINK_LOSS_RATE],
       effectiveCapacity := x.effectiveCapacity[l := capacity], lists := AddToPathLists(l, x.lists),
       uplinks := ShiftUplinks(l, x.uplinks, 1), pods := ShiftPod(l, x.pods, capacity))
  }

  lemma ExtendConsistent(x: Indexing, l: Link, capacity: real, isLgLink: bool)
    requires x.Consistent() && l !in x.fabric.links && l.Ends() <= x.fabric.ports.Keys && PodKeyOf(l) in x.pods
    ensures l.agg in x.uplinks && (l.TorAgg? ==> l.tor in x.lists)
    ensures ShiftUplinks(l, x.uplinks, 1).Keys == x.uplinks.Keys && ShiftPod(l, x.pods, capacity).Keys == x.pods.Keys
    ensures WithLink(x, l, capacity, isLgLink).Consistent() <==> WiredBelowFirst(x.fabric, l)
  {
    hide Fabric.WellFormed, Attributes, AggLists, UplinkCounts, TopRates, PodIndex, LgCounts, TopCounts, Seated,
      WiredBelowFirst;
    ExtendWellFormed(x.fabric, x.uplinks.Keys, l, capacity, isLgLink);
    ExtendPaths(x.fabric, x.lists, x.uplinks, l);
    ExtendAttributes(x.fabric, x.disabled, x.rate, x.effectiveRate, x.effectiveCapacity, l, capacity, isLgLink);
    ExtendCounts(x.fabric, x.counts, x.rate, x.rates, l, capacity, isLgLink);
    ExtendPods(x.fabric, x.effectiveCapacity, x.pods, l, capacity, isLgLink);
    assert ShiftUplinks(l, x.uplinks, 1).Keys == x.uplinks.Keys;
  }

  /** Adds a link, enabled and clean, to the graph and to the ports of both ends. */
  method AddEdge(topo: Topology, l: Link, capacity: real, isLgLink: bool)
    requires l.Ends() <= topo.fabric.ports.Keys
    modifies topo`fabric, topo`disabled, topo`lossRate, topo`effectiveLossRate, topo`effectiveCapacity
    ensures topo.fabric == Extend(old(topo.fabric), l, capacity, isLgLink)
    ensures topo.disabled == old(topo.disabled)[l := false]
    ensures topo.lossRate == old(topo.lossRate)[l := INITIAL_LINK_LOSS_RATE]
    ensures topo.effectiveLossRate == old(topo.effectiveLossRate)[l := INITIAL_LINK_LOSS_RATE]
    ensures topo.effectiveCapacity == old(topo.effectiveCapacity)[l := capacity]
  {
    hide Extend;
    topo.fabric := Extend(topo.fabric, l, capacity, isLgLink);
    topo.disabled, topo.lossRate := topo.disabled[l := false], topo.lossRate[l := INITIAL_LINK_LOSS_RATE];
    topo.effectiveLossRate := topo.effectiveLossRate[l := INITIAL_LINK_LOSS_RATE];
    topo.effectiveCapacity := topo.effectiveCapacity[l := capacity];
  }

  /** Enters an edge just added in the path lists, the uplink counters and the capacity of the pod. */
  method AddToIndexes(topo: Topology, l: Link, capacity: real, isLgLink: bool, ghost before: Indexing)
    requires l.Ends() <= before.fabric.ports.Keys && l.agg in before.uplinks && PodKeyOf(l) in before.pods
    requires l.TorAgg? ==> l.tor in before.lists
    requires IndexingOf(topo) ==
               WithLink(before, l, capacity, isLgLink)
                 .(lists := before.lists, uplinks := before.uplinks, pods := before.pods)
    modifies topo`aggSwitches, topo`activeUplinks, topo`perPodCapacity
    ensures IndexingOf(topo) == WithLink(before, l, capacity, isLgLink)
  {
    hide Extend, PodKeyOf, AddToPathLists, ShiftUplinks, ShiftPod, Link.Ends;
    topo.aggSwitches := AddToPathLists(l, topo.aggSwitches);
    topo.activeUplinks := ShiftUplinks(l, topo.activeUplinks, 1);
    topo.perPodCapacity := ShiftPod(l, topo.perPodCapacity, capacity);
  }

  /** Adds a link to the graph and to every index. The affected ToRs of the links already there stay as they are,
      which is right exactly if aggregation switches are wired to their ToRs first. */
  method AddLink(topo: Topology, l: Link, capacity: real, isLgLink: bool)
    requires Growing(topo) && l !in topo.fabric.links && l.Ends() <= topo.fabric.ports.Keys
    requires PodKeyOf(l) in topo.perPodCapacity
    modifies topo
    ensures Growing(topo) <==> WiredBelowFirst(old(topo.fabric), l)
    ensures topo.fabric == Extend(old(topo.fabric), l, capacity, isLgLink)
    ensures topo.perPodCapacity.Keys == old(topo.perPodCapacity.Keys)
    ensures topo.activeUplinks.Keys == old(topo.activeUplinks.Keys)
  {
    hide Indexing.Consistent, Extend, WiredBelowFirst, PodKeyOf, AddToPathLists, ShiftUplinks, ShiftPod, Link.Ends;
    ghost var before := IndexingOf(topo);
    ExtendConsistent(before, l, capacity, isLgLink);
    AddEdge(topo, l, capacity, isLgLink);
    AddToIndexes(topo, l, capacity, isLgLink, before);
  }
}
