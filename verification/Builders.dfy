/** The topology builders: FatTree and FB Fabric. Both wire pods of ToRs and aggregation switches
    completely, and every core switch to the aggregation switch of its plane in every pod. */
module Builders {
  import opened Collections
  import opened Fabrics
  import opened Indexes
  import opened Topologies
  import opened Traversal
  import opened Growth
  import opened Ports

  const MAX_PORTS_PER_PIPE := 16

  // ---------- the finished fabric ----------

  function PodTors(pod: nat, n: nat): set<Tor> {
    set i: nat | i < n :: Tor(pod, i)
  }

  function PodAggs(pod: nat, n: nat): set<Agg> {
    set i: nat | i < n :: Agg(pod, i)
  }

  function Tors(pods: nat, n: nat): set<Tor> {
    set p: nat, i: nat | p < pods && i < n :: Tor(p, i)
  }

  function Aggs(pods: nat, n: nat): set<Agg> {
    set p: nat, i: nat | p < pods && i < n :: Agg(p, i)
  }

  function Cores(planes: nat, n: nat): set<Core> {
    set q: nat, i: nat | q < planes && i < n :: Core(q, i)
  }

  /** Every ToR of `tors` and the first `n` aggregation switches of its pod. */
  function Mesh(tors: set<Tor>, n: nat): set<Link> {
    set t, i: nat | t in tors && i < n :: TorAgg(t, Agg(t.pod, i))
  }

  /** Every core switch of `cores` and the aggregation switch of its plane in the first `pods` pods. */
  function Spine(cores: set<Core>, pods: nat): set<Link> {
    set c, p: nat | c in cores && p < pods :: AggCore(Agg(p, c.plane), c)
  }

  function FabricLinks(pods: nat, torsPerPod: nat, planes: nat, coresPerPlane: nat): set<Link> {
    Mesh(Tors(pods, torsPerPod), planes) + Spine(Cores(planes, coresPerPlane), pods)
  }

  /** `pair` puts the pairs of `s` and `t` in bijection with `r`. */
  ghost predicate Pairs<S, T, U>(s: set<S>, t: set<T>, r: set<U>, pair: (S, T) -> U, first: U -> S, second: U -> T) {
    && (forall x, y :: x in s && y in t ==> pair(x, y) in r && first(pair(x, y)) == x && second(pair(x, y)) == y)
    && forall u :: u in r ==> first(u) in s && second(u) in t && pair(first(u), second(u)) == u
  }

  ghost function Row<S, U>(r: set<U>, first: U -> S, x: S): set<U> {
    set u | u in r && first(u) == x
  }

  lemma RowCardinality<S, T, U>(s: set<S>, t: set<T>, r: set<U>, pair: (S, T) -> U, first: U -> S, second: U -> T, x: S)
    requires Pairs(s, t, r, pair, first, second) && x in s
    ensures Row(r, first, x) <= r && |Row(r, first, x)| == |t|
    ensures Pairs(s - {x}, t, r - Row(r, first, x), pair, first, second)
  {
    var row := Row(r, first, x);
    forall y | y in t
      ensures y in set u | u in row :: second(u)
    {
      assert pair(x, y) in row;
    }
    assert t == set u | u in row :: second(u);
    ImageCardinality(row, t, second);
  }

  lemma OneMoreRow(rows: nat, m: nat)
    ensures (1 + rows) * m == m + rows * m
  {
  }

  lemma {:induction false} PairCardinality<S, T, U>(s: set<S>, t: set<T>, r: set<U>, pair: (S, T) -> U,
                                                    first: U -> S, second: U -> T)
    requires Pairs(s, t, r, pair, first, second)
    ensures |r| == |s| * |t|
  {
    hide Row;
    if s == {} {
      assert r == {};
    } else {
      var x :| x in s;
      var row := Row(r, first, x);
      RowCardinality(s, t, r, pair, first, second, x);
      PairCardinality(s - {x}, t, r - row, pair, first, second);
      SplitCardinality(r, row);
      SplitCardinality(s, {x});
      OneMoreRow(|s - {x}|, |t|);
    }
  }

  function Range(n: nat): (r: set<nat>)
    ensures |r| == n
    ensures forall i: nat :: i in r <==> i < n
  {
    if n == 0 then {} else Range(n - 1) + {n - 1}
  }

  lemma CoresCardinality(planes: nat, n: nat)
    ensures |Cores(planes, n)| == planes * n
  {
    PairCardinality(Range(planes), Range(n), Cores(planes, n), (q: nat, i: nat) => Core(q, i),
                    (c: Core) => c.plane, (c: Core) => c.index);
  }

  lemma MeshCardinality(tors: set<Tor>, n: nat)
    ensures |Mesh(tors, n)| == |tors| * n
  {
    var nowhere := Tor(0, 0);
    PairCardinality(tors, Range(n), Mesh(tors, n), (t: Tor, i: nat) => TorAgg(t, Agg(t.pod, i)),
                    (l: Link) => if l.TorAgg? then l.tor else nowhere, (l: Link) => l.agg.index);
  }

  lemma SpineCardinality(cores: set<Core>, pods: nat)
    ensures |Spine(cores, pods)| == |cores| * pods
  {
    var nowhere := Core(0, 0);
    PairCardinality(cores, Range(pods), Spine(cores, pods), (c: Core, p: nat) => AggCore(Agg(p, c.plane), c),
                    (l: Link) => if l.AggCore? then l.core else nowhere, (l: Link) => l.agg.pod);
  }

  lemma TorsCardinality(pods: nat, n: nat)
    ensures |Tors(pods, n)| == pods * n
  {
    PairCardinality(Range(pods), Range(n), Tors(pods, n), (p: nat, i: nat) => Tor(p, i), (t: Tor) => t.pod,
                    (t: Tor) => t.index);
  }

  /** How many links the finished fabric has. */
  lemma LinksCardinality(pods: nat, torsPerPod: nat, planes: nat, coresPerPlane: nat)
    ensures |FabricLinks(pods, torsPerPod, planes, coresPerPlane)| ==
              pods * (torsPerPod * planes + planes * coresPerPlane)
  {
    hide Tors, Cores;
    var tors, cores := Tors(pods, torsPerPod), Cores(planes, coresPerPlane);
    TorsCardinality(pods, torsPerPod);
    CoresCardinality(planes, coresPerPlane);
    MeshCardinality(tors, planes);
    SpineCardinality(cores, pods);
    assert Mesh(tors, planes) !! Spine(cores, pods);
    assert pods * torsPerPod * planes + planes * coresPerPlane * pods ==
             pods * (torsPerPod * planes + planes * coresPerPlane);
  }

  /** Every ToR has exactly one path to every core switch. */
  lemma PathsOfFinishedFabric(pods: nat, torsPerPod: nat, planes: nat, coresPerPlane: nat, t: Tor)
    requires t in Tors(pods, torsPerPod)
    ensures PathCount(FabricLinks(pods, torsPerPod, planes, coresPerPlane), t) == planes * coresPerPlane
  {
    var cores, links := Cores(planes, coresPerPlane), FabricLinks(pods, torsPerPod, planes, coresPerPlane);
    var via := (c: Core) => AggCore(Agg(t.pod, c.plane), c);
    forall l | l in PathLinks(links, t)
      ensures l.core in cores && l == via(l.core)
    {
    }
    forall c | c in cores
      ensures via(c) in PathLinks(links, t)
    {
      assert TorAgg(t, Agg(t.pod, c.plane)) in Mesh(Tors(pods, torsPerPod), planes);
      assert AggCore(Agg(t.pod, c.plane), c) in Spine(cores, pods);
    }
    assert PathLinks(links, t) == set c | c in cores :: via(c);
    ImageCardinality(cores, PathLinks(links, t), via);
    CoresCardinality(planes, coresPerPlane);
  }

  // ---------- the construction ----------

  /** What has been built so far. */
  datatype Plan = Plan(tors: set<Tor>, aggs: set<Agg>, cores: set<Core>, links: set<Link>, lgLinks: set<Link>,
                       layout: Layout)
  {
    function WithSwitch(s: Switch): Plan {
      match s
      case TorSwitch(t) => this.(tors := tors + {t})
      case AggSwitch(a) => this.(aggs := aggs + {a})
      case CoreSwitch(c) => this.(cores := cores + {c})
    }

    function WithLinks(more: set<Link>, isLgLink: bool): Plan {
      this.(links := links + more, lgLinks := if isLgLink then lgLinks + more else lgLinks)
    }

    predicate Has(s: Switch) {
      match s
      case TorSwitch(t) => t in tors
      case AggSwitch(a) => a in aggs
      case CoreSwitch(c) => c in cores
    }
  }

  /** `topo` is what `plan` says, with capacity entries for exactly the pods below `pods`. */
  ghost predicate Built(topo: Topology, plan: Plan, pods: nat, capacity: real)
    reads topo
  {
    && Growing(topo) && Piped(topo.fabric, plan.layout) && Placed(topo.fabric, plan.layout.torsPerPod)
    && topo.fabric.tors == plan.tors && topo.activeUplinks.Keys == plan.aggs && topo.fabric.cores == plan.cores
    && topo.fabric.links == plan.links && topo.fabric.lgCapable == plan.lgLinks
    && (forall l :: l in plan.links ==> l in topo.fabric.capacity && topo.fabric.capacity[l] == capacity)
    && forall p: nat, kind :: p < pods <==> (p, kind) in topo.perPodCapacity
  }

  lemma BuiltSeats(topo: Topology, plan: Plan, pods: nat, capacity: real)
    requires Built(topo, plan, pods, capacity)
    ensures forall s :: s in topo.fabric.ports <==> plan.Has(s)
    ensures topo.fabric.WellFormed()
  {
  }

  method PlaceSwitch(topo: Topology, s: Switch, pipes: nat, ghost plan: Plan, ghost pods: nat, ghost capacity: real)
    requires Built(topo, plan, pods, capacity) && !plan.Has(s) && pipes == plan.layout.PipesOf(s) > 0
    modifies topo
    ensures Built(topo, plan.WithSwitch(s), pods, capacity)
  {
    hide Growing, Piped, Placed;
    BuiltSeats(topo, plan, pods, capacity);
    NoLinksYet(topo.fabric, s);
    SeatPlaced(topo.fabric, plan.layout, s);
    AddSwitch(topo, s, pipes);
  }

  method PlaceLink(topo: Topology, l: Link, capacity: real, isLgLink: bool, ghost plan: Plan, ghost pods: nat)
    requires Built(topo, plan, pods, capacity) && l !in plan.links && l.agg.pod < pods
    requires forall s :: s in l.Ends() ==> plan.Has(s)
    requires l.TorAgg? ==> forall x :: x in plan.links && x.AggCore? ==> x.agg != l.agg
    requires Next(plan.links, plan.layout.torsPerPod, l)
    modifies topo
    ensures Built(topo, plan.WithLinks({l}, isLgLink), pods, capacity)
  {
    hide Growing, Piped, Placed, Next;
    BuiltSeats(topo, plan, pods, capacity);
    LinkPlaced(topo.fabric, plan.layout, l, capacity, isLgLink);
    AddLink(topo, l, capacity, isLgLink);
  }

  lemma NewPodIndex(f: Fabric, capacity: map<Link, real>, pods: map<PodKey, real>, pod: nat)
    requires PodIndex(f, f.links, capacity, pods) && forall l :: l in f.links ==> l.agg.pod < pod
    ensures PodIndex(f, f.links, capacity, pods[(pod, TorToAgg) := 0.0][(pod, AggToCore) := 0.0])
  {
    assert PodLinks(f.links, (pod, TorToAgg)) == {} && PodLinks(f.links, (pod, AggToCore)) == {};
  }

  /** The capacity entries of a pod that has no links yet. */
  method AddPodCapacity(topo: Topology, pod: nat, ghost plan: Plan, ghost capacity: real)
    requires Built(topo, plan, pod, capacity) && forall l :: l in plan.links ==> l.agg.pod < pod
    modifies topo
    ensures Built(topo, plan, pod + 1, capacity)
  {
    hide Fabric.WellFormed, Attributes, AggLists, UplinkCounts, TopRates, PodIndex, LgCounts, TopCounts, Seated;
    assert topo.fabric.links == plan.links;
    NewPodIndex(topo.fabric, topo.effectiveCapacity, topo.perPodCapacity, pod);
    topo.perPodCapacity := topo.perPodCapacity[(pod, TorToAgg) := 0.0][(pod, AggToCore) := 0.0];
    assert Growing(topo);
    forall p: nat, kind
      ensures p < pod + 1 <==> (p, kind) in topo.perPodCapacity
    {
      assert kind == TorToAgg || kind == AggToCore;
    }
  }

  method AddTors(topo: Topology, pod: nat, n: nat, pipes: nat, ghost plan: Plan, ghost capacity: real)
    requires Built(topo, plan, pod + 1, capacity) && plan.tors !! PodTors(pod, n)
    requires pipes == plan.layout.torPipes > 0
    modifies topo
    ensures Built(topo, plan.(tors := plan.tors + PodTors(pod, n)), pod + 1, capacity)
  {
    hide Built;
    assert plan.(tors := plan.tors + PodTors(pod, 0)) == plan;
    for i := 0 to n
      invariant Built(topo, plan.(tors := plan.tors + PodTors(pod, i)), pod + 1, capacity)
    {
      ghost var curr := plan.(tors := plan.tors + PodTors(pod, i));
      assert Tor(pod, i) in PodTors(pod, n);
      PlaceSwitch(topo, TorSwitch(Tor(pod, i)), pipes, curr, pod + 1, capacity);
      assert curr.WithSwitch(TorSwitch(Tor(pod, i))) == plan.(tors := plan.tors + PodTors(pod, i + 1));
    }
  }

  method AddAggs(topo: Topology, pod: nat, n: nat, pipes: nat, ghost plan: Plan, ghost capacity: real)
    requires Built(topo, plan, pod + 1, capacity) && plan.aggs !! PodAggs(pod, n)
    requires pipes == plan.layout.aggPipes > 0
    modifies topo
    ensures Built(topo, plan.(aggs := plan.aggs + PodAggs(pod, n)), pod + 1, capacity)
  {
    hide Built;
    assert plan.(aggs := plan.aggs + PodAggs(pod, 0)) == plan;
    for i := 0 to n
      invariant Built(topo, plan.(aggs := plan.aggs + PodAggs(pod, i)), pod + 1, capacity)
    {
      ghost var curr := plan.(aggs := plan.aggs + PodAggs(pod, i));
      assert Agg(pod, i) in PodAggs(pod, n);
      PlaceSwitch(topo, AggSwitch(Agg(pod, i)), pipes, curr, pod + 1, capacity);
      assert curr.WithSwitch(AggSwitch(Agg(pod, i))) == plan.(aggs := plan.aggs + PodAggs(pod, i + 1));
    }
  }

  lemma MeshOfOne(t: Tor, i: nat)
    ensures |Mesh({t}, i)| == i
    ensures forall l :: l in Mesh({t}, i) ==> l.TorAgg? && l.tor == t && l.agg.index < i
  {
    MeshCardinality({t}, i);
  }

  /** The ports in use while `t` is connected to its aggregation switches. */
  lemma TorSlot(links: set<Link>, t: Tor, i: nat)
    requires forall l :: l in links ==> l.TorAgg? && l.tor != t
    ensures |LinksAt(links + Mesh({t}, i), TorSwitch(t))| == i
    ensures LinksAt(links + Mesh({t}, i), AggSwitch(Agg(t.pod, i))) == LinksAt(links, AggSwitch(Agg(t.pod, i)))
  {
    hide LinksAt, Mesh;
    var mesh := Mesh({t}, i);
    MeshOfOne(t, i);
    LinksOnlyAt(links, mesh, TorSwitch(t));
    LinksElsewhere(links, mesh, AggSwitch(Agg(t.pod, i)));
  }

  /** The ports of an aggregation switch in use when the first `i` ToRs of its pod are connected. */
  lemma AggSlot(links: set<Link>, pod: nat, i: nat, planes: nat, j: nat)
    requires (forall l :: l in links ==> l.TorAgg? && l.agg.pod != pod) && j < planes
    ensures |LinksAt(links + Mesh(PodTors(pod, i), planes), AggSwitch(Agg(pod, j)))| == i
  {
    var here := LinksAt(links + Mesh(PodTors(pod, i), planes), AggSwitch(Agg(pod, j)));
    var link := (x: nat) => TorAgg(Tor(pod, x), Agg(pod, j));
    forall l
      ensures l in here <==> l in set x | x in Range(i) :: link(x)
    {
      if l in here {
        assert l == link(l.tor.index);
      }
      if x :| x in Range(i) && l == link(x) {
        assert Tor(pod, x) in PodTors(pod, i);
      }
    }
    ImageCardinality(Range(i), here, link);
  }

  /** Connects one ToR to the first `n` aggregation switches of its pod. */
  method MeshTor(topo: Topology, t: Tor, n: nat, capacity: real, isLgLink: bool, ghost plan: Plan)
    requires Built(topo, plan, t.pod + 1, capacity) && t in plan.tors && PodAggs(t.pod, n) <= plan.aggs
    requires forall l :: l in plan.links ==> l.TorAgg? && l.tor != t
    requires forall i: nat :: i < n ==> |LinksAt(plan.links, AggSwitch(Agg(t.pod, i)))| == t.index
    modifies topo
    ensures Built(topo, plan.WithLinks(Mesh({t}, n), isLgLink), t.pod + 1, capacity)
  {
    hide Built;
    assert plan.WithLinks(Mesh({t}, 0), isLgLink) == plan;
    for i := 0 to n
      invariant Built(topo, plan.WithLinks(Mesh({t}, i), isLgLink), t.pod + 1, capacity)
    {
      ghost var curr := plan.WithLinks(Mesh({t}, i), isLgLink);
      var l := TorAgg(t, Agg(t.pod, i));
      assert l.agg in PodAggs(t.pod, n);
      TorSlot(plan.links, t, i);
      PlaceLink(topo, l, capacity, isLgLink, curr, t.pod + 1);
      assert Mesh({t}, i + 1) == Mesh({t}, i) + {l};
      assert curr.WithLinks({l}, isLgLink) == plan.WithLinks(Mesh({t}, i + 1), isLgLink);
    }
  }

  /** Connects every ToR of a pod to every aggregation switch. */
  method MeshPod(topo: Topology, pod: nat, n: nat, planes: nat, capacity: real, isLgLink: bool, ghost plan: Plan)
    requires Built(topo, plan, pod + 1, capacity) && PodTors(pod, n) <= plan.tors && PodAggs(pod, planes) <= plan.aggs
    requires forall l :: l in plan.links ==> l.TorAgg? && l.tor.pod != pod && l.agg.pod != pod
    modifies topo
    ensures Built(topo, plan.WithLinks(Mesh(PodTors(pod, n), planes), isLgLink), pod + 1, capacity)
  {
    hide Built;
    assert plan.WithLinks(Mesh(PodTors(pod, 0), planes), isLgLink) == plan;
    for i := 0 to n
      invariant Built(topo, plan.WithLinks(Mesh(PodTors(pod, i), planes), isLgLink), pod + 1, capacity)
    {
      ghost var curr := plan.WithLinks(Mesh(PodTors(pod, i), planes), isLgLink);
      var t := Tor(pod, i);
      assert t in PodTors(pod, n);
      forall j: nat | j < planes
        ensures |LinksAt(curr.links, AggSwitch(Agg(pod, j)))| == i
      {
        AggSlot(plan.links, pod, i, planes, j);
      }
      MeshTor(topo, t, planes, capacity, isLgLink, curr);
      assert Mesh(PodTors(pod, i + 1), planes) == Mesh(PodTors(pod, i), planes) + Mesh({t}, planes);
      assert curr.WithLinks(Mesh({t}, planes), isLgLink) == plan.WithLinks(Mesh(PodTors(pod, i + 1), planes), isLgLink);
    }
  }

  /** The links of the pods in `lgPods`. */
  function InPods(links: set<Link>, lgPods: set<nat>): set<Link> {
    set l | l in links && l.agg.pod in lgPods
  }

  /** The first `pods` pods, without core switches. */
  function PodsPlan(pods: nat, planes: nat, lgPods: set<nat>, layout: Layout): Plan {
    var tors := Tors(pods, layout.torsPerPod);
    var links := Mesh(tors, planes);
    Plan(tors, Aggs(pods, planes), {}, links, InPods(links, lgPods), layout)
  }

  lemma PodsPlanStep(pod: nat, torsPerPod: nat, planes: nat, lgPods: set<nat>, layout: Layout)
    requires layout.torsPerPod == torsPerPod
    ensures var p := PodsPlan(pod, planes, lgPods, layout);
            p.(tors := p.tors + PodTors(pod, torsPerPod)).(aggs := p.aggs + PodAggs(pod, planes))
              .WithLinks(Mesh(PodTors(pod, torsPerPod), planes), pod in lgPods) ==
                PodsPlan(pod + 1, planes, lgPods, layout)
  {
    var tors := PodTors(pod, torsPerPod);
    assert Tors(pod + 1, torsPerPod) == Tors(pod, torsPerPod) + tors;
    assert Aggs(pod + 1, planes) == Aggs(pod, planes) + PodAggs(pod, planes);
    var links, more := Mesh(Tors(pod, torsPerPod), planes), Mesh(tors, planes);
    assert Mesh(Tors(pod + 1, torsPerPod), planes) == links + more;
    assert InPods(links + more, lgPods) ==
             if pod in lgPods then InPods(links, lgPods) + more else InPods(links, lgPods);
  }

  lemma NothingBuilt(topo: Topology, planes: nat, lgPods: set<nat>, capacity: real, layout: Layout)
    requires topo.fabric == Fabric({}, {}, {}, map[], {}, map[], map[], map[]) && topo.activeUplinks == map[]
    requires topo.perPodCapacity == map[]
    requires topo.Indexed() && topo.disabledLinks == topo.corruptingLinks == topo.lgEnabled == {}
    ensures Built(topo, PodsPlan(0, planes, lgPods, layout), 0, capacity)
  {
    assert LgPorts({}) == {};
    assert topo.Up() == {};
    assert PodsPlan(0, planes, lgPods, layout) == Plan({}, {}, {}, {}, {}, layout);
  }

  method BuildPods(topo: Topology, pods: nat, torsPerPod: nat, planes: nat, torPipes: nat, aggPipes: nat,
                   capacity: real, lgPods: set<nat>, ghost layout: Layout)
    requires Built(topo, PodsPlan(0, planes, lgPods, layout), 0, capacity) && layout.torsPerPod == torsPerPod
    requires torPipes == layout.torPipes > 0 && aggPipes == layout.aggPipes > 0
    modifies topo
    ensures Built(topo, PodsPlan(pods, planes, lgPods, layout), pods, capacity)
  {
    hide Built;
    for pod := 0 to pods
      invariant Built(topo, PodsPlan(pod, planes, lgPods, layout), pod, capacity)
    {
      ghost var plan := PodsPlan(pod, planes, lgPods, layout);
      AddPodCapacity(topo, pod, plan, capacity);
      AddTors(topo, pod, torsPerPod, torPipes, plan, capacity);
      plan := plan.(tors := plan.tors + PodTors(pod, torsPerPod));
      AddAggs(topo, pod, planes, aggPipes, plan, capacity);
      plan := plan.(aggs := plan.aggs + PodAggs(pod, planes));
      MeshPod(topo, pod, torsPerPod, planes, capacity, pod in lgPods, plan);
      PodsPlanStep(pod, torsPerPod, planes, lgPods, layout);
    }
  }

  /** The core switch number `idx` belongs to stride, or plane, `idx / n`. */
  function CoreAt(idx: nat, n: nat): Core
    requires n > 0
  {
    Core(idx / n, idx % n)
  }

  function FirstCores(m: nat, n: nat): set<Core>
    requires n > 0
  {
    set i: nat | i < m :: CoreAt(i, n)
  }

  lemma CoreAtInjective(i: nat, j: nat, n: nat)
    requires n > 0 && CoreAt(i, n) == CoreAt(j, n)
    ensures i == j
  {
    assert i == i / n * n + i % n && j == j / n * n + j % n;
  }

  lemma CoreAtPlane(i: nat, planes: nat, n: nat)
    requires n > 0 && i < planes * n
    ensures CoreAt(i, n).plane < planes && CoreAt(i, n).index < n
  {
    if i / n >= planes {
      assert i / n * n >= planes * n;
    }
  }

  lemma FirstCoresStep(i: nat, n: nat)
    requires n > 0
    ensures FirstCores(i + 1, n) == FirstCores(i, n) + {CoreAt(i, n)} && CoreAt(i, n) !in FirstCores(i, n)
  {
    forall j: nat | j < i
      ensures CoreAt(j, n) != CoreAt(i, n)
    {
      if CoreAt(j, n) == CoreAt(i, n) {
        CoreAtInjective(i, j, n);
      }
    }
  }

  lemma {:induction false} FirstCoresCardinality(m: nat, n: nat)
    requires n > 0
    ensures |FirstCores(m, n)| == m
  {
    if m == 0 {
      assert FirstCores(0, n) == {};
    } else {
      FirstCoresCardinality(m - 1, n);
      FirstCoresStep(m - 1, n);
    }
  }

  /** Numbering the core switches stride by stride reaches all of them. */
  lemma AllCores(planes: nat, n: nat)
    requires n > 0
    ensures FirstCores(planes * n, n) == Cores(planes, n)
  {
    forall i: nat | i < planes * n
      ensures CoreAt(i, n) in Cores(planes, n)
    {
      CoreAtPlane(i, planes, n);
    }
    FirstCoresCardinality(planes * n, n);
    CoresCardinality(planes, n);
    SubsetCardinality(FirstCores(planes * n, n), Cores(planes, n));
  }

  method AddCores(topo: Topology, planes: nat, n: nat, pipes: nat, ghost plan: Plan, ghost pods: nat,
                  ghost capacity: real)
    requires Built(topo, plan, pods, capacity) && plan.cores == {} && n > 0
    requires pipes == plan.layout.corePipes > 0
    modifies topo
    ensures Built(topo, plan.(cores := Cores(planes, n)), pods, capacity)
  {
    hide Built, CoreAt, FirstCores;
    FirstCoresCardinality(0, n);
    assert plan.(cores := FirstCores(0, n)) == plan;
    for i := 0 to planes * n
      invariant Built(topo, plan.(cores := FirstCores(i, n)), pods, capacity)
    {
      ghost var curr := plan.(cores := FirstCores(i, n));
      FirstCoresStep(i, n);
      PlaceSwitch(topo, CoreSwitch(CoreAt(i, n)), pipes, curr, pods, capacity);
      assert curr.WithSwitch(CoreSwitch(CoreAt(i, n))) == plan.(cores := FirstCores(i + 1, n));
    }
    AllCores(planes, n);
  }

  /** The ports in use while `c` is connected to the pods. */
  lemma CoreSlot(links: set<Link>, c: Core, p: nat)
    requires forall l :: l in links && l.AggCore? ==> l.core != c
    ensures |LinksAt(links + Spine({c}, p), CoreSwitch(c))| == p
    ensures LinksAt(links + Spine({c}, p), AggSwitch(Agg(p, c.plane))) == LinksAt(links, AggSwitch(Agg(p, c.plane)))
  {
    hide LinksAt;
    var spine := Spine({c}, p);
    SpineCardinality({c}, p);
    assert forall l :: l in spine ==> l.AggCore? && l.core == c && l.agg.pod < p;
    LinksOnlyAt(links, spine, CoreSwitch(c));
    LinksElsewhere(links, spine, AggSwitch(Agg(p, c.plane)));
  }

  lemma Grows(k: int, n: int)
    requires k >= 1 && n > 0
    ensures k * n >= n
  {
  }

  lemma SmallMultiple(k: int, n: int)
    requires -n < k * n < n
    ensures k == 0
  {
    if k >= 1 {
      Grows(k, n);
    } else if k <= -1 {
      Grows(-k, n);
    }
  }

  lemma DivideExactly(a: nat, n: nat, q: nat, x: nat)
    requires a == q * n + x && x < n
    ensures a / n == q && a % n == x
  {
    var d, r := a / n, a % n;
    assert a == d * n + r;
    assert (q - d) * n == q * n - d * n;
    SmallMultiple(q - d, n);
  }

  lemma SamePlane(j: nat, i: nat, n: nat)
    requires n > 0 && j < i && j / n == i / n
    ensures j % n < i % n
  {
    var m := i / n * n;
    assert i == m + i % n && j == m + j % n;
  }

  /** The core switches of the plane of number `i` among the first `i`. */
  lemma FirstCoresOfPlane(i: nat, n: nat, x: nat)
    requires n > 0
    ensures Core(i / n, x) in FirstCores(i, n) <==> x < i % n
  {
    if Core(i / n, x) in FirstCores(i, n) {
      var j: nat :| j < i && CoreAt(j, n) == Core(i / n, x);
      SamePlane(j, i, n);
    }
    if x < i % n {
      var j := i - i % n + x;
      DivideExactly(j, n, i / n, x);
      assert CoreAt(j, n) == Core(i / n, x);
    }
  }

  lemma LowerSlots(pods: nat, torsPerPod: nat, planes: nat, a: Agg)
    requires a.pod < pods && a.index < planes
    ensures |LinksAt(Mesh(Tors(pods, torsPerPod), planes), AggSwitch(a))| == torsPerPod
  {
    var lower := LinksAt(Mesh(Tors(pods, torsPerPod), planes), AggSwitch(a));
    var link := (x: nat) => TorAgg(Tor(a.pod, x), a);
    forall l
      ensures l in lower <==> l in set x | x in Range(torsPerPod) :: link(x)
    {
      if l in lower {
        assert l == link(l.tor.index);
      }
      if x :| x in Range(torsPerPod) && l == link(x) {
        assert Tor(a.pod, x) in Tors(pods, torsPerPod);
      }
    }
    ImageCardinality(Range(torsPerPod), lower, link);
  }

  lemma UpperSlots(pods: nat, n: nat, i: nat, a: Agg)
    requires n > 0 && a.pod < pods && a.index == i / n
    ensures |Uplinks(Spine(FirstCores(i, n), pods), a)| == i % n
  {
    hide CoreAt, FirstCores;
    var upper := Uplinks(Spine(FirstCores(i, n), pods), a);
    var link := (x: nat) => AggCore(a, Core(i / n, x));
    forall l
      ensures l in upper <==> l in set x | x in Range(i % n) :: link(x)
    {
      if l.AggCore? {
        FirstCoresOfPlane(i, n, l.core.index);
      }
      if l in upper {
        assert l == link(l.core.index);
      }
    }
    ImageCardinality(Range(i % n), upper, link);
  }

  lemma LinksAtAgg(lower: set<Link>, upper: set<Link>, a: Agg)
    requires (forall l :: l in lower ==> l.TorAgg?) && forall l :: l in upper ==> l.AggCore?
    ensures |LinksAt(lower + upper, AggSwitch(a))| == |LinksAt(lower, AggSwitch(a))| + |Uplinks(upper, a)|
  {
    assert LinksAt(lower + upper, AggSwitch(a)) == LinksAt(lower, AggSwitch(a)) + Uplinks(upper, a);
  }

  /** The ports of an aggregation switch in use when core switch number `i` comes next on its plane. */
  lemma UplinkSlot(pods: nat, torsPerPod: nat, planes: nat, n: nat, i: nat, p: nat)
    requires n > 0 && p < pods && CoreAt(i, n).plane < planes
    ensures var links := Mesh(Tors(pods, torsPerPod), planes) + Spine(FirstCores(i, n), pods);
            |LinksAt(links, AggSwitch(Agg(p, CoreAt(i, n).plane)))| == torsPerPod + CoreAt(i, n).index
  {
    hide FirstCores, LinksAt, Tors;
    var a := Agg(p, i / n);
    LowerSlots(pods, torsPerPod, planes, a);
    UpperSlots(pods, n, i, a);
    LinksAtAgg(Mesh(Tors(pods, torsPerPod), planes), Spine(FirstCores(i, n), pods), a);
  }

  /** Connects one core switch to the aggregation switch of its plane in every pod. */
  method ConnectCore(topo: Topology, c: Core, pods: nat, capacity: real, isLgLink: bool, ghost plan: Plan)
    requires Built(topo, plan, pods, capacity) && c in plan.cores
    requires forall p: nat :: p < pods ==> Agg(p, c.plane) in plan.aggs
    requires forall l :: l in plan.links && l.AggCore? ==> l.core != c
    requires forall p: nat :: p < pods ==>
               |LinksAt(plan.links, AggSwitch(Agg(p, c.plane)))| == plan.layout.torsPerPod + c.index
    modifies topo
    ensures Built(topo, plan.WithLinks(Spine({c}, pods), isLgLink), pods, capacity)
  {
    hide Built;
    assert plan.WithLinks(Spine({c}, 0), isLgLink) == plan;
    for p := 0 to pods
      invariant Built(topo, plan.WithLinks(Spine({c}, p), isLgLink), pods, capacity)
    {
      ghost var curr := plan.WithLinks(Spine({c}, p), isLgLink);
      var l := AggCore(Agg(p, c.plane), c);
      CoreSlot(plan.links, c, p);
      PlaceLink(topo, l, capacity, isLgLink, curr, pods);
      assert Spine({c}, p + 1) == Spine({c}, p) + {l};
      assert curr.WithLinks({l}, isLgLink) == plan.WithLinks(Spine({c}, p + 1), isLgLink);
    }
  }

  method ConnectCores(topo: Topology, planes: nat, n: nat, pods: nat, capacity: real, isLgLink: bool, ghost plan: Plan)
    requires Built(topo, plan, pods, capacity) && n > 0
    requires plan.cores == Cores(planes, n) && plan.aggs == Aggs(pods, planes)
    requires plan.links == Mesh(Tors(pods, plan.layout.torsPerPod), planes)
    modifies topo
    ensures Built(topo, plan.WithLinks(Spine(Cores(planes, n), pods), isLgLink), pods, capacity)
  {
    hide Built, CoreAt, FirstCores;
    FirstCoresCardinality(0, n);
    assert plan.WithLinks(Spine(FirstCores(0, n), pods), isLgLink) == plan;
    for i := 0 to planes * n
      invariant Built(topo, plan.WithLinks(Spine(FirstCores(i, n), pods), isLgLink), pods, capacity)
    {
      ghost var curr := plan.WithLinks(Spine(FirstCores(i, n), pods), isLgLink);
      var c := CoreAt(i, n);
      FirstCoresStep(i, n);
      CoreAtPlane(i, planes, n);
      forall p: nat | p < pods
        ensures |LinksAt(curr.links, AggSwitch(Agg(p, c.plane)))| == plan.layout.torsPerPod + c.index
      {
        UplinkSlot(pods, plan.layout.torsPerPod, planes, n, i, p);
      }
      ConnectCore(topo, c, pods, capacity, isLgLink, curr);
      assert Spine(FirstCores(i + 1, n), pods) == Spine(FirstCores(i, n), pods) + Spine({c}, pods);
      assert curr.WithLinks(Spine({c}, pods), isLgLink) == plan.WithLinks(Spine(FirstCores(i + 1, n), pods), isLgLink);
    }
    AllCores(planes, n);
  }

  /** Populates the cached path counts by traversal. */
  method PopulatePathCounts(topo: Topology)
    requires topo.Indexed()
    modifies topo`numPathsToCore
    ensures PathCache(topo.fabric, topo.Up(), topo.numPathsToCore, topo.fabric.tors)
  {
    hide Attributes, AggLists, UplinkCounts, TopRates, PodIndex, LgCounts, TopCounts, PathCount;
    topo.Flags();
    var todo := topo.fabric.tors;
    topo.numPathsToCore := map t | t in todo :: 0;
    while todo != {}
      invariant todo <= topo.fabric.tors
      invariant PathCache(topo.fabric, topo.Up(), topo.numPathsToCore, topo.fabric.tors - todo)
    {
      var t :| t in todo;
      var n := CountPathsByTraversal(topo, t);
      topo.numPathsToCore := topo.numPathsToCore[t := n];
      todo := todo - {t};
    }
    assert topo.fabric.tors - {} == topo.fabric.tors;
  }

  /** On an untouched topology both totals are right exactly when the announced number of links is. */
  lemma InitialTotals(topo: Topology, numLinks: real)
    requires Growing(topo)
    ensures LossTotals(topo.fabric.links, topo.lossRate, numLinks * INITIAL_LINK_LOSS_RATE) <==>
              numLinks == |topo.fabric.links| as real
    ensures LossTotals(topo.fabric.links, topo.effectiveLossRate, numLinks * INITIAL_LINK_LOSS_RATE) <==>
              numLinks == |topo.fabric.links| as real
  {
    hide Fabric.WellFormed, AggLists, UplinkCounts, TopRates, PodIndex, LgCounts, TopCounts, Seated;
    SumConstant(topo.fabric.links, topo.lossRate, INITIAL_LINK_LOSS_RATE);
    SumConstant(topo.fabric.links, topo.effectiveLossRate, INITIAL_LINK_LOSS_RATE);
  }

  /** The path counts and metrics a builder sets at the end. */
  method Initialize(topo: Topology, numLinks: real, ghost plan: Plan, ghost pods: nat, ghost capacity: real)
    requires Built(topo, plan, pods, capacity)
    modifies topo`numPathsToCore, topo`totalLossRate, topo`totalEffectiveLossRate
    ensures Built(topo, plan, pods, capacity)
    ensures topo.totalLossRate == topo.totalEffectiveLossRate == numLinks * INITIAL_LINK_LOSS_RATE
    ensures PathCache(topo.fabric, topo.Up(), topo.numPathsToCore, topo.fabric.tors)
    ensures topo.Valid() <==> numLinks == |topo.fabric.links| as real
  {
    hide Indexing.Consistent, PathCache, LossTotals, Fabric.WellFormed, Attributes, AggLists, UplinkCounts, TopRates,
      PodIndex, LgCounts, TopCounts;
    GrowingIndexed(topo);
    PopulatePathCounts(topo);
    topo.totalLossRate := numLinks * INITIAL_LINK_LOSS_RATE;
    topo.totalEffectiveLossRate := topo.totalLossRate;
    GrowingIndexed(topo);
    InitialTotals(topo, numLinks);
  }

  // ---------- the builders ----------

  /** What both builders promise: the finished fabric, untouched, with `coresPerPlane` core switches on each
      of `planes` planes, and the cached path counts of all ToRs. */
  ghost predicate Finished(topo: Topology, pods: nat, torsPerPod: nat, planes: nat, coresPerPlane: nat, capacity: real)
    reads topo
  {
    && topo.Indexed() && topo.disabledLinks == {} && topo.corruptingLinks == {} && topo.lgEnabled == {}
    && topo.fabric.tors == Tors(pods, torsPerPod) && topo.fabric.cores == Cores(planes, coresPerPlane)
    && topo.activeUplinks.Keys == Aggs(pods, planes)
    && (forall p: nat, kind :: p < pods <==> (p, kind) in topo.perPodCapacity)
    && topo.fabric.links == FabricLinks(pods, torsPerPod, planes, coresPerPlane)
    && (forall l :: l in topo.fabric.links ==> topo.fabric.capacity[l] == capacity)
    && topo.numPathsToCore.Keys == topo.fabric.tors
    && forall t :: t in topo.fabric.tors ==>
         topo.numPathsToCore[t] == PathCount(topo.fabric.links, t) == planes * coresPerPlane
  }

  ghost function FinalPlan(pods: nat, planes: nat, coresPerPlane: nat, lgPods: set<nat>,
                           lgCore: bool, layout: Layout): Plan {
    PodsPlan(pods, planes, lgPods, layout).(cores := Cores(planes, coresPerPlane))
      .WithLinks(Spine(Cores(planes, coresPerPlane), pods), lgCore)
  }

  lemma BuiltIsFinished(topo: Topology, pods: nat, torsPerPod: nat, planes: nat, coresPerPlane: nat, capacity: real,
                        lgPods: set<nat>, lgCore: bool, layout: Layout)
    requires Built(topo, FinalPlan(pods, planes, coresPerPlane, lgPods, lgCore, layout), pods, capacity)
    requires layout.torsPerPod == torsPerPod
    requires PathCache(topo.fabric, topo.Up(), topo.numPathsToCore, topo.fabric.tors)
    ensures Finished(topo, pods, torsPerPod, planes, coresPerPlane, capacity)
    ensures Piped(topo.fabric, layout) && Placed(topo.fabric, torsPerPod)
    ensures topo.fabric.links == FabricLinks(pods, torsPerPod, planes, coresPerPlane)
    ensures forall l :: l in topo.fabric.links ==>
              (l in topo.fabric.lgCapable <==> if l.TorAgg? then l.agg.pod in lgPods else lgCore)
  {
    hide Indexing.Consistent, Fabric.WellFormed, Attributes, AggLists, UplinkCounts, TopRates, PodIndex, LgCounts,
      TopCounts, Tors, Aggs, Cores, Piped, Placed;
    GrowingIndexed(topo);
    forall t | t in topo.fabric.tors
      ensures PathCount(topo.fabric.links, t) == planes * coresPerPlane
    {
      PathsOfFinishedFabric(pods, torsPerPod, planes, coresPerPlane, t);
    }
  }

  method BuildFabric(pods: nat, torsPerPod: nat, planes: nat, coresPerPlane: nat, torPipes: nat, aggPipes: nat,
                     corePipes: nat, capacity: real, lgPods: set<nat>, lgCore: bool, numLinks: real)
    returns (topo: Topology)
    requires coresPerPlane > 0 && torPipes > 0 && aggPipes > 0 && corePipes > 0
    ensures fresh(topo) && Finished(topo, pods, torsPerPod, planes, coresPerPlane, capacity)
    ensures var layout := Layout(torPipes, aggPipes, corePipes, torsPerPod);
            Piped(topo.fabric, layout) && Placed(topo.fabric, torsPerPod)
    ensures forall l :: l in topo.fabric.links ==>
              (l in topo.fabric.lgCapable <==> if l.TorAgg? then l.agg.pod in lgPods else lgCore)
    ensures topo.totalLossRate == topo.totalEffectiveLossRate == numLinks * INITIAL_LINK_LOSS_RATE
    ensures topo.Valid() <==> numLinks == |FabricLinks(pods, torsPerPod, planes, coresPerPlane)| as real
  {
    hide Built, Finished, PathCache, Topology.Indexed, Topology.Valid, Piped, Placed;
    topo := new Topology();
    ghost var layout := Layout(torPipes, aggPipes, corePipes, torsPerPod);
    NothingBuilt(topo, planes, lgPods, capacity, layout);
    ghost var plan := PodsPlan(pods, planes, lgPods, layout);
    BuildPods(topo, pods, torsPerPod, planes, torPipes, aggPipes, capacity, lgPods, layout);
    AddCores(topo, planes, coresPerPlane, corePipes, plan, pods, capacity);
    plan := plan.(cores := Cores(planes, coresPerPlane));
    ConnectCores(topo, planes, coresPerPlane, pods, capacity, lgCore, plan);
    plan := FinalPlan(pods, planes, coresPerPlane, lgPods, lgCore, layout);
    Initialize(topo, numLinks, plan, pods, capacity);
    BuiltIsFinished(topo, pods, torsPerPod, planes, coresPerPlane, capacity, lgPods, lgCore, layout);
  }

  /** The ports fit on the pipes, and would not fit on one less. */
  ghost predicate Fit(numLinks: nat, pipes: int) {
    MAX_PORTS_PER_PIPE * (pipes - 1) < numLinks <= MAX_PORTS_PER_PIPE * pipes
  }

  /** ceil(numLinks / MAX_PORTS_PER_PIPE) as the code computes it. */
  function PipesFor(numLinks: nat): (pipes: nat)
    ensures Fit(numLinks, pipes)
  {
    numLinks / MAX_PORTS_PER_PIPE + (if numLinks % MAX_PORTS_PER_PIPE != 0 then 1 else 0)
  }

  /** The number of links the FatTree builder announces: half the cube of `k`, not rounded. */
  function FatTreeNumLinks(k: nat): real {
    (k * k * k) as real / 2.0
  }

  lemma EvenCube(h: nat)
    ensures (2 * h) * (2 * h) * (2 * h) == 2 * (2 * h * (h * h + h * h))
  {
  }

  lemma OddCube(h: nat)
    ensures var k := 2 * h + 1; k * k * k == 2 * (k * (h * h + h * h)) + k * (2 * k - 1)
  {
    var k := 2 * h + 1;
    assert k * k == 2 * (h * h + h * h) + (2 * k - 1);
    assert k * k * k == k * (2 * (h * h + h * h)) + k * (2 * k - 1);
  }

  lemma EvenFatTree(h: nat)
    ensures FatTreeNumLinks(2 * h) == |FabricLinks(2 * h, h, h, h)| as real
  {
    hide FabricLinks;
    LinksCardinality(2 * h, h, h, h);
    EvenCube(h);
  }

  lemma OddFatTree(h: nat)
    ensures var k := 2 * h + 1;
            FatTreeNumLinks(k) == |FabricLinks(k, h, h, h)| as real + (k * (2 * k - 1)) as real / 2.0
  {
    hide FabricLinks;
    LinksCardinality(2 * h + 1, h, h, h);
    OddCube(h);
  }

  /** The announced number of links is the number of links that get built exactly for even `k`;
      for odd `k` it is too large by k * (2k - 1) / 2. */
  lemma FatTreeNumLinksRight(k: nat)
    ensures FatTreeNumLinks(k) == |FabricLinks(k, k / 2, k / 2, k / 2)| as real <==> k % 2 == 0
    ensures k % 2 == 1 ==>
              FatTreeNumLinks(k) == |FabricLinks(k, k / 2, k / 2, k / 2)| as real + (k * (2 * k - 1)) as real / 2.0
  {
    hide FabricLinks, FatTreeNumLinks;
    var h := k / 2;
    if k % 2 == 0 {
      assert k == 2 * h;
      EvenFatTree(h);
    } else {
      assert k == 2 * h + 1;
      OddFatTree(h);
      assert k * (2 * k - 1) > 0;
    }
  }

  /** Three ports per switch: 6 links are built and 13.5 are announced. */
  lemma ThreePortFatTree()
    ensures |FabricLinks(3, 1, 1, 1)| == 6 && FatTreeNumLinks(3) == 13.5
  {
    LinksCardinality(3, 1, 1, 1);
  }

  lemma LgEverywhere(topo: Topology, pods: nat, torsPerPod: nat, planes: nat, coresPerPlane: nat, capacity: real)
    requires Finished(topo, pods, torsPerPod, planes, coresPerPlane, capacity)
    requires forall l :: l in topo.fabric.links ==>
               (l in topo.fabric.lgCapable <==> if l.TorAgg? then l.agg.pod in Range(pods) else true)
    ensures topo.fabric.lgCapable == topo.fabric.links
  {
  }

  /** build_topo_fattree; with fewer than two ports per switch there is no ToR and the builder raises. */
  method BuildFatTree(k: nat, capacity: real) returns (topo: Topology)
    requires k >= 2
    ensures fresh(topo) && Finished(topo, k, k / 2, k / 2, k / 2, capacity)
    ensures topo.fabric.lgCapable == topo.fabric.links && Placed(topo.fabric, k / 2)
    ensures forall s :: s in topo.fabric.pipes ==> Fit(k, topo.fabric.pipes[s])
    ensures topo.totalLossRate == topo.totalEffectiveLossRate == FatTreeNumLinks(k) * INITIAL_LINK_LOSS_RATE
    ensures topo.Valid() <==> k % 2 == 0
  {
    hide Topology.Valid, Topology.Indexed, Finished, FabricLinks, Placed;
    FatTreeNumLinksRight(k);
    topo := BuildFabric(k, k / 2, k / 2, k / 2, PipesFor(k), PipesFor(k), PipesFor(k), capacity, Range(k), true,
                        FatTreeNumLinks(k));
    LgEverywhere(topo, k, k / 2, k / 2, k / 2, capacity);
  }

  const FB_PLANES := 4
  const FB_TOR_PIPES := 2
  const FB_AGG_PIPES := 6

  /** `c` core links per aggregation switch carry its `torsPerPod` lower links at the ratio asked for, and one more
      would be too many. */
  ghost predicate AtRatio(c: int, torsPerPod: nat, oversubscription: real) {
    c as real * oversubscription <= torsPerPod as real < (c + 1) as real * oversubscription
  }

  lemma DivideAndMultiply(x: real, y: real, c: int)
    requires y > 0.0 && c as real <= x / y < (c + 1) as real
    ensures c as real * y <= x < (c + 1) as real * y
  {
    assert x / y * y == x;
  }

  function CoresPerPlane(torsPerPod: nat, oversubscription: real): (c: int)
    requires oversubscription > 0.0
    ensures AtRatio(c, torsPerPod, oversubscription)
  {
    var c := (torsPerPod as real / oversubscription).Floor;
    DivideAndMultiply(torsPerPod as real, oversubscription, c);
    c
  }

  lemma LgSomewhere(topo: Topology, lgPods: set<nat>, pods: nat, torsPerPod: nat, planes: nat, coresPerPlane: nat,
                    capacity: real)
    requires Finished(topo, pods, torsPerPod, planes, coresPerPlane, capacity)
    requires forall l :: l in topo.fabric.links ==>
               (l in topo.fabric.lgCapable <==> if l.TorAgg? then l.agg.pod in lgPods else false)
    ensures topo.fabric.lgCapable == set l | l in topo.fabric.links && l.TorAgg? && l.agg.pod in lgPods
  {
  }

  /** build_topo_fbfabric. `lgPods` holds the pods chosen for a partial deployment; without a ToR or a core
      switch the builder raises. */
  method BuildFbFabric(numPods: nat, torsPerPod: nat, oversubscription: real, capacity: real, partialDeployment: bool,
                       lgPods: set<nat>)
    returns (topo: Topology)
    requires numPods > 0 && torsPerPod > 0 && oversubscription > 0.0 && CoresPerPlane(torsPerPod, oversubscription) > 0
    ensures fresh(topo)
    ensures var coresPerPlane := CoresPerPlane(torsPerPod, oversubscription);
            && Finished(topo, numPods, torsPerPod, FB_PLANES, coresPerPlane, capacity)
            && AtRatio(coresPerPlane, torsPerPod, oversubscription)
    ensures Placed(topo.fabric, torsPerPod)
    ensures forall s :: s in topo.fabric.pipes ==>
              match s
              case TorSwitch(_) => topo.fabric.pipes[s] == 2
              case AggSwitch(_) => topo.fabric.pipes[s] == 6
              case CoreSwitch(_) => Fit(numPods, topo.fabric.pipes[s])
    ensures !partialDeployment ==> topo.fabric.lgCapable == topo.fabric.links
    ensures partialDeployment ==>
              topo.fabric.lgCapable == set l | l in topo.fabric.links && l.TorAgg? && l.agg.pod in lgPods
    ensures topo.Valid()
  {
    hide Topology.Valid, Finished, FabricLinks, Placed;
    var coresPerPlane: nat := CoresPerPlane(torsPerPod, oversubscription);
    var linksPerPod := torsPerPod * 4 + 4 * coresPerPlane;
    var numLinks := numPods * linksPerPod;
    LinksCardinality(numPods, torsPerPod, FB_PLANES, coresPerPlane);
    var chosenPods := if partialDeployment then lgPods else Range(numPods);
    topo := BuildFabric(numPods, torsPerPod, FB_PLANES, coresPerPlane, FB_TOR_PIPES, FB_AGG_PIPES, PipesFor(numPods),
                        capacity, chosenPods, !partialDeployment, numLinks as real);
    if !partialDeployment {
      LgEverywhere(topo, numPods, torsPerPod, FB_PLANES, coresPerPlane, capacity);
    } else {
      LgSomewhere(topo, lgPods, numPods, torsPerPod, FB_PLANES, coresPerPlane, capacity);
    }
  }
}
