/** Counting paths by traversing the graph, as the builders do once and the simulator's slow method does. */
module Traversal {
  import opened Collections
  import opened Fabrics
  import opened Indexes
  import opened Topologies

  /** The upper links of `t`'s paths that end in core switch `c`. */
  function PathsTo(up: set<Link>, t: Tor, c: Core): set<Link> {
    set l | l in PathLinks(up, t) && l.core == c
  }

  /** networkx.all_simple_paths with cutoff tiers - 1. */
  method AllSimplePaths(links: set<Link>, t: Tor, c: Core) returns (paths: seq<seq<Switch>>)
    ensures NoDup(paths)
    ensures forall p :: p in paths <==> SimplePath(links, p, TorSwitch(t), CoreSwitch(c), 2)
  {
    var todo := PathsTo(links, t, c);
    paths := [];
    while todo != {}
      invariant todo <= PathsTo(links, t, c) && NoDup(paths)
      invariant forall p :: p in paths <==> exists l :: l in PathsTo(links, t, c) - todo && p == PathVia(t, l)
    {
      var l :| l in todo;
      todo := todo - {l};
      assert PathVia(t, l) !in paths;
      AppendNoDup(paths, PathVia(t, l));
      paths := paths + [PathVia(t, l)];
    }
    forall p
      ensures p in paths <==> SimplePath(links, p, TorSwitch(t), CoreSwitch(c), 2)
    {
      TraversalPaths(links, t, c, p);
    }
  }

  /** The id of the edge between two adjacent switches on the way up. */
  function LinkBetween(x: Switch, y: Switch): Link
    requires (x.TorSwitch? && y.AggSwitch?) || (x.AggSwitch? && y.CoreSwitch?)
  {
    if x.TorSwitch? then TorAgg(x.tor, y.agg) else AggCore(x.agg, y.core)
  }

  /** Follows a switch path link by link and gives up at the first disabled link. */
  method TraceLinks(topo: Topology, switchPath: seq<Switch>, ghost t: Tor, ghost l: Link)
    returns (foundDisabledLink: bool, linkPath: seq<Link>)
    requires topo.disabled.Keys == topo.fabric.links
    requires forall k :: k in topo.fabric.links ==> (topo.disabled[k] <==> k in topo.disabledLinks)
    requires l in PathLinks(topo.fabric.links, t) && switchPath == PathVia(t, l)
    ensures foundDisabledLink <==> l !in PathLinks(topo.Up(), t)
    ensures !foundDisabledLink ==> linkPath == [TorAgg(t, l.agg), l]
  {
    ghost var path := [TorAgg(t, l.agg), l];
    linkPath := [];
    foundDisabledLink := false;
    var hop := 0;
    while hop < |switchPath| - 1 && !foundDisabledLink
      invariant 0 <= hop <= 2
      invariant !foundDisabledLink ==> linkPath == path[..hop]
      invariant !foundDisabledLink ==> forall h :: 0 <= h < hop ==> path[h] in topo.Up()
      invariant foundDisabledLink ==> path[0] !in topo.Up() || path[1] !in topo.Up()
      decreases 2 - hop, !foundDisabledLink
    {
      var link := LinkBetween(switchPath[hop], switchPath[hop + 1]);
      assert link == path[hop];
      foundDisabledLink := topo.IsLinkDisabled(link);
      if !foundDisabledLink {
        linkPath := linkPath + [link];
        hop := hop + 1;
      }
    }
    assert !foundDisabledLink ==> path[0] in topo.Up() && path[1] in topo.Up();
  }

  /** The enabled paths among `paths`, by their upper links. */
  function Traced(up: set<Link>, t: Tor, c: Core, paths: seq<seq<Switch>>): set<Link> {
    set l | l in PathsTo(up, t, c) && PathVia(t, l) in paths
  }

  lemma TracedStep(up: set<Link>, t: Tor, c: Core, paths: seq<seq<Switch>>, l: Link)
    requires l.AggCore? && l.core == c && PathVia(t, l) !in paths
    ensures |Traced(up, t, c, paths + [PathVia(t, l)])| ==
              |Traced(up, t, c, paths)| + (if l in PathLinks(up, t) then 1 else 0)
  {
    forall k | k in PathsTo(up, t, c) && PathVia(t, k) == PathVia(t, l)
      ensures k == l
    {
      assert PathVia(t, k)[1] == PathVia(t, l)[1];
    }
    assert l !in Traced(up, t, c, paths);
    assert Traced(up, t, c, paths + [PathVia(t, l)]) ==
             Traced(up, t, c, paths) + (if l in PathLinks(up, t) then {l} else {});
  }

  ghost predicate ViaSome(links: set<Link>, t: Tor, c: Core, path: seq<Switch>) {
    exists l :: l in PathsTo(links, t, c) && path == PathVia(t, l)
  }

  lemma TracedAll(links: set<Link>, up: set<Link>, t: Tor, c: Core, paths: seq<seq<Switch>>)
    requires up <= links
    requires forall p :: p in paths <==> SimplePath(links, p, TorSwitch(t), CoreSwitch(c), 2)
    ensures Traced(up, t, c, paths) == PathsTo(up, t, c)
    ensures forall i :: 0 <= i < |paths| ==> ViaSome(links, t, c, paths[i])
  {
    forall l | l in PathsTo(up, t, c)
      ensures PathVia(t, l) in paths
    {
      TraversalPaths(links, t, c, PathVia(t, l));
    }
    forall i | 0 <= i < |paths|
      ensures ViaSome(links, t, c, paths[i])
    {
      assert paths[i] in paths;
      TraversalPaths(links, t, c, paths[i]);
      var l :| l in PathLinks(links, t) && l.core == c && paths[i] == PathVia(t, l);
      assert l in PathsTo(links, t, c);
    }
  }

  /** The paths from `t` to `c` on which no link is disabled; there is one for each enabled upper link. */
  method GetPathsToCoreSwitch(topo: Topology, t: Tor, c: Core) returns (linkPaths: seq<seq<Link>>)
    requires topo.disabled.Keys == topo.fabric.links
    requires forall l :: l in topo.fabric.links ==> (topo.disabled[l] <==> l in topo.disabledLinks)
    ensures |linkPaths| == |PathsTo(topo.Up(), t, c)|
    ensures forall path :: path in linkPaths ==>
              exists l :: l in PathsTo(topo.Up(), t, c) && path == [TorAgg(t, l.agg), l]
  {
    ghost var up := topo.Up();
    var switchPaths := AllSimplePaths(topo.fabric.links, t, c);
    TracedAll(topo.fabric.links, up, t, c, switchPaths);
    linkPaths := [];
    assert Traced(up, t, c, []) == {};
    hide SimplePath, PathVia, Traced;
    for i := 0 to |switchPaths|
      invariant |linkPaths| == |Traced(up, t, c, switchPaths[..i])|
      invariant forall path :: path in linkPaths ==> exists l :: l in PathsTo(up, t, c) && path == [TorAgg(t, l.agg), l]
    {
      var switchPath := switchPaths[i];
      assert ViaSome(topo.fabric.links, t, c, switchPath);
      ghost var l :| l in PathsTo(topo.fabric.links, t, c) && switchPath == PathVia(t, l);
      var foundDisabledLink, linkPath := TraceLinks(topo, switchPath, t, l);
      TracedStep(up, t, c, switchPaths[..i], l);
      assert switchPaths[..i + 1] == switchPaths[..i] + [switchPath];
      if !foundDisabledLink {
        assert l in PathsTo(up, t, c);
        linkPaths := linkPaths + [linkPath];
      }
    }
    assert switchPaths[..|switchPaths|] == switchPaths;
  }

  /** Counts a ToR's enabled paths over all core switches by traversal. */
  method CountPathsByTraversal(topo: Topology, t: Tor) returns (n: nat)
    requires topo.fabric.WellFormed()
    requires topo.disabled.Keys == topo.fabric.links
    requires forall l :: l in topo.fabric.links ==> (topo.disabled[l] <==> l in topo.disabledLinks)
    ensures n == PathCount(topo.Up(), t)
  {
    ghost var up := topo.Up();
    var todo := topo.fabric.cores;
    n := 0;
    while todo != {}
      invariant todo <= topo.fabric.cores
      invariant n == |set l | l in PathLinks(up, t) && l.core in topo.fabric.cores - todo|
    {
      var c :| c in todo;
      var paths := GetPathsToCoreSwitch(topo, t, c);
      ghost var before := set l | l in PathLinks(up, t) && l.core in topo.fabric.cores - todo;
      ghost var after := set l | l in PathLinks(up, t) && l.core in topo.fabric.cores - (todo - {c});
      assert after == before + PathsTo(up, t, c) && before !! PathsTo(up, t, c);
      n := n + |paths|;
      todo := todo - {c};
    }
    assert PathLinks(up, t) == set l | l in PathLinks(up, t) && l.core in topo.fabric.cores - {};
  }

  /** The cached count and the count by traversal agree in every state that satisfies the invariant. */
  method CompareCounts(topo: Topology, t: Tor) returns (same: bool)
    requires topo.Valid() && t in topo.fabric.tors
    ensures same
  {
    topo.Flags();
    var n := CountPathsByTraversal(topo, t);
    same := n == topo.numPathsToCore[t];
  }
}
