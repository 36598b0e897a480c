/** The static shape of a three-tier fabric (ToR, aggregation, core) and its paths to the core.
    Switches and links are named by what they are; the simulator's generated ids only tell them apart. */
module Fabrics {
  import opened Collections

  datatype Tor = Tor(pod: nat, index: nat)
  datatype Agg = Agg(pod: nat, index: nat)
  datatype Core = Core(plane: nat, index: nat)
  datatype Switch = TorSwitch(tor: Tor) | AggSwitch(agg: Agg) | CoreSwitch(core: Core)

  /** A link is the pair of switches it joins; the graph holds at most one link per pair. */
  datatype Link = TorAgg(tor: Tor, agg: Agg) | AggCore(agg: Agg, core: Core)
  {
    function Ends(): set<Switch> {
      if TorAgg? then {TorSwitch(tor), AggSwitch(agg)} else {AggSwitch(agg), CoreSwitch(core)}
    }
  }

  // ---------- what a set of enabled links offers ----------

  function Uplinks(up: set<Link>, a: Agg): set<Link> {
    set l | l in up && l.AggCore? && l.agg == a
  }

  /** An enabled ToR-Agg-Core path of `t` is determined by its upper link. */
  function PathLinks(up: set<Link>, t: Tor): set<Link> {
    set l | l in up && l.AggCore? && TorAgg(t, l.agg) in up
  }

  function PathCount(up: set<Link>, t: Tor): nat {
    |PathLinks(up, t)|
  }

  /** The ToRs whose paths may use `l`: its own ToR, or every ToR wired to its aggregation switch. */
  function AffectedTors(links: set<Link>, l: Link): set<Tor> {
    if l.TorAgg? then {l.tor} else set x | x in links && x.TorAgg? && x.agg == l.agg :: x.tor
  }

  function AffectedByAny(links: set<Link>, s: set<Link>): set<Tor> {
    set l, t | l in s && t in AffectedTors(links, l) :: t
  }

  /** Every ToR of `tors` keeps at least `min` enabled paths. */
  ghost predicate Meets(tors: set<Tor>, up: set<Link>, min: int) {
    forall t :: t in tors ==> PathCount(up, t) >= min
  }

  /** Disabling `s` leaves every ToR that `s` touches with at least `min` paths. */
  ghost predicate Safe(links: set<Link>, up: set<Link>, min: int, s: set<Link>) {
    forall t :: t in AffectedByAny(links, s) ==> PathCount(up - s, t) >= min
  }

  lemma PathsAntitone(up: set<Link>, up': set<Link>, t: Tor)
    requires up <= up'
    ensures PathCount(up, t) <= PathCount(up', t)
  {
    SubsetCardinality(PathLinks(up, t), PathLinks(up', t));
  }

  /** A ToR that no link of `s` affects does not notice that `s` is disabled. */
  lemma PathsLocal(links: set<Link>, up: set<Link>, s: set<Link>, t: Tor)
    requires up <= links && s <= links && t !in AffectedByAny(links, s)
    ensures PathLinks(up - s, t) == PathLinks(up, t)
  {
    forall l | l in PathLinks(up, t)
      ensures l in PathLinks(up - s, t)
    {
      var lower := TorAgg(t, l.agg);
      assert t in AffectedTors(links, lower);
      assert t in AffectedTors(links, l) by { assert lower in links && lower.tor == t; }
    }
  }

  /** Safe sets are closed downwards. */
  lemma SafeSubset(links: set<Link>, up: set<Link>, min: int, s: set<Link>, s': set<Link>)
    requires s' <= s && Safe(links, up, min, s)
    ensures Safe(links, up, min, s')
  {
    forall t | t in AffectedByAny(links, s')
      ensures PathCount(up - s', t) >= min
    {
      assert t in AffectedByAny(links, s);
      PathsAntitone(up - s, up - s', t);
    }
  }

  /** What is unsafe stays unsafe when further links go down. */
  lemma UnsafeWithFewerLinks(links: set<Link>, up: set<Link>, up': set<Link>, min: int, s: set<Link>)
    requires up' <= up && Safe(links, up', min, s)
    ensures Safe(links, up, min, s)
  {
    forall t | t in AffectedByAny(links, s)
      ensures PathCount(up - s, t) >= min
    {
      PathsAntitone(up' - s, up - s, t);
    }
  }

  /** Where the constraint holds, a set is safe exactly when the constraint still holds without it. */
  lemma SafeMeets(links: set<Link>, tors: set<Tor>, up: set<Link>, min: int, s: set<Link>)
    requires up <= links && s <= links
    requires AffectedByAny(links, s) <= tors
    requires Meets(tors, up, min)
    ensures Safe(links, up, min, s) <==> Meets(tors, up - s, min)
  {
    forall t | t in tors && t !in AffectedByAny(links, s)
      ensures PathCount(up - s, t) >= min
    {
      PathsLocal(links, up, s, t);
    }
  }

  /** Adding a safe link, measured with `d` already down, to a safe set `d`. */
  lemma SafeExtend(links: set<Link>, up: set<Link>, min: int, d: set<Link>, e: set<Link>)
    requires up <= links && d <= links && e <= links
    requires Safe(links, up, min, d) && Safe(links, up - d, min, e)
    ensures Safe(links, up, min, d + e)
  {
    assert up - (d + e) == up - d - e;
    forall t | t in AffectedByAny(links, d + e)
      ensures PathCount(up - (d + e), t) >= min
    {
      if t !in AffectedByAny(links, e) {
        PathsLocal(links, up - d, e, t);
        assert t in AffectedByAny(links, d);
      }
    }
  }

  // ---------- the cached counters against the paths ----------

  /** The sum the path counter computes: active uplinks over a list of aggregation switches. */
  function UplinkTotal(list: seq<Agg>, uplinks: map<Agg, int>): int
    requires forall a :: a in list ==> a in uplinks
  {
    if list == [] then 0 else UplinkTotal(list[..|list| - 1], uplinks) + uplinks[list[|list| - 1]]
  }

  /** With a repetition-free list and exact counters, the sum counts the core links behind the list. */
  lemma {:induction false} UplinkTotalCounts(list: seq<Agg>, uplinks: map<Agg, int>, up: set<Link>)
    requires NoDup(list)
    requires forall a :: a in list ==> a in uplinks && uplinks[a] == |Uplinks(up, a)|
    ensures UplinkTotal(list, uplinks) == |set l | l in up && l.AggCore? && l.agg in list|
  {
    var all := set l | l in up && l.AggCore? && l.agg in list;
    if list == [] {
      assert all == {};
    } else {
      var init, last := list[..|list| - 1], list[|list| - 1];
      var rest := set l | l in up && l.AggCore? && l.agg in init;
      assert list == init + [last];
      UplinkTotalCounts(init, uplinks, up);
      assert all == rest + Uplinks(up, last);
      assert last !in init;
      assert rest !! Uplinks(up, last);
    }
  }

  /** The fast count refines the path count: listed aggregation switches with exact counters. */
  lemma FastCountIsPathCount(t: Tor, list: seq<Agg>, uplinks: map<Agg, int>, up: set<Link>)
    requires NoDup(list)
    requires forall a :: a in list <==> TorAgg(t, a) in up
    requires forall a :: a in list ==> a in uplinks && uplinks[a] == |Uplinks(up, a)|
    ensures UplinkTotal(list, uplinks) == PathCount(up, t)
  {
    UplinkTotalCounts(list, uplinks, up);
    assert PathLinks(up, t) == set l | l in up && l.AggCore? && l.agg in list;
  }

  // ---------- graph traversal ----------

  predicate Joined(links: set<Link>, x: Switch, y: Switch) {
    exists l :: l in links && l.Ends() == {x, y}
  }

  /** A path without repeated switches from `x` to `y` over at most `cutoff` links. */
  ghost predicate SimplePath(links: set<Link>, path: seq<Switch>, x: Switch, y: Switch, cutoff: nat) {
    && 0 < |path| <= cutoff + 1 && path[0] == x && path[|path| - 1] == y
    && NoDup(path)
    && forall i :: 0 <= i < |path| - 1 ==> Joined(links, path[i], path[i + 1])
  }

  function PathVia(t: Tor, l: Link): seq<Switch>
    requires l.AggCore?
  {
    [TorSwitch(t), AggSwitch(l.agg), CoreSwitch(l.core)]
  }

  /** With the cutoff tiers - 1 = 2, traversal from a ToR to a core switch finds up-up paths only. */
  lemma TraversalPaths(links: set<Link>, t: Tor, c: Core, path: seq<Switch>)
    ensures SimplePath(links, path, TorSwitch(t), CoreSwitch(c), 2)
       <==> exists l :: l in PathLinks(links, t) && l.core == c && path == PathVia(t, l)
  {
    if SimplePath(links, path, TorSwitch(t), CoreSwitch(c), 2) {
      var first :| first in links && first.Ends() == {path[0], path[1]} by {
        assert |path| != 1;
        assert Joined(links, path[0], path[1]);
      }
      assert TorSwitch(t) in first.Ends() && path[1] in first.Ends();
      assert first.TorAgg? && first.tor == t && path[1] == AggSwitch(first.agg);
      assert |path| == 3;
      var second :| second in links && second.Ends() == {path[1], path[2]} by {
        assert Joined(links, path[1], path[2]);
      }
      assert CoreSwitch(c) in second.Ends() && path[1] in second.Ends();
      assert second == AggCore(first.agg, c);
      assert first == TorAgg(t, second.agg);
      assert path == PathVia(t, second);
    }
    if l :| l in PathLinks(links, t) && l.core == c && path == PathVia(t, l) {
      assert TorAgg(t, l.agg).Ends() == {path[0], path[1]};
      assert l.Ends() == {path[1], path[2]};
      assert forall i :: 0 <= i < 2 ==> Joined(links, path[i], path[i + 1]);
    }
  }
}
