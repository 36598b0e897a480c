/** Which link occupies which port of a switch, and how many pipes a switch has. */
module Ports {
  import opened Collections
  import opened Fabrics
  import opened Indexes
  import opened Growth

  function LinksAt(links: set<Link>, s: Switch): set<Link> {
    set l | l in links && s in l.Ends()
  }

  /** The number of pipes of each kind of switch, and of ToRs in a pod. */
  datatype Layout = Layout(torPipes: nat, aggPipes: nat, corePipes: nat, torsPerPod: nat)
  {
    function PipesOf(s: Switch): nat {
      match s
      case TorSwitch(_) => torPipes
      case AggSwitch(_) => aggPipes
      case CoreSwitch(_) => corePipes
    }
  }

  /** Ports are taken in the order of the other ends: an aggregation switch has its ToRs first, then its core
      switches. */
  function Slot(torsPerPod: nat, s: Switch, l: Link): nat {
    match s
    case TorSwitch(_) => l.agg.index
    case AggSwitch(_) => if l.TorAgg? then l.tor.index else torsPerPod + l.core.index
    case CoreSwitch(_) => l.agg.pod
  }

  ghost predicate Piped(f: Fabric, layout: Layout) {
    f.pipes.Keys == f.ports.Keys && forall s :: s in f.pipes ==> f.pipes[s] == layout.PipesOf(s)
  }

  /** Every switch has as many ports as links, and each link is in its slot. */
  ghost predicate Placed(f: Fabric, torsPerPod: nat) {
    && (forall s :: s in f.ports ==> |f.ports[s]| == |LinksAt(f.links, s)|)
    && forall l, s :: l in f.links && s in l.Ends() && s in f.ports ==>
         Slot(torsPerPod, s, l) < |f.ports[s]| && f.ports[s][Slot(torsPerPod, s, l)] == l
  }

  lemma LinksOnlyAt(links: set<Link>, more: set<Link>, s: Switch)
    requires (forall l :: l in links ==> s !in l.Ends()) && forall l :: l in more ==> s in l.Ends()
    ensures LinksAt(links + more, s) == more
  {
  }

  lemma LinksElsewhere(links: set<Link>, more: set<Link>, s: Switch)
    requires forall l :: l in more ==> s !in l.Ends()
    ensures LinksAt(links + more, s) == LinksAt(links, s)
  {
  }

  lemma NoLinksYet(f: Fabric, s: Switch)
    requires f.WellFormed() && s !in f.ports
    ensures LinksAt(f.links, s) == {}
  {
    forall l | l in f.links
      ensures s !in l.Ends()
    {
      assert forall x :: x in l.Ends() ==> f.Wired(x, l);
    }
  }

  lemma SeatPlaced(f: Fabric, layout: Layout, s: Switch)
    requires Piped(f, layout) && Placed(f, layout.torsPerPod) && s !in f.ports && LinksAt(f.links, s) == {}
    ensures Piped(Seat(f, s, layout.PipesOf(s)), layout)
    ensures Placed(Seat(f, s, layout.PipesOf(s)), layout.torsPerPod)
  {
    hide Slot, Link.Ends;
    var g := Seat(f, s, layout.PipesOf(s));
    assert g.links == f.links && g.ports == f.ports[s := []];
    forall l | l in g.links
      ensures s !in l.Ends()
    {
      assert l !in LinksAt(f.links, s);
    }
  }

  /** The next free port is the slot of `l`. */
  ghost predicate Next(links: set<Link>, torsPerPod: nat, l: Link) {
    forall s :: s in l.Ends() ==> |LinksAt(links, s)| == Slot(torsPerPod, s, l)
  }

  lemma LinksAtMore(links: set<Link>, l: Link, s: Switch)
    requires l !in links
    ensures |LinksAt(links + {l}, s)| == |LinksAt(links, s)| + if s in l.Ends() then 1 else 0
  {
    assert LinksAt(links + {l}, s) == if s in l.Ends() then LinksAt(links, s) + {l} else LinksAt(links, s);
  }

  lemma LinkPlaced(f: Fabric, layout: Layout, l: Link, capacity: real, isLgLink: bool)
    requires Piped(f, layout) && Placed(f, layout.torsPerPod) && l !in f.links && l.Ends() <= f.ports.Keys
    requires Next(f.links, layout.torsPerPod, l)
    ensures Piped(Extend(f, l, capacity, isLgLink), layout)
    ensures Placed(Extend(f, l, capacity, isLgLink), layout.torsPerPod)
  {
    hide AdjacentTors, LinksAt, Slot, Link.Ends;
    var g := Extend(f, l, capacity, isLgLink);
    assert g.ports == NewPorts(f.ports, l) && g.pipes == f.pipes && g.links == f.links + {l};
    forall s | s in g.ports
      ensures |g.ports[s]| == |LinksAt(g.links, s)|
    {
      LinksAtMore(f.links, l, s);
    }
  }

  lemma {:induction false} Covered<T>(list: seq<T>, s: set<T>)
    requires forall x :: x in s ==> x in list
    ensures |s| <= |list|
  {
    if list == [] {
      assert s == {};
    } else {
      var before, last := list[..|list| - 1], list[|list| - 1];
      assert list == before + [last];
      Covered(before, s - {last});
      assert s <= (s - {last}) + {last};
      SubsetCardinality(s, (s - {last}) + {last});
    }
  }

  /** A list without room for repetitions has none. */
  lemma {:induction false} FullNoDup<T>(list: seq<T>, s: set<T>)
    requires |list| <= |s| && forall x :: x in s ==> x in list
    ensures NoDup(list)
  {
    if list != [] {
      var before, last := list[..|list| - 1], list[|list| - 1];
      assert list == before + [last];
      if last in s {
        assert |s - {last}| == |s| - 1;
      }
      if last in before {
        Covered(before, s);
      } else {
        FullNoDup(before, s - {last});
        AppendNoDup(before, last);
      }
    }
  }

  /** Which pipe a link is on: its slot modulo the number of pipes of the switch. */
  lemma PipeOfSlot(f: Fabric, torsPerPod: nat, s: Switch, l: Link)
    requires Placed(f, torsPerPod) && l in f.links && s in l.Ends() && f.Wired(s, l)
    ensures f.PipeOf(s, l) == (s, Slot(torsPerPod, s, l) % f.pipes[s])
  {
    hide Slot;
    var j := Slot(torsPerPod, s, l);
    FullNoDup(f.ports[s], LinksAt(f.links, s));
    f.DealtInTurn(s, j);
  }
}
