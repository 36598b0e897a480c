/** The topology object of the simulator: link and switch attributes, and every index kept beside them. */
module Topologies {
  import opened Collections
  import opened Fabrics
  import opened Indexes

  /** What the operations on links are about; the indexes follow from it. */
  datatype State = State(
    fabric: Fabric,
    down: set<Link>,
    corrupting: set<Link>,
    lgEnabled: set<Link>,
    rate: map<Link, real>,
    effectiveRate: map<Link, real>,
    effectiveCapacity: map<Link, real>,
    podKeys: set<PodKey>)
  {
    /** The enabled links. */
    function Up(): set<Link> {
      fabric.links - down
    }

    /** The corrupting links `d` are disabled; LinkGuardian stops on them. */
    function Without(d: set<Link>): State {
      this.(down := down + d, corrupting := corrupting - d, lgEnabled := lgEnabled - d)
    }

    /** The disabled link `l` is repaired and enabled. */
    function Repaired(l: Link): State
      requires l in fabric.capacity
    {
      this.(down := down - {l}, rate := rate[l := INITIAL_LINK_LOSS_RATE],
            effectiveRate := effectiveRate[l := INITIAL_LINK_LOSS_RATE],
            effectiveCapacity := effectiveCapacity[l := fabric.capacity[l]])
    }

    /** Sets within each other, and wiring known, as in every topology. */
    ghost predicate Proper() {
      && down <= fabric.links == fabric.capacity.Keys && corrupting <= Up() && lgEnabled <= Up()
      && forall l :: l in fabric.links ==> AffectedTors(fabric.links, l) <= fabric.tors
    }

    lemma WithoutMore(d: set<Link>, e: set<Link>)
      ensures Without(d).Without(e) == Without(d + e) && Without({}) == this
      ensures Without(d).Up() == Up() - d
    {
      SetSteps(down, d, e);
      SetSteps(corrupting, d, e);
      SetSteps(lgEnabled, d, e);
      assert down + {} == down && corrupting - {} == corrupting && lgEnabled - {} == lgEnabled;
    }
  }

  class Topology {
    var fabric: Fabric

    // link attributes
    var disabled: map<Link, bool>
    var lossRate: map<Link, real>
    var effectiveLossRate: map<Link, real>
    var effectiveCapacity: map<Link, real>
    var lgEnabled: set<Link>

    // switch attributes
    var aggSwitches: map<Tor, seq<Agg>>
    var activeUplinks: map<Agg, int>
    var lgPortsPerPipe: map<Pipe, int>

    // indexes and metrics
    var disabledLinks: set<Link>
    var corruptingLinks: set<Link>
    var numPathsToCore: map<Tor, int>
    var perPodCapacity: map<PodKey, real>
    var totalLossRate: real
    var totalEffectiveLossRate: real
    var topLossRates: multiset<real>
    var topLgPortsPerPipe: multiset<int>

    /** The enabled links. */
    ghost function Up(): set<Link>
      reads this
    {
      fabric.links - disabledLinks
    }

    ghost predicate Indexed()
      reads this
    {
      && fabric.WellFormed()
      && Attributes(fabric, disabledLinks, disabled, lossRate, effectiveLossRate, effectiveCapacity, corruptingLinks,
                    lgEnabled)
      && AggLists(fabric.tors, Up(), aggSwitches)
      && UplinkCounts(fabric.links, Up(), activeUplinks)
      && TopRates(corruptingLinks, lossRate, topLossRates)
      && PodIndex(fabric, Up(), effectiveCapacity, perPodCapacity)
      && LgCounts(fabric, LgPorts(lgEnabled), lgPortsPerPipe)
      && TopCounts(lgPortsPerPipe, topLgPortsPerPipe)
    }

    /** An empty topology. */
    constructor ()
      ensures fabric == Fabric({}, {}, {}, map[], {}, map[], map[], map[])
      ensures Indexed() && disabledLinks == corruptingLinks == lgEnabled == {}
      ensures activeUplinks == map[] && perPodCapacity == map[] && numPathsToCore == map[]
      ensures totalLossRate == totalEffectiveLossRate == 0.0
    {
      fabric := Fabric({}, {}, {}, map[], {}, map[], map[], map[]);
      disabled, lossRate, effectiveLossRate, effectiveCapacity, lgEnabled := map[], map[], map[], map[], {};
      aggSwitches, activeUplinks, lgPortsPerPipe := map[], map[], map[];
      disabledLinks, corruptingLinks, numPathsToCore, perPodCapacity := {}, {}, map[], map[];
      totalLossRate, totalEffectiveLossRate := 0.0, 0.0;
      topLossRates, topLgPortsPerPipe := multiset{INITIAL_LINK_LOSS_RATE}, multiset{0};
    }

    ghost function CurrentState(): State
      reads this
    {
      State(fabric, disabledLinks, corruptingLinks, lgEnabled, lossRate, effectiveLossRate, effectiveCapacity,
            perPodCapacity.Keys)
    }

    /** Every index equals its definition from scratch. */
    ghost predicate Valid()
      reads this
    {
      && Indexed()
      && PathCache(fabric, Up(), numPathsToCore, fabric.tors)
      && LossTotals(Up(), lossRate, totalLossRate)
      && LossTotals(Up(), effectiveLossRate, totalEffectiveLossRate)
    }

    lemma PodsKnown()
      requires Valid() && fabric.links != {}
      ensures perPodCapacity != map[]
    {
      var l :| l in fabric.links;
      assert PodKeyOf(l) in perPodCapacity;
    }

    lemma Flags()
      requires Indexed()
      ensures disabled.Keys == fabric.links
      ensures forall l :: l in fabric.links ==> (disabled[l] <==> l in disabledLinks)
    {
    }

    lemma FlagOf(l: Link)
      requires Valid() && l in fabric.links
      ensures l in disabled && (disabled[l] <==> l in disabledLinks)
    {
      Flags();
    }

    lemma IsProper()
      requires Valid()
      ensures CurrentState().Proper() && CurrentState().Up() == Up()
    {
      forall l | l in fabric.links
        ensures AffectedTors(fabric.links, l) <= fabric.tors
      {
        fabric.Known(l);
      }
    }

    lemma Totals()
      requires Valid()
      ensures Up() <= lossRate.Keys && totalLossRate == Sum(Up(), lossRate)
      ensures Up() <= effectiveLossRate.Keys && totalEffectiveLossRate == Sum(Up(), effectiveLossRate)
    {
    }

    lemma CachedCounts()
      requires Valid()
      ensures numPathsToCore.Keys == fabric.tors
      ensures forall t :: t in fabric.tors ==> numPathsToCore[t] == PathCount(Up(), t)
    {
    }

    /** The key sets and inclusions that every operation relies on. */
    lemma Shape()
      requires Valid()
      ensures lossRate.Keys == effectiveLossRate.Keys == effectiveCapacity.Keys == fabric.capacity.Keys == fabric.links
      ensures disabledLinks <= fabric.links && corruptingLinks <= Up() && lgEnabled <= Up()
      ensures forall l :: l in fabric.links ==> l.agg in activeUplinks
      ensures forall a :: a in activeUplinks ==> activeUplinks[a] == |Uplinks(Up(), a)|
    {
    }

    /** What the path counter needs to know about a ToR's list and the counters behind it. */
    lemma Ready(t: Tor)
      requires Valid() && t in fabric.tors
      ensures t in aggSwitches && NoDup(aggSwitches[t])
      ensures forall a :: a in aggSwitches[t] <==> TorAgg(t, a) in Up()
      ensures forall a :: a in aggSwitches[t] ==> a in activeUplinks && activeUplinks[a] == |Uplinks(Up(), a)|
    {
      forall a | a in aggSwitches[t]
        ensures a in activeUplinks
      {
        assert TorAgg(t, a) in fabric.links;
      }
    }

    lemma LinkKnown(l: Link)
      requires Valid() && l in fabric.links
      ensures l.TorAgg? ==> l.tor in fabric.tors
      ensures l in fabric.affectedTors && fabric.affectedTors[l] == AffectedTors(fabric.links, l) <= fabric.tors
    {
      fabric.Known(l);
    }

    lemma AffectedAreTors(s: set<Link>, t: Tor)
      requires Valid() && s <= fabric.links && t in AffectedByAny(fabric.links, s)
      ensures t in fabric.tors
    {
      var l :| l in s && t in AffectedTors(fabric.links, l);
      fabric.Known(l);
    }

    predicate IsLinkDisabled(l: Link)
      reads this
      requires l in disabled
    {
      disabled[l]
    }

    /** The active uplinks of the listed aggregation switches, with the given counts put in their place. */
    method CollectUplinks(list: seq<Agg>, update: map<Agg, int>) returns (uplinks: map<Agg, int>)
      requires forall a :: a in list ==> a in activeUplinks
      ensures forall a :: a in uplinks <==> a in list
      ensures forall a :: a in list ==> uplinks[a] == if a in update then update[a] else activeUplinks[a]
    {
      uplinks := map[];
      for i := 0 to |list|
        invariant forall a :: a in uplinks <==> a in list[..i]
        invariant forall a :: a in uplinks ==> uplinks[a] == activeUplinks[a]
      {
        uplinks := uplinks[list[i] := activeUplinks[list[i]]];
      }
      assert list[..|list|] == list;
      for i := 0 to |list|
        invariant forall a :: a in uplinks <==> a in list
        invariant forall a :: a in list ==>
                    uplinks[a] == if a in list[..i] && a in update then update[a] else activeUplinks[a]
      {
        if list[i] in update {
          uplinks := uplinks[list[i] := update[list[i]]];
        }
      }
    }

    /** The path count of `t` with some listed aggregation switches excluded and some uplink counts replaced.
        `whatIf` is the set of enabled links those arguments describe. */
    method GetNumPathsToCore(t: Tor, exclude: seq<Agg>, update: map<Agg, int>, ghost whatIf: set<Link>) returns (n: int)
      requires t in aggSwitches && NoDup(aggSwitches[t])
      requires forall a :: a in aggSwitches[t] ==> a in activeUplinks
      requires NoDup(exclude) && forall a :: a in exclude ==> a in aggSwitches[t]
      requires forall a :: a in aggSwitches[t] && a !in exclude <==> TorAgg(t, a) in whatIf
      requires forall a :: a in aggSwitches[t] && a !in exclude ==>
                 (if a in update then update[a] else activeUplinks[a]) == |Uplinks(whatIf, a)|
      ensures n == PathCount(whatIf, t)
    {
      assert forall i :: 0 <= i < |exclude| ==> exclude[i] !in exclude[..i];
      hide NoDup, Uplinks, PathCount;
      var list := aggSwitches[t];
      for i := 0 to |exclude|
        invariant NoDup(list)
        invariant forall a :: a in list <==> a in aggSwitches[t] && a !in exclude[..i]
      {
        RemoveFirstNoDup(list, exclude[i]);
        list := RemoveFirst(list, exclude[i]);
      }
      assert exclude[..|exclude|] == exclude;

      var uplinks := CollectUplinks(list, update);
      n := 0;
      for i := 0 to |list|
        invariant n == UplinkTotal(list[..i], uplinks)
      {
        assert list[..i + 1][..i] == list[..i];
        n := n + uplinks[list[i]];
      }
      assert list[..|list|] == list;
      FastCountIsPathCount(t, list, uplinks, whatIf);
    }

    /** Recomputes the cached path count of `t`. */
    method RecountPaths(t: Tor)
      requires fabric.WellFormed() && t in fabric.tors
      requires AggLists(fabric.tors, Up(), aggSwitches) && UplinkCounts(fabric.links, Up(), activeUplinks)
      modifies `numPathsToCore
      ensures numPathsToCore == old(numPathsToCore)[t := PathCount(Up(), t)]
    {
      hide PathCount, Uplinks;
      forall a | a in aggSwitches[t]
        ensures a in activeUplinks
      {
        assert TorAgg(t, a) in fabric.links;
      }
      var n := GetNumPathsToCore(t, [], map[], Up());
      numPathsToCore := numPathsToCore[t := n];
    }

    /** Recomputes the cached path counts of the ToRs that `l` affects. */
    method RefreshPathCounts(l: Link)
      requires fabric.WellFormed() && l in fabric.links
      requires AggLists(fabric.tors, Up(), aggSwitches) && UplinkCounts(fabric.links, Up(), activeUplinks)
      requires PathCache(fabric, Up(), numPathsToCore, fabric.tors - fabric.affectedTors[l])
      modifies `numPathsToCore
      ensures PathCache(fabric, Up(), numPathsToCore, fabric.tors)
    {
      hide Fabric.WellFormed, AggLists, UplinkCounts, PathCount;
      fabric.Known(l);
      var todo := fabric.affectedTors[l];
      while todo != {}
        invariant todo <= fabric.affectedTors[l]
        invariant PathCache(fabric, Up(), numPathsToCore, fabric.tors - todo)
      {
        var t :| t in todo;
        RecountPaths(t);
        todo := todo - {t};
      }
      assert fabric.tors - {} == fabric.tors;
    }

    method IncrLgPortsPerPipe(s: Switch, l: Link, ghost ports: set<Port>)
      requires LgCounts(fabric, ports, lgPortsPerPipe) && TopCounts(lgPortsPerPipe, topLgPortsPerPipe)
      requires fabric.Wired(s, l) && (s, l) !in ports
      modifies `lgPortsPerPipe, `topLgPortsPerPipe
      ensures LgCounts(fabric, ports + {(s, l)}, lgPortsPerPipe) && TopCounts(lgPortsPerPipe, topLgPortsPerPipe)
    {
      LgCountsAdd(fabric, ports, lgPortsPerPipe, s, l);
      var pipe := fabric.PipeOf(s, l);
      var curr := lgPortsPerPipe[pipe];
      TopCountsMove(lgPortsPerPipe, topLgPortsPerPipe, pipe, curr + 1);
      lgPortsPerPipe := lgPortsPerPipe[pipe := curr + 1];
      topLgPortsPerPipe := MoveTop(topLgPortsPerPipe, curr, curr + 1);
    }

    method DecrLgPortsPerPipe(s: Switch, l: Link, ghost ports: set<Port>)
      requires LgCounts(fabric, ports, lgPortsPerPipe) && TopCounts(lgPortsPerPipe, topLgPortsPerPipe)
      requires (s, l) in ports
      modifies `lgPortsPerPipe, `topLgPortsPerPipe
      ensures LgCounts(fabric, ports - {(s, l)}, lgPortsPerPipe) && TopCounts(lgPortsPerPipe, topLgPortsPerPipe)
    {
      LgCountsDrop(fabric, ports, lgPortsPerPipe, s, l);
      var pipe := fabric.PipeOf(s, l);
      var curr := lgPortsPerPipe[pipe];
      TopCountsMove(lgPortsPerPipe, topLgPortsPerPipe, pipe, curr - 1);
      lgPortsPerPipe := lgPortsPerPipe[pipe := curr - 1];
      topLgPortsPerPipe := MoveTop(topLgPortsPerPipe, curr, curr - 1);
    }

    /** Takes the LinkGuardian ports of `l` off the counters of both its switches. */
    method StopLinkGuardian(l: Link)
      requires LgCounts(fabric, LgPorts(lgEnabled), lgPortsPerPipe) && TopCounts(lgPortsPerPipe, topLgPortsPerPipe)
      modifies `lgPortsPerPipe, `topLgPortsPerPipe, `lgEnabled
      ensures lgEnabled == old(lgEnabled) - {l}
      ensures LgCounts(fabric, LgPorts(lgEnabled), lgPortsPerPipe) && TopCounts(lgPortsPerPipe, topLgPortsPerPipe)
    {
      hide LgCounts, TopCounts;
      assert l !in lgEnabled ==> lgEnabled - {l} == lgEnabled;
      if l in lgEnabled {
        ghost var all := LgPorts(lgEnabled);
        LgPortsDrop(lgEnabled, l);
        var todo := l.Ends();
        assert all - PortsOf(l, l.Ends() - todo) == all;
        while todo != {}
          invariant todo <= l.Ends() && lgEnabled == old(lgEnabled)
          invariant LgCounts(fabric, all - PortsOf(l, l.Ends() - todo), lgPortsPerPipe)
          invariant TopCounts(lgPortsPerPipe, topLgPortsPerPipe)
        {
          var s :| s in todo;
          DecrLgPortsPerPipe(s, l, all - PortsOf(l, l.Ends() - todo));
          assert all - PortsOf(l, l.Ends() - todo) - {(s, l)} == all - PortsOf(l, l.Ends() - (todo - {s}));
          todo := todo - {s};
        }
        assert l.Ends() - todo == l.Ends();
        lgEnabled := lgEnabled - {l};
      }
    }

    /** Both ends of `l` count one more LinkGuardian port. */
    method StartOnPorts(l: Link)
      requires fabric.WellFormed() && l in fabric.links && l !in lgEnabled
      requires LgCounts(fabric, LgPorts(lgEnabled), lgPortsPerPipe) && TopCounts(lgPortsPerPipe, topLgPortsPerPipe)
      modifies `lgPortsPerPipe, `topLgPortsPerPipe
      ensures LgCounts(fabric, LgPorts(lgEnabled + {l}), lgPortsPerPipe) && TopCounts(lgPortsPerPipe, topLgPortsPerPipe)
    {
      hide Fabric.WellFormed, LgCounts, TopCounts;
      ghost var none := LgPorts(lgEnabled);
      fabric.Known(l);
      var todo := l.Ends();
      assert none + PortsOf(l, l.Ends() - todo) == none;
      while todo != {}
        invariant todo <= l.Ends()
        invariant LgCounts(fabric, none + PortsOf(l, l.Ends() - todo), lgPortsPerPipe)
        invariant TopCounts(lgPortsPerPipe, topLgPortsPerPipe)
      {
        var s :| s in todo;
        IncrLgPortsPerPipe(s, l, none + PortsOf(l, l.Ends() - todo));
        assert none + PortsOf(l, l.Ends() - todo) + {(s, l)} == none + PortsOf(l, l.Ends() - (todo - {s}));
        todo := todo - {s};
      }
      LgPortsDrop(lgEnabled + {l}, l);
      assert lgEnabled + {l} - {l} == lgEnabled && l.Ends() - todo == l.Ends();
      assert LgPorts(lgEnabled + {l}) == none + PortsOf(l, l.Ends());
    }

    method SetLinkGuardianEnabled(l: Link)
      requires Valid() && l in Up()
      modifies `lgPortsPerPipe, `topLgPortsPerPipe, `lgEnabled
      ensures Valid() && lgEnabled == old(lgEnabled) + {l}
    {
      hide Fabric.WellFormed, Attributes, AggLists, UplinkCounts, TopRates, PodIndex, LgCounts, TopCounts, PathCache,
        LossTotals;
      AttributesShape(fabric, disabledLinks, disabled, lossRate, effectiveLossRate, effectiveCapacity, corruptingLinks,
                      lgEnabled);
      AttributesGuard(fabric, disabledLinks, disabled, lossRate, effectiveLossRate, effectiveCapacity, corruptingLinks,
                      lgEnabled, l, effectiveLossRate[l], effectiveCapacity[l]);
      assert effectiveLossRate[l := effectiveLossRate[l]] == effectiveLossRate;
      assert effectiveCapacity[l := effectiveCapacity[l]] == effectiveCapacity;
      assert l in lgEnabled ==> lgEnabled + {l} == lgEnabled;
      if l !in lgEnabled {
        StartOnPorts(l);
        lgEnabled := lgEnabled + {l};
      }
    }

    /** The pod of `l`, no longer enabled, loses its capacity. */
    method DropPodCapacity(l: Link, ghost up: set<Link>)
      requires up <= fabric.links && l in up && PodIndex(fabric, up, effectiveCapacity, perPodCapacity)
      modifies `perPodCapacity
      ensures PodIndex(fabric, up - {l}, effectiveCapacity, perPodCapacity)
      ensures perPodCapacity.Keys == old(perPodCapacity.Keys)
    {
      PodIndexDisable(fabric, up, l, effectiveCapacity, perPodCapacity);
      perPodCapacity := ShiftPod(l, perPodCapacity, -effectiveCapacity[l]);
    }

    /** The pod of `l`, enabled with the effective capacity it has now, gains that capacity. */
    method AddPodCapacity(l: Link, ghost up: set<Link>, ghost before: map<Link, real>)
      requires l in fabric.links - up && PodIndex(fabric, up, before, perPodCapacity)
      requires l in effectiveCapacity && effectiveCapacity == before[l := effectiveCapacity[l]]
      modifies `perPodCapacity
      ensures PodIndex(fabric, up + {l}, effectiveCapacity, perPodCapacity)
      ensures perPodCapacity.Keys == old(perPodCapacity.Keys)
    {
      PodIndexEnable(fabric, up, l, before, perPodCapacity, effectiveCapacity[l]);
      perPodCapacity := ShiftPod(l, perPodCapacity, effectiveCapacity[l]);
    }

    /** Takes `l`, no longer enabled, off the lists, counters, path counts and pod capacity. */
    method DropFromPaths(l: Link, ghost up: set<Link>)
      requires fabric.WellFormed() && up <= fabric.links && l in up && Up() == up - {l}
      requires AggLists(fabric.tors, up, aggSwitches) && UplinkCounts(fabric.links, up, activeUplinks)
      requires PathCache(fabric, up, numPathsToCore, fabric.tors)
      requires PodIndex(fabric, up, effectiveCapacity, perPodCapacity)
      modifies `aggSwitches, `activeUplinks, `numPathsToCore, `perPodCapacity
      ensures AggLists(fabric.tors, Up(), aggSwitches) && UplinkCounts(fabric.links, Up(), activeUplinks)
      ensures PathCache(fabric, Up(), numPathsToCore, fabric.tors)
      ensures PodIndex(fabric, Up(), effectiveCapacity, perPodCapacity)
      ensures perPodCapacity.Keys == old(perPodCapacity.Keys)
    {
      hide Fabric.WellFormed, AggLists, UplinkCounts, PathCache, PodIndex;
      fabric.Known(l);
      AggListsDisable(fabric.tors, up, l, aggSwitches);
      UplinkCountsDisable(fabric.links, up, l, activeUplinks);
      PathCacheElsewhere(fabric, up, l, numPathsToCore);
      aggSwitches := DropFromPathLists(l, aggSwitches);
      activeUplinks := ShiftUplinks(l, activeUplinks, -1);
      RefreshPathCounts(l);
      DropPodCapacity(l, up);
    }

    /** Puts `l`, just enabled, back on the lists, counters, path counts and pod capacity. */
    method AddToPaths(l: Link, ghost up: set<Link>, ghost before: map<Link, real>)
      requires fabric.WellFormed() && up <= fabric.links && l in fabric.links - up && Up() == up + {l}
      requires AggLists(fabric.tors, up, aggSwitches) && UplinkCounts(fabric.links, up, activeUplinks)
      requires PathCache(fabric, up, numPathsToCore, fabric.tors) && PodIndex(fabric, up, before, perPodCapacity)
      requires l in effectiveCapacity && effectiveCapacity == before[l := effectiveCapacity[l]]
      modifies `aggSwitches, `activeUplinks, `numPathsToCore, `perPodCapacity
      ensures AggLists(fabric.tors, Up(), aggSwitches) && UplinkCounts(fabric.links, Up(), activeUplinks)
      ensures PathCache(fabric, Up(), numPathsToCore, fabric.tors)
      ensures PodIndex(fabric, Up(), effectiveCapacity, perPodCapacity)
      ensures perPodCapacity.Keys == old(perPodCapacity.Keys)
    {
      hide Fabric.WellFormed, AggLists, UplinkCounts, PathCache, PodIndex;
      fabric.Known(l);
      AggListsEnable(fabric.tors, up, l, aggSwitches);
      UplinkCountsEnable(fabric.links, up, l, activeUplinks);
      PathCacheElsewhere(fabric, up, l, numPathsToCore);
      aggSwitches := AddToPathLists(l, aggSwitches);
      activeUplinks := ShiftUplinks(l, activeUplinks, 1);
      RefreshPathCounts(l);
      AddPodCapacity(l, up, before);
    }

    /** The link-local part of disabling `l`: flags, sets and loss bookkeeping. */
    method RetireLink(l: Link)
      requires Valid() && l in corruptingLinks
      modifies `disabled, `disabledLinks, `corruptingLinks, `topLossRates, `totalLossRate, `totalEffectiveLossRate
      ensures disabledLinks == old(disabledLinks) + {l} && corruptingLinks == old(corruptingLinks) - {l}
      ensures Attributes(fabric, disabledLinks, disabled, lossRate, effectiveLossRate, effectiveCapacity,
                         corruptingLinks, lgEnabled - {l})
      ensures TopRates(corruptingLinks, lossRate, topLossRates)
      ensures LossTotals(Up(), lossRate, totalLossRate) && LossTotals(Up(), effectiveLossRate, totalEffectiveLossRate)
    {
      hide Fabric.WellFormed, Attributes, AggLists, UplinkCounts, TopRates, PodIndex, LgCounts, TopCounts, PathCache,
        LossTotals;
      ghost var up := Up();
      AttributesShape(fabric, disabledLinks, disabled, lossRate, effectiveLossRate, effectiveCapacity, corruptingLinks,
                      lgEnabled);
      AttributesDisable(fabric, disabledLinks, disabled, lossRate, effectiveLossRate, effectiveCapacity,
                        corruptingLinks, lgEnabled, l);
      TopRatesDrop(corruptingLinks, lossRate, topLossRates, l);
      LossTotalsDrop(up, lossRate, totalLossRate, l);
      LossTotalsDrop(up, effectiveLossRate, totalEffectiveLossRate, l);
      assert fabric.links - (disabledLinks + {l}) == up - {l};

      disabled := disabled[l := true];
      disabledLinks := disabledLinks + {l};
      corruptingLinks := corruptingLinks - {l};
      topLossRates := topLossRates - multiset{lossRate[l]};
      totalLossRate := totalLossRate - lossRate[l];
      totalEffectiveLossRate := totalEffectiveLossRate - effectiveLossRate[l];
    }

    method DisableLink(l: Link)
      requires Valid() && l in corruptingLinks
      modifies `disabled, `disabledLinks, `corruptingLinks, `topLossRates, `totalLossRate, `totalEffectiveLossRate
      modifies `aggSwitches, `activeUplinks, `numPathsToCore, `perPodCapacity
      modifies `lgPortsPerPipe, `topLgPortsPerPipe, `lgEnabled
      ensures Valid()
      ensures disabledLinks == old(disabledLinks) + {l} && corruptingLinks == old(corruptingLinks) - {l}
      ensures lgEnabled == old(lgEnabled) - {l} && perPodCapacity.Keys == old(perPodCapacity.Keys)
    {
      hide Fabric.WellFormed, Attributes, AggLists, UplinkCounts, TopRates, PodIndex, LgCounts, TopCounts, PathCache,
        LossTotals;
      ghost var up := Up();
      AttributesShape(fabric, disabledLinks, disabled, lossRate, effectiveLossRate, effectiveCapacity, corruptingLinks,
                      lgEnabled);
      RetireLink(l);
      assert Up() == up - {l};
      DropFromPaths(l, up);
      StopLinkGuardian(l);
    }

    /** A repaired link has the initial rates and its full capacity. */
    method ResetLink(l: Link)
      requires l in fabric.capacity
      modifies `lossRate, `effectiveLossRate, `effectiveCapacity
      ensures lossRate == old(lossRate)[l := INITIAL_LINK_LOSS_RATE]
      ensures effectiveLossRate == old(effectiveLossRate)[l := INITIAL_LINK_LOSS_RATE]
      ensures effectiveCapacity == old(effectiveCapacity)[l := fabric.capacity[l]]
    {
      lossRate := lossRate[l := INITIAL_LINK_LOSS_RATE];
      effectiveLossRate := effectiveLossRate[l := INITIAL_LINK_LOSS_RATE];
      effectiveCapacity := effectiveCapacity[l := fabric.capacity[l]];
    }

    /** The link-local part of enabling `l`, which has been repaired: everything is reset. */
    method RestoreLink(l: Link)
      requires Valid() && l in disabledLinks
      modifies `disabled, `disabledLinks, `lossRate, `effectiveLossRate, `effectiveCapacity
      modifies `totalLossRate, `totalEffectiveLossRate
      ensures disabledLinks == old(disabledLinks) - {l}
      ensures lossRate == old(lossRate)[l := INITIAL_LINK_LOSS_RATE]
      ensures effectiveLossRate == old(effectiveLossRate)[l := INITIAL_LINK_LOSS_RATE]
      ensures effectiveCapacity == old(effectiveCapacity)[l := fabric.capacity[l]]
      ensures Attributes(fabric, disabledLinks, disabled, lossRate, effectiveLossRate, effectiveCapacity,
                         corruptingLinks, lgEnabled)
      ensures TopRates(corruptingLinks, lossRate, topLossRates)
      ensures LossTotals(Up(), lossRate, totalLossRate) && LossTotals(Up(), effectiveLossRate, totalEffectiveLossRate)
    {
      hide Fabric.WellFormed, Attributes, AggLists, UplinkCounts, TopRates, PodIndex, LgCounts, TopCounts, PathCache,
        LossTotals;
      ghost var up := Up();
      AttributesShape(fabric, disabledLinks, disabled, lossRate, effectiveLossRate, effectiveCapacity, corruptingLinks,
                      lgEnabled);
      AttributesEnable(fabric, disabledLinks, disabled, lossRate, effectiveLossRate, effectiveCapacity, corruptingLinks,
                       lgEnabled, l);
      TopRatesFrame(corruptingLinks, lossRate, lossRate[l := INITIAL_LINK_LOSS_RATE], topLossRates);
      LossTotalsAdd(up, lossRate, totalLossRate, l, INITIAL_LINK_LOSS_RATE);
      LossTotalsAdd(up, effectiveLossRate, totalEffectiveLossRate, l, INITIAL_LINK_LOSS_RATE);
      assert fabric.links - (disabledLinks - {l}) == up + {l};

      ResetLink(l);
      disabled, disabledLinks := disabled[l := false], disabledLinks - {l};
      totalLossRate, totalEffectiveLossRate :=
        totalLossRate + INITIAL_LINK_LOSS_RATE, totalEffectiveLossRate + INITIAL_LINK_LOSS_RATE;
    }

    method EnableLink(l: Link)
      requires Valid() && l in disabledLinks
      modifies `disabled, `disabledLinks, `lossRate, `effectiveLossRate, `effectiveCapacity
      modifies `totalLossRate, `totalEffectiveLossRate
      modifies `aggSwitches, `activeUplinks, `numPathsToCore, `perPodCapacity
      ensures Valid()
      ensures disabledLinks == old(disabledLinks) - {l} && perPodCapacity.Keys == old(perPodCapacity.Keys)
      ensures lossRate == old(lossRate)[l := INITIAL_LINK_LOSS_RATE]
      ensures effectiveLossRate == old(effectiveLossRate)[l := INITIAL_LINK_LOSS_RATE]
      ensures effectiveCapacity == old(effectiveCapacity)[l := fabric.capacity[l]]
    {
      hide Fabric.WellFormed, Attributes, AggLists, UplinkCounts, TopRates, PodIndex, LgCounts, TopCounts, PathCache,
        LossTotals;
      ghost var up := Up();
      AttributesShape(fabric, disabledLinks, disabled, lossRate, effectiveLossRate, effectiveCapacity, corruptingLinks,
                      lgEnabled);
      ghost var before := effectiveCapacity;
      RestoreLink(l);
      assert Up() == up + {l};
      AddToPaths(l, up, before);
    }

    /** Keeps the heap in step with a rate about to be set; the old rate leaves if `l` was corrupting already. */
    method RecordLinkTopLossRate(l: Link, rate: real)
      requires l in lossRate && TopRates(corruptingLinks, lossRate, topLossRates)
      modifies `topLossRates
      ensures TopRates(corruptingLinks + {l}, lossRate[l := rate], topLossRates)
    {
      ghost var others := corruptingLinks - {l};
      if l in corruptingLinks {
        TopRatesDrop(corruptingLinks, lossRate, topLossRates, l);
        topLossRates := topLossRates - multiset{lossRate[l]};
      }
      assert others == if l in corruptingLinks then others else corruptingLinks;
      TopRatesAdd(others, lossRate, topLossRates, l, rate);
      assert others + {l} == corruptingLinks + {l};
      topLossRates := topLossRates + multiset{rate};
    }

    method SetLinkLossRate(l: Link, rate: real)
      requires l in Up() && LossTotals(Up(), lossRate, totalLossRate)
      modifies `lossRate, `totalLossRate
      ensures lossRate == old(lossRate)[l := rate] && LossTotals(Up(), lossRate, totalLossRate)
    {
      LossTotalsSet(Up(), lossRate, totalLossRate, l, rate);
      var orig := lossRate[l];
      lossRate := lossRate[l := rate];
      totalLossRate := totalLossRate - orig;
      totalLossRate := totalLossRate + rate;
    }

    method SetLinkEffectiveLossRate(l: Link, rate: real)
      requires l in Up() && LossTotals(Up(), effectiveLossRate, totalEffectiveLossRate)
      modifies `effectiveLossRate, `totalEffectiveLossRate
      ensures effectiveLossRate == old(effectiveLossRate)[l := rate]
      ensures LossTotals(Up(), effectiveLossRate, totalEffectiveLossRate)
    {
      LossTotalsSet(Up(), effectiveLossRate, totalEffectiveLossRate, l, rate);
      var orig := effectiveLossRate[l];
      effectiveLossRate := effectiveLossRate[l := rate];
      totalEffectiveLossRate := totalEffectiveLossRate - orig;
      totalEffectiveLossRate := totalEffectiveLossRate + rate;
    }

    /** Moves the pod entry of `l` together with its effective capacity. Where LinkGuardian does not run, that keeps
        the indexes only if nothing changes. */
    method UpdateEffectiveLinkCapacity(l: Link, capacity: real)
      requires Valid() && l in fabric.links
      modifies `effectiveCapacity, `perPodCapacity
      ensures effectiveCapacity == old(effectiveCapacity)[l := capacity]
      ensures perPodCapacity.Keys == old(perPodCapacity.Keys)
      ensures Valid() <==> l in lgEnabled || capacity == old(effectiveCapacity)[l]
    {
      hide Fabric.WellFormed, Attributes, AggLists, UplinkCounts, TopRates, PodIndex, LgCounts, TopCounts, PathCache,
        LossTotals;
      AttributesShape(fabric, disabledLinks, disabled, lossRate, effectiveLossRate, effectiveCapacity, corruptingLinks,
                      lgEnabled);
      AttributesCapacity(fabric, disabledLinks, disabled, lossRate, effectiveLossRate, effectiveCapacity,
                         corruptingLinks, lgEnabled, l, capacity);
      PodIndexCapacity(fabric, Up(), l, effectiveCapacity, perPodCapacity, capacity);
      var curr := effectiveCapacity[l];
      effectiveCapacity := effectiveCapacity[l := capacity];
      perPodCapacity := ShiftPod(l, perPodCapacity, capacity - curr);
    }

    /** The effective rate of a link on which LinkGuardian runs. */
    method SetGuardedEffectiveLossRate(l: Link, rate: real)
      requires Valid() && l in lgEnabled
      modifies `effectiveLossRate, `totalEffectiveLossRate
      ensures Valid() && effectiveLossRate == old(effectiveLossRate)[l := rate]
    {
      hide Fabric.WellFormed, Attributes, AggLists, UplinkCounts, TopRates, PodIndex, LgCounts, TopCounts, PathCache,
        LossTotals;
      AttributesShape(fabric, disabledLinks, disabled, lossRate, effectiveLossRate, effectiveCapacity, corruptingLinks,
                      lgEnabled);
      AttributesGuard(fabric, disabledLinks, disabled, lossRate, effectiveLossRate, effectiveCapacity, corruptingLinks,
                      lgEnabled, l, rate, effectiveCapacity[l]);
      assert effectiveCapacity[l := effectiveCapacity[l]] == effectiveCapacity;
      SetLinkEffectiveLossRate(l, rate);
    }
  }
}
