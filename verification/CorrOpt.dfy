/** Link events, and the repairs that solutions request. */
module Events {
  import opened Fabrics

  const DAY := 24 * 3600

  datatype LinkEvent =
    | Nop
    | Failure(time: int, link: Link, lossRate: real)
    | Recovery(time: int, link: Link)

  /** The same event at another time. */
  function AtTime(e: LinkEvent, time: int): LinkEvent {
    match e
    case Nop => Nop
    case Failure(_, l, r) => Failure(time, l, r)
    case Recovery(_, l) => Recovery(time, l)
  }

  /** The repair delays of get_corropt_recovery_event; which of them applies is drawn at random there. */
  predicate IsRepairOf(e: LinkEvent, l: Link, now: int) {
    e.Recovery? && e.link == l && (e.time == now + 2 * DAY || e.time == now + 4 * DAY)
  }

  method GetRecoveryEvent(l: Link, now: int) returns (e: LinkEvent)
    ensures IsRepairOf(e, l, now)
  {
    var repairedAtOnce: bool := *;
    e := Recovery(now + (if repairedAtOnce then 2 * DAY else 4 * DAY), l);
  }

  /** One repair for each link of `d`, and nothing else. */
  ghost predicate RepairsOf(events: seq<LinkEvent>, d: set<Link>, now: int) {
    && |events| == |d|
    && (forall i :: 0 <= i < |events| ==>
          events[i].Recovery? && events[i].link in d && IsRepairOf(events[i], events[i].link, now))
    && (forall i, j :: 0 <= i < j < |events| ==> events[i].link != events[j].link)
    && (forall l :: l in d ==> exists i :: 0 <= i < |events| && events[i].link == l)
  }

  /** The links repaired by the first `i` events. */
  ghost function Repaired(events: seq<LinkEvent>, i: nat): set<Link>
    requires i <= |events| && forall j :: 0 <= j < i ==> events[j].Recovery?
  {
    set j | 0 <= j < i :: events[j].link
  }

  lemma RepairAt(events: seq<LinkEvent>, d: set<Link>, now: int, i: nat)
    requires RepairsOf(events, d, now) && i <= |events|
    ensures forall j :: 0 <= j < |events| ==> events[j].Recovery?
    ensures i < |events| ==> events[i].link in d && events[i].time >= now + 2 * DAY
    ensures i < |events| ==>
              events[i].link !in Repaired(events, i)
              && Repaired(events, i + 1) == Repaired(events, i) + {events[i].link}
    ensures i == |events| ==> Repaired(events, i) == d && |d| == i
  {
    if i == |events| {
      forall l | l in d
        ensures l in Repaired(events, i)
      {
        var j :| 0 <= j < |events| && events[j].link == l;
      }
    }
  }

  lemma NoRepairs(now: int)
    ensures RepairsOf([], {}, now)
  {
  }

  lemma {:induction false} RepairsConcat(events: seq<LinkEvent>, d: set<Link>, more: seq<LinkEvent>, e: set<Link>,
                                         now: int)
    requires RepairsOf(events, d, now) && RepairsOf(more, e, now) && d !! e
    ensures RepairsOf(events + more, d + e, now)
  {
    var all := events + more;
    forall k | k in d + e
      ensures exists i :: 0 <= i < |all| && all[i].link == k
    {
      if k in d {
        var i :| 0 <= i < |events| && events[i].link == k;
        assert all[i].link == k;
      } else {
        var i :| 0 <= i < |more| && more[i].link == k;
        assert all[|events| + i].link == k;
      }
    }
  }

  lemma RepairsAppend(events: seq<LinkEvent>, d: set<Link>, now: int, e: LinkEvent, l: Link)
    requires RepairsOf(events, d, now) && l !in d && IsRepairOf(e, l, now)
    ensures RepairsOf(events + [e], d + {l}, now)
  {
    var all := events + [e];
    forall k | k in d + {l}
      ensures exists i :: 0 <= i < |all| && all[i].link == k
    {
      if k == l {
        assert all[|events|].link == l;
      } else {
        var i :| 0 <= i < |events| && events[i].link == k;
        assert all[i].link == k;
      }
    }
  }
}

/** The CorrOpt solution: a fast check per failure, a global optimizer per recovery. */
module CorrOpt {
  import opened Collections
  import opened Fabrics
  import opened Indexes
  import opened Topologies
  import opened SubsetSearch
  import opened Events

  function Ceil(x: real): (c: int)
    ensures c as real - 1.0 < x <= c as real
  {
    -(-x).Floor
  }

  /** `min` is the least number of paths that is at least `percent` of `paths`. */
  ghost predicate Demands(min: int, paths: int, percent: real) {
    100.0 * (min - 1) as real < percent * paths as real <= 100.0 * min as real
  }

  /** The given percentage of the initial path count, rounded up. */
  function ActivePathsConstraint(initialPaths: int, percent: real): (min: int)
    ensures Demands(min, initialPaths, percent)
  {
    Ceil(initialPaths as real * percent / 100.0)
  }

  // ---------- the bulk step ----------

  /** The links of `c` that affect none of `violators`. */
  function NotUpstream(links: set<Link>, c: set<Link>, violators: set<Tor>): set<Link> {
    set l | l in c && AffectedTors(links, l) !! violators
  }

  lemma NotUpstreamNone(links: set<Link>, violators: set<Tor>)
    ensures NotUpstream(links, {}, violators) == {}
  {
  }

  lemma NotUpstreamWithin(links: set<Link>, c: set<Link>, violators: set<Tor>)
    ensures NotUpstream(links, c, violators) <= c
  {
  }

  lemma NotUpstreamStep(links: set<Link>, c: set<Link>, violators: set<Tor>, l: Link)
    requires l !in c
    ensures l !in NotUpstream(links, c, violators)
    ensures NotUpstream(links, c + {l}, violators) ==
              NotUpstream(links, c, violators) + (if violators * AffectedTors(links, l) == {} then {l} else {})
  {
  }

  lemma UnconstrainedIs(links: set<Link>, up: set<Link>, min: int, c: set<Link>)
    ensures NotUpstream(links, c, Violators(links, up, min, c)) == Unconstrained(links, up, min, c)
  {
  }

  /** The bulk step and an optimal choice among the rest, in terms of the violators found by the check. */
  lemma StagesCombine(links: set<Link>, up: set<Link>, min: int, rate: map<Link, real>, c: set<Link>,
                      violators: set<Tor>, e: set<Link>)
    requires up <= links && c <= links && c <= rate.Keys && violators == Violators(links, up, min, c)
    requires forall l :: l in c ==> 0.0 <= rate[l]
    requires var b := NotUpstream(links, c, violators); Optimal(links, up - b, min, rate, c - b, e)
    ensures var b := NotUpstream(links, c, violators); Optimal(links, up, min, rate, c, b + e) && b !! e
  {
    hide Violators, Unconstrained, NotUpstream, Optimal;
    var b := NotUpstream(links, c, violators);
    UnconstrainedIs(links, up, min, c);
    OptimalWithin(links, up - b, min, rate, c - b, e);
    TwoStagesOptimal(links, up, min, rate, c, e);
  }

  // ---------- the violation check's tallies ----------

  lemma UplinksWithout(up: set<Link>, l: Link)
    requires l in up
    ensures forall a :: |Uplinks(up - {l}, a)| == |Uplinks(up, a)| - (if l.AggCore? && l.agg == a then 1 else 0)
  {
    assert up - {l} + {l} == up;
    forall a { UplinksShift(up - {l}, l, a); }
  }

  ghost predicate Tallied(links: set<Link>, up: set<Link>, s: set<Link>,
                          exclude: map<Tor, seq<Agg>>, update: map<Agg, int>, affected: set<Tor>)
  {
    && affected == AffectedByAny(links, s)
    && (forall t :: t in exclude ==> NoDup(exclude[t]))
    && (forall t, a :: t in exclude && a in exclude[t] <==> TorAgg(t, a) in s)
    && (forall a :: a in update ==> update[a] == |Uplinks(up - s, a)|)
    && (forall l :: l in s && l.AggCore? ==> l.agg in update)
  }

  lemma TalliedNothing(links: set<Link>, up: set<Link>)
    ensures Tallied(links, up, {}, map[], map[], {})
  {
    assert AffectedByAny(links, {}) == {};
  }

  lemma TallyTorAgg(links: set<Link>, up: set<Link>, s: set<Link>, exclude: map<Tor, seq<Agg>>, update: map<Agg, int>,
                    affected: set<Tor>, l: Link)
    requires Tallied(links, up, s, exclude, update, affected) && l in up && l !in s && l.TorAgg?
    ensures Tallied(links, up, s + {l},
                    exclude[l.tor := if l.tor in exclude then exclude[l.tor] + [l.agg] else [l.agg]],
                    update, affected + AffectedTors(links, l))
  {
    assert AffectedByAny(links, s + {l}) == AffectedByAny(links, s) + AffectedTors(links, l);
    assert up - (s + {l}) == up - s - {l};
    UplinksWithout(up - s, l);
    if l.tor in exclude {
      AppendNoDup(exclude[l.tor], l.agg);
    }
  }

  lemma TallyAggCore(links: set<Link>, up: set<Link>, s: set<Link>, exclude: map<Tor, seq<Agg>>, update: map<Agg, int>,
                     affected: set<Tor>, l: Link, uplinks: int)
    requires Tallied(links, up, s, exclude, update, affected) && l in up && l !in s && l.AggCore?
    requires uplinks == |Uplinks(up, l.agg)|
    ensures Tallied(links, up, s + {l}, exclude,
                    update[l.agg := (if l.agg in update then update[l.agg] else uplinks) - 1],
                    affected + AffectedTors(links, l))
  {
    assert AffectedByAny(links, s + {l}) == AffectedByAny(links, s) + AffectedTors(links, l);
    assert up - (s + {l}) == up - s - {l};
    UplinksWithout(up - s, l);
    if l.agg !in update {
      assert Uplinks(up - s, l.agg) == Uplinks(up, l.agg);
    }
  }

  lemma TallyReady(links: set<Link>, up: set<Link>, s: set<Link>, exclude: map<Tor, seq<Agg>>, update: map<Agg, int>,
                   affected: set<Tor>, t: Tor)
    requires Tallied(links, up, s, exclude, update, affected) && s <= up
    ensures var list := if t in exclude then exclude[t] else [];
            NoDup(list) && forall a :: a in list <==> TorAgg(t, a) in s
    ensures forall a :: a in update ==> update[a] == |Uplinks(up - s, a)|
    ensures forall a :: a !in update ==> |Uplinks(up - s, a)| == |Uplinks(up, a)|
  {
    forall a | a !in update
      ensures Uplinks(up - s, a) == Uplinks(up, a)
    {}
  }

  // ---------- the solution ----------

  /** A priority queue by remaining loss rate; ties are broken arbitrarily. */
  class CandidateSubsetQueue {
    var entries: multiset<Candidate>

    constructor ()
      ensures entries == multiset{}
    {
      entries := multiset{};
    }

    predicate IsNotEmpty()
      reads this
    {
      entries != multiset{}
    }

    method Add(remaining: real, links: set<Link>)
      modifies this
      ensures entries == old(entries) + multiset{Candidate(remaining, links)}
    {
      entries := entries + multiset{Candidate(remaining, links)};
    }

    static lemma LeastExists(entries: multiset<Candidate>)
      requires entries != multiset{}
      ensures exists c :: c in entries && forall d :: d in entries ==> c.remaining <= d.remaining
      decreases |entries|
    {
      var c :| c in entries;
      var rest := entries[c := 0];
      if rest != multiset{} {
        assert |rest| < |entries|;
        LeastExists(rest);
        var m :| m in rest && forall d :: d in rest ==> m.remaining <= d.remaining;
        var least := if c.remaining <= m.remaining then c else m;
        assert forall d :: d in entries ==> d == c || d in rest;
        assert least in entries && forall d :: d in entries ==> least.remaining <= d.remaining;
      } else {
        assert forall d :: d in entries ==> d == c || d in rest;
        assert c in entries && forall d :: d in entries ==> c.remaining <= d.remaining;
      }
    }

    /** Removes an entry of least remaining loss; None is the exception on an empty queue. */
    method GetLeastLossRateSubset() returns (least: Option<Candidate>)
      modifies this
      ensures least.None? <==> old(entries) == multiset{}
      ensures least.None? ==> entries == old(entries)
      ensures least.Some? ==> least.value in old(entries) && entries == old(entries) - multiset{least.value}
      ensures least.Some? ==> forall d :: d in old(entries) ==> least.value.remaining <= d.remaining
    {
      if entries == multiset{} {
        return None;
      }
      LeastExists(entries);
      var c :| c in entries && forall d :: d in entries ==> c.remaining <= d.remaining;
      entries := entries - multiset{c};
      least := Some(c);
    }
  }

  class CorrOptSolution {
    const topo: Topology
    var minActivePaths: int
    var earlyRejects: nat
    var failedToDisable: nat

    /** The constraint is a percentage of the paths that some ToR has initially, rounded up. */
    constructor (topo: Topology, capacityConstraintPercent: real, tors: seq<Tor>)
      requires topo.Valid() && tors != [] && forall t :: t in tors <==> t in topo.fabric.tors
      ensures this.topo == topo && earlyRejects == failedToDisable == 0
      ensures Demands(minActivePaths, PathCount(topo.Up(), tors[0]), capacityConstraintPercent)
    {
      this.topo := topo;
      earlyRejects, failedToDisable := 0, 0;
      new;
      hide Topology.Valid, Uplinks, PathCount, ActivePathsConstraint, Demands;
      topo.Ready(tors[0]);
      var initialPaths := topo.GetNumPathsToCore(tors[0], [], map[], topo.Up());
      minActivePaths := ActivePathsConstraint(initialPaths, capacityConstraintPercent);
    }

    ghost predicate Allows(s: set<Link>)
      reads this, topo
    {
      Safe(topo.fabric.links, topo.Up(), minActivePaths, s)
    }

    /** The path count of `t` without `l`, by the arguments the fast checker passes. */
    method CountWithout(t: Tor, l: Link, exclude: seq<Agg>, update: map<Agg, int>) returns (paths: int)
      requires topo.Valid() && l in topo.Up() && t in AffectedTors(topo.fabric.links, l) && t in topo.fabric.tors
      requires exclude == if l.TorAgg? then [l.agg] else []
      requires update == if l.AggCore? then map[l.agg := |Uplinks(topo.Up(), l.agg)| - 1] else map[]
      ensures paths == PathCount(topo.Up() - {l}, t)
    {
      hide Topology.Valid, Uplinks, PathCount;
      topo.Ready(t);
      UplinksWithout(topo.Up(), l);
      paths := topo.GetNumPathsToCore(t, exclude, update, topo.Up() - {l});
    }

    /** Would every ToR that `l` affects keep enough paths, by the what-if path count? */
    method CanDisableSafely(l: Link) returns (safe: bool)
      requires topo.Valid() && l in topo.Up()
      ensures safe <==> Allows({l})
    {
      hide Topology.Valid, Uplinks, PathCount, AffectedTors;
      ghost var links, up := topo.fabric.links, topo.Up();
      topo.Shape();
      topo.LinkKnown(l);
      assert AffectedByAny(links, {l}) == AffectedTors(links, l);
      var exclude: seq<Agg> := if l.TorAgg? then [l.agg] else [];
      var update: map<Agg, int> := if l.AggCore? then map[l.agg := topo.activeUplinks[l.agg] - 1] else map[];
      safe := true;
      var todo := topo.fabric.affectedTors[l];
      while todo != {} && safe
        invariant todo <= AffectedTors(links, l)
        invariant safe ==> forall t :: t in AffectedTors(links, l) - todo ==> PathCount(up - {l}, t) >= minActivePaths
        invariant !safe ==> !Allows({l})
        decreases todo, safe
      {
        var t :| t in todo;
        var paths := CountWithout(t, l, exclude, update);
        if paths < minActivePaths {
          safe := false;
        } else {
          todo := todo - {t};
        }
      }
    }

    /** Per ToR the lower links that would go, per aggregation switch the uplinks that would stay, and the ToRs
        affected. */
    method Tally(linksToDisable: set<Link>)
      returns (exclude: map<Tor, seq<Agg>>, update: map<Agg, int>, affected: set<Tor>)
      requires topo.Valid() && linksToDisable <= topo.Up()
      ensures Tallied(topo.fabric.links, topo.Up(), linksToDisable, exclude, update, affected)
    {
      hide Topology.Valid, Uplinks, Tallied;
      topo.Shape();
      exclude, update, affected := map[], map[], {};
      var todo := linksToDisable;
      TalliedNothing(topo.fabric.links, topo.Up());
      assert linksToDisable - todo == {};
      while todo != {}
        invariant todo <= linksToDisable
        invariant Tallied(topo.fabric.links, topo.Up(), linksToDisable - todo, exclude, update, affected)
      {
        var l :| l in todo;
        topo.LinkKnown(l);
        if l.TorAgg? {
          TallyTorAgg(topo.fabric.links, topo.Up(), linksToDisable - todo, exclude, update, affected, l);
          exclude := exclude[l.tor := if l.tor in exclude then exclude[l.tor] + [l.agg] else [l.agg]];
        } else {
          TallyAggCore(topo.fabric.links, topo.Up(), linksToDisable - todo, exclude, update, affected, l,
                       topo.activeUplinks[l.agg]);
          update := update[l.agg := (if l.agg in update then update[l.agg] else topo.activeUplinks[l.agg]) - 1];
        }
        affected := affected + topo.fabric.affectedTors[l];
        assert linksToDisable - todo + {l} == linksToDisable - (todo - {l});
        todo := todo - {l};
      }
      assert linksToDisable - todo == linksToDisable;
    }

    /** The path count of `t` that a tally predicts. */
    method CountWhatIf(t: Tor, exclude: map<Tor, seq<Agg>>, update: map<Agg, int>,
                       ghost affected: set<Tor>, ghost s: set<Link>) returns (paths: int)
      requires topo.Valid() && s <= topo.Up() && t in topo.fabric.tors
      requires Tallied(topo.fabric.links, topo.Up(), s, exclude, update, affected)
      ensures paths == PathCount(topo.Up() - s, t)
    {
      hide Topology.Valid, Uplinks, PathCount, Tallied;
      topo.Ready(t);
      TallyReady(topo.fabric.links, topo.Up(), s, exclude, update, affected, t);
      var toExclude := if t in exclude then exclude[t] else [];
      paths := topo.GetNumPathsToCore(t, toExclude, update, topo.Up() - s);
    }

    /** The ToRs that would fall below the constraint if the given enabled links were disabled. */
    method GetTorsWithViolation(linksToDisable: set<Link>) returns (tors: set<Tor>)
      requires topo.Valid() && linksToDisable <= topo.Up()
      ensures tors == Violators(topo.fabric.links, topo.Up(), minActivePaths, linksToDisable)
    {
      ghost var links, up := topo.fabric.links, topo.Up();
      var exclude, update, affected := Tally(linksToDisable);
      assert affected == AffectedByAny(links, linksToDisable);
      hide Topology.Valid, PathCount, Tallied, AffectedByAny;
      topo.Shape();
      tors := {};
      var todo := affected;
      while todo != {}
        invariant todo <= affected
        invariant forall t :: t in tors <==>
                    t in affected && t !in todo && PathCount(up - linksToDisable, t) < minActivePaths
      {
        var t :| t in todo;
        topo.AffectedAreTors(linksToDisable, t);
        var paths := CountWhatIf(t, exclude, update, affected, linksToDisable);
        if paths < minActivePaths {
          tors := tors + {t};
        }
        todo := todo - {t};
      }
    }

    /** The affected ToRs whose cached path count is below the constraint. */
    method TorsBelowConstraint(s: set<Link>) returns (tors: set<Tor>)
      requires topo.Valid() && s <= topo.fabric.links
      ensures tors == set t | t in AffectedByAny(topo.fabric.links, s) && PathCount(topo.Up(), t) < minActivePaths
    {
      hide Topology.Valid, PathCount;
      ghost var links := topo.fabric.links;
      tors := {};
      var todo := s;
      while todo != {}
        invariant todo <= s
        invariant tors == set t | t in AffectedByAny(links, s - todo) && PathCount(topo.Up(), t) < minActivePaths
      {
        var l :| l in todo;
        topo.LinkKnown(l);
        topo.CachedCounts();
        assert AffectedByAny(links, s - (todo - {l})) == AffectedByAny(links, s - todo) + AffectedTors(links, l);
        tors := tors + set t | t in topo.fabric.affectedTors[l] && topo.numPathsToCore[t] < minActivePaths;
        todo := todo - {l};
      }
      assert s - todo == s;
    }

    /** Disables the listed links one by one. */
    method DisableInOrder(list: seq<Link>)
      requires topo.Valid() && NoDup(list) && forall l :: l in list ==> l in topo.corruptingLinks
      modifies topo
      ensures topo.Valid() && topo.CurrentState() == old(topo.CurrentState()).Without(ToSet(list))
    {
      hide Topology.Valid;
      ghost var s := topo.CurrentState();
      s.WithoutMore({}, {});
      assert ToSet(list[..0]) == {};
      for i := 0 to |list|
        invariant topo.Valid() && topo.CurrentState() == s.Without(ToSet(list[..i]))
      {
        assert list[i] in list && list[i] !in ToSet(list[..i]);
        s.WithoutMore(ToSet(list[..i]), {list[i]});
        assert ToSet(list[..i + 1]) == ToSet(list[..i]) + {list[i]};
        topo.DisableLink(list[i]);
      }
      assert list[..|list|] == list;
    }

    /** What-if equals doing it: disabling the links one by one, in any order, leaves exactly the predicted
        ToRs below the constraint. */
    method PredictAndDisable(list: seq<Link>) returns (predicted: set<Tor>, actual: set<Tor>)
      requires topo.Valid() && NoDup(list) && forall l :: l in list ==> l in topo.corruptingLinks
      modifies topo
      ensures topo.Valid() && topo.CurrentState() == old(topo.CurrentState()).Without(ToSet(list))
      ensures predicted == actual == Violators(topo.fabric.links, old(topo.Up()), minActivePaths, ToSet(list))
    {
      hide Topology.Valid, PathCount, AffectedByAny;
      topo.Shape();
      predicted := GetTorsWithViolation(ToSet(list));
      ghost var s := topo.CurrentState();
      DisableInOrder(list);
      s.WithoutMore(ToSet(list), {});
      actual := TorsBelowConstraint(ToSet(list));
    }

    method LossRateReduction(subset: set<Link>) returns (reduction: real)
      requires subset <= topo.lossRate.Keys
      ensures reduction == Sum(subset, topo.lossRate)
    {
      reduction := 0.0;
      var todo := subset;
      while todo != {}
        invariant todo <= subset
        invariant reduction + Sum(todo, topo.lossRate) == Sum(subset, topo.lossRate)
      {
        var l :| l in todo;
        SumRemove(todo, l, topo.lossRate);
        reduction := reduction + topo.lossRate[l];
        todo := todo - {l};
      }
    }

    /** Some rejected set is part of `subset`. */
    ghost predicate CoveredByCache(subset: set<Link>, rejectCache: seq<set<Link>>) {
      exists i :: 0 <= i < |rejectCache| && rejectCache[i] <= subset
    }

    /** Queues a safe subset, caches an unsafe one; supersets of cached sets are rejected without a check. */
    method ProcessSubset(subset: set<Link>, rejectCache: seq<set<Link>>, queue: CandidateSubsetQueue)
      returns (isCandidate: bool, newRejectCache: seq<set<Link>>)
      requires topo.Valid() && subset <= topo.Up()
      requires forall r :: r in rejectCache ==> !Allows(r)
      modifies `earlyRejects, queue
      ensures isCandidate <==> Allows(subset)
      ensures newRejectCache == if Allows(subset) || CoveredByCache(subset, rejectCache) then rejectCache
                                else rejectCache + [subset]
      ensures earlyRejects == old(earlyRejects) + (if CoveredByCache(subset, rejectCache) then 1 else 0)
      ensures subset <= topo.lossRate.Keys
      ensures queue.entries == old(queue.entries) +
                EntryOf(topo.fabric.links, topo.Up(), minActivePaths, topo.lossRate, topo.totalLossRate, subset)
    {
      hide Topology.Valid, Safe;
      topo.Shape();
      newRejectCache := rejectCache;
      for i := 0 to |rejectCache|
        invariant queue.entries == old(queue.entries) && earlyRejects == old(earlyRejects)
        invariant forall j :: 0 <= j < i ==> !(rejectCache[j] <= subset)
      {
        assert rejectCache[i] in rejectCache && !Allows(rejectCache[i]);
        if rejectCache[i] <= subset {
          earlyRejects := earlyRejects + 1;
          SupersetRejected(topo.fabric.links, topo.Up(), minActivePaths, rejectCache[i], subset);
          return false, newRejectCache;
        }
      }
      var violators := GetTorsWithViolation(subset);
      SafeIffNoViolators(topo.fabric.links, topo.Up(), minActivePaths, subset);
      isCandidate := violators == {};
      if isCandidate {
        var reduction := LossRateReduction(subset);
        queue.Add(topo.totalLossRate - reduction, subset);
      } else {
        newRejectCache := rejectCache + [subset];
      }
    }

    /** Processes one more subset on top of those in `seen`. */
    method ProcessNext(subset: set<Link>, rejectCache: seq<set<Link>>, queue: CandidateSubsetQueue,
                       ghost seen: set<set<Link>>)
      returns (isCandidate: bool, newRejectCache: seq<set<Link>>)
      requires topo.Valid() && subset <= topo.corruptingLinks && subset != {}
      requires forall r :: r in rejectCache ==> !Allows(r)
      requires Queued(topo.fabric.links, topo.Up(), minActivePaths, topo.lossRate, topo.totalLossRate, seen,
                      queue.entries)
      modifies `earlyRejects, queue
      ensures isCandidate <==> Allows(subset)
      ensures forall r :: r in newRejectCache ==> !Allows(r)
      ensures Queued(topo.fabric.links, topo.Up(), minActivePaths, topo.lossRate, topo.totalLossRate, seen + {subset},
                     queue.entries)
    {
      hide Topology.Valid, Safe, Queued;
      topo.Shape();
      QueuedStep(topo.fabric.links, topo.Up(), minActivePaths, topo.lossRate, topo.totalLossRate, seen, queue.entries,
                 subset);
      isCandidate, newRejectCache := ProcessSubset(subset, rejectCache, queue);
    }

    /** The corrupting links that are safe alone; each single link is queued or cached. */
    method ProcessSingles(queue: CandidateSubsetQueue)
      returns (singles: set<Link>, rejectCache: seq<set<Link>>, ghost seen: set<set<Link>>)
      requires topo.Valid() && queue.entries == multiset{}
      modifies `earlyRejects, queue
      ensures forall r :: r in rejectCache ==> !Allows(r)
      ensures forall l :: l in singles <==> l in topo.corruptingLinks && Allows({l})
      ensures seen == Singletons(topo.corruptingLinks)
      ensures Queued(topo.fabric.links, topo.Up(), minActivePaths, topo.lossRate, topo.totalLossRate, seen,
                     queue.entries)
    {
      hide Topology.Valid, Safe, Queued, Singletons;
      topo.Shape();
      singles, rejectCache, seen := {}, [], {};
      SingletonsNothing();
      assert topo.corruptingLinks - topo.corruptingLinks == {};
      QueuedNothing(topo.fabric.links, topo.Up(), minActivePaths, topo.lossRate, topo.totalLossRate);
      var todo := topo.corruptingLinks;
      while todo != {}
        invariant todo <= topo.corruptingLinks
        invariant forall r :: r in rejectCache ==> !Allows(r)
        invariant forall l :: l in singles <==> l in topo.corruptingLinks - todo && Allows({l})
        invariant seen == Singletons(topo.corruptingLinks - todo)
        invariant Queued(topo.fabric.links, topo.Up(), minActivePaths, topo.lossRate, topo.totalLossRate, seen,
                         queue.entries)
      {
        var l :| l in todo;
        var isCandidate: bool;
        isCandidate, rejectCache := ProcessNext({l}, rejectCache, queue, seen);
        seen := seen + {{l}};
        SingletonsStep(topo.corruptingLinks - todo, l);
        TakeOne(topo.corruptingLinks, todo, l);
        if isCandidate {
          singles := singles + {l};
        }
        todo := todo - {l};
      }
      assert topo.corruptingLinks - todo == topo.corruptingLinks;
    }

    /** Processes all subsets with `length` of the listed links. */
    method ProcessLength(list: seq<Link>, length: nat, cache: seq<set<Link>>, queue: CandidateSubsetQueue,
                         ghost before: set<set<Link>>)
      returns (newRejectCache: seq<set<Link>>, ghost seen: set<set<Link>>)
      requires topo.Valid() && NoDup(list) && ToSet(list) <= topo.corruptingLinks && length > 0
      requires forall r :: r in cache ==> !Allows(r)
      requires forall s :: s in before ==> s <= topo.corruptingLinks
      requires Queued(topo.fabric.links, topo.Up(), minActivePaths, topo.lossRate, topo.totalLossRate, before,
                      queue.entries)
      modifies `earlyRejects, queue
      ensures forall r :: r in newRejectCache ==> !Allows(r)
      ensures before <= seen && forall s :: s in seen ==> s <= topo.corruptingLinks
      ensures forall s :: s <= ToSet(list) && |s| == length ==> s in seen
      ensures Queued(topo.fabric.links, topo.Up(), minActivePaths, topo.lossRate, topo.totalLossRate, seen,
                     queue.entries)
    {
      hide Topology.Valid, Safe, Queued, Combinations, NoDup, ToSet;
      topo.Shape();
      newRejectCache, seen := cache, before;
      var combinations := Combinations(list, length);
      CombinationsAre(list, length);
      for i := 0 to |combinations|
        invariant forall r :: r in newRejectCache ==> !Allows(r)
        invariant before <= seen && forall s :: s in seen ==> s <= topo.corruptingLinks
        invariant forall s :: s in combinations[..i] ==> s in seen
        invariant Queued(topo.fabric.links, topo.Up(), minActivePaths, topo.lossRate, topo.totalLossRate, seen,
                         queue.entries)
      {
        var subset := combinations[i];
        assert subset in combinations && subset != {};
        var isCandidate: bool;
        isCandidate, newRejectCache := ProcessNext(subset, newRejectCache, queue, seen);
        seen := seen + {subset};
      }
      assert combinations[..|combinations|] == combinations;
    }

    /** Runs through all subsets of `singles` with two or more links, by increasing size. */
    method ProcessCombinations(singles: set<Link>, cache: seq<set<Link>>, queue: CandidateSubsetQueue,
                               ghost singlesSeen: set<set<Link>>)
      returns (ghost seen: set<set<Link>>)
      requires topo.Valid() && singles <= topo.corruptingLinks
      requires forall r :: r in cache ==> !Allows(r)
      requires forall s :: s in singlesSeen ==> s <= topo.corruptingLinks
      requires Queued(topo.fabric.links, topo.Up(), minActivePaths, topo.lossRate, topo.totalLossRate, singlesSeen,
                      queue.entries)
      modifies `earlyRejects, queue
      ensures singlesSeen <= seen && forall s :: s in seen ==> s <= topo.corruptingLinks
      ensures forall s :: s <= singles && |s| >= 2 ==> s in seen
      ensures Queued(topo.fabric.links, topo.Up(), minActivePaths, topo.lossRate, topo.totalLossRate, seen,
                     queue.entries)
    {
      hide Topology.Valid, Safe, Queued, NoDup;
      var rejectCache := cache;
      earlyRejects := 0;
      seen := singlesSeen;
      var list := SetToList(singles);
      assert ToSet(list) == singles;
      var length := 2;
      while length <= |singles|
        invariant length >= 2
        invariant forall r :: r in rejectCache ==> !Allows(r)
        invariant singlesSeen <= seen && forall s :: s in seen ==> s <= topo.corruptingLinks
        invariant forall s :: s <= singles && 2 <= |s| < length ==> s in seen
        invariant Queued(topo.fabric.links, topo.Up(), minActivePaths, topo.lossRate, topo.totalLossRate, seen,
                         queue.entries)
      {
        rejectCache, seen := ProcessLength(list, length, rejectCache, queue, seen);
        length := length + 1;
      }
      forall s | s <= singles && |s| >= 2
        ensures s in seen
      {
        SubsetCardinality(s, singles);
      }
    }

    /** Singles first, then, if there are any, combinations of the safe singles. */
    method Explore(queue: CandidateSubsetQueue) returns (ghost seen: set<set<Link>>)
      requires topo.Valid() && queue.entries == multiset{}
      modifies `earlyRejects, queue
      ensures Queued(topo.fabric.links, topo.Up(), minActivePaths, topo.lossRate, topo.totalLossRate, seen,
                     queue.entries)
      ensures Explored(topo.fabric.links, topo.Up(), minActivePaths, topo.corruptingLinks, seen)
      ensures forall s :: s in seen ==> s <= topo.corruptingLinks
    {
      hide Topology.Valid, Safe, Queued, Explored, Singletons;
      var singles, rejectCache;
      singles, rejectCache, seen := ProcessSingles(queue);
      SingletonsAre(topo.corruptingLinks);
      if queue.IsNotEmpty() {
        ghost var singlesSeen := seen;
        seen := ProcessCombinations(singles, rejectCache, queue, singlesSeen);
        SinglesAndCombinationsExplore(topo.fabric.links, topo.Up(), minActivePaths, topo.corruptingLinks, singles,
                                      seen);
      } else {
        NoSinglesExplore(topo.fabric.links, topo.Up(), minActivePaths, topo.lossRate, topo.totalLossRate,
                         topo.corruptingLinks, seen, queue.entries);
      }
    }

    /** The subset search: the explored subset of least remaining loss wins. */
    method FindLeastSubset() returns (least: Option<Candidate>)
      requires topo.Valid() && forall l :: l in topo.corruptingLinks && l in topo.lossRate ==> 0.0 <= topo.lossRate[l]
      modifies `earlyRejects
      ensures least.Some? ==> least.value.links != {}
      ensures Optimal(topo.fabric.links, topo.Up(), minActivePaths, topo.lossRate, topo.corruptingLinks,
                      if least.Some? then least.value.links else {})
    {
      hide Topology.Valid, Safe, Optimal, Queued, Explored;
      topo.Shape();
      var queue := new CandidateSubsetQueue();
      ghost var seen := Explore(queue);
      ghost var entries := queue.entries;
      least := queue.GetLeastLossRateSubset();
      LeastIsOptimal(topo.fabric.links, topo.Up(), minActivePaths, topo.lossRate, topo.totalLossRate,
                     topo.corruptingLinks, seen, entries, least);
    }

    /** Disables `l` and requests its repair. */
    method DisableWithRepair(l: Link, now: int) returns (e: LinkEvent)
      requires topo.Valid() && l in topo.corruptingLinks
      modifies topo
      ensures topo.Valid() && topo.CurrentState() == old(topo.CurrentState()).Without({l})
      ensures IsRepairOf(e, l, now)
    {
      hide Topology.Valid;
      topo.DisableLink(l);
      e := GetRecoveryEvent(l, now);
    }

    /** Disables `l` if that is safe, and requests its repair. */
    method FastChecker(l: Link, now: int) returns (e: LinkEvent)
      requires topo.Valid() && l in topo.corruptingLinks
      modifies `failedToDisable, topo
      ensures topo.Valid()
      ensures if old(Allows({l})) then
                && IsRepairOf(e, l, now) && failedToDisable == old(failedToDisable)
                && topo.CurrentState() == old(topo.CurrentState()).Without({l})
              else
                && e == Nop && failedToDisable == old(failedToDisable) + 1
                && topo.CurrentState() == old(topo.CurrentState())
    {
      hide Topology.Valid, Safe, AffectedTors;
      topo.Shape();
      var safe := CanDisableSafely(l);
      if safe {
        e := DisableWithRepair(l, now);
      } else {
        failedToDisable := failedToDisable + 1;
        e := Nop;
      }
    }

    /** Disables `l` and appends its repair to `events`, the repairs of `before`. */
    method DisableAndSchedule(l: Link, now: int, events: seq<LinkEvent>, ghost before: set<Link>)
      returns (newEvents: seq<LinkEvent>)
      requires topo.Valid() && l in topo.corruptingLinks && l !in before && RepairsOf(events, before, now)
      modifies topo
      ensures topo.Valid() && topo.CurrentState() == old(topo.CurrentState()).Without({l})
      ensures RepairsOf(newEvents, before + {l}, now)
    {
      hide Topology.Valid, RepairsOf;
      var e := DisableWithRepair(l, now);
      RepairsAppend(events, before, now, e, l);
      newEvents := events + [e];
    }

    /** Disables `l` if it is upstream of no ToR of `violators`. */
    method DisableIfUnconstrained(l: Link, violators: set<Tor>, now: int, events: seq<LinkEvent>,
                                  ghost before: set<Link>)
      returns (newEvents: seq<LinkEvent>, ghost d: set<Link>)
      requires topo.Valid() && l in topo.corruptingLinks && l !in before && RepairsOf(events, before, now)
      modifies topo
      ensures d == if violators * AffectedTors(topo.fabric.links, l) == {} then {l} else {}
      ensures topo.Valid() && topo.CurrentState() == old(topo.CurrentState()).Without(d)
      ensures RepairsOf(newEvents, before + d, now)
    {
      hide Topology.Valid, RepairsOf, AffectedTors;
      topo.Shape();
      topo.LinkKnown(l);
      topo.CurrentState().WithoutMore({}, {});
      newEvents, d := events, {};
      assert before + {} == before;
      if violators * topo.fabric.affectedTors[l] == {} {
        newEvents := DisableAndSchedule(l, now, events, before);
        d := {l};
      }
    }

    /** The bulk step: disables the corrupting links upstream of no ToR of `violators`. */
    method DisableUnconstrained(violators: set<Tor>, now: int) returns (events: seq<LinkEvent>)
      requires topo.Valid()
      modifies topo
      ensures topo.Valid()
      ensures var b := NotUpstream(topo.fabric.links, old(topo.corruptingLinks), violators);
              topo.CurrentState() == old(topo.CurrentState()).Without(b) && RepairsOf(events, b, now)
    {
      hide Topology.Valid, RepairsOf, NotUpstream, AffectedTors;
      ghost var s, links, c, b := topo.CurrentState(), topo.fabric.links, topo.corruptingLinks, {};
      events := [];
      NoRepairs(now);
      var todo := topo.corruptingLinks;
      NotUpstreamNone(links, violators);
      assert c - todo == {};
      topo.Shape();
      s.WithoutMore({}, {});
      while todo != {}
        invariant topo.Valid() && topo.CurrentState() == s.Without(b)
        invariant todo <= c && b == NotUpstream(links, c - todo, violators) && b !! todo
        invariant RepairsOf(events, b, now)
      {
        var l :| l in todo;
        TakeOne(c, todo, l);
        NotUpstreamStep(links, c - todo, violators, l);
        ghost var d;
        events, d := DisableIfUnconstrained(l, violators, now, events, b);
        s.WithoutMore(b, d);
        b := b + d;
        todo := todo - {l};
      }
      assert c - todo == c;
    }

    /** Disables every link of `subset` and schedules its repair. */
    method DisableSubset(subset: set<Link>, now: int) returns (events: seq<LinkEvent>)
      requires topo.Valid() && subset <= topo.corruptingLinks
      modifies topo
      ensures topo.Valid() && topo.CurrentState() == old(topo.CurrentState()).Without(subset)
      ensures RepairsOf(events, subset, now)
    {
      hide Topology.Valid, RepairsOf;
      ghost var s := topo.CurrentState();
      events := [];
      NoRepairs(now);
      var todo := subset;
      assert subset - todo == {};
      s.WithoutMore({}, {});
      while todo != {}
        invariant topo.Valid() && todo <= subset && topo.CurrentState() == s.Without(subset - todo)
        invariant RepairsOf(events, subset - todo, now)
      {
        var l :| l in todo;
        TakeOne(subset, todo, l);
        s.WithoutMore(subset - todo, {l});
        events := DisableAndSchedule(l, now, events, subset - todo);
        todo := todo - {l};
      }
      assert subset - todo == subset;
    }

    /** Searches the remaining corrupting links and disables the best subset found, `d`. */
    method DisableLeastSubset(now: int) returns (events: seq<LinkEvent>, ghost d: set<Link>)
      requires topo.Valid() && forall l :: l in topo.corruptingLinks && l in topo.lossRate ==> 0.0 <= topo.lossRate[l]
      modifies `earlyRejects, topo
      ensures topo.Valid() && topo.CurrentState() == old(topo.CurrentState()).Without(d) && RepairsOf(events, d, now)
      ensures Optimal(topo.fabric.links, old(topo.Up()), minActivePaths, topo.lossRate, old(topo.corruptingLinks), d)
    {
      hide Topology.Valid, RepairsOf, Optimal;
      topo.CurrentState().WithoutMore({}, {});
      NoRepairs(now);
      NothingOptimal(topo.fabric.links, topo.Up(), minActivePaths, topo.lossRate);
      events, d := [], {};
      if topo.corruptingLinks != {} {
        var least := FindLeastSubset();
        if least.Some? {
          d := least.value.links;
          OptimalWithin(topo.fabric.links, topo.Up(), minActivePaths, topo.lossRate, topo.corruptingLinks, d);
          events := DisableSubset(least.value.links, now);
        }
      }
    }

    /** Violators, bulk step, subset search. */
    method DisableInTwoStages(now: int) returns (events: seq<LinkEvent>, ghost d: set<Link>)
      requires topo.Valid() && forall l :: l in topo.corruptingLinks && l in topo.lossRate ==> 0.0 <= topo.lossRate[l]
      modifies `earlyRejects, topo
      ensures topo.Valid() && topo.CurrentState() == old(topo.CurrentState()).Without(d) && RepairsOf(events, d, now)
      ensures Optimal(topo.fabric.links, old(topo.Up()), minActivePaths, topo.lossRate, old(topo.corruptingLinks), d)
    {
      hide Topology.Valid, RepairsOf, Optimal, Violators, Unconstrained, NotUpstream, Safe;
      ghost var s, links, min := topo.CurrentState(), topo.fabric.links, minActivePaths;
      topo.Shape();
      var violators := GetTorsWithViolation(topo.corruptingLinks);
      ghost var b := NotUpstream(links, s.corrupting, violators);
      NotUpstreamWithin(links, s.corrupting, violators);
      var bulk := DisableUnconstrained(violators, now);
      ghost var e;
      var rest;
      s.WithoutMore(b, {});
      rest, e := DisableLeastSubset(now);
      StagesCombine(links, s.Up(), min, s.rate, s.corrupting, violators, e);
      s.WithoutMore(b, e);
      RepairsConcat(bulk, b, rest, e, now);
      events, d := bulk + rest, b + e;
    }

    /** The global optimizer: the set `d` it disables is an optimal safe subset of the corrupting links. */
    method Optimize(now: int) returns (events: seq<LinkEvent>, ghost d: set<Link>)
      requires topo.Valid() && forall l :: l in topo.corruptingLinks && l in topo.lossRate ==> 0.0 <= topo.lossRate[l]
      modifies `earlyRejects, topo
      ensures topo.Valid() && topo.CurrentState() == old(topo.CurrentState()).Without(d) && RepairsOf(events, d, now)
      ensures Optimal(topo.fabric.links, old(topo.Up()), minActivePaths, topo.lossRate, old(topo.corruptingLinks), d)
    {
      hide Topology.Valid, RepairsOf, Optimal;
      if topo.corruptingLinks == {} {
        topo.CurrentState().WithoutMore({}, {});
        NothingOptimal(topo.fabric.links, topo.Up(), minActivePaths, topo.lossRate);
        NoRepairs(now);
        events, d := [], {};
      } else {
        events, d := DisableInTwoStages(now);
      }
    }
  }
}
