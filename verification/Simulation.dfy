/** The event loop: one event at a time against the topology, until no event is left. */
module Simulations {
  import opened Collections
  import opened Fabrics
  import opened Indexes
  import opened Topologies
  import opened SubsetSearch
  import opened Events
  import opened CorrOpt
  import opened LinkGuardian
  import opened EventQueues
  import opened Metrics
  import opened PendingEvents
  import opened Transitions

  /** LinkGuardian, if used and supported by `l`, can look up the rate. */
  ghost predicate CanGuard(lgCapable: set<Link>, table: Option<PerfTable>, l: Link, lossRate: real) {
    table.Some? && l in lgCapable ==> table.value.Covers(lossRate)
  }

  datatype Solution = CorrOptOnly(corropt: CorrOptSolution) | LgCorrOpt(hybrid: LgCorrOptSolution)
  {
    function Checker(): CorrOptSolution {
      if CorrOptOnly? then corropt else hybrid.corropt
    }

    function Topo(): Topology {
      Checker().topo
    }

    function Table(): Option<PerfTable> {
      if CorrOptOnly? then None else Some(hybrid.linkguardian.table)
    }

    ghost predicate Wired() {
      LgCorrOpt? ==> hybrid.Wired()
    }

    /** The objects a solution works on. */
    function Objects(): set<object> {
      if CorrOptOnly? then {corropt, corropt.topo}
      else {hybrid, hybrid.linkguardian, hybrid.corropt, hybrid.corropt.topo}
    }

    method ProcessFailureEvent(topo: Topology, l: Link, lossRate: real, now: int)
      returns (e: LinkEvent, ghost guarded: State)
      requires Wired() && Topo() == topo && topo.Valid() && l in topo.corruptingLinks
      requires CanGuard(topo.fabric.lgCapable, Table(), l, lossRate)
      modifies Objects()
      ensures topo.Valid() && Guarding(Table(), old(topo.CurrentState()), guarded, l, lossRate)
      ensures Checker().minActivePaths == old(Checker().minActivePaths)
      ensures e.Recovery? <==> old(Checker().Allows({l}))
      ensures if e.Recovery? then IsRepairOf(e, l, now) && topo.CurrentState() == guarded.Without({l})
              else e == Nop && topo.CurrentState() == guarded
    {
      hide Topology.Valid, Safe, PerfTable.Guarded, PerfTable.Covers;
      match this {
        case CorrOptOnly(corropt) =>
          guarded := topo.CurrentState();
          e := corropt.FastChecker(l, now);
        case LgCorrOpt(hybrid) =>
          e, guarded := hybrid.ProcessFailure(l, lossRate, now);
      }
    }
  }

  /** A failure in the trace: a link of the fabric, at a positive rate that the solution can deal with. */
  ghost predicate IsTraceEvent(links: set<Link>, lgCapable: set<Link>, table: Option<PerfTable>, e: LinkEvent) {
    e.Failure? && e.link in links && e.lossRate > 0.0 && CanGuard(lgCapable, table, e.link, e.lossRate)
  }

  /** What holds of the trace's events does not depend on their times. */
  lemma LoadedTraceEvents(links: set<Link>, lgCapable: set<Link>, table: Option<PerfTable>, trace: seq<LinkEvent>,
                          loaded: seq<LinkEvent>)
    requires Enqueued({}, trace, loaded)
    requires forall i :: 0 <= i < |trace| ==> IsTraceEvent(links, lgCapable, table, trace[i])
    ensures forall e :: e in loaded ==> IsTraceEvent(links, lgCapable, table, e)
  {
    hide Enqueued;
    forall e | e in loaded
      ensures IsTraceEvent(links, lgCapable, table, e)
    {
      var i :| 0 <= i < |loaded| && loaded[i] == e;
      EnqueuedFrom({}, trace, loaded, i);
      assert IsTraceEvent(links, lgCapable, table, trace[i]);
    }
  }

  lemma TraceEventKnown(links: set<Link>, lgCapable: set<Link>, table: Option<PerfTable>, e: LinkEvent)
    requires IsTraceEvent(links, lgCapable, table, e)
    ensures e.Failure? && e.link in links && e.lossRate > 0.0 && CanGuard(lgCapable, table, e.link, e.lossRate)
  {
  }

  lemma QueuedLater(queue: EventQueue, now: int)
    requires queue.Valid() && queue.After(now)
    ensures forall e :: e in queue.queue ==> !e.Nop? && now < e.time
  {
  }

  lemma SkippedTurn(table: Option<PerfTable>, min: int, m: Moment, queue: EventQueue, e: LinkEvent)
    requires e.Failure? && e.link !in m.state.Up() && m.pending == queue.queue
    requires queue.Valid() && queue.After(e.time) && e !in queue.queue
    ensures Turn(table, min, m.(pending := m.pending + {e}), e, m)
  {
    hide Scheduled;
    NothingScheduled(m.pending, m.used, e.time);
    assert m.state.down - m.state.down == {};
    TurnMade(table, min, m, e, m, {});
  }

  lemma Untouched(topo: Topology, min: int)
    requires topo.Valid() && topo.corruptingLinks == {}
    ensures Settled(min, topo.CurrentState())
  {
  }

  lemma NoDumper(solution: Solution, dumper: DataDumper)
    ensures dumper !in solution.Objects()
  {
  }

  lemma NothingProcessed(history: seq<Moment>)
    ensures ProcessedCount(history, []) == 0
  {
  }

  /** A link that comes back repaired has a positive rate, and the rates of the corrupting links stay positive. */
  lemma RepairedRates(s: State, min: int, l: Link)
    requires s.Proper() && Settled(min, s) && l in s.fabric.capacity
    ensures forall k :: k in s.Repaired(l).corrupting && k in s.Repaired(l).rate ==> 0.0 <= s.Repaired(l).rate[k]
  {
  }

  class Simulation {
    const topo: Topology
    const solution: Solution
    const queue: EventQueue
    ghost const checker: CorrOptSolution
    ghost const loaded: seq<LinkEvent>
    var skippedLossEvents: nat
    var addedRecoveryEvents: nat

    ghost predicate Wired() {
      && solution.Wired() && solution.Topo() == topo && solution.Checker() == checker
      && topo in solution.Objects() && checker in solution.Objects()
      && this !in solution.Objects() && queue !in solution.Objects()
    }

    /** Loads the failure trace into the queue of a simulation over an untouched topology. */
    constructor (topo: Topology, solution: Solution, trace: seq<LinkEvent>)
      requires solution.Wired() && solution.Topo() == topo && topo.Valid()
      requires topo.disabledLinks == {} && topo.corruptingLinks == {}
      requires forall i :: 0 <= i < |trace| ==>
                 IsTraceEvent(topo.fabric.links, topo.fabric.lgCapable, solution.Table(), trace[i])
      ensures this.topo == topo && this.solution == solution && checker == solution.Checker() && fresh(queue)
      ensures Inv() && skippedLossEvents == addedRecoveryEvents == 0
      ensures Enqueued({}, trace, loaded) && (forall e :: e in queue.queue <==> e in loaded)
      ensures queue.timestamps == Times(loaded)
      ensures |queue.queue| == queue.currQueueLength == |trace|
    {
      hide Topology.Valid, Matched, Settled, Enqueued, Times;
      var events;
      ghost var load;
      events, load := LoadTrace(trace);
      LoadedTraceEvents(topo.fabric.links, topo.fabric.lgCapable, solution.Table(), trace, load);
      FailuresMatched(events.queue);
      this.topo, this.solution, this.queue := topo, solution, events;
      this.checker, this.loaded := solution.Checker(), load;
      skippedLossEvents, addedRecoveryEvents := 0, 0;
      new;
      Untouched(topo, Min());
    }

    ghost function Min(): int
      reads checker
    {
      checker.minActivePaths
    }

    /** The present moment. */
    ghost function Now(): Moment
      reads topo, queue
    {
      Moment(topo.CurrentState(), queue.queue, queue.timestamps)
    }

    /** Pending failures are trace events; pending recoveries match the disabled links. */
    ghost predicate PendingOk(pending: set<LinkEvent>)
      reads topo
    {
      && Matched(topo.disabledLinks, pending)
      && forall e :: e in pending && e.Failure? ==>
           IsTraceEvent(topo.fabric.links, topo.fabric.lgCapable, solution.Table(), e)
    }

    /** What holds between any two events. */
    ghost predicate SettledNow()
      reads topo, checker
    {
      Wired() && topo.Valid() && Settled(Min(), topo.CurrentState())
    }

    ghost predicate Inv()
      reads topo, checker, queue
    {
      SettledNow() && queue.Valid() && PendingOk(queue.queue)
    }

    /** Every popped event is processed or skipped; every queued one is counted as added. */
    ghost predicate Accounted(processed: bool, queued: int, skipped: int, added: int)
      reads this, queue
    {
      && skippedLossEvents == skipped + (if processed then 0 else 1)
      && |queue.queue| - queued == addedRecoveryEvents - added
    }

    /** The raw loss bookkeeping of a failure: heap first, then rate and total, then the corrupting set. */
    method RecordRawRate(l: Link, rate: real)
      requires topo.Valid() && l in topo.Up()
      modifies topo`topLossRates, topo`lossRate, topo`totalLossRate, topo`corruptingLinks
      ensures topo.corruptingLinks == old(topo.corruptingLinks) + {l} && topo.lossRate == old(topo.lossRate)[l := rate]
      ensures TopRates(topo.corruptingLinks, topo.lossRate, topo.topLossRates)
      ensures LossTotals(topo.Up(), topo.lossRate, topo.totalLossRate)
    {
      hide Fabric.WellFormed, Attributes, AggLists, UplinkCounts, TopRates, PodIndex, LgCounts, TopCounts, PathCache,
        LossTotals;
      topo.Shape();
      topo.RecordLinkTopLossRate(l, rate);
      topo.SetLinkLossRate(l, rate);
      topo.corruptingLinks := topo.corruptingLinks + {l};
    }

    /** The topology's part of a failure. */
    method RecordFailure(l: Link, rate: real)
      requires topo.Valid() && l in topo.Up()
      modifies topo`topLossRates, topo`lossRate, topo`totalLossRate, topo`corruptingLinks
      modifies topo`effectiveLossRate, topo`totalEffectiveLossRate
      ensures topo.Valid() && topo.CurrentState() == Recorded(old(topo.CurrentState()), l, rate)
    {
      hide Fabric.WellFormed, Attributes, AggLists, UplinkCounts, TopRates, PodIndex, LgCounts, TopCounts, PathCache,
        LossTotals;
      AttributesFail(topo.fabric, topo.disabledLinks, topo.disabled, topo.lossRate, topo.effectiveLossRate,
                     topo.effectiveCapacity, topo.corruptingLinks, topo.lgEnabled, l, rate);
      RecordRawRate(l, rate);
      if l !in topo.lgEnabled {
        topo.SetLinkEffectiveLossRate(l, rate);
      }
    }

    /** Queues one repair, after `asked` have been queued as `queued` on top of `before` and `used`. */
    method Schedule(event: LinkEvent, now: int, ghost base: set<Link>, ghost before: set<LinkEvent>,
                    ghost used: set<int>, ghost asked: seq<LinkEvent>, ghost queued: seq<LinkEvent>)
      returns (ghost more: seq<LinkEvent>)
      requires queue.Valid() && queue.After(now) && event.Recovery? && event.time > now
      requires Matched(base, queue.queue) && event.link !in base
      requires Appended(before, used, asked, queued, queue.queue, queue.timestamps)
      modifies queue, `addedRecoveryEvents
      ensures queue.Valid() && queue.After(now) && Matched(base + {event.link}, queue.queue)
      ensures Appended(before, used, asked + [event], more, queue.queue, queue.timestamps)
      ensures forall e :: e in queue.queue ==> e in old(queue.queue) || e.Recovery?
      ensures |queue.queue| == old(|queue.queue|) + 1 && addedRecoveryEvents == old(addedRecoveryEvents) + 1
      ensures forall c :: Work(queue.queue, c) == Work(old(queue.queue), c) + 1
    {
      hide Matched, Work, Appended;
      ghost var pending, taken := queue.queue, queue.timestamps;
      ghost var added := queue.AddEvent(event);
      forall c ensures Work(pending + {added}, c) == Work(pending, c) + 1 { WorkSchedule(pending, c, added); }
      MatchedSchedule(base, pending, added);
      AppendedOneMore(before, used, asked, queued, pending, taken, event, added);
      more := queued + [added];
      addedRecoveryEvents := addedRecoveryEvents + 1;
    }

    /** Queues the repairs of `d`, the links just disabled on top of `base`. */
    method ScheduleAll(events: seq<LinkEvent>, now: int, ghost base: set<Link>, ghost d: set<Link>)
      requires queue.Valid() && queue.After(now) && RepairsOf(events, d, now)
      requires Matched(base, queue.queue) && base !! d
      modifies queue, `addedRecoveryEvents
      ensures queue.Valid() && queue.After(now) && Matched(base + d, queue.queue)
      ensures Scheduled(old(queue.queue), old(queue.timestamps), d, now, queue.queue, queue.timestamps)
      ensures forall e :: e in queue.queue ==> e in old(queue.queue) || e.Recovery?
      ensures |queue.queue| == old(|queue.queue|) + |d| && addedRecoveryEvents == old(addedRecoveryEvents) + |d|
      ensures forall c :: Work(queue.queue, c) == Work(old(queue.queue), c) + |d|
    {
      hide Matched, Work, RepairsOf, EventQueue.Valid, EventQueue.After, Appended;
      ghost var before, used := queue.queue, queue.timestamps;
      ghost var queued := [];
      RepairAt(events, d, now, 0);
      AppendedNothing(before, used);
      Prefixes(events, 0);
      assert Repaired(events, 0) == {} && base + {} == base;
      for i := 0 to |events|
        invariant queue.Valid() && queue.After(now)
        invariant Matched(base + Repaired(events, i), queue.queue)
        invariant Appended(before, used, events[..i], queued, queue.queue, queue.timestamps)
        invariant forall e :: e in queue.queue ==> e in before || e.Recovery?
        invariant |queue.queue| == |before| + i && addedRecoveryEvents == old(addedRecoveryEvents) + i
        invariant forall c :: Work(queue.queue, c) == Work(before, c) + i
      {
        RepairAt(events, d, now, i);
        SetSteps(base, Repaired(events, i), {events[i].link});
        Prefixes(events, i);
        queued := Schedule(events[i], now, base + Repaired(events, i), before, used, events[..i], queued);
      }
      RepairAt(events, d, now, |events|);
    }

    /** A failure on an enabled link: recorded, then handed to the solution. */
    method FailLink(l: Link, rate: real, now: int) returns (requested: LinkEvent)
      requires SettledNow() && l in topo.Up() && rate > 0.0
      requires CanGuard(topo.fabric.lgCapable, solution.Table(), l, rate)
      modifies solution.Objects()
      ensures SettledNow() && Min() == old(Min())
      ensures FailureEffect(solution.Table(), Min(), old(topo.CurrentState()), topo.CurrentState(), l, rate)
      ensures topo.fabric == old(topo.fabric)
      ensures MeetsConstraint(Min(), old(topo.CurrentState())) ==> MeetsConstraint(Min(), topo.CurrentState())
      ensures if requested.Recovery? then
                && IsRepairOf(requested, l, now) && topo.disabledLinks == old(topo.disabledLinks) + {l}
                && topo.corruptingLinks == old(topo.corruptingLinks) + {l} - {l}
              else
                topo.disabledLinks == old(topo.disabledLinks) && topo.corruptingLinks == old(topo.corruptingLinks) + {l}
    {
      hide Topology.Valid, Settled, MeetsConstraint, Safe, Guarding, State.Proper;
      ghost var s := topo.CurrentState();
      topo.IsProper();
      RecordFailure(l, rate);
      assert checker.Allows({l}) <==> Safe(s.fabric.links, s.Up(), Min(), {l});
      ghost var guarded;
      requested, guarded := solution.ProcessFailureEvent(topo, l, rate, now);
      assert FailureVia(solution.Table(), Min(), s, guarded, topo.CurrentState(), l, rate);
      FailureSettles(solution.Table(), Min(), s, guarded, topo.CurrentState(), l, rate);
    }

    /** Schedules the repair that FailLink requested, if any, for the links `d` that went down on top of `base`. */
    method ScheduleRequested(requested: LinkEvent, now: int, ghost base: set<Link>, ghost d: set<Link>)
      requires queue.Valid() && queue.After(now) && Matched(base, queue.queue) && base !! d
      requires if requested.Recovery? then IsRepairOf(requested, requested.link, now) && d == {requested.link}
               else d == {}
      modifies queue, `addedRecoveryEvents
      ensures queue.Valid() && queue.After(now) && Matched(base + d, queue.queue)
      ensures Scheduled(old(queue.queue), old(queue.timestamps), d, now, queue.queue, queue.timestamps)
      ensures forall e :: e in queue.queue ==> e in old(queue.queue) || e.Recovery?
      ensures |queue.queue| == old(|queue.queue|) + |d| && addedRecoveryEvents == old(addedRecoveryEvents) + |d|
      ensures forall c :: Work(queue.queue, c) == Work(old(queue.queue), c) + |d|
    {
      hide Matched, Work, Scheduled, RepairsOf, Appended, EventQueue.Valid, EventQueue.After;
      ghost var before, used := queue.queue, queue.timestamps;
      NothingScheduled(before, used, now);
      assert base + {} == base;
      if requested.Recovery? {
        AppendedNothing(before, used);
        ghost var queued := Schedule(requested, now, base, before, used, [], []);
        ScheduledOne(before, used, requested, queued, now, queue.queue, queue.timestamps);
      }
    }

    /** A failure event on an enabled link. */
    method HandleLiveFailure(event: LinkEvent)
      requires SettledNow() && queue.Valid() && event.Failure? && queue.After(event.time) && event.link in topo.Up()
      requires event !in queue.queue && PendingOk(queue.queue + {event})
      modifies solution.Objects(), queue, `addedRecoveryEvents
      ensures Inv() && queue.After(event.time) && Min() == old(Min()) && topo.fabric == old(topo.fabric)
      ensures MeetsConstraint(Min(), old(topo.CurrentState())) ==> MeetsConstraint(Min(), topo.CurrentState())
      ensures Turn(solution.Table(), Min(), old(Now()).(pending := old(queue.queue) + {event}), event, Now())
      ensures Work(queue.queue, topo.corruptingLinks) < Work(old(queue.queue) + {event}, old(topo.corruptingLinks))
      ensures Accounted(true, old(|queue.queue|), old(skippedLossEvents), old(addedRecoveryEvents))
    {
      hide Topology.Valid, Matched, Settled, MeetsConstraint, Work, EventQueue.Valid, FailureEffect, Scheduled, Turn,
        IsTraceEvent, Solution.Objects, Solution.Checker, Solution.Topo, Solution.Wired;
      ghost var m, s, pending, c := Now(), topo.CurrentState(), queue.queue, topo.corruptingLinks;
      assert event in pending + {event};
      TraceEventKnown(topo.fabric.links, topo.fabric.lgCapable, solution.Table(), event);
      FailureDone(s.down, pending, c, event);
      QueuedLater(queue, event.time);
      var requested := FailLink(event.link, event.lossRate, event.time);
      ghost var d := if requested.Recovery? then {event.link} else {};
      assert s.down + d == topo.disabledLinks && d == topo.disabledLinks - s.down;
      ScheduleRequested(requested, event.time, s.down, d);
      TurnMade(solution.Table(), Min(), m, event, Now(), d);
    }

    /** A failure event on a disabled link only counts. */
    method SkipFailure(event: LinkEvent)
      requires SettledNow() && queue.Valid() && event.Failure? && queue.After(event.time) && event.link !in topo.Up()
      requires event !in queue.queue && PendingOk(queue.queue + {event})
      modifies `skippedLossEvents
      ensures skippedLossEvents == old(skippedLossEvents) + 1 && PendingOk(queue.queue)
      ensures Turn(solution.Table(), Min(), Now().(pending := queue.queue + {event}), event, Now())
      ensures Work(queue.queue, topo.corruptingLinks) < Work(queue.queue + {event}, topo.corruptingLinks)
    {
      hide Topology.Valid, Matched, Settled, Work, EventQueue.Valid, EventQueue.After, Turn, IsTraceEvent,
        Solution.Objects, Solution.Checker, Solution.Topo, Solution.Wired;
      SkippedTurn(solution.Table(), Min(), Now(), queue, event);
      FailureDone(topo.disabledLinks, queue.queue, topo.corruptingLinks, event);
      skippedLossEvents := skippedLossEvents + 1;
    }

    /** A failure event: skipped on a disabled link, otherwise the link fails. */
    method HandleFailure(event: LinkEvent) returns (processed: bool)
      requires SettledNow() && queue.Valid() && event.Failure? && queue.After(event.time)
      requires event !in queue.queue && PendingOk(queue.queue + {event})
      modifies solution.Objects(), queue, `skippedLossEvents, `addedRecoveryEvents
      ensures Inv() && queue.After(event.time) && Min() == old(Min()) && topo.fabric == old(topo.fabric)
      ensures MeetsConstraint(Min(), old(topo.CurrentState())) ==> MeetsConstraint(Min(), topo.CurrentState())
      ensures Turn(solution.Table(), Min(), old(Now()).(pending := old(queue.queue) + {event}), event, Now())
      ensures processed <==> !Skips(old(topo.CurrentState()), event)
      ensures Work(queue.queue, topo.corruptingLinks) < Work(old(queue.queue) + {event}, old(topo.corruptingLinks))
      ensures Accounted(processed, old(|queue.queue|), old(skippedLossEvents), old(addedRecoveryEvents))
    {
      hide Topology.Valid, Matched, Settled, MeetsConstraint, Work, EventQueue.Valid, EventQueue.After, Turn,
        IsTraceEvent, Solution.Objects, Solution.Checker, Solution.Topo, Solution.Wired;
      assert event in queue.queue + {event};
      TraceEventKnown(topo.fabric.links, topo.fabric.lgCapable, solution.Table(), event);
      topo.FlagOf(event.link);
      processed := !topo.IsLinkDisabled(event.link);
      if processed {
        HandleLiveFailure(event);
      } else {
        SkipFailure(event);
      }
    }

    /** Repairs `l`, then lets the optimizer disable its choice `d`. */
    method RepairLink(l: Link, now: int) returns (requested: seq<LinkEvent>, ghost d: set<Link>)
      requires SettledNow() && l in topo.disabledLinks
      modifies topo, checker
      ensures SettledNow() && Min() == old(Min()) && topo.fabric == old(topo.fabric)
      ensures RepairEffect(Min(), old(topo.CurrentState()), topo.CurrentState(), l, d) && RepairsOf(requested, d, now)
      ensures MeetsConstraint(Min(), old(topo.CurrentState())) ==> MeetsConstraint(Min(), topo.CurrentState())
      ensures d <= old(topo.corruptingLinks) && d !! old(topo.disabledLinks)
      ensures topo.corruptingLinks == old(topo.corruptingLinks) - d
      ensures topo.disabledLinks == old(topo.disabledLinks) - {l} + d
    {
      hide Topology.Valid, MeetsConstraint, Maximal, PositiveRates, Optimal, RepairsOf, State.Proper, Safe;
      ghost var s := topo.CurrentState();
      topo.Shape();
      topo.IsProper();
      topo.EnableLink(l);
      assert topo.CurrentState() == s.Repaired(l);
      RepairedRates(s, Min(), l);
      requested, d := solution.Checker().Optimize(now);
      RepairSettles(Min(), s, topo.CurrentState(), l, d);
    }

    /** Schedules the repairs of `d`, the links that the optimizer disabled after a recovery in state `s`. */
    method ScheduleRepairs(event: LinkEvent, requested: seq<LinkEvent>, ghost s: State, ghost d: set<Link>)
      requires SettledNow() && queue.Valid() && event.Recovery? && queue.After(event.time) && event !in queue.queue
      requires Matched(s.down, queue.queue + {event})
      requires forall e :: e in queue.queue && e.Failure? ==>
                 IsTraceEvent(topo.fabric.links, topo.fabric.lgCapable, solution.Table(), e)
      requires RepairEffect(Min(), s, topo.CurrentState(), event.link, d) && RepairsOf(requested, d, event.time)
      requires d <= s.corrupting && d !! s.down && topo.corruptingLinks == s.corrupting - d
      requires topo.disabledLinks == s.down - {event.link} + d && event.link in s.down
      modifies queue, `addedRecoveryEvents
      ensures Inv() && queue.After(event.time)
      ensures Turn(solution.Table(), Min(), Moment(s, old(queue.queue) + {event}, old(queue.timestamps)), event, Now())
      ensures Work(queue.queue, topo.corruptingLinks) < Work(old(queue.queue) + {event}, s.corrupting)
      ensures Accounted(true, old(|queue.queue|), old(skippedLossEvents), old(addedRecoveryEvents))
    {
      hide Topology.Valid, Matched, Settled, Work, EventQueue.Valid, EventQueue.After, RepairEffect, RepairsOf,
        Scheduled, Turn, IsTraceEvent, Solution.Objects, Solution.Checker, Solution.Topo, Solution.Wired;
      ghost var m, pending := Moment(s, queue.queue, queue.timestamps), queue.queue;
      RecoveryDone(s.down, pending, s.corrupting, event, d);
      QueuedLater(queue, event.time);
      ScheduleAll(requested, event.time, s.down - {event.link}, d);
      assert d == topo.disabledLinks - s.down;
      assert Work(queue.queue, s.corrupting - d) == Work(pending, s.corrupting - d) + |d|;
      TurnMade(solution.Table(), Min(), m, event, Now(), d);
    }

    /** A recovery event: the link is repaired, and every link the optimizer disables is scheduled for repair. */
    method HandleRecovery(event: LinkEvent)
      requires SettledNow() && queue.Valid() && event.Recovery? && queue.After(event.time)
      requires event !in queue.queue && PendingOk(queue.queue + {event})
      modifies topo, checker, queue, `addedRecoveryEvents
      ensures Inv() && queue.After(event.time) && Min() == old(Min()) && topo.fabric == old(topo.fabric)
      ensures MeetsConstraint(Min(), old(topo.CurrentState())) ==> MeetsConstraint(Min(), topo.CurrentState())
      ensures Turn(solution.Table(), Min(), old(Now()).(pending := old(queue.queue) + {event}), event, Now())
      ensures Work(queue.queue, topo.corruptingLinks) < Work(old(queue.queue) + {event}, old(topo.corruptingLinks))
      ensures Accounted(true, old(|queue.queue|), old(skippedLossEvents), old(addedRecoveryEvents))
    {
      hide Topology.Valid, Matched, Settled, MeetsConstraint, Work, EventQueue.Valid, EventQueue.After, RepairEffect,
        RepairsOf, Turn, IsTraceEvent, Solution.Objects, Solution.Checker, Solution.Topo, Solution.Wired;
      ghost var s := topo.CurrentState();
      RecoveryKnown(s.down, queue.queue, event);
      var requested;
      ghost var d;
      requested, d := RepairLink(event.link, event.time);
      ScheduleRepairs(event, requested, s, d);
    }

    method ProcessEvent(event: LinkEvent) returns (processed: bool)
      requires SettledNow() && queue.Valid() && !event.Nop? && queue.After(event.time)
      requires event !in queue.queue && PendingOk(queue.queue + {event})
      modifies solution.Objects(), queue, `skippedLossEvents, `addedRecoveryEvents
      ensures Inv() && queue.After(event.time) && Min() == old(Min()) && topo.fabric == old(topo.fabric)
      ensures MeetsConstraint(Min(), old(topo.CurrentState())) ==> MeetsConstraint(Min(), topo.CurrentState())
      ensures Turn(solution.Table(), Min(), old(Now()).(pending := old(queue.queue) + {event}), event, Now())
      ensures processed <==> !Skips(old(topo.CurrentState()), event)
      ensures Work(queue.queue, topo.corruptingLinks) < Work(old(queue.queue) + {event}, old(topo.corruptingLinks))
      ensures Accounted(processed, old(|queue.queue|), old(skippedLossEvents), old(addedRecoveryEvents))
    {
      hide Topology.Valid, Matched, Settled, MeetsConstraint, Work, EventQueue.Valid, EventQueue.After, Turn,
        IsTraceEvent, Solution.Objects, Solution.Checker, Solution.Topo, Solution.Wired;
      if event.Failure? {
        processed := HandleFailure(event);
      } else {
        HandleRecovery(event);
        processed := true;
      }
    }

    /** Pops and processes the earliest event. */
    method Step() returns (event: LinkEvent, processed: bool)
      requires Inv() && queue.queue != {}
      modifies solution.Objects(), queue, `skippedLossEvents, `addedRecoveryEvents
      ensures !event.Nop? && event in old(queue.queue)
      ensures Inv() && queue.After(event.time) && Min() == old(Min()) && topo.fabric == old(topo.fabric)
      ensures MeetsConstraint(Min(), old(topo.CurrentState())) ==> MeetsConstraint(Min(), topo.CurrentState())
      ensures Turn(solution.Table(), Min(), old(Now()), event, Now())
      ensures processed <==> !Skips(old(topo.CurrentState()), event)
      ensures Work(queue.queue, topo.corruptingLinks) < Work(old(queue.queue), old(topo.corruptingLinks))
      ensures Accounted(processed, old(|queue.queue|) - 1, old(skippedLossEvents), old(addedRecoveryEvents))
    {
      hide Topology.Valid, Matched, Settled, MeetsConstraint, Work, EventQueue.Valid, EventQueue.After, Turn,
        IsTraceEvent, Solution.Objects, Solution.Checker, Solution.Topo, Solution.Wired;
      event := queue.GetNextEvent();
      assert queue.queue + {event} == old(queue.queue);
      processed := ProcessEvent(event);
    }

    /** Takes the metrics of the current state and dumps them. */
    method DumpState(dumper: DataDumper, time: int, ghost history: seq<Moment>) returns (ghost newHistory: seq<Moment>)
      requires SettledNow() && topo.fabric.tors != {} && topo.fabric.links != {}
      requires dumper.Valid() && Faithful(Min(), dumper.samples, history)
      requires dumper.samples != [] ==> dumper.samples[|dumper.samples| - 1].0 < time
      modifies dumper
      ensures dumper.Valid() && |dumper.samples| == |old(dumper.samples)| + 1
      ensures dumper.samples[..|old(dumper.samples)|] == old(dumper.samples)
      ensures dumper.samples[|dumper.samples| - 1].0 == time
      ensures newHistory == history + [Now()] && Faithful(Min(), dumper.samples, newHistory)
    {
      hide Topology.Valid, Maximal, PositiveRates, Describes;
      topo.PodsKnown();
      var m := GetCurrentMetrics(topo);
      ghost var before := dumper.samples;
      FaithfulStep(Min(), before, history, time, m, Now());
      dumper.Dump(time, m);
      newHistory := history + [Now()];
    }

    /** The samples report the moments of `history`, each explained by the event handled before it, up to now; what is
        pending lies after the last sample. */
    ghost predicate UpToDate(samples: seq<Row>, history: seq<Moment>, handled: seq<LinkEvent>)
      reads topo, checker, queue
    {
      && Faithful(Min(), samples, history)
      && Explained(solution.Table(), Min(), samples, history, handled) && history[|handled|] == Now()
      && queue.After(samples[|handled|].0)
    }

    /** One turn of the loop: the earliest event, then a sample at its time. */
    method StepAndDump(dumper: DataDumper, ghost history: seq<Moment>, ghost handled: seq<LinkEvent>)
      returns (processed: bool, ghost newHistory: seq<Moment>, ghost newHandled: seq<LinkEvent>)
      requires Inv() && queue.queue != {} && topo.fabric.tors != {} && topo.fabric.links != {}
      requires dumper.Valid() && UpToDate(dumper.samples, history, handled)
      modifies solution.Objects(), queue, `skippedLossEvents, `addedRecoveryEvents, dumper
      ensures Inv() && Min() == old(Min()) && topo.fabric == old(topo.fabric)
      ensures MeetsConstraint(Min(), old(topo.CurrentState())) ==> MeetsConstraint(Min(), topo.CurrentState())
      ensures dumper.Valid() && UpToDate(dumper.samples, newHistory, newHandled) && newHistory == history + [Now()]
      ensures |history| == |newHandled| == |handled| + 1 && dumper.samples[0] == old(dumper.samples[0])
      ensures ProcessedCount(newHistory, newHandled) == ProcessedCount(history, handled) + (if processed then 1 else 0)
      ensures Work(queue.queue, topo.corruptingLinks) < Work(old(queue.queue), old(topo.corruptingLinks))
      ensures Accounted(processed, old(|queue.queue|) - 1, old(skippedLossEvents), old(addedRecoveryEvents))
    {
      hide Topology.Valid, Matched, Settled, MeetsConstraint, Work, EventQueue.Valid, Faithful, Turn, IsTraceEvent,
        StepRows, Solution.Objects, Solution.Checker, Solution.Topo, Solution.Wired, Skips, ProcessedCount;
      NoDumper(solution, dumper);
      ghost var before := dumper.samples;
      var event;
      event, processed := Step();
      newHistory := DumpState(dumper, event.time, history);
      newHandled := handled + [event];
      ghost var row := dumper.samples[|before|];
      assert dumper.samples == before + [row];
      ExplainedStep(solution.Table(), Min(), before, history, handled, row, Now(), event);
      ProcessedOneMore(history, handled, Now(), event);
    }

    /** Runs until no event is left. The ghost `history` holds the moment behind every dumped sample, `handled` the
        events in between. */
    method Run(dumper: DataDumper) returns (processed: nat, ghost history: seq<Moment>, ghost handled: seq<LinkEvent>)
      requires Inv() && topo.fabric.tors != {} && topo.fabric.links != {}
      requires dumper.Valid() && dumper.samples == []
      modifies solution.Objects(), queue, `skippedLossEvents, `addedRecoveryEvents, dumper
      ensures Inv() && queue.queue == {} && topo.disabledLinks == {} && Min() == old(Min())
      ensures topo.fabric == old(topo.fabric)
      ensures UpToDate(dumper.samples, history, handled) && history[0] == old(Now())
      ensures HandlesAll(history, handled)
      ensures processed == ProcessedCount(history, handled)
      ensures |handled| == old(|queue.queue|) + (addedRecoveryEvents - old(addedRecoveryEvents))
      ensures |handled| == processed + (skippedLossEvents - old(skippedLossEvents))
      ensures dumper.rows == StepRows(dumper.samples) + [(dumper.samples[|handled|].0 + 4 * DAY,
                                                         dumper.samples[|handled|].1)]
      ensures if handled == [] then dumper.samples[0].0 == -4 * DAY
              else !handled[0].Nop? && dumper.samples[0].0 == handled[0].time - 4 * DAY
      ensures MeetsConstraint(Min(), old(topo.CurrentState())) ==>
                forall i :: 0 <= i < |history| ==> MeetsConstraint(Min(), history[i].state)
    {
      hide Topology.Valid, Matched, Settled, MeetsConstraint, Work, EventQueue.Valid, Faithful, Turn, IsTraceEvent,
        StepRows, Solution.Objects, Solution.Checker, Solution.Topo, Solution.Wired, Skips, ProcessedCount, HandlesAll;
      NoDumper(solution, dumper);
      var headTime := queue.GetHeadEventTime();
      FaithfulNothing(Min());
      history := DumpState(dumper, headTime - DATA_DUMPER_START_END_OFFSET, []);
      processed, handled := 0, [];
      assert dumper.samples == [dumper.samples[0]] && history == [Now()];
      ExplainedFirst(solution.Table(), Min(), dumper.samples[0], Now());
      NothingProcessed(history);
      while queue.IsNotEmpty()
        invariant Inv() && Min() == old(Min()) && topo.fabric == old(topo.fabric)
        invariant dumper.Valid() && UpToDate(dumper.samples, history, handled) && history[0] == old(Now())
        invariant MeetsConstraint(Min(), old(topo.CurrentState())) ==>
                    forall i :: 0 <= i < |history| ==> MeetsConstraint(Min(), history[i].state)
        invariant processed == ProcessedCount(history, handled) && dumper.samples[0].0 == headTime - 4 * DAY
        invariant |handled| == processed + (skippedLossEvents - old(skippedLossEvents))
        invariant |handled| + |queue.queue| == old(|queue.queue|) + (addedRecoveryEvents - old(addedRecoveryEvents))
        decreases Work(queue.queue, topo.corruptingLinks)
      {
        var isProcessed;
        isProcessed, history, handled := StepAndDump(dumper, history, handled);
        if isProcessed {
          processed := processed + 1;
        }
      }
      NothingPending(topo.disabledLinks);
      RunHandlesAll(solution.Table(), Min(), dumper.samples, history, handled);
      if handled != [] {
        FirstHandled(solution.Table(), Min(), dumper.samples, history, handled);
      }
      dumper.DumpLastRow();
    }
  }
}
