/** What the events of a simulation do to the state, and what follows over whole runs. */
module Transitions {
  import opened Collections
  import opened Fabrics
  import opened Indexes
  import opened Topologies
  import opened SubsetSearch
  import opened Events
  import opened LinkGuardian
  import opened Metrics
  import opened PendingEvents

  // ---------- what one event does ----------

  /** The failure on `l` is recorded; the effective rate follows unless LinkGuardian runs. */
  function Recorded(s: State, l: Link, r: real): State {
    s.(rate := s.rate[l := r], corrupting := s.corrupting + {l},
       effectiveRate := if l in s.lgEnabled then s.effectiveRate else s.effectiveRate[l := r])
  }

  /** Without a performance table there is no LinkGuardian. */
  ghost predicate Guarding(table: Option<PerfTable>, s: State, s': State, l: Link, r: real) {
    match table
    case None => s' == s
    case Some(t) => t.Guarded(s, s', l, r)
  }

  /** A failure that passes through `guarded`: the link goes down exactly if that is safe. */
  ghost predicate FailureVia(table: Option<PerfTable>, min: int, s: State, guarded: State, s': State, l: Link,
                             r: real) {
    && Guarding(table, Recorded(s, l, r), guarded, l, r)
    && s' == if Safe(s.fabric.links, s.Up(), min, {l}) then guarded.Without({l}) else guarded
  }

  /** A failure on a disabled link does nothing. */
  ghost predicate FailureEffect(table: Option<PerfTable>, min: int, s: State, s': State, l: Link, r: real) {
    if l !in s.Up() then s' == s else exists guarded :: FailureVia(table, min, s, guarded, s', l, r)
  }

  /** The link is reset and enabled, and an optimal choice `d` of the corrupting links goes down. */
  ghost predicate RepairEffect(min: int, s: State, s': State, l: Link, d: set<Link>) {
    && l in s.down && l in s.fabric.capacity
    && var repaired := s.Repaired(l);
       && Optimal(s.fabric.links, repaired.Up(), min, repaired.rate, s.corrupting, d)
       && s' == repaired.Without(d)
  }

  ghost predicate EventEffect(table: Option<PerfTable>, min: int, s: State, s': State, e: LinkEvent) {
    match e
    case Nop => false
    case Failure(_, l, r) => FailureEffect(table, min, s, s', l, r)
    case Recovery(_, l) => exists d :: RepairEffect(min, s, s', l, d)
  }

  lemma GuardingKeeps(table: Option<PerfTable>, s: State, s': State, l: Link, r: real)
    requires Guarding(table, s, s', l, r)
    ensures s'.fabric == s.fabric && s'.down == s.down && s'.corrupting == s.corrupting && s'.rate == s.rate
    ensures s'.Up() == s.Up()
  {
    if table.Some? {
      GuardedKeeps(table.value, s, s', l, r);
    }
  }

  // ---------- what every event keeps ----------

  ghost predicate PositiveRates(up: set<Link>, rate: map<Link, real>) {
    forall l :: l in up ==> l in rate && rate[l] > 0.0
  }

  /** Rates are positive, and no corrupting link could be disabled without breaking the constraint. */
  ghost predicate Settled(min: int, s: State) {
    PositiveRates(s.Up(), s.rate) && Maximal(s.fabric.links, s.Up(), min, s.corrupting)
  }

  ghost predicate MeetsConstraint(min: int, s: State) {
    Meets(s.fabric.tors, s.Up(), min)
  }

  /** A failure keeps the state settled and the constraint, whether the link stays or goes. */
  lemma FailureSettles(table: Option<PerfTable>, min: int, s: State, guarded: State, s': State, l: Link, r: real)
    requires s.Proper() && Settled(min, s) && l in s.Up() && r > 0.0 && FailureVia(table, min, s, guarded, s', l, r)
    ensures Settled(min, s') && (MeetsConstraint(min, s) ==> MeetsConstraint(min, s'))
    ensures s'.fabric == s.fabric
    ensures if Safe(s.fabric.links, s.Up(), min, {l}) then
              s'.down == s.down + {l} && s'.corrupting == s.corrupting + {l} - {l}
            else
              s'.down == s.down && s'.corrupting == s.corrupting + {l}
  {
    hide Guarding, Safe, Meets, PathCount;
    GuardingKeeps(table, Recorded(s, l, r), guarded, l, r);
    MaximalDrop(s.fabric.links, s.Up(), min, s.corrupting, l);
    guarded.WithoutMore({l}, {});
    if Safe(s.fabric.links, s.Up(), min, {l}) && MeetsConstraint(min, s) {
      assert AffectedByAny(s.fabric.links, {l}) == AffectedTors(s.fabric.links, l);
      MeetsAfter(s.fabric.links, s.fabric.tors, s.Up(), min, {l});
    }
  }

  lemma OptimalKeepsConstraint(s: State, min: int, up: set<Link>, rate: map<Link, real>, d: set<Link>)
    requires s.Proper() && MeetsConstraint(min, s) && s.Up() <= up <= s.fabric.links
    requires Optimal(s.fabric.links, up, min, rate, s.corrupting, d)
    ensures Meets(s.fabric.tors, up - d, min)
  {
    hide Safe, Meets, PathCount;
    forall t | t in AffectedByAny(s.fabric.links, d)
      ensures t in s.fabric.tors
    {
      var l :| l in d && t in AffectedTors(s.fabric.links, l);
    }
    MeetsMoreLinks(s.fabric.tors, s.Up(), up, min);
    MeetsAfter(s.fabric.links, s.fabric.tors, up, min, d);
  }

  /** A repair with an optimal choice among the corrupting links settles the state and keeps the constraint. */
  lemma RepairSettles(min: int, s: State, s': State, l: Link, d: set<Link>)
    requires s.Proper() && Settled(min, s) && RepairEffect(min, s, s', l, d)
    ensures Settled(min, s') && (MeetsConstraint(min, s) ==> MeetsConstraint(min, s'))
    ensures s'.fabric == s.fabric && d <= s.corrupting && s'.down == s.down - {l} + d
    ensures s'.corrupting == s.corrupting - d
  {
    hide Safe, Meets, PathCount, Optimal;
    var links, tors, repaired := s.fabric.links, s.fabric.tors, s.Repaired(l);
    assert repaired.Up() == s.Up() + {l};
    repaired.WithoutMore(d, {});
    OptimalWithin(links, repaired.Up(), min, repaired.rate, s.corrupting, d);
    OptimalMakesMaximal(links, repaired.Up(), min, repaired.rate, s.corrupting, d);
    if MeetsConstraint(min, s) {
      OptimalKeepsConstraint(s, min, repaired.Up(), repaired.rate, d);
    }
  }

  // ---------- one turn of the event loop ----------

  /** The state with the events that are still to come, and the times that events have ever been queued at. */
  datatype Moment = Moment(state: State, pending: set<LinkEvent>, used: set<int>)

  /** The earliest event has its effect, and the repairs requested for the links that go down are queued. */
  ghost predicate Turn(table: Option<PerfTable>, min: int, m: Moment, e: LinkEvent, m': Moment) {
    && !e.Nop? && e in m.pending && (forall x :: x in m.pending && x != e ==> !x.Nop? && e.time < x.time)
    && EventEffect(table, min, m.state, m'.state, e)
    && Scheduled(m.pending - {e}, m.used, m'.state.down - m.state.down, e.time, m'.pending, m'.used)
  }

  /** A popped event, with what it did and what it scheduled, makes a turn. */
  lemma TurnMade(table: Option<PerfTable>, min: int, m: Moment, e: LinkEvent, m': Moment, d: set<Link>)
    requires !e.Nop? && e !in m.pending && (forall x :: x in m.pending ==> !x.Nop? && e.time < x.time)
    requires EventEffect(table, min, m.state, m'.state, e)
    requires d == m'.state.down - m.state.down && Scheduled(m.pending, m.used, d, e.time, m'.pending, m'.used)
    ensures Turn(table, min, m.(pending := m.pending + {e}), e, m')
  {
    hide EventEffect, Scheduled;
    assert m.pending + {e} - {e} == m.pending;
  }

  lemma TurnTakes(table: Option<PerfTable>, min: int, m: Moment, e: LinkEvent, m': Moment)
    requires Turn(table, min, m, e, m')
    ensures e in m.pending
  {
  }

  /** What is pending after a turn was pending before, or is a repair of a link that went down, on time. */
  lemma TurnPending(table: Option<PerfTable>, min: int, m: Moment, e: LinkEvent, m': Moment, x: LinkEvent)
    requires Turn(table, min, m, e, m')
    ensures x in m.pending ==> x == e || x in m'.pending
    ensures x in m'.pending && (x !in m.pending || x == e) ==>
              && x.Recovery? && x.link in m'.state.down - m.state.down && x.time > e.time
              && OnTime(x, m.used, m'.used, e.time)
  {
    hide EventEffect, Scheduled, OnTime;
    ScheduledKeeps(m.pending - {e}, m.used, m'.state.down - m.state.down, e.time, m'.pending, m'.used);
    if x in m'.pending - (m.pending - {e}) {
      ScheduledOnTime(m.pending - {e}, m.used, m'.state.down - m.state.down, e.time, m'.pending, m'.used, x);
    }
  }

  /** The failure finds its link disabled. */
  predicate Skips(s: State, e: LinkEvent) {
    e.Failure? && e.link !in s.Up()
  }

  // ---------- whole runs ----------

  /** Each moment follows from its predecessor by the event handled in between; samples are taken at the times of the
      events. */
  ghost predicate Explained(table: Option<PerfTable>, min: int, samples: seq<Row>, history: seq<Moment>,
                            handled: seq<LinkEvent>) {
    && |samples| == |history| == |handled| + 1
    && (forall i :: 0 <= i < |handled| ==> !handled[i].Nop?)
    && forall i :: 0 <= i < |handled| ==>
         Turn(table, min, history[i], handled[i], history[i + 1]) && handled[i].time == samples[i + 1].0
  }

  lemma ExplainedLengths(table: Option<PerfTable>, min: int, samples: seq<Row>, history: seq<Moment>,
                         handled: seq<LinkEvent>)
    requires Explained(table, min, samples, history, handled)
    ensures |samples| == |history| == |handled| + 1
  {
  }

  lemma ExplainedFirst(table: Option<PerfTable>, min: int, row: Row, m: Moment)
    ensures Explained(table, min, [row], [m], [])
  {
  }

  lemma ExplainedStep(table: Option<PerfTable>, min: int, samples: seq<Row>, history: seq<Moment>,
                      handled: seq<LinkEvent>, row: Row, m: Moment, e: LinkEvent)
    requires Explained(table, min, samples, history, handled) && !e.Nop? && row.0 == e.time
    requires Turn(table, min, history[|history| - 1], e, m)
    ensures Explained(table, min, samples + [row], history + [m], handled + [e])
  {
    hide Turn;
  }

  /** The samples, at increasing times, report the states of `history`, all of them maximal. */
  ghost predicate Faithful(min: int, samples: seq<Row>, history: seq<Moment>) {
    && |samples| == |history| && Increasing(samples)
    && forall i :: 0 <= i < |samples| ==>
         && Describes(samples[i].1, history[i].state)
         && Maximal(history[i].state.fabric.links, history[i].state.Up(), min, history[i].state.corrupting)
  }

  lemma FaithfulNothing(min: int)
    ensures Faithful(min, [], [])
  {
  }

  lemma FaithfulStep(min: int, samples: seq<Row>, history: seq<Moment>, time: int, m: Metrics, moment: Moment)
    requires Faithful(min, samples, history) && Describes(m, moment.state)
    requires Maximal(moment.state.fabric.links, moment.state.Up(), min, moment.state.corrupting)
    requires samples != [] ==> samples[|samples| - 1].0 < time
    ensures Faithful(min, samples + [(time, m)], history + [moment])
  {
    hide Describes, Maximal;
  }

  /** Every sample's maximum is the greatest enabled rate exactly if some enabled rate reaches the initial one. */
  lemma FaithfulMaximum(min: int, samples: seq<Row>, history: seq<Moment>, i: nat)
    requires Faithful(min, samples, history) && i < |samples|
    ensures var max, s := samples[i].1.maxLinkLossRate, history[i].state;
            && s.Up() <= s.rate.Keys && (forall l :: l in s.Up() ==> s.rate[l] <= max)
            && ((exists l :: l in s.Up() && s.rate[l] == max) <==>
                  exists l :: l in s.Up() && s.rate[l] >= INITIAL_LINK_LOSS_RATE)
  {
    GreatestRateIsScan(samples[i].1, history[i].state);
  }

  /** How many of the handled events were processed, not skipped; event `i` is handled in moment `i`. */
  function ProcessedCount(history: seq<Moment>, handled: seq<LinkEvent>): nat {
    if handled == [] || |history| < |handled| then 0 else
    var n := |handled| - 1;
    ProcessedCount(history, handled[..n]) + if Skips(history[n].state, handled[n]) then 0 else 1
  }

  lemma {:induction false} ProcessedIgnoresLater(history: seq<Moment>, handled: seq<LinkEvent>, m: Moment)
    requires |handled| <= |history|
    ensures ProcessedCount(history + [m], handled) == ProcessedCount(history, handled)
  {
    if handled != [] {
      ProcessedIgnoresLater(history, handled[..|handled| - 1], m);
    }
  }

  lemma ProcessedOneMore(history: seq<Moment>, handled: seq<LinkEvent>, m: Moment, e: LinkEvent)
    requires |history| == |handled| + 1
    ensures ProcessedCount(history + [m], handled + [e]) ==
              ProcessedCount(history, handled) + if Skips(history[|handled|].state, e) then 0 else 1
  {
    assert (handled + [e])[..|handled|] == handled;
    ProcessedIgnoresLater(history, handled, m);
  }

  /** Handled events are handled at increasing times. */
  lemma {:induction false} HandledInOrder(table: Option<PerfTable>, min: int, samples: seq<Row>, history: seq<Moment>,
                                          handled: seq<LinkEvent>, i: nat, j: nat)
    requires Explained(table, min, samples, history, handled) && i < |handled| && i < j <= |handled|
    ensures !handled[i].Nop? && (j < |handled| ==> !handled[j].Nop? && handled[i].time < handled[j].time)
    ensures forall x :: x in history[j].pending ==> !x.Nop? && handled[i].time < x.time
  {
    hide EventEffect, Scheduled;
    assert Turn(table, min, history[j - 1], handled[j - 1], history[j]);
    if i < j - 1 {
      HandledInOrder(table, min, samples, history, handled, i, j - 1);
    }
    forall x | x in history[j].pending
      ensures !x.Nop? && handled[i].time < x.time
    {
      TurnPending(table, min, history[j - 1], handled[j - 1], history[j], x);
    }
    if j < |handled| {
      assert Turn(table, min, history[j], handled[j], history[j + 1]);
    }
  }

  /** `e` repairs a link that event `i` took down, at the time the queue gave to one of the two repair delays. */
  ghost predicate RepairsAfter(history: seq<Moment>, handled: seq<LinkEvent>, i: nat, e: LinkEvent) {
    && i < |handled| < |history| && !handled[i].Nop? && e.Recovery?
    && e.link in history[i + 1].state.down - history[i].state.down
    && OnTime(e, history[i].used, history[i + 1].used, handled[i].time)
  }

  /** After `k` turns, what was pending at first has been handled or is still pending. */
  lemma {:induction false} NothingLost(table: Option<PerfTable>, min: int, samples: seq<Row>, history: seq<Moment>,
                                       handled: seq<LinkEvent>, k: nat, e: LinkEvent)
    requires Explained(table, min, samples, history, handled) && k <= |handled| && e in history[0].pending
    ensures e in handled[..k] || e in history[k].pending
  {
    hide Turn;
    if k > 0 {
      NothingLost(table, min, samples, history, handled, k - 1, e);
      TurnPending(table, min, history[k - 1], handled[k - 1], history[k], e);
      assert handled[..k] == handled[..k - 1] + [handled[k - 1]];
    }
  }

  /** What is pending after `k` turns was so at first, or is a repair that one of the turns asked for. */
  lemma {:induction false} NothingElse(table: Option<PerfTable>, min: int, samples: seq<Row>, history: seq<Moment>,
                                       handled: seq<LinkEvent>, k: nat, e: LinkEvent)
    requires Explained(table, min, samples, history, handled) && k <= |handled| && e in history[k].pending
    ensures e in history[0].pending || exists i: nat :: RepairsAfter(history, handled, i, e)
  {
    hide Turn, OnTime;
    if k > 0 {
      TurnPending(table, min, history[k - 1], handled[k - 1], history[k], e);
      if e in history[k - 1].pending {
        NothingElse(table, min, samples, history, handled, k - 1, e);
      } else {
        assert RepairsAfter(history, handled, k - 1, e);
      }
    }
  }

  /** The events that were pending at first, each exactly once, and beyond them only repairs that were asked for. */
  ghost predicate HandlesAll(history: seq<Moment>, handled: seq<LinkEvent>)
    requires |history| > 0
  {
    && NoDup(handled) && (forall e :: e in history[0].pending ==> e in handled)
    && forall e :: e in handled ==> e in history[0].pending || exists i: nat :: RepairsAfter(history, handled, i, e)
  }

  /** A run that ends with nothing pending has handled everything. */
  lemma RunHandlesAll(table: Option<PerfTable>, min: int, samples: seq<Row>, history: seq<Moment>,
                      handled: seq<LinkEvent>)
    requires Explained(table, min, samples, history, handled) && history[|handled|].pending == {}
    ensures HandlesAll(history, handled)
  {
    hide Turn, RepairsAfter;
    assert handled[..|handled|] == handled;
    forall i, j | 0 <= i < j < |handled|
      ensures handled[i] != handled[j]
    {
      HandledInOrder(table, min, samples, history, handled, i, j);
    }
    forall e | e in history[0].pending
      ensures e in handled
    {
      NothingLost(table, min, samples, history, handled, |handled|, e);
    }
    forall e | e in handled
      ensures e in history[0].pending || exists i: nat :: RepairsAfter(history, handled, i, e)
    {
      var j :| 0 <= j < |handled| && handled[j] == e;
      TurnTakes(table, min, history[j], e, history[j + 1]);
      NothingElse(table, min, samples, history, handled, j, e);
    }
  }

  /** The first event handled is the earliest of those pending at first. */
  lemma FirstHandled(table: Option<PerfTable>, min: int, samples: seq<Row>, history: seq<Moment>,
                     handled: seq<LinkEvent>)
    requires Explained(table, min, samples, history, handled) && handled != []
    ensures !handled[0].Nop? && handled[0] in history[0].pending
    ensures forall e :: e in history[0].pending ==> !e.Nop? && (e == handled[0] || handled[0].time < e.time)
  {
    hide EventEffect, Scheduled;
    assert Turn(table, min, history[0], handled[0], history[1]);
  }

  lemma EffectKeepsFabric(table: Option<PerfTable>, min: int, s: State, s': State, e: LinkEvent)
    requires EventEffect(table, min, s, s', e)
    ensures s'.fabric == s.fabric
  {
    hide Safe, Optimal, Guarding;
    if e.Failure? && e.link in s.Up() {
      var guarded :| FailureVia(table, min, s, guarded, s', e.link, e.lossRate);
      GuardingKeeps(table, Recorded(s, e.link, e.lossRate), guarded, e.link, e.lossRate);
    }
  }

  lemma {:induction false} SameFabric(table: Option<PerfTable>, min: int, samples: seq<Row>, history: seq<Moment>,
                                      handled: seq<LinkEvent>, k: nat)
    requires Explained(table, min, samples, history, handled) && k <= |handled|
    ensures history[k].state.fabric == history[0].state.fabric
  {
    hide EventEffect, Scheduled;
    if k > 0 {
      SameFabric(table, min, samples, history, handled, k - 1);
      assert Turn(table, min, history[k - 1], handled[k - 1], history[k]);
      EffectKeepsFabric(table, min, history[k - 1].state, history[k].state, handled[k - 1]);
    }
  }
}
