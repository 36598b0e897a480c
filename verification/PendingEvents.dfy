/** The events that are still to come: which recoveries match which disabled links, and how much work is left. */
module PendingEvents {
  import opened Collections
  import opened Fabrics
  import opened Events
  import opened EventQueues

  // ---------- queuing events ----------

  function Times(events: seq<LinkEvent>): set<int> {
    set i | 0 <= i < |events| && !events[i].Nop? :: events[i].time
  }

  function EventSet(events: seq<LinkEvent>): set<LinkEvent> {
    set e | e in events
  }

  /** `queued` is what a queue that has used the times `used` makes of `asked`: the same events, each at the least time
      not used before, at or after the time it asks for. */
  ghost predicate Enqueued(used: set<int>, asked: seq<LinkEvent>, queued: seq<LinkEvent>) {
    && |queued| == |asked| && (forall e :: e in queued ==> !e.Nop?)
    && forall i :: 0 <= i < |asked| ==>
         && !asked[i].Nop? && queued[i] == AtTime(asked[i], queued[i].time)
         && LeastUnused(used + Times(queued[..i]), asked[i].time, queued[i].time)
  }

  lemma EnqueuedNothing(used: set<int>, asked: seq<LinkEvent>)
    ensures Enqueued(used, asked[..0], []) && Times([]) == {} && EventSet([]) == {}
  {
  }

  lemma EnqueuedOneMore(used: set<int>, asked: seq<LinkEvent>, queued: seq<LinkEvent>, e: LinkEvent, added: LinkEvent)
    requires Enqueued(used, asked, queued) && !e.Nop? && !added.Nop? && added == AtTime(e, added.time)
    requires LeastUnused(used + Times(queued), e.time, added.time)
    ensures Enqueued(used, asked + [e], queued + [added]) && added !in queued
    ensures Times(queued + [added]) == Times(queued) + {added.time}
    ensures EventSet(queued + [added]) == EventSet(queued) + {added}
  {
    var all := queued + [added];
    assert forall i :: 0 <= i < |queued| ==> all[..i] == queued[..i];
    assert all[..|queued|] == queued;
    assert forall i :: 0 <= i < |queued| ==> queued[i].time in Times(queued);
    forall t | t in Times(queued)
      ensures t in Times(all)
    {
      var i :| 0 <= i < |queued| && queued[i].time == t;
      assert all[i].time == t;
    }
    assert all[|queued|].time in Times(all);
  }

  /** Every queued event was asked for, and takes the place of no other. */
  lemma EnqueuedFrom(used: set<int>, asked: seq<LinkEvent>, queued: seq<LinkEvent>, i: nat)
    requires Enqueued(used, asked, queued) && i < |queued|
    ensures |asked| == |queued| && !queued[i].Nop? && !asked[i].Nop? && queued[i] == AtTime(asked[i], queued[i].time)
    ensures exists taken :: used <= taken <= used + Times(queued) && LeastUnused(taken, asked[i].time, queued[i].time)
  {
    var taken := used + Times(queued[..i]);
    forall t | t in Times(queued[..i])
      ensures t in Times(queued)
    {
      var j :| 0 <= j < i && queued[..i][j].time == t;
      assert queued[j].time == t;
    }
    assert LeastUnused(taken, asked[i].time, queued[i].time);
  }

  /** Loads the failure trace into an empty queue, event by event. */
  method LoadTrace(trace: seq<LinkEvent>) returns (queue: EventQueue, ghost loaded: seq<LinkEvent>)
    requires forall i :: 0 <= i < |trace| ==> trace[i].Failure?
    ensures fresh(queue) && queue.Valid() && Enqueued({}, trace, loaded)
    ensures (forall e :: e in queue.queue <==> e in loaded) && queue.timestamps == Times(loaded)
    ensures |queue.queue| == queue.currQueueLength == |trace|
  {
    hide Enqueued, Times, EventSet;
    queue := new EventQueue();
    loaded := [];
    EnqueuedNothing({}, trace);
    for i := 0 to |trace|
      invariant fresh(queue) && queue.Valid() && |queue.queue| == queue.currQueueLength == i
      invariant Enqueued({}, trace[..i], loaded) && (forall e :: e in loaded ==> !e.Nop?)
      invariant queue.timestamps == Times(loaded)
      invariant forall e :: e in queue.queue <==> e in loaded
    {
      var added := queue.AddEvent(trace[i]);
      assert {} + Times(loaded) == Times(loaded);
      EnqueuedOneMore({}, trace[..i], loaded, trace[i], added);
      assert trace[..i + 1] == trace[..i] + [trace[i]];
      loaded := loaded + [added];
    }
    assert trace[..|trace|] == trace;
  }

  // ---------- pending recoveries ----------

  ghost function Failures(pending: set<LinkEvent>): set<LinkEvent> {
    set e | e in pending && e.Failure?
  }

  ghost function Recoveries(pending: set<LinkEvent>): set<LinkEvent> {
    set e | e in pending && e.Recovery?
  }

  /** Pending recoveries and disabled links are in bijection. */
  ghost predicate Matched(disabled: set<Link>, pending: set<LinkEvent>) {
    && (forall e :: e in pending && e.Recovery? ==> e.link in disabled)
    && (forall e, f :: e in pending && f in pending && e.Recovery? && f.Recovery? && e.link == f.link ==> e == f)
    && (forall l :: l in disabled ==> exists e :: e in pending && e.Recovery? && e.link == l)
  }

  /** As many recoveries are pending as links are disabled. */
  lemma {:induction false} MatchedCardinality(disabled: set<Link>, pending: set<LinkEvent>)
    requires Matched(disabled, pending)
    ensures |Recoveries(pending)| == |disabled|
  {
    var recoveries := Recoveries(pending);
    var f := (e: LinkEvent) => if e.Recovery? then e.link else TorAgg(Tor(0, 0), Agg(0, 0));
    forall l | l in disabled
      ensures l in set e | e in recoveries :: f(e)
    {
      var e :| e in pending && e.Recovery? && e.link == l;
      assert e in recoveries && f(e) == l;
    }
    assert disabled == set e | e in recoveries :: f(e);
    ImageCardinality(recoveries, disabled, f);
  }

  lemma MatchedSchedule(disabled: set<Link>, pending: set<LinkEvent>, e: LinkEvent)
    requires Matched(disabled, pending) && e.Recovery? && e.link !in disabled
    ensures Matched(disabled + {e.link}, pending + {e})
  {
    forall l | l in disabled + {e.link}
      ensures exists x :: x in pending + {e} && x.Recovery? && x.link == l
    {
      if l != e.link {
        var x :| x in pending && x.Recovery? && x.link == l;
        assert x in pending + {e};
      } else {
        assert e in pending + {e};
      }
    }
  }

  lemma MatchedRepair(disabled: set<Link>, pending: set<LinkEvent>, e: LinkEvent)
    requires Matched(disabled, pending) && e in pending && e.Recovery?
    ensures Matched(disabled - {e.link}, pending - {e})
  {
    forall l | l in disabled - {e.link}
      ensures exists x :: x in pending - {e} && x.Recovery? && x.link == l
    {
      var x :| x in pending && x.Recovery? && x.link == l;
      assert x in pending - {e};
    }
  }

  lemma MatchedFailure(disabled: set<Link>, pending: set<LinkEvent>, e: LinkEvent)
    requires Matched(disabled, pending) && !e.Recovery?
    ensures Matched(disabled, pending - {e}) && Matched(disabled, pending + {e})
  {
    forall l | l in disabled
      ensures exists x :: x in pending - {e} && x.Recovery? && x.link == l
      ensures exists x :: x in pending + {e} && x.Recovery? && x.link == l
    {
      var x :| x in pending && x.Recovery? && x.link == l;
      assert x in pending - {e} && x in pending + {e};
    }
  }

  /** What strictly decreases with every event that is handled. */
  ghost function Work(pending: set<LinkEvent>, corrupting: set<Link>): nat {
    3 * |Failures(pending)| + 2 * |corrupting| + |Recoveries(pending)|
  }

  lemma WorkRemove(pending: set<LinkEvent>, corrupting: set<Link>, e: LinkEvent)
    requires e in pending && !e.Nop?
    ensures Work(pending, corrupting) == Work(pending - {e}, corrupting) + (if e.Failure? then 3 else 1)
  {
    if e.Failure? {
      assert Failures(pending) == Failures(pending - {e}) + {e};
      assert Recoveries(pending) == Recoveries(pending - {e});
    } else {
      assert Recoveries(pending) == Recoveries(pending - {e}) + {e};
      assert Failures(pending) == Failures(pending - {e});
    }
  }

  lemma WorkSchedule(pending: set<LinkEvent>, corrupting: set<Link>, e: LinkEvent)
    requires e !in pending && e.Recovery?
    ensures Work(pending + {e}, corrupting) == Work(pending, corrupting) + 1
  {
    WorkRemove(pending + {e}, corrupting, e);
    assert pending + {e} - {e} == pending;
  }

  /** Popping a failure frees three units of work, whatever becomes of its link. */
  lemma FailureDone(disabled: set<Link>, pending: set<LinkEvent>, c: set<Link>, e: LinkEvent)
    requires e.Failure? && e !in pending && Matched(disabled, pending + {e})
    ensures Matched(disabled, pending)
    ensures Work(pending + {e}, c) == Work(pending, c) + 3
    ensures Work(pending, c + {e.link}) <= Work(pending, c) + 2
    ensures Work(pending, c + {e.link} - {e.link}) <= Work(pending, c)
  {
    assert pending + {e} - {e} == pending;
    MatchedFailure(disabled, pending + {e}, e);
    WorkRemove(pending + {e}, c, e);
    assert |c + {e.link}| <= |c| + 1;
    SubsetCardinality(c + {e.link} - {e.link}, c);
  }

  /** Popping a recovery frees one unit; disabling `d` in its course pays for the repairs of `d`. */
  lemma RecoveryDone(disabled: set<Link>, pending: set<LinkEvent>, c: set<Link>, e: LinkEvent, d: set<Link>)
    requires e.Recovery? && e !in pending && Matched(disabled, pending + {e}) && d <= c
    ensures Matched(disabled - {e.link}, pending)
    ensures Work(pending, c - d) + |d| < Work(pending + {e}, c)
  {
    assert pending + {e} - {e} == pending;
    MatchedRepair(disabled, pending + {e}, e);
    WorkRemove(pending + {e}, c, e);
    assert c == (c - d) + d;
  }

  lemma RecoveryKnown(disabled: set<Link>, pending: set<LinkEvent>, e: LinkEvent)
    requires e.Recovery? && Matched(disabled, pending + {e})
    ensures e.link in disabled
  {
    assert e in pending + {e};
  }

  lemma NothingPending(disabled: set<Link>)
    requires Matched(disabled, {})
    ensures disabled == {}
  {
  }

  lemma FailuresMatched(pending: set<LinkEvent>)
    requires forall e :: e in pending ==> e.Failure?
    ensures Matched({}, pending)
  {
  }

  // ---------- what an event adds ----------

  /** A queue that holds `pending` and has used the times `used` goes over to `pending'` and `used'` by queuing
      `asked` as `queued`. */
  ghost predicate Appended(pending: set<LinkEvent>, used: set<int>, asked: seq<LinkEvent>, queued: seq<LinkEvent>,
                           pending': set<LinkEvent>, used': set<int>)
  {
    Enqueued(used, asked, queued) && pending' == pending + EventSet(queued) && used' == used + Times(queued)
  }

  lemma AppendedNothing(pending: set<LinkEvent>, used: set<int>)
    ensures Appended(pending, used, [], [], pending, used)
  {
    EnqueuedNothing(used, []);
  }

  lemma AppendedOneMore(pending: set<LinkEvent>, used: set<int>, asked: seq<LinkEvent>, queued: seq<LinkEvent>,
                        pending': set<LinkEvent>, used': set<int>, e: LinkEvent, added: LinkEvent)
    requires Appended(pending, used, asked, queued, pending', used') && !e.Nop?
    requires !added.Nop? && added == AtTime(e, added.time) && LeastUnused(used', e.time, added.time)
    ensures Appended(pending, used, asked + [e], queued + [added], pending' + {added}, used' + {added.time})
  {
    hide Enqueued, Times, EventSet, LeastUnused;
    EnqueuedOneMore(used, asked, queued, e, added);
    SetSteps(pending, EventSet(queued), {added});
    SetSteps(used, Times(queued), {added.time});
  }

  /** The repairs requested for `d` at `now` are queued one after the other, and nothing else. */
  ghost predicate Scheduled(pending: set<LinkEvent>, used: set<int>, d: set<Link>, now: int, pending': set<LinkEvent>,
                            used': set<int>)
  {
    exists requested, queued ::
      RepairsOf(requested, d, now) && Appended(pending, used, requested, queued, pending', used')
  }

  lemma NothingScheduled(pending: set<LinkEvent>, used: set<int>, now: int)
    ensures Scheduled(pending, used, {}, now, pending, used)
  {
    hide RepairsOf, Appended;
    NoRepairs(now);
    AppendedNothing(pending, used);
  }

  lemma ScheduledOne(pending: set<LinkEvent>, used: set<int>, e: LinkEvent, queued: seq<LinkEvent>, now: int,
                     pending': set<LinkEvent>, used': set<int>)
    requires e.Recovery? && IsRepairOf(e, e.link, now) && Appended(pending, used, [] + [e], queued, pending', used')
    ensures Scheduled(pending, used, {e.link}, now, pending', used')
  {
    hide RepairsOf, Appended, IsRepairOf;
    NoRepairs(now);
    RepairsAppend([], {}, now, e, e.link);
    assert {} + {e.link} == {e.link};
  }

  lemma ScheduledKeeps(pending: set<LinkEvent>, used: set<int>, d: set<Link>, now: int, pending': set<LinkEvent>,
                       used': set<int>)
    requires Scheduled(pending, used, d, now, pending', used')
    ensures pending <= pending' && used <= used'
  {
  }

  /** A repair asked for two or four days after `now`, and queued at the least time from there on that was not used. */
  ghost predicate OnTime(e: LinkEvent, used: set<int>, used': set<int>, now: int) {
    && e.Recovery?
    && exists asked, taken ::
         && (asked == now + 2 * DAY || asked == now + 4 * DAY)
         && used <= taken <= used' && LeastUnused(taken, asked, e.time)
  }

  lemma RequestedOnTime(used: set<int>, requested: seq<LinkEvent>, queued: seq<LinkEvent>, d: set<Link>, now: int,
                        i: nat)
    requires RepairsOf(requested, d, now) && Enqueued(used, requested, queued) && i < |queued|
    ensures queued[i].Recovery? && queued[i].link in d && queued[i].time >= now + 2 * DAY
    ensures OnTime(queued[i], used, used + Times(queued), now)
  {
    assert |requested| == |queued| && IsRepairOf(requested[i], requested[i].link, now) && requested[i].link in d;
    EnqueuedFrom(used, requested, queued, i);
  }

  /** What comes to be pending is a repair of `d`, on time. */
  lemma ScheduledOnTime(pending: set<LinkEvent>, used: set<int>, d: set<Link>, now: int, pending': set<LinkEvent>,
                        used': set<int>, e: LinkEvent)
    requires Scheduled(pending, used, d, now, pending', used') && e in pending' - pending
    ensures e.Recovery? && e.link in d && e.time >= now + 2 * DAY && OnTime(e, used, used', now)
  {
    hide RepairsOf, OnTime, LeastUnused, Enqueued, Times;
    var requested: seq<LinkEvent>, queued: seq<LinkEvent> :|
      RepairsOf(requested, d, now) && Appended(pending, used, requested, queued, pending', used');
    assert e in EventSet(queued);
    var i :| 0 <= i < |queued| && queued[i] == e;
    RequestedOnTime(used, requested, queued, d, now, i);
  }
}
