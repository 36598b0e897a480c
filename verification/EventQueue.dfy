/** The simulator's event queue: no two events ever share a time. */
module EventQueues {
  import opened Collections
  import opened Fabrics
  import opened Events

  /** Times at or after `t` that have been used. */
  function UsedFrom(timestamps: set<int>, t: int): set<int> {
    set u | u in timestamps && u >= t
  }

  /** `t` is the least unused time at or after `asked`. */
  ghost predicate LeastUnused(timestamps: set<int>, asked: int, t: int) {
    t >= asked && t !in timestamps && forall u :: asked <= u < t ==> u in timestamps
  }

  /** An event is put off by no more than the number of times used before. */
  lemma {:induction false} LeastUnusedSoon(timestamps: set<int>, asked: int, t: int)
    requires LeastUnused(timestamps, asked, t)
    ensures t - asked <= |timestamps|
    decreases t - asked
  {
    if t > asked {
      assert t - 1 in timestamps;
      LeastUnusedSoon(timestamps - {t - 1}, asked, t - 1);
    }
  }

  class EventQueue {
    var queue: set<LinkEvent>
    var timestamps: set<int>
    var currQueueLength: nat

    ghost predicate Valid()
      reads this
    {
      && (forall e :: e in queue ==> !e.Nop? && e.time in timestamps)
      && (forall e, f :: e in queue && f in queue && e.time == f.time ==> e == f)
    }

    /** Every queued event lies after `now`. */
    ghost predicate After(now: int)
      reads this
    {
      forall e :: e in queue && !e.Nop? ==> e.time > now
    }

    constructor ()
      ensures Valid() && queue == {} && timestamps == {} && currQueueLength == 0
    {
      queue, timestamps, currQueueLength := {}, {}, 0;
    }

    predicate IsNotEmpty()
      reads this
    {
      queue != {}
    }

    /** Queues `event` at the least time not used before, at or after the time it asks for. */
    method AddEvent(event: LinkEvent) returns (added: LinkEvent)
      requires Valid() && !event.Nop?
      modifies this
      ensures Valid()
      ensures !added.Nop? && added == AtTime(event, added.time) && LeastUnused(old(timestamps), event.time, added.time)
      ensures queue == old(queue) + {added} && added !in old(queue)
      ensures timestamps == old(timestamps) + {added.time}
      ensures currQueueLength == old(currQueueLength) + 1
    {
      var eventTime := event.time;
      while eventTime in timestamps
        invariant eventTime >= event.time && forall u :: event.time <= u < eventTime ==> u in timestamps
        decreases |UsedFrom(timestamps, eventTime)|
      {
        assert UsedFrom(timestamps, eventTime) == UsedFrom(timestamps, eventTime + 1) + {eventTime};
        eventTime := eventTime + 1;
      }
      added := event.(time := eventTime);
      timestamps := timestamps + {eventTime};
      queue := queue + {added};
      currQueueLength := currQueueLength + 1;
    }

    static lemma EarliestExists(events: set<LinkEvent>)
      requires events != {} && forall e :: e in events ==> !e.Nop?
      ensures exists e :: e in events && forall f :: f in events ==> e.time <= f.time
      decreases |events|
    {
      var e :| e in events;
      var rest := events - {e};
      if rest == {} {
        assert events == {e};
      } else {
        EarliestExists(rest);
        var m :| m in rest && forall f :: f in rest ==> m.time <= f.time;
        var first := if e.time <= m.time then e else m;
        assert forall f :: f in events ==> f == e || f in rest;
        assert first in events && forall f :: f in events ==> first.time <= f.time;
      }
    }

    /** Takes the earliest event off the queue; its time stays used. */
    method GetNextEvent() returns (event: LinkEvent)
      requires Valid()
      modifies `queue
      ensures Valid()
      ensures old(queue) == {} ==> event == Nop && queue == {}
      ensures old(queue) != {} ==>
                event in old(queue) && queue == old(queue) - {event} && !event.Nop? && After(event.time)
    {
      if queue == {} {
        return Nop;
      }
      EarliestExists(queue);
      event :| event in queue && forall f :: f in queue ==> event.time <= f.time;
      queue := queue - {event};
    }

    /** The time of the earliest event; 0 for an empty queue. */
    method GetHeadEventTime() returns (t: int)
      requires Valid()
      ensures queue == {} ==> t == 0
      ensures queue != {} ==> (exists e :: e in queue && e.time == t) && forall e :: e in queue ==> t <= e.time
    {
      if queue == {} {
        return 0;
      }
      EarliestExists(queue);
      var event :| event in queue && forall f :: f in queue ==> event.time <= f.time;
      t := event.time;
    }
  }
}
