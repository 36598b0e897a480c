/** Priority flow control towards the sender: buffered packets schedule pause and resume requests by queue depth,
    timer packets carry them out. */
module FlowControl {

  datatype PfcState = Resumed | Paused
  datatype Request = NoRequest | Pause | Resume

  const MAX_PFC_QUANTA: nat := 65535

  /** A frame for priority class 1: pause for `quanta`, or resume with quanta 0. */
  datatype Frame = Frame(quanta: nat)

  /** The state a request brings about. */
  function StateOf(r: Request): PfcState {
    if r == Pause then Paused else Resumed
  }

  function FrameOf(r: Request): Frame {
    Frame(if r == Pause then MAX_PFC_QUANTA else 0)
  }

  // ---------- the state as a function of the queue depths seen ----------

  predicate AsksPause(depth: nat, pauseThreshold: nat) {
    depth >= pauseThreshold
  }

  predicate AsksResume(depth: nat, pauseThreshold: nat, resumeThreshold: nat) {
    depth < pauseThreshold && depth <= resumeThreshold
  }

  /** Some depth asked for a pause and none has asked for a resume since. */
  ghost predicate PausedSince(depths: seq<nat>, i: int, pauseThreshold: nat, resumeThreshold: nat) {
    && 0 <= i < |depths| && AsksPause(depths[i], pauseThreshold)
    && forall j :: i <= j < |depths| ==> !AsksResume(depths[j], pauseThreshold, resumeThreshold)
  }

  ghost predicate ShouldPause(depths: seq<nat>, pauseThreshold: nat, resumeThreshold: nat) {
    exists i :: PausedSince(depths, i, pauseThreshold, resumeThreshold)
  }

  lemma ShouldPauseStep(depths: seq<nat>, depth: nat, pauseThreshold: nat, resumeThreshold: nat)
    ensures ShouldPause(depths + [depth], pauseThreshold, resumeThreshold) <==>
              AsksPause(depth, pauseThreshold)
              || (!AsksResume(depth, pauseThreshold, resumeThreshold)
                  && ShouldPause(depths, pauseThreshold, resumeThreshold))
  {
    var all := depths + [depth];
    if AsksPause(depth, pauseThreshold) {
      assert PausedSince(all, |depths|, pauseThreshold, resumeThreshold);
    } else if ShouldPause(all, pauseThreshold, resumeThreshold) {
      var i :| PausedSince(all, i, pauseThreshold, resumeThreshold);
      assert all[|depths|] == depth;
      assert forall j :: 0 <= j < |depths| ==> depths[j] == all[j];
      assert PausedSince(depths, i, pauseThreshold, resumeThreshold);
    } else if ShouldPause(depths, pauseThreshold, resumeThreshold)
              && !AsksResume(depth, pauseThreshold, resumeThreshold) {
      var i :| PausedSince(depths, i, pauseThreshold, resumeThreshold);
      assert PausedSince(all, i, pauseThreshold, resumeThreshold);
    }
  }

  // ---------- requests and frames ----------

  /** The scheduled requests alternate, and the first one is a pause. */
  ghost predicate Alternating(requests: seq<Request>) {
    forall i :: 0 <= i < |requests| ==> requests[i] == if i % 2 == 0 then Pause else Resume
  }

  function Last(requests: seq<Request>): Request {
    if requests == [] then NoRequest else requests[|requests| - 1]
  }

  /** Frame k was the k-th one sent, when `at[k]` requests had been scheduled; it carries out the last of them. */
  ghost predicate SentFrom(frames: seq<Frame>, at: seq<nat>, requests: seq<Request>) {
    && |frames| == |at|
    && (forall k :: 0 <= k < |at| ==> 0 < at[k] <= |requests| && frames[k] == FrameOf(requests[at[k] - 1]))
    && forall k, l :: 0 <= k < l < |at| ==> at[k] < at[l]
  }

  lemma ScheduleStep(requests: seq<Request>, frames: seq<Frame>, at: seq<nat>, r: Request)
    requires Alternating(requests) && SentFrom(frames, at, requests)
    requires r == if StateOf(Last(requests)) == Resumed then Pause else Resume
    ensures Alternating(requests + [r]) && SentFrom(frames, at, requests + [r]) && Last(requests + [r]) == r
    ensures at != [] ==> at[|at| - 1] <= |requests|
  {
    assert requests != [] ==> Last(requests) == requests[|requests| - 1];
  }

  lemma SendStep(requests: seq<Request>, frames: seq<Frame>, at: seq<nat>)
    requires SentFrom(frames, at, requests) && requests != [] && (at != [] ==> at[|at| - 1] < |requests|)
    ensures SentFrom(frames + [FrameOf(Last(requests))], at + [|requests|], requests)
  {
    assert forall k :: 0 <= k < |at| ==> k == |at| - 1 || at[k] < at[|at| - 1];
  }

  /** Two frames in a row differ exactly when an odd number of requests was scheduled between them. */
  lemma FramesAlternate(frames: seq<Frame>, at: seq<nat>, requests: seq<Request>, k: nat)
    requires Alternating(requests) && SentFrom(frames, at, requests) && k + 1 < |frames|
    ensures frames[k] != frames[k + 1] <==> (at[k + 1] - at[k]) % 2 == 1
  {
  }

  class PfcEgress {
    const pauseThreshold: nat
    const resumeThreshold: nat
    var currState: PfcState
    var genReq: Request
    ghost var depths: seq<nat>
    ghost var scheduled: seq<Request>
    ghost var frames: seq<Frame>
    ghost var sentAt: seq<nat>

    ghost predicate Valid()
      reads this
    {
      && (currState == Paused <==> ShouldPause(depths, pauseThreshold, resumeThreshold))
      && Alternating(scheduled) && currState == StateOf(Last(scheduled))
      && SentFrom(frames, sentAt, scheduled)
      && (genReq != NoRequest ==>
            scheduled != [] && genReq == Last(scheduled) && (sentAt != [] ==> sentAt[|sentAt| - 1] < |scheduled|))
      && (genReq == NoRequest ==> if sentAt == [] then scheduled == [] else sentAt[|sentAt| - 1] == |scheduled|)
    }

    constructor (pauseThreshold: nat, resumeThreshold: nat)
      ensures Valid() && this.pauseThreshold == pauseThreshold && this.resumeThreshold == resumeThreshold
      ensures depths == [] && scheduled == [] && frames == [] && currState == Resumed && genReq == NoRequest
    {
      this.pauseThreshold, this.resumeThreshold := pauseThreshold, resumeThreshold;
      currState, genReq := Resumed, NoRequest;
      depths, scheduled, frames, sentAt := [], [], [], [];
    }

    /** A pending request matches the state; with none pending, the last frame sent does, or none was ever needed. */
    lemma Converged()
      requires Valid()
      ensures genReq != NoRequest ==> currState == StateOf(genReq)
      ensures genReq == NoRequest && frames != [] ==>
                frames[|frames| - 1] == if currState == Paused then Frame(MAX_PFC_QUANTA) else Frame(0)
      ensures genReq == NoRequest && frames == [] ==> currState == Resumed
    {
    }

    /** Enters a state if it is not the current one, and says whether it did. */
    method CheckUpdate(target: PfcState) returns (changed: bool)
      modifies `currState
      ensures currState == target && changed == (old(currState) != target)
    {
      changed := currState != target;
      if changed {
        currState := target;
      }
    }

    /** A buffered packet passes with the queue depth it saw. */
    method BufferedPass(depth: nat)
      requires Valid()
      modifies `currState, `genReq, `depths, `scheduled
      ensures Valid() && depths == old(depths) + [depth] && frames == old(frames)
      ensures currState == if depth >= pauseThreshold then Paused
                           else if depth <= resumeThreshold then Resumed else old(currState)
      ensures genReq == if currState == old(currState) then old(genReq)
                        else if currState == Paused then Pause else Resume
      ensures scheduled == if currState == old(currState) then old(scheduled)
                           else old(scheduled) + [if currState == Paused then Pause else Resume]
    {
      hide Alternating, SentFrom, ShouldPause;
      ShouldPauseStep(depths, depth, pauseThreshold, resumeThreshold);
      ScheduleStep(scheduled, frames, sentAt, if currState == Resumed then Pause else Resume);
      depths := depths + [depth];
      if depth >= pauseThreshold {
        var shouldSend := CheckUpdate(Paused);
        if shouldSend {
          genReq := Pause;
          scheduled := scheduled + [Pause];
        }
      } else if depth <= resumeThreshold {
        var shouldSend := CheckUpdate(Resumed);
        if shouldSend {
          genReq := Resume;
          scheduled := scheduled + [Resume];
        }
      }
    }

    /** A timer packet becomes the frame of the pending request, or is dropped; afterwards nothing is pending. */
    method TimerPass() returns (frame: seq<Frame>)
      requires Valid()
      modifies `genReq, `frames, `sentAt
      ensures Valid() && genReq == NoRequest && currState == old(currState) && scheduled == old(scheduled)
      ensures frames == old(frames) + frame
      ensures frame == if old(genReq) == NoRequest then []
                       else [Frame(if currState == Paused then MAX_PFC_QUANTA else 0)]
    {
      hide Alternating, SentFrom, ShouldPause;
      if genReq != NoRequest {
        SendStep(scheduled, frames, sentAt);
      }
      var request := genReq;
      genReq := NoRequest;
      match request {
        case NoRequest =>
          frame := [];
        case Pause =>
          frame := [Frame(MAX_PFC_QUANTA)];
          sentAt := sentAt + [|scheduled|];
        case Resume =>
          frame := [Frame(0)];
          sentAt := sentAt + [|scheduled|];
      }
      assert frames + [] == frames;
      frames := frames + frame;
    }
  }

  /** Sent frames need not alternate: pause sent, resume overwritten by the next pause, pause sent again. */
  method RepeatedPause() returns (frames: seq<Frame>)
    ensures frames == [Frame(MAX_PFC_QUANTA), Frame(MAX_PFC_QUANTA)]
  {
    hide PfcEgress.Valid;
    var egress := new PfcEgress(10, 5);
    egress.BufferedPass(10);
    var first := egress.TimerPass();
    egress.BufferedPass(5);
    egress.BufferedPass(10);
    var second := egress.TimerPass();
    frames := first + second;
  }
}
