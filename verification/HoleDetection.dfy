/** Hole detection at the receiver: which numbers are reported lost, and which acknowledgement goes with the report. */
module HoleDetection {
  import opened SequenceNumbers

  /** What arrives over the FIFO link; numbers are unbounded. */
  datatype Arrival = Data(n: nat) | Dummy(n: nat)
  {
    /** The number expected after this arrival. */
    function Next(): nat {
      if Data? then n + 1 else n
    }
  }

  /** A range of numbers, the first of them absolute. */
  datatype Hole = Hole(first: nat, size: nat)
  {
    predicate Has(n: nat) {
      first <= n < first + size
    }
  }

  function Expected(arrivals: seq<Arrival>): nat {
    if arrivals == [] then 0 else arrivals[|arrivals| - 1].Next()
  }

  /** The link delivers in order: an original or dummy never carries a number below the expected one. */
  ghost predicate Fifo(arrivals: seq<Arrival>) {
    arrivals == [] ||
    (Fifo(arrivals[..|arrivals| - 1]) && arrivals[|arrivals| - 1].n >= Expected(arrivals[..|arrivals| - 1]))
  }

  /** How many numbers the last arrival jumped over. */
  function Gap(arrivals: seq<Arrival>): int
    requires arrivals != []
  {
    arrivals[|arrivals| - 1].n - Expected(arrivals[..|arrivals| - 1])
  }

  /** The ranges reported over a run, sizes computed as the hardware does on 16 bits. */
  function Holes(arrivals: seq<Arrival>): seq<Hole> {
    if arrivals == [] then [] else
    var before, last := arrivals[..|arrivals| - 1], arrivals[|arrivals| - 1];
    var lost := Sub16(Wire(last.n), Wire(Expected(before)));
    if lost != 0 then Holes(before) + [Hole(Expected(before), lost)] else Holes(before)
  }

  /** The numbers below the expected one whose original never arrived. */
  function Missing(arrivals: seq<Arrival>): set<nat> {
    set n: nat | n < Expected(arrivals) && Data(n) !in arrivals
  }

  ghost predicate Reported(holes: seq<Hole>, n: nat) {
    exists i :: 0 <= i < |holes| && holes[i].Has(n)
  }

  /** Every loss burst is shorter than the sequence number range. */
  ghost predicate ShortBursts(arrivals: seq<Arrival>) {
    arrivals == [] || (ShortBursts(arrivals[..|arrivals| - 1]) && Gap(arrivals) < MAX_SEQ_NUMBERS)
  }

  /** Disjoint ranges in ascending order, none of them empty, all below `bound`. */
  ghost predicate Ascending(holes: seq<Hole>, bound: nat) {
    && (forall i :: 0 <= i < |holes| ==> holes[i].size > 0 && holes[i].first + holes[i].size <= bound)
    && forall i, j :: 0 <= i < j < |holes| ==> holes[i].first + holes[i].size <= holes[j].first
  }

  lemma GapSize(n: nat, e: nat)
    requires n >= e
    ensures Sub16(Wire(n), Wire(e)) == (n - e) % MAX_SEQ_NUMBERS
  {
  }

  lemma {:induction false} ArrivedBelowExpected(arrivals: seq<Arrival>, n: nat)
    requires Fifo(arrivals) && Data(n) in arrivals
    ensures n < Expected(arrivals)
  {
    var before := arrivals[..|arrivals| - 1];
    if Data(n) in before {
      ArrivedBelowExpected(before, n);
    }
  }

  /** An arrival misses exactly the numbers it jumps over. */
  lemma MissingStep(arrivals: seq<Arrival>, n: nat)
    requires arrivals != [] && Fifo(arrivals)
    ensures var before := arrivals[..|arrivals| - 1];
            n in Missing(arrivals) <==> n in Missing(before) || Expected(before) <= n < arrivals[|arrivals| - 1].n
  {
    var before, last := arrivals[..|arrivals| - 1], arrivals[|arrivals| - 1];
    assert Data(n) in arrivals <==> Data(n) in before || Data(n) == last by {
      assert arrivals == before + [last];
    }
    if Data(n) in before {
      ArrivedBelowExpected(before, n);
    }
  }

  lemma ReportedStep(holes: seq<Hole>, h: Hole, n: nat)
    ensures Reported(holes + [h], n) <==> Reported(holes, n) || h.Has(n)
  {
    var all := holes + [h];
    if Reported(holes, n) {
      var i :| 0 <= i < |holes| && holes[i].Has(n);
      assert all[i].Has(n);
    }
    if h.Has(n) {
      assert all[|holes|].Has(n);
    }
  }

  lemma HolesStep(arrivals: seq<Arrival>)
    requires arrivals != [] && Fifo(arrivals)
    ensures var before, size := arrivals[..|arrivals| - 1], Gap(arrivals) % MAX_SEQ_NUMBERS;
            Holes(arrivals) == if size != 0 then Holes(before) + [Hole(Expected(before), size)] else Holes(before)
  {
    var before := arrivals[..|arrivals| - 1];
    GapSize(arrivals[|arrivals| - 1].n, Expected(before));
  }

  lemma AscendingStep(holes: seq<Hole>, first: nat, size: nat, bound: nat)
    requires Ascending(holes, first) && first + size <= bound
    ensures Ascending(holes, bound)
    ensures size > 0 ==> Ascending(holes + [Hole(first, size)], bound)
  {
  }

  /** The reported ranges are disjoint, ascending and not empty. */
  lemma {:induction false} ReportsAscend(arrivals: seq<Arrival>)
    requires Fifo(arrivals)
    ensures Ascending(Holes(arrivals), Expected(arrivals))
  {
    if arrivals != [] {
      var before, size := arrivals[..|arrivals| - 1], Gap(arrivals) % MAX_SEQ_NUMBERS;
      ReportsAscend(before);
      HolesStep(arrivals);
      AscendingStep(Holes(before), Expected(before), size, Expected(arrivals));
    }
  }

  /** What one arrival adds to the missing and to the reported numbers. */
  lemma ReportsStep(arrivals: seq<Arrival>, n: nat)
    requires arrivals != [] && Fifo(arrivals)
    ensures var before, gap := arrivals[..|arrivals| - 1], Gap(arrivals);
            var e := Expected(before);
            && (n in Missing(before) ==> n < e)
            && (n in Missing(arrivals) <==> n in Missing(before) || e <= n < e + gap)
            && (Reported(Holes(arrivals), n) <==> Reported(Holes(before), n) || e <= n < e + gap % MAX_SEQ_NUMBERS)
  {
    var before := arrivals[..|arrivals| - 1];
    MissingStep(arrivals, n);
    HolesStep(arrivals);
    ReportedStep(Holes(before), Hole(Expected(before), Gap(arrivals) % MAX_SEQ_NUMBERS), n);
  }

  /** Only missing numbers are reported. */
  lemma {:induction false} ReportsSound(arrivals: seq<Arrival>, n: nat)
    requires Fifo(arrivals) && Reported(Holes(arrivals), n)
    ensures n in Missing(arrivals)
  {
    if arrivals != [] {
      ReportsStep(arrivals, n);
      var before := arrivals[..|arrivals| - 1];
      if Reported(Holes(before), n) {
        ReportsSound(before, n);
      }
    }
  }

  /** Every missing number has been reported. */
  ghost predicate AllReported(arrivals: seq<Arrival>) {
    forall n :: n in Missing(arrivals) ==> Reported(Holes(arrivals), n)
  }

  /** All missing numbers are reported exactly when every burst is shorter than 65536. */
  lemma {:induction false} ReportsComplete(arrivals: seq<Arrival>)
    requires Fifo(arrivals)
    ensures AllReported(arrivals) <==> ShortBursts(arrivals)
  {
    if arrivals != [] {
      var before, gap := arrivals[..|arrivals| - 1], Gap(arrivals);
      var e := Expected(before);
      ReportsComplete(before);
      forall n: nat
        ensures n in Missing(before) ==> n < e
        ensures n in Missing(arrivals) <==> n in Missing(before) || e <= n < e + gap
        ensures Reported(Holes(arrivals), n) <==> Reported(Holes(before), n) || e <= n < e + gap % MAX_SEQ_NUMBERS
        ensures Reported(Holes(before), n) ==> n < e
      {
        ReportsStep(arrivals, n);
        if Reported(Holes(before), n) {
          ReportsSound(before, n);
        }
      }
      if gap >= MAX_SEQ_NUMBERS {
        assert e + gap - 1 in Missing(arrivals) && !Reported(Holes(arrivals), e + gap - 1);
      }
    }
  }

  /** A burst of 65536 losses goes unreported. */
  lemma LongBurstUnreported()
    ensures Fifo([Data(65536)]) && Holes([Data(65536)]) == [] && 0 in Missing([Data(65536)])
  {
    var arrivals := [Data(65536)];
    assert arrivals[..0] == [];
    assert Expected(arrivals) == 65537;
  }

  lemma PreviousNumber(n: nat)
    ensures n > 0 ==> Wire(n - 1) == Sub16(Wire(n), 1) && Era(n - 1) == if Wire(n) == 0 then 1 - Era(n) else Era(n)
  {
    if n > 0 {
      NextNumber(n - 1);
    }
  }

  lemma SameNumber(n: nat, e: nat)
    ensures n == e ==> Sub16(Wire(n), Wire(e)) == 0
  {
  }

  /** One arrival in terms of the registers: the 16-bit difference, the reported range, the acknowledged number. */
  lemma ArrivalStep(before: seq<Arrival>, a: Arrival)
    requires Fifo(before) && a.n >= Expected(before)
    ensures var after, lost := before + [a], Sub16(Wire(a.n), Wire(Expected(before)));
            && Fifo(after) && Expected(after) == a.Next()
            && Holes(after) == (if lost != 0 then Holes(before) + [Hole(Expected(before), lost)] else Holes(before))
            && (lost != 0 ==> a.n > 0)
    ensures Wire(a.n + 1) == Add16(Wire(a.n), 1)
    ensures a.n > 0 ==>
              && Wire(a.n - 1) == Sub16(Wire(a.n), 1)
              && Era(a.n - 1) == if Wire(a.n) == 0 then 1 - Era(a.n) else Era(a.n)
  {
    hide Wire, Era;
    NextNumber(a.n);
    PreviousNumber(a.n);
    SameNumber(a.n, Expected(before));
    var after := before + [a];
    assert after[..|after| - 1] == before;
  }

  datatype Report =
    | LossNotification(firstLost: SeqNo, size: SeqNo, leadingAck: SeqNo, leadingAckEra: Bit)
    | LeadingAckUpdate(leadingAck: SeqNo, leadingAckEra: Bit)
    | Nothing

  class HoleDetector {
    var expected: SeqNo
    ghost var arrivals: seq<Arrival>

    ghost predicate Valid()
      reads this
    {
      Fifo(arrivals) && expected == Wire(Expected(arrivals))
    }

    constructor ()
      ensures Valid() && arrivals == []
    {
      expected, arrivals := 0, [];
    }

    /** One pass of an original or dummy packet. Whatever is acknowledged is the number before the expected one. */
    method Receive(header: Header, ghost a: Arrival) returns (report: Report)
      requires Valid() && a.n >= Expected(arrivals) && header == Stamp(a.n, a.Dummy?)
      modifies this
      ensures Valid() && arrivals == old(arrivals) + [a]
      ensures report.LossNotification? <==> Holes(arrivals) != old(Holes(arrivals))
      ensures report.LossNotification? ==>
                && Holes(arrivals) == old(Holes(arrivals)) + [Hole(old(Expected(arrivals)), report.size)]
                && report.firstLost == Wire(old(Expected(arrivals)))
      ensures !report.Nothing? ==>
                && Expected(arrivals) > 0
                && report.leadingAck == Wire(Expected(arrivals) - 1)
                && report.leadingAckEra == Era(Expected(arrivals) - 1)
      ensures report.Nothing? <==> a.Dummy? && Holes(arrivals) == old(Holes(arrivals))
    {
      hide Fifo, Holes, Wire, Era;
      ghost var before := arrivals;
      ArrivalStep(before, a);
      var leadingAckEra := header.era;
      var expectedSeqNo := expected;
      expected := if header.dummy then header.seqNo else Add16(header.seqNo, 1);
      var pktsLost := Sub16(header.seqNo, expectedSeqNo);
      if pktsLost != 0 {
        var leadingAck := header.seqNo;
        if header.dummy {
          leadingAck := Sub16(header.seqNo, 1);
          if header.seqNo == 0 {
            leadingAckEra := 1 - leadingAckEra;
          }
        }
        report := LossNotification(expectedSeqNo, pktsLost, leadingAck, leadingAckEra);
      } else if !header.dummy {
        report := LeadingAckUpdate(header.seqNo, leadingAckEra);
      } else {
        report := Nothing;
      }
      arrivals := arrivals + [a];
    }
  }
}
