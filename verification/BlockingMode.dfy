/** Blocking mode at the receiver: in-order release by a 16-bit acknowledgement number, an era bit and a timer. */
module BlockingMode {
  import opened SequenceNumbers
  import opened HoleDetection

  const TIMEOUT_VAL_100NS: nat := 70

  // ---------- one decision ----------

  datatype Decision = Release | Hold | Drop

  /** The decision on unbounded numbers. */
  function Compare(n: nat, ack: nat): Decision {
    if n == ack then Release else if n > ack then Hold else Drop
  }

  /** The decision on registers: equality, then the minimum, both numbers shifted by half the range when the eras
      differ. */
  function Decide(seqNo: SeqNo, era: Bit, ack: SeqNo, ackEra: Bit): Decision {
    if ack == seqNo then Release else
    var shift := if era != ackEra then SEQ_NUMBERS_HALF_RANGE else 0;
    var s, a := Sub16(seqNo, shift), Sub16(ack, shift);
    var min := if a <= s then a else s;
    if min == a then Hold else Drop
  }

  /** What the era register holds after `missed` of its toggles have not happened. */
  function EraAfter(ack: nat, missed: nat): Byte {
    EraByte((Era(ack) + missed) % 2)
  }

  /** The decision on the registers that stand for `ack`. */
  function DecideAt(n: nat, ack: nat, missed: nat): Decision {
    Decide(Wire(n), Era(n), Wire(ack), LowBit(EraAfter(ack, missed)))
  }

  function Half(n: nat): nat {
    n / SEQ_NUMBERS_HALF_RANGE
  }

  function Offset(n: nat): nat {
    n % SEQ_NUMBERS_HALF_RANGE
  }

  /** The position of a number counted in half blocks. */
  lemma Halves(n: nat)
    ensures Wire(n) == SEQ_NUMBERS_HALF_RANGE * (Half(n) % 2) + Offset(n) && Era(n) == Half(n) / 2 % 2
    ensures n == SEQ_NUMBERS_HALF_RANGE * Half(n) + Offset(n) && Offset(n) < SEQ_NUMBERS_HALF_RANGE
  {
  }

  lemma Shifted(b: Bit, r: nat)
    requires r < SEQ_NUMBERS_HALF_RANGE
    ensures Sub16(SEQ_NUMBERS_HALF_RANGE * b + r, SEQ_NUMBERS_HALF_RANGE) == SEQ_NUMBERS_HALF_RANGE * (1 - b) + r
    ensures Sub16(SEQ_NUMBERS_HALF_RANGE * b + r, 0) == SEQ_NUMBERS_HALF_RANGE * b + r
  {
  }

  /** The decision in terms of upper or lower half, offset and era. */
  lemma DecideHalves(b: Bit, r: nat, e: Bit, c: Bit, q: nat, f: Bit)
    requires r < SEQ_NUMBERS_HALF_RANGE && q < SEQ_NUMBERS_HALF_RANGE
    ensures Decide(SEQ_NUMBERS_HALF_RANGE * b + r, e, SEQ_NUMBERS_HALF_RANGE * c + q, f) ==
              if b == c then Compare(r, q) else if (b > c) == (e == f) then Hold else Drop
  {
    hide Sub16;
    Shifted(b, r);
    Shifted(c, q);
  }

  lemma Residue(k: int, x: int)
    requires -4 < x < 4
    ensures (4 * k + x) % 4 == if x < 0 then x + 4 else x
  {
    var d := 4 * k + x;
    assert d / 4 == if x < 0 then k - 1 else k;
  }

  lemma Parity(k: int, x: int)
    requires -1 <= x <= 1
    ensures (2 * k + x) % 2 == if x == 0 then 0 else 1
  {
    var d := 2 * k + x;
    assert d / 2 == if x < 0 then k - 1 else k;
  }

  lemma BitsDistance(d: int, k: int, b: Bit, e: Bit, c: Bit, f: Bit)
    requires d == 4 * k + 2 * (e - f) + (b - c)
    ensures d % 2 == 0 <==> b == c
    ensures d % 2 == 1 ==> (d % 4 == 1 <==> (b > c) == (e == f))
  {
    Residue(k, 2 * (e - f) + (b - c));
    Parity(2 * k + e - f, b - c);
    assert d == 2 * (2 * k + e - f) + (b - c);
  }

  /** The distance of two half blocks modulo four, by upper or lower half and era. */
  lemma HalfDistance(h: nat, g: nat)
    ensures (h - g) % 2 == 0 <==> h % 2 == g % 2
    ensures (h - g) % 2 == 1 ==> ((h - g) % 4 == 1 <==> (h % 2 > g % 2) == (h / 2 % 2 == g / 2 % 2))
  {
    BitsDistance(h - g, h / 2 / 2 - g / 2 / 2, h % 2, h / 2 % 2, g % 2, g / 2 % 2);
  }

  /** The era register is right exactly if an even number of toggles was missed. */
  lemma EraInStep(ack: nat, missed: nat)
    ensures LowBit(EraAfter(ack, missed)) == if missed % 2 == 1 then 1 - Era(ack) else Era(ack)
  {
  }

  /** In step, a number is taken to be ahead of the acknowledgement if it lies in the next half block modulo four,
      behind if it lies in the previous one; otherwise only the offsets are compared. Out of step, next and
      previous change places. */
  lemma SeenByHalves(n: nat, ack: nat, missed: nat)
    ensures var d := Half(n) - Half(ack);
            DecideAt(n, ack, missed) ==
              if d % 2 == 1 then
                if (d % 4 == 1) == (missed % 2 == 0) then Hold else Drop
              else
                Compare(Offset(n), Offset(ack))
  {
    hide Wire, Era, Half, Offset, Decide, EraAfter;
    Halves(n);
    Halves(ack);
    HalfDistance(Half(n), Half(ack));
    EraInStep(ack, missed);
    DecideHalves(Half(n) % 2, Offset(n), Era(n), Half(ack) % 2, Offset(ack), LowBit(EraAfter(ack, missed)));
  }

  /** The decision is right in the half block of the acknowledgement; in an odd distance of half blocks if the
      distance modulo four has the right sign; in an even distance if the offsets have the right order. */
  predicate Distinguishable(n: nat, ack: nat, missed: nat) {
    var d := Half(n) - Half(ack);
    || d == 0
    || (d % 2 == 1 && ((d % 4 == 1) == (missed % 2 == 0) <==> d > 0))
    || (d % 2 == 0 && Offset(n) != Offset(ack) && (Offset(n) > Offset(ack) <==> d > 0))
  }

  /** For which numbers the registers decide as the unbounded comparison does, in step or not. */
  lemma DecisionExact(n: nat, ack: nat, missed: nat)
    ensures DecideAt(n, ack, missed) == Compare(n, ack) <==> Distinguishable(n, ack, missed)
  {
    hide DecideAt, Half, Offset;
    SeenByHalves(n, ack, missed);
    Halves(n);
    Halves(ack);
  }

  /** A packet is released exactly if it has the 16 bits of the acknowledgement. */
  lemma ReleaseExact(n: nat, ack: nat, missed: nat)
    ensures DecideAt(n, ack, missed) == Release <==> Wire(n) == Wire(ack)
  {
  }

  ghost predicate Near(n: nat, ack: nat, window: nat) {
    ack - window <= n <= ack + window
  }

  /** Within half the range, decisions in step are right, and decisions out of step exactly within one half block. */
  lemma NearDistinguishable(n: nat, ack: nat, missed: nat)
    requires Near(n, ack, SEQ_NUMBERS_HALF_RANGE)
    ensures Distinguishable(n, ack, missed) <==> missed % 2 == 0 || Half(n) == Half(ack)
    ensures Wire(n) == Wire(ack) <==> n == ack
  {
    var d := Half(n) - Half(ack);
    assert -1 <= d <= 1;
  }

  ghost predicate RightWithin(window: nat) {
    forall n: nat, ack: nat :: Near(n, ack, window) ==> DecideAt(n, ack, 0) == Compare(n, ack)
  }

  /** Half the range is the largest window within which all decisions are right. */
  lemma WindowTight(window: nat)
    ensures RightWithin(window) <==> window <= SEQ_NUMBERS_HALF_RANGE
  {
    if window <= SEQ_NUMBERS_HALF_RANGE {
      forall n: nat, ack: nat | Near(n, ack, window)
        ensures DecideAt(n, ack, 0) == Compare(n, ack)
      {
        NearDistinguishable(n, ack, 0);
        DecisionExact(n, ack, 0);
      }
    } else {
      assert Near(65536, 32767, window);
      assert DecideAt(65536, 32767, 0) == Drop;
    }
  }

  /** After a timeout at 65535 a duplicate of packet 65535 is held, and packet 98304, still needed, is dropped. */
  lemma MissedToggleMisleads()
    ensures DecideAt(65535, 65536, 1) == Hold && Compare(65535, 65536) == Drop
    ensures DecideAt(98304, 65536, 1) == Drop && Compare(98304, 65536) == Hold
  {
  }

  /** Out of step, a number already past is recognised as such only within its own half block. From the next half
      block on it is held, until the acknowledgement has its 16 bits again: then it is released. */
  lemma StaleFate(n: nat, ack: nat, missed: nat)
    requires n < ack <= n + MAX_SEQ_NUMBERS && missed % 2 == 1
    ensures DecideAt(n, ack, missed) ==
              if Half(ack) == Half(n) then Drop else if ack == n + MAX_SEQ_NUMBERS then Release else Hold
  {
    hide DecideAt, Half, Offset;
    SeenByHalves(n, ack, missed);
    Halves(n);
    Halves(ack);
    var d := Half(n) - Half(ack);
    assert -2 <= d <= 0;
  }

  // ---------- the protocol on unbounded numbers ----------

  /** `wait` timer passes remain until the number `ack` is given up. */
  datatype Protocol = Protocol(ack: nat, expected: nat, wait: nat, released: seq<nat>, skipped: seq<nat>,
                               held: multiset<nat>, dropped: multiset<nat>)

  const INITIAL := Protocol(0, 0, TIMEOUT_VAL_100NS, [], [], multiset{}, multiset{})

  datatype Input = Original(n: nat) | DummyPacket(n: nat) | Retransmitted(n: nat) | Recirculated(n: nat) | Timer

  function Settle(p: Protocol, n: nat, d: Decision): (q: Protocol)
    ensures q.expected == p.expected
  {
    match d
    case Release => p.(ack := p.ack + 1, wait := TIMEOUT_VAL_100NS, released := p.released + [n])
    case Hold => p.(held := p.held + multiset{n})
    case Drop => p.(dropped := p.dropped + multiset{n})
  }

  /** The acknowledged number is given up. */
  function GiveUp(p: Protocol): Protocol {
    p.(ack := p.ack + 1, wait := TIMEOUT_VAL_100NS, skipped := p.skipped + [p.ack])
  }

  /** A timer pass, which may find the number `ack` outstanding. */
  function Tick(p: Protocol, outstanding: bool): Protocol {
    if !outstanding then p else if p.wait == 0 then GiveUp(p) else p.(wait := p.wait - 1)
  }

  /** What an input does to the protocol, except for the settlement of the packet it carries. */
  function Received(p: Protocol, i: Input, outstanding: bool): Protocol {
    match i
    case Original(n) => p.(expected := n + 1)
    case DummyPacket(n) => p.(expected := n)
    case Retransmitted(n) => p
    case Recirculated(n) => p.(held := p.held - multiset{n})
    case Timer => Tick(p, outstanding)
  }

  /** The input carries a packet that is to be settled. */
  predicate Carries(i: Input) {
    i.Original? || i.Retransmitted? || i.Recirculated?
  }

  /** One step of the protocol: packets are settled by comparing numbers. */
  function Next(p: Protocol, i: Input): Protocol {
    var q := Received(p, i, p.ack != p.expected);
    if Carries(i) then Settle(q, i.n, Compare(i.n, p.ack)) else q
  }

  /** What link, sender and recirculation port guarantee: originals and dummies arrive in order, retransmissions
      are of numbers already passed, recirculated packets are held ones. */
  ghost predicate Arrives(p: Protocol, i: Input) {
    match i
    case Original(n) => n >= p.expected
    case DummyPacket(n) => n >= p.expected
    case Retransmitted(n) => n < p.expected
    case Recirculated(n) => n in p.held
    case Timer => true
  }

  ghost predicate InWindow(p: Protocol, i: Input) {
    i.Timer? || Near(i.n, p.ack, SEQ_NUMBERS_HALF_RANGE)
  }

  /** Every number in play is within half the range of the acknowledgement. */
  ghost predicate Admissible(p: Protocol, i: Input) {
    Arrives(p, i) && InWindow(p, i)
  }

  /** Every number that comes over the link is, while packets may recirculate for any time. */
  ghost predicate LinkAdmissible(p: Protocol, i: Input) {
    Arrives(p, i) && (i.Recirculated? || InWindow(p, i))
  }

  ghost predicate Increasing(s: seq<nat>) {
    forall i, j :: 0 <= i < j < |s| ==> s[i] < s[j]
  }

  /** Every number below the acknowledgement was either released once or skipped once. */
  ghost predicate InOrder(p: Protocol) {
    && Increasing(p.released) && Increasing(p.skipped)
    && p.ack == |p.released| + |p.skipped|
    && (forall n: nat :: n in p.released || n in p.skipped <==> n < p.ack)
    && (forall n :: n in p.released ==> n !in p.skipped)
    && p.ack <= p.expected <= p.ack + SEQ_NUMBERS_HALF_RANGE + 1
    && (forall n :: n in p.held ==> n < p.expected)
  }

  /** A dropped packet is a copy of one that was released or given up before. */
  ghost predicate DropsOnlyOld(p: Protocol) {
    forall n :: n in p.dropped ==> n < p.ack
  }

  lemma AppendIncreasing(s: seq<nat>, n: nat)
    requires Increasing(s) && forall m :: m in s ==> m < n
    ensures Increasing(s + [n])
    ensures forall m :: m in s + [n] <==> m in s || m == n
  {
    assert forall i :: 0 <= i < |s| ==> s[i] in s;
  }

  /** Releasing an old number once more breaks the order. */
  lemma ReleasedTwice(p: Protocol, n: nat)
    requires InOrder(p) && n < p.ack
    ensures !InOrder(Settle(p, n, Release))
  {
    var q := Settle(p, n, Release);
    if n in p.released {
      var k :| 0 <= k < |p.released| && p.released[k] == n;
      assert q.released[k] == n && q.released[|p.released|] == n;
    } else {
      assert n in q.skipped && q.released[|p.released|] == n;
    }
  }

  /** A settlement keeps the order exactly if it releases no packet but the one whose turn it is. */
  lemma SettleInOrder(p: Protocol, n: nat, d: Decision)
    requires InOrder(p) && n < p.expected && (n == p.ack ==> d.Release?)
    requires d.Release? ==> n <= p.ack
    ensures InOrder(Settle(p, n, d)) <==> (d.Release? ==> n == p.ack)
    ensures DropsOnlyOld(p) && d == Compare(n, p.ack) ==> DropsOnlyOld(Settle(p, n, d))
  {
    if d.Release? {
      if n == p.ack {
        AppendIncreasing(p.released, n);
      } else {
        ReleasedTwice(p, n);
      }
    }
  }

  lemma ReceivedInOrder(p: Protocol, i: Input)
    requires InOrder(p) && LinkAdmissible(p, i)
    ensures var q := Received(p, i, p.ack != p.expected);
            InOrder(q) && (DropsOnlyOld(p) ==> DropsOnlyOld(q)) && (Carries(i) ==> i.n < q.expected && q.ack == p.ack)
  {
    if i.Timer? && p.ack != p.expected && p.wait == 0 {
      AppendIncreasing(p.skipped, p.ack);
    }
  }

  /** Every admissible step keeps the order and drops only old packets. */
  lemma NextInOrder(p: Protocol, i: Input)
    requires InOrder(p) && DropsOnlyOld(p) && Admissible(p, i)
    ensures InOrder(Next(p, i)) && DropsOnlyOld(Next(p, i))
  {
    hide InOrder, DropsOnlyOld, Near;
    ReceivedInOrder(p, i);
    if Carries(i) {
      SettleInOrder(Received(p, i, p.ack != p.expected), i.n, Compare(i.n, p.ack));
    }
  }

  /** What has entered the receiver: originals and retransmissions. */
  function Entered(i: Input): multiset<nat> {
    if i.Original? || i.Retransmitted? then multiset{i.n} else multiset{}
  }

  function Everything(p: Protocol): multiset<nat> {
    multiset(p.released) + p.held + p.dropped
  }

  lemma SettleConserves(p: Protocol, n: nat, d: Decision)
    ensures Everything(Settle(p, n, d)) == Everything(p) + multiset{n}
  {
    if d.Release? {
      assert multiset(p.released + [n]) == multiset(p.released) + multiset{n};
    }
  }

  lemma ReceivedConserves(p: Protocol, i: Input, outstanding: bool)
    requires Arrives(p, i)
    ensures var q := Everything(Received(p, i, outstanding));
            if i.Recirculated? then q + multiset{i.n} == Everything(p) else q == Everything(p)
  {
    if i.Recirculated? {
      assert p.held - multiset{i.n} + multiset{i.n} == p.held;
    }
  }

  // ---------- what the registers do ----------

  /** The unbounded numbers behind the registers. `missed` counts timeouts that fired at acknowledgement number
      65535: the timer pass does not touch the era register. */
  datatype Machine = Machine(p: Protocol, missed: nat)

  const POWERED_ON := Machine(INITIAL, 0)

  /** The 16-bit test of the timer pass. */
  predicate SeenOutstanding(p: Protocol) {
    Sub16(Wire(p.ack), Wire(p.expected)) != 0
  }

  predicate MissesToggle(p: Protocol, i: Input) {
    i.Timer? && SeenOutstanding(p) && p.wait == 0 && Wire(p.ack) == MAX_SEQ_NO
  }

  /** One pass of a packet or timer through the registers. */
  function Step(m: Machine, i: Input): Machine {
    var q := Received(m.p, i, SeenOutstanding(m.p));
    Machine(if Carries(i) then Settle(q, i.n, DecideAt(i.n, m.p.ack, m.missed)) else q,
            if MissesToggle(m.p, i) then m.missed + 1 else m.missed)
  }

  function RunFrom(m: Machine, inputs: seq<Input>): Machine {
    if inputs == [] then m else Step(RunFrom(m, inputs[..|inputs| - 1]), inputs[|inputs| - 1])
  }

  /** Where the acknowledgement is at most 65535 behind, the timer's test sees whether a number is outstanding. */
  lemma OutstandingSeen(p: Protocol)
    requires p.ack <= p.expected < p.ack + MAX_SEQ_NUMBERS
    ensures SeenOutstanding(p) <==> p.ack != p.expected
  {
  }

  lemma OutstandingInOrder(p: Protocol)
    requires InOrder(p)
    ensures SeenOutstanding(p) <==> p.ack != p.expected
  {
    OutstandingSeen(p);
  }

  /** In step and within the window the registers do what the protocol does. */
  lemma StepFollows(m: Machine, i: Input)
    requires InOrder(m.p) && Admissible(m.p, i) && m.missed % 2 == 0
    ensures Step(m, i).p == Next(m.p, i)
  {
    hide Near, DecideAt, Distinguishable, SeenOutstanding;
    OutstandingSeen(m.p);
    if Carries(i) {
      NearDistinguishable(i.n, m.p.ack, m.missed);
      DecisionExact(i.n, m.p.ack, m.missed);
    }
  }

  /** Every step conserves the packets that have entered, in step or not. */
  lemma StepConserves(m: Machine, i: Input)
    requires Arrives(m.p, i)
    ensures Everything(Step(m, i).p) == Everything(m.p) + Entered(i)
  {
    hide Everything, Settle, DecideAt;
    var q := Received(m.p, i, SeenOutstanding(m.p));
    ReceivedConserves(m.p, i, SeenOutstanding(m.p));
    if Carries(i) {
      SettleConserves(q, i.n, DecideAt(i.n, m.p.ack, m.missed));
    }
  }

  /** A recirculated packet has the 16 bits of the acknowledgement only if it is its turn. */
  ghost predicate NoAlias(p: Protocol, i: Input) {
    i.Recirculated? && Wire(i.n) == Wire(p.ack) ==> i.n == p.ack
  }

  lemma AliasIsOld(p: Protocol, n: nat)
    requires n < p.expected <= p.ack + SEQ_NUMBERS_HALF_RANGE + 1 && Wire(n) == Wire(p.ack)
    ensures n <= p.ack
  {
  }

  /** What the registers release comes no later than its turn, and comes in its turn unless it recirculated. */
  lemma ReleasedInTurn(m: Machine, i: Input)
    requires InOrder(m.p) && LinkAdmissible(m.p, i) && Carries(i)
    ensures var d := DecideAt(i.n, m.p.ack, m.missed);
            && (i.n == m.p.ack ==> d.Release?) && (d.Release? ==> i.n <= m.p.ack)
            && ((d.Release? ==> i.n == m.p.ack) <==> NoAlias(m.p, i))
  {
    hide Near, DecideAt, Increasing, Distinguishable;
    ReleaseExact(i.n, m.p.ack, m.missed);
    if i.Recirculated? {
      if Wire(i.n) == Wire(m.p.ack) {
        AliasIsOld(m.p, i.n);
      }
    } else {
      NearDistinguishable(i.n, m.p.ack, m.missed);
    }
  }

  /** In step or not, a step keeps release in order and exactly once exactly if it is not the pass of a recirculated
      packet with the 16 bits of another number. */
  lemma StepKeepsOrder(m: Machine, i: Input)
    requires InOrder(m.p) && LinkAdmissible(m.p, i)
    ensures InOrder(Step(m, i).p) <==> NoAlias(m.p, i)
  {
    var q := Received(m.p, i, SeenOutstanding(m.p));
    OutstandingInOrder(m.p);
    ReceivedInOrder(m.p, i);
    hide Near, DecideAt, SeenOutstanding, Settle, InOrder, LinkAdmissible, Received, Wire;
    if Carries(i) {
      ReleasedInTurn(m, i);
      SettleInOrder(q, i.n, DecideAt(i.n, m.p.ack, m.missed));
    }
  }

  // ---------- whole runs ----------

  function RunOf(inputs: seq<Input>): Machine {
    RunFrom(POWERED_ON, inputs)
  }

  /** The protocol's own run. */
  function After(inputs: seq<Input>): Protocol {
    if inputs == [] then INITIAL else Next(After(inputs[..|inputs| - 1]), inputs[|inputs| - 1])
  }

  ghost predicate AdmissibleRun(inputs: seq<Input>) {
    inputs == [] ||
    (AdmissibleRun(inputs[..|inputs| - 1]) && Admissible(After(inputs[..|inputs| - 1]), inputs[|inputs| - 1]))
  }

  function AllEntered(inputs: seq<Input>): multiset<nat> {
    if inputs == [] then multiset{} else AllEntered(inputs[..|inputs| - 1]) + Entered(inputs[|inputs| - 1])
  }

  /** No timeout fires at acknowledgement number 65535. */
  ghost predicate EraKept(inputs: seq<Input>) {
    inputs == [] ||
    (EraKept(inputs[..|inputs| - 1]) && !MissesToggle(After(inputs[..|inputs| - 1]), inputs[|inputs| - 1]))
  }

  /** The protocol, over every run: release in order and exactly once, and no packet dropped that was still needed. */
  lemma {:induction false} EveryRun(inputs: seq<Input>)
    requires AdmissibleRun(inputs)
    ensures InOrder(After(inputs)) && DropsOnlyOld(After(inputs))
  {
    if inputs != [] {
      var before := inputs[..|inputs| - 1];
      EveryRun(before);
      NextInOrder(After(before), inputs[|inputs| - 1]);
    }
  }

  /** The registers follow the protocol over every run within the window without a timeout at 65535. */
  lemma {:induction false} RunFollows(inputs: seq<Input>)
    requires AdmissibleRun(inputs) && EraKept(inputs)
    ensures RunOf(inputs) == Machine(After(inputs), 0)
  {
    if inputs != [] {
      hide InOrder, DropsOnlyOld, Admissible, Next;
      var before := inputs[..|inputs| - 1];
      RunFollows(before);
      EveryRun(before);
      StepFollows(RunOf(before), inputs[|inputs| - 1]);
    }
  }

  /** Link and recirculation port behave; what comes over the link is within the window. */
  ghost predicate LinkRun(inputs: seq<Input>) {
    inputs == [] ||
    (LinkRun(inputs[..|inputs| - 1]) && LinkAdmissible(RunOf(inputs[..|inputs| - 1]).p, inputs[|inputs| - 1]))
  }

  ghost predicate NoAliasRun(inputs: seq<Input>) {
    inputs == [] ||
    (NoAliasRun(inputs[..|inputs| - 1]) && NoAlias(RunOf(inputs[..|inputs| - 1]).p, inputs[|inputs| - 1]))
  }

  /** In order after every input. */
  ghost predicate AlwaysInOrder(inputs: seq<Input>) {
    InOrder(RunOf(inputs).p) && (inputs == [] || AlwaysInOrder(inputs[..|inputs| - 1]))
  }

  lemma InitiallyInOrder()
    ensures InOrder(INITIAL) && DropsOnlyOld(INITIAL)
  {
    EveryRun([]);
  }

  /** Also with missed toggles, the registers release in order and exactly once over a whole run exactly if no
      recirculated packet ever has the 16 bits of the acknowledgement of another number. */
  lemma {:induction false} OrderOutOfStep(inputs: seq<Input>)
    requires LinkRun(inputs)
    ensures AlwaysInOrder(inputs) <==> NoAliasRun(inputs)
  {
    hide InOrder, NoAlias, LinkAdmissible, Step;
    if inputs == [] {
      InitiallyInOrder();
    } else {
      var before := inputs[..|inputs| - 1];
      OrderOutOfStep(before);
      if AlwaysInOrder(before) {
        StepKeepsOrder(RunOf(before), inputs[|inputs| - 1]);
      }
    }
  }

  /** Every packet that entered was released, is held or was dropped, whatever the numbers in play. */
  lemma {:induction false} RunConserves(inputs: seq<Input>)
    requires LinkRun(inputs)
    ensures Everything(RunOf(inputs).p) == AllEntered(inputs)
  {
    if inputs != [] {
      hide Everything, Step;
      RunConserves(inputs[..|inputs| - 1]);
      StepConserves(RunOf(inputs[..|inputs| - 1]), inputs[|inputs| - 1]);
    } else {
      assert Everything(INITIAL) == multiset{};
    }
  }

  // ---------- giving up ----------

  /** How many timer passes find a number outstanding. */
  function OutstandingPasses(m: Machine, inputs: seq<Input>): nat {
    if inputs == [] then 0 else
    var before := inputs[..|inputs| - 1];
    OutstandingPasses(m, before) +
    if inputs[|inputs| - 1].Timer? && SeenOutstanding(RunFrom(m, before).p) then 1 else 0
  }

  lemma {:induction false} AckNeverFalls(m: Machine, inputs: seq<Input>)
    ensures m.p.ack <= RunFrom(m, inputs).p.ack
  {
    if inputs != [] {
      AckNeverFalls(m, inputs[..|inputs| - 1]);
    }
  }

  lemma StepWaits(m: Machine, i: Input)
    ensures var n := Step(m, i);
            && (n.p.ack == m.p.ack || n.p.ack == m.p.ack + 1)
            && (n.p.ack == m.p.ack ==> n.p.wait == m.p.wait - if i.Timer? && SeenOutstanding(m.p) then 1 else 0)
  {
  }

  /** Whatever else passes in between, each timer pass that finds the number outstanding counts down, so at most
      `wait` of them can go by before the number is released or given up. */
  lemma {:induction false} GivenUpInTime(m: Machine, inputs: seq<Input>)
    requires RunFrom(m, inputs).p.ack == m.p.ack
    ensures OutstandingPasses(m, inputs) == m.p.wait - RunFrom(m, inputs).p.wait <= m.p.wait
  {
    if inputs != [] {
      hide Step, SeenOutstanding;
      var before := inputs[..|inputs| - 1];
      AckNeverFalls(m, before);
      StepWaits(RunFrom(m, before), inputs[|inputs| - 1]);
      GivenUpInTime(m, before);
    }
  }

  // ---------- a run in which a stale packet takes the place of another ----------

  function Originals(from: nat, count: nat): seq<Input> {
    seq(count, i requires 0 <= i < count => Original(from + i))
  }

  function Numbers(from: nat, count: nat): seq<nat> {
    seq(count, i requires 0 <= i < count => from + i)
  }

  function Timers(count: nat): seq<Input> {
    seq(count, _ => Timer)
  }

  lemma RunStep(inputs: seq<Input>, i: Input)
    requires LinkRun(inputs) && LinkAdmissible(RunOf(inputs).p, i)
    ensures LinkRun(inputs + [i]) && RunOf(inputs + [i]) == Step(RunOf(inputs), i)
  {
    assert (inputs + [i])[..|inputs|] == inputs;
  }

  /** Originals that arrive in their turn are released one after the other. */
  lemma {:induction false} OriginalsReleased(inputs: seq<Input>, count: nat)
    requires LinkRun(inputs) && RunOf(inputs).p.ack == RunOf(inputs).p.expected && count > 0
    ensures var m, all := RunOf(inputs), inputs + Originals(RunOf(inputs).p.ack, count);
            && LinkRun(all)
            && RunOf(all) == m.(p := m.p.(ack := m.p.ack + count, expected := m.p.ack + count,
                                          wait := TIMEOUT_VAL_100NS,
                                          released := m.p.released + Numbers(m.p.ack, count)))
  {
    hide LinkRun, RunFrom;
    var from := RunOf(inputs).p.ack;
    var before, last := inputs + Originals(from, count - 1), Original(from + count - 1);
    if count > 1 {
      OriginalsReleased(inputs, count - 1);
    } else {
      assert before == inputs;
      assert RunOf(inputs).p.released + Numbers(from, 0) == RunOf(inputs).p.released;
    }
    ReleaseExact(last.n, last.n, RunOf(inputs).missed);
    RunStep(before, last);
    assert before + [last] == inputs + Originals(from, count);
    assert RunOf(inputs).p.released + Numbers(from, count - 1) + [last.n] ==
             RunOf(inputs).p.released + Numbers(from, count);
  }

  /** Timer passes count down while a number is outstanding. */
  lemma {:induction false} TimersCountDown(inputs: seq<Input>, count: nat)
    requires LinkRun(inputs) && SeenOutstanding(RunOf(inputs).p) && count <= RunOf(inputs).p.wait
    ensures var m, all := RunOf(inputs), inputs + Timers(count);
            LinkRun(all) && RunOf(all) == m.(p := m.p.(wait := m.p.wait - count))
  {
    hide LinkRun, RunFrom;
    if count == 0 {
      assert inputs + Timers(0) == inputs;
    } else {
      var before := inputs + Timers(count - 1);
      TimersCountDown(inputs, count - 1);
      RunStep(before, Timer);
      assert before + [Timer] == inputs + Timers(count);
    }
  }

  lemma PowerOn()
    ensures LinkRun([]) && RunOf([]) == POWERED_ON
  {
  }

  /** Packet 65535 is lost and packet 65536 held; the wait for 65535 runs out. */
  lemma MissedToggle(inputs: seq<Input>)
    requires inputs == Originals(0, 65535) + [Original(65536)] + Timers(TIMEOUT_VAL_100NS) + [Timer]
    ensures LinkRun(inputs)
    ensures RunOf(inputs) == Machine(Protocol(65536, 65537, TIMEOUT_VAL_100NS, Numbers(0, 65535), [65535],
                                              multiset{65536}, multiset{}), 1)
  {
    hide RunFrom, LinkRun, Originals, Numbers, Timers, DecideAt;
    var first, second := Originals(0, 65535), Originals(0, 65535) + [Original(65536)];
    var third := second + Timers(TIMEOUT_VAL_100NS);
    PowerOn();
    OriginalsReleased([], 65535);
    assert [] + first == first && [] + Numbers(0, 65535) == Numbers(0, 65535);
    DecisionExact(65536, 65535, 0);
    RunStep(first, Original(65536));
    TimersCountDown(second, TIMEOUT_VAL_100NS);
    RunStep(third, Timer);
    assert third + [Timer] == inputs;
  }

  const STALE_RUN := Originals(0, 65535) + [Original(65536)] + Timers(TIMEOUT_VAL_100NS) + [Timer]
                     + [Retransmitted(65535), Recirculated(65536)] + Originals(65537, 65534) + [Recirculated(65535)]

  /** The retransmission of 65535 comes after its timeout, is held by mistake, and recirculates until it is released
      in the place of 131071. */
  lemma StaleRelease()
    ensures LinkRun(STALE_RUN)
    ensures var p := RunOf(STALE_RUN).p;
            && p.ack == 131072 && p.expected == 131071
            && p.released == Numbers(0, 65535) + [65536] + Numbers(65537, 65534) + [65535] && p.skipped == [65535]
            && !InOrder(p)
  {
    hide RunFrom, LinkRun, Originals, Numbers, Timers, DecideAt, Increasing;
    var first := Originals(0, 65535) + [Original(65536)] + Timers(TIMEOUT_VAL_100NS) + [Timer];
    MissedToggle(first);
    StaleFate(65535, 65536, 1);
    RunStep(first, Retransmitted(65535));
    var second := first + [Retransmitted(65535)];
    ReleaseExact(65536, 65536, 1);
    RunStep(second, Recirculated(65536));
    var third := second + [Recirculated(65536)];
    OriginalsReleased(third, 65534);
    var fourth := third + Originals(65537, 65534);
    StaleFate(65535, 131071, 1);
    RunStep(fourth, Recirculated(65535));
    assert fourth + [Recirculated(65535)] == STALE_RUN;
  }

  // ---------- the registers ----------

  lemma ExpectedAfter(before: seq<Arrival>, a: Arrival)
    ensures Expected(before + [a]) == a.Next()
  {
  }

  /** One step of the acknowledgement number: the era register keeps up if it toggles after 65535, and falls out of
      step if it does not. */
  lemma RegisterAdvance(ack: nat, missed: nat)
    ensures Wire(ack + 1) == Add16(Wire(ack), 1)
    ensures Wire(ack) != MAX_SEQ_NO ==> EraAfter(ack + 1, missed) == EraAfter(ack, missed)
    ensures Wire(ack) == MAX_SEQ_NO ==> EraAfter(ack + 1, missed) == Complement(EraAfter(ack, missed))
    ensures Wire(ack) == MAX_SEQ_NO ==> EraAfter(ack + 1, missed + 1) == EraAfter(ack, missed)
  {
    NextNumber(ack);
  }

  class BlockingReceiver {
    const detector: HoleDetector
    var ackNo: SeqNo
    var timeRemaining: nat
    var ackEra: Byte
    ghost var machine: Machine

    /** The acknowledgement registers stand for the machine's unbounded numbers. */
    ghost predicate Represents()
      reads this
    {
      && ackNo == Wire(machine.p.ack) && timeRemaining == machine.p.wait
      && ackEra == EraAfter(machine.p.ack, machine.missed)
    }

    ghost predicate Valid()
      reads this, detector
    {
      detector.Valid() && machine.p.expected == Expected(detector.arrivals) && Represents()
    }

    constructor ()
      ensures Valid() && fresh(detector) && machine == POWERED_ON
    {
      detector := new HoleDetector();
      ackNo, timeRemaining, ackEra := 0, TIMEOUT_VAL_100NS, 0;
      machine := POWERED_ON;
    }

    /** Blocking mode for one packet: release it and advance, or compare and hold or drop it. */
    method BlockingPass(header: Header, ghost n: nat) returns (d: Decision)
      requires Represents() && header == Stamp(n, false)
      modifies `ackNo, `timeRemaining, `ackEra, `machine
      ensures Represents() && d == DecideAt(n, old(machine.p.ack), machine.missed)
      ensures machine == old(machine).(p := Settle(old(machine.p), n, d))
    {
      hide Wire, Era, EraAfter, Complement;
      RegisterAdvance(machine.p.ack, machine.missed);
      var currAck := ackNo;
      if ackNo == header.seqNo {
        ackNo := Add16(ackNo, 1);
        timeRemaining := TIMEOUT_VAL_100NS;
      }
      if currAck == header.seqNo {
        d := Release;
        if currAck == MAX_SEQ_NO {
          ackEra := Complement(ackEra);
        }
      } else {
        var pktSeqNo, currAckEra := header.seqNo, LowBit(ackEra);
        if header.era != currAckEra {
          pktSeqNo := Sub16(pktSeqNo, SEQ_NUMBERS_HALF_RANGE);
          currAck := Sub16(currAck, SEQ_NUMBERS_HALF_RANGE);
        }
        var minVal := if currAck <= pktSeqNo then currAck else pktSeqNo;
        d := if minVal == currAck then Hold else Drop;
      }
      machine := machine.(p := Settle(machine.p, n, d));
    }

    /** Hole detection, with its new expected number. */
    method Detect(header: Header, ghost a: Arrival) returns (report: Report)
      requires Valid() && header == Stamp(a.n, a.Dummy?) && a.n >= machine.p.expected
      modifies `machine, detector
      ensures Valid() && machine == old(machine).(p := old(machine.p).(expected := a.Next()))
      ensures detector.arrivals == old(detector.arrivals) + [a]
    {
      hide Wire, Era, EraAfter, Expected, Holes;
      report := detector.Receive(header, a);
      ExpectedAfter(old(detector.arrivals), a);
      machine := machine.(p := machine.p.(expected := a.Next()));
    }

    /** An original data packet: hole detection first, then blocking mode. */
    method ReceiveOriginal(header: Header, ghost n: nat) returns (report: Report, d: Decision)
      requires Valid() && header == Stamp(n, false) && n >= machine.p.expected
      modifies this, detector
      ensures Valid() && machine == Step(old(machine), Original(n))
      ensures d == DecideAt(n, old(machine.p.ack), old(machine.missed))
      ensures detector.arrivals == old(detector.arrivals) + [Data(n)]
    {
      hide Wire, Era, EraAfter, DecideAt, Expected, Holes, HoleDetector.Valid;
      report := Detect(header, Data(n));
      d := BlockingPass(header, n);
    }

    /** A dummy packet takes part in hole detection only. */
    method ReceiveDummy(header: Header, ghost n: nat) returns (report: Report)
      requires Valid() && header == Stamp(n, true) && n >= machine.p.expected
      modifies this, detector
      ensures Valid() && machine == Step(old(machine), DummyPacket(n))
      ensures detector.arrivals == old(detector.arrivals) + [Dummy(n)]
    {
      hide Wire, Era, EraAfter, Expected;
      report := Detect(header, Dummy(n));
    }

    /** A retransmitted packet goes straight to blocking mode. */
    method ReceiveRetransmission(header: Header, ghost n: nat) returns (d: Decision)
      requires Valid() && header == Stamp(n, false)
      modifies this
      ensures Valid() && machine == Step(old(machine), Retransmitted(n))
      ensures d == DecideAt(n, old(machine.p.ack), old(machine.missed))
    {
      hide Wire, Era, EraAfter, DecideAt, Expected;
      d := BlockingPass(header, n);
    }

    /** A held packet comes back from the recirculation port. */
    method ReceiveRecirculated(header: Header, ghost n: nat) returns (d: Decision)
      requires Valid() && header == Stamp(n, false)
      modifies this
      ensures Valid() && machine == Step(old(machine), Recirculated(n))
      ensures d == DecideAt(n, old(machine.p.ack), old(machine.missed))
    {
      hide Wire, Era, EraAfter, DecideAt, Expected;
      machine := machine.(p := machine.p.(held := machine.p.held - multiset{n}));
      d := BlockingPass(header, n);
    }

    /** A timer packet: counts down while a number is seen outstanding, and gives it up when the count is over. */
    method TimerPass() returns (timedOut: bool)
      requires Valid()
      modifies this
      ensures Valid() && machine == Step(old(machine), Timer)
      ensures timedOut <==> machine.p.ack != old(machine.p.ack)
    {
      hide Wire, Era, EraAfter, Expected;
      RegisterAdvance(machine.p.ack, machine.missed);
      timedOut := false;
      ghost var before := machine;
      if Sub16(ackNo, detector.expected) != 0 {
        if timeRemaining == 0 {
          ackNo := Add16(ackNo, 1);
          timeRemaining := TIMEOUT_VAL_100NS;
          timedOut := true;
        } else {
          timeRemaining := timeRemaining - 1;
        }
      }
      machine := Step(machine, Timer);
    }
  }

  // ---------- registers over whole runs ----------

  /** Originals and dummies arrive in order; nothing is asked of the numbers in play. */
  ghost predicate FifoRun(inputs: seq<Input>) {
    inputs == [] ||
    var i := inputs[|inputs| - 1];
    && FifoRun(inputs[..|inputs| - 1])
    && (i.Original? || i.DummyPacket? ==> i.n >= RunOf(inputs[..|inputs| - 1]).p.expected)
  }

  lemma {:induction false} FifoPrefix(inputs: seq<Input>, k: nat)
    requires FifoRun(inputs) && k <= |inputs|
    ensures FifoRun(inputs[..k])
  {
    if k < |inputs| {
      var before := inputs[..|inputs| - 1];
      FifoPrefix(before, k);
      assert before[..k] == inputs[..k];
    } else {
      assert inputs[..k] == inputs;
    }
  }

  lemma FifoStep(inputs: seq<Input>, k: nat)
    requires FifoRun(inputs) && k < |inputs|
    ensures var m, i := RunOf(inputs[..k]), inputs[k];
            (i.Original? || i.DummyPacket? ==> i.n >= m.p.expected) && RunOf(inputs[..k + 1]) == Step(m, i)
  {
    hide Step;
    FifoPrefix(inputs, k + 1);
    var prefix := inputs[..k + 1];
    assert prefix[..|prefix| - 1] == inputs[..k] && prefix[|prefix| - 1] == inputs[k];
  }

  /** Feeds one input to the registers. */
  method Feed(r: BlockingReceiver, i: Input)
    requires r.Valid() && (i.Original? || i.DummyPacket? ==> i.n >= r.machine.p.expected)
    modifies r, r.detector
    ensures r.Valid() && r.machine == Step(old(r.machine), i)
  {
    hide Step, BlockingReceiver.Represents, HoleDetector.Valid;
    match i {
      case Original(n) =>
        var _, _ := r.ReceiveOriginal(Stamp(n, false), n);
      case DummyPacket(n) =>
        var _ := r.ReceiveDummy(Stamp(n, true), n);
      case Retransmitted(n) =>
        var _ := r.ReceiveRetransmission(Stamp(n, false), n);
      case Recirculated(n) =>
        var _ := r.ReceiveRecirculated(Stamp(n, false), n);
      case Timer =>
        var _ := r.TimerPass();
    }
  }

  lemma NothingFed()
    ensures RunOf([]) == POWERED_ON
  {
  }

  /** The registers stand for the unbounded run behind any inputs; within the window and without a timeout at 65535
      that is the run of the protocol. */
  method Play(inputs: seq<Input>) returns (r: BlockingReceiver)
    requires FifoRun(inputs)
    ensures fresh(r) && r.Valid() && r.machine == RunOf(inputs)
    ensures AdmissibleRun(inputs) && EraKept(inputs) ==> r.machine == Machine(After(inputs), 0)
  {
    hide AdmissibleRun, EraKept, FifoRun, Step, RunFrom, BlockingReceiver.Represents;
    r := new BlockingReceiver();
    NothingFed();
    for k := 0 to |inputs|
      invariant r.Valid() && r.machine == RunOf(inputs[..k])
      invariant fresh(r) && fresh(r.detector)
    {
      FifoStep(inputs, k);
      Feed(r, inputs[k]);
    }
    assert inputs[..|inputs|] == inputs;
    if AdmissibleRun(inputs) && EraKept(inputs) {
      RunFollows(inputs);
    }
  }
}
