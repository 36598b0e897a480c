/** Unbounded packet numbers and what the wire carries of them: 16 bits, and an era bit for the block of 65536. */
module SequenceNumbers {

  const MAX_SEQ_NUMBERS := 65536
  const SEQ_NUMBERS_HALF_RANGE := 32768
  const MAX_SEQ_NO := 65535

  type SeqNo = x: int | 0 <= x < MAX_SEQ_NUMBERS
  type Byte = x: int | 0 <= x < 256
  type Bit = x: int | 0 <= x < 2

  function Wire(n: nat): SeqNo {
    n % MAX_SEQ_NUMBERS
  }

  function Era(n: nat): Bit {
    n / MAX_SEQ_NUMBERS % 2
  }

  function Add16(x: int, y: int): SeqNo {
    (x + y) % MAX_SEQ_NUMBERS
  }

  function Sub16(x: int, y: int): SeqNo {
    (x - y) % MAX_SEQ_NUMBERS
  }

  /** The bitwise complement of an 8-bit register. */
  function Complement(x: Byte): Byte {
    255 - x
  }

  /** The cast of an 8-bit value to one bit. */
  function LowBit(x: Byte): Bit {
    x % 2
  }

  /** An era register holds all zeros or all ones. */
  function EraByte(era: Bit): (b: Byte)
    ensures LowBit(b) == era
    ensures Complement(b) == if era == 0 then 255 else 0
  {
    if era == 0 then 0 else 255
  }

  /** The era changes exactly after number 65535 of a block. */
  lemma NextNumber(n: nat)
    ensures Wire(n + 1) == Add16(Wire(n), 1)
    ensures Era(n + 1) == if Wire(n) == MAX_SEQ_NO then 1 - Era(n) else Era(n)
  {
    var block := n / MAX_SEQ_NUMBERS;
    assert (n + 1) / MAX_SEQ_NUMBERS == if Wire(n) == MAX_SEQ_NO then block + 1 else block;
  }

  datatype Header = Header(seqNo: SeqNo, era: Bit, dummy: bool)

  /** The header of packet number `n`; a dummy carries the number of the next packet to be sent. */
  function Stamp(n: nat, dummy: bool): Header {
    Header(Wire(n), Era(n), dummy)
  }

  /** The sending side's registers; `next` is the unbounded number they stand for. */
  class Sender {
    var seqNo: SeqNo
    var era: Byte
    ghost var next: nat

    ghost predicate Valid()
      reads this
    {
      seqNo == Wire(next) && era == EraByte(Era(next))
    }

    constructor ()
      ensures Valid() && next == 0
    {
      seqNo, era, next := 0, 0, 0;
    }

    /** Protects the next data packet; the era register toggles after sequence number 65535. */
    method Protect() returns (header: Header)
      requires Valid()
      modifies this
      ensures Valid() && header == Stamp(old(next), false) && next == old(next) + 1
    {
      NextNumber(next);
      var sent := seqNo;
      seqNo := Add16(seqNo, 1);
      if sent == MAX_SEQ_NO {
        header := Header(sent, LowBit(era), false);
        era := Complement(era);
      } else {
        header := Header(sent, LowBit(era), false);
      }
      next := next + 1;
    }

    /** A dummy packet takes the current sequence number and era, and leaves both. */
    method Dummy() returns (header: Header)
      requires Valid()
      ensures Valid() && header == Stamp(next, true)
    {
      header := Header(seqNo, LowBit(era), true);
    }
  }
}
