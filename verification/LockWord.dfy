/** The 64-bit word of the read/write lock: eight bytes, updated by whole-word
    fetch-and-add and by single byte stores. */
module LockWord {
  import opened Common

  const TWO_16 := 0x1_0000
  const TWO_24 := 0x100_0000
  const TWO_40 := 0x100_0000_0000
  const TWO_48 := 0x1_0000_0000_0000

  type Word = w: nat | w < TWO_64

  // The three tickets in use; each occupies one 16-bit lane, ticket byte below pad byte.
  datatype Lane = WriterLane | ReaderLane | NextLane

  /** What a fetch-and-add adds to step a lane's ticket. */
  function Increment(l: Lane): nat {
    match l
    case WriterLane => 1
    case ReaderLane => TWO_16
    case NextLane => TWO_32
  }

  /** Load of a lane's ticket byte. */
  function Ticket(w: Word, l: Lane): nat {
    match l
    case WriterLane => w % 256
    case ReaderLane => (w / TWO_16) % 256
    case NextLane => (w / TWO_32) % 256
  }

  /** Byte store of zero to a lane's pad. */
  function StoreZeroPad(w: Word, l: Lane): (z: Word) {
    PadBelow(w);
    match l
    case WriterLane => w - (w / 256) % 256 * 256
    case ReaderLane => w - (w / TWO_24) % 256 * TWO_24
    case NextLane => w - (w / TWO_40) % 256 * TWO_40
  }

  /** Atomic add to the whole word, wrapping at 64 bits. */
  function FetchAdd(w: Word, inc: nat): Word {
    (w + inc) % TWO_64
  }

  /** The two bytes of a lane as one number: ticket + 256 * pad. */
  function LaneOf(w: Word, l: Lane): nat {
    match l
    case WriterLane => w % TWO_16
    case ReaderLane => (w / TWO_16) % TWO_16
    case NextLane => (w / TWO_32) % TWO_16
  }

  lemma PadBelow(w: Word)
    ensures (w / 256) % 256 * 256 <= w
    ensures (w / TWO_24) % 256 * TWO_24 <= w
    ensures (w / TWO_40) % 256 * TWO_40 <= w
  {
  }

  lemma TicketOfLane(w: Word, l: Lane)
    ensures Ticket(w, l) == LaneOf(w, l) % 256
  {
    LowByte(w);
    LowByte(w / TWO_16);
    LowByte(w / TWO_32);
  }

  lemma LowByte(x: nat)
    ensures x % TWO_16 % 256 == x % 256
  {
    assert x == TWO_16 * (x / TWO_16) + x % TWO_16;
  }

  lemma SecondByte(x: nat)
    ensures (x / 256) % 256 == (x % TWO_16) / 256
  {
    assert x == TWO_16 * (x / TWO_16) + x % TWO_16;
    assert x / 256 == 256 * (x / TWO_16) + (x % TWO_16) / 256;
  }

  lemma Shift(x: nat, q: nat, r: nat)
    requires r < TWO_16 && x == r + TWO_16 * q
    ensures x / TWO_16 == q && x % TWO_16 == r
  {
  }

  lemma ShiftTwice(x: nat)
    ensures x / TWO_32 == x / TWO_16 / TWO_16
  {
  }

  /** w as four 16-bit digits. */
  lemma Digits(w: Word) returns (d: nat)
    ensures d < TWO_16 && LaneOf(w, WriterLane) < TWO_16 && LaneOf(w, ReaderLane) < TWO_16 && LaneOf(w, NextLane) < TWO_16
    ensures w == LaneOf(w, WriterLane) + TWO_16 * LaneOf(w, ReaderLane) + TWO_32 * LaneOf(w, NextLane) + TWO_48 * d
  {
    d := w / TWO_32 / TWO_16;
    ShiftTwice(w);
  }

  lemma DigitsUnique(w: Word, a: nat, b: nat, c: nat, d: nat)
    requires a < TWO_16 && b < TWO_16 && c < TWO_16 && d < TWO_16
    requires w == a + TWO_16 * b + TWO_32 * c + TWO_48 * d
    ensures LaneOf(w, WriterLane) == a && LaneOf(w, ReaderLane) == b && LaneOf(w, NextLane) == c
  {
    Shift(w, b + TWO_16 * c + TWO_32 * d, a);
    Shift(b + TWO_16 * c + TWO_32 * d, c + TWO_16 * d, b);
    Shift(c + TWO_16 * d, d, c);
    ShiftTwice(w);
  }

  /** A whole-word add of a lane's unit steps that lane and no other, as long as the lane is not full. */
  lemma AddSteps(w: Word, m: Lane, l: Lane)
    requires LaneOf(w, m) < TWO_16 - 1
    ensures LaneOf(FetchAdd(w, Increment(m)), l) == LaneOf(w, l) + if l == m then 1 else 0
  {
    var d := Digits(w);
    AddDigit(w, m, LaneOf(w, WriterLane), LaneOf(w, ReaderLane), LaneOf(w, NextLane), d);
  }

  lemma AddDigit(w: Word, l: Lane, a: nat, b: nat, c: nat, d: nat)
    requires a < TWO_16 && b < TWO_16 && c < TWO_16 && d < TWO_16
    requires w == a + TWO_16 * b + TWO_32 * c + TWO_48 * d
    requires (match l case WriterLane => a case ReaderLane => b case NextLane => c) < TWO_16 - 1
    ensures var v := FetchAdd(w, Increment(l));
            && LaneOf(v, WriterLane) == a + (if l == WriterLane then 1 else 0)
            && LaneOf(v, ReaderLane) == b + (if l == ReaderLane then 1 else 0)
            && LaneOf(v, NextLane) == c + (if l == NextLane then 1 else 0)
  {
    match l {
      case WriterLane => DigitsUnique(w + 1, a + 1, b, c, d);
      case ReaderLane => DigitsUnique(w + TWO_16, a, b + 1, c, d);
      case NextLane => DigitsUnique(w + TWO_32, a, b, c + 1, d);
    }
  }

  /** The writer's release steps the writer and the reader lane with one add. */
  lemma AddBothSteps(w: Word, l: Lane)
    requires LaneOf(w, WriterLane) < TWO_16 - 1 && LaneOf(w, ReaderLane) < TWO_16 - 1
    ensures LaneOf(FetchAdd(w, Increment(WriterLane) + Increment(ReaderLane)), l) == LaneOf(w, l) + if l == NextLane then 0 else 1
  {
    hide LaneOf;
    var d := Digits(w);
    DigitsUnique(w + 1 + TWO_16, LaneOf(w, WriterLane) + 1, LaneOf(w, ReaderLane) + 1, LaneOf(w, NextLane), d);
  }

  lemma PadByte(w: Word)
    ensures (w / 256) % 256 == LaneOf(w, WriterLane) / 256
    ensures (w / TWO_24) % 256 == LaneOf(w, ReaderLane) / 256
    ensures (w / TWO_40) % 256 == LaneOf(w, NextLane) / 256
  {
    SecondByte(w);
    SecondByte(w / TWO_16);
    SecondByte(w / TWO_32);
    assert w / TWO_24 == w / TWO_16 / 256;
    assert w / TWO_40 == w / TWO_32 / 256;
  }

  /** Storing zero to a lane's pad byte reduces that lane to its ticket and changes no other lane. */
  lemma ClearPad(w: Word, m: Lane, l: Lane)
    ensures LaneOf(StoreZeroPad(w, m), l) == if l == m then LaneOf(w, l) % 256 else LaneOf(w, l)
  {
    var d := Digits(w);
    PadByte(w);
    ClearDigit(w, StoreZeroPad(w, m), m, LaneOf(w, WriterLane), LaneOf(w, ReaderLane), LaneOf(w, NextLane), d);
  }

  lemma ClearDigit(w: Word, z: int, l: Lane, a: nat, b: nat, c: nat, d: nat)
    requires a < TWO_16 && b < TWO_16 && c < TWO_16 && d < TWO_16
    requires w == a + TWO_16 * b + TWO_32 * c + TWO_48 * d
    requires z == w - match l case WriterLane => a / 256 * 256 case ReaderLane => b / 256 * TWO_24 case NextLane => c / 256 * TWO_40
    ensures 0 <= z < TWO_64
    ensures LaneOf(z, WriterLane) == if l == WriterLane then a % 256 else a
    ensures LaneOf(z, ReaderLane) == if l == ReaderLane then b % 256 else b
    ensures LaneOf(z, NextLane) == if l == NextLane then c % 256 else c
  {
    match l {
      case WriterLane => DigitsUnique(z, a % 256, b, c, d);
      case ReaderLane => DigitsUnique(z, a, b % 256, c, d);
      case NextLane => DigitsUnique(z, a, b, c % 256, d);
    }
  }
}
