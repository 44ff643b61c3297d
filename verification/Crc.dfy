/**
  lfs_crc (lfs_util.c:14): the CRC-32 of section 3.2.9 of IEEE 802.3, reflected and
  without the final complement, computed a nibble at a time from a table of 16 words.
 */
module Crc {

  /** A 32-bit register. */
  datatype Word = Word(bits: bv32)

  const POLYNOMIAL: bv32 := 0xedb88320

  const RTABLE: seq<bv32> := [
    0x00000000, 0x1db71064, 0x3b6e20c8, 0x26d930ac,
    0x76dc4190, 0x6b6b51f4, 0x4db26158, 0x5005713c,
    0xedb88320, 0xf00f9344, 0xd6d6a3e8, 0xcb61b38c,
    0x9b64c2b0, 0x86d3d2d4, 0xa00ae278, 0xbdbdf21c]

  const ZERO := Word(0)

  function Xor(x: Word, y: Word): Word { Word(XorBits(x.bits, y.bits)) }

  function XorBits(x: bv32, y: bv32): bv32 { x ^ y }

  function Low(x: Word): Word { Word(LowBits(x.bits)) }

  function Half(x: Word): Word { Word(HalfBits(x.bits)) }

  function LowBits(x: bv32): bv32 { x & 1 }

  function HalfBits(x: bv32): bv32 { x >> 1 }

  function StepBits(x: bv32): bv32 { (x >> 1) ^ (if x & 1 == 1 then POLYNOMIAL else 0) }

  function OfByte(b: bv8): Word { Word(b as bv32) }

  // ----- the checksum, bit by bit -----

  /** Shifts the register by one bit and subtracts the polynomial if a one falls out. */
  function Step(x: Word): Word {
    Word(StepBits(x.bits))
  }

  function Steps(x: Word, n: nat): Word
    decreases n
  {
    if n == 0 then x else Steps(Step(x), n - 1)
  }

  /** Feeds the n lowest bits of a word, the lowest first. */
  function FeedBits(crc: Word, bits: Word, n: nat): Word
    decreases n
  {
    if n == 0 then crc else FeedBits(Step(Xor(crc, Low(bits))), Half(bits), n - 1)
  }

  function Checksum(crc: Word, data: seq<bv8>): Word {
    if data == [] then crc
    else FeedBits(Checksum(crc, data[..|data| - 1]), OfByte(data[|data| - 1]), 8)
  }

  // ----- the register is linear -----

  lemma XorCommutes(x: Word, y: Word)
    ensures Xor(x, y) == Xor(y, x)
  {
  }

  lemma XorAssociates(x: Word, y: Word, z: Word)
    ensures Xor(Xor(x, y), z) == Xor(x, Xor(y, z))
  {
  }

  lemma XorZero(x: Word)
    ensures Xor(x, ZERO) == x
  {
  }

  lemma XorSelf(x: Word, y: Word)
    ensures Xor(x, y) == ZERO <==> x == y
  {
  }

  lemma XorCancels(x: Word, y: Word, z: Word)
    requires Xor(z, x) == Xor(z, y)
    ensures x == y
  {
    assert z.bits ^ (z.bits ^ x.bits) == x.bits;
  }

  lemma StepLinear(x: Word, y: Word)
    ensures Step(Xor(x, y)) == Xor(Step(x), Step(y))
  {
    hide StepBits, XorBits;
    StepLinearBits(x.bits, y.bits);
  }

  lemma StepLinearBits(x: bv32, y: bv32)
    ensures StepBits(XorBits(x, y)) == XorBits(StepBits(x), StepBits(y))
  {
    StepLinearRaw(x, y);
    hide StepBits;
    assert XorBits(x, y) == x ^ y && XorBits(StepBits(x), StepBits(y)) == StepBits(x) ^ StepBits(y);
  }

  lemma StepLinearRaw(x: bv32, y: bv32)
    ensures StepBits(x ^ y) == StepBits(x) ^ StepBits(y)
  {
    hide StepBits;
    if x & 1 == 1 {
      if y & 1 == 1 { OddOdd(x, y); } else { EvenBit(y); OddEven(x, y); }
    } else {
      EvenBit(x);
      if y & 1 == 1 { EvenOdd(x, y); } else { EvenBit(y); EvenEven(x, y); }
    }
  }

  lemma EvenBit(x: bv32)
    requires x & 1 != 1
    ensures x & 1 == 0
  {
  }

  lemma OddOdd(x: bv32, y: bv32)
    requires x & 1 == 1 && y & 1 == 1
    ensures StepBits(x ^ y) == StepBits(x) ^ StepBits(y)
  {
  }

  lemma OddEven(x: bv32, y: bv32)
    requires x & 1 == 1 && y & 1 == 0
    ensures StepBits(x ^ y) == StepBits(x) ^ StepBits(y)
  {
  }

  lemma EvenOdd(x: bv32, y: bv32)
    requires x & 1 == 0 && y & 1 == 1
    ensures StepBits(x ^ y) == StepBits(x) ^ StepBits(y)
  {
  }

  lemma EvenEven(x: bv32, y: bv32)
    requires x & 1 == 0 && y & 1 == 0
    ensures StepBits(x ^ y) == StepBits(x) ^ StepBits(y)
  {
  }

  /** The polynomial has its top bit set, so the bit that fell out can be told. */
  lemma StepInjective(x: Word, y: Word)
    requires Step(x) == Step(y)
    ensures x == y
  {
  }

  lemma {:induction false} StepsLinear(x: Word, y: Word, n: nat)
    ensures Steps(Xor(x, y), n) == Xor(Steps(x, n), Steps(y, n))
    decreases n
  {
    hide Step, Xor;
    if n > 0 {
      StepLinear(x, y);
      StepsLinear(Step(x), Step(y), n - 1);
    }
  }

  lemma {:induction false} StepsInjective(x: Word, y: Word, n: nat)
    requires Steps(x, n) == Steps(y, n)
    ensures x == y
    decreases n
  {
    hide Step;
    if n > 0 {
      StepsInjective(Step(x), Step(y), n - 1);
      StepInjective(x, y);
    }
  }

  lemma {:induction false} StepsOfZero(n: nat)
    ensures Steps(ZERO, n) == ZERO
  {
    if n > 0 {
      assert Step(ZERO) == ZERO;
      hide Step;
      StepsOfZero(n - 1);
    }
  }

  lemma {:induction false} StepsCompose(x: Word, m: nat, n: nat)
    ensures Steps(x, m + n) == Steps(Steps(x, m), n)
    decreases m
  {
    hide Step;
    if m > 0 {
      StepsCompose(Step(x), m - 1, n);
    }
  }

  // ----- bits may be added before they are needed -----

  /** A bit that has not reached the end of the register can be added before or after a step. */
  lemma StepFeeds(crc: Word, bits: Word)
    ensures Step(Xor(crc, bits)) == Xor(Step(Xor(crc, Low(bits))), Half(bits))
  {
    hide StepBits, LowBits, HalfBits, XorBits;
    StepFeedsBits(crc.bits, bits.bits);
  }

  lemma StepFeedsBits(c: bv32, b: bv32)
    ensures StepBits(XorBits(c, b)) == XorBits(StepBits(XorBits(c, LowBits(b))), HalfBits(b))
  {
    StepFeedsNamed(c, b, XorBits(c, b), XorBits(c, LowBits(b)), HalfBits(b));
    hide *;
  }

  lemma StepFeedsNamed(c: bv32, b: bv32, all: bv32, low: bv32, rest: bv32)
    requires all == XorBits(c, b) && low == XorBits(c, LowBits(b)) && rest == HalfBits(b)
    ensures StepBits(all) == XorBits(StepBits(low), rest)
  {
    StepFeedsRaw(c, b, all, low, rest);
    hide StepBits;
  }

  lemma StepFeedsRaw(c: bv32, b: bv32, all: bv32, low: bv32, rest: bv32)
    requires all == c ^ b && low == c ^ (b & 1) && rest == b >> 1
    ensures StepBits(all) == StepBits(low) ^ rest
  {
  }

  function Halves(bits: Word, n: nat): Word
    decreases n
  {
    if n == 0 then bits else Halves(Half(bits), n - 1)
  }

  /** Feeding n bits one by one is adding them all and stepping n times; bits above stay as they are. */
  lemma {:induction false} FeedIsSteps(crc: Word, bits: Word, n: nat)
    ensures Steps(Xor(crc, bits), n) == Xor(FeedBits(crc, bits, n), Halves(bits, n))
    decreases n
  {
    hide Step, Xor, Low, Half;
    if n > 0 {
      StepFeeds(crc, bits);
      FeedIsSteps(Step(Xor(crc, Low(bits))), Half(bits), n - 1);
    }
  }

  lemma HalfOfByte(b: bv8)
    ensures Half(OfByte(b)) == OfByte(b >> 1)
  {
  }

  lemma EightShifts(b: bv8)
    ensures b >> 1 >> 1 >> 1 >> 1 >> 1 >> 1 >> 1 >> 1 == 0
  {
  }

  lemma HalvesUnfold(x: Word, n: nat)
    requires n > 0
    ensures Halves(x, n) == Halves(Half(x), n - 1)
  {
  }

  /** A byte is gone after eight shifts. */
  lemma HalvesOfByte(b: bv8)
    ensures Halves(OfByte(b), 8) == OfByte(b >> 1 >> 1 >> 1 >> 1 >> 1 >> 1 >> 1 >> 1)
  {
    HalvesOfNibble(b, 8);
    HalvesOfNibble(b >> 1 >> 1 >> 1 >> 1, 4);
  }

  lemma HalvesOfNibble(b: bv8, n: nat)
    requires n >= 4
    ensures Halves(OfByte(b), n) == Halves(OfByte(b >> 1 >> 1 >> 1 >> 1), n - 4)
  {
    hide Half, OfByte, Halves;
    HalfOfByte(b);
    HalvesUnfold(OfByte(b), n);
    HalfOfByte(b >> 1);
    HalvesUnfold(OfByte(b >> 1), n - 1);
    HalfOfByte(b >> 1 >> 1);
    HalvesUnfold(OfByte(b >> 1 >> 1), n - 2);
    HalfOfByte(b >> 1 >> 1 >> 1);
    HalvesUnfold(OfByte(b >> 1 >> 1 >> 1), n - 3);
  }

  lemma FeedByte(crc: Word, b: bv8)
    ensures FeedBits(crc, OfByte(b), 8) == Steps(Xor(crc, OfByte(b)), 8)
  {
    hide FeedBits, Steps, Halves, Xor;
    FeedIsSteps(crc, OfByte(b), 8);
    HalvesOfByte(b);
    EightShifts(b);
    XorZero(FeedBits(crc, OfByte(b), 8));
  }

  // ----- lfs_crc -----

  /** Four steps, unrolled. */
  function Nibble(x: bv32): bv32 { StepBits(StepBits(StepBits(StepBits(x)))) }

  lemma StepsOfNibble(x: Word)
    ensures Steps(x, 4) == Word(Nibble(x.bits))
  {
    hide StepBits;
    assert Steps(Step(Step(x)), 2) == Step(Step(Step(Step(x))));
  }

  /** The table holds the four-step image of each nibble. */
  lemma TableEntry(i: bv32)
    requires i < 16
    ensures |RTABLE| == 16 && RTABLE[i as nat] == Nibble(i)
  {
  }

  function Entry(i: bv32): bv32
    requires i < 16
  {
    RTABLE[i as nat]
  }

  lemma EntryIsNibble(i: bv32)
    requires i < 16
    ensures Entry(i) == Nibble(i)
  {
    TableEntry(i);
    hide Nibble;
  }

  /** (crc >> 4) ^ rtable[(crc ^ data) & 0xf] */
  function TableStep(crc: bv32, data: bv32): bv32 {
    LowNibble(XorBits(crc, data));
    XorBits(Shr4(crc), Entry(Low4(XorBits(crc, data))))
  }

  lemma LowNibble(x: bv32)
    ensures Low4(x) < 16
  {
  }

  lemma Shift4(x: bv32, y: bv32)
    ensures (x ^ y) >> 4 == (x >> 4) ^ (y >> 4)
  {
  }

  function Shr4(x: bv32): bv32 { x >> 4 }

  function Low4(x: bv32): bv32 { x & 0xf }

  lemma Combine(high: bv32, entry: bv32, rest: bv32)
    ensures XorBits(XorBits(high, entry), rest) == XorBits(XorBits(high, rest), entry)
  {
    hide XorBits;
    XorAssociates(Word(high), Word(entry), Word(rest));
    XorAssociates(Word(high), Word(rest), Word(entry));
    XorCommutes(Word(entry), Word(rest));
  }

  lemma TableStepForm(crc: bv32, data: bv32)
    ensures TableStep(crc, data) == XorBits(Shr4(crc), Nibble(Low4(XorBits(crc, data))))
  {
    hide Nibble, Entry, XorBits, Shr4, Low4;
    LowNibble(XorBits(crc, data));
    EntryIsNibble(Low4(XorBits(crc, data)));
  }

  function High28(x: bv32): bv32 { x & 0xffff_fff0 }

  lemma SplitNibble(x: bv32)
    ensures x == XorBits(High28(x), Low4(x))
  {
  }

  lemma NibbleLinear(x: bv32, y: bv32)
    ensures Nibble(XorBits(x, y)) == XorBits(Nibble(x), Nibble(y))
  {
    hide Nibble, Steps, XorBits;
    StepsLinear(Word(x), Word(y), 4);
    StepsOfNibble(Word(x));
    StepsOfNibble(Word(y));
    StepsOfNibble(Word(XorBits(x, y)));
  }

  lemma NibbleOfHigh(x: bv32)
    ensures Nibble(High28(x)) == Shr4(x)
  {
  }

  /** The upper 28 bits pass through four steps unchanged. */
  lemma NibbleForm(x: bv32)
    ensures Nibble(x) == XorBits(Shr4(x), Nibble(Low4(x)))
  {
    hide *;
    SplitNibble(x);
    NibbleLinear(High28(x), Low4(x));
    NibbleOfHigh(x);
  }

  lemma Shr4Xor(x: bv32, y: bv32)
    ensures Shr4(XorBits(x, y)) == XorBits(Shr4(x), Shr4(y))
  {
    Shift4(x, y);
  }

  /** One line of lfs_crc takes four steps; the bits above the nibble are still to come. */
  lemma TableStepIsNibble(crc: bv32, data: bv32)
    ensures XorBits(TableStep(crc, data), Shr4(data)) == Nibble(XorBits(crc, data))
  {
    hide *;
    var x := XorBits(crc, data);
    TableStepForm(crc, data);
    NibbleForm(x);
    Shr4Xor(crc, data);
    Combine(Shr4(crc), Nibble(Low4(x)), Shr4(data));
  }

  lemma ByteInTwoNibbles(b: bv8)
    ensures Shr4(Shr4(b as bv32)) == 0
  {
  }

  lemma XorBitsZero(x: bv32)
    ensures XorBits(x, 0) == x
  {
  }

  /** The two lines of lfs_crc for one byte. */
  lemma TwoTableSteps(crc: bv32, b: bv8)
    ensures Nibble(Nibble(XorBits(crc, b as bv32))) == TableStep(TableStep(crc, b as bv32), Shr4(b as bv32))
  {
    hide *;
    var d := b as bv32;
    var c := TableStep(crc, d);
    TableStepIsNibble(crc, d);
    TableStepIsNibble(c, Shr4(d));
    ByteInTwoNibbles(b);
    XorBitsZero(TableStep(c, Shr4(d)));
  }

  lemma TableByte(crc: Word, b: bv8)
    ensures FeedBits(crc, OfByte(b), 8) == Word(TableStep(TableStep(crc.bits, b as bv32), Shr4(b as bv32)))
  {
    hide Nibble, TableStep, Steps, FeedBits, XorBits, Shr4;
    var x := Xor(crc, OfByte(b));
    FeedByte(crc, b);
    StepsCompose(x, 4, 4);
    StepsOfNibble(x);
    StepsOfNibble(Steps(x, 4));
    TwoTableSteps(crc.bits, b);
  }

  /** lfs_crc: the table-driven loop computes the bit-by-bit checksum. */
  method Crc(start: bv32, data: seq<bv8>) returns (crc: bv32)
    ensures Word(crc) == Checksum(Word(start), data)
  {
    hide TableStep, FeedBits;
    crc := start;
    var i := 0;
    while i < |data|
      invariant i <= |data|
      invariant Word(crc) == Checksum(Word(start), data[..i])
    {
      TableByte(Word(crc), data[i]);
      ChecksumNext(Word(start), data, i);
      crc := TableStep(crc, data[i] as bv32);
      crc := TableStep(crc, Shr4(data[i] as bv32));
      i := i + 1;
    }
    assert data[..i] == data;
  }

  lemma ChecksumNext(crc: Word, data: seq<bv8>, i: nat)
    requires i < |data|
    ensures Checksum(crc, data[..i + 1]) == FeedBits(Checksum(crc, data[..i]), OfByte(data[i]), 8)
  {
    assert data[..i + 1][..i] == data[..i];
  }

  /** Checksums can be continued: lfs_crc is called piece by piece. */
  lemma {:induction false} ChecksumConcat(crc: Word, a: seq<bv8>, b: seq<bv8>)
    ensures Checksum(crc, a + b) == Checksum(Checksum(crc, a), b)
  {
    hide FeedBits;
    if b == [] {
      assert a + b == a;
    } else {
      var front := b[..|b| - 1];
      assert (a + b)[..|a + b| - 1] == a + front;
      ChecksumConcat(crc, a, front);
    }
  }

  /** The register is never forgotten: different registers stay different over any data. */
  lemma {:induction false} ChecksumInjective(x: Word, y: Word, data: seq<bv8>)
    requires Checksum(x, data) == Checksum(y, data)
    ensures x == y
  {
    if data != [] {
      hide FeedBits, Xor, Steps;
      var front, b := data[..|data| - 1], data[|data| - 1];
      FeedByte(Checksum(x, front), b);
      FeedByte(Checksum(y, front), b);
      StepsInjective(Xor(Checksum(x, front), OfByte(b)), Xor(Checksum(y, front), OfByte(b)), 8);
      XorCommutes(Checksum(x, front), OfByte(b));
      XorCommutes(Checksum(y, front), OfByte(b));
      XorCancels(Checksum(x, front), Checksum(y, front), OfByte(b));
      ChecksumInjective(x, y, front);
    }
  }

  // ----- four bytes against the register -----

  function Shr8(x: bv32): bv32 { x >> 8 }

  function Low8(x: bv32): bv32 { x & 0xff }

  function LowByte(x: bv32): bv8 { (x & 0xff) as bv8 }

  /** lfs_tole32: the four bytes of a word, the lowest first. */
  function Le(w: bv32): seq<bv8> {
    [LowByte(w), LowByte(Shr8(w)), LowByte(Shr8(Shr8(w))), LowByte(Shr8(Shr8(Shr8(w))))]
  }

  function Byte8(x: bv32): bv32 { Nibble(Nibble(x)) }

  lemma LowByteBits(x: bv32)
    ensures OfByte(LowByte(x)) == Word(Low8(x))
  {
  }

  lemma ByteForm(x: bv32)
    ensures Byte8(x) == XorBits(Shr8(x), Byte8(Low8(x)))
  {
    hide *;
    SplitByte(x);
    Byte8Linear(High24(x), Low8(x));
    Byte8OfHigh(x);
  }

  function High24(x: bv32): bv32 { x & 0xffff_ff00 }

  lemma SplitByte(x: bv32)
    ensures x == XorBits(High24(x), Low8(x))
  {
  }

  lemma Byte8Linear(x: bv32, y: bv32)
    ensures Byte8(XorBits(x, y)) == XorBits(Byte8(x), Byte8(y))
  {
    hide Byte8, Steps, XorBits;
    StepsLinear(Word(x), Word(y), 8);
    StepsOfByte(Word(x));
    StepsOfByte(Word(y));
    StepsOfByte(Word(XorBits(x, y)));
  }

  lemma Byte8OfHigh(x: bv32)
    ensures Byte8(High24(x)) == Shr8(x)
  {
  }

  lemma LowSame(c: bv32, w: bv32)
    ensures Low8(XorBits(c, w)) == Low8(XorBits(c, Low8(w)))
  {
  }

  lemma HighXor(c: bv32, w: bv32)
    ensures Shr8(XorBits(c, w)) == XorBits(Shr8(c), Shr8(w))
  {
  }

  lemma HighOfLow(c: bv32, w: bv32)
    ensures Shr8(XorBits(c, Low8(w))) == Shr8(c)
  {
  }

  /** A whole word may be added first; the bytes not yet fed are shifted down. */
  lemma ByteFeeds(c: bv32, w: bv32)
    ensures Byte8(XorBits(c, w)) == XorBits(Byte8(XorBits(c, Low8(w))), Shr8(w))
  {
    hide *;
    ByteForm(XorBits(c, w));
    ByteForm(XorBits(c, Low8(w)));
    LowSame(c, w);
    HighXor(c, w);
    HighOfLow(c, w);
    Combine(Shr8(c), Byte8(Low8(XorBits(c, w))), Shr8(w));
  }

  lemma StepsOfByte(x: Word)
    ensures Steps(x, 8) == Word(Byte8(x.bits))
  {
    hide Nibble, Steps;
    StepsCompose(x, 4, 4);
    StepsOfNibble(x);
    StepsOfNibble(Steps(x, 4));
  }

  lemma FeedLowByte(c: bv32, w: bv32)
    ensures FeedBits(Word(c), OfByte(LowByte(w)), 8) == Word(Byte8(XorBits(c, Low8(w))))
  {
    hide Byte8, Steps, FeedBits, XorBits, OfByte, LowByte, Low8;
    FeedByte(Word(c), LowByte(w));
    LowByteBits(w);
    StepsOfByte(Xor(Word(c), OfByte(LowByte(w))));
  }

  function Bytes4(x: bv32): bv32 { Byte8(Byte8(Byte8(Byte8(x)))) }

  lemma WordShiftsOut(w: bv32)
    ensures Shr8(Shr8(Shr8(Shr8(w)))) == 0
  {
  }

  lemma ChecksumFour(crc: Word, b0: bv8, b1: bv8, b2: bv8, b3: bv8)
    ensures Checksum(crc, [b0, b1, b2, b3])
         == FeedBits(FeedBits(FeedBits(FeedBits(crc, OfByte(b0), 8), OfByte(b1), 8), OfByte(b2), 8), OfByte(b3), 8)
  {
    hide FeedBits, OfByte;
    var s := [b0, b1, b2, b3];
    ChecksumNext(crc, s, 0);
    ChecksumNext(crc, s, 1);
    ChecksumNext(crc, s, 2);
    ChecksumNext(crc, s, 3);
    assert s[..0] == [] && s[..4] == s;
  }

  /** Feeding the bytes of a word only depends on the register xor the word. */
  lemma ChecksumOfWord(c: bv32, w: bv32)
    ensures Checksum(Word(c), Le(w)) == Word(Bytes4(XorBits(c, w)))
  {
    hide Byte8, XorBits, Low8, LowByte, Shr8, FeedBits, OfByte, Checksum;
    ChecksumFour(Word(c), LowByte(w), LowByte(Shr8(w)), LowByte(Shr8(Shr8(w))), LowByte(Shr8(Shr8(Shr8(w)))));
    var w1, w2, w3 := Shr8(w), Shr8(Shr8(w)), Shr8(Shr8(Shr8(w)));
    ByteFeeds(c, w);
    FeedLowByte(c, w);
    var c1 := Byte8(XorBits(c, Low8(w)));
    ByteFeeds(c1, w1);
    FeedLowByte(c1, w1);
    var c2 := Byte8(XorBits(c1, Low8(w1)));
    ByteFeeds(c2, w2);
    FeedLowByte(c2, w2);
    var c3 := Byte8(XorBits(c2, Low8(w2)));
    ByteFeeds(c3, w3);
    FeedLowByte(c3, w3);
    WordShiftsOut(w);
    XorBitsZero(Byte8(XorBits(c3, Low8(w3))));
  }

  lemma Bytes4Injective(x: bv32, y: bv32)
    requires Bytes4(x) == Bytes4(y)
    ensures x == y
  {
    hide Byte8;
    ByteInjective(Byte8(Byte8(Byte8(x))), Byte8(Byte8(Byte8(y))));
    ByteInjective(Byte8(Byte8(x)), Byte8(Byte8(y)));
    ByteInjective(Byte8(x), Byte8(y));
    ByteInjective(x, y);
  }

  lemma ByteInjective(x: bv32, y: bv32)
    requires Byte8(x) == Byte8(y)
    ensures x == y
  {
    StepsOfByte(Word(x));
    StepsOfByte(Word(y));
    hide Byte8, Steps;
    StepsInjective(Word(x), Word(y), 8);
  }

  lemma Bytes4Zero()
    ensures Bytes4(0) == 0
  {
    StepsOfZero(8);
    StepsOfByte(ZERO);
    hide Byte8, Steps;
  }

  lemma XorBitsInjective(c: bv32, v: bv32, w: bv32)
    requires XorBits(c, v) == XorBits(c, w)
    ensures v == w
  {
    assert c ^ (c ^ v) == v;
  }

  lemma XorBitsSelf(c: bv32)
    ensures XorBits(c, c) == 0
  {
  }

  /**
    The checksum word of a commit: appending a little-endian word drives the register to
    zero exactly when the word is the register. So re-reading a commit with its checksum
    and testing for 0 (lfs.c:1311) decides the same as comparing the stored word (lfs.c:841).
  */
  lemma ChecksumWordTest(start: bv32, data: seq<bv8>, w: bv32)
    ensures Checksum(Word(start), data + Le(w)) == ZERO <==> Word(w) == Checksum(Word(start), data)
  {
    hide Byte8, XorBits, Checksum, Le;
    var c := Checksum(Word(start), data).bits;
    ChecksumConcat(Word(start), data, Le(w));
    ChecksumOfWord(c, w);
    ChecksumOfWord(c, c);
    XorBitsSelf(c);
    Bytes4Zero();
    if Bytes4(XorBits(c, w)) == 0 {
      Bytes4Injective(XorBits(c, w), XorBits(c, c));
      XorBitsInjective(c, w, c);
    }
  }

  lemma LeBytes(b0: bv8, b1: bv8, b2: bv8, b3: bv8) returns (w: bv32)
    ensures Le(w) == [b0, b1, b2, b3]
  {
    w := (b0 as bv32) | ((b1 as bv32) << 8) | ((b2 as bv32) << 16) | ((b3 as bv32) << 24);
    assert LowByte(w) == b0;
    assert LowByte(Shr8(w)) == b1;
    assert LowByte(Shr8(Shr8(w))) == b2;
    assert LowByte(Shr8(Shr8(Shr8(w)))) == b3;
  }

  lemma FourBytes(m: seq<bv8>) returns (w: bv32)
    requires |m| == 4
    ensures Le(w) == m
  {
    w := LeBytes(m[0], m[1], m[2], m[3]);
  }

  /** Equal checksums force equal contents of a four-byte window. */
  lemma WindowDetermined(crc: Word, front: seq<bv8>, m: seq<bv8>, m': seq<bv8>, back: seq<bv8>)
    requires |m| == |m'| <= 4
    requires Checksum(crc, front + m + back) == Checksum(crc, front + m' + back)
    ensures m == m'
  {
    hide FeedBits, Byte8, XorBits, Le, Checksum;
    ChecksumConcat(crc, front + m, back);
    ChecksumConcat(crc, front + m', back);
    ChecksumInjective(Checksum(crc, front + m), Checksum(crc, front + m'), back);
    ChecksumConcat(crc, front, m);
    ChecksumConcat(crc, front, m');
    var c := Checksum(crc, front);
    var pad := seq(4 - |m|, i => 0 as bv8);
    ChecksumConcat(c, m, pad);
    ChecksumConcat(c, m', pad);
    var w := FourBytes(m + pad);
    var w' := FourBytes(m' + pad);
    ChecksumOfWord(c.bits, w);
    ChecksumOfWord(c.bits, w');
    Bytes4Injective(XorBits(c.bits, w), XorBits(c.bits, w'));
    XorBitsInjective(c.bits, w, w');
    assert m == (m + pad)[..|m|] && m' == (m' + pad)[..|m|];
  }

  /** Messages of equal length that differ only within four consecutive bytes never collide. */
  lemma BurstDetected(crc: Word, front: seq<bv8>, m: seq<bv8>, m': seq<bv8>, back: seq<bv8>)
    requires |m| == |m'| <= 4 && m != m'
    ensures Checksum(crc, front + m + back) != Checksum(crc, front + m' + back)
  {
    hide Checksum;
    if Checksum(crc, front + m + back) == Checksum(crc, front + m' + back) {
      WindowDetermined(crc, front, m, m', back);
    }
  }
}
