/**
  The fields of a tag under masks (lfs.c:264-302): comparing two tags under the masks of lookups,
  traversals and filters is comparing fields.
 */
module Masks {
  import opened Tag
  import opened Crc

  function Bits8(x: bv32): bv32 { x & 0xff }

  function Bits3(x: bv32): bv32 { x & 7 }

  function Shifted(x: bv32, k: bv32): bv32
    requires k < 32
  {
    x >> k
  }

  // ----- masks of the type and the id -----

  lemma FiveInjective(a0: bool, a1: bool, a2: bool, a3: bool, a4: bool, x: nat,
                      b0: bool, b1: bool, b2: bool, b3: bool, b4: bool, y: nat)
    requires Five(a0, a1, a2, a3, a4, x) == Five(b0, b1, b2, b3, b4, y)
    ensures a0 == b0 && a1 == b1 && a2 == b2 && a3 == b3 && a4 == b4 && x == y
  {
  }

  predicate SameBits(x: bv32, y: bv32) {
    && BitAt(x, 0) == BitAt(y, 0) && BitAt(x, 1) == BitAt(y, 1) && BitAt(x, 2) == BitAt(y, 2)
    && BitAt(x, 3) == BitAt(y, 3) && BitAt(x, 4) == BitAt(y, 4) && BitAt(x, 5) == BitAt(y, 5)
    && BitAt(x, 6) == BitAt(y, 6) && BitAt(x, 7) == BitAt(y, 7) && BitAt(x, 8) == BitAt(y, 8)
    && BitAt(x, 9) == BitAt(y, 9)
  }

  lemma SameNumber(x: bv32, y: bv32)
    ensures Low10(x) == Low10(y) <==> SameBits(x, y)
  {
    hide BitAt, Five, Low10, High;
    LowParts(x);
    LowParts(y);
    if Low10(x) == Low10(y) {
      FiveInjective(BitAt(x, 0), BitAt(x, 1), BitAt(x, 2), BitAt(x, 3), BitAt(x, 4), High(x),
                    BitAt(y, 0), BitAt(y, 1), BitAt(y, 2), BitAt(y, 3), BitAt(y, 4), High(y));
      SameHigh(x, y);
    } else if SameBits(x, y) {
      SameHigh(x, y);
    }
  }

  lemma SameHigh(x: bv32, y: bv32)
    ensures High(x) == High(y) <==>
              && BitAt(x, 5) == BitAt(y, 5) && BitAt(x, 6) == BitAt(y, 6) && BitAt(x, 7) == BitAt(y, 7)
              && BitAt(x, 8) == BitAt(y, 8) && BitAt(x, 9) == BitAt(y, 9)
  {
    hide BitAt, Five;
    if High(x) == High(y) {
      FiveInjective(BitAt(x, 5), BitAt(x, 6), BitAt(x, 7), BitAt(x, 8), BitAt(x, 9), 0,
                    BitAt(y, 5), BitAt(y, 6), BitAt(y, 7), BitAt(y, 8), BitAt(y, 9), 0);
    }
  }

  lemma LowParts(x: bv32)
    ensures Low10(x) == Five(BitAt(x, 0), BitAt(x, 1), BitAt(x, 2), BitAt(x, 3), BitAt(x, 4), High(x))
  {
    hide BitAt, Five;
  }

  function High(x: bv32): nat { Five(BitAt(x, 5), BitAt(x, 6), BitAt(x, 7), BitAt(x, 8), BitAt(x, 9), 0) }

  lemma SameField(x: bv32, y: bv32)
    ensures SameBits(x, y) <==> LowField(x) == LowField(y)
  {
  }

  /** Fields are equal as numbers exactly if their bits are. */
  lemma SameLow(x: bv32, y: bv32)
    ensures Low10(x) == Low10(y) <==> LowField(x) == LowField(y)
  {
    hide Low10, SameBits, LowField;
    SameNumber(x, y);
    SameField(x, y);
  }

  function MajorOf(t: bv32): bv32 { Bits3(Shifted(t, 28)) }

  function ChunkOf(t: bv32): bv32 { Bits8(Shifted(t, 20)) }

  function And(m: bv32, t: bv32): bv32 { m & t }

  lemma MajorMask(t: bv32, u: bv32)
    ensures LowField(MajorOf(t)) == LowField(MajorOf(u)) <==> And(0x7000_0000, t) == And(0x7000_0000, u)
  {
  }

  lemma HalfMask(t: bv32, u: bv32)
    ensures And(0x7800_0000, t) == And(0x7800_0000, u) <==>
              And(0x7000_0000, t) == And(0x7000_0000, u) && BitAt(ChunkOf(t), 7) == BitAt(ChunkOf(u), 7)
  {
  }

  lemma ExactMask(t: bv32, u: bv32)
    ensures And(0x7ff0_0000, t) == And(0x7ff0_0000, u) <==>
              And(0x7000_0000, t) == And(0x7000_0000, u) && LowField(ChunkOf(t)) == LowField(ChunkOf(u))
  {
    TypeParts(t);
    TypeParts(u);
    Both(0x7000_0000, 0xff0_0000, 0x7ff0_0000, t, u);
    hide And, LowField, Bits8, Shifted, Or;
    ChunkMask(t, u);
  }

  lemma ChunkMask(t: bv32, u: bv32)
    ensures And(0xff0_0000, t) == And(0xff0_0000, u) <==> LowField(ChunkOf(t)) == LowField(ChunkOf(u))
  {
  }

  lemma TopDigit(b0: bool, b1: bool, b2: bool, b3: bool, b4: bool, b5: bool, b6: bool, b7: bool)
    ensures Number(b0, b1, b2, b3, b4, b5, b6, b7, false, false) / 0x80 == if b7 then 1 else 0
  {
    var high := Five(b5, b6, b7, false, false, 0);
    assert if b7 then 4 <= high <= 7 else high <= 3;
    FiveBound(b0, b1, b2, b3, b4, high);
    hide Five;
  }

  lemma HalfNumber(t: bv32)
    ensures Low10(ChunkOf(t)) / 0x80 == if BitAt(ChunkOf(t), 7) then 1 else 0
  {
    ChunkBits(t);
    hide BitAt, Bits8, Shifted, Five;
    var m := ChunkOf(t);
    TopDigit(BitAt(m, 0), BitAt(m, 1), BitAt(m, 2), BitAt(m, 3), BitAt(m, 4), BitAt(m, 5), BitAt(m, 6), BitAt(m, 7));
  }

  function Or(m: bv32, t: bv32): bv32 { m | t }

  lemma AndTwice(m: bv32, n: bv32, t: bv32)
    ensures And(m, And(n, t)) == And(And(m, n), t)
  {
  }

  /** Two tags agree under a mask of two parts exactly if they do under both. */
  lemma Both(m: bv32, n: bv32, both: bv32, t: bv32, u: bv32)
    requires And(m, both) == m && And(n, both) == n
    requires And(both, t) == Or(And(m, t), And(n, t)) && And(both, u) == Or(And(m, u), And(n, u))
    ensures And(both, t) == And(both, u) <==> And(m, t) == And(m, u) && And(n, t) == And(n, u)
  {
    hide And, Or;
    AndTwice(m, both, t);
    AndTwice(m, both, u);
    AndTwice(n, both, t);
    AndTwice(n, both, u);
  }

  lemma TypeParts(t: bv32)
    ensures And(0x7ff0_0000, t) == Or(And(0x7000_0000, t), And(0xff0_0000, t))
  {
  }

  lemma MajorParts(t: bv32)
    ensures And(0x700f_fc00, t) == Or(And(0x7000_0000, t), And(0xffc00, t))
  {
  }

  lemma TagParts(t: bv32)
    ensures And(0x7fff_fc00, t) == Or(And(0x7ff0_0000, t), And(0xffc00, t))
  {
  }

  lemma IdAndType(t: bv32, u: bv32)
    ensures And(0x700f_fc00, t) == And(0x700f_fc00, u) <==>
              And(0x7000_0000, t) == And(0x7000_0000, u) && And(0xffc00, t) == And(0xffc00, u)
    ensures And(0x7fff_fc00, t) == And(0x7fff_fc00, u) <==>
              And(0x7ff0_0000, t) == And(0x7ff0_0000, u) && And(0xffc00, t) == And(0xffc00, u)
  {
    MajorParts(t);
    MajorParts(u);
    Both(0x7000_0000, 0xffc00, 0x700f_fc00, t, u);
    TagParts(t);
    TagParts(u);
    Both(0x7ff0_0000, 0xffc00, 0x7fff_fc00, t, u);
    hide And, Or;
  }

  lemma IdBits(t: bv32, u: bv32)
    ensures And(0xffc00, t) == And(0xffc00, u) <==> LowField(Shifted(t, 10)) == LowField(Shifted(u, 10))
  {
  }

  lemma OddMajor(t: bv32)
    ensures Low10(MajorOf(t)) % 2 == 1 <==> And(0x1000_0000, t) != 0
  {
    LowBit(MajorOf(t));
    MajorBit(t);
    hide BitAt, Low10, And;
  }

  lemma MajorBit(t: bv32)
    ensures BitAt(MajorOf(t), 0) <==> And(0x1000_0000, t) != 0
  {
  }

  lemma LowBit(w: bv32)
    ensures Low10(w) % 2 == 1 <==> BitAt(w, 0)
  {
    hide BitAt, Five, Low10, High;
    LowParts(w);
    FiveParity(BitAt(w, 0), BitAt(w, 1), BitAt(w, 2), BitAt(w, 3), BitAt(w, 4), High(w));
  }

  lemma FiveParity(b0: bool, b1: bool, b2: bool, b3: bool, b4: bool, rest: nat)
    ensures Five(b0, b1, b2, b3, b4, rest) % 2 == 1 <==> b0
  {
    var half := Digit(b1) + 2 * (Digit(b2) + 2 * (Digit(b3) + 2 * (Digit(b4) + 2 * rest)));
    assert Five(b0, b1, b2, b3, b4, rest) == Digit(b0) + 2 * half;
  }

  lemma LowTwice(t: bv32)
    ensures LowField(LowField(Shifted(t, 10))) == LowField(Shifted(t, 10))
  {
  }

  lemma MajorTop(t: bv32)
    ensures And(0x4000_0000, t) == 0 <==> !BitAt(MajorOf(t), 2)
    ensures And(0x6000_0000, t) == 0x2000_0000 <==> !BitAt(MajorOf(t), 2) && BitAt(MajorOf(t), 1)
  {
  }

  lemma ThreeDigitsAre(b0: bool, b1: bool, b2: bool)
    ensures Number(b0, b1, b2, false, false, false, false, false, false, false) ==
              (if b0 then 1 else 0) + (if b1 then 2 else 0) + (if b2 then 4 else 0)
  {
  }

  lemma MajorValue(t: bv32)
    ensures var m := MajorOf(t);
            Low10(m) ==
              (if BitAt(m, 0) then 1 else 0) + (if BitAt(m, 1) then 2 else 0) + (if BitAt(m, 2) then 4 else 0)
  {
    MajorBits(t);
    hide BitAt, Bits3, Shifted, Number;
    var m := MajorOf(t);
    ThreeDigitsAre(BitAt(m, 0), BitAt(m, 1), BitAt(m, 2));
  }

  lemma MajorBits(t: bv32)
    ensures var m := Bits3(Shifted(t, 28));
            && !BitAt(m, 3) && !BitAt(m, 4) && !BitAt(m, 5) && !BitAt(m, 6) && !BitAt(m, 7) && !BitAt(m, 8)
               && !BitAt(m, 9)
            && (BitAt(m, 0) && !BitAt(m, 1) && BitAt(m, 2) ==> CrcTypeBits(t))
  {
  }

  lemma ChunkBits(t: bv32)
    ensures var m := Bits8(Shifted(t, 20)); !BitAt(m, 8) && !BitAt(m, 9)
  {
  }

  lemma FiveBound(b0: bool, b1: bool, b2: bool, b3: bool, b4: bool, rest: nat)
    ensures 32 * rest <= Five(b0, b1, b2, b3, b4, rest) <= 31 + 32 * rest
  {
  }
}
