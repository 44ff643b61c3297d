/**
  The 32-bit tags of the metadata log (lfs.c:265-302): a valid bit, an 11-bit type, a 10-bit
  id and a 10-bit size. On disk each tag is stored in big-endian order, xored with the tag
  before it.
 */
module Tag {
  import opened Crc

  const NULL := Word(0xffff_ffff)

  const TOP_BIT: bv32 := 0x8000_0000

  const TOP := Word(TOP_BIT)

  // ----- fields of a word -----

  predicate ValidBits(x: bv32) { x & 0x8000_0000 == 0 }

  function BareBits(x: bv32): bv32 { x & 0x7fff_ffff }

  predicate CrcTypeBits(x: bv32) { x & 0x7000_0000 == 0x5000_0000 }

  predicate ResetBits(x: bv32) { x & 0x0010_0000 != 0 }

  function LowField(x: bv32): bv32 { x & 0x3ff }

  /** lfs_tag_isvalid */
  predicate IsValid(t: Word) { ValidBits(t.bits) }

  /** The tag without its valid bit. */
  function Bare(t: Word): Word { Word(BareBits(t.bits)) }

  /** lfs_tag_type1(tag) == LFS_TYPE_CRC */
  predicate IsCrc(t: Word) { CrcTypeBits(t.bits) }

  /** The low bit of the chunk of a checksum tag. */
  predicate HasReset(t: Word) { ResetBits(t.bits) }

  /** lfs_tag_size */
  function SizeOf(t: Word): (n: nat)
    ensures n < 1024
  {
    Low10(LowField(t.bits))
  }

  /** lfs_tag_dsize: the bytes a tag and its data take; deleted attributes have none. */
  function DSize(t: Word): (n: nat)
    ensures 4 <= n < 4 + 1023
  {
    4 + (if SizeOf(t) == 0x3ff then 0 else SizeOf(t))
  }

  // ----- ten-bit numbers -----

  predicate BitAt(w: bv32, k: bv32)
    requires k < 10
  {
    (w >> k) & 1 == 1
  }

  function Digit(b: bool): nat { if b then 1 else 0 }

  /** Five digits in front of a number. */
  function Five(b0: bool, b1: bool, b2: bool, b3: bool, b4: bool, rest: nat): nat {
    Digit(b0) + 2 * (Digit(b1) + 2 * (Digit(b2) + 2 * (Digit(b3) + 2 * (Digit(b4) + 2 * rest))))
  }

  function Number(b0: bool, b1: bool, b2: bool, b3: bool, b4: bool, b5: bool, b6: bool, b7: bool, b8: bool,
                  b9: bool): nat {
    Five(b0, b1, b2, b3, b4, Five(b5, b6, b7, b8, b9, 0))
  }

  /** The number in the low ten bits of a word. */
  function Low10(w: bv32): (n: nat)
    ensures n < 1024
  {
    Number(BitAt(w, 0), BitAt(w, 1), BitAt(w, 2), BitAt(w, 3), BitAt(w, 4),
           BitAt(w, 5), BitAt(w, 6), BitAt(w, 7), BitAt(w, 8), BitAt(w, 9))
  }

  function FromBits(b0: bool, b1: bool, b2: bool, b3: bool, b4: bool, b5: bool, b6: bool, b7: bool, b8: bool,
                    b9: bool): bv32 {
    (if b0 then 1 else 0) | (if b1 then 2 else 0) | (if b2 then 4 else 0) | (if b3 then 8 else 0) | (if b4
                                                                                                     then 16 else 0)
    | (if b5 then 32 else 0) | (if b6 then 64 else 0) | (if b7 then 128 else 0) | (if b8 then 256 else 0) | (if b9
                                                                                                             then 512
                                                                                                               else 0)
  }

  predicate Odd(n: nat) { n % 2 == 1 }

  function HalfOf(n: nat): nat { n / 2 }

  /** The ten-bit field that holds a number. */
  function Field(n: nat): bv32
    requires n < 1024
  {
    var n1 := HalfOf(n); var n2 := HalfOf(n1); var n3 := HalfOf(n2); var n4 := HalfOf(n3); var n5 := HalfOf(n4);
    var n6 := HalfOf(n5); var n7 := HalfOf(n6); var n8 := HalfOf(n7); var n9 := HalfOf(n8);
    FromBits(Odd(n), Odd(n1), Odd(n2), Odd(n3), Odd(n4), Odd(n5), Odd(n6), Odd(n7), Odd(n8), Odd(n9))
  }

  lemma BitsOfField(b0: bool, b1: bool, b2: bool, b3: bool, b4: bool, b5: bool, b6: bool, b7: bool, b8: bool, b9: bool)
    ensures var w := FromBits(b0, b1, b2, b3, b4, b5, b6, b7, b8, b9);
            && BitAt(w, 0) == b0 && BitAt(w, 1) == b1 && BitAt(w, 2) == b2 && BitAt(w, 3) == b3 && BitAt(w, 4) == b4
            && BitAt(w, 5) == b5 && BitAt(w, 6) == b6 && BitAt(w, 7) == b7 && BitAt(w, 8) == b8 && BitAt(w, 9) == b9
  {
  }

  lemma Halving(n: nat)
    ensures n == Digit(Odd(n)) + 2 * HalfOf(n)
  {
  }

  lemma Binary(n: nat)
    requires n < 1024
    ensures var n1 := HalfOf(n); var n2 := HalfOf(n1); var n3 := HalfOf(n2); var n4 := HalfOf(n3); var n5 := HalfOf(n4);
            var n6 := HalfOf(n5); var n7 := HalfOf(n6); var n8 := HalfOf(n7); var n9 := HalfOf(n8);
            n == Number(Odd(n), Odd(n1), Odd(n2), Odd(n3), Odd(n4), Odd(n5), Odd(n6), Odd(n7), Odd(n8), Odd(n9))
  {
    hide Odd, HalfOf, Five;
    var n5 := HalfOf(HalfOf(HalfOf(HalfOf(HalfOf(n)))));
    FiveDigits(n);
    FiveDigits(n5);
    TenHalves(n);
  }

  lemma FiveDigits(n: nat)
    ensures var n1 := HalfOf(n); var n2 := HalfOf(n1); var n3 := HalfOf(n2); var n4 := HalfOf(n3);
            n == Five(Odd(n), Odd(n1), Odd(n2), Odd(n3), Odd(n4), HalfOf(n4))
  {
    hide Odd, HalfOf, Digit;
    var n1 := HalfOf(n); var n2 := HalfOf(n1); var n3 := HalfOf(n2); var n4 := HalfOf(n3);
    Halving(n); Halving(n1); Halving(n2); Halving(n3); Halving(n4);
  }

  lemma TenHalves(n: nat)
    requires n < 1024
    ensures HalfOf(HalfOf(HalfOf(HalfOf(HalfOf(HalfOf(HalfOf(HalfOf(HalfOf(HalfOf(n)))))))))) == 0
  {
    var n5 := HalfOf(HalfOf(HalfOf(HalfOf(HalfOf(n)))));
    assert n5 < 32;
  }

  lemma FieldRoundTrip(n: nat)
    requires n < 1024
    ensures Low10(Field(n)) == n
  {
    hide BitAt, FromBits, Odd, HalfOf, Number;
    Binary(n);
    var n1 := HalfOf(n); var n2 := HalfOf(n1); var n3 := HalfOf(n2); var n4 := HalfOf(n3); var n5 := HalfOf(n4);
    var n6 := HalfOf(n5); var n7 := HalfOf(n6); var n8 := HalfOf(n7); var n9 := HalfOf(n8);
    BitsOfField(Odd(n), Odd(n1), Odd(n2), Odd(n3), Odd(n4), Odd(n5), Odd(n6), Odd(n7), Odd(n8), Odd(n9));
  }

  lemma FromBitsIsLow(b0: bool, b1: bool, b2: bool, b3: bool, b4: bool, b5: bool, b6: bool, b7: bool, b8: bool,
                      b9: bool)
    ensures var w := FromBits(b0, b1, b2, b3, b4, b5, b6, b7, b8, b9); LowField(w) == w
  {
  }

  lemma FieldIsLow(n: nat)
    requires n < 1024
    ensures LowField(Field(n)) == Field(n)
  {
    hide FromBits, Odd, HalfOf, LowField;
    var n1 := HalfOf(n); var n2 := HalfOf(n1); var n3 := HalfOf(n2); var n4 := HalfOf(n3); var n5 := HalfOf(n4);
    var n6 := HalfOf(n5); var n7 := HalfOf(n6); var n8 := HalfOf(n7); var n9 := HalfOf(n8);
    FromBitsIsLow(Odd(n), Odd(n1), Odd(n2), Odd(n3), Odd(n4), Odd(n5), Odd(n6), Odd(n7), Odd(n8), Odd(n9));
  }

  // ----- checksum tags -----

  function CrcBits(reset: bool, field: bv32): bv32 {
    (if reset then 0x501f_fc00 else 0x500f_fc00) | field
  }

  /** LFS_MKTAG(LFS_TYPE_CRC + reset, 0x3ff, size) */
  function CrcTag(reset: bool, size: nat): Word
    requires 4 <= size <= 0x3fe
  {
    Word(CrcBits(reset, Field(size)))
  }

  /** What the next tag is xored with: the valid bit is flipped if the checksum tag says so. */
  function NextTag(t: Word): Word { if HasReset(t) then Xor(t, TOP) else t }

  lemma CrcTagValid(reset: bool, f: bv32)
    requires LowField(f) == f
    ensures ValidBits(CrcBits(reset, f))
  {
  }

  lemma CrcTagType(reset: bool, f: bv32)
    requires LowField(f) == f
    ensures CrcTypeBits(CrcBits(reset, f))
  {
  }

  lemma CrcTagReset(reset: bool, f: bv32)
    requires LowField(f) == f
    ensures ResetBits(CrcBits(reset, f)) <==> reset
  {
  }

  lemma CrcTagLow(reset: bool, f: bv32)
    requires LowField(f) == f
    ensures LowField(CrcBits(reset, f)) == f
  {
  }

  lemma CrcTagFields(reset: bool, size: nat)
    requires 4 <= size <= 0x3fe
    ensures IsValid(CrcTag(reset, size)) && IsCrc(CrcTag(reset, size))
    ensures HasReset(CrcTag(reset, size)) <==> reset
    ensures SizeOf(CrcTag(reset, size)) == size
  {
    hide ValidBits, CrcTypeBits, ResetBits, LowField, CrcBits, Low10, Field;
    var f := Field(size);
    FieldIsLow(size);
    CrcTagValid(reset, f);
    CrcTagType(reset, f);
    CrcTagReset(reset, f);
    CrcTagLow(reset, f);
    FieldRoundTrip(size);
  }

  // ----- the valid bit -----

  lemma TopBare(x: bv32)
    ensures BareBits(XorBits(x, TOP_BIT)) == BareBits(x)
  {
  }

  lemma TopSize(x: bv32)
    ensures LowField(XorBits(x, TOP_BIT)) == LowField(x)
  {
  }

  lemma TopType(x: bv32)
    ensures CrcTypeBits(XorBits(x, TOP_BIT)) == CrcTypeBits(x)
  {
  }

  lemma TopValid(x: bv32)
    ensures ValidBits(XorBits(x, TOP_BIT)) <==> !ValidBits(x)
  {
  }

  /** Flipping the valid bit changes nothing else. */
  lemma TopOnly(t: Word)
    ensures Bare(Xor(t, TOP)) == Bare(t)
    ensures SizeOf(Xor(t, TOP)) == SizeOf(t)
    ensures IsCrc(Xor(t, TOP)) == IsCrc(t)
    ensures IsValid(Xor(t, TOP)) <==> !IsValid(t)
  {
    hide Low10, BareBits, LowField, CrcTypeBits, ValidBits, XorBits;
    TopBare(t.bits);
    TopSize(t.bits);
    TopType(t.bits);
    TopValid(t.bits);
  }

  lemma BareOfValid(t: Word)
    requires IsValid(t)
    ensures Bare(t) == t
  {
  }

  lemma ValidXor(s: Word, t: Word)
    ensures IsValid(Xor(s, t)) <==> (IsValid(s) <==> IsValid(t))
  {
  }

  lemma XorTwice(t: Word, p: Word)
    ensures Xor(Xor(t, p), p) == t
  {
  }

  // ----- bytes -----

  /** lfs_tobe32 */
  function Be(t: Word): (s: seq<bv8>)
    ensures |s| == 4
  {
    [((t.bits >> 24) & 0xff) as bv8, ((t.bits >> 16) & 0xff) as bv8, ((t.bits >> 8) & 0xff) as bv8,
     (t.bits & 0xff) as bv8]
  }

  /** lfs_frombe32 */
  function FromBe(s: seq<bv8>): Word
    requires |s| == 4
  {
    Word(((s[0] as bv32) << 24) | ((s[1] as bv32) << 16) | ((s[2] as bv32) << 8) | (s[3] as bv32))
  }

  lemma BeRoundTrip(t: Word)
    ensures FromBe(Be(t)) == t
  {
  }

  /** lfs_fromle32 */
  function FromLe(s: seq<bv8>): Word
    requires |s| == 4
  {
    Word(((s[3] as bv32) << 24) | ((s[2] as bv32) << 16) | ((s[1] as bv32) << 8) | (s[0] as bv32))
  }

  lemma LeRoundTrip(t: Word)
    ensures |Le(t.bits)| == 4 && FromLe(Le(t.bits)) == t
  {
  }
}
