/**
  The fields of a tag (lfs.c:265-302): the attributes of the commits on disk are entries of a
  directory log, and back.
 */
module TagFields {
  import opened Crc
  import opened Tag
  import opened Commit
  import opened Masks
  import DirLog
  import DirCompact
  import Flash

  // ----- tags with their fields -----

  /** LFS_MKTAG(0x100 * major + chunk, id, size) of the fields. */
  function Joined(major: bv32, chunk: bv32, id: bv32, size: bv32): bv32 {
    (major << 28) | (chunk << 20) | (id << 10) | size
  }

  /** The entry that an attribute on disk stands for. */
  function Decode(a: Attr): DirLog.Entry {
    var t := a.tag.bits;
    DirLog.Entry(Low10(Bits3(Shifted(t, 28))), Low10(Bits8(Shifted(t, 20))), Low10(LowField(Shifted(t, 10))),
                 Low10(LowField(t)), Bytes(a.data))
  }

  /** A byte as a number, and back. */
  function Value(b: bv8): Flash.Byte {
    ValueSmall(b);
    Low10(b as bv32)
  }

  function ByteOf(n: Flash.Byte): bv8 { Bits8(Field(n)) as bv8 }

  lemma ValueSmall(b: bv8)
    ensures Low10(b as bv32) < 0x100
  {
    hide BitAt, Low10;
    ByteBits(b);
    LowBelow256(b as bv32);
  }

  lemma LowBelow256(m: bv32)
    requires !BitAt(m, 8) && !BitAt(m, 9)
    ensures Low10(m) < 0x100
  {
    hide BitAt, Number;
    EightDigits(BitAt(m, 0), BitAt(m, 1), BitAt(m, 2), BitAt(m, 3), BitAt(m, 4), BitAt(m, 5), BitAt(m, 6), BitAt(m, 7));
  }

  lemma ByteBits(b: bv8)
    ensures !BitAt(b as bv32, 8) && !BitAt(b as bv32, 9)
  {
  }

  function Bytes(s: seq<bv8>): (r: seq<Flash.Byte>)
    ensures |r| == |s|
  {
    seq(|s|, i requires 0 <= i < |s| => Value(s[i]))
  }

  function Words(s: seq<Flash.Byte>): (r: seq<bv8>)
    ensures |r| == |s|
  {
    seq(|s|, i requires 0 <= i < |s| => ByteOf(s[i]))
  }

  /** Entries that fit the fields of a tag; checksums are not among them. */
  predicate Storable(e: DirLog.Entry) {
    && e.major < 8 && e.major != 5 && e.chunk < 0x100 && e.id < 0x400 && e.size < 0x400
    && |e.data| == if e.size == DirLog.DELETED then 0 else e.size
  }

  function Encode(e: DirLog.Entry): Attr
    requires Storable(e)
  {
    Attr(Word(Joined(Field(e.major), Field(e.chunk), Field(e.id), Field(e.size))), Words(e.data))
  }

  lemma JoinedFields(major: bv32, chunk: bv32, id: bv32, size: bv32)
    requires Bits3(major) == major && Bits8(chunk) == chunk && LowField(id) == id && LowField(size) == size
    ensures Bits3(Shifted(Joined(major, chunk, id, size), 28)) == major
    ensures Bits8(Shifted(Joined(major, chunk, id, size), 20)) == chunk
    ensures LowField(Shifted(Joined(major, chunk, id, size), 10)) == id
    ensures LowField(Joined(major, chunk, id, size)) == size
  {
  }

  lemma JoinedValid(major: bv32, chunk: bv32, id: bv32, size: bv32)
    requires Bits3(major) == major && Bits8(chunk) == chunk && LowField(id) == id && LowField(size) == size
             && major != 5
    ensures ValidBits(Joined(major, chunk, id, size)) && !CrcTypeBits(Joined(major, chunk, id, size))
  {
  }

  lemma FieldBelow8(n: nat)
    requires n < 8
    ensures Bits3(Field(n)) == Field(n)
  {
    var n1 := HalfOf(n); var n2 := HalfOf(n1); var n3 := HalfOf(n2);
    assert n3 == 0 && HalfOf(0) == 0 && !Odd(0);
    assert Field(n) == FromBits(Odd(n), Odd(n1), Odd(n2), false, false, false, false, false, false, false);
    hide Field, Odd, HalfOf;
    ThreeBits(Odd(n), Odd(n1), Odd(n2));
  }

  lemma ThreeBits(b0: bool, b1: bool, b2: bool)
    ensures var w := FromBits(b0, b1, b2, false, false, false, false, false, false, false); Bits3(w) == w
  {
  }

  lemma FieldBelow256(n: nat)
    requires n < 0x100
    ensures Bits8(Field(n)) == Field(n)
  {
    var n1 := HalfOf(n); var n2 := HalfOf(n1); var n3 := HalfOf(n2); var n4 := HalfOf(n3);
    var n5 := HalfOf(n4); var n6 := HalfOf(n5); var n7 := HalfOf(n6); var n8 := HalfOf(n7);
    assert n8 == 0 && HalfOf(0) == 0 && !Odd(0);
    assert Field(n) == FromBits(Odd(n), Odd(n1), Odd(n2), Odd(n3), Odd(n4), Odd(n5), Odd(n6), Odd(n7), false, false);
    hide Field, Odd, HalfOf;
    EightBits(Odd(n), Odd(n1), Odd(n2), Odd(n3), Odd(n4), Odd(n5), Odd(n6), Odd(n7));
  }

  lemma EightBits(b0: bool, b1: bool, b2: bool, b3: bool, b4: bool, b5: bool, b6: bool, b7: bool)
    ensures var w := FromBits(b0, b1, b2, b3, b4, b5, b6, b7, false, false); Bits8(w) == w
  {
  }

  lemma LowOfFive()
    ensures Low10(5) == 5
  {
    assert BitAt(5, 0) && !BitAt(5, 1) && BitAt(5, 2) && !BitAt(5, 3) && !BitAt(5, 4);
    assert !BitAt(5, 5) && !BitAt(5, 6) && !BitAt(5, 7) && !BitAt(5, 8) && !BitAt(5, 9);
  }

  lemma ByteRoundTrip(n: Flash.Byte)
    ensures Value(ByteOf(n)) == n
  {
    hide Field, Low10, Bits8;
    FieldBelow256(n);
    SameByte(Field(n));
    FieldRoundTrip(n);
  }

  lemma SameByte(w: bv32)
    requires Bits8(w) == w
    ensures (Bits8(w) as bv8) as bv32 == w
  {
  }

  lemma BytesOfWords(s: seq<Flash.Byte>)
    ensures Bytes(Words(s)) == s
  {
    hide Value, ByteOf;
    forall i | 0 <= i < |s|
      ensures Bytes(Words(s))[i] == s[i]
    {
      ByteRoundTrip(s[i]);
    }
  }

  /** What is encoded can be committed, and is decoded again. */
  lemma EncodeRoundTrip(e: DirLog.Entry)
    requires Storable(e)
    ensures Decode(Encode(e)) == e && Ok(Encode(e))
  {
    hide Field, Low10, Bits3, Bits8, LowField, Shifted, Joined, Bytes, Words, ValidBits, CrcTypeBits;
    var m, c, i, z := Field(e.major), Field(e.chunk), Field(e.id), Field(e.size);
    FieldBelow8(e.major);
    FieldBelow256(e.chunk);
    FieldIsLow(e.id);
    FieldIsLow(e.size);
    JoinedFields(m, c, i, z);
    FieldRoundTrip(e.major);
    FieldRoundTrip(e.chunk);
    FieldRoundTrip(e.id);
    FieldRoundTrip(e.size);
    LowOfFive();
    JoinedValid(m, c, i, z);
    BytesOfWords(e.data);
  }

  lemma MajorSmall(t: bv32)
    ensures Low10(Bits3(Shifted(t, 28))) < 8 && (Low10(Bits3(Shifted(t, 28))) == 5 ==> CrcTypeBits(t))
  {
    MajorBits(t);
    hide Bits3, Shifted, BitAt, CrcTypeBits;
    var m := Bits3(Shifted(t, 28));
    ThreeDigits(BitAt(m, 0), BitAt(m, 1), BitAt(m, 2));
  }

  lemma ThreeDigits(b0: bool, b1: bool, b2: bool)
    ensures var n := Number(b0, b1, b2, false, false, false, false, false, false, false);
            n < 8 && (n == 5 ==> b0 && !b1 && b2)
  {
  }

  lemma ChunkSmall(t: bv32)
    ensures Low10(Bits8(Shifted(t, 20))) < 0x100
  {
    hide Bits8, Shifted, BitAt, Low10;
    ChunkBits(t);
    LowBelow256(Bits8(Shifted(t, 20)));
  }

  lemma EightDigits(b0: bool, b1: bool, b2: bool, b3: bool, b4: bool, b5: bool, b6: bool, b7: bool)
    ensures Number(b0, b1, b2, b3, b4, b5, b6, b7, false, false) < 0x100
  {
    var high := Five(b5, b6, b7, false, false, 0);
    assert high < 8;
    FiveBound(b0, b1, b2, b3, b4, high);
    hide Five;
  }

  /** What can be committed decodes to an entry whose fields fit a tag. */
  lemma DecodeStorable(a: Attr)
    requires Ok(a)
    ensures Storable(Decode(a))
  {
    hide Bits3, Bits8, LowField, Shifted, Bytes, CrcTypeBits, ValidBits, Low10;
    MajorSmall(a.tag.bits);
    ChunkSmall(a.tag.bits);
  }

  // ----- masks -----

  /** The type part of the three masks of lookups. */
  function MaskBits(mask: DirLog.Mask): bv32 {
    match mask
    case Major => 0x7000_0000
    case Half => 0x7800_0000
    case Exact => 0x7ff0_0000
  }

  /** The class of attributes with the type of a tag under a mask. */
  function ClassOf(mask: DirLog.Mask, t: bv32): DirLog.Class {
    DirLog.Class(mask, Low10(MajorOf(t)), Low10(ChunkOf(t)))
  }

  /** An entry is of a class exactly if its tag agrees with the one looked for under the mask. */
  lemma SelectsIsMask(mask: DirLog.Mask, u: bv32, a: Attr)
    ensures DirLog.Selects(ClassOf(mask, u), Decode(a)) <==>
              And(MaskBits(mask), a.tag.bits) == And(MaskBits(mask), u)
  {
    hide Low10, LowField, Shifted, Bits3, Bits8, BitAt, And, Bytes;
    var t := a.tag.bits;
    SameLow(MajorOf(t), MajorOf(u));
    SameLow(ChunkOf(t), ChunkOf(u));
    MajorMask(t, u);
    HalfMask(t, u);
    ExactMask(t, u);
    HalfNumber(t);
    HalfNumber(u);
  }

  /** The unique bit of a type decides under which mask two tags are compared by the filter. */
  function FilterMask(t: bv32): bv32 {
    if And(0x1000_0000, t) != 0 then 0x7fff_fc00 else 0x700f_fc00
  }

  /** Two entries speak about the same attribute of the same id exactly if their tags agree under that mask. */
  lemma SameKeyIsMask(a: Attr, b: Attr)
    ensures DirCompact.SameKey(Decode(a), Decode(b)) && Decode(a).id == Decode(b).id <==>
              And(FilterMask(a.tag.bits), a.tag.bits) == And(FilterMask(a.tag.bits), b.tag.bits)
  {
    hide Low10, LowField, Shifted, Bits3, Bits8, BitAt, And, Bytes;
    var t, u := a.tag.bits, b.tag.bits;
    SameLow(MajorOf(t), MajorOf(u));
    SameLow(ChunkOf(t), ChunkOf(u));
    MajorMask(t, u);
    ExactMask(t, u);
    OddMajor(t);
    LowTwice(t);
    LowTwice(u);
    SameLow(Shifted(t, 10), Shifted(u, 10));
    SameLow(LowField(Shifted(t, 10)), LowField(Shifted(u, 10)));
    IdAndType(t, u);
    IdBits(t, u);
  }

  lemma MajorDecoded(a: Attr)
    ensures Decode(a).major == Low10(MajorOf(a.tag.bits))
  {
    hide Low10, Bits3, Bits8, Shifted, LowField, Bytes;
  }

  /** What a traversal is asked for by mask and tag: 0x400 and NAME in a compaction, 0x600 and STRUCT in a move. */
  lemma WantedIsMask(a: Attr)
    ensures DirCompact.Wanted(DirCompact.Compact, Decode(a)) <==> And(0x4000_0000, a.tag.bits) == 0
    ensures DirCompact.Wanted(DirCompact.Move, Decode(a)) <==> And(0x6000_0000, a.tag.bits) == 0x2000_0000
  {
    hide BitAt, And, MajorOf, Decode, Low10;
    MajorValue(a.tag.bits);
    MajorTop(a.tag.bits);
    MajorDecoded(a);
  }

  // ----- logs -----

  function DecodeAll(log: seq<Attr>): (r: seq<DirLog.Entry>)
    ensures |r| == |log|
  {
    seq(|log|, i requires 0 <= i < |log| => Decode(log[i]))
  }

  function EncodeAll(log: seq<DirLog.Entry>): (r: seq<Attr>)
    requires forall e <- log :: Storable(e)
    ensures |r| == |log|
  {
    seq(|log|, i requires 0 <= i < |log| => Encode(log[i]))
  }

  lemma DecodeConcat(a: seq<Attr>, b: seq<Attr>)
    ensures DecodeAll(a + b) == DecodeAll(a) + DecodeAll(b)
  {
    hide Decode;
  }

  lemma AllRoundTrip(log: seq<DirLog.Entry>)
    requires forall e <- log :: Storable(e)
    ensures AllOk(EncodeAll(log)) && DecodeAll(EncodeAll(log)) == log
  {
    hide Decode, Encode, Storable, Ok;
    forall i | 0 <= i < |log|
      ensures Ok(EncodeAll(log)[i]) && Decode(EncodeAll(log)[i]) == log[i]
    {
      EncodeRoundTrip(log[i]);
    }
  }

  lemma AllStorable(log: seq<Attr>)
    requires AllOk(log)
    ensures forall e <- DecodeAll(log) :: Storable(e)
  {
    hide Decode, Storable, Ok;
    forall i | 0 <= i < |log|
      ensures Storable(DecodeAll(log)[i])
    {
      DecodeStorable(log[i]);
    }
  }

  /** Tails and global state: of no class that is looked up by id. */
  predicate Foreign(log: seq<DirLog.Entry>) {
    forall e <- log :: e.major >= 6
  }

  lemma {:induction false} ForeignColumn(c: DirLog.Class, log: seq<DirLog.Entry>, more: seq<DirLog.Entry>)
    requires DirCompact.WantedClass(DirCompact.Compact, c) && Foreign(more)
    ensures DirLog.Column(c, log + more) == DirLog.Column(c, log)
    decreases |more|
  {
    if more == [] {
      assert log + more == log;
    } else {
      var n := |more| - 1;
      assert log + more == log + more[..n] + [more[n]];
      assert forall e <- more[..n] :: e in more;
      ForeignColumn(c, log, more[..n]);
      DirCompact.ColumnAppend(c, log + more[..n], more[n]);
      hide DirLog.Column;
    }
  }
}
