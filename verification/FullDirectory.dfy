/**
  A directory of 255 entries that is torn (lfs.c:1739): 254 names in one compaction, one more by an
  append, and an append that loses power behind its only attribute.
 */
module FullDirectory {
  import opened Util
  import opened Crc
  import opened Flash
  import opened Optional
  import opened Tag
  import opened Commit
  import opened CommitWriter
  import opened MetaPair
  import opened TagFields
  import opened ByteOrder
  import DirLog
  import opened DirSplit
  import opened DirSearch
  import opened DirWrites
  import DirMap
  import DirFit
  import Directory

  /** Names of two small letters, in their order. */
  function NameOf(i: nat): (name: seq<Byte>)
    requires i < 0x100
    ensures |name| == 2
  {
    [97 + i / 16, 97 + i % 16]
  }

  function Named(i: nat): DirLog.Entry
    requires i < 0x100
  {
    DirLog.Entry(DirLog.NAME, 1, i, 2, NameOf(i))
  }

  /** A compacted directory of n files. */
  function Many(n: nat): seq<DirLog.Entry>
    requires n <= 0x100
  {
    if n == 0 then [] else Many(n - 1) + [Named(n - 1)]
  }

  lemma InOrder(i: nat, j: nat)
    requires i < j < 0x100
    ensures Before(NameOf(i), NameOf(j))
  {
    assert NameOf(i)[1..] == [97 + i % 16] && NameOf(j)[1..] == [97 + j % 16];
    assert i / 16 <= j / 16 && (i / 16 == j / 16 ==> i % 16 < j % 16);
  }

  /** The names are under the ids in their order. */
  ghost predicate Numbered(t: DirLog.Table, n: nat)
    requires n <= 0x100
  {
    (forall i: nat :: i in t <==> i < n) && forall i: nat :: i < n ==> t[i].data == NameOf(i)
  }

  lemma NumberedSorted(t: DirLog.Table, n: nat)
    requires n <= 0x100 && Numbered(t, n)
    ensures Sorted(t)
  {
    hide Before;
    forall i, j | i in t && j in t && i < j
      ensures Before(t[i].data, t[j].data)
    {
      InOrder(i, j);
    }
  }

  lemma {:induction false} ManyOrderly(n: nat)
    requires n <= 0xff
    ensures Numbered(Names(Many(n)), n) && Count(Many(n)) == n && NoSplices(Many(n))
    ensures DirMap.Orderly(Many(n), 0) && forall e <- Many(n) :: Storable(e)
  {
    hide DirLog.Column, Count, Disciplined, Sorted, Before;
    if n == 0 {
      Empty(Many(n));
    } else {
      ManyOrderly(n - 1);
      Next(Many(n - 1), n - 1);
    }
  }

  lemma Empty(log: seq<DirLog.Entry>)
    requires log == []
    ensures Numbered(Names(log), 0) && Count(log) == 0 && DirMap.Orderly(log, 0)
  {
  }

  /** One more name. */
  lemma Next(log: seq<DirLog.Entry>, n: nat)
    requires n < 0xff && DirMap.Orderly(log, 0) && Numbered(Names(log), n) && Count(log) == n && NoSplices(log)
    ensures var more := log + [Named(n)];
            DirMap.Orderly(more, 0) && Numbered(Names(more), n + 1) && Count(more) == n + 1 && NoSplices(more)
  {
    hide DirLog.Column, Count, Disciplined, Sorted, Before;
    var e, more := Named(n), log + [Named(n)];
    AppendNames(log, e);
    assert Names(more) == Names(log)[n := DirLog.AttrOf(e)];
    NumberedSorted(Names(more), n + 1);
    DisciplinedAppend(log, e, 0);
    DirMap.ColumnNext(DirLog.NAMES, log, e);
    forall c: DirLog.Class, i: nat | DirMap.DirCompact.WantedClass(DirMap.DirCompact.Compact, c)
      && i in DirLog.Column(c, more)
      ensures i < Count(more)
    {
      DirMap.ColumnNext(c, log, e);
    }
  }

  // ----- on the device -----

  /** Every name takes a tag and two bytes. */
  lemma {:induction false} ManySum(n: nat)
    requires n <= 0xff
    ensures Size(Many(n)) == 6 * n
  {
    if n > 0 {
      assert Many(n)[..|Many(n)| - 1] == Many(n - 1);
      ManySum(n - 1);
    }
  }

  lemma ManySize(n: nat)
    requires n <= 0xff && forall e <- Many(n) :: Storable(e)
    ensures AllOk(EncodeAll(Many(n))) && |Body(NULL, EncodeAll(Many(n)))| == 6 * n
  {
    hide Body, Storable, Ok, EncodeAll, Size, Many;
    ManySum(n);
    AllRoundTrip(Many(n));
    DirFit.SizeIsBytes(NULL, Many(n));
  }

  /** As erase left it. */
  predicate Erased(block: seq<bv8>, off: nat) { forall i :: off <= i < |block| ==> block[i] == 0xff }

  lemma StaysErased(a: seq<bv8>, b: seq<bv8>, at: nat, off: nat)
    requires SameFrom(a, b, off) && Erased(b, at) && at <= off
    ensures Erased(a, off)
  {
    forall i | off <= i < |a|
      ensures a[i] == 0xff
    {
      assert a[i] == a[off..][i - off] == b[off..][i - off];
    }
  }

  /** What is known of the pair on the way: it is usable, ends here, and is erased from there on. */
  ghost predicate Reached(p: Pair, n: nat, end: nat)
    requires n <= 0xff
    reads p
  {
    && p.Stored() && p.Current() && p.blockSize == 4096 && p.progSize == 16 && p.end == end && end <= 4096
    && Directory.Kept(p.log, 0) && Count(DecodeAll(p.log)) == n && Numbered(Names(DecodeAll(p.log)), n)
    && |p.halves| == 2 && p.main < 2 && |p.halves[p.main].block| == 4096
    && !p.halves[p.main].mixed && p.halves[p.main].top <= end && Erased(p.halves[p.main].block, end)
  }

  /** The compaction of 254 names. */
  method Start() returns (p: Pair)
    ensures fresh(p) && Reached(p, 0xfe, 1536)
  {
    hide Body, Many, EncodeAll, DecodeAll, Storable, AllOk, DirMap.Orderly, Count, Pair.Stored, Pair.Current,
      Numbered, Names;
    ManyOrderly(0xfe);
    ManySize(0xfe);
    AllRoundTrip(Many(0xfe));
    var left: seq<bv8> := seq(4096, _ => 0xff);
    FirstRoom(EncodeAll(Many(0xfe)));
    p := new Pair.Create(4096, 16, Half(left, 0, false), left, EncodeAll(Many(0xfe)));
    Sizes(p);
    StaysErased(p.halves[p.main].block, left, 0, 1536);
  }

  lemma FirstRoom(contents: seq<Attr>)
    requires |Body(NULL, contents)| == 1524
    ensures Divides(16, 4096) && HasRoom(4, NULL, contents, 4096) && AlignUp(4 + |Body(NULL, contents)| + 8, 16) == 1536
  {
    hide Body;
  }

  lemma Sizes(p: Pair)
    requires p.Stored()
    ensures |p.halves| == 2 && p.main < 2 && |p.halves[p.main].block| == p.blockSize && (p.Fresh() ==> p.Current())
  {
    hide Keeps, Divides, Newer, Revision;
  }

  /** One more name by an append. */
  method Extend(p: Pair)
    requires Reached(p, 0xfe, 1536)
    modifies p
    ensures Reached(p, 0xff, 1568)
  {
    hide Body, EncodeAll, DecodeAll, Storable, AllOk, DirMap.Orderly, Count, Pair.Stored, Pair.Current, Numbered,
      Names, HasRoom, AlignUp, SameFrom, CutOff, Pair.TornChecks, Pair.Masked, Pair.Intact, Pair.Placed;
    var es := [DirLog.CreateAt(0xfe), Named(0xfe)];
    ghost var log, end, tag, block := p.log, p.end, p.endTag, p.halves[p.main].block;
    OneMore(DecodeAll(log), 0xfe);
    BothStorable();
    var attrs := EncodeAll(es);
    TwoEntries(tag, DirLog.CreateAt(0xfe), Named(0xfe));
    SecondRoom(tag, attrs);
    var out := p.Append(attrs, 0, Survives);
    Sizes(p);
    DecodeConcat(log, attrs);
    AllRoundTrip(es);
    Directory.BothOk(log, attrs);
    StaysErased(p.halves[p.main].block, block, 1536, 1568);
  }

  /** The search puts the last name behind the others. */
  lemma OneMore(log: seq<DirLog.Entry>, n: nat)
    requires n < 0xff && DirMap.Orderly(log, 0) && Count(log) == n && Numbered(Names(log), n)
    ensures var es := [DirLog.CreateAt(n), Named(n)];
            DirMap.Orderly(log + es, 0) && Count(log + es) == n + 1 && Numbered(Names(log + es), n + 1)
  {
    hide DirLog.Column, Count, DirMap.Orderly, Sorted, Before, Names, Numbered, Finds, DirLog.OpenGap, NameOf, Storable;
    LastBehind(Names(log), n);
    DirMap.Opened(log, 0, Named(n));
    LastNumbered(Names(log), n);
    assert log + [DirLog.CreateAt(n), Named(n)] == DirMap.Created(log, Named(n));
  }

  lemma BothStorable()
    ensures forall e <- [DirLog.CreateAt(0xfe), Named(0xfe)] :: Storable(e)
  {
    hide NameOf;
  }

  lemma LastBehind(t: DirLog.Table, n: nat)
    requires n < 0xff && Numbered(t, n)
    ensures Finds(Insert(n), t, n, NameOf(n))
  {
    hide Before, NameOf;
    forall i: nat | i in t
      ensures Before(t[i].data, NameOf(n))
    {
      InOrder(i, n);
    }
  }

  lemma LastNumbered(t: DirLog.Table, n: nat)
    requires n < 0xff && Numbered(t, n)
    ensures Numbered(DirLog.OpenGap(t, n)[n := DirLog.AttrOf(Named(n))], n + 1)
  {
    hide NameOf;
  }

  lemma SecondRoom(tag: Word, attrs: seq<Attr>)
    requires |Body(tag, attrs)| == 10
    ensures HasRoom(1536, tag, attrs, 4096) && AlignUp(1536 + |Body(tag, attrs)| + 8, 16) == 1568
  {
    hide Body;
  }

  lemma TwoEntries(tag: Word, a: DirLog.Entry, b: DirLog.Entry)
    requires Storable(a) && Storable(b)
    ensures (forall e <- [a, b] :: Storable(e)) && EncodeAll([a, b]) != [] && AllOk(EncodeAll([a, b]))
    ensures |Body(tag, EncodeAll([a, b]))| == 8 + |a.data| + |b.data|
  {
    hide Body, Encode, Storable, Ok, EncodeAll;
    DirFit.SizeOfTwo(a, b);
    AllRoundTrip([a, b]);
    DirFit.SizeIsBytes(tag, [a, b]);
  }

  /** The directory with its torn append: the next commit programs bytes for the second time. */
  method TornPair() returns (p: Pair)
    ensures fresh(p) && p.blockSize == 4096 && p.progSize == 16 && p.Stored() && p.Looked()
    ensures Directory.Kept(p.log, 0) && Count(DecodeAll(p.log)) == 0xff && p.Reprograms(0xff)
  {
    hide Body, Encode, DecodeAll, Storable, Directory.Kept, Count, Pair.Stored, Pair.Current, Pair.Looked,
      Pair.Reprograms, Numbered, HasRoom, DSize, Blank, Ok;
    p := Start();
    Extend(p);
    // an empty user attribute
    var e := DirLog.Entry(DirLog.USERATTR, 0x74, 0, 0, []);
    SmallAttr(e, p.endTag, p.halves[p.main].block);
    TornAppend(p, Encode(e));
  }

  lemma SmallAttr(e: DirLog.Entry, tag: Word, block: seq<bv8>)
    requires e == DirLog.Entry(DirLog.USERATTR, 0x74, 0, 0, []) && |block| == 4096 && Erased(block, 1568)
    ensures Storable(e) && Ok(Encode(e)) && HasRoom(1568, tag, [Encode(e)], 4096)
            && Blank(block, 1568 + DSize(Encode(e).tag))
  {
    hide Body, Encode, DSize, Ok, Blank;
    DirFit.EncodedSize(e);
    SingleBody(tag, Encode(e));
    ErasedBlank(block, 1572);
  }
}
