/**
  The sizes that decide about a split (lfs.c:1425-1462) are bytes on the device: what is summed tag by
  tag is the length of the attributes as they are written, and what it is compared with is the room of
  a block.
 */
module DirFit {
  import opened Util
  import opened Crc
  import opened Tag
  import opened Commit
  import CommitWriter
  import opened MetaPair
  import opened TagFields
  import DirSplit
  import Flash
  import DirLog
  import DirCompact
  import DirWrites

  lemma EncodeLast(front: seq<DirLog.Entry>, e: DirLog.Entry)
    requires forall f <- front + [e] :: Storable(f)
    ensures (forall f <- front :: Storable(f)) && Storable(e)
            && EncodeAll(front + [e]) == EncodeAll(front) + [Encode(e)]
  {
    hide Storable, Encode;
    assert forall f <- front :: f in front + [e];
    assert e in front + [e];
  }

  lemma EncodedSize(e: DirLog.Entry)
    requires Storable(e)
    ensures Ok(Encode(e)) && DSize(Encode(e).tag) == 4 + |e.data|
  {
    EncodeRoundTrip(e);
    hide Decode, DSize, IsValid, IsCrc, Joined, Words;
  }

  lemma Longer(tag: Word, front: seq<Attr>, a: Attr)
    requires Ok(a)
    ensures |Body(tag, front + [a])| == |Body(tag, front)| + DSize(a.tag)
  {
    hide Body, DSize, IsValid, IsCrc;
    CommitWriter.BodyGrows(tag, front, a);
  }

  lemma NothingEncoded(log: seq<DirLog.Entry>)
    requires log == []
    ensures EncodeAll(log) == []
  {
  }

  /** What lfs_dir_commit_size sums is what lfs_dir_commitattr writes, behind any tag. */
  lemma {:induction false} SizeIsBytes(tag: Word, log: seq<DirLog.Entry>)
    requires forall e <- log :: Storable(e)
    ensures |Body(tag, EncodeAll(log))| == DirSplit.Size(log)
  {
    hide Body, EncodeAll, Encode, DSize, Ok;
    if log == [] {
      NothingEncoded(log);
      EmptyBody(tag);
    } else {
      var front, e := log[..|log| - 1], log[|log| - 1];
      assert log == front + [e];
      EncodeLast(front, e);
      SizeIsBytes(tag, front);
      EncodedSize(e);
      Longer(tag, EncodeAll(front), Encode(e));
    }
  }

  lemma {:induction false} SizeConcat(a: seq<DirLog.Entry>, b: seq<DirLog.Entry>)
    ensures DirSplit.Size(a + b) == DirSplit.Size(a) + DirSplit.Size(b)
    decreases |b|
  {
    if b == [] {
      assert a + b == a;
    } else {
      assert (a + b)[..|a + b| - 1] == a + b[..|b| - 1];
      SizeConcat(a, b[..|b| - 1]);
    }
  }

  /** The entries of a piece fit a tag, as the entries they come from. */
  lemma PieceStorable(all: seq<DirLog.Entry>, r: DirSplit.Range)
    requires DirLog.AllWellFormed(all) && (forall e <- all :: Storable(e)) && r.lo <= r.hi <= r.lo + 0x400
    ensures forall e <- DirSplit.Piece(all, r) :: Storable(e)
  {
    hide DirCompact.Cut, DirCompact.Emitted, DirWrites.From;
    DirWrites.EmittedFrom(DirCompact.Compact, all);
    var log := DirCompact.Emitted(DirCompact.Compact, all);
    DirWrites.CutFrom(log, r.lo, r.hi, DirSplit.Minus(r.lo));
    DirSplit.CutIds(log, r.lo, r.hi);
    forall g | g in DirSplit.Piece(all, r)
      ensures Storable(g)
    {
      FromStorable(all, g.(id := (g.id - DirSplit.Minus(r.lo)) as nat), g.id);
    }
  }

  lemma FromStorable(all: seq<DirLog.Entry>, f: DirLog.Entry, id: nat)
    requires (forall e <- all :: Storable(e)) && DirWrites.From(all, f) && id < 0x400
    ensures Storable(f.(id := id))
  {
    var e: DirLog.Entry :| e in all && f == e.(id := f.id);
  }

  /** There is room for a piece and whatever follows it exactly if their sizes leave a revision and a checksum free. */
  lemma RoomIsSize(log: seq<DirLog.Entry>, rest: seq<DirLog.Entry>, blockSize: nat)
    requires (forall e <- log :: Storable(e)) && forall e <- rest :: Storable(e)
    ensures HasRoom(4, NULL, EncodeAll(log + rest), blockSize) <==>
              DirSplit.Size(log) + DirSplit.Size(rest) + 12 <= blockSize
  {
    hide Storable, Body, EncodeAll, DirSplit.Size;
    SizeConcat(log, rest);
    SizeIsBytes(NULL, log + rest);
  }

  /**
    Each pair of a chain with several ids has room for its entries, with 24 bytes to spare: for any
    attributes of so many bytes behind them. Where the pairs are halved as long as there is space, the
    entries take at most half a block, up to a program boundary.
   */
  lemma ChainFits(all: seq<DirLog.Entry>, chain: seq<DirSplit.Range>, rest: seq<DirLog.Entry>, blockSize: nat,
                  progSize: nat, j: nat)
    requires DirLog.AllWellFormed(all) && (forall e <- all :: Storable(e)) && (forall e <- rest :: Storable(e))
    requires j < |chain| && chain[j].lo + 1 < chain[j].hi <= chain[j].lo + 0x400 && progSize > 0
    ensures forall e <- DirSplit.Piece(all, chain[j]) :: Storable(e)
    ensures DirSplit.AllFit(chain, all, blockSize) && |Body(NULL, EncodeAll(rest))| <= 24 ==>
              HasRoom(4, NULL, EncodeAll(DirSplit.Piece(all, chain[j]) + rest), blockSize)
    ensures DirSplit.Roomy(all, chain[j], blockSize, progSize) ==>
              && chain[j].hi - chain[j].lo < 0xff
              && |Body(NULL, EncodeAll(DirSplit.Piece(all, chain[j])))| <= AlignUp(blockSize / 2, progSize)
  {
    hide Storable, Body, EncodeAll, DirSplit.Size, DirSplit.Piece, HasRoom, AlignUp;
    PieceStorable(all, chain[j]);
    SizeIsBytes(NULL, DirSplit.Piece(all, chain[j]));
    SizeIsBytes(NULL, rest);
    RoomIsSize(DirSplit.Piece(all, chain[j]), rest, blockSize);
  }

  /** A range for which splitting fails does not leave 24 bytes of a block. */
  lemma TooLargeForBlock(all: seq<DirLog.Entry>, r: DirSplit.Range, rest: seq<DirLog.Entry>, blockSize: nat)
    requires DirLog.AllWellFormed(all) && (forall e <- all :: Storable(e)) && (forall e <- rest :: Storable(e))
    requires r.lo <= r.hi <= r.lo + 0x400 && |Body(NULL, EncodeAll(rest))| == 24
    ensures (forall e <- DirSplit.Piece(all, r) :: Storable(e))
            && (DirSplit.TooLarge(all, r, blockSize) <==>
                  r.hi > r.lo + 1 && !HasRoom(4, NULL, EncodeAll(DirSplit.Piece(all, r) + rest), blockSize))
  {
    hide Storable, Body, EncodeAll, DirSplit.Size, DirSplit.Piece, HasRoom;
    PieceStorable(all, r);
    SizeIsBytes(NULL, rest);
    RoomIsSize(DirSplit.Piece(all, r), rest, blockSize);
  }

  // ----- what the reserve is for -----

  /** The tail and the global state that follow the entries (lfs.c:1583-1613). */
  function Tail(split: nat, pair: seq<Flash.Byte>): DirLog.Entry { DirLog.Entry(6, split, 0x3ff, 8, pair) }

  function State(delta: seq<Flash.Byte>): DirLog.Entry { DirLog.Entry(7, 0xff, 0x3ff, 12, delta) }

  lemma SizeOfTwo(a: DirLog.Entry, b: DirLog.Entry)
    requires Storable(a) && Storable(b)
    ensures DirSplit.Size([a, b]) == 8 + |a.data| + |b.data| && forall e <- [a, b] :: Storable(e)
  {
    assert [a, b][..1] == [a] && [a][..0] == [];
    assert DirSplit.Size([a]) == 4 + |a.data|;
  }

  /** Both take 28 bytes, so that a piece has room for both exactly if it leaves 40 bytes, not 36. */
  lemma TailAndState(log: seq<DirLog.Entry>, split: nat, pair: seq<Flash.Byte>, delta: seq<Flash.Byte>, blockSize: nat)
    requires (forall e <- log :: Storable(e)) && split < 2 && |pair| == 8 && |delta| == 12
    ensures (forall e <- [Tail(split, pair), State(delta)] :: Storable(e))
            && (HasRoom(4, NULL, EncodeAll(log + [Tail(split, pair), State(delta)]), blockSize) <==>
                  DirSplit.Size(log) + 40 <= blockSize)
  {
    var t, s := Tail(split, pair), State(delta);
    SizeOfTwo(t, s);
    hide Storable, HasRoom, EncodeAll, DirSplit.Size;
    RoomIsSize(log, [t, s], blockSize);
  }

  function Name(id: nat, n: nat): DirLog.Entry { DirLog.Entry(DirLog.NAME, 1, id, n, seq(n, _ => 97)) }

  /**
    Two names of 255 and 213 letters in a block of 512 bytes that is programmed as a whole: they are not
    split, and a commit that has to carry a tail and a state with them does not fit.
   */
  lemma ReserveTooSmall(n: nat, k: nat, blockSize: nat, split: nat, pair: seq<Flash.Byte>, delta: seq<Flash.Byte>)
    requires n == 255 && k == 213 && blockSize == 512 && split < 2 && |pair| == 8 && |delta| == 12
    ensures var all, r := [Name(0, n), Name(1, k)], DirSplit.Range(0, 2);
            && DirLog.AllWellFormed(all) && DirSplit.Piece(all, r) == all
            && DirSplit.Roomy(all, r, blockSize, blockSize)
            && (forall e <- all + [Tail(split, pair), State(delta)] :: Storable(e))
            && !HasRoom(4, NULL, EncodeAll(all + [Tail(split, pair), State(delta)]), blockSize)
  {
    hide HasRoom, EncodeAll, DirSplit.Size, DirSplit.Piece, DirSplit.Roomy, Storable, Name;
    var a, b := Name(0, n), Name(1, k);
    NameStorable(0, n);
    NameStorable(1, k);
    TwoKept(a, b);
    SizeOfTwo(a, b);
    NotSplit([a, b], blockSize);
    TailAndState([a, b], split, pair, delta, blockSize);
  }

  lemma NameStorable(id: nat, n: nat)
    requires id < 2 && n < 0x100
    ensures Storable(Name(id, n)) && |Name(id, n).data| == n
            && Name(id, n).major == DirLog.NAME && Name(id, n).id == id && Name(id, n).size != DirLog.DELETED
  {
  }

  lemma NotSplit(all: seq<DirLog.Entry>, blockSize: nat)
    requires DirLog.AllWellFormed(all) && DirSplit.Piece(all, DirSplit.Range(0, 2)) == all
    requires DirSplit.Size(all) + 36 == blockSize
    ensures DirSplit.Roomy(all, DirSplit.Range(0, 2), blockSize, blockSize)
  {
    hide DirSplit.Size, DirSplit.Piece, AlignUp;
    AlignUpIsLeast(blockSize / 2, blockSize, 1);
    Multiple(AlignUp(blockSize / 2, blockSize), blockSize);
  }

  lemma Multiple(a: nat, n: nat)
    requires n > 0 && a % n == 0 && a > 0
    ensures a >= n
  {
  }

  lemma TwoKept(a: DirLog.Entry, b: DirLog.Entry)
    requires a.major == b.major == DirLog.NAME && a.id == 0 && b.id == 1
             && a.size != DirLog.DELETED && b.size != DirLog.DELETED
    ensures DirLog.AllWellFormed([a, b]) && DirSplit.Piece([a, b], DirSplit.Range(0, 2)) == [a, b]
  {
    var log := [a, b];
    assert log[..1] == [a] && [a][..0] == [];
    DirCompact.SurvivorsOne(a, b);
    DirCompact.NoSurvivors(a);
    assert DirCompact.Emitted(DirCompact.Compact, [a]) == [a];
    assert DirCompact.Emitted(DirCompact.Compact, log) == [a] + [b] == log;
    assert DirCompact.Cut([], 0, 2, 0) == [];
    assert DirCompact.Cut([a], 0, 2, 0) == [a];
  }
}
