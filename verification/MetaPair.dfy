/**
  A metadata pair under power loss (lfs.c:754-979, lfs.c:1242-1326, lfs.c:1433-1674): two
  blocks, of which the one with the newer revision holds the log. Appends extend it, a
  compaction rewrites the other block, and either may stop after any program operation or
  inside one.
 */
module MetaPair {
  import opened Util
  import opened Crc
  import opened Tag
  import opened Commit
  import opened CommitWriter

  // ----- revision counts -----

  function Distance(a: bv32, b: bv32): bv32 { a - b }

  /** Positive as a signed number. */
  predicate Forward(d: bv32) { d != 0 && d & 0x8000_0000 == 0 }

  /** lfs_scmp(a, b) > 0: serial number arithmetic, section 3.2 of RFC 1982. */
  predicate Newer(a: Word, b: Word) { Forward(Distance(a.bits, b.bits)) }

  function Next(rev: Word): Word { Word(rev.bits + 1) }

  lemma DistanceAfter(b: bv32, n: bv32)
    ensures Distance(b + n, b) == n
  {
  }

  /** A revision is newer than another exactly if between 1 and 2^31 - 1 increments lead to it. */
  lemma NewerAfter(b: bv32, n: bv32)
    ensures Newer(Word(b + n), Word(b)) <==> 0 < n && n < 0x8000_0000
  {
    hide Distance;
    DistanceAfter(b, n);
  }

  function Plus(a: bv32, b: bv32): bv32 { a + b }

  lemma PlusDistance(a: bv32, b: bv32)
    ensures Plus(b, a - b) == a
  {
  }

  lemma PlusDistanceNamed(a: bv32, b: bv32, d: bv32)
    requires d == Distance(a, b)
    ensures Plus(b, d) == a
  {
    PlusDistance(a, b);
    assert d == a - b;
    hide *;
  }

  lemma BackFrom(b: bv32, d: bv32)
    requires Forward(d)
    ensures !Forward(Distance(b, b + d))
  {
  }

  lemma BackFromPlus(b: bv32, d: bv32)
    requires Forward(d)
    ensures !Forward(Distance(b, Plus(b, d)))
  {
    BackFrom(b, d);
    assert Plus(b, d) == b + d;
    hide *;
  }

  /** Two revisions cannot both be newer than the other. */
  lemma NewerAsymmetric(a: Word, b: Word)
    requires Newer(a, b)
    ensures !Newer(b, a)
  {
    hide Distance, Forward, Plus;
    PlusDistanceNamed(a.bits, b.bits, Distance(a.bits, b.bits));
    BackFromPlus(b.bits, Distance(a.bits, b.bits));
  }

  function Revision(block: seq<bv8>): Word
    requires |block| >= 4
  {
    FromLe(block[..4])
  }

  // ----- one block -----

  /**
    A block on the device, and the first offset of it not programmed since its last erase. Where a
    program operation did not leave what was programmed, or met bytes programmed before, the block
    is `mixed`, and `top` only says what a fetch will find.
   */
  datatype Half = Half(block: seq<bv8>, top: nat, mixed: bool)

  /** The good commits of the block hold exactly the log and end at the tip. */
  predicate Holds(h: Half, progSize: nat, log: seq<Attr>, off: nat, etag: Word) {
    && progSize > 0 && 4 < off <= |h.block|
    && Walk(h.block, 4, NULL, Seed(h.block), off) == Reached(log, etag, NULL)
    && Ends(h.block, h.top, progSize, off, etag, NULL)
  }

  /** Nothing more checks, and where a commit can start, the space looks unwritten exactly if it was not programmed. */
  predicate Ends(block: seq<bv8>, top: nat, progSize: nat, off: nat, etag: Word, crc: Word)
    requires progSize > 0
  {
    var s := Scan(block, off, etag, crc);
    s.Stop? && (off % progSize == 0 && off + 4 <= |block| ==> (s.clean <==> top <= off))
  }

  lemma HoldsFetch(h: Half, progSize: nat, log: seq<Attr>, off: nat, etag: Word)
    requires progSize > 0 && |h.block| >= 4 && Holds(h, progSize, log, off, etag)
    ensures var f := FetchBlock(h.block, progSize);
            && Found(f) && f.off == off && f.etag == etag && f.attrs == log
            && (f.erased <==> off % progSize == 0 && off + 4 <= |h.block| && h.top <= off)
  {
    hide Walk, Scan, FetchFrom;
    FetchFollows(h.block, progSize, 4, NULL, Seed(h.block), [], off);
    assert [] + log == log;
    FetchUnfold(h.block, progSize, off, etag, NULL, log);
    CleanHasRoom(h.block, off, etag, NULL);
  }

  lemma CleanHasRoom(block: seq<bv8>, off: nat, etag: Word, crc: Word)
    ensures Scan(block, off, etag, crc) == Stop(true) ==> off + 4 <= |block|
  {
    hide IsValid, FromBe, Xor, NextTag, DSize, IsCrc, FromLe, Checksum, Prepend;
  }

  /** The tag behind a commit is that of a checksum. */
  lemma {:induction false} ScanEndsWithCrc(block: seq<bv8>, off: nat, etag: Word, crc: Word)
    requires Scan(block, off, etag, crc).Done?
    ensures IsCrc(Scan(block, off, etag, crc).etag)
    decreases |block| - off
  {
    hide IsValid, FromBe, Xor, NextTag, DSize, IsCrc, FromLe, Checksum, Scan;
    ScanUnfold(block, off, etag, crc);
    var word := block[off..off + 4];
    var tag := Xor(FromBe(word), etag);
    if IsCrc(tag) {
      NextIsCrc(tag);
    } else {
      ScanEndsWithCrc(block, off + DSize(tag), tag, Checksum(Checksum(crc, word), block[off + 4..off + DSize(tag)]));
    }
  }

  lemma NextIsCrc(tag: Word)
    requires IsCrc(tag)
    ensures IsCrc(NextTag(tag))
  {
    hide Xor, IsCrc, HasReset, IsValid, SizeOf;
    TopOnly(tag);
  }

  lemma NothingFound(block: seq<bv8>, progSize: nat)
    requires progSize > 0 && |block| >= 4 && Scan(block, 4, NULL, Seed(block)).Stop?
    ensures !Found(FetchBlock(block, progSize))
  {
    hide Scan, FetchFrom;
    FetchUnfold(block, progSize, 4, NULL, Seed(block), []);
  }

  /** What wins over a block without being newer on purpose has a commit that checks. */
  lemma WinsOnlyIfChecks(other: seq<bv8>, current: seq<bv8>, progSize: nat)
    requires progSize > 0 && |other| >= 4 && |current| >= 4 && !Superseded(other, current, progSize)
    ensures Scan(other, 4, NULL, Seed(other)).Done?
  {
    hide Scan, FetchBlock, Newer, Revision, Seed;
    if Scan(other, 4, NULL, Seed(other)).Stop? {
      NothingFound(other, progSize);
    }
  }

  // ----- whole and torn program operations -----

  /** The good commits up to the tip, from the start of the block. */
  predicate Leads(t: Tip, log: seq<Attr>) {
    4 <= t.off <= |t.block| && Walk(t.block, 4, NULL, Seed(t.block), t.off) == Reached(log, t.etag, t.crc)
  }

  function SoFar(log: seq<Attr>, attrs: seq<Attr>, i: nat): seq<Attr> { if i == 0 then log else log + attrs }

  /** What was good stays good when something is written behind it. */
  lemma WrittenBehind(t: Tip, log: seq<Attr>, data: seq<bv8>)
    requires Leads(t, log) && t.off + |data| <= |t.block|
    ensures Leads(Tip(Overwrite(t.block, t.off, data), t.off, t.etag, t.crc), log)
    ensures Revision(Overwrite(t.block, t.off, data)) == Revision(t.block)
  {
    hide Walk, Checksum, FromLe;
    var after := Overwrite(t.block, t.off, data);
    OverwriteKeeps(t.block, t.off, data);
    assert after[..4] == after[..t.off][..4] == t.block[..4];
    assert after[4..t.off] == after[..t.off][4..] == t.block[4..t.off];
    WalkLocal(t.block, after, 4, NULL, Seed(t.block), t.off);
  }

  lemma PutLeads(t: Tip, log: seq<Attr>, attrs: seq<Attr>, p: Piece)
    requires Leads(t, log) && Fits(t, attrs, p)
    ensures Leads(Put(t, p), log + attrs)
    ensures Revision(Put(t, p).block) == Revision(t.block)
  {
    hide Walk, Scan, Checksum, Overwrite, Clean, Revision;
    WrittenBehind(t, log, p.data);
    var after := Overwrite(t.block, t.off, p.data);
    WalkExtends(after, 4, NULL, Seed(after), t.off, p.next);
  }

  lemma CleanBehind(block: seq<bv8>, after: seq<bv8>, n: nat, off: nat, etag: Word)
    requires n <= off && n <= |block| == |after| && after[n..] == block[n..] && Clean(block, off, etag)
    ensures Clean(after, off, etag)
  {
    hide IsValid, FromBe, Xor;
    if off + 4 <= |block| {
      assert after[off..off + 4] == after[n..][off - n..off - n + 4] == block[n..][off - n..off - n + 4] ==
               block[off..off + 4];
    }
  }

  lemma CleanStops(block: seq<bv8>, off: nat, etag: Word)
    requires Clean(block, off, etag) && IsCrc(etag)
    ensures Scan(block, off, etag, NULL) == Stop(off + 4 <= |block|)
  {
    hide Scan, IsValid, FromBe, Xor, NextTag, DSize, IsCrc, FromLe, Checksum;
    ScanUnfold(block, off, etag, NULL);
  }

  /** After a piece the space behind it still looks unwritten. */
  lemma PutEnds(t: Tip, attrs: seq<Attr>, p: Piece, progSize: nat)
    requires progSize > 0 && Fits(t, attrs, p)
    ensures Ends(Put(t, p).block, t.off + |p.data|, progSize, p.next, p.etag, NULL)
  {
    hide Scan, IsValid, FromBe, Xor, NextTag, Overwrite;
    FitsRoom(t, attrs, p);
    OverwriteKeeps(t.block, t.off, p.data);
    var after := Put(t, p).block;
    CleanBehind(t.block, after, t.off + |p.data|, p.next, p.etag);
    ScanEndsWithCrc(after, t.off, t.etag, t.crc);
    CleanStops(after, p.next, p.etag);
  }

  lemma OverwriteBehind(block: seq<bv8>, off: nat, data: seq<bv8>, n: nat)
    requires n <= off && off + |data| <= |block|
    ensures Overwrite(block, off, data)[..n] == block[..n]
  {
  }

  lemma {:induction false} PutAllLeads(t: Tip, log: seq<Attr>, attrs: seq<Attr>, pieces: seq<Piece>)
    requires Leads(t, log) && AllFit(t, attrs, pieces)
    ensures Leads(PutAll(t, attrs, pieces), SoFar(log, attrs, |pieces|))
    ensures t.off <= PutAll(t, attrs, pieces).off && |PutAll(t, attrs, pieces).block| == |t.block|
    ensures pieces != [] ==> t.off < PutAll(t, attrs, pieces).off
    ensures PutAll(t, attrs, pieces).block[..t.off] == t.block[..t.off]
    ensures Revision(PutAll(t, attrs, pieces).block) == Revision(t.block)
    decreases |pieces|
  {
    hide Walk, Scan, Checksum, Overwrite, Clean, Revision, Leads;
    if pieces != [] {
      var n := |pieces| - 1;
      PutAllLeads(t, log, attrs, pieces[..n]);
      var last := PutAll(t, attrs, pieces[..n]);
      OverwriteBehind(last.block, last.off, pieces[n].data, t.off);
      PutLeads(last, SoFar(log, attrs, n), Share(attrs, n), pieces[n]);
      assert log + attrs + [] == log + attrs;
    }
  }

  lemma {:induction false} FirstFit(t: Tip, attrs: seq<Attr>, pieces: seq<Piece>, i: nat)
    requires AllFit(t, attrs, pieces) && i <= |pieces|
    ensures AllFit(t, attrs, pieces[..i])
    ensures i < |pieces| ==> Fits(PutAll(t, attrs, pieces[..i]), Share(attrs, i), pieces[i])
    decreases |pieces|
  {
    hide Fits, PutAll;
    if i == |pieces| {
      assert pieces[..i] == pieces;
    } else {
      var n := |pieces| - 1;
      if i < n {
        FirstFit(t, attrs, pieces[..n], i);
        assert pieces[..n][..i] == pieces[..i];
      }
    }
  }

  /** Behind a tag that was written, a scan that stops has not found unwritten space. */
  lemma BehindTag(block: seq<bv8>, off: nat, etag: Word, crc: Word)
    requires off + 4 <= |block|
    requires var tag := Xor(FromBe(block[off..off + 4]), etag); IsValid(tag) && off + DSize(tag) <= |block|
    requires Scan(block, off, etag, crc).Stop?
    ensures !Scan(block, off, etag, crc).clean
  {
    hide FromBe, Xor, IsValid, DSize, Checksum, NextTag, Scan, IsCrc;
    var word := block[off..off + 4];
    var tag := Xor(FromBe(word), etag);
    ScanUnfold(block, off, etag, crc);
    if !IsCrc(tag) {
      StopInside(block, off + DSize(tag), tag, Checksum(Checksum(crc, word), block[off + 4..off + DSize(tag)]));
    }
  }

  /** A torn piece does not look like unwritten space, so the next commit will not go there. */
  lemma TornPiece(t: Tip, attrs: seq<Attr>, p: Piece, k: nat, top: nat, progSize: nat)
    requires progSize > 0 && Fits(t, attrs, p) && 4 <= k <= |p.data| && top > t.off
    requires Scan(Overwrite(t.block, t.off, p.data[..k]), t.off, t.etag, t.crc).Stop?
    ensures Ends(Overwrite(t.block, t.off, p.data[..k]), top, progSize, t.off, t.etag, t.crc)
  {
    hide Scan, FromBe, Xor, IsValid, DSize, Checksum, NextTag, IsCrc;
    var whole, torn := Overwrite(t.block, t.off, p.data), Overwrite(t.block, t.off, p.data[..k]);
    assert whole[t.off..t.off + 4] == p.data[..4] == torn[t.off..t.off + 4];
    ScanUnfold(whole, t.off, t.etag, t.crc);
    BehindTag(torn, t.off, t.etag, t.crc);
  }

  /** So does a commit that was given up before its checksum. */
  lemma TornAttrs(t: Tip, attrs: seq<Attr>, k: nat, top: nat, progSize: nat)
    requires progSize > 0 && AllOk(attrs) && t.off + |Body(t.etag, attrs)| <= |t.block|
             && 4 <= k <= |Body(t.etag, attrs)| && top > t.off
    requires Scan(Overwrite(t.block, t.off, Body(t.etag, attrs)[..k]), t.off, t.etag, t.crc).Stop?
    ensures Ends(Overwrite(t.block, t.off, Body(t.etag, attrs)[..k]), top, progSize, t.off, t.etag, t.crc)
  {
    hide Scan, FromBe, Xor, IsValid, Checksum, NextTag, IsCrc, Be, SizeOf;
    var torn := Overwrite(t.block, t.off, Body(t.etag, attrs)[..k]);
    var tag := attrs[0].tag;
    assert torn[t.off..t.off + 4] == Body(t.etag, attrs)[..4] == Be(Xor(tag, t.etag));
    ReadsBack(torn, t.off, tag, t.etag);
    BehindTag(torn, t.off, t.etag, t.crc);
  }

  // ----- a write that stops anywhere -----

  /** After the first `i` pieces. */
  function PutFirst(t: Tip, attrs: seq<Attr>, pieces: seq<Piece>, i: nat): Tip
    requires AllFit(t, attrs, pieces) && i <= |pieces|
  {
    FirstFit(t, attrs, pieces, i);
    PutAll(t, attrs, pieces[..i])
  }

  /** The block after `i` whole pieces and `k` bytes of the next. */
  function Stopped(t: Tip, attrs: seq<Attr>, pieces: seq<Piece>, i: nat, k: nat): Tip
    requires AllFit(t, attrs, pieces) && i <= |pieces| && (k == 0 || (i < |pieces| && k < |pieces[i].data|))
  {
    var ti := PutFirst(t, attrs, pieces, i);
    if i == |pieces| then ti
    else
      FirstFit(t, attrs, pieces, i);
      Tip(Overwrite(ti.block, ti.off, pieces[i].data[..k]), ti.off, ti.etag, ti.crc)
  }

  /** The first offset a stopped write has not programmed. */
  function StoppedTop(t: Tip, attrs: seq<Attr>, pieces: seq<Piece>, i: nat, k: nat, top: nat): nat
    requires AllFit(t, attrs, pieces) && i <= |pieces|
  {
    if i < |pieces| && k > 0 then PutFirst(t, attrs, pieces, i).off + k
    else if i == 0 then top
    else PutFirst(t, attrs, pieces, i - 1).off + |pieces[i - 1].data|
  }

  /** Power is lost inside a tag word, which the model leaves out, or else after whole words. */
  predicate WholeWords(k: nat) { k == 0 || k >= 4 }

  /** A torn write the checksum fails to notice. */
  predicate Unnoticed(t: Tip) { Scan(t.block, t.off, t.etag, t.crc).Done? }

  /** Wherever a write stops, the commits up to the last whole piece are good, and nothing else looks unwritten. */
  lemma StoppedWrite(t: Tip, top: nat, log: seq<Attr>, attrs: seq<Attr>, pieces: seq<Piece>, i: nat, k: nat,
                     progSize: nat)
    requires progSize > 0 && Leads(t, log) && AllFit(t, attrs, pieces)
    requires i <= |pieces| && WholeWords(k) && (k == 0 || (i < |pieces| && k < |pieces[i].data|))
    requires i == 0 && k == 0 ==> Ends(t.block, top, progSize, t.off, t.etag, t.crc)
    ensures var s := Stopped(t, attrs, pieces, i, k);
            && Leads(s, SoFar(log, attrs, i)) && |s.block| == |t.block| && Revision(s.block) == Revision(t.block)
            && s.block[..t.off] == t.block[..t.off]
            && (if i > 0 then s.off > t.off && s.crc == NULL else s.off == t.off && s.etag == t.etag && s.crc == t.crc)
            && ((k > 0 && Unnoticed(s))
                || Ends(s.block, StoppedTop(t, attrs, pieces, i, k, top), progSize, s.off, s.etag, s.crc))
            && (k == 0 && i > 0 ==> StoppedTop(t, attrs, pieces, i, k, top) <= s.off)
  {
    hide Scan, Walk, Checksum, Overwrite, Clean, Revision, Leads, Ends, Fits, AllFit;
    StoppedLeads(t, log, attrs, pieces, i, k);
    if k > 0 {
      StoppedInside(t, attrs, pieces, i, k, top, progSize);
    } else {
      StoppedBetween(t, attrs, pieces, i);
      if i > 0 {
        FirstFit(t, attrs, pieces, i - 1);
        FitsRoom(PutFirst(t, attrs, pieces, i - 1), Share(attrs, i - 1), pieces[i - 1]);
        PutFirstNext(t, attrs, pieces, i);
        PutEnds(PutFirst(t, attrs, pieces, i - 1), Share(attrs, i - 1), pieces[i - 1], progSize);
      }
    }
  }

  lemma StoppedLeads(t: Tip, log: seq<Attr>, attrs: seq<Attr>, pieces: seq<Piece>, i: nat, k: nat)
    requires Leads(t, log) && AllFit(t, attrs, pieces)
    requires i <= |pieces| && (k == 0 || (i < |pieces| && k < |pieces[i].data|))
    ensures var s := Stopped(t, attrs, pieces, i, k);
            && Leads(s, SoFar(log, attrs, i)) && |s.block| == |t.block| && Revision(s.block) == Revision(t.block)
            && s.block[..t.off] == t.block[..t.off]
            && (if i > 0 then s.off > t.off && s.crc == NULL else s.off == t.off && s.etag == t.etag && s.crc == t.crc)
  {
    hide Scan, Walk, Checksum, Overwrite, Clean, Revision, Leads, Ends, Fits;
    FirstFit(t, attrs, pieces, i);
    PutAllLeads(t, log, attrs, pieces[..i]);
    var ti := PutFirst(t, attrs, pieces, i);
    if i < |pieces| {
      FitsRoom(ti, Share(attrs, i), pieces[i]);
      OverwriteBehind(ti.block, ti.off, pieces[i].data[..k], t.off);
      WrittenBehind(ti, SoFar(log, attrs, i), pieces[i].data[..k]);
    }
  }

  lemma StoppedInside(t: Tip, attrs: seq<Attr>, pieces: seq<Piece>, i: nat, k: nat, top: nat, progSize: nat)
    requires progSize > 0 && AllFit(t, attrs, pieces) && i < |pieces| && 4 <= k < |pieces[i].data|
    ensures var s := Stopped(t, attrs, pieces, i, k);
            Unnoticed(s) || Ends(s.block, StoppedTop(t, attrs, pieces, i, k, top), progSize, s.off, s.etag, s.crc)
  {
    hide Scan, Walk, Overwrite, Ends, Fits, AllFit;
    FirstFit(t, attrs, pieces, i);
    var ti := PutFirst(t, attrs, pieces, i);
    if !Unnoticed(Stopped(t, attrs, pieces, i, k)) {
      TornPiece(ti, Share(attrs, i), pieces[i], k, StoppedTop(t, attrs, pieces, i, k, top), progSize);
    }
  }

  lemma StoppedBetween(t: Tip, attrs: seq<Attr>, pieces: seq<Piece>, i: nat)
    requires AllFit(t, attrs, pieces) && i <= |pieces|
    ensures (i < |pieces| ==> |pieces[i].data| > 0) && Stopped(t, attrs, pieces, i, 0) == PutFirst(t, attrs, pieces, i)
  {
    hide Scan, Overwrite, Fits, AllFit;
    FirstFit(t, attrs, pieces, i);
    if i < |pieces| {
      var ti := PutFirst(t, attrs, pieces, i);
      FitsRoom(ti, Share(attrs, i), pieces[i]);
      NothingOver(ti.block, ti.off, pieces[i].data);
    }
  }

  predicate SameFrom(a: seq<bv8>, b: seq<bv8>, off: nat) { off <= |a| == |b| && a[off..] == b[off..] }

  lemma StoppedTail(t: Tip, attrs: seq<Attr>, pieces: seq<Piece>, i: nat)
    requires AllFit(t, attrs, pieces) && i <= |pieces| && t.off <= |t.block|
    ensures var s := Stopped(t, attrs, pieces, i, 0);
            i == |pieces| ==> SameFrom(s.block, t.block, s.off)
  {
    hide AllFit, PutFirst;
    if i == |pieces| {
      StoppedBetween(t, attrs, pieces, i);
      AllFirst(t, attrs, pieces);
      PutAllTail(t, attrs, pieces);
    }
  }

  lemma PutFirstNext(t: Tip, attrs: seq<Attr>, pieces: seq<Piece>, i: nat)
    requires AllFit(t, attrs, pieces) && 0 < i <= |pieces|
    ensures Fits(PutFirst(t, attrs, pieces, i - 1), Share(attrs, i - 1), pieces[i - 1])
    ensures PutFirst(t, attrs, pieces, i) == Put(PutFirst(t, attrs, pieces, i - 1), pieces[i - 1])
  {
    hide Fits, Put;
    FirstFit(t, attrs, pieces, i);
    FirstFit(t, attrs, pieces, i - 1);
    assert pieces[..i][..i - 1] == pieces[..i - 1];
  }

  lemma NothingOver(block: seq<bv8>, off: nat, data: seq<bv8>)
    requires off <= |block|
    ensures Overwrite(block, off, data[..0]) == block
  {
  }

  // ----- the pair -----

  /**
    What becomes of a write: the power stays, or goes before anything but an erase is done, or after
    some pieces and bytes of a commit; or the device takes some pieces and then has other bytes than
    were programmed, as it may if they were programmed before.
   */
  datatype Fate =
    | Survives
    | LostErasing
    | LostAfter(pieces: nat, bytes: nat)
    | Garbled(pieces: nat, noise: seq<bv8>, alive: bool)

  datatype Outcome = Committed | NoSpace | Corrupt | Down | Missed

  predicate Alive(fate: Fate) { fate.Survives? || (fate.Garbled? && fate.alive) }

  /** The model loses power between whole words. */
  predicate WholeFate(fate: Fate) { fate.LostAfter? ==> WholeWords(fate.bytes) }

  /** Power is not lost inside a piece. */
  predicate Whole(fate: Fate) { fate.LostAfter? ==> fate.bytes == 0 }

  /** The piece with the attributes is programmed, with its checksum. */
  predicate FirstDone(fate: Fate) { fate.Survives? || (!fate.LostErasing? && fate.pieces > 0) }

  function PiecesOf(fate: Fate, pieces: seq<Piece>): (i: nat)
    ensures i <= |pieces|
    ensures pieces != [] ==> (i > 0 <==> FirstDone(fate))
  {
    match fate
    case Survives => |pieces|
    case LostErasing => 0
    case LostAfter(i, k) => Min(i, |pieces|)
    case Garbled(i, noise, alive) => Min(i, |pieces|)
  }

  function BytesOf(fate: Fate, pieces: seq<Piece>): (k: nat)
    ensures WholeFate(fate) ==> WholeWords(k)
    ensures PiecesOf(fate, pieces) < |pieces| ==> k == 0 || k < |pieces[PiecesOf(fate, pieces)].data|
    ensures k > 0 ==> fate.LostAfter? && fate.bytes > 0 && PiecesOf(fate, pieces) < |pieces|
  {
    if fate.LostAfter? && fate.pieces < |pieces| && fate.bytes < |pieces[fate.pieces].data| then fate.bytes else 0
  }

  /** The block holds as much of a commit as its fate lets through, and `top` marks what was programmed. */
  ghost predicate CutOff(t: Tip, top: nat, attrs: seq<Attr>, fate: Fate, h: Half) {
    exists pieces: seq<Piece> ::
      && AllFit(t, attrs, pieces) && pieces != [] && Body(t.etag, attrs) < pieces[0].data
      && h.block == Stopped(t, attrs, pieces, PiecesOf(fate, pieces), BytesOf(fate, pieces)).block
      && h.top == StoppedTop(t, attrs, pieces, PiecesOf(fate, pieces), BytesOf(fate, pieces), top)
  }

  lemma CutOffWith(t: Tip, top: nat, attrs: seq<Attr>, fate: Fate, h: Half, pieces: seq<Piece>)
    requires AllFit(t, attrs, pieces) && pieces != [] && Body(t.etag, attrs) < pieces[0].data
    requires h.block == Stopped(t, attrs, pieces, PiecesOf(fate, pieces), BytesOf(fate, pieces)).block
    requires h.top == StoppedTop(t, attrs, pieces, PiecesOf(fate, pieces), BytesOf(fate, pieces), top)
    ensures CutOff(t, top, attrs, fate, h)
  {
    hide AllFit, Stopped, StoppedTop, Body;
  }

  /** Power lost before the checksum leaves the first bytes of the attributes. */
  lemma CutOffEarly(t: Tip, top: nat, attrs: seq<Attr>, k: nat, h: Half)
    requires CutOff(t, top, attrs, LostAfter(0, k), h) && 0 < k <= |Body(t.etag, attrs)|
    ensures t.off + k <= |t.block| && h.block == Overwrite(t.block, t.off, Body(t.etag, attrs)[..k])
            && h.top == t.off + k
  {
    hide Body, Overwrite, Fits;
    var fate := LostAfter(0, k);
    var pieces: seq<Piece> :|
      AllFit(t, attrs, pieces) && pieces != [] && Body(t.etag, attrs) < pieces[0].data
      && h.block == Stopped(t, attrs, pieces, PiecesOf(fate, pieces), BytesOf(fate, pieces)).block
      && h.top == StoppedTop(t, attrs, pieces, PiecesOf(fate, pieces), BytesOf(fate, pieces), top);
    FirstFit(t, attrs, pieces, 0);
    assert pieces[..0] == [];
    assert PutFirst(t, attrs, pieces, 0) == t;
    FitsRoom(t, Share(attrs, 0), pieces[0]);
    assert pieces[0].data[..k] == Body(t.etag, attrs)[..k];
  }

  /** The attributes and one checksum fit between the offset and the end of the block. */
  predicate HasRoom(off: nat, etag: Word, attrs: seq<Attr>, blockSize: nat) {
    off + |Body(etag, attrs)| + 8 <= blockSize
  }

  /** The attributes of a commit one by one; `ok` if all fit (lfs_dir_commitattr in a traversal). */
  method WriteAttrs(w: Writer, attrs: seq<Attr>) returns (ok: bool)
    requires w.Valid() && w.attrs == [] && AllOk(attrs) && |w.block| >= 8
    modifies w`block, w`off, w`ptag, w`crc, w`attrs
    ensures w.Valid()
    ensures ok <==> attrs == [] || HasRoom(w.base.off, w.base.etag, attrs, |w.block|)
    ensures ok ==> w.attrs == attrs
  {
    hide Writer.Valid, Body, DSize;
    WriterAt(w);
    var i := 0;
    while i < |attrs|
      invariant i <= |attrs| && w.Valid()
      invariant w.attrs == attrs[..i]
      invariant i > 0 ==> HasRoom(w.base.off, w.base.etag, attrs[..i], |w.block|)
    {
      WriterAt(w);
      BodyNext(w.base.etag, attrs, i);
      var fits := w.CommitAttr(attrs[i]);
      WriterAt(w);
      if !fits {
        BodyPrefix(w.base.etag, attrs, i + 1);
        return false;
      }
      i := i + 1;
    }
    assert attrs[..i] == attrs;
    return true;
  }

  /** The attributes and their checksums, as pieces to be programmed; without room, the attributes that did fit. */
  method Prepare(w: Writer, attrs: seq<Attr>, progSize: nat)
    returns (room: bool, at: nat, pieces: seq<Piece>, data: seq<bv8>)
    requires w.Valid() && w.attrs == [] && AllOk(attrs) && Divides(progSize, |w.base.block|) && |w.base.block| >= 8
    requires attrs == [] ==> w.base.off + 8 <= |w.base.block|
    modifies w`block, w`off, w`ptag, w`crc, w`attrs
    ensures |w.block| == |w.base.block| && (room <==> HasRoom(w.base.off, w.base.etag, attrs, |w.block|))
    ensures room ==> AllFit(w.base, attrs, pieces) && pieces != [] && Body(w.base.etag, attrs) < pieces[0].data
    ensures room ==> PutAll(w.base, attrs, pieces) == Tip(w.block, w.off, w.ptag, NULL) && Spaced(pieces, at, w.off)
    ensures room ==> w.base.off <= at && at + 8 <= w.off <= |w.block| && progSize > 0
                     && w.off == AlignUp(w.base.off + |Body(w.base.etag, attrs)| + 8, progSize)
    ensures !room ==> AllOk(w.attrs) && data == Body(w.base.etag, w.attrs) && w.base.off + |data| <= |w.block|
  {
    hide Divides, AlignUp, Body, AllOk, AllFit, PutAll, Writer.Valid, NULL, Spaced;
    WriterAt(w);
    EmptyBody(w.base.etag);
    room := WriteAttrs(w, attrs);
    WriterAt(w);
    at, pieces, data := w.off, [], w.block[w.base.off..w.off];
    if room {
      var ok;
      ok, pieces := w.CommitCrc(progSize);
      SameSizes(w.base, attrs, pieces);
    }
  }

  lemma SameSizes(t: Tip, attrs: seq<Attr>, pieces: seq<Piece>)
    requires AllFit(t, attrs, pieces)
    ensures |PutAll(t, attrs, pieces).block| == |t.block|
  {
    hide AllFit, PutAll;
    PutAllTail(t, attrs, pieces);
  }

  lemma WriterAt(w: Writer)
    requires w.Valid()
    ensures w.off == w.base.off + |Body(w.base.etag, w.attrs)| && w.off <= |w.block| == |w.base.block|
    ensures AllOk(w.attrs) && w.block[w.base.off..w.off] == Body(w.base.etag, w.attrs)
  {
    hide Body, LastTag, Checksum;
  }

  lemma BodyNext(etag: Word, attrs: seq<Attr>, i: nat)
    requires AllOk(attrs) && i < |attrs|
    ensures attrs[..i + 1] == attrs[..i] + [attrs[i]]
    ensures |Body(etag, attrs[..i + 1])| == |Body(etag, attrs[..i])| + DSize(attrs[i].tag)
  {
    hide Body, DSize, Xor, Be, IsValid, IsCrc;
    BodyGrows(etag, attrs[..i], attrs[i]);
    assert attrs[..i + 1] == attrs[..i] + [attrs[i]];
  }

  lemma {:induction false} BodyPrefix(etag: Word, attrs: seq<Attr>, i: nat)
    requires AllOk(attrs) && i <= |attrs|
    ensures |Body(etag, attrs[..i])| <= |Body(etag, attrs)|
    decreases |attrs| - i
  {
    hide Body, DSize, Ok;
    if i == |attrs| {
      assert attrs[..i] == attrs;
    } else {
      BodyNext(etag, attrs, i);
      BodyPrefix(etag, attrs, i + 1);
    }
  }

  /** Whatever the other block holds, it is older. */
  predicate Superseded(other: seq<bv8>, current: seq<bv8>, progSize: nat) {
    && progSize > 0 && |other| >= 4 && |current| >= 4
    && (Found(FetchBlock(other, progSize)) ==> Newer(Revision(current), Revision(other)))
  }

  predicate Two(halves: seq<Half>, blockSize: nat) {
    |halves| == 2 && forall i :: 0 <= i < 2 ==> |halves[i].block| == blockSize
  }

  lemma TwoStay(halves: seq<Half>, blockSize: nat, i: nat, h: Half)
    requires Two(halves, blockSize) && i < 2 && |h.block| == blockSize
    ensures |halves| == 2 && Two(halves[i := h], blockSize)
    ensures halves[i := h][i] == h && halves[i := h][1 - i] == halves[1 - i]
  {
  }

  /** One block holds exactly the log, and the other does not get in its way. */
  predicate Keeps(halves: seq<Half>, progSize: nat, main: nat, log: seq<Attr>, end: nat, endTag: Word) {
    && |halves| == 2 && main < 2
    && Holds(halves[main], progSize, log, end, endTag)
    && Superseded(halves[1 - main].block, halves[main].block, progSize)
  }

  // ----- what each kind of write does to the pair -----

  lemma OlderStays(other: seq<bv8>, before: seq<bv8>, after: seq<bv8>, progSize: nat)
    requires Superseded(other, before, progSize) && |before| == |after| && Revision(before) == Revision(after)
    ensures Superseded(other, after, progSize)
  {
    hide FetchBlock, Found, Newer, Revision;
  }

  lemma AppendKeeps(halves: seq<Half>, blockSize: nat, progSize: nat, main: nat, log: seq<Attr>, off: nat, etag: Word,
                    attrs: seq<Attr>, pieces: seq<Piece>, i: nat, k: nat, mixed: bool)
    requires Two(halves, blockSize) && Keeps(halves, progSize, main, log, off, etag)
    requires AllFit(Tip(halves[main].block, off, etag, NULL), attrs, pieces) && pieces != []
    requires i <= |pieces| && WholeWords(k) && (k == 0 || (i < |pieces| && k < |pieces[i].data|))
    ensures var h := halves[main];
            var t := Tip(h.block, off, etag, NULL);
            var s, top := Stopped(t, attrs, pieces, i, k), StoppedTop(t, attrs, pieces, i, k, h.top);
            && |s.block| == blockSize && off <= blockSize && s.block[..off] == h.block[..off]
               && Revision(s.block) == Revision(h.block)
            && Leads(s, SoFar(log, attrs, i)) && s.crc == NULL && (i == 0 ==> s.off == off && s.etag == etag)
            && ((k > 0 && Unnoticed(s))
                || Keeps(halves[main := Half(s.block, top, mixed)], progSize, main, SoFar(log, attrs, i), s.off,
                         s.etag))
            && 4 < s.off <= blockSize && off <= s.off && (i > 0 ==> off < s.off)
            && (i == 0 && k == 0 ==> top == h.top)
            && (k == 0 && i > 0 ==> top <= s.off)
            && (i == |pieces| ==> s == PutAll(t, attrs, pieces))
  {
    hide Scan, Walk, Checksum, Overwrite, Clean, Revision, Leads, Ends, Fits, AllFit, Stopped, StoppedTop, Unnoticed,
      Superseded;
    var h := halves[main];
    var t := Tip(h.block, off, etag, NULL);
    HoldsLeads(h, progSize, log, off, etag);
    var s := Stopped(t, attrs, pieces, i, k);
    var h' := Half(s.block, StoppedTop(t, attrs, pieces, i, k, h.top), mixed);
    StoppedWrite(t, h.top, log, attrs, pieces, i, k, progSize);
    LeadsRange(s, SoFar(log, attrs, i));
    if !(k > 0 && Unnoticed(s)) {
      LeadsHolds(h', progSize, SoFar(log, attrs, i), s.off, s.etag);
      OlderStays(halves[1 - main].block, h.block, s.block, progSize);
    }
    if i == |pieces| {
      StoppedBetween(t, attrs, pieces, i);
      assert pieces[..|pieces|] == pieces;
    }
    TopStays(t, attrs, pieces, h.top);
  }

  lemma TopStays(t: Tip, attrs: seq<Attr>, pieces: seq<Piece>, top: nat)
    requires AllFit(t, attrs, pieces)
    ensures StoppedTop(t, attrs, pieces, 0, 0, top) == top
  {
  }

  lemma LeadsRange(t: Tip, log: seq<Attr>)
    requires Leads(t, log)
    ensures 4 <= t.off <= |t.block|
  {
  }

  /** The bytes already written for a commit that is then given up. */
  lemma SpillKeeps(halves: seq<Half>, blockSize: nat, progSize: nat, main: nat, log: seq<Attr>, off: nat, etag: Word,
                   attrs: seq<Attr>, data: seq<bv8>, k: nat, mixed: bool)
    requires Two(halves, blockSize) && Keeps(halves, progSize, main, log, off, etag)
    requires AllOk(attrs) && data == Body(etag, attrs) && off + |data| <= blockSize && 4 <= k <= |data|
    ensures var h, torn := halves[main], Overwrite(halves[main].block, off, data[..k]);
            && torn[..off] == h.block[..off] && Revision(torn) == Revision(h.block)
            && Leads(Tip(torn, off, etag, NULL), log)
            && (Unnoticed(Tip(torn, off, etag, NULL))
                || Keeps(halves[main := Half(torn, off + k, mixed)], progSize, main, log, off, etag))
  {
    hide Scan, Walk, Checksum, Overwrite, Clean, Revision, Leads, Ends, Body, LastTag, Superseded;
    var h := halves[main];
    var t := Tip(h.block, off, etag, NULL);
    HoldsLeads(h, progSize, log, off, etag);
    OverwriteBehind(h.block, off, data[..k], off);
    WrittenBehind(t, log, data[..k]);
    var torn := Overwrite(h.block, off, data[..k]);
    if !Unnoticed(Tip(torn, off, etag, NULL)) {
      TornAttrs(t, attrs, k, off + k, progSize);
      LeadsHolds(Half(torn, off + k, mixed), progSize, log, off, etag);
      OlderStays(halves[1 - main].block, h.block, torn, progSize);
    }
  }

  /** Other bytes behind the good commits. */
  function Spoiled(t: Tip, noise: seq<bv8>): seq<bv8> {
    if t.off <= |t.block| then Overwrite(t.block, t.off, noise[..Min(|noise|, |t.block| - t.off)]) else t.block
  }

  function MixedTop(block: seq<bv8>, off: nat, etag: Word): nat {
    if Scan(block, off, etag, NULL) == Stop(true) then off else off + 1
  }

  /** Whatever the device has in place of the pieces behind the first `i`, the log up to there stands. */
  lemma GarbleKeeps(halves: seq<Half>, blockSize: nat, progSize: nat, main: nat, log: seq<Attr>, off: nat, etag: Word,
                    attrs: seq<Attr>, pieces: seq<Piece>, i: nat, noise: seq<bv8>)
    requires Two(halves, blockSize) && Keeps(halves, progSize, main, log, off, etag)
    requires AllFit(Tip(halves[main].block, off, etag, NULL), attrs, pieces) && i <= |pieces|
    ensures var h := halves[main];
            var ti := PutFirst(Tip(h.block, off, etag, NULL), attrs, pieces, i);
            var block := Spoiled(ti, noise);
            && off <= ti.off <= blockSize == |block| && 4 < ti.off && (i == 0 ==> ti.off == off && ti.etag == etag)
            && (i > 0 ==> off < ti.off)
            && block[..off] == h.block[..off] && Leads(Tip(block, ti.off, ti.etag, NULL), SoFar(log, attrs, i))
            && (Unnoticed(Tip(block, ti.off, ti.etag, NULL))
                || Keeps(halves[main := Half(block, MixedTop(block, ti.off, ti.etag), true)], progSize, main,
                         SoFar(log, attrs, i), ti.off, ti.etag))
            && Revision(block) == Revision(h.block)
  {
    hide Scan, Walk, Checksum, Overwrite, Clean, Revision, Leads, Ends, Fits, AllFit, PutFirst, Superseded, MixedTop;
    var h := halves[main];
    var t := Tip(h.block, off, etag, NULL);
    HoldsLeads(h, progSize, log, off, etag);
    FirstPieces(t, log, attrs, pieces, i);
    var ti := PutFirst(t, attrs, pieces, i);
    var bytes := noise[..Min(|noise|, |ti.block| - ti.off)];
    var block := Overwrite(ti.block, ti.off, bytes);
    WrittenBehind(ti, SoFar(log, attrs, i), bytes);
    OverwriteBehind(ti.block, ti.off, bytes, off);
    OlderStays(halves[1 - main].block, h.block, block, progSize);
    if !Unnoticed(Tip(block, ti.off, ti.etag, NULL)) {
      NothingBehind(block, progSize, ti.off, ti.etag);
      LeadsHolds(Half(block, MixedTop(block, ti.off, ti.etag), true), progSize, SoFar(log, attrs, i), ti.off, ti.etag);
    }
  }

  lemma FirstPieces(t: Tip, log: seq<Attr>, attrs: seq<Attr>, pieces: seq<Piece>, i: nat)
    requires Leads(t, log) && AllFit(t, attrs, pieces) && i <= |pieces| && t.crc == NULL
    ensures var ti := PutFirst(t, attrs, pieces, i);
            && Leads(ti, SoFar(log, attrs, i)) && |ti.block| == |t.block| && t.off <= ti.off <= |t.block|
               && ti.crc == NULL
            && (i == 0 ==> ti == t) && (i > 0 ==> t.off < ti.off)
            && ti.block[..t.off] == t.block[..t.off] && Revision(ti.block) == Revision(t.block)
  {
    hide Scan, Walk, Checksum, Overwrite, Clean, Revision, Leads, Fits, AllFit;
    FirstFit(t, attrs, pieces, i);
    PutAllLeads(t, log, attrs, pieces[..i]);
    LeadsRange(PutFirst(t, attrs, pieces, i), SoFar(log, attrs, i));
    if i > 0 {
      PutFirstNext(t, attrs, pieces, i);
    } else {
      assert pieces[..0] == [];
    }
  }

  lemma NothingBehind(block: seq<bv8>, progSize: nat, off: nat, etag: Word)
    requires progSize > 0 && Scan(block, off, etag, NULL).Stop?
    ensures Ends(block, MixedTop(block, off, etag), progSize, off, etag, NULL)
  {
    hide Scan;
  }

  /** Later pieces end further back. */
  lemma {:induction false} PiecesAdvance(t: Tip, attrs: seq<Attr>, pieces: seq<Piece>, i: nat)
    requires AllFit(t, attrs, pieces) && i < |pieces|
    ensures PutFirst(t, attrs, pieces, i).off < PutAll(t, attrs, pieces).off
    decreases |pieces| - i
  {
    hide Fits, PutFirst, AllFit;
    PutFirstNext(t, attrs, pieces, i + 1);
    FitsRoom(PutFirst(t, attrs, pieces, i), Share(attrs, i), pieces[i]);
    if i + 1 < |pieces| {
      PiecesAdvance(t, attrs, pieces, i + 1);
    } else {
      AllFirst(t, attrs, pieces);
    }
  }

  lemma PutFirstEnds(t: Tip, attrs: seq<Attr>, pieces: seq<Piece>, i: nat, at: nat)
    requires AllFit(t, attrs, pieces) && i <= |pieces|
    ensures PutFirst(t, attrs, pieces, i).off == if i == 0 then t.off else StartAt(pieces, at, i)
  {
    hide Fits, AllFit;
    if i == 0 {
      assert pieces[..0] == [];
    } else {
      PutFirstNext(t, attrs, pieces, i);
    }
  }

  lemma AllFirst(t: Tip, attrs: seq<Attr>, pieces: seq<Piece>)
    requires AllFit(t, attrs, pieces)
    ensures PutFirst(t, attrs, pieces, |pieces|) == PutAll(t, attrs, pieces)
  {
    hide Fits;
    assert pieces[..|pieces|] == pieces;
  }

  /** An erased block with the new revision count on it, before anything else is written. */
  function Header(rev: Word, left: seq<bv8>): Tip
    requires |left| >= 4
  {
    LeRoundTrip(rev);
    Tip(Le(rev.bits) + left[4..], 4, NULL, Checksum(NULL, Le(rev.bits)))
  }

  lemma HeaderIs(rev: Word, left: seq<bv8>)
    requires |left| >= 4
    ensures |Le(rev.bits)| == 4
            && Header(rev, left) == Tip(Le(rev.bits) + left[4..], 4, NULL, Checksum(NULL, Le(rev.bits)))
  {
    hide Checksum, Le;
    LeRoundTrip(rev);
  }

  lemma HeaderLeads(rev: Word, left: seq<bv8>)
    requires |left| >= 4
    ensures |Header(rev, left).block| == |left| && Leads(Header(rev, left), [])
            && Revision(Header(rev, left).block) == rev
  {
    hide Scan, Checksum, Le, FromLe;
    LeRoundTrip(rev);
    assert Header(rev, left).block[..4] == Le(rev.bits);
  }

  /** A pair keeps its log as long as nothing newer checks on the other block. */
  lemma OtherKeeps(halves: seq<Half>, progSize: nat, main: nat, log: seq<Attr>, end: nat, endTag: Word, h: Half)
    requires Keeps(halves, progSize, main, log, end, endTag) && Superseded(h.block, halves[main].block, progSize)
    ensures Keeps(halves[1 - main := h], progSize, main, log, end, endTag)
  {
    hide Holds, Superseded;
  }

  lemma HoldsSize(h: Half, progSize: nat, log: seq<Attr>, off: nat, etag: Word)
    requires Holds(h, progSize, log, off, etag)
    ensures progSize > 0 && 4 < off <= |h.block|
  {
    hide Walk, Ends, Seed;
  }

  /** A compaction whose attributes are checked wins over any block with an older revision count. */
  lemma Compacted(other: Half, progSize: nat, rev: Word, left: seq<bv8>, contents: seq<Attr>, pieces: seq<Piece>,
                  i: nat, k: nat)
    requires progSize > 0 && |other.block| >= 4 && |left| >= 4 && Newer(rev, Revision(other.block))
    requires AllFit(Header(rev, left), contents, pieces)
    requires 0 < i <= |pieces| && WholeWords(k) && (k == 0 || (i < |pieces| && k < |pieces[i].data|))
    ensures var t := Header(rev, left);
            var s, top := Stopped(t, contents, pieces, i, k), StoppedTop(t, contents, pieces, i, k, 4);
            && |s.block| == |left| && 4 < s.off <= |left| && Revision(s.block) == rev
            && Leads(s, contents) && s.crc == NULL && Superseded(other.block, s.block, progSize)
            && ((k > 0 && Unnoticed(s)) || Holds(Half(s.block, top, false), progSize, contents, s.off, s.etag))
            && (k == 0 ==> top <= s.off)
  {
    hide Scan, Walk, Checksum, Overwrite, Revision, Leads, Ends, AllFit, Stopped, StoppedTop, Unnoticed, Superseded,
      Newer, Holds;
    var t := Header(rev, left);
    HeaderLeads(rev, left);
    var s := Stopped(t, contents, pieces, i, k);
    StoppedWrite(t, 4, [], contents, pieces, i, k, progSize);
    LeadsRange(s, SoFar([], contents, i));
    assert [] + contents == contents;
    OldIsOlder(other.block, s.block, progSize);
    if !(k > 0 && Unnoticed(s)) {
      LeadsHolds(Half(s.block, StoppedTop(t, contents, pieces, i, k, 4), false), progSize, contents, s.off, s.etag);
    }
  }

  /** Wherever a compaction stops, the pair holds the old log or, once its attributes are checked, the new one. */
  lemma CompactKeeps(halves: seq<Half>, progSize: nat, main: nat, log: seq<Attr>, end: nat, endTag: Word,
                     rev: Word, left: seq<bv8>, contents: seq<Attr>, pieces: seq<Piece>, i: nat, k: nat)
    requires Keeps(halves, progSize, main, log, end, endTag)
    requires |left| >= 4 && Newer(rev, Revision(halves[main].block))
    requires AllFit(Header(rev, left), contents, pieces) && pieces != []
    requires i <= |pieces| && WholeWords(k) && (k == 0 || (i < |pieces| && k < |pieces[i].data|))
    ensures var t := Header(rev, left);
            var s, top := Stopped(t, contents, pieces, i, k), StoppedTop(t, contents, pieces, i, k, 4);
            && |s.block| == |left| && 4 <= s.off <= |left|
            && (i == 0 && Superseded(s.block, halves[main].block, progSize) ==>
                  Keeps(halves[1 - main := Half(s.block, top, false)], progSize, main, log, end, endTag))
            && (i > 0 ==> s.off > 4 && Revision(s.block) == rev && Leads(s, contents) && s.crc == NULL
                          && Superseded(halves[main].block, s.block, progSize))
            && (i > 0 && !(k > 0 && Unnoticed(s)) ==>
                  Keeps(halves[1 - main := Half(s.block, top, false)], progSize, 1 - main, contents, s.off, s.etag))
            && (k == 0 && i > 0 ==> top <= s.off)
            && (i == |pieces| ==> s == PutAll(t, contents, pieces))
  {
    hide Scan, Walk, Checksum, Overwrite, Revision, Leads, Ends, AllFit, Stopped, StoppedTop, Unnoticed, Superseded,
      Newer, Holds;
    HoldsSize(halves[main], progSize, log, end, endTag);
    if i > 0 {
      Compacted(halves[main], progSize, rev, left, contents, pieces, i, k);
      if i == |pieces| {
        StoppedBetween(Header(rev, left), contents, pieces, i);
        AllFirst(Header(rev, left), contents, pieces);
      }
    } else {
      var t := Header(rev, left);
      HeaderLeads(rev, left);
      var s := Stopped(t, contents, pieces, i, k);
      StoppedLeads(t, [], contents, pieces, i, k);
      LeadsRange(s, []);
      if Superseded(s.block, halves[main].block, progSize) {
        OtherKeeps(halves, progSize, main, log, end, endTag,
                   Half(s.block, StoppedTop(t, contents, pieces, i, k, 4), false));
      }
    }
  }

  lemma OldIsOlder(other: seq<bv8>, current: seq<bv8>, progSize: nat)
    requires progSize > 0 && |other| >= 4 && |current| >= 4 && Newer(Revision(current), Revision(other))
    ensures Superseded(other, current, progSize)
  {
    hide FetchBlock, Found, Newer, Revision;
  }

  lemma HoldsLeads(h: Half, progSize: nat, log: seq<Attr>, off: nat, etag: Word)
    requires Holds(h, progSize, log, off, etag)
    ensures 4 < off && Leads(Tip(h.block, off, etag, NULL), log) && Ends(h.block, h.top, progSize, off, etag, NULL)
  {
    hide Walk, Ends, Checksum;
  }

  lemma LeadsHolds(h: Half, progSize: nat, log: seq<Attr>, off: nat, etag: Word)
    requires 4 < off && Leads(Tip(h.block, off, etag, NULL), log) && progSize > 0
             && Ends(h.block, h.top, progSize, off, etag, NULL)
    ensures Holds(h, progSize, log, off, etag)
  {
    hide Walk, Ends, Checksum;
  }

  // ----- runs -----

  datatype Step =
    | CommitStep(attrs: seq<Attr>, contents: seq<Attr>, count: nat, left: seq<bv8>, spill: nat, appendFate: Fate,
                 compactFate: Fate)
    | FetchStep
    | PowerStep

  predicate StepOk(step: Step, blockSize: nat) {
    step.CommitStep? ==>
      && AllOk(step.attrs) && step.attrs != [] && AllOk(step.contents) && |step.left| == blockSize
      && WholeWords(step.spill) && WholeFate(step.appendFate) && WholeFate(step.compactFate)
         && !step.compactFate.Garbled?
  }

  /** A commit whose writes may not have completed, or were given up for lack of room. */
  predicate Incomplete(step: Step, blockSize: nat) {
    step.CommitStep? && (!step.appendFate.Survives? || !step.compactFate.Survives? || step.spill > 0
                         || !HasRoom(4, NULL, step.contents, blockSize))
  }

  /**
    What a run has reached: the log and where it ends; whether nothing is programmed behind it, and whether
    its block was ever programmed twice; the erased flag, and whether the directory in memory can be used.
   */
  datatype Seen = Seen(log: seq<Attr>, end: nat, tag: Word, clean: bool, mixed: bool, erased: bool, usable: bool)

  /** The append is tried, and there is room for it. */
  predicate Fitting(v: Seen, step: Step, blockSize: nat)
    requires step.CommitStep?
  {
    (v.erased || step.count >= 0xff) && HasRoom(v.end, v.tag, step.attrs, blockSize)
  }

  /** The append is not tried, or there is no room for it and the power lasts. */
  predicate Compacting(v: Seen, step: Step, blockSize: nat)
    requires step.CommitStep?
  {
    !Fitting(v, step, blockSize) && (v.erased || step.count >= 0xff ==> Alive(step.appendFate))
  }

  /** The log after the append alone: what counts is whether its first checksum was programmed. */
  function Appended(v: Seen, step: Step, blockSize: nat): seq<Attr>
    requires step.CommitStep?
  {
    if Fitting(v, step, blockSize) && FirstDone(step.appendFate) then v.log + step.attrs else v.log
  }

  /** The compaction leaves its contents, if they fit and its first checksum was programmed. */
  predicate Rewrites(step: Step, blockSize: nat)
    requires step.CommitStep?
  {
    HasRoom(4, NULL, step.contents, blockSize) && FirstDone(step.compactFate)
  }

  /** The log after a commit. */
  function After(v: Seen, step: Step, blockSize: nat): seq<Attr>
    requires step.CommitStep?
  {
    if Compacting(v, step, blockSize) && Rewrites(step, blockSize) then step.contents else Appended(v, step, blockSize)
  }

  /** Nothing but what is committed gets to the device. */
  predicate Certain(step: Step)
    requires step.CommitStep?
  {
    step.spill == 0 && !step.appendFate.Garbled?
  }

  /** What a step makes of the log; only a garbled or given up append may or may not be followed by the compaction. */
  predicate Follows(v: Seen, step: Step, after: seq<Attr>, blockSize: nat) {
    if !step.CommitStep? || !v.usable then after == v.log
    else if Certain(step) then after == After(v, step, blockSize)
    else after == Appended(v, step, blockSize) || (after == step.contents && Rewrites(step, blockSize))
  }

  /** The power lasts for the commit, and the compaction it may take has room. */
  predicate Lasts(step: Step, blockSize: nat) {
    step.CommitStep? ==>
      Alive(step.appendFate) && step.compactFate.Survives? && HasRoom(4, NULL, step.contents, blockSize)
  }

  /** A commit that the power lasts for leaves the directory usable, unless it is missed. */
  predicate StaysUsable(v: Seen, step: Step, v': Seen, missed: bool, blockSize: nat) {
    step.CommitStep? && Lasts(step, blockSize) && v.usable ==> v'.usable || missed
  }

  /** The commit is carried out to its end. */
  predicate Completes(v: Seen, step: Step, blockSize: nat)
    requires step.CommitStep?
  {
    if Fitting(v, step, blockSize) then step.appendFate.Survives?
    else Compacting(v, step, blockSize) && HasRoom(4, NULL, step.contents, blockSize) && step.compactFate.Survives?
  }

  /** What an append that has room leaves behind the log. */
  predicate AppendLeaves(v: Seen, step: Step, v': Seen, progSize: nat)
    requires step.CommitStep? && progSize > 0
  {
    var f, n := step.appendFate, |Body(v.tag, step.attrs)|;
    && (v'.mixed <==> v.mixed || !v.clean)
    && (if FirstDone(f) then v.end < v'.end else v'.end == v.end && v'.tag == v.tag)
    && (f.Survives? ==> v'.end == AlignUp(v.end + n + 8, progSize))
    && (Whole(f) ==> (v'.clean <==> FirstDone(f) || v.clean))
    && (f.LostAfter? && f.pieces == 0 && 0 < f.bytes <= n ==> !v'.clean)
  }

  /** What a compaction leaves behind the contents, once their checksum is programmed. */
  predicate CompactLeaves(step: Step, v': Seen, progSize: nat)
    requires step.CommitStep? && progSize > 0
  {
    && !v'.mixed && v'.end > 4
    && (step.compactFate.Survives? ==> v'.end == AlignUp(4 + |Body(NULL, step.contents)| + 8, progSize))
    && (Whole(step.compactFate) ==> v'.clean)
  }

  /** A commit of which nothing else gets to the device. */
  predicate Leaves(v: Seen, step: Step, v': Seen, blockSize: nat, progSize: nat)
    requires step.CommitStep? && progSize > 0
  {
    && (v'.usable <==> Completes(v, step, blockSize))
    && if Fitting(v, step, blockSize) then AppendLeaves(v, step, v', progSize)
       else if Compacting(v, step, blockSize) && Rewrites(step, blockSize) then CompactLeaves(step, v', progSize)
       else v' == v.(usable := false)
  }

  /** One step of a run. */
  predicate Moves(v: Seen, step: Step, v': Seen, blockSize: nat, progSize: nat)
    requires progSize > 0
  {
    match step
    case FetchStep =>
      // the space behind the log counts as erased exactly if it is not programmed, and a commit can start there
      v' == v.(erased := v.clean && v.end % progSize == 0 && v.end + 4 <= blockSize, usable := true)
    case PowerStep => v' == v.(usable := false)
    case CommitStep(_, _, _, _, _, _, _) =>
      if !v.usable then v' == v
      else
        && Follows(v, step, v'.log, blockSize) && v'.erased == v.erased
        && (v'.usable ==> v'.clean && v'.end % progSize == 0)
        && (Certain(step) ==> Leaves(v, step, v', blockSize, progSize))
  }

  /** The versions of a run: each step moves from one to the next, and keeps the directory usable if it lasts. */
  predicate Moved(versions: seq<Seen>, steps: seq<Step>, missed: bool, blockSize: nat, progSize: nat)
    requires progSize > 0
  {
    && |versions| <= |steps| + 1
    && forall i :: 0 <= i < |versions| - 1 ==>
         && Moves(versions[i], steps[i], versions[i + 1], blockSize, progSize)
         && StaysUsable(versions[i], steps[i], versions[i + 1], missed && i == |versions| - 2, blockSize)
  }

  lemma NothingMoved(versions: seq<Seen>, steps: seq<Step>, blockSize: nat, progSize: nat)
    requires progSize > 0 && |versions| == 1
    ensures Moved(versions, steps, false, blockSize, progSize)
  {
  }

  lemma MovedOn(versions: seq<Seen>, steps: seq<Step>, v: Seen, missed: bool, blockSize: nat, progSize: nat)
    requires progSize > 0 && Moved(versions, steps, false, blockSize, progSize) && 0 < |versions| <= |steps|
    requires var i := |versions| - 1;
             Moves(versions[i], steps[i], v, blockSize, progSize)
             && StaysUsable(versions[i], steps[i], v, missed, blockSize)
    ensures Moved(versions + [v], steps, missed, blockSize, progSize)
  {
    hide Moves, StaysUsable;
  }

  /** The append of a commit was the end of it. */
  lemma MovesByAppend(v: Seen, step: Step, v': Seen, blockSize: nat, progSize: nat)
    requires progSize > 0 && v.usable && step.CommitStep? && (v.erased || step.count >= 0xff)
    requires v'.erased == v.erased && v'.log == Appended(v, step, blockSize)
    requires Certain(step) ==>
               if HasRoom(v.end, v.tag, step.attrs, blockSize)
                 then AppendLeaves(v, step, v', progSize) && (v'.usable <==> step.appendFate.Survives?)
               else !Alive(step.appendFate) && v' == v.(usable := false)
    requires v'.usable ==> v'.clean && v'.end % progSize == 0
    ensures Moves(v, step, v', blockSize, progSize)
  {
    hide HasRoom, AppendLeaves;
  }

  /** The compaction was the end of it. */
  lemma MovesByCompact(v: Seen, step: Step, v': Seen, blockSize: nat, progSize: nat)
    requires progSize > 0 && v.usable && step.CommitStep? && v'.erased == v.erased
    requires Certain(step) ==> Compacting(v, step, blockSize)
    requires v'.log == if Rewrites(step, blockSize) then step.contents else Appended(v, step, blockSize)
    requires Certain(step) ==>
               && (v'.usable <==> HasRoom(4, NULL, step.contents, blockSize) && step.compactFate.Survives?)
               && if Rewrites(step, blockSize) then CompactLeaves(step, v', progSize) else v' == v.(usable := false)
    requires v'.usable ==> v'.clean && v'.end % progSize == 0
    ensures Moves(v, step, v', blockSize, progSize)
  {
    hide HasRoom, CompactLeaves;
  }

  /** Power lost before the checksum of an append leaves something programmed behind the log. */
  lemma EarlyTop(t: Tip, top: nat, attrs: seq<Attr>, fate: Fate, h: Half)
    requires CutOff(t, top, attrs, fate, h)
    ensures fate.LostAfter? && fate.pieces == 0 && 0 < fate.bytes <= |Body(t.etag, attrs)| ==> h.top > t.off
  {
    hide CutOff, Body;
    if fate.LostAfter? && fate.pieces == 0 && 0 < fate.bytes <= |Body(t.etag, attrs)| {
      assert fate == LostAfter(0, fate.bytes);
      CutOffEarly(t, top, attrs, fate.bytes, h);
    }
  }

  /** A commit is tried as an append: behind an aligned end with nothing programmed, or with 255 entries. */
  predicate Tries(v: Seen, step: Step, progSize: nat)
    requires step.CommitStep? && progSize > 0
  {
    (v.clean && v.end % progSize == 0) || step.count >= 0xff
  }

  /**
    A fetch and then a commit in which nothing is lost: what is committed is appended exactly if that is
    tried and fits; otherwise the compacted contents take the place of the log.
   */
  lemma FetchAndCommit(v: Seen, v1: Seen, step: Step, v2: Seen, blockSize: nat, progSize: nat)
    requires progSize > 0 && Moves(v, FetchStep, v1, blockSize, progSize)
    requires step.CommitStep? && Certain(step) && Moves(v1, step, v2, blockSize, progSize)
    requires step.appendFate.Survives? && step.compactFate.Survives? && HasRoom(4, NULL, step.contents, blockSize)
    ensures v2.usable && v2.clean && v2.end % progSize == 0
    ensures if Tries(v, step, progSize) && HasRoom(v.end, v.tag, step.attrs, blockSize)
              then v2.log == v.log + step.attrs
                   && v2.end == AlignUp(v.end + |Body(v.tag, step.attrs)| + 8, progSize)
            else v2.log == step.contents && v2.end == AlignUp(4 + |Body(NULL, step.contents)| + 8, progSize)
  {
    hide Body, AlignUp;
    AlignUpIsLeast(v.end + |Body(v.tag, step.attrs)| + 8, progSize, 0);
    AlignUpIsLeast(4 + |Body(NULL, step.contents)| + 8, progSize, 0);
  }

  /** Where the append is tried and fits it alone decides, whatever becomes of it. */
  lemma FetchAndAppend(v: Seen, v1: Seen, step: Step, v2: Seen, blockSize: nat, progSize: nat)
    requires progSize > 0 && Moves(v, FetchStep, v1, blockSize, progSize)
    requires step.CommitStep? && Certain(step) && Moves(v1, step, v2, blockSize, progSize)
    requires Tries(v, step, progSize) && HasRoom(v.end, v.tag, step.attrs, blockSize)
    ensures v2.log == if FirstDone(step.appendFate) then v.log + step.attrs else v.log
    ensures v2.usable <==> step.appendFate.Survives?
  {
    hide Body, AlignUp;
  }

  lemma SingleBody(etag: Word, a: Attr)
    requires Ok(a)
    ensures Body(etag, [a]) == Be(Xor(a.tag, etag)) + a.data && |Body(etag, [a])| == DSize(a.tag)
  {
    hide Be, Xor, DSize, IsValid, IsCrc;
    assert [a][1..] == [];
    assert Body(etag, [a]) == Be(Xor(a.tag, etag)) + a.data + [];
  }

  /** The word there is not a tag even with no tag before it, as erased flash reads. */
  predicate Blank(block: seq<bv8>, off: nat) {
    off + 4 <= |block| && !IsValid(FromBe(block[off..off + 4]))
  }

  /** A fetch finds the log and no erased space behind it. */
  predicate FoundDirty(block: seq<bv8>, progSize: nat, log: seq<Attr>, off: nat, etag: Word) {
    progSize > 0 && |block| >= 4 && FetchBlock(block, progSize) == Fetched(off, etag, log, false)
  }

  lemma SingleScan(block: seq<bv8>, off: nat, etag: Word, crc: Word, a: Attr, next: nat)
    requires Ok(a) && next == off + DSize(a.tag) && Blank(block, next)
    requires block[off..off + 4] == Be(Xor(a.tag, etag))
    ensures Scan(block, off, etag, crc) == Stop(false)
  {
    hide Be, Xor, FromBe, DSize, IsValid, IsCrc, Checksum, NextTag, Scan;
    ReadsBack(block, off, a.tag, etag);
    ScanUnfold(block, off, etag, crc);
    var crc' := Checksum(Checksum(crc, block[off..off + 4]), block[off + 4..next]);
    ValidXor(FromBe(block[next..next + 4]), a.tag);
    ScanUnfold(block, next, a.tag, crc');
  }

  /**
    Power lost between the only attribute of a commit and its checksum: the log stands, the space behind it
    is used up.
   */
  lemma TornLeavesDirt(h: Half, progSize: nat, log: seq<Attr>, off: nat, etag: Word, a: Attr, data: seq<bv8>)
    requires Holds(h, progSize, log, off, etag) && Ok(a) && data == Body(etag, [a]) && Blank(h.block, off + |data|)
    ensures var torn := Overwrite(h.block, off, data);
            FoundDirty(torn, progSize, log, off, etag)
            && Holds(Half(torn, off + |data|, h.mixed), progSize, log, off, etag)
  {
    hide Scan, Walk, Checksum, Overwrite, Revision, Leads, Ends, Body, FetchBlock, IsValid, FromBe, Be, Xor, DSize,
      Holds;
    var t := Tip(h.block, off, etag, NULL);
    var torn := Overwrite(h.block, off, data);
    HoldsLeads(h, progSize, log, off, etag);
    HoldsSize(h, progSize, log, off, etag);
    SingleBody(etag, a);
    OverwriteKeeps(h.block, off, data);
    assert torn[off..off + 4] == torn[off..off + |data|][..4] == Be(Xor(a.tag, etag));
    assert torn[off + |data|..off + |data| + 4] == torn[off + |data|..][..4] == h.block[off + |data|..off + |data| + 4];
    SingleScan(torn, off, etag, NULL, a, off + |data|);
    WrittenBehind(t, log, data);
    DirtyFetch(torn, progSize, log, off, etag);
    EndsDirty(torn, off + |data|, progSize, off, etag);
    LeadsHolds(Half(torn, off + |data|, h.mixed), progSize, log, off, etag);
  }

  lemma EndsDirty(block: seq<bv8>, top: nat, progSize: nat, off: nat, etag: Word)
    requires progSize > 0 && Scan(block, off, etag, NULL) == Stop(false) && top > off
    ensures Ends(block, top, progSize, off, etag, NULL)
  {
    hide Scan;
  }

  lemma DirtyFetch(block: seq<bv8>, progSize: nat, log: seq<Attr>, off: nat, etag: Word)
    requires progSize > 0 && Leads(Tip(block, off, etag, NULL), log) && Scan(block, off, etag, NULL) == Stop(false)
    ensures FoundDirty(block, progSize, log, off, etag)
  {
    hide Walk, Scan, FetchFrom, Checksum;
    FetchFollows(block, progSize, 4, NULL, Seed(block), [], off);
    assert [] + log == log;
    FetchUnfold(block, progSize, off, etag, NULL, log);
  }

  class Pair {
    const blockSize: nat
    const progSize: nat

    // the two blocks on the device
    var halves: seq<Half>

    // lfs_mdir_t: which block a fetch or commit found current, its revision, tip and erased flag
    var mounted: bool
    var cur: nat
    var rev: Word
    var off: nat
    var etag: Word
    var erased: bool

    // the last completed commit: its block, its log, where it ends
    ghost var main: nat
    ghost var log: seq<Attr>
    ghost var end: nat
    ghost var endTag: Word

    /** Block and program sizes as lfs_init demands. */
    ghost predicate Sized()
      reads this
    {
      Divides(progSize, blockSize) && blockSize >= 16 && Two(halves, blockSize) && main < 2 && 4 < end <= blockSize
    }

    /** The log is on the block up to its end, whatever follows it there. */
    ghost predicate Intact()
      reads this
    {
      Sized() && Leads(Tip(halves[main].block, end, endTag, NULL), log)
    }

    /** A fetch finds exactly the log. */
    ghost predicate Stored()
      reads this
    {
      Sized() && Keeps(halves, progSize, main, log, end, endTag)
    }

    /** What was programmed behind the log without being committed checks nevertheless. */
    ghost predicate TornChecks()
      requires Sized()
      reads this
    {
      Unnoticed(Tip(halves[main].block, end, endTag, NULL))
    }

    /** Something on the other block checks, with a revision that is not older. */
    ghost predicate OtherWins()
      requires Sized()
      reads this
    {
      !Superseded(halves[1 - main].block, halves[main].block, progSize)
    }

    /** The directory in memory goes on behind a commit that is not on the device, because what is there checks. */
    ghost predicate Masked()
      requires Sized()
      reads this
    {
      && mounted && cur == main && end < off <= blockSize
      && exists at: nat :: end <= at && at + 8 <= off && Checks(halves[main].block, end, at, off, off)
    }

    /** A checksum failed to notice that something is not what was programmed. */
    ghost predicate Fooled()
      requires Sized()
      reads this
    {
      TornChecks() || OtherWins() || Masked()
    }

    /** The directory in memory is the block with the log. */
    ghost predicate Placed()
      requires Stored()
      reads this
    {
      mounted && cur == main && Newer(Next(rev), Revision(halves[main].block))
    }

    /** The directory in memory is the one on disk. */
    ghost predicate Current()
      requires Stored()
      reads this
    {
      Placed() && off == end && etag == endTag
    }

    /** A commit can start from the directory in memory. */
    ghost predicate Usable()
      reads this
    {
      Stored() && Current()
    }

    /** The log is there, but a checksum was fooled. */
    ghost predicate Misled()
      reads this
    {
      Intact() && Fooled()
    }

    /** And if it says the space behind it is erased, it is. */
    ghost predicate Fresh()
      requires Stored()
      reads this
    {
      Current() && (erased && !halves[main].mixed ==> halves[main].top <= end)
    }

    /** The guard in front of the append of lfs_dir_commit; the count is that of the directory after the commit. */
    predicate Appends(count: nat)
      reads this
    {
      erased || count >= 0xff
    }

    /** The append programs bytes a second time without an erase. */
    predicate Reprograms(count: nat)
      requires |halves| == 2 && cur < 2
      reads this
    {
      Appends(count) && !halves[cur].mixed && halves[cur].top > off
    }

    /** As a fetch leaves it: erased if a commit can start there and nothing is programmed. */
    ghost predicate Looked()
      requires Stored()
      reads this
    {
      Fresh() && (erased <==> off % progSize == 0 && off + 4 <= blockSize && halves[main].top <= end)
    }

    /** The exact guard: a directory that counts 255 entries or more and whose space was not found erased. */
    lemma ReprogramsOnlyWhenFull(count: nat)
      requires Stored() && Fresh()
      ensures Reprograms(count) ==> !erased && count >= 0xff
      ensures Looked() && off % progSize == 0 && off + 4 <= blockSize && !halves[main].mixed ==>
                (Reprograms(count) <==> !erased && count >= 0xff)
    {
      hide Keeps, Divides, Newer, Revision;
    }

    /** lfs_dir_alloc and the first compaction: the other block may hold anything. */
    constructor Create(blockSize: nat, progSize: nat, other: Half, left: seq<bv8>, contents: seq<Attr>)
      requires Divides(progSize, blockSize) && blockSize >= 16 && |other.block| == |left| == blockSize
      requires AllOk(contents) && HasRoom(4, NULL, contents, blockSize)
      ensures Stored() && Fresh() && log == contents && this.blockSize == blockSize && this.progSize == progSize
      ensures progSize > 0 && end == AlignUp(4 + |Body(NULL, contents)| + 8, progSize)
              && halves[main].block[end..] == left[end..]
      ensures !halves[main].mixed && halves[main].top <= end && !erased
      ensures Revision(halves[main].block) == FirstAfter(Revision(other.block))
    {
      hide Divides, AlignUp, Keeps, Holds, Superseded, Body, AllOk, AllFit, PutAll, Header, Stopped, StoppedTop,
        Revision, Newer, Writer.Valid, NULL, FirstAfter, Spaced, Le;
      this.blockSize, this.progSize := blockSize, progSize;
      var first := FirstAfter(Revision(other.block));
      FirstRevision(Revision(other.block));
      HeaderIs(first, left);
      var w := new Writer.Rewrite(left, Le(first.bits));
      var room, at, pieces, data := Prepare(w, contents, progSize);
      var t := Header(first, left);
      var h := Half(w.block, StoppedTop(t, contents, pieces, |pieces|, 0, 4), false);
      FirstCompaction(other, progSize, first, left, contents, pieces, h);
      halves := [other, h];
      mounted, cur, rev, off, etag, erased := true, 1, first, w.off, w.ptag, false;
      main, log, end, endTag := 1, contents, w.off, w.ptag;
      NextIsNewer(first);
    }

    /** lfs_dir_fetch: the newer revision first, the other block if nothing in it checks. */
    method Mount() returns (ok: bool, attrs: seq<Attr>)
      requires Stored()
      modifies this`mounted, this`cur, this`rev, this`off, this`etag, this`erased
      ensures Stored() && Looked()
      ensures ok && attrs == log && erased == FetchBlock(halves[main].block, progSize).erased
      ensures Sized() && rev == Revision(halves[main].block)
    {
      hide Keeps, FetchBlock, Found, Newer, Revision, Divides;
      StoredSizes();
      var revs := [Revision(halves[0].block), Revision(halves[1].block)];
      var r := 0;
      if Newer(revs[0], revs[1]) {
        r := 0;
      }
      if Newer(revs[1], revs[0]) {
        r := 1;
      }
      KeepsFetch(halves, progSize, main, log, end, endTag, r);
      NextIsNewer(revs[main]);
      var i := 0;
      while i < 2
        invariant i <= 2 && r < 2 && (i == 1 ==> r == main) && i < 2
        invariant i == 0 ==> r == main || !Found(FetchBlock(halves[r].block, progSize))
        decreases 2 - i
      {
        var f := Fetch(halves[r].block, progSize);
        if Found(f) {
          mounted, cur, rev, off, etag, erased := true, r, revs[r], f.off, f.etag, f.erased;
          return true, f.attrs;
        }
        i, r := i + 1, 1 - r;
      }
      return false, [];
    }

    /**
      The append in lfs_dir_commit. Without room, the caches may have let `spill` bytes through. Whatever
      becomes of it, the committed bytes stay, and the log grows by all attributes or none.
     */
    method Append(attrs: seq<Attr>, spill: nat, fate: Fate) returns (out: Outcome)
      requires Stored() && Current()
      requires AllOk(attrs) && attrs != [] && WholeWords(spill) && WholeFate(fate)
      modifies this
      ensures Intact() && main == old(main) && halves[1 - main] == old(halves)[1 - main]
      ensures halves[main].block[..old(end)] == old(halves)[main].block[..old(end)]
      ensures if HasRoom(old(end), old(endTag), attrs, blockSize) && FirstDone(fate) then log == old(log) + attrs
              else log == old(log) && end == old(end) && endTag == old(endTag)
      ensures out == Missed ==> TornChecks() || (fate.Garbled? && Masked())
      ensures out == Missed ==> spill > 0 || (fate.LostAfter? && fate.bytes > 0) || fate.Garbled?
      ensures out != Missed ==> Stored()
      ensures HasRoom(old(end), old(endTag), attrs, blockSize) && !fate.Garbled? ==>
                CutOff(Tip(old(halves)[main].block, old(end), old(endTag), NULL), old(halves)[main].top, attrs, fate,
                       halves[main])
      ensures !HasRoom(old(end), old(endTag), attrs, blockSize) && spill == 0 && !fate.Garbled? ==>
                halves == old(halves)
      ensures halves[main].mixed ==> fate.Garbled? || old(halves)[main].mixed || old(halves)[main].top > old(end)
      ensures HasRoom(old(end), old(endTag), attrs, blockSize) && !fate.Garbled? ==>
                (halves[main].mixed <==> old(halves)[main].mixed || old(halves)[main].top > old(end))
      ensures HasRoom(old(end), old(endTag), attrs, blockSize) && !fate.Garbled? && Whole(fate) ==>
                if FirstDone(fate) then halves[main].top <= end else halves[main].top == old(halves)[main].top
      ensures HasRoom(old(end), old(endTag), attrs, blockSize) && FirstDone(fate) ==> old(end) < end
      ensures out == Committed ==>
                HasRoom(old(end), old(endTag), attrs, blockSize) && FirstDone(fate) && Alive(fate) && Current()
      ensures out == Committed ==> progSize > 0 && end == AlignUp(old(end) + |Body(old(endTag), attrs)| + 8, progSize)
      ensures out == Committed ==> halves[main].top <= end
      ensures out == Committed ==> SameFrom(halves[main].block, old(halves)[main].block, end)
      ensures out == NoSpace ==> !HasRoom(old(end), old(endTag), attrs, blockSize) && Alive(fate) && Placed()
      ensures out == Corrupt ==>
                HasRoom(old(end), old(endTag), attrs, blockSize) && fate.Garbled? && fate.alive && Placed()
      ensures out == Down ==> !Alive(fate) && !mounted
      ensures erased == old(erased)
    {
      hide Divides, AlignUp, Keeps, Body, AllOk, AllFit, PutAll, Revision, Newer, Writer.Valid, NULL, CutOff, Checks,
        Leads, Unnoticed, Superseded, SameFrom;
      var w := new Writer.Append(halves[cur].block, off, etag);
      var room, at, pieces, data := Prepare(w, attrs, progSize);
      if !room {
        out := GiveUp(w.attrs, data, spill, fate);
      } else if fate.Garbled? && fate.pieces < |pieces| {
        out := Garble(attrs, pieces, fate, at, w.off, w.ptag);
      } else {
        out := Finish(attrs, pieces, fate);
      }
    }

    /** The attributes do not all fit: some of those that did may be on the device. */
    method GiveUp(attrs: seq<Attr>, data: seq<bv8>, spill: nat, fate: Fate) returns (out: Outcome)
      requires Stored() && Current() && WholeWords(spill)
      requires AllOk(attrs) && data == Body(endTag, attrs) && end + |data| <= blockSize
      modifies this`halves, this`mounted
      ensures Intact() && halves[1 - main] == old(halves)[1 - main]
      ensures halves[main].block[..end] == old(halves)[main].block[..end]
      ensures out == Missed ==> (spill > 0 || fate.Garbled?) && TornChecks()
      ensures out != Missed ==> Stored() && out == if Alive(fate) then NoSpace else Down
      ensures spill == 0 && !fate.Garbled? ==> halves == old(halves)
      ensures !fate.Garbled? && 0 < spill <= |data| ==>
                halves[main].block == Overwrite(old(halves)[main].block, end, data[..spill])
                && halves[main].top == end + spill
      ensures halves[main].mixed ==> fate.Garbled? || old(halves)[main].mixed || old(halves)[main].top > old(end)
      ensures out == NoSpace ==> Placed()
      ensures out == Down ==> !mounted
    {
      hide Divides, Keeps, Body, AllOk, Unnoticed, Overwrite, Revision, Newer, NULL, Leads, AllFit, MixedTop, Spoiled;
      var h := halves[cur];
      KeepsLeads(halves, progSize, main, log, end, endTag);
      if fate.Garbled? {
        NoPieces(Tip(h.block, off, etag, NULL), attrs);
        GarbleKeeps(halves, blockSize, progSize, cur, log, off, etag, attrs, [], 0, fate.noise);
        var block := Spoiled(Tip(h.block, off, etag, NULL), fate.noise);
        halves := halves[cur := Half(block, MixedTop(block, off, etag), true)];
      } else if 0 < spill && spill <= |data| {
        var mixed := h.mixed || h.top > off;
        SpillKeeps(halves, blockSize, progSize, cur, log, off, etag, attrs, data, spill, mixed);
        halves := halves[cur := Half(Overwrite(h.block, off, data[..spill]), off + spill, mixed)];
      } else {
        KeepsStops(halves, progSize, main, log, end, endTag);
      }
      if Unnoticed(Tip(halves[cur].block, off, etag, NULL)) {
        return Missed;
      }
      mounted := Alive(fate);
      return if mounted then NoSpace else Down;
    }

    /** The device has a longer log on the same block, or the same with something behind it. */
    method Settle(h: Half, ghost newLog: seq<Attr>, at: nat, tag: Word, torn: bool)
      requires Stored() && cur == main && |h.block| == blockSize && end <= at <= blockSize
      requires Leads(Tip(h.block, at, tag, NULL), newLog) && h.block[..end] == halves[main].block[..end]
      requires if torn then Unnoticed(Tip(h.block, at, tag, NULL))
               else Keeps(halves[main := h], progSize, main, newLog, at, tag)
      modifies this`halves, this`log, this`end, this`endTag
      ensures Intact() && halves[1 - main] == old(halves)[1 - main] && halves[main] == h
      ensures log == newLog && end == at && endTag == tag
      ensures if torn then TornChecks() else Stored()
    {
      hide Divides, Keeps, Unnoticed, NULL, Leads;
      halves := halves[cur := h];
      log, end, endTag := newLog, at, tag;
    }

    /** The pieces of an append go to the device, as far as the power lasts. */
    method Finish(attrs: seq<Attr>, pieces: seq<Piece>, fate: Fate) returns (out: Outcome)
      requires Stored() && Current() && WholeFate(fate)
      requires AllFit(Tip(halves[main].block, end, endTag, NULL), attrs, pieces) && pieces != []
      requires Body(endTag, attrs) < pieces[0].data && (fate.Garbled? ==> fate.pieces >= |pieces|)
      modifies this
      ensures Intact() && main == old(main) && halves[1 - main] == old(halves)[1 - main] && erased == old(erased)
      ensures halves[main].block[..old(end)] == old(halves)[main].block[..old(end)]
      ensures if FirstDone(fate) then log == old(log) + attrs
              else log == old(log) && end == old(end) && endTag == old(endTag)
      ensures out == Missed ==> fate.LostAfter? && fate.bytes > 0 && TornChecks()
      ensures out != Missed ==> Stored() && out == if Alive(fate) then Committed else Down
      ensures CutOff(Tip(old(halves)[main].block, old(end), old(endTag), NULL), old(halves)[main].top, attrs, fate,
                     halves[main])
      ensures halves[main].mixed <==> old(halves)[main].mixed || old(halves)[main].top > old(end)
      ensures Whole(fate) ==>
                if FirstDone(fate) then halves[main].top <= end else halves[main].top == old(halves)[main].top
      ensures FirstDone(fate) ==> old(end) < end
      ensures out == Committed ==> Current() && halves[main].top <= end
      ensures out == Committed ==>
                end == PutAll(Tip(old(halves)[main].block, old(end), old(endTag), NULL), attrs, pieces).off
      ensures out == Committed ==> SameFrom(halves[main].block, old(halves)[main].block, end)
      ensures out == Down ==> !mounted
    {
      hide Divides, Keeps, Stopped, StoppedTop, Unnoticed, AllFit, PutAll, Revision, Newer, NULL, Leads, Body, CutOff,
        SameFrom;
      var h := halves[cur];
      var t := Tip(h.block, off, etag, NULL);
      var i, k := PiecesOf(fate, pieces), BytesOf(fate, pieces);
      var mixed := h.mixed || h.top > off;
      AppendKeeps(halves, blockSize, progSize, cur, log, off, etag, attrs, pieces, i, k, mixed);
      var s := Stopped(t, attrs, pieces, i, k);
      var h' := Half(s.block, StoppedTop(t, attrs, pieces, i, k, h.top), mixed);
      CutOffWith(t, h.top, attrs, fate, h', pieces);
      StoppedTail(t, attrs, pieces, i);
      var torn := k > 0 && Unnoticed(s);
      Settle(h', SoFar(log, attrs, i), s.off, s.etag, torn);
      off, etag, mounted := s.off, s.etag, Alive(fate);
      if torn {
        return Missed;
      }
      return if mounted then Committed else Down;
    }

    /** Only some pieces arrive; the second look at the checksums finds out, unless they check. */
    method Garble(attrs: seq<Attr>, pieces: seq<Piece>, fate: Fate, at: nat, to: nat, tag: Word) returns (out: Outcome)
      requires Stored() && Current() && fate.Garbled? && fate.pieces < |pieces|
      requires AllFit(Tip(halves[main].block, end, endTag, NULL), attrs, pieces)
      requires end <= at && at + 8 <= to <= blockSize
               && PutAll(Tip(halves[main].block, end, endTag, NULL), attrs, pieces).off == to
      requires Spaced(pieces, at, to)
      modifies this
      ensures Intact() && main == old(main) && halves[1 - main] == old(halves)[1 - main] && erased == old(erased)
      ensures halves[main].block[..old(end)] == old(halves)[main].block[..old(end)] && halves[main].mixed
      ensures if FirstDone(fate) then log == old(log) + attrs
              else log == old(log) && end == old(end) && endTag == old(endTag)
      ensures out == Missed ==> TornChecks() || Masked()
      ensures out != Missed ==> Stored() && out == if fate.alive then Corrupt else Down
      ensures FirstDone(fate) ==> old(end) < end
      ensures out == Corrupt ==> Placed()
      ensures out == Down ==> !mounted
    {
      hide Divides, Keeps, PutFirst, PutAll, Unnoticed, AllFit, Revision, Newer, NULL, Leads, Checks, Spoiled,
        MixedTop, Spaced, StartAt, Masked;
      var h := halves[cur];
      var t := Tip(h.block, off, etag, NULL);
      var i := fate.pieces;
      PiecesAdvance(t, attrs, pieces, i);
      var ti := PutFirst(t, attrs, pieces, i);
      GarbleKeeps(halves, blockSize, progSize, cur, log, off, etag, attrs, pieces, i, fate.noise);
      var block := Spoiled(ti, fate.noise);
      var torn := Unnoticed(Tip(block, ti.off, ti.etag, NULL));
      Settle(Half(block, MixedTop(block, ti.off, ti.etag), true), SoFar(log, attrs, i), ti.off, ti.etag, torn);
      mounted := fate.alive;
      if torn {
        return Missed;
      }
      out := Down;
      if fate.alive {
        PutFirstEnds(t, attrs, pieces, i, at);
        out := LookAgain(pieces, i, at, to, tag);
      }
    }

    /** The second look at the checksums of a commit that is not what was programmed. */
    method LookAgain(ghost pieces: seq<Piece>, ghost i: nat, at: nat, to: nat, tag: Word) returns (out: Outcome)
      requires Stored() && Placed() && off <= at && at + 8 <= to <= blockSize && end < to
      requires Spaced(pieces, at, to) && i < |pieces| && end == if i == 0 then off else StartAt(pieces, at, i)
      modifies this`off, this`etag
      ensures Stored() && if out == Missed then Masked() else out == Corrupt && Placed()
    {
      hide Divides, Keeps, Revision, Newer, NULL, Checks, Spaced;
      var good := Recheck(halves[cur].block, off, at, to);
      if good {
        ChecksFrom(halves[main].block, off, at, to, pieces, i);
        off, etag := to, tag;
        return Missed;
      }
      return Corrupt;
    }

    /** lfs_dir_compact onto the other block, which erase leaves in some unknown state. */
    method Compact(contents: seq<Attr>, left: seq<bv8>, spill: nat, fate: Fate) returns (out: Outcome)
      requires Stored() && Placed() && AllOk(contents) && |left| == blockSize && WholeWords(spill) && WholeFate(fate)
               && !fate.Garbled?
      modifies this
      ensures Intact() && halves[old(main)] == old(halves)[old(main)]
      ensures if HasRoom(4, NULL, contents, blockSize) && FirstDone(fate) then log == contents && main == 1 - old(main)
              else log == old(log) && main == old(main) && end == old(end) && endTag == old(endTag)
      ensures out == Missed ==>
                (TornChecks() || OtherWins()) && (!fate.Survives? || !HasRoom(4, NULL, contents, blockSize))
      ensures out != Missed ==> Stored()
      ensures out != Missed ==>
                out ==
                  if !fate.Survives? then Down else if HasRoom(4, NULL, contents, blockSize) then Committed else NoSpace
      ensures fate.LostErasing? ==> halves[1 - old(main)] == Half(left, 0, false)
      ensures HasRoom(4, NULL, contents, blockSize) && !fate.LostErasing? ==>
                CutOff(Header(Next(old(rev)), left), 4, contents, fate, halves[1 - old(main)])
      ensures HasRoom(4, NULL, contents, blockSize) && FirstDone(fate) ==>
                !halves[main].mixed && end > 4 && (Whole(fate) ==> halves[main].top <= end)
      ensures out == Committed ==> Current() && !halves[main].mixed && halves[main].top <= end
      ensures out == Committed ==> progSize > 0 && end == AlignUp(4 + |Body(NULL, contents)| + 8, progSize)
      ensures out == NoSpace ==> mounted && cur == main
      ensures HasRoom(4, NULL, contents, blockSize) && FirstDone(fate) ==>
                Revision(halves[main].block).bits == old(rev).bits + 1
      ensures out == Down ==> !mounted
      ensures erased == old(erased)
    {
      hide Divides, AlignUp, Keeps, Body, AllOk, Revision, Newer, NULL, CutOff, Leads, Unnoticed, Superseded, Header;
      rev := Next(rev);
      if fate.LostErasing? {
        out := Wipe(Half(left, 0, false));
        mounted := false;
      } else {
        out := Rewrite(contents, left, spill, fate);
      }
    }

    /** The commit onto the erased block. */
    method Rewrite(contents: seq<Attr>, left: seq<bv8>, spill: nat, fate: Fate) returns (out: Outcome)
      requires Stored() && mounted && cur == main && Newer(rev, Revision(halves[main].block))
      requires AllOk(contents) && |left| == blockSize && WholeWords(spill) && WholeFate(fate) && !fate.LostErasing?
               && !fate.Garbled?
      modifies this
      ensures Intact() && halves[old(main)] == old(halves)[old(main)] && erased == old(erased)
      ensures if HasRoom(4, NULL, contents, blockSize) && FirstDone(fate) then log == contents && main == 1 - old(main)
              else log == old(log) && main == old(main) && end == old(end) && endTag == old(endTag)
      ensures out == Missed ==>
                (TornChecks() || OtherWins()) && (!fate.Survives? || !HasRoom(4, NULL, contents, blockSize))
      ensures out != Missed ==> Stored()
      ensures out != Missed ==>
                out ==
                  if !fate.Survives? then Down else if HasRoom(4, NULL, contents, blockSize) then Committed else NoSpace
      ensures HasRoom(4, NULL, contents, blockSize) ==>
                CutOff(Header(old(rev), left), 4, contents, fate, halves[1 - old(main)])
      ensures HasRoom(4, NULL, contents, blockSize) && FirstDone(fate) ==>
                !halves[main].mixed && end > 4 && (Whole(fate) ==> halves[main].top <= end)
      ensures out == Committed ==> Current() && !halves[main].mixed && halves[main].top <= end
      ensures out == Committed ==> progSize > 0 && end == AlignUp(4 + |Body(NULL, contents)| + 8, progSize)
      ensures out == NoSpace ==> mounted && cur == main
      ensures HasRoom(4, NULL, contents, blockSize) && FirstDone(fate) ==> Revision(halves[main].block) == old(rev)
      ensures out == Down ==> !mounted
    {
      hide Divides, AlignUp, Keeps, Body, AllOk, AllFit, PutAll, Header, Revision, Newer, Writer.Valid, NULL,
        Overwrite, CutOff, Leads, Unnoticed, Superseded, HasRoom, TornChecks, OtherWins, FirstDone, Stored, Intact,
          Sized, Current, Spaced, Le, Whole;
      StoredSizes();
      HeaderIs(rev, left);
      var w := new Writer.Rewrite(left, Le(rev.bits));
      var room, at, pieces, data := Prepare(w, contents, progSize);
      if room {
        out := Switch(contents, left, pieces, fate);
      } else {
        out := Botch(w.base.block, data, spill, fate);
      }
    }

    /** The contents do not fit, and some of them are on the device. */
    method Botch(block: seq<bv8>, data: seq<bv8>, spill: nat, fate: Fate) returns (out: Outcome)
      requires Stored() && mounted && cur == main && |block| == blockSize && 4 + |data| <= blockSize
      modifies this`halves, this`mounted
      ensures Intact() && halves[main] == old(halves)[main]
      ensures var k := if spill <= |data| then spill else 0;
              halves[1 - main] == Half(Overwrite(block, 4, data[..k]), 4 + k, false)
      ensures out == Missed ==> OtherWins()
      ensures out != Missed ==>
                Stored() && out == (if fate.Survives? then NoSpace else Down) && mounted == fate.Survives?
    {
      hide Divides, Keeps, Overwrite, Leads, Superseded;
      var k := if spill <= |data| then spill else 0;
      out := Wipe(Half(Overwrite(block, 4, data[..k]), 4 + k, false));
      mounted := fate.Survives?;
      if out != Missed && mounted {
        out := NoSpace;
      }
    }

    /** The other block gets contents in which nothing newer checks. */
    method Wipe(h: Half) returns (out: Outcome)
      requires Stored() && cur == main && |h.block| == blockSize
      modifies this`halves
      ensures Intact() && halves[main] == old(halves)[main] && halves[1 - main] == h
      ensures if out == Missed then OtherWins() else out == Down && Stored()
    {
      hide Divides, Keeps, NULL, Leads, Superseded;
      KeepsLeads(halves, progSize, main, log, end, endTag);
      if Superseded(h.block, halves[cur].block, progSize) {
        OtherKeeps(halves, progSize, main, log, end, endTag, h);
        out := Down;
      } else {
        out := Missed;
      }
      halves := halves[1 - cur := h];
    }

    /** The pieces of a compaction go to the device, as far as the power lasts. */
    method Switch(contents: seq<Attr>, left: seq<bv8>, pieces: seq<Piece>, fate: Fate) returns (out: Outcome)
      requires Stored() && mounted && cur == main && |left| == blockSize && WholeFate(fate) && !fate.LostErasing?
               && !fate.Garbled?
      requires Newer(rev, Revision(halves[main].block))
      requires AllFit(Header(rev, left), contents, pieces) && pieces != []
               && Body(Header(rev, left).etag, contents) < pieces[0].data
      modifies this
      ensures Intact() && halves[old(main)] == old(halves)[old(main)] && erased == old(erased)
      ensures if FirstDone(fate) then log == contents && main == 1 - old(main)
              else log == old(log) && main == old(main) && end == old(end) && endTag == old(endTag)
      ensures out == Missed ==> !fate.Survives? && (TornChecks() || OtherWins())
      ensures out != Missed ==> Stored() && out == (if fate.Survives? then Committed else Down)
      ensures CutOff(Header(old(rev), left), 4, contents, fate, halves[1 - old(main)])
      ensures FirstDone(fate) ==> Revision(halves[main].block) == old(rev)
      ensures FirstDone(fate) ==> !halves[main].mixed && end > 4 && (Whole(fate) ==> halves[main].top <= end)
      ensures out == Committed ==> Current() && !halves[main].mixed && halves[main].top <= end
      ensures out == Committed ==> end == PutAll(Header(old(rev), left), contents, pieces).off
      ensures out == Down ==> !mounted
    {
      hide Divides, Keeps, AllFit, PutAll, Header, Stopped, StoppedTop, Unnoticed, Revision, Newer, NULL, Leads,
        Superseded, Body, CutOff;
      var i, k := PiecesOf(fate, pieces), BytesOf(fate, pieces);
      CompactKeeps(halves, progSize, main, log, end, endTag, rev, left, contents, pieces, i, k);
      var t := Header(rev, left);
      var s := Stopped(t, contents, pieces, i, k);
      var h := Half(s.block, StoppedTop(t, contents, pieces, i, k, 4), false);
      CutOffWith(t, 4, contents, fate, h, pieces);
      if i == 0 {
        out := Wipe(h);
        mounted := false;
      } else {
        NextIsNewer(rev);
        out := Replace(contents, h, s.off, s.etag, k > 0 && Unnoticed(s), fate.Survives?);
      }
    }

    /** The other block becomes the one with the log. */
    method Replace(contents: seq<Attr>, h: Half, at: nat, tag: Word, torn: bool, alive: bool) returns (out: Outcome)
      requires Stored() && cur == main && |h.block| == blockSize && 4 < at <= blockSize
      requires Leads(Tip(h.block, at, tag, NULL), contents) && Newer(Next(rev), Revision(h.block)) && !h.mixed
      requires if torn then !alive && Unnoticed(Tip(h.block, at, tag, NULL))
               else Keeps(halves[1 - main := h], progSize, 1 - main, contents, at, tag)
      requires alive ==> h.top <= at
      modifies this
      ensures Intact() && halves[old(main)] == old(halves)[old(main)] && halves[main] == h && erased == old(erased)
      ensures log == contents && main == 1 - old(main) && end == at
      ensures out == Missed ==> torn && TornChecks()
      ensures out != Missed ==> Stored() && out == if alive then Committed else Down
      ensures out == Committed ==> Current()
      ensures out == Down ==> !mounted
    {
      hide Divides, Keeps, Unnoticed, Revision, Newer, NULL, Leads, Superseded, Two;
      TwoStay(halves, blockSize, 1 - main, h);
      halves := halves[1 - cur := h];
      main, log, end, endTag := 1 - main, contents, at, tag;
      mounted := alive;
      if alive {
        cur, off, etag := 1 - cur, at, tag;
      }
      out := if torn then Missed else if alive then Committed else Down;
    }

    /** The append of a commit, which is its end unless there is no room or it is found to be garbled. */
    method TryAppend(attrs: seq<Attr>, spill: nat, fate: Fate, ghost step: Step) returns (out: Outcome)
      requires Stored() && Current() && step.CommitStep? && StepOk(step, blockSize) && Appends(step.count)
      requires attrs == step.attrs && spill == step.spill && fate == step.appendFate
      modifies this
      ensures Intact() && main == old(main) && erased == old(erased) && progSize > 0
      ensures halves[main].block[..old(end)] == old(halves)[main].block[..old(end)]
      ensures log == Appended(old(Now(true)), step, blockSize)
      ensures out == NoSpace || out == Corrupt ==> Stored() && Placed() && Alive(fate)
      ensures (out == NoSpace || out == Corrupt) && !fate.Garbled? ==> !Fitting(old(Now(true)), step, blockSize)
      ensures (out == NoSpace || out == Corrupt) && Certain(step) ==> Now(false) == old(Now(false))
      ensures out == NoSpace || out == Corrupt
              || Moves(old(Now(true)), step, Now(out == Committed), blockSize, progSize)
      ensures out == Missed ==> Fooled() && (!fate.Survives? || spill > 0)
      ensures out != Missed ==> Stored()
      ensures out == Committed ==> Fresh() && log == old(log) + attrs && Fitting(old(Now(true)), step, blockSize)
      ensures out == Down ==> !mounted && !Alive(fate)
    {
      hide Divides, Keeps, Body, AllOk, Revision, Newer, NULL, HasRoom, CutOff, Leads, AlignUp, TornChecks, OtherWins,
        Masked, Moves, Checks, Superseded, SameFrom;
      ghost var v, h := Now(true), halves[main];
      StoredSizes();
      out := Append(attrs, spill, fate);
      if out != NoSpace && out != Corrupt {
        if HasRoom(v.end, v.tag, attrs, blockSize) && !fate.Garbled? {
          EarlyTop(Tip(h.block, v.end, v.tag, NULL), h.top, attrs, fate, halves[main]);
        }
        AlignUpIsLeast(v.end + |Body(v.tag, attrs)| + 8, progSize, 0);
        MovesByAppend(v, step, Now(out == Committed), blockSize, progSize);
      }
    }

    /** The compaction that takes the place of an append. */
    method CompactInstead(contents: seq<Attr>, left: seq<bv8>, spill: nat, fate: Fate, ghost v: Seen, ghost step: Step)
      returns (out: Outcome)
      requires Stored() && Placed() && step.CommitStep? && StepOk(step, blockSize) && progSize > 0 && v.usable
      requires contents == step.contents && left == step.left && spill == step.spill && fate == step.compactFate
      requires erased == v.erased && log == Appended(v, step, blockSize)
      requires Certain(step) ==> Compacting(v, step, blockSize) && Now(true) == v
      modifies this
      ensures Intact() && halves[old(main)] == old(halves)[old(main)]
      ensures log == if Rewrites(step, blockSize) then contents else old(log)
      ensures Moves(v, step, Now(out == Committed), blockSize, progSize)
      ensures out == Missed ==> Fooled() && (!fate.Survives? || !HasRoom(4, NULL, contents, blockSize))
      ensures out != Missed ==>
                Stored()
                && out == (if !fate.Survives? then Down
                           else if HasRoom(4, NULL, contents, blockSize) then Committed else NoSpace)
      ensures out == Committed ==> Fresh() && log == contents
      ensures out == Down ==> !mounted
    {
      hide Divides, Keeps, Body, AllOk, Revision, Newer, NULL, HasRoom, CutOff, Leads, Header, AlignUp, TornChecks,
        OtherWins, Masked, Moves, Superseded;
      out := Compact(contents, left, spill, fate);
      AlignUpIsLeast(4 + |Body(NULL, contents)| + 8, progSize, 0);
      MovesByCompact(v, step, Now(out == Committed), blockSize, progSize);
    }

    /** lfs_dir_commit without relocation: an append if the space is erased, else or if that fails a compaction. */
    method Commit(attrs: seq<Attr>, contents: seq<Attr>, count: nat, left: seq<bv8>, spill: nat, appendFate: Fate,
                  compactFate: Fate)
      returns (out: Outcome)
      requires Stored() && Current()
      requires StepOk(CommitStep(attrs, contents, count, left, spill, appendFate, compactFate), blockSize)
      modifies this
      ensures Intact() && halves[old(main)].block[..old(end)] == old(halves)[old(main)].block[..old(end)]
      ensures var v := old(Now(true));
              var step := CommitStep(attrs, contents, count, left, spill, appendFate, compactFate);
              && progSize > 0 && Moves(v, step, Now(out == Committed), blockSize, progSize)
              && (out != Missed && !appendFate.Garbled? ==> log == After(v, step, blockSize))
              && (Lasts(step, blockSize) ==> out == Committed || out == Missed)
      ensures out == Missed ==> Fooled()
      ensures out == Missed ==>
                !appendFate.Survives? || !compactFate.Survives? || spill > 0 || !HasRoom(4, NULL, contents, blockSize)
      ensures out != Missed ==> Stored()
      ensures out == Committed ==> Fresh() && (log == old(log) + attrs || log == contents)
      ensures out == Down ==> !mounted
    {
      hide Divides, Keeps, Body, AllOk, Revision, Newer, NULL, HasRoom, CutOff, Leads, Header, AlignUp, TornChecks,
        OtherWins, Masked, Moves, Checks, Superseded, SameFrom;
      ghost var v, step := Now(true), CommitStep(attrs, contents, count, left, spill, appendFate, compactFate);
      StoredSizes();
      if Appends(count) {
        out := TryAppend(attrs, spill, appendFate, step);
        if out != NoSpace && out != Corrupt {
          return;
        }
      }
      out := CompactInstead(contents, left, spill, compactFate, v, step);
    }

    method PowerLoss()
      requires Stored()
      modifies this`mounted
      ensures Stored() && !mounted
    {
      hide Divides, Keeps;
      mounted := false;
    }

    /** What there is now. */
    ghost function Now(usable: bool): Seen
      reads this
    {
      var known := main < |halves|;
      Seen(log, end, endTag, known && halves[main].top <= end, known && halves[main].mixed, erased, usable)
    }

    /**
      Any run of commits, fetches and power losses. Each step makes of the log exactly what `Moves`
      says, and the log is on the device. The run stops early only where a checksum was fooled by a
      write that did not complete; otherwise a fetch at the end returns the log.
     */
    method Run(steps: seq<Step>) returns (missed: bool, attrs: seq<Attr>, ghost versions: seq<Seen>)
      requires Stored() && forall i :: 0 <= i < |steps| ==> StepOk(steps[i], blockSize)
      modifies this
      ensures Intact()
      ensures 0 < |versions| <= |steps| + 1 && versions[0] == old(Now(false)) && versions[|versions| - 1].log == log
      ensures progSize > 0 && Moved(versions, steps, missed, blockSize, progSize)
      ensures missed ==> Fooled() && |versions| > 1 && Incomplete(steps[|versions| - 2], blockSize)
      ensures !missed ==> |versions| == |steps| + 1 && Stored() && Fresh() && attrs == log
    {
      hide Stored, Intact, Fooled, StepOk, Moves, Incomplete, Fresh, StaysUsable, Moved;
      StoredSizes();
      StoredIsIntact();
      // a directory in memory is used until a commit with it fails
      var usable := false;
      versions := [Now(usable)];
      NothingMoved(versions, steps, blockSize, progSize);
      for i := 0 to |steps|
        invariant Stored() && Intact() && (usable ==> Usable())
        invariant |versions| == i + 1 && versions[0] == old(Now(false)) && versions[i] == Now(usable)
        invariant Moved(versions, steps, false, blockSize, progSize)
      {
        usable, missed := Take(steps[i], usable);
        MovedOn(versions, steps, Now(usable), missed, blockSize, progSize);
        versions := versions + [Now(usable)];
        if missed {
          return true, [], versions;
        }
        StoredIsIntact();
      }
      var ok, found := Mount();
      StoredIsIntact();
      return false, found, versions;
    }

    /** One step of a run. */
    method Take(step: Step, ready: bool) returns (usable: bool, missed: bool)
      requires Stored() && StepOk(step, blockSize) && (ready ==> Usable())
      modifies this
      ensures progSize > 0 && Moves(old(Now(ready)), step, Now(usable), blockSize, progSize)
      ensures if missed then Misled() && Incomplete(step, blockSize) && !usable else Stored() && (usable ==> Usable())
      ensures StaysUsable(old(Now(ready)), step, Now(usable), missed, blockSize)
    {
      hide Stored, Intact, Fooled, StepOk, Incomplete, Follows, Leaves, Certain, Looked;
      StoredSizes();
      usable, missed := false, false;
      match step {
        case FetchStep =>
          var ok, found := Mount();
          LookedErased();
          usable := true;
        case PowerStep =>
          PowerLoss();
        case CommitStep(a, c, count, left, spill, f, g) =>
          if ready {
            var out := Commit(a, c, count, left, spill, f, g);
            MayBeIncomplete(a, c, count, left, spill, f, g);
            usable, missed := out == Committed, out == Missed;
          }
      }
    }

    /** What a fetch leaves, told from the device. */
    lemma LookedErased()
      requires Stored() && Looked()
      ensures progSize > 0 && Usable()
      ensures erased <==> Now(true).clean && end % progSize == 0 && end + 4 <= blockSize
    {
      hide Keeps, Newer, Revision;
    }

    /** None of this holds of a directory that a commit can start from. */
    lemma UsableIsSound()
      requires Usable()
      ensures Stored() && !Fooled()
    {
      hide Superseded, Holds;
      KeepsStops(halves, progSize, main, log, end, endTag);
    }

    lemma MayBeIncomplete(a: seq<Attr>, c: seq<Attr>, count: nat, left: seq<bv8>, spill: nat, f: Fate, g: Fate)
      ensures !f.Survives? || !g.Survives? || spill > 0 || !HasRoom(4, NULL, c, blockSize) ==>
                Incomplete(CommitStep(a, c, count, left, spill, f, g), blockSize)
    {
      hide HasRoom;
    }

    lemma StoredSizes()
      requires Stored()
      ensures Divides(progSize, blockSize) && blockSize >= 16 && progSize > 0
    {
    }

    lemma StoredIsIntact()
      requires Stored()
      ensures Intact()
    {
      hide Keeps, Leads;
      KeepsLeads(halves, progSize, main, log, end, endTag);
    }
  }

  /**
    An append that loses power behind its only attribute, and a fetch: the space behind the log is used
    up, so if the directory counts 255 entries or more the next commit programs it a second time.
   */
  method TornAppend(p: Pair, a: Attr)
    requires p.Stored() && p.Current() && Ok(a) && HasRoom(p.end, p.endTag, [a], p.blockSize)
    requires !p.halves[p.main].mixed && p.halves[p.main].top <= p.end
    requires Blank(p.halves[p.main].block, p.end + DSize(a.tag))
    modifies p
    ensures p.Stored() && p.Looked() && p.log == old(p.log)
    ensures forall count: nat :: count >= 0xff ==> p.Reprograms(count)
  {
    hide Pair.Stored, Pair.Current, HasRoom, Blank, FetchBlock, DSize, Ok;
    CutShort(p, a);
    var ok, found := p.Mount();
    LookedCurrent(p);
  }

  /** The append. */
  method CutShort(p: Pair, a: Attr)
    requires p.Stored() && p.Current() && Ok(a) && HasRoom(p.end, p.endTag, [a], p.blockSize)
    requires !p.halves[p.main].mixed && p.halves[p.main].top <= p.end
    requires Blank(p.halves[p.main].block, p.end + DSize(a.tag))
    modifies p
    ensures p.Stored() && p.log == old(p.log) && p.halves[p.main].top > p.end && !p.halves[p.main].mixed
    ensures FoundDirty(p.halves[p.main].block, p.progSize, p.log, p.end, p.endTag)
  {
    hide Pair.Masked, Pair.OtherWins, CutOff, Leads, Keeps, Scan, Body, FetchBlock, AlignUp, Divides, HasRoom, Blank,
      Superseded, Holds, DSize, Ok, Newer, Revision, FoundDirty, SameFrom, Spaced;
    ghost var h, off, etag := p.halves[p.main], p.end, p.endTag;
    TagSize(a.tag);
    p.StoredSizes();
    var out := p.Append([a], 0, LostAfter(0, DSize(a.tag)));
    TornHalf(h, off, etag, a, p.halves[p.main]);
    DirtyFetch(p.halves[p.main].block, p.progSize, p.log, p.end, p.endTag);
  }

  lemma TagSize(tag: Word)
    ensures DSize(tag) >= 4
  {
  }

  lemma LookedCurrent(p: Pair)
    requires p.Stored() && p.Looked()
    ensures p.cur == p.main < 2 == |p.halves| && p.off == p.end
  {
  }

  lemma EmptyBody(etag: Word)
    ensures |Body(etag, [])| == 0
  {
  }

  lemma ErasedBlank(block: seq<bv8>, off: nat)
    requires off + 4 <= |block| && forall i :: off <= i < off + 4 ==> block[i] == 0xff
    ensures Blank(block, off)
  {
    hide IsValid, FromBe;
    assert block[off..off + 4] == [0xff, 0xff, 0xff, 0xff];
    ErasedWord();
  }

  lemma ErasedWord()
    ensures !IsValid(FromBe([0xff, 0xff, 0xff, 0xff]))
  {
  }

  lemma TornHalf(h: Half, off: nat, etag: Word, a: Attr, torn: Half)
    requires CutOff(Tip(h.block, off, etag, NULL), h.top, [a], LostAfter(0, DSize(a.tag)), torn) && Ok(a)
    requires Blank(h.block, off + DSize(a.tag))
    ensures torn.top == off + DSize(a.tag) && Scan(torn.block, off, etag, NULL) == Stop(false)
    ensures torn.block[..off] == h.block[..off]
  {
    hide CutOff, Body, Be, Xor, FromBe, IsValid, DSize, Scan, Ok, Overwrite;
    var data := Body(etag, [a]);
    SingleBody(etag, a);
    CutOffEarly(Tip(h.block, off, etag, NULL), h.top, [a], |data|, torn);
    assert data[..|data|] == data;
    OverwriteKeeps(h.block, off, data);
    assert torn.block[off..off + 4] == torn.block[off..off + |data|][..4] == Be(Xor(a.tag, etag));
    assert torn.block[off + |data|..off + |data| + 4] == torn.block[off + |data|..][..4] ==
             h.block[off + |data|..off + |data| + 4];
    SingleScan(torn.block, off, etag, NULL, a, off + |data|);
  }

  lemma KeepsLeads(halves: seq<Half>, progSize: nat, main: nat, log: seq<Attr>, end: nat, endTag: Word)
    requires Keeps(halves, progSize, main, log, end, endTag)
    ensures Leads(Tip(halves[main].block, end, endTag, NULL), log)
  {
    hide Holds, Leads, Superseded;
    HoldsLeads(halves[main], progSize, log, end, endTag);
  }

  lemma KeepsStops(halves: seq<Half>, progSize: nat, main: nat, log: seq<Attr>, end: nat, endTag: Word)
    requires Keeps(halves, progSize, main, log, end, endTag)
    ensures !Unnoticed(Tip(halves[main].block, end, endTag, NULL))
  {
    hide Scan, Walk, Superseded;
  }

  lemma NoPieces(t: Tip, attrs: seq<Attr>)
    ensures AllFit(t, attrs, []) && PutFirst(t, attrs, [], 0) == t
  {
  }

  lemma {:induction false} PutAllTail(t: Tip, attrs: seq<Attr>, pieces: seq<Piece>)
    requires AllFit(t, attrs, pieces)
    ensures var s := PutAll(t, attrs, pieces);
            |s.block| == |t.block|
            && (t.off <= |t.block| ==> t.off <= s.off <= |t.block| && s.block[s.off..] == t.block[s.off..])
    decreases |pieces|
  {
    hide Scan, Clean, Overwrite;
    if pieces != [] {
      var n := |pieces| - 1;
      PutAllTail(t, attrs, pieces[..n]);
      var last := PutAll(t, attrs, pieces[..n]);
      var p := pieces[n];
      FitsRoom(last, Share(attrs, n), p);
      OverwriteKeeps(last.block, last.off, p.data);
      var s := Put(last, p);
      assert s.block[p.next..] == s.block[last.off + |p.data|..][p.next - last.off - |p.data|..] ==
               last.block[p.next..];
      assert last.block[p.next..] == last.block[last.off..][p.next - last.off..];
      assert t.block[p.next..] == t.block[last.off..][p.next - last.off..];
    }
  }

  /** The revision of a new pair: even before its first compaction, which counts it up. */
  function FirstAfter(found: Word): (rev: Word)
    ensures rev.bits == found.bits + (found.bits & 1) + 1
  {
    if found.bits & 1 == 0 then Next(found) else Next(Next(found))
  }

  lemma PlusTwo(b: bv32)
    ensures b + 1 + 1 == b + 2
  {
  }

  lemma FirstRevision(found: Word)
    ensures Newer(FirstAfter(found), found)
  {
    hide Newer;
    NewerAfter(found.bits, 1);
    NewerAfter(found.bits, 2);
    PlusTwo(found.bits);
  }

  lemma FirstCompaction(other: Half, progSize: nat, rev: Word, left: seq<bv8>, contents: seq<Attr>, pieces: seq<Piece>,
                        h: Half)
    requires progSize > 0 && |other.block| >= 4 && |left| >= 4 && Newer(rev, Revision(other.block))
    requires AllFit(Header(rev, left), contents, pieces) && pieces != []
    requires h == Half(PutAll(Header(rev, left), contents, pieces).block,
                       StoppedTop(Header(rev, left), contents, pieces, |pieces|, 0, 4), false)
    ensures var s := PutAll(Header(rev, left), contents, pieces);
            && |s.block| == |left| && 4 < s.off <= |left| && Revision(s.block) == rev
            && Keeps([other, h], progSize, 1, contents, s.off, s.etag) && h.top <= s.off
            && s.block[s.off..] == left[s.off..]
  {
    hide AllFit, PutAll, Header, Stopped, StoppedTop, Revision, Newer, Leads, Unnoticed, Superseded, Holds;
    var t := Header(rev, left);
    Compacted(other, progSize, rev, left, contents, pieces, |pieces|, 0);
    StoppedBetween(t, contents, pieces, |pieces|);
    AllFirst(t, contents, pieces);
    PutAllTail(t, contents, pieces);
    HeaderIs(rev, left);
    var s := PutAll(t, contents, pieces);
    CreatedKeeps(other, h, progSize, contents, s.off, s.etag);
    assert t.block[s.off..] == left[s.off..];
  }

  lemma CreatedKeeps(other: Half, h: Half, progSize: nat, contents: seq<Attr>, end: nat, endTag: Word)
    requires Holds(h, progSize, contents, end, endTag) && Superseded(other.block, h.block, progSize)
    ensures Keeps([other, h], progSize, 1, contents, end, endTag)
  {
    hide Holds, Superseded;
  }

  /** The log is found on its block, and a block that was chosen before it has nothing that checks. */
  lemma KeepsFetch(halves: seq<Half>, progSize: nat, main: nat, log: seq<Attr>, end: nat, endTag: Word, r: nat)
    requires progSize > 0 && |halves| == 2 && |halves[0].block| >= 4 && |halves[1].block| >= 4
    requires Keeps(halves, progSize, main, log, end, endTag)
    requires var a, b := Revision(halves[0].block), Revision(halves[1].block);
             r == if Newer(b, a) then 1 else 0
    ensures var f := FetchBlock(halves[main].block, progSize);
            && Found(f) && f.off == end && f.etag == endTag && f.attrs == log
            && (f.erased <==> end % progSize == 0 && end + 4 <= |halves[main].block| && halves[main].top <= end)
    ensures r == main || !Found(FetchBlock(halves[r].block, progSize))
  {
    hide Holds, FetchBlock, Found, Newer, Revision;
    HoldsFetch(halves[main], progSize, log, end, endTag);
    MainFirst(Revision(halves[main].block), Revision(halves[1 - main].block), main, r);
  }

  /** The choice by revision count picks the block with the log, unless the other holds nothing. */
  lemma MainFirst(mainRev: Word, otherRev: Word, main: nat, r: nat)
    requires main < 2
    requires r == if (if main == 1 then Newer(mainRev, otherRev) else Newer(otherRev, mainRev)) then 1 else 0
    ensures Newer(mainRev, otherRev) ==> r == main
  {
    hide Newer;
    if Newer(mainRev, otherRev) {
      NewerAsymmetric(mainRev, otherRev);
    }
  }

  lemma NextIsNewer(rev: Word)
    ensures Newer(Next(rev), rev)
  {
    NewerAfter(rev.bits, 1);
  }
}
