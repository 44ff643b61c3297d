/**
  Writing a commit (lfs.c:1182-1326): attributes one by one, then checksum tags that pad the
  commit to a whole number of program units, then a second look at every checksum.
 */
module CommitWriter {
  import opened Util
  import opened Crc
  import opened Tag
  import opened Commit

  lemma OverwriteKeeps(block: seq<bv8>, off: nat, data: seq<bv8>)
    requires off + |data| <= |block|
    ensures Overwrite(block, off, data)[..off] == block[..off]
    ensures Overwrite(block, off, data)[off..off + |data|] == data
    ensures Overwrite(block, off, data)[off + |data|..] == block[off + |data|..]
  {
  }

  /** The tag read at an offset would not be valid: the space there counts as unwritten. */
  predicate Clean(block: seq<bv8>, off: nat, etag: Word) {
    off + 4 <= |block| ==> !IsValid(Xor(FromBe(block[off..off + 4]), etag))
  }

  // ----- the padding arithmetic of lfs_dir_commitcrc -----

  /** Where a piece ends whose size field starts counting at `off` (after its tag). */
  function PieceEnd(off: nat, end: nat): nat
    requires off <= end
  {
    var noff := Min(end - off, 0x3fe) + off;
    if noff < end then Min(noff, if end >= 8 then end - 8 else 0) else noff
  }

  /**
    From a tag with at least a checksum's room behind it, the pieces have legal sizes and leave such room
    again. The first is the only one exactly if one tag can cover all the padding, and a longer one
    takes as much of it as it can.
   */
  lemma PieceSizes(at: nat, end: nat)
    requires at + 8 <= end
    ensures 4 <= PieceEnd(at + 4, end) - (at + 4) <= 0x3fe
    ensures PieceEnd(at + 4, end) == end || PieceEnd(at + 4, end) + 8 <= end
    ensures PieceEnd(at + 4, end) == end <==> end - (at + 4) <= 0x3fe
    ensures PieceEnd(at + 4, end) in {end - 8, end, at + 4 + 0x3fe}
  {
  }

  /**
    The checksums the re-read loop looks at: the first piece from `begin` to the checksum after
    the tag at `at`, then one tag and checksum per piece up to the one that ends at `mid`.
  */
  predicate Checks(block: seq<bv8>, begin: nat, at: nat, end: nat, mid: nat)
    requires begin <= at && mid <= end <= |block|
    decreases end - at
  {
    if at + 8 > end || at >= mid then at == mid
    else
      && Checksum(NULL, block[begin..at + 8]) == ZERO
      && (PieceSizes(at, end);
          Checks(block, PieceEnd(at + 4, end), PieceEnd(at + 4, end), end, mid))
  }

  lemma {:induction false} ChecksNext(block: seq<bv8>, begin: nat, at: nat, end: nat, mid: nat)
    requires begin <= at <= mid && mid + 8 <= end <= |block| && Checks(block, begin, at, end, mid)
    requires Checksum(NULL, block[if mid == at then begin else mid..mid + 8]) == ZERO
    ensures Checks(block, begin, at, end, PieceEnd(mid + 4, end))
    decreases end - at
  {
    hide Checksum, PieceEnd;
    PieceSizes(mid, end);
    if at < mid {
      PieceSizes(at, end);
      var next := PieceEnd(at + 4, end);
      assert Checks(block, next, next, end, mid);
      ChecksReach(block, next, next, end, mid);
      ChecksNext(block, next, next, end, mid);
    }
  }

  lemma ChecksReach(block: seq<bv8>, begin: nat, at: nat, end: nat, mid: nat)
    requires begin <= at && mid <= end <= |block| && Checks(block, begin, at, end, mid)
    ensures at <= mid
  {
  }

  lemma {:induction false} ChecksLocal(block: seq<bv8>, other: seq<bv8>, begin: nat, at: nat, end: nat, mid: nat)
    requires begin <= at <= mid <= end <= |block| == |other| && block[..mid] == other[..mid]
    requires Checks(block, begin, at, end, mid)
    ensures Checks(other, begin, at, end, mid)
    decreases end - at
  {
    hide Checksum, PieceEnd;
    if at < mid {
      PieceSizes(at, end);
      var next := PieceEnd(at + 4, end);
      ChecksReach(block, next, next, end, mid);
      assert block[begin..at + 8] == block[..mid][begin..at + 8] == other[begin..at + 8];
      ChecksLocal(block, other, next, next, end, mid);
    }
  }

  /** One checked piece: tag and checksum over what the piece has collected. */
  lemma FooterScans(block: seq<bv8>, start: nat, ptag: Word, crc: Word, attrs: seq<Attr>, off: nat, crcTag: Word)
    requires AllOk(attrs) && IsValid(crcTag) && IsCrc(crcTag) && 4 <= SizeOf(crcTag) <= 0x3fe
    requires start <= off && off + DSize(crcTag) <= |block| && off + 8 <= |block|
    requires block[start..off] == Body(ptag, attrs)
    requires block[off..off + 4] == Be(Xor(crcTag, LastTag(ptag, attrs)))
    requires block[off + 4..off + 8] == Le(Checksum(crc, block[start..off + 4]).bits)
    ensures Scan(block, start, ptag, crc) == Done(attrs, off + DSize(crcTag), NextTag(crcTag), true)
  {
    hide Scan, Body, LastTag, IsValid, IsCrc, SizeOf, DSize, NextTag, Checksum, Be, Le, Xor, FromBe;
    var covered := Covered(ptag, attrs, crcTag);
    Join(block, start, off, off + 4);
    assert block[start..off + 4] == covered;
    Join(block, start, off + 4, off + 8);
    LeRoundTrip(Checksum(crc, covered));
    assert block[start..off + 8] == Image(ptag, crc, attrs, crcTag);
    ScanImage(block, start, ptag, crc, attrs, crcTag);
  }

  lemma Join(block: seq<bv8>, a: nat, b: nat, c: nat)
    requires a <= b <= c <= |block|
    ensures block[a..c] == block[a..b] + block[b..c]
  {
  }

  /** The reset flag is chosen so that whatever erase left does not look like a tag. */
  lemma ResetCleans(block: seq<bv8>, off: nat, reset: bool, size: nat)
    requires 4 <= size <= 0x3fe
    requires off + 4 <= |block| ==> (reset <==> IsValid(FromBe(block[off..off + 4])))
    ensures Clean(block, off, NextTag(CrcTag(reset, size)))
  {
    hide IsValid, FromBe, Xor, HasReset, SizeOf, IsCrc;
    CrcTagFields(reset, size);
    TopOnly(CrcTag(reset, size));
    if off + 4 <= |block| {
      ValidXor(FromBe(block[off..off + 4]), NextTag(CrcTag(reset, size)));
    }
  }

  // ----- the log on a block, and the pieces programmed onto it -----

  /** A block whose good commits end at `off`, with the tag and the checksum register for what follows. */
  datatype Tip = Tip(block: seq<bv8>, off: nat, etag: Word, crc: Word)

  /** One program operation of a commit, and where it leaves the tip. */
  datatype Piece = Piece(data: seq<bv8>, next: nat, etag: Word)

  /** The piece checks on the block, reads as the attributes, and finds unwritten space behind it. */
  predicate Fits(t: Tip, attrs: seq<Attr>, p: Piece) {
    && t.off + 8 <= t.off + |p.data| <= p.next <= |t.block|
    && Scan(Overwrite(t.block, t.off, p.data), t.off, t.etag, t.crc) == Done(attrs, p.next, p.etag, true)
    && Clean(t.block, p.next, p.etag)
  }

  function Put(t: Tip, p: Piece): Tip
    requires t.off + |p.data| <= |t.block|
  {
    Tip(Overwrite(t.block, t.off, p.data), p.next, p.etag, NULL)
  }

  /** The first piece holds the attributes, the others only pad. */
  function Share(attrs: seq<Attr>, i: nat): seq<Attr> { if i == 0 then attrs else [] }

  predicate AllFit(t: Tip, attrs: seq<Attr>, pieces: seq<Piece>)
    decreases |pieces|, 0
  {
    var n := |pieces| - 1;
    n >= 0 ==> AllFit(t, attrs, pieces[..n]) && Fits(PutAll(t, attrs, pieces[..n]), Share(attrs, n), pieces[n])
  }

  function PutAll(t: Tip, attrs: seq<Attr>, pieces: seq<Piece>): Tip
    requires AllFit(t, attrs, pieces)
    decreases |pieces|, 1
  {
    var n := |pieces| - 1;
    if n < 0 then t else Put(PutAll(t, attrs, pieces[..n]), pieces[n])
  }

  lemma PutOne(t: Tip, attrs: seq<Attr>, pieces: seq<Piece>, p: Piece)
    requires AllFit(t, attrs, pieces) && Fits(PutAll(t, attrs, pieces), Share(attrs, |pieces|), p)
    ensures AllFit(t, attrs, pieces + [p])
    ensures PutAll(t, attrs, pieces + [p]) == Put(PutAll(t, attrs, pieces), p)
  {
    hide Fits, Put;
    assert (pieces + [p])[..|pieces|] == pieces;
  }

  /** The attributes that were written from the tip on, before their checksum. */
  predicate Written(t: Tip, attrs: seq<Attr>, block: seq<bv8>, off: nat, ptag: Word, crc: Word) {
    && AllOk(attrs) && t.off <= off <= |block| == |t.block|
    && block[..t.off] == t.block[..t.off] && block[off..] == t.block[off..]
    && block[t.off..off] == Body(t.etag, attrs)
    && ptag == LastTag(t.etag, attrs)
    && crc == Checksum(t.crc, Body(t.etag, attrs))
  }

  function Footer(tag: Word, ptag: Word, crc: Word): (s: seq<bv8>)
    ensures |s| == 8
  {
    LeRoundTrip(Checksum(crc, Be(Xor(tag, ptag))));
    Be(Xor(tag, ptag)) + Le(Checksum(crc, Be(Xor(tag, ptag))).bits)
  }

  /** What one turn of the padding loop programs fits. */
  lemma FooterFits(t: Tip, attrs: seq<Attr>, block: seq<bv8>, off: nat, ptag: Word, crc: Word, reset: bool, size: nat)
    requires Written(t, attrs, block, off, ptag, crc) && 4 <= size <= 0x3fe && off + 4 + size <= |block|
    requires var noff := off + 4 + size; noff + 4 <= |block| ==> (reset <==> IsValid(FromBe(block[noff..noff + 4])))
    ensures var footer := Footer(CrcTag(reset, size), ptag, crc);
            var p := Piece(Body(t.etag, attrs) + footer, off + 4 + size, NextTag(CrcTag(reset, size)));
            Fits(t, attrs, p) && Put(t, p).block == Overwrite(block, off, footer)
  {
    hide Scan, Body, LastTag, IsValid, IsCrc, SizeOf, DSize, NextTag, Checksum, Be, Le, Xor, FromBe, CrcTag, AllOk,
      Clean;
    var tag := CrcTag(reset, size);
    CrcTagFields(reset, size);
    CrcFits(tag);
    var footer := Footer(tag, ptag, crc);
    var data := Body(t.etag, attrs) + footer;
    var noff := off + 4 + size;
    LeRoundTrip(Checksum(crc, Be(Xor(tag, ptag))));
    Spliced(t.block, block, t.off, off, footer);
    var after := Overwrite(block, off, footer);
    ChecksumConcat(t.crc, Body(t.etag, attrs), Be(Xor(tag, ptag)));
    Join(after, t.off, off, off + 4);
    FooterScans(after, t.off, t.etag, t.crc, attrs, off, tag);
    if noff + 4 <= |block| {
      assert t.block[noff..noff + 4] == t.block[off..][noff - off..noff - off + 4] == block[noff..noff + 4];
    }
    ResetCleans(t.block, noff, reset, size);
  }

  lemma Spliced(base: seq<bv8>, block: seq<bv8>, start: nat, off: nat, footer: seq<bv8>)
    requires start <= off && off + |footer| <= |block| == |base| && |footer| == 8
    requires block[..start] == base[..start] && block[off..] == base[off..]
    ensures Overwrite(base, start, block[start..off] + footer) == Overwrite(block, off, footer)
    ensures Overwrite(block, off, footer)[start..off] == block[start..off]
    ensures Overwrite(block, off, footer)[off..off + 4] == footer[..4]
    ensures Overwrite(block, off, footer)[off + 4..off + 8] == footer[4..]
  {
    assert base[off + 8..] == base[off..][8..] == block[off + 8..];
    assert block[..off] == block[..start] + block[start..off];
  }

  /** The footer ends a stretch whose checksum is zero. */
  lemma FooterChecks(block: seq<bv8>, begin: nat, off: nat, tag: Word, ptag: Word, crc: Word)
    requires begin <= off && off + 8 <= |block| && crc == Checksum(NULL, block[begin..off])
    ensures Checksum(NULL, Overwrite(block, off, Footer(tag, ptag, crc))[begin..off + 8]) == ZERO
  {
    hide Checksum, Be, Le, Xor;
    var word := Be(Xor(tag, ptag));
    var c := Checksum(crc, word);
    var covered := block[begin..off] + word;
    LeRoundTrip(c);
    ChecksumConcat(NULL, block[begin..off], word);
    assert Overwrite(block, off, Footer(tag, ptag, crc))[begin..off + 8] == covered + Le(c.bits);
    ChecksumWordTest(NULL.bits, covered, c.bits);
  }

  /** Where the checksum tag of a piece begins, if that of the first does so at `at`. */
  function StartAt(pieces: seq<Piece>, at: nat, j: nat): nat
    requires j <= |pieces|
  {
    if j == 0 then at else pieces[j - 1].next
  }

  /** The pieces end where the re-read loop looks for their ends. */
  predicate Spaced(pieces: seq<Piece>, at: nat, end: nat) {
    forall j :: 0 <= j < |pieces| ==>
                  StartAt(pieces, at, j) + 8 <= end && pieces[j].next == PieceEnd(StartAt(pieces, at, j) + 4, end)
  }

  lemma NoneSpaced(at: nat)
    ensures forall end: nat :: Spaced([], at, end)
  {
  }

  lemma SpacedNext(pieces: seq<Piece>, at: nat, end: nat, p: Piece)
    requires Spaced(pieces, at, end) && StartAt(pieces, at, |pieces|) + 8 <= end
    requires p.next == PieceEnd(StartAt(pieces, at, |pieces|) + 4, end)
    ensures Spaced(pieces + [p], at, end) && StartAt(pieces + [p], at, |pieces| + 1) == p.next
  {
    hide PieceEnd;
    forall j | 0 <= j < |pieces + [p]|
      ensures StartAt(pieces + [p], at, j) + 8 <= end
      ensures (pieces + [p])[j].next == PieceEnd(StartAt(pieces + [p], at, j) + 4, end)
    {
      assert StartAt(pieces + [p], at, j) == StartAt(pieces, at, j);
    }
  }

  /** If the re-read loop accepts a commit, it accepts what begins with any of its pieces. */
  lemma {:induction false} ChecksFrom(block: seq<bv8>, begin: nat, at: nat, end: nat, pieces: seq<Piece>, i: nat)
    requires begin <= at && end <= |block| && Checks(block, begin, at, end, end)
    requires Spaced(pieces, at, end) && i < |pieces|
    ensures StartAt(pieces, at, i) + 8 <= end
    ensures Checks(block, if i == 0 then begin else StartAt(pieces, at, i), StartAt(pieces, at, i), end, end)
  {
    hide Checks, PieceEnd;
    if i > 0 {
      ChecksFrom(block, begin, at, end, pieces, i - 1);
      var start := StartAt(pieces, at, i - 1);
      ChecksOn(block, if i == 1 then begin else start, start, end);
    }
  }

  lemma ChecksOn(block: seq<bv8>, begin: nat, at: nat, end: nat)
    requires begin <= at && at + 8 <= end <= |block| && Checks(block, begin, at, end, end)
    ensures Checks(block, PieceEnd(at + 4, end), PieceEnd(at + 4, end), end, end)
  {
    hide Checksum;
  }

  /** The state of the padding loop. */
  predicate Progress(base: Tip, attrs: seq<Attr>, pieces: seq<Piece>, block: seq<bv8>, off: nat, ptag: Word, crc: Word,
                     begin: nat, at: nat, end: nat) {
    && begin <= at <= off <= end <= |block| == |base.block| && (off == end || off + 8 <= end)
    && AllFit(base, attrs, pieces)
    && Written(PutAll(base, attrs, pieces), Share(attrs, |pieces|), block, off, ptag, crc)
    && (if pieces == [] then off == at < end
        else at < off && crc == NULL && PutAll(base, attrs, pieces) == Tip(block, off, ptag, crc))
    && crc == Checksum(NULL, block[if off == at then begin else off..off])
    && Checks(block, begin, at, end, off)
  }

  /** Whether what follows a piece would read as a valid tag. */
  predicate ResetFor(block: seq<bv8>, noff: nat) {
    noff + 4 <= |block| && IsValid(FromBe(block[noff..noff + 4]))
  }

  function NextOf(base: Tip, attrs: seq<Attr>, pieces: seq<Piece>, block: seq<bv8>, off: nat, ptag: Word, crc: Word,
                  end: nat): Piece
    requires AllFit(base, attrs, pieces) && off + 8 <= end
  {
    PieceSizes(off, end);
    var noff := PieceEnd(off + 4, end);
    var tag := CrcTag(ResetFor(block, noff), noff - (off + 4));
    Piece(Body(PutAll(base, attrs, pieces).etag, Share(attrs, |pieces|)) + Footer(tag, ptag, crc), noff, NextTag(tag))
  }

  /** One turn of the padding loop. */
  lemma NextPiece(base: Tip, attrs: seq<Attr>, pieces: seq<Piece>, block: seq<bv8>, off: nat, ptag: Word, crc: Word,
                  begin: nat, at: nat, end: nat)
    requires Progress(base, attrs, pieces, block, off, ptag, crc, begin, at, end) && off < end
    ensures 4 <= PieceEnd(off + 4, end) - (off + 4) <= 0x3fe && PieceEnd(off + 4, end) <= end <= |block|
            && off + 8 <= end
    ensures var noff := PieceEnd(off + 4, end);
            var tag := CrcTag(ResetFor(block, noff), noff - (off + 4));
            Progress(base, attrs, pieces + [NextOf(base, attrs, pieces, block, off, ptag, crc, end)],
                     Overwrite(block, off, Footer(tag, ptag, crc)), noff, NextTag(tag), NULL, begin, at, end)
  {
    hide IsValid, Xor, Checksum, CrcTag, NextTag, Fits, Put, AllFit, PutAll, Written, Checks, PieceEnd, FromBe, Body,
      Footer, ResetFor, Overwrite;
    PieceSizes(off, end);
    NextFits(base, attrs, pieces, block, off, ptag, crc, end);
    NextChecks(block, off, ptag, crc, begin, at, end);
    var noff := PieceEnd(off + 4, end);
    var tag := CrcTag(ResetFor(block, noff), noff - (off + 4));
    NothingWritten(Overwrite(block, off, Footer(tag, ptag, crc)), noff, NextTag(tag));
  }

  /** The first piece begins with the attributes. */
  lemma FirstHolds(base: Tip, attrs: seq<Attr>, pieces: seq<Piece>, block: seq<bv8>, off: nat, ptag: Word, crc: Word,
                   end: nat)
    requires AllFit(base, attrs, pieces) && off + 8 <= end
    ensures pieces == [] ==> Body(base.etag, attrs) < NextOf(base, attrs, pieces, block, off, ptag, crc, end).data
  {
    hide Body, Footer, CrcTag, NextTag, PieceEnd, ResetFor, Fits, Put;
  }

  lemma NextEnds(base: Tip, attrs: seq<Attr>, pieces: seq<Piece>, block: seq<bv8>, off: nat, ptag: Word, crc: Word,
                 end: nat)
    requires AllFit(base, attrs, pieces) && off + 8 <= end
    ensures NextOf(base, attrs, pieces, block, off, ptag, crc, end).next == PieceEnd(off + 4, end)
  {
    hide Body, Footer, CrcTag, NextTag, PieceEnd, ResetFor, Fits, Put;
  }

  lemma NextFits(base: Tip, attrs: seq<Attr>, pieces: seq<Piece>, block: seq<bv8>, off: nat, ptag: Word, crc: Word,
                 end: nat)
    requires AllFit(base, attrs, pieces) && off + 8 <= end <= |block|
    requires Written(PutAll(base, attrs, pieces), Share(attrs, |pieces|), block, off, ptag, crc)
    ensures 4 <= PieceEnd(off + 4, end) - (off + 4) <= 0x3fe
    ensures var noff := PieceEnd(off + 4, end);
            var tag := CrcTag(ResetFor(block, noff), noff - (off + 4));
            var pieces' := pieces + [NextOf(base, attrs, pieces, block, off, ptag, crc, end)];
            AllFit(base, attrs, pieces')
            && PutAll(base, attrs, pieces') ==
                 Tip(Overwrite(block, off, Footer(tag, ptag, crc)), noff, NextTag(tag), NULL)
  {
    hide IsValid, Xor, Checksum, CrcTag, NextTag, Fits, Put, AllFit, PutAll, Written, PieceEnd, FromBe, Body, Footer,
      Overwrite, Share;
    PieceSizes(off, end);
    var noff := PieceEnd(off + 4, end);
    var t, share := PutAll(base, attrs, pieces), Share(attrs, |pieces|);
    FooterFits(t, share, block, off, ptag, crc, ResetFor(block, noff), noff - (off + 4));
    var p := NextOf(base, attrs, pieces, block, off, ptag, crc, end);
    FitsRoom(t, share, p);
    PutOne(base, attrs, pieces, p);
    PutTip(t, p);
  }

  lemma NextChecks(block: seq<bv8>, off: nat, ptag: Word, crc: Word, begin: nat, at: nat, end: nat)
    requires begin <= at <= off && off + 8 <= end <= |block| && Checks(block, begin, at, end, off)
    requires crc == Checksum(NULL, block[if off == at then begin else off..off])
    ensures 4 <= PieceEnd(off + 4, end) - (off + 4) <= 0x3fe && PieceEnd(off + 4, end) <= end
    ensures var noff := PieceEnd(off + 4, end);
            var tag := CrcTag(ResetFor(block, noff), noff - (off + 4));
            Checks(Overwrite(block, off, Footer(tag, ptag, crc)), begin, at, end, noff)
  {
    hide Checksum, CrcTag, Checks, PieceEnd, Footer, ResetFor;
    PieceSizes(off, end);
    var noff := PieceEnd(off + 4, end);
    var tag := CrcTag(ResetFor(block, noff), noff - (off + 4));
    FooterChecks(block, if off == at then begin else off, off, tag, ptag, crc);
    OverwriteKeeps(block, off, Footer(tag, ptag, crc));
    var after := Overwrite(block, off, Footer(tag, ptag, crc));
    ChecksLocal(block, after, begin, at, end, off);
    ChecksNext(after, begin, at, end, off);
  }

  lemma FitsRoom(t: Tip, attrs: seq<Attr>, p: Piece)
    requires Fits(t, attrs, p)
    ensures t.off + 8 <= t.off + |p.data| <= p.next <= |t.block|
  {
    hide Scan, Overwrite, Clean;
  }

  lemma NoPiece(base: Tip, attrs: seq<Attr>, block: seq<bv8>, begin: nat, off: nat, end: nat, ptag: Word, crc: Word)
    requires begin <= base.off <= |base.block| && Written(base, attrs, block, off, ptag, crc)
    requires base.crc == Checksum(NULL, base.block[begin..base.off]) && off + 8 <= end <= |block|
    ensures Progress(base, attrs, [], block, off, ptag, crc, begin, off, end)
  {
    hide Checksum, Body, LastTag, AllOk;
    CoveredSoFar(base, attrs, block, begin, off, ptag, crc);
  }

  lemma PiecesDone(base: Tip, attrs: seq<Attr>, pieces: seq<Piece>, block: seq<bv8>, off: nat, ptag: Word, crc: Word,
                   begin: nat, at: nat, end: nat)
    requires Progress(base, attrs, pieces, block, off, ptag, crc, begin, at, end) && off == end
    ensures pieces != [] && AllFit(base, attrs, pieces) && crc == NULL
    ensures PutAll(base, attrs, pieces) == Tip(block, off, ptag, crc)
    ensures begin <= at && at + 8 <= end && Checks(block, begin, at, end, end)
  {
    hide Checksum, Written, Checks, Fits, Put;
    ChecksAtLeast(block, begin, at, end, end);
  }

  lemma ChecksAtLeast(block: seq<bv8>, begin: nat, at: nat, end: nat, mid: nat)
    requires begin <= at < mid <= end <= |block| && Checks(block, begin, at, end, mid)
    ensures at + 8 <= end
  {
  }

  class Writer {
    var block: seq<bv8>
    const begin: nat
    var off: nat
    var ptag: Word
    var crc: Word

    // the block this commit continues, and the attributes written so far
    const base: Tip
    var attrs: seq<Attr>

    predicate Valid()
      reads this
    {
      && begin <= base.off && base.off <= |base.block|
      && base.crc == Checksum(NULL, base.block[begin..base.off])
      && Written(base, attrs, block, off, ptag, crc)
    }

    /** An append after the commits of a fetched block. */
    constructor Append(b: seq<bv8>, at: nat, etag: Word)
      requires at <= |b|
      ensures Valid() && base == Tip(b, at, etag, NULL) && attrs == [] && off == at
    {
      block, begin, off, ptag, crc := b, at, at, etag, NULL;
      base, attrs := Tip(b, at, etag, NULL), [];
      new;
      assert b[at..at] == [];
    }

    /** A compaction onto an erased block: the revision count is covered by the first checksum. */
    constructor Rewrite(b: seq<bv8>, rev: seq<bv8>)
      requires |rev| == 4 <= |b|
      ensures Valid() && base == Tip(rev + b[4..], 4, NULL, Checksum(NULL, rev)) && attrs == [] && off == 4
    {
      block := rev + b[4..];
      begin, off, ptag := 0, 4, NULL;
      base, attrs := Tip(rev + b[4..], 4, NULL, Checksum(NULL, rev)), [];
      crc := Checksum(NULL, rev);
      new;
      assert block[0..4] == rev && block[4..4] == [];
    }

    /** lfs_dir_commitattr for an attribute in memory; fails without a trace if it does not fit. */
    method CommitAttr(a: Attr) returns (ok: bool)
      requires Valid() && Ok(a) && |block| >= 8
      modifies this`block, this`off, this`ptag, this`crc, this`attrs
      ensures Valid()
      ensures ok <==> old(off) + DSize(a.tag) <= |block| - 8
      ensures ok ==> attrs == old(attrs) + [a] && off == old(off) + DSize(a.tag)
      ensures !ok ==> attrs == old(attrs) && off == old(off)
    {
      hide IsValid, IsCrc, DSize, Xor, Be, Checksum;
      if off + DSize(a.tag) > |block| - 8 {
        return false;
      }
      ghost var before := block;
      var word := Be(Xor(a.tag, ptag));
      BodyGrows(base.etag, attrs, a);
      ChecksumConcat(base.crc, Body(base.etag, attrs), word + a.data);
      ChecksumConcat(crc, word, a.data);
      crc := Checksum(Checksum(crc, word), a.data);
      block := Overwrite(block, off, word + a.data);
      AppendedSlice(base.block, before, block, base.off, off, word + a.data);
      attrs := attrs + [a];
      off := off + DSize(a.tag);
      ptag := a.tag;
      return true;
    }

    /**
      lfs_dir_commitcrc: checksum tags that fill the commit up to a program boundary, then a
      second look at every checksum. The pieces are its program operations, in order.
    */
    method CommitCrc(progSize: nat) returns (ok: bool, pieces: seq<Piece>)
      requires Valid() && Divides(progSize, |block|) && off + 8 <= |block|
      modifies this`block, this`off, this`ptag, this`crc
      ensures ok && pieces != [] && AllFit(base, attrs, pieces)
      ensures PutAll(base, attrs, pieces) == Tip(block, off, ptag, crc) && crc == NULL
      ensures Body(base.etag, attrs) < pieces[0].data && Spaced(pieces, old(off), off)
      ensures progSize > 0 && old(off) + 8 <= off == AlignUp(old(off) + 8, progSize) <= |block| == |old(block)|
    {
      hide IsValid, Xor, Checksum, CrcTag, NextTag, AllFit, PutAll, Written, Checks, PieceEnd, AlignUp, Divides,
        FromBe, NextOf, Footer, ResetFor, Spaced;
      NoneSpaced(off);
      var at := off;
      EndFits(at + 8, |block|, progSize);
      var end := AlignUp(at + 8, progSize);
      pieces := [];
      NoPiece(base, attrs, block, begin, at, end, ptag, crc);
      while off < end
        invariant at <= off <= end <= |block| == |old(block)|
        invariant Progress(base, attrs, pieces, block, off, ptag, crc, begin, at, end)
        invariant pieces != [] ==> Body(base.etag, attrs) < pieces[0].data
        invariant Spaced(pieces, at, end) && StartAt(pieces, at, |pieces|) == off
        decreases end - off
      {
        NextPiece(base, attrs, pieces, block, off, ptag, crc, begin, at, end);
        var noff := PieceEnd(off + 4, end);
        // look at what erase left in the space behind the piece
        var tag := CrcTag(ResetFor(block, noff), noff - (off + 4));
        var p := NextOf(base, attrs, pieces, block, off, ptag, crc, end);
        FirstHolds(base, attrs, pieces, block, off, ptag, crc, end);
        NextEnds(base, attrs, pieces, block, off, ptag, crc, end);
        SpacedNext(pieces, at, end, p);
        block := Overwrite(block, off, Footer(tag, ptag, crc));
        pieces := pieces + [p];
        off, ptag, crc := noff, NextTag(tag), NULL;
      }
      PiecesDone(base, attrs, pieces, block, off, ptag, crc, begin, at, end);
      ok := Recheck(block, begin, at, end);
    }
  }

  lemma AppendedSlice(base: seq<bv8>, before: seq<bv8>, after: seq<bv8>, start: nat, off: nat, data: seq<bv8>)
    requires start <= off && off + |data| <= |before| == |base| && after == Overwrite(before, off, data)
    requires before[..start] == base[..start] && before[off..] == base[off..]
    ensures after[..start] == base[..start] && after[off + |data|..] == base[off + |data|..]
    ensures after[start..off + |data|] == before[start..off] + data
  {
    assert base[off + |data|..] == base[off..][|data|..];
    assert before[off + |data|..] == before[off..][|data|..];
  }

  lemma {:induction false} BodyGrows(ptag: Word, attrs: seq<Attr>, a: Attr)
    ensures Body(ptag, attrs + [a]) == Body(ptag, attrs) + (Be(Xor(a.tag, LastTag(ptag, attrs))) + a.data)
    ensures LastTag(ptag, attrs + [a]) == a.tag
    decreases |attrs|
  {
    hide Be, Xor;
    if attrs == [] {
      assert [a][1..] == [];
      assert Body(ptag, [a]) == Be(Xor(a.tag, ptag)) + a.data + [];
    } else {
      BodyGrows(attrs[0].tag, attrs[1..], a);
      assert (attrs + [a])[1..] == attrs[1..] + [a];
    }
  }

  lemma EndFits(a: nat, size: nat, progSize: nat)
    requires Divides(progSize, size) && a <= size
    ensures progSize > 0 && a <= AlignUp(a, progSize) <= size
  {
    AlignUpIsLeast(a, progSize, size / progSize);
    assert size / progSize * progSize == size;
  }

  lemma CoveredSoFar(base: Tip, attrs: seq<Attr>, block: seq<bv8>, begin: nat, off: nat, ptag: Word, crc: Word)
    requires begin <= base.off <= |base.block| && Written(base, attrs, block, off, ptag, crc)
    requires base.crc == Checksum(NULL, base.block[begin..base.off])
    ensures begin <= off && crc == Checksum(NULL, block[begin..off])
  {
    hide Checksum, Body, LastTag, AllOk;
    assert block[begin..base.off] == block[..base.off][begin..] == base.block[begin..base.off];
    Join(block, begin, base.off, off);
    ChecksumConcat(NULL, block[begin..base.off], Body(base.etag, attrs));
  }

  lemma PutTip(t: Tip, p: Piece)
    requires t.off + |p.data| <= |t.block|
    ensures Put(t, p) == Tip(Overwrite(t.block, t.off, p.data), p.next, p.etag, NULL)
  {
  }

  lemma NothingWritten(block: seq<bv8>, off: nat, etag: Word)
    requires off <= |block|
    ensures Written(Tip(block, off, etag, NULL), [], block, off, etag, NULL)
    ensures Checksum(NULL, block[off..off]) == NULL
  {
    assert block[off..off] == [];
  }

  /** The loop that reads a finished commit again, checksum by checksum. */
  method Recheck(block: seq<bv8>, begin: nat, at: nat, end: nat) returns (ok: bool)
    requires begin <= at && at + 8 <= end <= |block|
    ensures ok <==> Checks(block, begin, at, end, end)
  {
    hide Checksum, PieceEnd;
    var off, noff := begin, at + 4;
    while off < end
      invariant off <= end && (off < end ==> off + 4 <= noff && noff + 4 <= end)
      invariant Checks(block, begin, at, end, end) <==> off == end || Checks(block, off, noff - 4, end, end)
      decreases end - off
    {
      var crc := ChecksumOf(block, off, noff + 4);
      if crc != ZERO {
        return false;
      }
      PieceSizes(noff - 4, end);
      off := PieceEnd(noff, end);
      noff := off + 4;
    }
    ok := true;
  }

  method ChecksumOf(block: seq<bv8>, from: nat, to: nat) returns (crc: Word)
    requires from <= to <= |block|
    ensures crc == Checksum(NULL, block[from..to])
  {
    hide Checksum;
    crc := NULL;
    var i := from;
    NothingWritten(block, from, NULL);
    while i < to
      invariant from <= i <= to
      invariant crc == Checksum(NULL, block[from..i])
    {
      Join(block, from, i, i + 1);
      ChecksumConcat(NULL, block[from..i], block[i..i + 1]);
      crc := PieceChecksum(crc, block[i..i + 1]);
      i := i + 1;
    }
  }
}
