/**
  Commits in a metadata block: how attributes are written (lfs.c:1197-1326), how a fetch
  scans them forward (lfs.c:785-945) and how lookups walk them backward (lfs.c:509-520).
 */
module Commit {
  import opened Crc
  import opened Tag

  datatype Attr = Attr(tag: Word, data: seq<bv8>)

  /** An attribute that can be committed. */
  predicate Ok(a: Attr) {
    IsValid(a.tag) && !IsCrc(a.tag) && |a.data| == DSize(a.tag) - 4
  }

  predicate AllOk(attrs: seq<Attr>) {
    forall i :: 0 <= i < |attrs| ==> Ok(attrs[i])
  }

  // ----- writing -----

  /** What lfs_dir_commitattr writes for a list of attributes after the tag ptag. */
  function Body(ptag: Word, attrs: seq<Attr>): seq<bv8>
    decreases |attrs|
  {
    if attrs == [] then []
    else Be(Xor(attrs[0].tag, ptag)) + attrs[0].data + Body(attrs[0].tag, attrs[1..])
  }

  function LastTag(ptag: Word, attrs: seq<Attr>): Word
    decreases |attrs|
  {
    if attrs == [] then ptag else LastTag(attrs[0].tag, attrs[1..])
  }

  /** The attributes with the checksum tag that covers them. */
  function Covered(ptag: Word, attrs: seq<Attr>, crcTag: Word): seq<bv8> {
    Body(ptag, attrs) + Be(Xor(crcTag, LastTag(ptag, attrs)))
  }

  /** A checked piece of a commit: attributes, checksum tag, checksum. Padding follows it. */
  function Image(ptag: Word, crc: Word, attrs: seq<Attr>, crcTag: Word): seq<bv8> {
    Covered(ptag, attrs, crcTag) + Le(Checksum(crc, Covered(ptag, attrs, crcTag)).bits)
  }

  // ----- scanning forward -----

  /**
    Done: one checked piece, the offset and previous tag after it, and whether its checksum tag
    has room for the checksum. Stop: nothing more; `clean` if that is an unwritten tag.
  */
  datatype ScanResult = Done(attrs: seq<Attr>, off: nat, etag: Word, whole: bool) | Stop(clean: bool)

  function Prepend(attrs: seq<Attr>, r: ScanResult): ScanResult {
    match r
    case Stop(clean) => r
    case Done(more, off, etag, whole) => Done(attrs + more, off, etag, whole)
  }

  /** The inner loop of lfs_dir_fetchmatch up to the next checksum. */
  function Scan(block: seq<bv8>, off: nat, ptag: Word, crc: Word): (r: ScanResult)
    ensures r.Done? ==> off < r.off <= |block|
    ensures r.Done? && r.whole ==> off + 8 <= r.off
    decreases |block| - off
  {
    if off + 4 > |block| then Stop(false)
    else
      var word := block[off..off + 4];
      var tag := Xor(FromBe(word), ptag);
      if !IsValid(tag) || off + DSize(tag) > |block| then Stop(IsCrc(ptag))
      else if IsCrc(tag) then
        if off + 8 > |block| || FromLe(block[off + 4..off + 8]) != Checksum(crc, word) then Stop(false)
        else Done([], off + DSize(tag), NextTag(tag), DSize(tag) >= 8)
      else
        var data := block[off + 4..off + DSize(tag)];
        Prepend([Attr(tag, data)], Scan(block, off + DSize(tag), tag, Checksum(Checksum(crc, word), data)))
  }

  lemma ReadsBack(block: seq<bv8>, off: nat, tag: Word, ptag: Word)
    requires off + 4 <= |block| && block[off..off + 4] == Be(Xor(tag, ptag))
    ensures Xor(FromBe(block[off..off + 4]), ptag) == tag
  {
    hide Be, FromBe, Xor;
    BeRoundTrip(Xor(tag, ptag));
    XorTwice(tag, ptag);
  }

  lemma CrcFits(crcTag: Word)
    requires IsValid(crcTag) && IsCrc(crcTag) && 4 <= SizeOf(crcTag) <= 0x3fe
    ensures DSize(crcTag) == 4 + SizeOf(crcTag) >= 8
  {
    hide SizeOf;
  }

  /** Round trip: a scan of written attributes gives them back. */
  lemma {:induction false} ScanImage(block: seq<bv8>, off: nat, ptag: Word, crc: Word, attrs: seq<Attr>, crcTag: Word)
    requires AllOk(attrs)
    requires IsValid(crcTag) && IsCrc(crcTag) && 4 <= SizeOf(crcTag) <= 0x3fe
    requires off + |Body(ptag, attrs)| + DSize(crcTag) <= |block|
    requires off + |Image(ptag, crc, attrs, crcTag)| <= |block|
    requires block[off..off + |Image(ptag, crc, attrs, crcTag)|] == Image(ptag, crc, attrs, crcTag)
    ensures Scan(block, off, ptag, crc) == Done(attrs, off + |Body(ptag, attrs)| + DSize(crcTag), NextTag(crcTag), true)
    decreases |attrs|
  {
    hide Scan, Body, Image, DSize, SizeOf, IsValid, IsCrc, NextTag, Checksum, Be, Xor;
    CrcFits(crcTag);
    if attrs == [] {
      ScanChecksum(block, off, ptag, crc, crcTag);
    } else {
      var a, rest := attrs[0], attrs[1..];
      var crc' := Checksum(Checksum(crc, Be(Xor(a.tag, ptag))), a.data);
      ScanAttr(block, off, ptag, crc, attrs, crcTag);
      ScanImage(block, off + DSize(a.tag), a.tag, crc', rest, crcTag);
      assert [a] + rest == attrs;
    }
  }

  lemma ScanChecksum(block: seq<bv8>, off: nat, ptag: Word, crc: Word, crcTag: Word)
    requires IsValid(crcTag) && IsCrc(crcTag) && DSize(crcTag) >= 8
    requires off + DSize(crcTag) <= |block|
    requires off + |Image(ptag, crc, [], crcTag)| <= |block|
    requires block[off..off + |Image(ptag, crc, [], crcTag)|] == Image(ptag, crc, [], crcTag)
    ensures |Body(ptag, [])| == 0
    ensures Scan(block, off, ptag, crc) == Done([], off + DSize(crcTag), NextTag(crcTag), true)
  {
    hide Be, FromBe, FromLe, Le, Xor, IsValid, IsCrc, SizeOf, NextTag, Checksum, Image, Body, DSize;
    var image := Image(ptag, crc, [], crcTag);
    ImageOfNothing(ptag, crc, crcTag);
    assert block[off..off + 4] == image[..4] == Be(Xor(crcTag, ptag));
    assert block[off + 4..off + 8] == image[4..8];
    ReadsBack(block, off, crcTag, ptag);
    LeRoundTrip(Checksum(crc, Be(Xor(crcTag, ptag))));
  }

  lemma ScanAttr(block: seq<bv8>, off: nat, ptag: Word, crc: Word, attrs: seq<Attr>, crcTag: Word)
    requires AllOk(attrs) && attrs != [] && DSize(crcTag) >= 8
    requires off + |Body(ptag, attrs)| + DSize(crcTag) <= |block|
    requires off + |Image(ptag, crc, attrs, crcTag)| <= |block|
    requires block[off..off + |Image(ptag, crc, attrs, crcTag)|] == Image(ptag, crc, attrs, crcTag)
    ensures var a, rest := attrs[0], attrs[1..];
            var n, crc' := DSize(a.tag), Checksum(Checksum(crc, Be(Xor(a.tag, ptag))), a.data);
            && AllOk(rest)
            && |Body(ptag, attrs)| == n + |Body(a.tag, rest)|
            && off + n + |Image(a.tag, crc', rest, crcTag)| <= |block|
            && block[off + n..off + n + |Image(a.tag, crc', rest, crcTag)|] == Image(a.tag, crc', rest, crcTag)
            && Scan(block, off, ptag, crc) == Prepend([a], Scan(block, off + n, a.tag, crc'))
  {
    hide Be, FromBe, FromLe, Le, Xor, IsValid, IsCrc, SizeOf, NextTag, Checksum, Image, Body, DSize;
    var image := Image(ptag, crc, attrs, crcTag);
    var a, rest := attrs[0], attrs[1..];
    var word := Be(Xor(a.tag, ptag));
    ImageOfMore(ptag, crc, attrs, crcTag);
    var crc' := Checksum(Checksum(crc, word), a.data);
    var n := DSize(a.tag);
    ThreeParts(block, off, word, a.data, Image(a.tag, crc', rest, crcTag));
    ReadsBack(block, off, a.tag, ptag);
  }

  lemma ThreeParts(block: seq<bv8>, off: nat, a: seq<bv8>, b: seq<bv8>, c: seq<bv8>)
    requires off + |a| + |b| + |c| <= |block| && block[off..off + |a| + |b| + |c|] == a + b + c
    ensures block[off..off + |a|] == a
    ensures block[off + |a|..off + |a| + |b|] == b
    ensures block[off + |a| + |b|..off + |a| + |b| + |c|] == c
  {
    var s := block[off..off + |a| + |b| + |c|];
    assert block[off..off + |a|] == s[..|a|];
    SliceOfSlice(block, off, |a| + |b| + |c|, |a|, |a| + |b|);
    SliceOfSlice(block, off, |a| + |b| + |c|, |a| + |b|, |a| + |b| + |c|);
    assert s[|a|..|a| + |b|] == b;
    assert s[|a| + |b|..|a| + |b| + |c|] == c;
  }

  lemma SliceOfSlice(block: seq<bv8>, off: nat, n: nat, lo: nat, hi: nat)
    requires off + n <= |block| && lo <= hi <= n
    ensures block[off..off + n][lo..hi] == block[off + lo..off + hi]
  {
    var x, y := block[off..off + n][lo..hi], block[off + lo..off + hi];
    assert forall i :: 0 <= i < hi - lo ==> x[i] == block[off + (lo + i)] == y[i];
  }

  lemma ImageOfNothing(ptag: Word, crc: Word, crcTag: Word)
    ensures Body(ptag, []) == []
    ensures Image(ptag, crc, [], crcTag) == Be(Xor(crcTag, ptag)) + Le(Checksum(crc, Be(Xor(crcTag, ptag))).bits)
    ensures |Image(ptag, crc, [], crcTag)| == 8
  {
    hide Be, Xor, Checksum;
    assert Covered(ptag, [], crcTag) == Be(Xor(crcTag, ptag));
  }

  lemma ImageOfMore(ptag: Word, crc: Word, attrs: seq<Attr>, crcTag: Word)
    requires AllOk(attrs) && attrs != []
    ensures var a, rest, word := attrs[0], attrs[1..], Be(Xor(attrs[0].tag, ptag));
            && |Body(ptag, attrs)| == DSize(a.tag) + |Body(a.tag, rest)|
            && Image(ptag, crc, attrs, crcTag) ==
                 word + a.data + Image(a.tag, Checksum(Checksum(crc, word), a.data), rest, crcTag)
  {
    hide Be, Xor, Le, Checksum, DSize, IsValid, IsCrc;
    var a, rest, word := attrs[0], attrs[1..], Be(Xor(attrs[0].tag, ptag));
    var inner := Covered(a.tag, rest, crcTag);
    assert Covered(ptag, attrs, crcTag) == word + a.data + inner;
    ChecksumConcat(crc, word + a.data, inner);
    ChecksumConcat(crc, word, a.data);
  }

  /** A scan depends only on the bytes it passes. */
  lemma {:induction false} ScanLocal(block: seq<bv8>, other: seq<bv8>, off: nat, ptag: Word, crc: Word, end: nat)
    requires |block| == |other| && Scan(block, off, ptag, crc).Done? && Scan(block, off, ptag, crc).whole
    requires Scan(block, off, ptag, crc).off <= end <= |block|
    requires block[off..end] == other[off..end]
    ensures Scan(other, off, ptag, crc) == Scan(block, off, ptag, crc)
    decreases |block| - off
  {
    hide FromBe, FromLe, Xor, IsValid, IsCrc, SizeOf, NextTag, Checksum, DSize;
    var word := block[off..off + 4];
    var tag := Xor(FromBe(word), ptag);
    var n := DSize(tag);
    SameSlice(block, other, off, end, off, off + 4);
    if IsCrc(tag) {
      SameSlice(block, other, off, end, off + 4, off + 8);
    } else {
      var data := block[off + 4..off + n];
      var crc' := Checksum(Checksum(crc, word), data);
      SameSlice(block, other, off, end, off + 4, off + n);
      SameSlice(block, other, off, end, off + n, end);
      ScanLocal(block, other, off + n, tag, crc', end);
    }
  }

  lemma SameSlice(block: seq<bv8>, other: seq<bv8>, off: nat, end: nat, lo: nat, hi: nat)
    requires |block| == |other| && off <= lo <= hi <= end <= |block|
    requires block[off..end] == other[off..end]
    ensures block[lo..hi] == other[lo..hi]
  {
    forall i | lo <= i < hi
      ensures block[i] == other[i]
    {
      assert block[i] == block[off..end][i - off] && other[i] == other[off..end][i - off];
    }
  }

  /** In the middle of a commit a scan never takes what it finds for unwritten space. */
  lemma {:induction false} StopInside(block: seq<bv8>, off: nat, ptag: Word, crc: Word)
    requires !IsCrc(ptag) && Scan(block, off, ptag, crc).Stop?
    ensures !Scan(block, off, ptag, crc).clean
    decreases |block| - off
  {
    hide FromBe, FromLe, Xor, IsValid, SizeOf, NextTag, Checksum;
    if off + 4 <= |block| {
      var word := block[off..off + 4];
      var tag := Xor(FromBe(word), ptag);
      if IsValid(tag) && off + DSize(tag) <= |block| && !IsCrc(tag) {
        StopInside(block, off + DSize(tag), tag, Checksum(Checksum(crc, word), block[off + 4..off + DSize(tag)]));
      }
    }
  }

  // ----- fetching a block -----

  /** What a fetch learns: the end of the last good commit, the tag before the next, all attributes, the erased flag. */
  datatype Fetched = Fetched(off: nat, etag: Word, attrs: seq<Attr>, erased: bool)

  /** The outer loop of lfs_dir_fetchmatch. */
  function FetchFrom(block: seq<bv8>, progSize: nat, off: nat, ptag: Word, crc: Word, attrs: seq<Attr>): Fetched
    requires progSize > 0
    decreases |block| - off
  {
    var s := Scan(block, off, ptag, crc);
    if s.Stop? then Fetched(off, ptag, attrs, s.clean && off % progSize == 0)
    else FetchFrom(block, progSize, s.off, s.etag, NULL, attrs + s.attrs)
  }

  /** The checksum of the revision count starts the first commit. */
  function Seed(block: seq<bv8>): Word
    requires |block| >= 4
  {
    Checksum(NULL, block[..4])
  }

  function FetchBlock(block: seq<bv8>, progSize: nat): Fetched
    requires progSize > 0 && |block| >= 4
  {
    FetchFrom(block, progSize, 4, NULL, Seed(block), [])
  }

  /** dir->off > 0 after the scan: at least one commit was good. */
  predicate Found(f: Fetched) { f.off > 4 }

  /** lfs_dir_fetchmatch on one block. */
  method Fetch(block: seq<bv8>, progSize: nat) returns (f: Fetched)
    requires progSize > 0 && |block| >= 4
    ensures f == FetchBlock(block, progSize)
  {
    hide Scan, FetchFrom, Checksum;
    var off, ptag, crc := 4, NULL, Seed(block);
    var attrs: seq<Attr> := [];
    while true
      invariant 4 <= off <= |block|
      invariant FetchFrom(block, progSize, off, ptag, crc, attrs) == FetchBlock(block, progSize)
      decreases |block| - off
    {
      FetchUnfold(block, progSize, off, ptag, crc, attrs);
      var r := ScanCommit(block, off, ptag, crc);
      if r.Stop? {
        return Fetched(off, ptag, attrs, r.clean && off % progSize == 0);
      }
      off, ptag, crc, attrs := r.off, r.etag, NULL, attrs + r.attrs;
    }
  }

  lemma FetchUnfold(block: seq<bv8>, progSize: nat, off: nat, ptag: Word, crc: Word, attrs: seq<Attr>)
    requires progSize > 0
    ensures FetchFrom(block, progSize, off, ptag, crc, attrs) ==
            var s := Scan(block, off, ptag, crc);
            if s.Stop? then Fetched(off, ptag, attrs, s.clean && off % progSize == 0)
            else FetchFrom(block, progSize, s.off, s.etag, NULL, attrs + s.attrs)
  {
  }

  /** The tags of one commit, checked as they are read. */
  method ScanCommit(block: seq<bv8>, start: nat, prev: Word, seed: Word) returns (r: ScanResult)
    requires start <= |block|
    ensures r == Scan(block, start, prev, seed)
    ensures r.Done? ==> start < r.off <= |block|
  {
    hide FromBe, FromLe, Xor, IsValid, IsCrc, NextTag, Checksum, DSize, Scan;
    var off, ptag, crc := start, prev, seed;
    var attrs: seq<Attr> := [];
    while true
      invariant start <= off <= |block|
      invariant Scan(block, start, prev, seed) == Prepend(attrs, Scan(block, off, ptag, crc))
      decreases |block| - off
    {
      ScanUnfold(block, off, ptag, crc);
      if off + 4 > |block| {
        return Stop(false);
      }
      var word := block[off..off + 4];
      crc := PieceChecksum(crc, word);
      var tag := Xor(FromBe(word), ptag);
      if !IsValid(tag) || off + DSize(tag) > |block| {
        return Stop(IsCrc(ptag));
      }
      ptag := tag;
      if IsCrc(tag) {
        if off + 8 > |block| || FromLe(block[off + 4..off + 8]) != crc {
          return Stop(false);
        }
        assert attrs + [] == attrs;
        return Done(attrs, off + DSize(tag), NextTag(tag), DSize(tag) >= 8);
      }
      var data := block[off + 4..off + DSize(tag)];
      crc := PieceChecksum(crc, data);
      PrependOne(attrs, Attr(tag, data), Scan(block, off + DSize(tag), tag, crc));
      attrs := attrs + [Attr(tag, data)];
      off := off + DSize(tag);
    }
  }

  lemma ScanUnfold(block: seq<bv8>, off: nat, ptag: Word, crc: Word)
    ensures Scan(block, off, ptag, crc) ==
            if off + 4 > |block| then Stop(false)
            else
              var word := block[off..off + 4];
              var tag := Xor(FromBe(word), ptag);
              if !IsValid(tag) || off + DSize(tag) > |block| then Stop(IsCrc(ptag))
              else if IsCrc(tag) then
                if off + 8 > |block| || FromLe(block[off + 4..off + 8]) != Checksum(crc, word) then Stop(false)
                else Done([], off + DSize(tag), NextTag(tag), DSize(tag) >= 8)
              else
                var data := block[off + 4..off + DSize(tag)];
                Prepend([Attr(tag, data)], Scan(block, off + DSize(tag), tag, Checksum(Checksum(crc, word), data)))
  {
    hide FromBe, FromLe, Xor, IsValid, IsCrc, NextTag, Checksum, DSize, Prepend;
  }

  lemma PrependOne(attrs: seq<Attr>, a: Attr, r: ScanResult)
    ensures Prepend(attrs, Prepend([a], r)) == Prepend(attrs + [a], r)
  {
    if r.Done? {
      assert attrs + ([a] + r.attrs) == attrs + [a] + r.attrs;
    }
  }

  method PieceChecksum(crc: Word, data: seq<bv8>) returns (r: Word)
    ensures r == Checksum(crc, data)
  {
    var bits := Crc.Crc(crc.bits, data);
    r := Word(bits);
  }

  // ----- walking over good commits -----

  /** Commits that lead from one offset exactly to another. */
  datatype WalkResult = Reached(attrs: seq<Attr>, etag: Word, crc: Word) | Lost

  function Walk(block: seq<bv8>, off: nat, ptag: Word, crc: Word, end: nat): WalkResult
    decreases |block| - off
  {
    if off == end then Reached([], ptag, crc)
    else
      var s := Scan(block, off, ptag, crc);
      if s.Stop? || s.off > end || !s.whole then Lost
      else
        var w := Walk(block, s.off, s.etag, NULL, end);
        if w.Lost? then Lost else Reached(s.attrs + w.attrs, w.etag, w.crc)
  }

  /** A fetch follows the good commits and goes on after them. */
  lemma {:induction false} FetchFollows(block: seq<bv8>, progSize: nat, off: nat, ptag: Word, crc: Word,
                                        attrs: seq<Attr>, end: nat)
    requires progSize > 0 && Walk(block, off, ptag, crc, end).Reached?
    ensures var w := Walk(block, off, ptag, crc, end);
            FetchFrom(block, progSize, off, ptag, crc, attrs) ==
              FetchFrom(block, progSize, end, w.etag, w.crc, attrs + w.attrs)
    decreases |block| - off
  {
    hide Scan;
    if off == end {
      assert attrs + [] == attrs;
    } else {
      var s := Scan(block, off, ptag, crc);
      FetchFollows(block, progSize, s.off, s.etag, NULL, attrs + s.attrs, end);
      var w := Walk(block, s.off, s.etag, NULL, end);
      assert attrs + s.attrs + w.attrs == attrs + (s.attrs + w.attrs);
    }
  }

  lemma {:induction false} WalkLocal(block: seq<bv8>, other: seq<bv8>, off: nat, ptag: Word, crc: Word, end: nat)
    requires |block| == |other| && off <= end <= |block| && block[off..end] == other[off..end]
    requires Walk(block, off, ptag, crc, end).Reached?
    ensures Walk(other, off, ptag, crc, end) == Walk(block, off, ptag, crc, end)
    decreases |block| - off
  {
    hide Scan;
    if off < end {
      var s := Scan(block, off, ptag, crc);
      ScanLocal(block, other, off, ptag, crc, end);
      SameSlice(block, other, off, end, s.off, end);
      WalkLocal(block, other, s.off, s.etag, NULL, end);
    }
  }

  /** One more good commit at the end of a walk. */
  lemma {:induction false} WalkExtends(block: seq<bv8>, off: nat, ptag: Word, crc: Word, end: nat, end': nat)
    requires off <= end && Walk(block, off, ptag, crc, end).Reached?
    requires var w := Walk(block, off, ptag, crc, end);
             var s := Scan(block, end, w.etag, w.crc);
             s.Done? && s.off == end' && s.whole
    ensures var w := Walk(block, off, ptag, crc, end);
            var s := Scan(block, end, w.etag, w.crc);
            Walk(block, off, ptag, crc, end') == Reached(w.attrs + s.attrs, s.etag, NULL)
    decreases |block| - off
  {
    hide Scan;
    if off == end {
      var s := Scan(block, off, ptag, crc);
      assert Walk(block, s.off, s.etag, NULL, end') == Reached([], s.etag, NULL);
      assert s.attrs + [] == [] + s.attrs;
    } else {
      var t := Scan(block, off, ptag, crc);
      var v := Walk(block, t.off, t.etag, NULL, end);
      WalkExtends(block, t.off, t.etag, NULL, end, end');
      var s := Scan(block, end, v.etag, v.crc);
      assert t.attrs + v.attrs + s.attrs == t.attrs + (v.attrs + s.attrs);
    }
  }
}
