/**
  The other direction (lfs.c:509-520): from the end of the last commit and the tag before the
  next one, the xor chain gives back every tag, last to first.
 */
module Backward {
  import opened Crc
  import opened Tag
  import opened Commit

  /** A tag and the offset it was found at. */
  datatype Place = Place(tag: Word, off: nat)

  /** The tag the next one is xored with. */
  function After(tag: Word): Word { if IsCrc(tag) then NextTag(tag) else tag }

  /** The tags between two offsets, checksum tags included, in the order a fetch meets them. */
  function Trail(block: seq<bv8>, off: nat, ptag: Word, end: nat): seq<Place>
    decreases end - off
  {
    if off >= end || off + 4 > |block| then []
    else
      var tag := Xor(FromBe(block[off..off + 4]), ptag);
      [Place(tag, off)] + Trail(block, off + DSize(tag), After(tag), end)
  }

  /** A trail of valid tags that ends exactly at `end` with the chain at `etag`. */
  predicate Leads(block: seq<bv8>, off: nat, ptag: Word, end: nat, etag: Word)
    decreases end - off
  {
    if off >= end then off == end && ptag == etag
    else
      off + 4 <= |block| &&
      var tag := Xor(FromBe(block[off..off + 4]), ptag);
      IsValid(tag) && Leads(block, off + DSize(tag), After(tag), end, etag)
  }

  lemma {:induction false} LeadsOn(block: seq<bv8>, off: nat, ptag: Word, mid: nat, mtag: Word, end: nat, etag: Word)
    requires Leads(block, off, ptag, mid, mtag) && Leads(block, mid, mtag, end, etag) && mid <= end
    ensures Leads(block, off, ptag, end, etag)
    decreases mid - off
  {
    hide FromBe, Xor, IsValid, DSize, After;
    if off < mid {
      var tag := Xor(FromBe(block[off..off + 4]), ptag);
      LeadsOn(block, off + DSize(tag), After(tag), mid, mtag, end, etag);
    }
  }

  lemma {:induction false} ScanLeads(block: seq<bv8>, off: nat, ptag: Word, crc: Word)
    requires Scan(block, off, ptag, crc).Done?
    ensures Leads(block, off, ptag, Scan(block, off, ptag, crc).off, Scan(block, off, ptag, crc).etag)
    decreases |block| - off
  {
    hide FromBe, FromLe, Xor, IsValid, IsCrc, NextTag, Checksum, DSize, Scan, Leads;
    ScanUnfold(block, off, ptag, crc);
    var word := block[off..off + 4];
    var tag := Xor(FromBe(word), ptag);
    var s := Scan(block, off, ptag, crc);
    if IsCrc(tag) {
      LeadsHere(block, s.off, s.etag);
    } else {
      var crc' := Checksum(Checksum(crc, word), block[off + 4..off + DSize(tag)]);
      ScanLeads(block, off + DSize(tag), tag, crc');
    }
    LeadsUnfold(block, off, ptag, s.off, s.etag);
  }

  lemma LeadsHere(block: seq<bv8>, off: nat, ptag: Word)
    ensures Leads(block, off, ptag, off, ptag)
  {
  }

  lemma LeadsUnfold(block: seq<bv8>, off: nat, ptag: Word, end: nat, etag: Word)
    requires off < end && off + 4 <= |block|
    ensures var tag := Xor(FromBe(block[off..off + 4]), ptag);
            Leads(block, off, ptag, end, etag) <==>
              IsValid(tag) && Leads(block, off + DSize(tag), After(tag), end, etag)
  {
    hide FromBe, Xor, IsValid, DSize, After;
  }

  /** Good commits leave a trail. */
  lemma {:induction false} WalkLeads(block: seq<bv8>, off: nat, ptag: Word, crc: Word, end: nat)
    requires Walk(block, off, ptag, crc, end).Reached?
    ensures Leads(block, off, ptag, end, Walk(block, off, ptag, crc, end).etag)
    decreases |block| - off
  {
    hide Scan, Leads;
    if off == end {
      LeadsHere(block, off, ptag);
    } else {
      var s := Scan(block, off, ptag, crc);
      ScanLeads(block, off, ptag, crc);
      WalkLeads(block, s.off, s.etag, NULL, end);
      LeadsOn(block, off, ptag, s.off, s.etag, end, Walk(block, off, ptag, crc, end).etag);
    }
  }

  /** The attributes at the places of a trail; checksum tags are left out. */
  function Attrs(block: seq<bv8>, trail: seq<Place>): seq<Attr> {
    if trail == [] then []
    else
      var p := trail[0];
      (if IsCrc(p.tag) || p.off + DSize(p.tag) > |block|
       then [] else [Attr(p.tag, block[p.off + 4..p.off + DSize(p.tag)])])
      + Attrs(block, trail[1..])
  }

  lemma {:induction false} ScanTrail(block: seq<bv8>, off: nat, ptag: Word, crc: Word, end: nat)
    requires Scan(block, off, ptag, crc).Done? && Scan(block, off, ptag, crc).off <= end
    ensures var s := Scan(block, off, ptag, crc);
            Attrs(block, Trail(block, off, ptag, end)) == s.attrs + Attrs(block, Trail(block, s.off, s.etag, end))
    decreases |block| - off
  {
    hide FromBe, FromLe, Xor, IsValid, IsCrc, NextTag, Checksum, DSize, Scan, Trail, Attrs;
    ScanUnfold(block, off, ptag, crc);
    TrailUnfold(block, off, ptag, end);
    var word := block[off..off + 4];
    var tag := Xor(FromBe(word), ptag);
    if !IsCrc(tag) {
      var crc' := Checksum(Checksum(crc, word), block[off + 4..off + DSize(tag)]);
      ScanTrail(block, off + DSize(tag), tag, crc', end);
      var s := Scan(block, off + DSize(tag), tag, crc');
      var a := Attr(tag, block[off + 4..off + DSize(tag)]);
      assert [a] + s.attrs + Attrs(block, Trail(block, s.off, s.etag, end)) ==
               [a] + (s.attrs + Attrs(block, Trail(block, s.off, s.etag, end)));
    }
  }

  lemma TrailUnfold(block: seq<bv8>, off: nat, ptag: Word, end: nat)
    requires off < end && off + 4 <= |block|
    ensures var tag := Xor(FromBe(block[off..off + 4]), ptag);
            var rest := Trail(block, off + DSize(tag), After(tag), end);
            && Trail(block, off, ptag, end) == [Place(tag, off)] + rest
            && Attrs(block, Trail(block, off, ptag, end)) ==
                 (if IsCrc(tag) || off + DSize(tag) > |block|
                  then [] else [Attr(tag, block[off + 4..off + DSize(tag)])]) + Attrs(block, rest)
  {
    hide FromBe, Xor, DSize, After, IsCrc;
    var tag := Xor(FromBe(block[off..off + 4]), ptag);
    var rest := Trail(block, off + DSize(tag), After(tag), end);
    assert ([Place(tag, off)] + rest)[1..] == rest;
  }

  /** What was scanned is what lies on the trail. */
  lemma {:induction false} WalkTrail(block: seq<bv8>, off: nat, ptag: Word, crc: Word, end: nat)
    requires Walk(block, off, ptag, crc, end).Reached?
    ensures Attrs(block, Trail(block, off, ptag, end)) == Walk(block, off, ptag, crc, end).attrs
    decreases |block| - off
  {
    hide Scan, Attrs;
    if off < end {
      var s := Scan(block, off, ptag, crc);
      ScanTrail(block, off, ptag, crc, end);
      WalkTrail(block, s.off, s.etag, NULL, end);
    } else {
      NothingOnTrail(block, off, ptag, end);
    }
  }

  lemma NothingOnTrail(block: seq<bv8>, off: nat, ptag: Word, end: nat)
    requires off >= end
    ensures Attrs(block, Trail(block, off, ptag, end)) == []
  {
  }

  /** Where a trail stands after its first j tags. */
  ghost predicate StandsAt(block: seq<bv8>, off: nat, ptag: Word, end: nat, etag: Word, j: nat, at: nat, prev: Word) {
    && j <= |Trail(block, off, ptag, end)|
    && (j == 0 ==> at == off && prev == ptag)
    && (j > 0 ==>
          var p := Trail(block, off, ptag, end)[j - 1];
          p.off >= off && at == p.off + DSize(p.tag) && prev == After(p.tag) && IsValid(p.tag))
    && (j < |Trail(block, off, ptag, end)| ==>
          var p := Trail(block, off, ptag, end)[j];
          p.off == at && at + 4 <= |block| && p.tag == Xor(FromBe(block[at..at + 4]), prev))
    && (j == |Trail(block, off, ptag, end)| ==> at == end && prev == etag)
  }

  lemma {:induction false} Standing(block: seq<bv8>, off: nat, ptag: Word, end: nat, etag: Word, j: nat)
    returns (at: nat, prev: Word)
    requires Leads(block, off, ptag, end, etag) && j <= |Trail(block, off, ptag, end)|
    ensures StandsAt(block, off, ptag, end, etag, j, at, prev)
    decreases j
  {
    hide FromBe, Xor, IsValid, DSize, After;
    if j == 0 {
      at, prev := off, ptag;
    } else {
      var tag := Xor(FromBe(block[off..off + 4]), ptag);
      at, prev := Standing(block, off + DSize(tag), After(tag), end, etag, j - 1);
    }
  }

  /** The valid bit of a checksum tag's successor is the only trace of its reset flag. */
  lemma AfterIsBare(tag: Word)
    requires IsValid(tag)
    ensures Bare(After(tag)) == tag && DSize(After(tag)) == DSize(tag)
  {
    hide Xor, IsValid, Bare, SizeOf, HasReset, IsCrc;
    BareOfValid(tag);
    TopOnly(tag);
  }

  lemma ChainBack(word: Word, prev: Word, now: Word)
    requires now == Xor(word, prev) || now == Xor(Xor(word, prev), TOP)
    ensures Bare(Xor(word, now)) == Bare(prev)
  {
    hide Bare, Xor;
    if now == Xor(word, prev) {
      XorAssociates(word, word, prev);
      XorSelf(word, word);
      XorCommutes(ZERO, prev);
      XorZero(prev);
    } else {
      XorAssociates(Xor(word, prev), TOP, word);
      XorCommutes(word, now);
      XorCommutes(word, prev);
      XorCommutes(TOP, word);
      XorAssociates(Xor(prev, word), word, TOP);
      XorAssociates(prev, word, word);
      XorSelf(word, word);
      XorZero(prev);
      TopOnly(prev);
    }
  }

  lemma NullTag()
    ensures DSize(Bare(NULL)) == 4 && DSize(NULL) == 4
  {
    hide Number;
    assert BareBits(0xffff_ffff) == 0x7fff_ffff;
    assert LowField(0x7fff_ffff) == 0x3ff && LowField(0xffff_ffff) == 0x3ff;
    AllOnes();
  }

  lemma AllOnes()
    ensures Low10(0x3ff) == 0x3ff
  {
    assert BitAt(0x3ff, 0) && BitAt(0x3ff, 1) && BitAt(0x3ff, 2) && BitAt(0x3ff, 3) && BitAt(0x3ff, 4);
    assert BitAt(0x3ff, 5) && BitAt(0x3ff, 6) && BitAt(0x3ff, 7) && BitAt(0x3ff, 8) && BitAt(0x3ff, 9);
  }

  /**
    The loop of lfs_dir_getslice over a fetched block, without the test for the wanted tag: it
    visits exactly the tags the fetch met, at the same offsets, in reverse.
  */
  method WalkBack(block: seq<bv8>, end: nat, etag: Word) returns (tags: seq<Place>)
    requires |block| >= 4 && end <= |block|
    requires Walk(block, 4, NULL, Seed(block), end).Reached? && Walk(block, 4, NULL, Seed(block), end).etag == etag
    ensures var trail := Trail(block, 4, NULL, end);
            && |tags| == |trail|
            && (forall k :: 0 <= k < |tags| ==>
                            Bare(tags[k].tag) == trail[|trail| - 1 - k].tag
                            && tags[k].off == trail[|trail| - 1 - k].off)
            && Attrs(block, trail) == Walk(block, 4, NULL, Seed(block), end).attrs
  {
    hide FromBe, Xor, IsValid, DSize, After, Walk, Bare, Trail, Leads, IsCrc, NextTag, Attrs;
    WalkTrail(block, 4, NULL, Seed(block), end);
    WalkLeads(block, 4, NULL, Seed(block), end);
    ghost var trail := Trail(block, 4, NULL, end);
    var off, ntag := end, etag;
    tags := [];
    ghost var j := |trail|;
    ghost var prev := etag;
    ghost var at, first := Standing(block, 4, NULL, end, etag, j);
    while off >= 4 + DSize(ntag)
      invariant 0 <= j <= |trail| && |tags| == |trail| - j
      invariant forall k :: 0 <= k < |tags| ==>
                  Bare(tags[k].tag) == trail[|trail| - 1 - k].tag && tags[k].off == trail[|trail| - 1 - k].off
      invariant 4 <= off <= end && StandsAt(block, 4, NULL, end, etag, j, off, prev)
      invariant ntag == prev || ntag == Bare(prev)
      decreases j
    {
      AtStart(block, end, etag, j, off, prev, ntag);
      ghost var t := trail[j - 1].tag;
      at, first := Standing(block, 4, NULL, end, etag, j - 1);
      AfterIsBare(t);
      off := off - DSize(ntag);
      var tag := ntag;
      tags := tags + [Place(tag, off)];
      BareTwice(t, tag);
      ChainBack(FromBe(block[off..off + 4]), first, tag);
      ntag := Bare(Xor(FromBe(block[off..off + 4]), tag));
      j := j - 1;
      prev := first;
    }
    if j > 0 {
      AfterIsBare(trail[j - 1].tag);
    }
  }

  /** The loop goes on exactly while there are tags left. */
  lemma AtStart(block: seq<bv8>, end: nat, etag: Word, j: nat, off: nat, prev: Word, ntag: Word)
    requires StandsAt(block, 4, NULL, end, etag, j, off, prev) && (ntag == prev || ntag == Bare(prev))
    requires off >= 4 + DSize(ntag)
    ensures j > 0
  {
    hide Trail, DSize, Bare;
    NullTag();
  }

  lemma BareTwice(t: Word, tag: Word)
    requires IsValid(t) && (tag == After(t) || tag == Bare(After(t)))
    ensures Bare(tag) == t && (tag == t || tag == Xor(t, TOP)) && DSize(tag) == DSize(t)
  {
    hide Xor, IsValid, Bare, SizeOf, HasReset, IsCrc, DSize;
    AfterIsBare(t);
    BareOfValid(t);
  }
}
