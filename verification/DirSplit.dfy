/**
  Splitting during compaction (lfs.c:1382-1482): while the kept entries of a range do not fit,
  the upper half of the range is compacted into a new pair that becomes the tail.
 */
module DirSplit {
  import opened Util
  import opened Optional
  import opened DirLog
  import opened DirCompact

  /** lfs_tag_dsize summed by lfs_dir_commit_size. */
  function Size(log: seq<Entry>): nat {
    if log == [] then 0
    else Size(log[..|log| - 1]) + 4 + (if log[|log| - 1].size == DELETED then 0 else log[|log| - 1].size)
  }

  datatype Range = Range(lo: nat, hi: nat)

  function Minus(n: nat): int { -(n as int) }

  /** The entries compaction writes for a range of ids. */
  function Piece(all: seq<Entry>, r: Range): seq<Entry>
    requires AllWellFormed(all)
  {
    Cut(Emitted(Compact, all), r.lo, r.hi, Minus(r.lo))
  }

  /** Consecutive ranges from `begin` to `end`. */
  predicate Chain(chain: seq<Range>, begin: nat, end: nat) {
    if chain == [] then begin == end
    else chain[0].lo == begin && begin <= chain[0].hi && Chain(chain[1..], chain[0].hi, end)
  }

  lemma OneRange(begin: nat, end: nat)
    requires begin <= end
    ensures Chain([], end, end) && Chain([Range(begin, end)], begin, end)
  {
  }

  /** A pair can hold its entries; a range of one id is never split. */
  ghost predicate AllFit(chain: seq<Range>, all: seq<Entry>, blockSize: nat)
    requires AllWellFormed(all)
  {
    forall j :: 0 <= j < |chain| ==> chain[j].hi <= chain[j].lo + 1 || Size(Piece(all, chain[j])) + 36 <= blockSize
  }

  lemma ChainConcat(a: seq<Range>, b: seq<Range>, begin: nat, mid: nat, end: nat)
    requires Chain(a, begin, mid) && Chain(b, mid, end)
    ensures Chain(a + b, begin, end)
  {
    if a == [] {
      assert a + b == b;
    } else {
      assert (a + b)[1..] == a[1..] + b;
      ChainConcat(a[1..], b, a[0].hi, mid, end);
    }
  }

  /** No more splitting: a single id, or little enough that half a block stays free for updates. */
  ghost predicate Roomy(all: seq<Entry>, r: Range, blockSize: nat, progSize: nat)
    requires AllWellFormed(all) && progSize > 0 && r.lo <= r.hi
  {
    var size := Size(Piece(all, r));
    r.hi - r.lo <= 1 || (r.hi - r.lo < 0xff && size + 36 <= blockSize && size <= AlignUp(blockSize / 2, progSize))
  }

  /** A range of several ids that not even a whole block can hold. */
  ghost predicate TooLarge(all: seq<Entry>, r: Range, blockSize: nat)
    requires AllWellFormed(all)
  {
    r.hi > r.lo + 1 && Size(Piece(all, r)) + 36 > blockSize
  }

  /** Halving where there is always space for another pair. */
  ghost function Halved(all: seq<Entry>, begin: nat, end: nat, blockSize: nat, progSize: nat): (chain: seq<Range>)
    requires AllWellFormed(all) && begin <= end && progSize > 0
    ensures |chain| > 0
    decreases end - begin
  {
    if Roomy(all, Range(begin, end), blockSize, progSize) then [Range(begin, end)]
    else
      var mid := begin + (end - begin) / 2;
      Halved(all, begin, mid, blockSize, progSize) + Halved(all, mid, end, blockSize, progSize)
  }

  lemma HalvedStep(all: seq<Entry>, begin: nat, hi: nat, blockSize: nat, progSize: nat, chain: seq<Range>)
    requires AllWellFormed(all) && begin <= hi && progSize > 0
    ensures var whole, mid := Halved(all, begin, hi, blockSize, progSize), begin + (hi - begin) / 2;
            if Roomy(all, Range(begin, hi), blockSize, progSize) then whole == [Range(begin, hi)]
            else whole + chain ==
                 Halved(all, begin, mid, blockSize, progSize) + (Halved(all, mid, hi, blockSize, progSize) + chain)
                 && |whole| ==
                      |Halved(all, begin, mid, blockSize, progSize)| + |Halved(all, mid, hi, blockSize, progSize)|
  {
    hide Piece, Size;
  }

  /** Halving makes a chain that covers the range, of roomy pieces only; a roomy range is left alone. */
  lemma {:induction false} HalvedIsRoomy(all: seq<Entry>, begin: nat, end: nat, blockSize: nat, progSize: nat)
    requires AllWellFormed(all) && begin <= end && progSize > 0
    ensures var chain := Halved(all, begin, end, blockSize, progSize);
            && Chain(chain, begin, end)
            && (forall j :: 0 <= j < |chain| ==>
                  chain[j].lo <= chain[j].hi && Roomy(all, chain[j], blockSize, progSize))
            && (|chain| == 1 <==> Roomy(all, Range(begin, end), blockSize, progSize))
    decreases end - begin
  {
    hide Piece, Size, AlignUp, Chain;
    OneRange(begin, end);
    if !Roomy(all, Range(begin, end), blockSize, progSize) {
      var mid := begin + (end - begin) / 2;
      HalvedIsRoomy(all, begin, mid, blockSize, progSize);
      HalvedIsRoomy(all, mid, end, blockSize, progSize);
      ChainConcat(Halved(all, begin, mid, blockSize, progSize), Halved(all, mid, end, blockSize, progSize), begin, mid,
                  end);
    }
  }

  /**
    The splitting loop of lfs_dir_compact with lfs_dir_split. `space` is how many pairs can
    still be allocated; without space a range that fits a whole block is overcompacted.
    Returns the ranges in the order of the tail pointers, or failure.
  */
  method CompactChain(all: seq<Entry>, begin: nat, end: nat, blockSize: nat, progSize: nat, space: nat)
    returns (ok: bool, chain: seq<Range>, left: nat)
    requires AllWellFormed(all) && begin <= end && progSize > 0
    ensures ok ==> Chain(chain, begin, end) && |chain| > 0 && AllFit(chain, all, blockSize)
    ensures left <= space && (ok ==> |chain| <= space - left + 1)
    ensures |Halved(all, begin, end, blockSize, progSize)| <= space ==> left > 0
    ensures left > 0 ==> ok && chain == Halved(all, begin, end, blockSize, progSize) && |chain| == space - left + 1
    ensures !ok ==> exists hi :: begin <= hi <= end && TooLarge(all, Range(begin, hi), blockSize)
    ensures Roomy(all, Range(begin, end), blockSize, progSize) ==> ok && chain == [Range(begin, end)] && left == space
    decreases end - begin
  {
    hide Piece, Size, Halved, Chain;
    OneRange(begin, end);
    var hi := end;
    chain, left := [], space;
    ghost var whole := Halved(all, begin, end, blockSize, progSize);
    assert whole == Halved(all, begin, hi, blockSize, progSize) + chain;
    while hi - begin > 1
      invariant begin <= hi <= end && left <= space
      invariant begin + 1 < end ==> begin < hi
      invariant Chain(chain, hi, end) && AllFit(chain, all, blockSize)
      invariant |chain| <= space - left
      invariant Roomy(all, Range(begin, end), blockSize, progSize) ==> hi == end && chain == [] && left == space
      invariant |whole| <= space ==> left > 0
      invariant left > 0 ==> whole == Halved(all, begin, hi, blockSize, progSize) + chain && |chain| == space - left
      decreases hi
    {
      HalvedStep(all, begin, hi, blockSize, progSize, chain);
      var size := Size(Piece(all, Range(begin, hi)));
      if hi - begin < 0xff && size + 36 <= blockSize && size <= AlignUp(blockSize / 2, progSize) {
        break;
      }
      var split := (hi - begin) / 2;
      var done := false;
      if left > 0 {
        left := left - 1;
        var sub, rest;
        done, sub, rest := CompactChain(all, begin + split, hi, blockSize, progSize, left);
        left := rest;
        if done {
          ChainConcat(sub, chain, begin + split, hi, end);
          chain := sub + chain;
        }
      }
      if !done {
        if size + 36 <= blockSize {
          break;
        }
        return false, [], left;
      }
      hi := begin + split;
    }
    ok := true;
    HalvedStep(all, begin, hi, blockSize, progSize, chain);
    OneRange(begin, hi);
    ChainConcat([Range(begin, hi)], chain, begin, hi, end);
    chain := [Range(begin, hi)] + chain;
  }

  /** How many ids the first j pairs of a chain hold. */
  function Preceding(chain: seq<Range>, j: nat): int
    requires j <= |chain|
  {
    if j == 0 then 0 else chain[0].hi - chain[0].lo + Preceding(chain[1..], j - 1)
  }

  lemma {:induction false} ChainPosition(chain: seq<Range>, begin: nat, end: nat, j: nat)
    requires Chain(chain, begin, end) && j <= |chain|
    ensures j < |chain| ==> begin <= begin + Preceding(chain, j) == chain[j].lo <= chain[j].hi <= end
    ensures j == |chain| ==> begin + Preceding(chain, j) == end
    ensures begin <= end
  {
    if chain != [] {
      ChainPosition(chain[1..], chain[0].hi, end, if j > 0 then j - 1 else 0);
    }
  }

  /**
    The chained pairs hold the original entries in order: id k of pair j is the id that
    comes after all the ids of the pairs before it, with the same attributes, and the
    pairs together hold exactly end - begin ids.
  */
  lemma ChainHoldsAll(c: Class, all: seq<Entry>, chain: seq<Range>, begin: nat, end: nat, j: nat, k: nat)
    requires AllWellFormed(all) && WantedClass(Compact, c)
    requires Chain(chain, begin, end) && j < |chain|
    ensures Preceding(chain, |chain|) == end - begin && Preceding(chain, j) >= 0
    ensures k < chain[j].hi - chain[j].lo ==>
              Lookup(Column(c, Piece(all, chain[j])), k) ==
                Lookup(Column(c, all), begin + (Preceding(chain, j) as nat) + k)
    ensures k >= chain[j].hi - chain[j].lo ==> Lookup(Column(c, Piece(all, chain[j])), k) == None
  {
    hide Piece, Column, Emitted, Cut, Chain;
    ChainPosition(chain, begin, end, j);
    ChainPosition(chain, begin, end, |chain|);
    PieceLookup(c, all, chain[j], k);
  }

  lemma PieceLookup(c: Class, all: seq<Entry>, r: Range, k: nat)
    requires AllWellFormed(all) && WantedClass(Compact, c)
    ensures Lookup(Column(c, Piece(all, r)), k) == if k < r.hi - r.lo then Lookup(Column(c, all), r.lo + k) else None
  {
    hide Column, Emitted, Cut;
    EmittedColumn(c, Compact, all);
    EmittedIsPlain(Compact, all);
    CutColumn(c, Emitted(Compact, all), r.lo, r.hi, Minus(r.lo));
    assert Back(k, Minus(r.lo)) == r.lo + k;
  }

  // ----- the count of a compacted pair -----

  /** The count lfs_dir_fetchmatch derives from names and splices. */
  function Count(log: seq<Entry>): int {
    if log == [] then 0
    else
      var n, e := Count(log[..|log| - 1]), log[|log| - 1];
      if e.major == NAME then (if e.id >= n then e.id + 1 else n)
      else if e.major == SPLICE then n + Splice(e)
      else n
  }

  lemma {:induction false} CountOfPlain(log: seq<Entry>, n: nat)
    requires Plain(log) && (forall e :: e in log ==> e.id < n)
    ensures 0 <= Count(log) <= n
    ensures forall i :: i in Column(NAMES, log) ==> i < Count(log)
  {
    if log != [] {
      var front, e := log[..|log| - 1], log[|log| - 1];
      CountOfPlain(front, n);
    }
  }

  lemma {:induction false} CutIds(log: seq<Entry>, begin: nat, end: nat)
    requires begin <= end
    ensures forall e :: e in Cut(log, begin, end, Minus(begin)) ==> e.id < end - begin
    ensures Plain(log) ==> Plain(Cut(log, begin, end, Minus(begin)))
  {
    if log != [] {
      CutIds(log[..|log| - 1], begin, end);
    }
  }

  /** A compacted pair carries no CREATE tags; its names alone give back the count the writer stored. */
  lemma CompactedCount(all: seq<Entry>, r: Range)
    requires AllWellFormed(all) && r.lo <= r.hi
    requires r.lo < r.hi ==> r.hi - 1 in Column(NAMES, all)
    ensures Count(Piece(all, r)) == r.hi - r.lo
  {
    hide Column, Emitted, Cut, Count;
    EmittedIsPlain(Compact, all);
    CutIds(Emitted(Compact, all), r.lo, r.hi);
    CountOfPlain(Piece(all, r), r.hi - r.lo);
    if r.lo < r.hi {
      PieceLookup(NAMES, all, r, r.hi - 1 - r.lo);
    }
  }
}
