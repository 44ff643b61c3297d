/**
  The threaded list of metadata pairs (lfs.c:3825-3890): every pair names the next one by its
  tail, a hard tail if the directory goes on there. Directories refer to the first pair of
  others by their entries.
 */
module Threads {
  import opened Crc
  import opened Gstate
  import opened Optional

  /** What a name stands for: a file (its struct and attributes), or the first pair of a directory. */
  datatype Entry = FileEntry(name: string, file: nat) | DirEntry(name: string, pair: Pair)

  /** The state of a pair between commits, with the delta of global state it stores. */
  datatype Dir = Dir(entries: seq<Entry>, tail: Option<Pair>, split: bool, delta: Gstate)

  type Disk = map<Pair, Dir>

  const ROOT := Pair(ZERO, Word(1))

  // ----- entries -----

  function Without(s: seq<Entry>, i: nat): seq<Entry> {
    if i < |s| then s[..i] + s[i + 1..] else s
  }

  function With(s: seq<Entry>, i: nat, e: Entry): seq<Entry>
    requires i <= |s|
  {
    s[..i] + [e] + s[i..]
  }

  function RefOf(e: Entry): multiset<Pair> { if e.DirEntry? then multiset{e.pair} else multiset{} }

  function RefsOf(s: seq<Entry>): multiset<Pair> {
    if s == [] then multiset{} else RefOf(s[0]) + RefsOf(s[1..])
  }

  lemma {:induction false} RefsOfConcat(a: seq<Entry>, b: seq<Entry>)
    ensures RefsOf(a + b) == RefsOf(a) + RefsOf(b)
  {
    hide RefOf;
    if a == [] {
      assert a + b == b;
    } else {
      RefsOfConcat(a[1..], b);
      assert (a + b)[1..] == a[1..] + b;
    }
  }

  lemma RefsOfOne(e: Entry)
    ensures RefsOf([e]) == RefOf(e)
  {
    hide RefOf;
    assert [e][1..] == [];
  }

  lemma RefsOfThree(a: seq<Entry>, e: Entry, b: seq<Entry>)
    ensures RefsOf(a + [e] + b) == RefsOf(a + b) + RefOf(e)
  {
    hide RefOf, RefsOf;
    RefsOfConcat(a + [e], b);
    RefsOfConcat(a, [e]);
    RefsOfConcat(a, b);
    RefsOfOne(e);
  }

  lemma RefsWithout(s: seq<Entry>, i: nat)
    requires i < |s|
    ensures RefsOf(s) == RefsOf(Without(s, i)) + RefOf(s[i])
  {
    hide RefOf, RefsOf;
    RefsOfThree(s[..i], s[i], s[i + 1..]);
    assert s == s[..i] + [s[i]] + s[i + 1..];
  }

  lemma RefsWith(s: seq<Entry>, i: nat, e: Entry)
    requires i <= |s|
    ensures RefsOf(With(s, i, e)) == RefsOf(s) + RefOf(e)
  {
    hide RefOf, RefsOf;
    RefsOfThree(s[..i], e, s[i..]);
    assert s == s[..i] + s[i..];
  }

  lemma {:induction false} RefsContain(s: seq<Entry>, i: nat)
    requires i < |s| && s[i].DirEntry?
    ensures s[i].pair in RefsOf(s)
  {
    RefsWithout(s, i);
  }

  // ----- the list -----

  /** Following tails from p passes exactly the list. */
  predicate Linked(disk: Disk, p: Option<Pair>, list: seq<Pair>)
    decreases |list|
  {
    if list == [] then p == None
    else p == Some(list[0]) && list[0] in disk && Linked(disk, disk[list[0]].tail, list[1..])
  }

  predicate Distinct(list: seq<Pair>) {
    forall i, j :: 0 <= i < j < |list| ==> list[i] != list[j]
  }

  /** The list a mount walks. */
  predicate Threaded(disk: Disk, list: seq<Pair>) {
    Linked(disk, Some(ROOT), list) && Distinct(list) && !InsideAfter(disk, false, list)
  }

  function DeltaOf(disk: Disk, p: Pair): Gstate { if p in disk then disk[p].delta else NOTHING }

  /** The xor of all deltas on the list. */
  function Total(disk: Disk, list: seq<Pair>): Gstate
    decreases |list|
  {
    if list == [] then NOTHING else Fold(DeltaOf(disk, list[0]), Total(disk, list[1..]))
  }

  /** The entries of a pair without the one that is to be deleted because it was moved. */
  function Visible(disk: Disk, m: Option<Move>, p: Pair): seq<Entry> {
    if p !in disk then []
    else if m.Some? && m.value.pair == p then Without(disk[p].entries, m.value.id)
    else disk[p].entries
  }

  /** The pairs that visible entries on the list refer to. */
  function Refs(disk: Disk, m: Option<Move>, list: seq<Pair>): multiset<Pair>
    decreases |list|
  {
    if list == [] then multiset{} else RefsOf(Visible(disk, m, list[0])) + Refs(disk, m, list[1..])
  }

  predicate SplitOf(disk: Disk, p: Pair) { p in disk && disk[p].split }

  /** The pairs on the list that do not continue the one before; `inside` if the first does. */
  function Heads(disk: Disk, inside: bool, list: seq<Pair>): multiset<Pair>
    decreases |list|
  {
    if list == [] then multiset{}
    else (if inside then multiset{} else multiset{list[0]}) + Heads(disk, SplitOf(disk, list[0]), list[1..])
  }

  // ----- lists in parts -----

  function TailAfter(disk: Disk, p: Option<Pair>, a: seq<Pair>): Option<Pair>
    requires forall x <- a :: x in disk
  {
    if a == [] then p else disk[a[|a| - 1]].tail
  }

  function InsideAfter(disk: Disk, inside: bool, a: seq<Pair>): bool {
    if a == [] then inside else SplitOf(disk, a[|a| - 1])
  }

  lemma {:induction false} LinkedConcat(disk: Disk, p: Option<Pair>, a: seq<Pair>, b: seq<Pair>)
    requires forall x <- a :: x in disk
    ensures Linked(disk, p, a + b) ==> Linked(disk, TailAfter(disk, p, a), b)
    ensures Linked(disk, p, a + b) ==> LinkedUpTo(disk, p, a)
    ensures LinkedUpTo(disk, p, a) && Linked(disk, TailAfter(disk, p, a), b) ==> Linked(disk, p, a + b)
    decreases |a|
  {
    if a == [] {
      assert a + b == b;
    } else {
      assert (a + b)[1..] == a[1..] + b;
      LinkedConcat(disk, disk[a[0]].tail, a[1..], b);
    }
  }

  predicate LinkedUpTo(disk: Disk, p: Option<Pair>, a: seq<Pair>)
    decreases |a|
  {
    a == [] || (p == Some(a[0]) && a[0] in disk && LinkedUpTo(disk, disk[a[0]].tail, a[1..]))
  }

  lemma {:induction false} LinkedIn(disk: Disk, p: Option<Pair>, list: seq<Pair>)
    requires Linked(disk, p, list)
    ensures forall x <- list :: x in disk
    decreases |list|
  {
    if list != [] {
      LinkedIn(disk, disk[list[0]].tail, list[1..]);
    }
  }

  lemma {:induction false} TotalConcat(disk: Disk, a: seq<Pair>, b: seq<Pair>)
    ensures Total(disk, a + b) == Fold(Total(disk, a), Total(disk, b))
    decreases |a|
  {
    hide Fold;
    if a == [] {
      assert a + b == b;
      FoldNothing(Total(disk, b));
    } else {
      assert (a + b)[1..] == a[1..] + b;
      TotalConcat(disk, a[1..], b);
      FoldAssociates(DeltaOf(disk, a[0]), Total(disk, a[1..]), Total(disk, b));
    }
  }

  lemma {:induction false} RefsConcat(disk: Disk, m: Option<Move>, a: seq<Pair>, b: seq<Pair>)
    ensures Refs(disk, m, a + b) == Refs(disk, m, a) + Refs(disk, m, b)
    decreases |a|
  {
    if a == [] {
      assert a + b == b;
    } else {
      assert (a + b)[1..] == a[1..] + b;
      RefsConcat(disk, m, a[1..], b);
    }
  }

  lemma {:induction false} HeadsConcat(disk: Disk, inside: bool, a: seq<Pair>, b: seq<Pair>)
    ensures Heads(disk, inside, a + b) == Heads(disk, inside, a) + Heads(disk, InsideAfter(disk, inside, a), b)
    decreases |a|
  {
    if a == [] {
      assert a + b == b;
    } else {
      assert (a + b)[1..] == a[1..] + b;
      HeadsConcat(disk, SplitOf(disk, a[0]), a[1..], b);
    }
  }

  // ----- pairs that did not change -----

  predicate SameOn(disk: Disk, disk': Disk, list: seq<Pair>) {
    forall x <- list :: (x in disk <==> x in disk') && (x in disk ==> disk[x] == disk'[x])
  }

  lemma {:induction false} SameTotal(disk: Disk, disk': Disk, list: seq<Pair>)
    requires SameOn(disk, disk', list)
    ensures Total(disk', list) == Total(disk, list)
    decreases |list|
  {
    hide Fold;
    if list != [] {
      SameTotal(disk, disk', list[1..]);
    }
  }

  lemma {:induction false} SameHeads(disk: Disk, disk': Disk, inside: bool, list: seq<Pair>)
    requires SameOn(disk, disk', list)
    ensures Heads(disk', inside, list) == Heads(disk, inside, list)
    decreases |list|
  {
    if list != [] {
      SameHeads(disk, disk', SplitOf(disk, list[0]), list[1..]);
    }
  }

  predicate Elsewhere(m: Option<Move>, list: seq<Pair>) { m.Some? ==> m.value.pair !in list }

  /** The move matters only to its own pair. */
  lemma {:induction false} SameRefs(disk: Disk, disk': Disk, m: Option<Move>, m': Option<Move>, list: seq<Pair>)
    requires SameOn(disk, disk', list)
    requires m == m' || (Elsewhere(m, list) && Elsewhere(m', list))
    ensures Refs(disk', m', list) == Refs(disk, m, list)
    decreases |list|
  {
    if list != [] {
      SameRefs(disk, disk', m, m', list[1..]);
    }
  }

  lemma {:induction false} SameLinked(disk: Disk, disk': Disk, p: Option<Pair>, list: seq<Pair>)
    requires SameOn(disk, disk', list) && Linked(disk, p, list)
    ensures Linked(disk', p, list)
    decreases |list|
  {
    if list != [] {
      SameLinked(disk, disk', disk[list[0]].tail, list[1..]);
    }
  }

  lemma {:induction false} SameUpTo(disk: Disk, disk': Disk, p: Option<Pair>, list: seq<Pair>)
    requires SameOn(disk, disk', list) && LinkedUpTo(disk, p, list)
    ensures LinkedUpTo(disk', p, list)
    decreases |list|
  {
    if list != [] {
      SameUpTo(disk, disk', disk[list[0]].tail, list[1..]);
    }
  }

  // ----- one pair of the list -----

  lemma TotalAround(disk: Disk, a: seq<Pair>, p: Pair, b: seq<Pair>)
    ensures Total(disk, a + [p] + b) == Fold(Fold(Total(disk, a), Total(disk, b)), DeltaOf(disk, p))
  {
    hide Fold, Total;
    TotalConcat(disk, a + [p], b);
    TotalConcat(disk, a, [p]);
    TotalOne(disk, p);
    var x, d, y := Total(disk, a), DeltaOf(disk, p), Total(disk, b);
    FoldAssociates(x, d, y);
    FoldCommutes(d, y);
    FoldAssociates(x, y, d);
  }

  lemma TotalOne(disk: Disk, p: Pair)
    ensures Total(disk, [p]) == DeltaOf(disk, p)
  {
    hide Fold;
    assert [p][1..] == [];
    FoldNothing(DeltaOf(disk, p));
  }

  lemma RefsAround(disk: Disk, m: Option<Move>, a: seq<Pair>, p: Pair, b: seq<Pair>)
    ensures Refs(disk, m, a + [p] + b) == Refs(disk, m, a + b) + RefsOf(Visible(disk, m, p))
  {
    hide RefsOf, Visible, Refs;
    RefsConcat(disk, m, a + [p], b);
    RefsConcat(disk, m, a, [p]);
    RefsConcat(disk, m, a, b);
    RefsOne(disk, m, p);
  }

  lemma RefsOne(disk: Disk, m: Option<Move>, p: Pair)
    ensures Refs(disk, m, [p]) == RefsOf(Visible(disk, m, p))
  {
    hide RefsOf, Visible;
    assert [p][1..] == [];
  }

  lemma HeadsAround(disk: Disk, a: seq<Pair>, p: Pair, b: seq<Pair>)
    ensures Heads(disk, false, a + [p] + b) ==
              Heads(disk, false, a) + Heads(disk, InsideAfter(disk, false, a), [p]) + Heads(disk, SplitOf(disk, p), b)
  {
    hide Heads;
    HeadsConcat(disk, false, a + [p], b);
    HeadsConcat(disk, false, a, [p]);
    assert InsideAfter(disk, false, a + [p]) == SplitOf(disk, p);
  }

  lemma LinkedAround(disk: Disk, a: seq<Pair>, p: Pair, b: seq<Pair>)
    requires p in disk && forall x <- a :: x in disk
    ensures Linked(disk, Some(ROOT), a + [p] + b) <==>
            LinkedUpTo(disk, Some(ROOT), a) && TailAfter(disk, Some(ROOT), a) == Some(p)
            && Linked(disk, disk[p].tail, b)
  {
    hide Linked, LinkedUpTo;
    assert a + [p] + b == a + ([p] + b);
    LinkedConcat(disk, Some(ROOT), a, [p] + b);
    LinkedFirst(disk, TailAfter(disk, Some(ROOT), a), p, b);
    LinkedConcatBoth(disk, a, [p] + b);
  }

  lemma LinkedFirst(disk: Disk, q: Option<Pair>, p: Pair, b: seq<Pair>)
    requires p in disk
    ensures Linked(disk, q, [p] + b) <==> q == Some(p) && Linked(disk, disk[p].tail, b)
  {
    assert ([p] + b)[1..] == b;
  }

  lemma {:induction false} LinkedConcatBoth(disk: Disk, a: seq<Pair>, b: seq<Pair>)
    requires forall x <- a :: x in disk
    ensures Linked(disk, Some(ROOT), a + b) <==>
              LinkedUpTo(disk, Some(ROOT), a) && Linked(disk, TailAfter(disk, Some(ROOT), a), b)
  {
    LinkedConcat(disk, Some(ROOT), a, b);
  }

  /** Only the pair at i changed, and neither its tail nor its split flag. */
  predicate OneChanged(disk: Disk, disk': Disk, list: seq<Pair>, i: nat) {
    && i < |list| && Threaded(disk, list) && list[i] in disk && list[i] in disk'
    && disk' == disk[list[i] := disk'[list[i]]]
    && disk'[list[i]].tail == disk[list[i]].tail && disk'[list[i]].split == disk[list[i]].split
  }

  lemma OneChangedParts(disk: Disk, disk': Disk, list: seq<Pair>, i: nat)
    requires OneChanged(disk, disk', list, i)
    ensures list == list[..i] + [list[i]] + list[i + 1..]
    ensures SameOn(disk, disk', list[..i]) && SameOn(disk, disk', list[i + 1..])
    ensures forall x <- list[..i] :: x in disk && x in disk'
  {
    hide Linked, InsideAfter;
    LinkedIn(disk, Some(ROOT), list);
  }

  lemma OneChangedThreads(disk: Disk, disk': Disk, list: seq<Pair>, i: nat)
    requires OneChanged(disk, disk', list, i)
    ensures Threaded(disk', list)
  {
    hide Linked, LinkedUpTo, InsideAfter, Distinct, SameOn;
    var a, p, b := list[..i], list[i], list[i + 1..];
    OneChangedParts(disk, disk', list, i);
    LinkedAround(disk, a, p, b);
    SameUpTo(disk, disk', Some(ROOT), a);
    SameLinked(disk, disk', disk[p].tail, b);
    SameTail(disk, disk', a);
    LinkedAround(disk', a, p, b);
    SameInside(disk, disk', list, i);
  }

  lemma SameTail(disk: Disk, disk': Disk, a: seq<Pair>)
    requires SameOn(disk, disk', a) && (forall x <- a :: x in disk && x in disk')
    ensures TailAfter(disk', Some(ROOT), a) == TailAfter(disk, Some(ROOT), a)
  {
  }

  /** A commit that keeps the tail of a pair: the delta it folds in is folded into the total. */
  lemma Rewritten(disk: Disk, disk': Disk, list: seq<Pair>, i: nat, g: Gstate)
    requires OneChanged(disk, disk', list, i) && disk'[list[i]].delta == Fold(disk[list[i]].delta, g)
    ensures Threaded(disk', list)
    ensures Total(disk', list) == Fold(Total(disk, list), g)
    ensures Heads(disk', false, list) == Heads(disk, false, list)
  {
    hide Fold, Heads, Threaded, Total, SameOn, InsideAfter;
    var a, p, b := list[..i], list[i], list[i + 1..];
    OneChangedParts(disk, disk', list, i);
    OneChangedThreads(disk, disk', list, i);
    SameTotal(disk, disk', a);
    SameTotal(disk, disk', b);
    TotalAround(disk, a, p, b);
    TotalAround(disk', a, p, b);
    FoldAssociates(Fold(Total(disk, a), Total(disk, b)), disk[p].delta, g);
    HeadsAround(disk, a, p, b);
    HeadsAround(disk', a, p, b);
    SameHeads(disk, disk', false, a);
    SameHeads(disk, disk', disk[p].split, b);
    SameHeadOne(disk, disk', InsideAfter(disk, false, a), p);
    SameInsideAfter(disk, disk', a);
  }

  lemma SameInsideAfter(disk: Disk, disk': Disk, a: seq<Pair>)
    requires SameOn(disk, disk', a)
    ensures InsideAfter(disk', false, a) == InsideAfter(disk, false, a)
  {
  }

  lemma SameInside(disk: Disk, disk': Disk, list: seq<Pair>, i: nat)
    requires i < |list| && list[i] in disk && list[i] in disk'
    requires disk' == disk[list[i] := disk'[list[i]]] && disk'[list[i]].split == disk[list[i]].split
    ensures InsideAfter(disk', false, list) == InsideAfter(disk, false, list)
  {
  }

  lemma SameHeadOne(disk: Disk, disk': Disk, inside: bool, p: Pair)
    ensures Heads(disk', inside, [p]) == Heads(disk, inside, [p]) == if inside then multiset{} else multiset{p}
  {
    assert [p][1..] == [];
  }

  /** The references of one changed pair, whatever becomes of the move. */
  lemma RewrittenRefs(disk: Disk, disk': Disk, m: Option<Move>, m': Option<Move>, list: seq<Pair>, i: nat)
    requires i < |list| && Distinct(list) && SameOn(disk, disk', list[..i] + list[i + 1..])
    requires m == m' || (Elsewhere(m, list[..i] + list[i + 1..]) && Elsewhere(m', list[..i] + list[i + 1..]))
    ensures Refs(disk', m', list) + RefsOf(Visible(disk, m, list[i])) ==
              Refs(disk, m, list) + RefsOf(Visible(disk', m', list[i]))
  {
    hide RefsOf, Visible, Refs;
    var a, p, b := list[..i], list[i], list[i + 1..];
    assert list == a + [p] + b;
    RefsAround(disk, m, a, p, b);
    RefsAround(disk', m', a, p, b);
    SameRefs(disk, disk', m, m', a + b);
  }

  /** A list and the same list with one more pair behind p, as a link or a drop makes it. */
  predicate OneMore(short: Disk, long: Disk, a: seq<Pair>, p: Pair, n: Pair, b: seq<Pair>) {
    && n !in a && n !in b && n != p && Distinct(a + [p] + b)
    && p in short && p in long && n in long
    && SameOn(short, long, a) && SameOn(short, long, b)
    && long[p].tail == Some(n) && long[n].tail == short[p].tail && long[n].split == short[p].split
  }

  lemma OneMoreThreads(short: Disk, long: Disk, a: seq<Pair>, p: Pair, n: Pair, b: seq<Pair>)
    requires OneMore(short, long, a, p, n, b)
    ensures Threaded(long, a + [p] + ([n] + b)) <==> Threaded(short, a + [p] + b)
  {
    hide Linked, LinkedUpTo, Distinct, SplitOf;
    OneMoreDistinct(a, p, n, b);
    OneMoreInside(short, long, a, p, n, b);
    if Linked(short, Some(ROOT), a + [p] + b) {
      OneMoreLinked(short, long, a, p, n, b);
    }
    if Linked(long, Some(ROOT), a + [p] + ([n] + b)) {
      OneLessLinked(short, long, a, p, n, b);
    }
  }

  lemma OneMoreInside(short: Disk, long: Disk, a: seq<Pair>, p: Pair, n: Pair, b: seq<Pair>)
    requires OneMore(short, long, a, p, n, b)
    ensures InsideAfter(long, false, a + [p] + ([n] + b)) == InsideAfter(short, false, a + [p] + b)
  {
    hide Distinct;
    if b != [] {
      assert b[|b| - 1] in b;
    }
  }

  lemma OneMoreLinked(short: Disk, long: Disk, a: seq<Pair>, p: Pair, n: Pair, b: seq<Pair>)
    requires OneMore(short, long, a, p, n, b) && Linked(short, Some(ROOT), a + [p] + b)
    ensures Linked(long, Some(ROOT), a + [p] + ([n] + b))
  {
    hide Linked, LinkedUpTo, Distinct;
    LinkedIn(short, Some(ROOT), a + [p] + b);
    assert forall x <- a :: x in a + [p] + b;
    LinkedAround(short, a, p, b);
    SameUpTo(short, long, Some(ROOT), a);
    SameLinked(short, long, short[p].tail, b);
    LinkedFirst(long, Some(n), n, b);
    LinkedAround(long, a, p, [n] + b);
  }

  lemma OneLessLinked(short: Disk, long: Disk, a: seq<Pair>, p: Pair, n: Pair, b: seq<Pair>)
    requires OneMore(short, long, a, p, n, b) && Linked(long, Some(ROOT), a + [p] + ([n] + b))
    ensures Linked(short, Some(ROOT), a + [p] + b)
  {
    hide Linked, LinkedUpTo, Distinct;
    LinkedIn(long, Some(ROOT), a + [p] + ([n] + b));
    assert forall x <- a :: x in a + [p] + ([n] + b);
    LinkedAround(long, a, p, [n] + b);
    LinkedFirst(long, Some(n), n, b);
    SameUpTo(long, short, Some(ROOT), a);
    SameLinked(long, short, long[n].tail, b);
    LinkedAround(short, a, p, b);
  }

  lemma OneMoreDistinct(a: seq<Pair>, p: Pair, n: Pair, b: seq<Pair>)
    requires n !in a && n !in b && n != p && Distinct(a + [p] + b)
    ensures Distinct(a + [p] + ([n] + b))
  {
    var l, s := a + [p] + ([n] + b), a + [p] + b;
    var k := |a| + 1;
    forall i, j | 0 <= i < j < |l|
      ensures l[i] != l[j]
    {
      var x, y := if i <= k then i else i - 1, if j <= k then j else j - 1;
      assert i != k ==> l[i] == s[x];
      assert j != k ==> l[j] == s[y];
      assert l[k] == n;
      if i == k {
        assert l[j] == b[j - k - 1] && b[j - k - 1] in b;
      } else if j == k {
        assert i < |a| ==> l[i] == a[i] && a[i] in a;
      }
    }
  }

  lemma OneMoreTotal(short: Disk, long: Disk, a: seq<Pair>, p: Pair, n: Pair, b: seq<Pair>, g: Gstate)
    requires OneMore(short, long, a, p, n, b)
    ensures long[p].delta == Fold(short[p].delta, g) ==>
              Total(long, a + [p] + ([n] + b)) == Fold(Fold(Total(short, a + [p] + b), g), long[n].delta)
    ensures short[p].delta == Fold(long[p].delta, Fold(g, long[n].delta)) ==>
              Total(short, a + [p] + b) == Fold(Total(long, a + [p] + ([n] + b)), g)
  {
    hide Fold, Total;
    SameTotal(short, long, a);
    SameTotal(short, long, b);
    TotalAround(short, a, p, b);
    TotalAround(long, a, p, [n] + b);
    TotalConcat(long, [n], b);
    TotalOne(long, n);
    var x, y, dp, dn := Total(long, a), Total(long, b), long[p].delta, long[n].delta;
    // the long total in a simple order: ((x + y) + dp) + dn
    FoldCommutes(dn, y);
    FoldAssociates(x, y, dn);
    var r := Fold(x, y);
    FoldAssociates(r, dn, dp);
    FoldCommutes(dn, dp);
    FoldAssociates(r, dp, dn);
    FoldAssociates(r, short[p].delta, g);
    FoldCommutes(g, dn);
    FoldAssociates(dp, dn, g);
    FoldAssociates(r, Fold(dp, dn), g);
    FoldAssociates(r, dp, dn);
  }

  lemma OneMoreHeads(short: Disk, long: Disk, a: seq<Pair>, p: Pair, n: Pair, b: seq<Pair>)
    requires OneMore(short, long, a, p, n, b)
    ensures Heads(long, false, a + [p] + ([n] + b))
         == Heads(short, false, a + [p] + b) + (if long[p].split then multiset{} else multiset{n})
  {
    hide Heads;
    HeadsAround(short, a, p, b);
    HeadsAround(long, a, p, [n] + b);
    HeadsConcat(long, long[p].split, [n], b);
    assert InsideAfter(long, long[p].split, [n]) == long[n].split;
    SameHeadOne(short, long, long[p].split, n);
    SameHeadOne(short, long, InsideAfter(short, false, a), p);
    SameHeads(short, long, false, a);
    SameHeads(short, long, long[n].split, b);
  }

  lemma OneMoreRefs(short: Disk, long: Disk, m: Option<Move>, m': Option<Move>, a: seq<Pair>, p: Pair, n: Pair,
                    b: seq<Pair>)
    requires OneMore(short, long, a, p, n, b)
    requires m == m' || (Elsewhere(m, a + b) && Elsewhere(m', a + b))
    ensures Refs(long, m', a + [p] + ([n] + b)) + RefsOf(Visible(short, m, p))
         == Refs(short, m, a + [p] + b) + RefsOf(Visible(long, m', p)) + RefsOf(Visible(long, m', n))
  {
    hide RefsOf, Visible, Refs;
    RefsAround(short, m, a, p, b);
    RefsAround(long, m', a, p, [n] + b);
    RefsAround(long, m', a, n, b);
    assert a + ([n] + b) == a + [n] + b;
    SameRefs(short, long, m, m', a + b);
  }
}
