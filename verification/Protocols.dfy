/**
  The operations that touch more than one metadata pair (lfs.c:1363-1413, 1433-1854, 1858-1943,
  3101-3294, 3955-4081), a commit at a time: each commit of one pair is atomic, and the power
  may be lost between any two of them.
 */
module Protocols {
  import opened Crc
  import opened Gstate
  import opened Threads
  import opened Optional

  function OrphanOf(o: Option<Pair>): multiset<Pair> { if o.Some? then multiset{o.value} else multiset{} }

  /**
    What every crash leaves on the disk: the list is threaded; the deltas on it add up to a
    state; what is to be moved away exists; and the first pairs of directories on the list are
    the root, the pairs that visible entries refer to, each once, and at most one orphan, which
    is empty and announced by the sync bit.
   */
  predicate Sound(disk: Disk, list: seq<Pair>, orphans: bool, m: Option<Move>, o: Option<Pair>) {
    && Threaded(disk, list) && MoveOk(m)
    && Total(disk, list) == State(orphans, m)
    && (m.Some? ==> m.value.pair in list && m.value.pair in disk && m.value.id < |disk[m.value.pair].entries|)
    && Heads(disk, false, list) == Refs(disk, m, list) + multiset{ROOT} + OrphanOf(o)
    && (o.Some? ==> orphans && o.value in disk && disk[o.value].entries == [] && !disk[o.value].split)
  }

  // ----- what soundness means -----

  lemma {:induction false} HeadsListed(disk: Disk, inside: bool, list: seq<Pair>, x: Pair)
    requires x in Heads(disk, inside, list)
    ensures x in list
    decreases |list|
  {
    if list != [] && x !in (if inside then multiset{} else multiset{list[0]}) {
      HeadsListed(disk, SplitOf(disk, list[0]), list[1..], x);
    }
  }

  lemma {:induction false} HeadsOnce(disk: Disk, inside: bool, list: seq<Pair>, x: Pair)
    requires Distinct(list)
    ensures Heads(disk, inside, list)[x] <= 1
    decreases |list|
  {
    if list != [] {
      HeadsOnce(disk, SplitOf(disk, list[0]), list[1..], x);
      if x == list[0] && x in Heads(disk, SplitOf(disk, list[0]), list[1..]) {
        HeadsListed(disk, SplitOf(disk, list[0]), list[1..], x);
      }
    }
  }

  /** A pair on the list is a head exactly if the pair before it does not go on. */
  lemma HeadBehind(disk: Disk, a: seq<Pair>, p: Pair, n: Pair, b: seq<Pair>)
    requires Distinct(a + [p] + ([n] + b))
    ensures n in Heads(disk, false, a + [p] + ([n] + b)) <==> !SplitOf(disk, p)
  {
    hide Heads;
    var list := a + [p] + ([n] + b);
    HeadsAround(disk, a, p, [n] + b);
    HeadsConcat(disk, SplitOf(disk, p), [n], b);
    SameHeadOne(disk, disk, SplitOf(disk, p), n);
    SameHeadOne(disk, disk, InsideAfter(disk, false, a), p);
    var k := |a| + 1;
    assert list[k] == n;
    assert forall i :: 0 <= i < |a| ==> a[i] == list[i];
    assert forall i :: 0 <= i < |b| ==> b[i] == list[k + 1 + i];
    assert list[|a|] == p;
    if n in Heads(disk, false, a) {
      HeadsListed(disk, false, a, n);
    }
    if n in Heads(disk, SplitOf(disk, n), b) {
      HeadsListed(disk, SplitOf(disk, n), b, n);
    }
  }

  lemma {:induction false} RefsListed(disk: Disk, m: Option<Move>, list: seq<Pair>, i: nat, j: nat)
    requires i < |list| && j < |Visible(disk, m, list[i])| && Visible(disk, m, list[i])[j].DirEntry?
    ensures Visible(disk, m, list[i])[j].pair in Refs(disk, m, list)
    decreases |list|
  {
    hide RefsOf, Visible;
    if i == 0 {
      RefsContain(Visible(disk, m, list[0]), j);
    } else {
      RefsListed(disk, m, list[1..], i - 1, j);
    }
  }

  /** A way from the root down: by a visible entry for a directory, or on to the rest of a directory. */
  predicate Path(disk: Disk, m: Option<Move>, path: seq<Pair>) {
    path != [] && path[0] == ROOT && forall i :: 0 < i < |path| ==> Step(disk, m, path[i - 1], path[i])
  }

  predicate Step(disk: Disk, m: Option<Move>, p: Pair, q: Pair) {
    || (exists j :: 0 <= j < |Visible(disk, m, p)|
                    && Visible(disk, m, p)[j] == DirEntry(Visible(disk, m, p)[j].name, q))
    || (p in disk && disk[p].split && disk[p].tail == Some(q))
  }

  lemma {:induction false} TailListed(disk: Disk, p: Option<Pair>, list: seq<Pair>, i: nat, q: Pair)
    requires Linked(disk, p, list) && i < |list| && list[i] in disk && disk[list[i]].tail == Some(q)
    ensures q in list
    decreases |list|
  {
    if i == 0 {
      assert list[1..] != [] && list[1..][0] == q;
    } else {
      TailListed(disk, disk[list[0]].tail, list[1..], i - 1, q);
    }
  }

  /** Every directory pair that can be reached from the root is on the list. */
  lemma {:induction false} ReachableListed(disk: Disk, list: seq<Pair>, orphans: bool, m: Option<Move>,
                                           o: Option<Pair>, path: seq<Pair>)
    requires Sound(disk, list, orphans, m, o) && Path(disk, m, path)
    ensures path[|path| - 1] in list
    decreases |path|
  {
    hide Heads, Refs, Total, Visible, State;
    var n := |path| - 1;
    if n == 0 {
      assert list != [] && list[0] == ROOT;
    } else {
      ReachableListed(disk, list, orphans, m, o, path[..n]);
      var p, q := path[n - 1], path[n];
      assert Step(disk, m, p, q);
      var i :| 0 <= i < |list| && list[i] == p;
      if j :| 0 <= j < |Visible(disk, m, p)| && Visible(disk, m, p)[j] == DirEntry(Visible(disk, m, p)[j].name, q) {
        RefsListed(disk, m, list, i, j);
        HeadsListed(disk, false, list, q);
      } else {
        TailListed(disk, Some(ROOT), list, i, q);
      }
    }
  }

  /** Any other head on the list is the orphan: no entry refers to it, and it is empty. */
  lemma OnlyOrphans(disk: Disk, list: seq<Pair>, orphans: bool, m: Option<Move>, o: Option<Pair>, x: Pair)
    requires Sound(disk, list, orphans, m, o) && x in Heads(disk, false, list) && x != ROOT
    ensures x in Refs(disk, m, list) <==> o != Some(x)
    ensures x !in Refs(disk, m, list) ==> orphans && disk[x].entries == [] && !disk[x].split
    ensures Refs(disk, m, list)[x] <= 1
  {
    hide Heads, Refs, Total, State, Linked;
    HeadsOnce(disk, false, list, x);
  }

  // ----- the effect of single commits -----

  /** The entries of one pair were rewritten, and the delta folded in. */
  predicate Rewrote(disk: Disk, disk': Disk, list: seq<Pair>, d: Pair, entries: seq<Entry>, g: Gstate) {
    && d in disk && d in list
    && disk' == disk[d := Dir(entries, disk[d].tail, disk[d].split, Fold(disk[d].delta, g))]
  }

  predicate NextAt(list: seq<Pair>, i: nat, p: Pair, d: Pair) {
    i + 1 < |list| && list[i] == p && list[i + 1] == d
  }

  ghost predicate Before(list: seq<Pair>, p: Pair, d: Pair) {
    exists i: nat :: NextAt(list, i, p, d)
  }

  /** The pair before d goes on with d. */
  ghost predicate Continues(disk: Disk, list: seq<Pair>, d: Pair) {
    exists p: Pair :: Before(list, p, d) && p in disk && disk[p].split
  }

  lemma NotContinues(disk: Disk, list: seq<Pair>, found: bool, p: Pair, d: Pair)
    requires Threaded(disk, list) && (found <==> d in list && list[0] != d)
             && (found ==> p in disk && Before(list, p, d) && !disk[p].split)
    ensures !Continues(disk, list, d)
  {
    hide Linked, InsideAfter;
    forall q: Pair | Before(list, q, d)
      ensures found && q == p
    {
      OneBefore(list, q, d);
      if found {
        SameBefore(list, p, q, d);
      }
    }
  }

  lemma OneBefore(list: seq<Pair>, p: Pair, d: Pair)
    requires Distinct(list) && Before(list, p, d)
    ensures d in list && list[0] != d
  {
  }

  lemma SameBefore(list: seq<Pair>, p: Pair, q: Pair, d: Pair)
    requires Distinct(list) && Before(list, p, d) && Before(list, q, d)
    ensures p == q
  {
    var i: nat :| NextAt(list, i, p, d);
    var j: nat :| NextAt(list, j, q, d);
    assert i + 1 == j + 1;
  }

  /** The pair d, behind p, was taken off the list, its delta and the pending one folded into p. */
  ghost predicate Dropped(disk: Disk, disk': Disk, list: seq<Pair>, list': seq<Pair>, p: Pair, d: Pair, g: Gstate) {
    exists i: nat ::
      && NextAt(list, i, p, d) && list' == list[..i + 1] + list[i + 2..]
      && p in disk && d in disk
      && disk' == disk[p :=
                       Dir(disk[p].entries, disk[d].tail, disk[d].split, Fold(disk[p].delta, Fold(g, disk[d].delta)))]
  }

  lemma RewroteEffect(disk: Disk, disk': Disk, list: seq<Pair>, d: Pair, entries: seq<Entry>, g: Gstate)
    requires Threaded(disk, list) && Rewrote(disk, disk', list, d, entries, g)
    ensures Threaded(disk', list) && Total(disk', list) == Fold(Total(disk, list), g)
    ensures Heads(disk', false, list) == Heads(disk, false, list)
    ensures Refs(disk', None, list) + RefsOf(disk[d].entries) == Refs(disk, None, list) + RefsOf(entries)
  {
    hide Fold, Heads, Linked, Refs, RefsOf, Total;
    var i :| 0 <= i < |list| && list[i] == d;
    Rewritten(disk, disk', list, i, g);
    Others(list, i);
    RewrittenRefs(disk, disk', None, None, list, i);
  }

  lemma Others(list: seq<Pair>, i: nat)
    requires i < |list| && Distinct(list)
    ensures list[i] !in list[..i] + list[i + 1..]
    ensures forall x :: x in list <==> x == list[i] || x in list[..i] + list[i + 1..]
  {
    assert list == list[..i] + [list[i]] + list[i + 1..];
  }

  lemma DroppedCut(disk: Disk, disk': Disk, list: seq<Pair>, list': seq<Pair>, p: Pair, d: Pair, g: Gstate)
    returns (a: seq<Pair>, b: seq<Pair>)
    requires Threaded(disk, list) && Dropped(disk, disk', list, list', p, d, g)
    ensures list == a + [p] + ([d] + b) && list' == a + [p] + b && OneMore(disk', disk, a, p, d, b)
    ensures p != d && forall x :: x in list' <==> x in list && x != d
    ensures p in disk && d in disk && p in disk' && disk'[p].entries == disk[p].entries
    ensures disk'[p].delta == Fold(disk[p].delta, Fold(g, disk[d].delta))
  {
    hide Fold, Linked, InsideAfter;
    var i: nat :| NextAt(list, i, p, d) && list' == list[..i + 1] + list[i + 2..]
                  && disk' == disk[p :=
                                   Dir(disk[p].entries, disk[d].tail, disk[d].split,
                                       Fold(disk[p].delta, Fold(g, disk[d].delta)))];
    a, b := list[..i], list[i + 2..];
    Cut(list, i);
    TailNext(disk, list, i);
  }

  lemma DroppedEffect(disk: Disk, disk': Disk, list: seq<Pair>, list': seq<Pair>, p: Pair, d: Pair, g: Gstate)
    requires Threaded(disk, list) && Dropped(disk, disk', list, list', p, d, g)
    ensures Threaded(disk', list') && Total(disk', list') == Fold(Total(disk, list), g)
    ensures p != d && forall x :: x in list' <==> x in list && x != d
    ensures Heads(disk, false, list) == Heads(disk', false, list') + (if disk[p].split then multiset{} else multiset{d})
    ensures Refs(disk, None, list) == Refs(disk', None, list') + RefsOf(disk[d].entries)
  {
    hide Fold, Heads, Threaded, Refs, RefsOf, Total, OneMore, Dropped;
    var a, b := DroppedCut(disk, disk', list, list', p, d, g);
    OneMoreThreads(disk', disk, a, p, d, b);
    OneMoreTotal(disk', disk, a, p, d, b, g);
    OneMoreHeads(disk', disk, a, p, d, b);
    OneMoreRefs(disk', disk, None, None, a, p, d, b);
    Cancel(Refs(disk', None, list'), Refs(disk, None, list), RefsOf(disk[p].entries), RefsOf(disk[d].entries));
  }

  lemma TailNext(disk: Disk, list: seq<Pair>, i: nat)
    requires Linked(disk, Some(ROOT), list) && i + 1 < |list|
    ensures list[i] in disk && list[i + 1] in disk && disk[list[i]].tail == Some(list[i + 1])
  {
    hide Linked, LinkedUpTo;
    LinkedIn(disk, Some(ROOT), list);
    var a, p, b := list[..i], list[i], list[i + 1..];
    assert list == a + [p] + b && forall x <- a :: x in list;
    LinkedAround(disk, a, p, b);
    LinkedStart(disk, disk[p].tail, b);
  }

  lemma LinkedStart(disk: Disk, q: Option<Pair>, b: seq<Pair>)
    requires Linked(disk, q, b) && b != []
    ensures q == Some(b[0])
  {
  }

  lemma Cancel(a: multiset<Pair>, b: multiset<Pair>, x: multiset<Pair>, r: multiset<Pair>)
    requires a + (x + r) == b + x
    ensures b == a + r
  {
    forall p
      ensures b[p] == (a + r)[p]
    {
      assert (a + (x + r))[p] == (b + x)[p];
    }
  }

  lemma Cut(list: seq<Pair>, i: nat)
    requires i + 1 < |list| && Distinct(list)
    ensures var a, p, d, b := list[..i], list[i], list[i + 1], list[i + 2..];
            && list == a + [p] + ([d] + b) && list[..i + 1] + list[i + 2..] == a + [p] + b
            && d !in a && d !in b && d != p && p !in a && p !in b && Distinct(a + [p] + b)
            && forall x :: x in a + [p] + b <==> x in list && x != d
  {
    var a, p, d, b := list[..i], list[i], list[i + 1], list[i + 2..];
    assert list == a + [p] + ([d] + b);
    assert list[..i + 1] + list[i + 2..] == a + [p] + b;
    DistinctCut(list, a + [p] + b, i);
    assert forall j :: 0 <= j < |a| ==> a[j] == list[j];
    assert forall j :: 0 <= j < |b| ==> b[j] == list[i + 2 + j];
  }

  lemma DistinctCut(list: seq<Pair>, s: seq<Pair>, i: nat)
    requires i + 1 < |list| && Distinct(list) && s == list[..i + 1] + list[i + 2..]
    ensures Distinct(s)
  {
    assert forall j :: 0 <= j < |s| ==> s[j] == list[if j <= i then j else j + 1];
  }

  /** What hiding the moved entry does to the references. */
  lemma MoveHides(disk: Disk, m: Option<Move>, list: seq<Pair>)
    requires m.Some? && m.value.pair in list && Distinct(list) && m.value.pair in disk
    requires m.value.id < |disk[m.value.pair].entries|
    ensures Refs(disk, None, list) == Refs(disk, m, list) + RefOf(disk[m.value.pair].entries[m.value.id])
  {
    hide Refs, RefsOf;
    var i :| 0 <= i < |list| && list[i] == m.value.pair;
    Others(list, i);
    RewrittenRefs(disk, disk, None, m, list, i);
    var s, e := disk[list[i]].entries, disk[list[i]].entries[m.value.id];
    RefsWithout(s, m.value.id);
    Cancel(Refs(disk, m, list), Refs(disk, None, list), RefsOf(Without(s, m.value.id)), RefOf(e));
  }

  /** A commit on d: its entries become these, or it was dropped because none are left. */
  predicate Effect(disk: Disk, disk': Disk, list: seq<Pair>, list': seq<Pair>, d: Pair, entries: seq<Entry>,
                   g: Gstate) {
    && Threaded(disk', list') && Total(disk', list') == Fold(Total(disk, list), g)
    && Heads(disk', false, list') == Heads(disk, false, list)
    && d in disk && d in list
    && Refs(disk', None, list') + RefsOf(disk[d].entries) == Refs(disk, None, list) + RefsOf(entries)
    && (forall x <- list' :: x in list && x in disk && x in disk'
                             && disk'[x].entries == if x == d then entries else disk[x].entries)
    && (forall x <- list ::
          if x in list' then x == d || x !in disk || disk[x].split || disk'[x] == disk[x] else x == d && entries == [])
  }

  lemma RewroteIsEffect(disk: Disk, disk': Disk, list: seq<Pair>, d: Pair, entries: seq<Entry>, g: Gstate)
    requires Threaded(disk, list) && Rewrote(disk, disk', list, d, entries, g)
    ensures Effect(disk, disk', list, list, d, entries, g)
  {
    hide Fold, Heads, Linked, Refs, RefsOf, Total, Distinct;
    RewroteEffect(disk, disk', list, d, entries, g);
    LinkedIn(disk, Some(ROOT), list);
  }

  lemma DroppedIsEffect(disk: Disk, disk': Disk, list: seq<Pair>, list': seq<Pair>, p: Pair, d: Pair, g: Gstate)
    requires Threaded(disk, list) && Dropped(disk, disk', list, list', p, d, g) && disk[p].split
    ensures Effect(disk, disk', list, list', d, [], g)
  {
    hide Fold, Heads, Linked, Refs, RefsOf, Total, Distinct;
    DroppedEffect(disk, disk', list, list', p, d, g);
    LinkedIn(disk, Some(ROOT), list);
    NoRefs();
  }

  lemma NoRefs()
    ensures RefsOf([]) == multiset{}
  {
  }

  lemma {:induction false} TailAt(disk: Disk, list: seq<Pair>, i: nat)
    requires Linked(disk, Some(ROOT), list) && i < |list|
    ensures list[i] in disk && disk[list[i]].tail == if i + 1 < |list| then Some(list[i + 1]) else None
  {
    hide Linked, LinkedUpTo;
    LinkedIn(disk, Some(ROOT), list);
    if i + 1 < |list| {
      TailNext(disk, list, i);
    } else {
      var a, p, b := list[..i], list[i], list[i + 1..];
      assert list == a + [p] + b && forall x <- a :: x in list;
      LinkedAround(disk, a, p, b);
      LinkedEnd(disk, disk[p].tail);
    }
  }

  lemma LinkedEnd(disk: Disk, q: Option<Pair>)
    requires Linked(disk, q, [])
    ensures q == None
  {
  }

  /** The new pair n was threaded behind p, whose entries became these, and the delta folded into p. */
  ghost predicate Grown(disk: Disk, disk': Disk, list: seq<Pair>, list': seq<Pair>, p: Pair, n: Pair,
                        entries: seq<Entry>, split: bool, g: Gstate) {
    exists i: nat :: GrownAt(disk, disk', list, list', i, p, n, entries, split, g)
  }

  ghost predicate GrownAt(disk: Disk, disk': Disk, list: seq<Pair>, list': seq<Pair>, i: nat, p: Pair, n: Pair,
                          entries: seq<Entry>, split: bool, g: Gstate) {
    && i < |list| && list[i] == p && list' == list[..i + 1] + [n] + list[i + 1..]
    && p in disk && n in disk && n !in list && disk[n].tail == disk[p].tail && disk[n].split == disk[p].split
    && disk' == disk[p := Dir(entries, Some(n), split, Fold(disk[p].delta, g))]
  }

  predicate InsertedAt(list: seq<Pair>, list': seq<Pair>, k: nat, p: Pair, n: Pair) {
    k < |list| && list[k] == p && list' == list[..k + 1] + [n] + list[k + 1..]
  }

  /** The list with n directly behind p. */
  ghost predicate Inserted(list: seq<Pair>, list': seq<Pair>, p: Pair, n: Pair) {
    exists k: nat :: InsertedAt(list, list', k, p, n)
  }

  predicate GoesOnTo(disk: Disk, list: seq<Pair>, i: nat, k: nat, d: Pair, p: Pair) {
    && i <= k < |list| && list[i] == d && list[k] == p
    && (forall j :: i <= j < k ==> SplitOf(disk, list[j])) && !SplitOf(disk, p)
  }

  /** From d the directory goes on, pair by pair of the list, as long as these are split: p is its last pair. */
  ghost predicate LastOf(disk: Disk, list: seq<Pair>, d: Pair, p: Pair) {
    exists i: nat, k: nat :: GoesOnTo(disk, list, i, k, d, p)
  }

  /** All other pairs are on the disk as they were. */
  predicate Untouched(disk: Disk, disk': Disk, but: set<Pair>) {
    (forall x <- disk :: x !in but ==> x in disk' && disk'[x] == disk[x]) && forall x <- disk' :: x in disk || x in but
  }

  /** The list has lost these pairs and no others. */
  predicate Fewer(list: seq<Pair>, list': seq<Pair>, less: set<Pair>) {
    (forall x <- list :: x in list' || x in less) && forall x <- list' :: x in list && x !in less
  }

  function Those(o: Option<Pair>): set<Pair> { if o.Some? then {o.value} else {} }

  lemma FewerThen(a: seq<Pair>, b: seq<Pair>, c: seq<Pair>, s: set<Pair>, o: Option<Pair>)
    requires Fewer(a, b, s) && if o.Some? then Fewer(b, c, {o.value}) else b == c
    ensures Fewer(a, c, Those(o) + s)
  {
  }

  lemma FewerBoth(a: seq<Pair>, b: seq<Pair>, c: seq<Pair>, s: set<Pair>, t: set<Pair>)
    requires Fewer(a, b, s) && Fewer(b, c, t)
    ensures Fewer(a, c, t + s)
  {
  }

  lemma NoneStrands(disk: Disk, list: seq<Pair>)
    ensures !Strands(disk, list, None)
  {
  }

  lemma NoFewer(list: seq<Pair>)
    ensures Fewer(list, list, {})
  {
  }

  lemma OneWritten(disk: Disk, disk': Disk, p: Pair)
    requires p in disk' && disk' == disk[p := disk'[p]]
    ensures Untouched(disk, disk', {p})
  {
  }

  lemma NothingWritten(disk: Disk, s: set<Pair>)
    ensures Untouched(disk, disk, s)
  {
  }

  lemma UntouchedThen(a: Disk, b: Disk, c: Disk, s: set<Pair>, t: set<Pair>, u: set<Pair>)
    requires Untouched(a, b, s) && Untouched(b, c, t) && s <= u && t <= u
    ensures Untouched(a, c, u)
  {
  }

  lemma GrownEffect(disk: Disk, disk': Disk, list: seq<Pair>, list': seq<Pair>, p: Pair, n: Pair, entries: seq<Entry>,
                    split: bool, g: Gstate)
    requires Threaded(disk, list) && Grown(disk, disk', list, list', p, n, entries, split, g)
    ensures Threaded(disk', list') && Total(disk', list') == Fold(Fold(Total(disk, list), g), disk[n].delta)
    ensures Heads(disk', false, list') == Heads(disk, false, list) + (if split then multiset{} else multiset{n})
    ensures Refs(disk', None, list') + RefsOf(disk[p].entries) ==
              Refs(disk, None, list) + RefsOf(entries) + RefsOf(disk[n].entries)
    ensures p != n && forall x :: x in list' <==> x in list || x == n
  {
    hide Fold, Heads, Linked, Refs, RefsOf, Total, InsideAfter;
    var i: nat :| GrownAt(disk, disk', list, list', i, p, n, entries, split, g);
    var a, b := list[..i], list[i + 1..];
    assert list == a + [p] + b;
    assert list' == a + [p] + ([n] + b);
    Others(list, i);
    assert OneMore(disk, disk', a, p, n, b);
    OneMoreThreads(disk, disk', a, p, n, b);
    OneMoreTotal(disk, disk', a, p, n, b, g);
    OneMoreHeads(disk, disk', a, p, n, b);
    OneMoreRefs(disk, disk', None, None, a, p, n, b);
  }

  lemma GrownShows(disk: Disk, disk': Disk, list: seq<Pair>, list': seq<Pair>, p: Pair, n: Pair, entries: seq<Entry>,
                   g: Gstate)
    requires Threaded(disk, list) && Grown(disk, disk', list, list', p, n, entries, false, g) && disk[n].entries == []
    ensures forall x :: Showing(disk', list', None, x) == if x == p then entries else Showing(disk, list, None, x)
    ensures forall x :: x in list && x != p && x in disk ==> x in disk' && disk'[x] == disk[x]
  {
    hide Threaded, Total, Heads, Refs, RefsOf, Fold;
    GrownEffect(disk, disk', list, list', p, n, entries, false, g);
  }

  /** What is written off the list does not matter. */
  lemma UnlistedSound(disk: Disk, disk': Disk, list: seq<Pair>, bit: bool, n: Pair)
    requires Sound(disk, list, bit, None, None) && n !in list && n in disk' && disk' == disk[n := disk'[n]]
    ensures Sound(disk', list, bit, None, None) && Total(disk', list) == Total(disk, list)
  {
    hide Heads, Refs, Total, State, Linked;
    assert SameOn(disk, disk', list);
    SameTotal(disk, disk', list);
    SameHeads(disk, disk', false, list);
    SameRefs(disk, disk', None, None, list);
    SameLinked(disk, disk', Some(ROOT), list);
  }

  lemma UnlistedShows(disk: Disk, disk': Disk, list: seq<Pair>, n: Pair)
    requires n !in list && n in disk' && disk' == disk[n := disk'[n]]
    ensures forall x :: Showing(disk', list, None, x) == Showing(disk, list, None, x)
  {
  }

  /** The entries after a commit that deletes, then creates, then carries out the pending move. */
  function Edited(s: seq<Entry>, del: Option<nat>, ins: Option<(nat, Entry)>, g: Gstate, d: Pair): seq<Entry> {
    var s1 := if del.Some? then Without(s, del.value) else s;
    var s2 := if ins.Some? && ins.value.0 <= |s1| then With(s1, ins.value.0, ins.value.1) else s1;
    if HasMoveHere(g, d) then Without(s2, MoveId(g)) else s2
  }

  /** The delta such a commit folds in. */
  function Folded(delta: Gstate, g: Gstate, d: Pair): Gstate {
    if HasMoveHere(g, d) then Fold(delta, MoveChange(g, None)) else delta
  }

  /** The entry under another name, with all else it has. */
  function Renamed(e: Entry, name: string): (r: Entry)
    ensures r == if e.FileEntry? then FileEntry(name, e.file) else DirEntry(name, e.pair)
  {
    e.(name := name)
  }

  /** What a directory pair shows after a rename: the entry is where it should be, and only there. */
  function AfterRename(s: seq<Entry>, x: Pair, od: Pair, oid: nat, nd: Pair, nid: nat, replace: bool,
                       e: Entry): seq<Entry> {
    if x == od && x == nd then
      if replace then Without(if nid < |s| then s[nid := e] else s, oid)
      else if nid <= oid then (if nid <= |Without(s, oid)| then With(Without(s, oid), nid, e) else s)
      else (if nid - 1 <= |Without(s, oid)| then With(Without(s, oid), nid - 1, e) else s)
    else if x == nd then
      if replace then (if nid < |s| then s[nid := e] else s) else (if nid <= |s| then With(s, nid, e) else s)
    else if x == od then Without(s, oid)
    else s
  }

  /** The ids of a rename within a directory: creating at or before the old id shifts it by one. */
  function ShiftedId(oid: nat, nid: nat, replace: bool): nat {
    if !replace && nid <= oid then oid + 1 else oid
  }

  function Placed(s: seq<Entry>, nid: nat, replace: bool, e: Entry): seq<Entry>
    requires if replace then nid < |s| else nid <= |s|
  {
    With(if replace then Without(s, nid) else s, nid, e)
  }

  lemma PlacedIs(s: seq<Entry>, nid: nat, replace: bool, e: Entry)
    requires if replace then nid < |s| else nid <= |s|
    ensures Placed(s, nid, replace, e) == if replace then s[nid := e] else With(s, nid, e)
  {
  }

  lemma TakenFront(s: seq<Entry>, oid: nat, nid: nat, e: Entry)
    requires nid <= oid < |s|
    ensures var w := With(s, nid, e);
            |w| == |s| + 1 && w[..oid + 1] == s[..nid] + [e] + s[nid..oid] && w[oid + 2..] == s[oid + 1..]
            && w[oid + 1] == s[oid]
  {
    assert With(s, nid, e) == s[..nid] + [e] + s[nid..];
  }

  lemma TakenBack(s: seq<Entry>, oid: nat, nid: nat, e: Entry)
    requires nid <= oid < |s|
    ensures var t := Without(s, oid);
            nid <= |t| && With(t, nid, e) == s[..nid] + [e] + (s[nid..oid] + s[oid + 1..])
  {
    var t := Without(s, oid);
    assert t[..nid] == s[..nid];
    assert t[nid..] == s[nid..oid] + s[oid + 1..];
  }

  lemma TakenBehind(s: seq<Entry>, oid: nat, nid: nat, e: Entry)
    requires nid <= oid < |s|
    ensures Without(With(s, nid, e), oid + 1) == With(Without(s, oid), nid, e) && With(s, nid, e)[oid + 1] == s[oid]
  {
    TakenFront(s, oid, nid, e);
    TakenBack(s, oid, nid, e);
    hide With;
    var p, q, r := s[..nid] + [e], s[nid..oid], s[oid + 1..];
    assert p + q + r == p + (q + r);
  }

  lemma TakenBefore(s: seq<Entry>, oid: nat, nid: nat, e: Entry)
    requires oid < nid <= |s|
    ensures Without(With(s, nid, e), oid) == With(Without(s, oid), nid - 1, e) && With(s, nid, e)[oid] == s[oid]
  {
    var w, t := With(s, nid, e), Without(s, oid);
    assert w[..oid] == s[..oid];
    assert w[oid + 1..] == s[oid + 1..nid] + [e] + s[nid..];
    assert t[..nid - 1] == s[..oid] + s[oid + 1..nid];
    assert t[nid - 1..] == s[nid..];
    var p, q, r := s[..oid], s[oid + 1..nid], [e] + s[nid..];
    assert p + (q + [e] + s[nid..]) == p + q + [e] + s[nid..];
  }

  /** The shifted id names the old entry, so the one commit that creates the new one deletes the right one. */
  lemma SameDirectory(s: seq<Entry>, d: Pair, oid: nat, nid: nat, replace: bool, e: Entry)
    requires oid < |s| && (if replace then nid < |s| && nid != oid else nid <= |s|)
    ensures ShiftedId(oid, nid, replace) < |Placed(s, nid, replace, e)|
    ensures Placed(s, nid, replace, e)[ShiftedId(oid, nid, replace)] == s[oid]
    ensures Without(Placed(s, nid, replace, e), ShiftedId(oid, nid, replace)) ==
              AfterRename(s, d, d, oid, d, nid, replace, e)
  {
    PlacedIs(s, nid, replace, e);
    if !replace {
      if nid <= oid {
        TakenBehind(s, oid, nid, e);
      } else {
        TakenBefore(s, oid, nid, e);
      }
    }
  }

  /**
    Within one directory the new entry is there afterwards unless the old one is renamed onto itself;
    then it is created and deleted again, and nothing of it is left.
   */
  lemma RenameOntoItself(s: seq<Entry>, oid: nat, nid: nat, replace: bool, e: Entry)
    requires oid < |s| && (if replace then nid < |s| else nid <= |s|)
    ensures var t := Without(Placed(s, nid, replace, e), ShiftedId(oid, nid, replace));
            if replace && nid == oid then t == Without(s, oid)
            else e in t && |t| == |s| - (if replace then 1 else 0)
  {
    hide Placed, With, Without;
    PlacedAt(s, nid, replace, e);
    var p, id := Placed(s, nid, replace, e), ShiftedId(oid, nid, replace);
    if replace && nid == oid {
      PlacedOver(s, nid, e);
    } else {
      WithoutOther(p, id, nid);
    }
  }

  lemma PlacedAt(s: seq<Entry>, nid: nat, replace: bool, e: Entry)
    requires if replace then nid < |s| else nid <= |s|
    ensures |Placed(s, nid, replace, e)| == |s| + (if replace then 0 else 1) && Placed(s, nid, replace, e)[nid] == e
  {
  }

  lemma PlacedOver(s: seq<Entry>, nid: nat, e: Entry)
    requires nid < |s|
    ensures Without(Placed(s, nid, true, e), nid) == Without(s, nid)
  {
    PlacedIs(s, nid, true, e);
  }

  lemma WithoutOther(s: seq<Entry>, i: nat, j: nat)
    requires i < |s| && j < |s| && i != j
    ensures |Without(s, i)| == |s| - 1 && s[j] in Without(s, i)
  {
    assert Without(s, i)[if j < i then j else j - 1] == s[j];
  }

  function Showing(disk: Disk, list: seq<Pair>, m: Option<Move>, p: Pair): seq<Entry> {
    if p in list then Visible(disk, m, p) else []
  }

  lemma EffectShows(disk: Disk, disk': Disk, list: seq<Pair>, list': seq<Pair>, d: Pair, entries: seq<Entry>, g: Gstate)
    requires Effect(disk, disk', list, list', d, entries, g)
    ensures forall x :: Showing(disk', list', None, x) == if x == d then entries else Showing(disk, list, None, x)
  {
    hide Threaded, Total, Heads, Refs, RefsOf;
    forall x
      ensures Showing(disk', list', None, x) == if x == d then entries else Showing(disk, list, None, x)
    {
    }
  }

  lemma EffectList(disk: Disk, disk': Disk, list: seq<Pair>, list': seq<Pair>, d: Pair, entries: seq<Entry>, g: Gstate)
    requires Effect(disk, disk', list, list', d, entries, g)
    ensures forall x :: x != d ==> (x in list' <==> x in list)
    ensures d in list
  {
    hide Threaded, Total, Heads, Refs, RefsOf;
  }

  lemma DroppedShows(disk: Disk, disk': Disk, list: seq<Pair>, list': seq<Pair>, p: Pair, d: Pair, g: Gstate)
    requires Threaded(disk, list) && Dropped(disk, disk', list, list', p, d, g) && disk[d].entries == []
    ensures forall x :: Showing(disk', list', None, x) == Showing(disk, list, None, x)
  {
    hide Threaded, Total, Heads, Refs, RefsOf;
    DroppedEffect(disk, disk', list, list', p, d, g);
  }

  /** A move is pending on a pair of the list. */
  predicate MoveOn(g: Gstate, list: seq<Pair>) { HasMove(g) && Pair(g.b0, g.b1) in list }

  lemma NotHere(g: Gstate, list: seq<Pair>, d: Pair)
    requires !MoveOn(g, list) && d in list
    ensures !HasMoveHere(g, d)
  {
    hide HasMove;
  }

  /** Pairs off the list stay as they are. */
  predicate KeepsOthers(disk: Disk, disk': Disk, list: seq<Pair>) {
    forall x <- disk :: x !in list ==> x in disk' && disk'[x] == disk[x]
  }

  lemma OneKeepsOthers(disk: Disk, disk': Disk, list: seq<Pair>, p: Pair)
    requires p in list && p in disk' && disk' == disk[p := disk'[p]]
    ensures KeepsOthers(disk, disk', list)
  {
  }

  lemma NeighboursDiffer(list: seq<Pair>, i: nat, p: Pair, d: Pair)
    requires Distinct(list) && NextAt(list, i, p, d)
    ensures p != d && p in list
  {
  }

  lemma BeforeListed(list: seq<Pair>, p: Pair, d: Pair)
    requires Before(list, p, d)
    ensures p in list && d in list
  {
  }

  /** The pair d has these entries and the delta folded in, and nothing else changed. */
  predicate WrittenTo(disk: Disk, disk': Disk, d: Pair, entries: seq<Entry>, g: Gstate) {
    d in disk && disk' == disk[d := Dir(entries, disk[d].tail, disk[d].split, Fold(disk[d].delta, g))]
  }

  lemma WroteIsWritten(disk: Disk, disk': Disk, d: Pair, entries: seq<Entry>, g: Gstate)
    requires d in disk && disk' == disk[d := Dir(entries, disk[d].tail, disk[d].split, Fold(disk[d].delta, g))]
    ensures WrittenTo(disk, disk', d, entries, g)
  {
  }

  /** The pair of a directory entry. */
  function Target(e: Entry): Option<Pair> { if e.DirEntry? then Some(e.pair) else None }

  /** A directory that cannot be removed: it has entries, or goes on in another pair. */
  predicate Inhabited(disk: Disk, p: Option<Pair>) {
    p.Some? && p.value in disk && (disk[p.value].entries != [] || disk[p.value].split)
  }

  /** Deleting the moved entry drops its pair: it is the only one, and the directory goes on with this pair. */
  ghost predicate Strands(disk: Disk, list: seq<Pair>, m: Option<Move>) {
    m.Some? && m.value.pair in disk && |disk[m.value.pair].entries| == 1 && Continues(disk, list, m.value.pair)
  }

  /** The pair that is dropped with the moved entry, if that is so. */
  ghost function Stranded(disk: Disk, list: seq<Pair>, m: Option<Move>): set<Pair> {
    if Strands(disk, list, m) then {m.value.pair} else {}
  }

  /** How many commits the repairs take. */
  function Repairs(m: Option<Move>, o: Option<Pair>): nat { (if m.Some? then 1 else 0) + (if o.Some? then 1 else 0) }

  function RenameCommits(od: Pair, nd: Pair, gone: Option<Pair>): nat {
    1 + (if od == nd then 0 else 1) + (if gone.Some? then 1 else 0)
  }

  lemma NotContinued(disk: Disk, list: seq<Pair>, d: Pair)
    requires d !in list
    ensures !Continues(disk, list, d)
  {
    forall p: Pair | Before(list, p, d)
      ensures false
    {
      BeforeListed(list, p, d);
    }
  }

  /** What is written off the list does not matter. */
  lemma UnlistedSoundWith(disk: Disk, disk': Disk, list: seq<Pair>, bit: bool, o: Option<Pair>, n: Pair)
    requires Sound(disk, list, bit, None, o) && n !in list && n in disk' && disk' == disk[n := disk'[n]]
    ensures Sound(disk', list, bit, None, o) && Total(disk', list) == Total(disk, list)
  {
    hide Heads, Refs, Total, State, Linked;
    assert SameOn(disk, disk', list);
    SameTotal(disk, disk', list);
    SameHeads(disk, disk', false, list);
    SameRefs(disk, disk', None, None, list);
    SameLinked(disk, disk', Some(ROOT), list);
    if o.Some? {
      SoundOrphan(disk, list, bit, o);
    }
  }

  lemma PlacedNotEmpty(s: seq<Entry>, oid: nat, nid: nat, replace: bool, e: Entry)
    requires if replace then nid < |s| else nid <= |s|
    ensures Placed(s, nid, replace, e) != []
    ensures oid < |s| && (replace ==> nid != oid) ==>
              Without(Placed(s, nid, replace, e), ShiftedId(oid, nid, replace)) != []
  {
    if oid < |s| && (replace ==> nid != oid) {
      RenameNotEmpty(s, oid, nid, replace, e);
    }
  }

  lemma RewrittenStrands(disk: Disk, disk': Disk, list: seq<Pair>, d: Pair, m: Option<Move>)
    requires m.Some? && m.value.pair != d && d in disk && d in disk' && disk' == disk[d := disk'[d]]
             && disk'[d].split == disk[d].split
    ensures Strands(disk', list, m) <==> Strands(disk, list, m)
  {
    var x := m.value.pair;
    forall p: Pair
      ensures Before(list, p, x) && p in disk && disk[p].split <==> Before(list, p, x) && p in disk' && disk'[p].split
    {
    }
  }

  /** The two folds of a commit that carries out a move: what was kept is kept. */
  lemma FoldedBoth(total: Gstate, delta: Gstate, pending: Gstate, d: Pair)
    requires Fold(total, delta) == pending
    ensures Fold(total, Folded(delta, pending, d)) == Folded(pending, pending, d)
  {
    hide Fold, MoveChange, HasMove;
    if HasMoveHere(pending, d) {
      KeptFold(total, delta, pending, MoveChange(pending, None));
    }
  }

  lemma FoldRight(a: Gstate, b: Gstate)
    ensures Fold(a, b) == a <==> b == NOTHING
  {
    hide Fold;
    FoldNothing(a);
    FoldAssociates(a, a, b);
    FoldSelf(a, a);
    FoldNothing(b);
    FoldSelf(a, Fold(a, b));
  }

  /** What a commit folds whose append folds the stored delta, too, and then fails. */
  function Twice(g: Gstate, stored: Gstate): Gstate { if g == NOTHING then g else Fold(g, stored) }

  /** A change of the pending state and of its delta alike owes nothing new. */
  lemma BothFold(total: Gstate, delta: Gstate, pending: Gstate, c: Gstate)
    ensures Fold(Fold(total, Fold(delta, c)), Fold(pending, c)) == Fold(Fold(total, delta), pending)
  {
    hide Fold;
    FoldAssociates(total, delta, c);
    var t := Fold(total, delta);
    FoldCommutes(pending, c);
    FoldAssociates(Fold(t, c), c, pending);
    FoldAssociates(t, c, c);
    FoldSelf(c, c);
    FoldNothing(t);
  }

  /** Nor does a commit, if memory carries out what the disk does. */
  lemma OwedAfter(total: Gstate, delta: Gstate, pending: Gstate, d: Pair)
    ensures Fold(Fold(total, Folded(delta, pending, d)), Folded(pending, pending, d)) ==
              Fold(Fold(total, delta), pending)
  {
    hide Fold, MoveChange, HasMoveHere;
    if HasMoveHere(pending, d) {
      BothFold(total, delta, pending, MoveChange(pending, None));
    }
  }

  lemma FoldBack(total: Gstate, pending: Gstate, owed: Gstate)
    requires Fold(total, pending) == owed
    ensures total == Fold(owed, pending) == Fold(pending, owed)
  {
    hide Fold;
    FoldAssociates(total, pending, pending);
    FoldSelf(pending, pending);
    FoldNothing(total);
    FoldCommutes(owed, pending);
  }

  /** The stale move is what is owed. */
  lemma LagOnDisk(o: bool, lag: Option<Move>, owed: Gstate)
    requires MoveOk(lag) && owed == Fold(State(false, None), State(false, lag))
    ensures Fold(owed, State(o, None)) == State(o, lag)
  {
    hide Fold, State, OrphansChange, SYNC, NOTHING;
    var n, l, c := State(false, None), State(false, lag), if o then SYNC else NOTHING;
    OrphansSet(false, None, o);
    OrphansSet(false, lag, o);
    OrphansChangeIs(false, None, o);
    OrphansChangeIs(false, lag, o);
    // n + l + (n + c) == l + c
    FoldCommutes(n, l);
    FoldAssociates(l, n, Fold(n, c));
    FoldAssociates(n, n, c);
    FoldSelf(n, n);
    FoldNothing(c);
  }

  lemma LagWithout(lag: Option<Move>)
    requires MoveOk(lag)
    ensures Fold(State(true, lag), SYNC) == State(false, lag)
  {
    hide Fold, State, OrphansChange, SYNC;
    OrphansSet(true, lag, false);
    OrphansChangeIs(true, lag, false);
  }

  lemma EffectThreaded(disk: Disk, disk': Disk, list: seq<Pair>, list': seq<Pair>, d: Pair, entries: seq<Entry>,
                       g: Gstate)
    requires Effect(disk, disk', list, list', d, entries, g)
    ensures Threaded(disk', list') && Total(disk', list') == Fold(Total(disk, list), g)
  {
  }

  /** What the commits of a rename make of what the pairs show. */
  lemma RenamedShows(disk: Disk, list: seq<Pair>, disk1: Disk, list1: seq<Pair>, disk2: Disk, list2: seq<Pair>,
                     od: Pair, oid: nat, nd: Pair, nid: nat, replace: bool, e: Entry)
    requires od in list && od in disk && nd in list && nd in disk && oid < |disk[od].entries|
    requires if replace then nid < |disk[nd].entries| && (od, oid) != (nd, nid) else nid <= |disk[nd].entries|
    requires var t := Placed(disk[nd].entries, nid, replace, e);
             var u := if od == nd then Without(t, ShiftedId(oid, nid, replace)) else t;
             forall x :: Showing(disk1, list1, None, x) == if x == nd then u else Showing(disk, list, None, x)
    requires if od == nd then disk2 == disk1 && list2 == list1
             else forall x :: Showing(disk2, list2, None, x) ==
                    (if x == od then Without(disk[od].entries, oid) else Showing(disk1, list1, None, x))
    ensures forall x ::
              Showing(disk2, list2, None, x) ==
                AfterRename(Showing(disk, list, None, x), x, od, oid, nd, nid, replace, e)
  {
    hide Showing, Placed, Without, AfterRename;
    forall x: Pair
      ensures Showing(disk2, list2, None, x) ==
                AfterRename(Showing(disk, list, None, x), x, od, oid, nd, nid, replace, e)
    {
      ShowsListed(disk, list, od);
      ShowsListed(disk, list, nd);
      AfterElsewhere(Showing(disk, list, None, x), x, od, oid, nd, nid, replace, e);
      if od == nd {
        SameDirectory(disk[od].entries, od, oid, nid, replace, e);
      }
    }
  }

  lemma ShowsListed(disk: Disk, list: seq<Pair>, p: Pair)
    requires p in list && p in disk
    ensures Showing(disk, list, None, p) == disk[p].entries
  {
  }

  /** No entry refers to the root. */
  lemma NotRoot(disk: Disk, list: seq<Pair>, bit: bool, d: Pair, id: nat)
    requires Sound(disk, list, bit, None, None) && d in list && d in disk && id < |disk[d].entries|
             && disk[d].entries[id].DirEntry?
    ensures disk[d].entries[id].pair != ROOT
  {
    hide Heads, Refs, Total, State, Linked;
    var i :| 0 <= i < |list| && list[i] == d;
    RefsListed(disk, None, list, i, id);
    HeadsOnce(disk, false, list, ROOT);
  }

  /** Folding the stored delta once more is right only for nothing. */
  lemma FoldedAgain(total: Gstate, g: Gstate, stored: Gstate)
    ensures Fold(total, Fold(g, stored)) == Fold(total, g) <==> stored == NOTHING
  {
    hide Fold;
    FoldAssociates(total, g, stored);
    FoldRight(Fold(total, g), stored);
  }

  /** The fields of lfs_t that the protocols use, and the disk. */
  class Fs {
    var disk: Disk
    var gstate: Gstate
    var gpending: Gstate
    var gdelta: Gstate
    // lfs_gstate_getorphans of gpending
    var count: nat
    // the number of commits before the power is lost
    var power: nat

    ghost var list: seq<Pair>
    // what the deltas on the disk add up to, and the orphan there may be
    ghost var bit: bool
    ghost var move: Option<Move>
    ghost var orphan: Option<Pair>
    // a move that memory still has pending after its pair was dropped
    ghost var lag: Option<Move>

    ghost predicate Sane()
      reads this
    {
      Sound(disk, list, bit, move, orphan)
    }

    /** The deltas on the disk and the one in memory add up to the pending state. */
    ghost predicate Kept()
      reads this
    {
      Fold(Total(disk, list), gdelta) == gpending
    }

    /** What the deltas on the disk and the one in memory lack to add up to the pending state. */
    ghost function Owed(): Gstate
      reads this
    {
      Fold(Fold(Total(disk, list), gdelta), gpending)
    }

    /** A move that lags behind is one of a pair that is off the list, but still there to be read. */
    ghost predicate LagOk()
      reads this
    {
      && MoveOk(lag)
      && (lag.Some? ==>
          move == None && lag.value.pair !in list && lag.value.pair in disk
          && lag.value.id < |disk[lag.value.pair].entries|)
    }

    /** The move that memory has pending. */
    ghost function Held(): Option<Move>
      reads this
    {
      if lag.Some? then lag else move
    }

    /**
      The deltas add up to the orphans memory knows and the move on disk, and memory has these pending, but for
      a lag.
     */
    ghost predicate Settled()
      reads this
    {
      && LagOk() && MoveOk(move)
      && gpending == State(count > 0, Held())
      && Fold(Total(disk, list), gdelta) == State(count > 0, move)
    }

    /** Between operations, once the file system is consistent. */
    ghost predicate Quiet()
      reads this
    {
      Sane() && Settled() && move == None && orphan == None && count == 0 && gstate == gpending
    }

    /** The entries a pair shows; the sum over the pairs of a directory is its contents. */
    ghost function Shows(p: Pair): seq<Entry>
      reads this
    {
      Showing(disk, list, move, p)
    }

    /** Global state is conserved exactly while no move lags behind. */
    lemma KeptUnlessLagging()
      requires Settled()
      ensures Kept() <==> lag == None
    {
      hide State, Fold, Total;
      StateReads(count > 0, Held());
      StateReads(count > 0, move);
    }

    /** lfs_fs_preporphans: the pending state changes as told, and stays what the deltas add up to. */
    method PrepOrphans(change: int, ghost m: Option<Move>)
      requires count + change >= 0 && MoveOk(m) && gpending == State(count > 0, m)
      modifies this`gpending, this`gdelta, this`count
      ensures count == old(count) + change && gpending == State(count > 0, m)
      ensures gdelta == Fold(old(gdelta), if (count > 0) == (old(count) > 0) then NOTHING else SYNC)
      ensures old(Kept()) ==> Kept()
      ensures old(Settled()) ==> Settled()
      ensures Owed() == old(Owed())
    {
      hide State, Fold, Total, OrphansChange, SYNC, NOTHING;
      count := count + change;
      var c := OrphansChange(gpending, count > 0);
      BothFold(Total(disk, list), gdelta, gpending, c);
      OrphansSet(old(count) > 0, m, count > 0);
      OrphansChangeIs(old(count) > 0, m, count > 0);
      if old(Kept()) {
        KeptFold(Total(disk, list), gdelta, gpending, c);
      }
      if old(Settled()) {
        OrphansSet(old(count) > 0, Held(), count > 0);
        OrphansSet(old(count) > 0, move, count > 0);
        OrphansChangeIs(old(count) > 0, Held(), count > 0);
        OrphansChangeIs(old(count) > 0, move, count > 0);
        KeptFold(Total(disk, list), gdelta, State(old(count) > 0, move), c);
      }
      gdelta := Fold(gdelta, c);
      gpending := Fold(gpending, c);
    }

    /** lfs_fs_prepmove: the pending move is replaced, and the pending state stays what the deltas add up to. */
    method PrepMove(m: Option<Move>, ghost orphans: bool, ghost before: Option<Move>)
      requires MoveOk(m) && MoveOk(before) && gpending == State(orphans, before)
      modifies this`gpending, this`gdelta
      ensures gpending == State(orphans, m)
      ensures old(Kept()) ==> Kept()
      ensures Owed() == old(Owed())
    {
      hide State, Fold, Total, MoveChange;
      var c := MoveChange(gpending, m);
      BothFold(Total(disk, list), gdelta, gpending, c);
      MoveSet(orphans, before, m);
      if old(Kept()) {
        KeptFold(Total(disk, list), gdelta, gpending, c);
      }
      gdelta := Fold(gdelta, c);
      gpending := Fold(gpending, c);
    }

    /** One atomic commit of a pair. */
    method Write(d: Pair, stored: Gstate, entries: seq<Entry>, tail: Option<Pair>, split: bool) returns (ok: bool)
      modifies this`disk, this`power
      ensures ok <==> old(power) > 0
      ensures power == old(power) - (if ok then 1 else 0)
      ensures disk == if ok then old(disk)[d := Dir(entries, tail, split, Fold(stored, gdelta))] else old(disk)
    {
      if power == 0 {
        return false;
      }
      power := power - 1;
      disk := disk[d := Dir(entries, tail, split, Fold(stored, gdelta))];
      return true;
    }

    /** lfs_fs_pred; the root has no predecessor. */
    method FindPred(d: Pair) returns (found: bool, p: Pair)
      requires Threaded(disk, list)
      ensures found <==> d in list && list[0] != d
      ensures found ==> p in disk && Before(list, p, d)
    {
      hide Distinct, Linked;
      found, p := false, ROOT;
      var at := Some(ROOT);
      ghost var i := 0;
      FirstIsRoot(disk, list);
      while at.Some?
        invariant i <= |list| && (at == if i < |list| then Some(list[i]) else None)
        invariant found <==> i > 0
        invariant i > 0 ==> p == list[i - 1] && p in disk
        invariant forall j :: 0 <= j < i ==> list[j] != d
        decreases |list| - i
      {
        if at.value == d {
          assert found ==> NextAt(list, i - 1, p, d);
          return;
        }
        TailAt(disk, list, i);
        found, p := true, at.value;
        at := disk[p].tail;
        i := i + 1;
      }
      found := false;
    }

    /** lfs_dir_drop: the pair d, behind p, leaves the list, and p takes over its delta and its tail. */
    method Drop(p: Pair, d: Pair) returns (ok: bool)
      requires Threaded(disk, list) && Before(list, p, d)
      requires !HasMoveHere(gpending, p)
      modifies this`disk, this`power, this`gstate, this`gdelta, this`list
      ensures ok <==> old(power) > 0
      ensures power == old(power) - (if ok then 1 else 0)
      ensures !ok ==> disk == old(disk) && list == old(list)
      ensures ok ==> Dropped(old(disk), disk, old(list), list, p, d, old(gdelta)) && gdelta == NOTHING
                     && gstate == gpending
      ensures ok ==> KeepsOthers(old(disk), disk, old(list)) && d in disk && d in old(disk) && disk[d] == old(disk)[d]
    {
      hide Distinct, Linked, HasMoveHere, Fold, KeepsOthers;
      ghost var i: nat :| NextAt(list, i, p, d);
      TailNext(disk, list, i);
      ghost var before := disk;
      gdelta := Fold(gdelta, disk[d].delta);
      ok := Write(p, disk[p].delta, disk[p].entries, disk[d].tail, disk[d].split);
      if !ok {
        return;
      }
      OneKeepsOthers(before, disk, list, p);
      NeighboursDiffer(list, i, p, d);
      list := list[..i + 1] + list[i + 2..];
      gstate := gpending;
      gdelta := NOTHING;
    }

    /** lfs_dir_commit of entries: delete, create, and carry out a move that is pending here. */
    method Commit(d: Pair, del: Option<nat>, ins: Option<(nat, Entry)>) returns (ok: bool, dropped: bool)
      requires Threaded(disk, list) && d in disk && (d in list || (del == None && ins == None))
      requires ins.Some? ==> ins.value.0 <= |if del.Some? then Without(disk[d].entries, del.value) else disk[d].entries|
      requires del.Some? && ins == None ==> !MoveOn(gpending, list)
      modifies this`disk, this`power, this`gstate, this`gpending, this`gdelta, this`list
      ensures ok <==> old(power) > 0
      ensures power == old(power) - (if ok then 1 else 0)
      ensures !ok ==> disk == old(disk) && list == old(list)
      ensures ok && d in old(list) ==>
                Effect(old(disk), disk, old(list), list, d, Edited(old(disk)[d].entries, del, ins, old(gpending), d),
                       Folded(old(gdelta), old(gpending), d))
      ensures ok ==> gdelta == NOTHING && gstate == gpending
      ensures ok ==> gpending == if dropped then old(gpending) else Folded(old(gpending), old(gpending), d)
      ensures ok && d in old(list) ==> KeepsOthers(old(disk), disk, old(list)) && forall x <- list :: x in old(list)
      ensures ok && dropped ==> d !in list && d in disk && disk[d] == old(disk)[d]
      ensures ok && !dropped ==>
                list == old(list)
                && WrittenTo(old(disk), disk, d, Edited(old(disk)[d].entries, del, ins, old(gpending), d),
                                               Folded(old(gdelta), old(gpending), d))
      ensures dropped <==> (del.Some? || HasMoveHere(old(gpending), d))
                           && Edited(old(disk)[d].entries, del, ins, old(gpending), d) == []
                              && Continues(old(disk), old(list), d)
    {
      hide Threaded, Fold, Without, With, MoveChange, Effect, Rewrote, MoveOn, Edited, Folded, HasMoveHere, Dropped,
        Before, KeepsOthers;
      var dir := disk[d];
      var entries := Edited(dir.entries, del, ins, gpending, d);
      gdelta := Folded(gdelta, gpending, d);
      if (del.Some? || HasMoveHere(gpending, d)) && entries == [] {
        var found, p := FindPred(d);
        if found && disk[p].split {
          NotBoth(disk, list, dir.entries, del, ins, gpending, p, d);
          ok := Drop(p, d);
          if ok {
            DroppedIsEffect(old(disk), disk, old(list), list, p, d, Folded(old(gdelta), old(gpending), d));
            DroppedEffect(old(disk), disk, old(list), list, p, d, Folded(old(gdelta), old(gpending), d));
          }
          return ok, true;
        }
        NotContinues(disk, list, found, p, d);
      }
      dropped := false;
      ok := Write(d, dir.delta, entries, dir.tail, dir.split);
      if ok {
        WroteIsWritten(old(disk), disk, d, entries, gdelta);
        if d in list {
          OneKeepsOthers(old(disk), disk, list, d);
          WroteIsRewrote(old(disk), disk, list, d, entries, gdelta);
          RewroteIsEffect(old(disk), disk, list, d, entries, gdelta);
        }
        gpending := Folded(gpending, gpending, d);
        gstate := gpending;
        gdelta := NOTHING;
      }
    }

    /**
      lfs_dir_commit of a pair that stays, where the append folds the stored delta into the pending one
      (if there is one to commit) and then fails, and the compaction folds it again.
     */
    method CommitAgain(d: Pair, del: Option<nat>, ins: Option<(nat, Entry)>) returns (ok: bool)
      requires Threaded(disk, list) && d in disk && d in list
      requires !((del.Some? || HasMoveHere(gpending, d)) && Edited(disk[d].entries, del, ins, gpending, d) == []
                 && Continues(disk, list, d))
      modifies this`disk, this`power, this`gstate, this`gpending, this`gdelta
      ensures ok <==> old(power) > 0
      ensures !ok ==> disk == old(disk)
      ensures ok ==> var g := Twice(Folded(old(gdelta), old(gpending), d), old(disk)[d].delta);
                WrittenTo(old(disk), disk, d, Edited(old(disk)[d].entries, del, ins, old(gpending), d), g)
                && Threaded(disk, list) && Total(disk, list) == Fold(old(Total(disk, list)), g)
      ensures ok ==> gdelta == NOTHING && gstate == gpending == Folded(old(gpending), old(gpending), d)
      ensures ok && old(Kept()) ==>
                (Kept() <==> Folded(old(gdelta), old(gpending), d) == NOTHING || old(disk)[d].delta == NOTHING)
    {
      hide Threaded, Fold, Edited, Folded, HasMoveHere, Total, Rewrote, Effect;
      var dir := disk[d];
      ghost var before, total, delta, pending := disk, Total(disk, list), gdelta, gpending;
      var entries := Edited(dir.entries, del, ins, gpending, d);
      gdelta := Folded(gdelta, gpending, d);
      ghost var g := gdelta;
      gdelta := Twice(gdelta, dir.delta);
      ok := Write(d, dir.delta, entries, dir.tail, dir.split);
      if ok {
        WroteIsRewrote(before, disk, list, d, entries, gdelta);
        WroteIsWritten(before, disk, d, entries, gdelta);
        RewroteEffect(before, disk, list, d, entries, gdelta);
        gpending := Folded(gpending, gpending, d);
        gstate := gpending;
        gdelta := NOTHING;
        FoldNothing(Total(disk, list));
        if Fold(total, delta) == pending {
          FoldedBoth(total, delta, pending, d);
          FoldedAgain(total, g, dir.delta);
          FoldNothing(dir.delta);
        }
      }
    }

    /** lfs_remove, once the entry is found. */
    method Remove(d: Pair, id: nat) returns (r: Result)
      requires Quiet() && d in list && d in disk && id < |disk[d].entries|
      modifies this
      ensures Sane() && move == None && lag == old(lag)
      ensures r == NotEmpty <==> Inhabited(old(disk), Target(old(disk)[d].entries[id]))
      ensures r == NotEmpty ==> disk == old(disk) && list == old(list) && Quiet()
      ensures r == Done <==> r != NotEmpty && old(power) >= if old(disk)[d].entries[id].DirEntry? then 2 else 1
      ensures r == Done ==> Quiet()
      ensures r == Done ==>
                Fewer(old(list), list,
                      Those(Target(old(disk)[d].entries[id]))
                      + if Strands(old(disk), old(list), Some(Move(id, d))) then {d} else {})
      ensures if r == Done || (r == PowerLost && old(power) > 0)
              then forall x :: Shows(x) == if x == d then Without(old(Shows(d)), id) else old(Shows(x))
              else forall x :: Shows(x) == old(Shows(x))
    {
      hide Sound, Fold, State, Without, Total, Showing, Strands, Fewer;
      var e := disk[d].entries[id];
      if e.DirEntry? {
        RefTarget(disk, list, bit, d, id);
        if disk[e.pair].entries != [] || disk[e.pair].split {
          return NotEmpty;
        }
        PrepOrphans(1, lag);
      }
      assert forall x :: Shows(x) == old(Shows(x));
      var ok := Unname(d, id);
      assert forall x :: Shows(x) == if ok && x == d then Without(old(Shows(d)), id) else old(Shows(x));
      ghost var middle := list;
      if ok && e.DirEntry? {
        PrepOrphans(-1, lag);
        ok := DropOrphan(e.pair);
      }
      if ok {
        FewerThen(old(list), middle, list, if Strands(old(disk), old(list), Some(Move(id, d))) then {d} else {},
                  Target(e));
      }
      return if ok then Done else PowerLost;
    }

    /** The first commit of removing an entry; what it referred to becomes the orphan. */
    method Unname(d: Pair, id: nat) returns (ok: bool)
      requires Sane() && Settled() && move == None && orphan == None && d in list && d in disk && id < |disk[d].entries|
      requires var e := disk[d].entries[id];
               count == (if e.DirEntry? then 1 else 0)
               && (e.DirEntry? ==> e.pair in disk && !Inhabited(disk, Some(e.pair)))
      modifies this
      ensures Sane() && move == None && lag == old(lag) && count == old(count)
      ensures ok <==> old(power) > 0
      ensures power == old(power) - (if ok then 1 else 0)
      ensures ok ==> Settled() && gstate == gpending && orphan == Target(old(disk)[d].entries[id])
      ensures ok ==>
                Fewer(old(list), list, if Strands(old(disk), old(list), Some(Move(id, d))) then {d} else {})
      ensures forall x :: Shows(x) == if ok && x == d then Without(old(Shows(d)), id) else old(Shows(x))
    {
      hide Sound, Fold, State, Effect, Dropped, Without, MoveOn, Total, Edited, Folded, HasMoveHere, KeepsOthers;
      SoundThreaded(disk, list, bit, move, orphan);
      HeldElsewhere();
      NotHere(gpending, list, d);
      NoMoveEdit(disk[d].entries, Some(id), None, gpending, gdelta, d);
      NoMoveEdit(disk[d].entries, Some(id), None, gpending, gpending, d);
      ghost var e, g := disk[d].entries[id], gdelta;
      var dropped;
      ok, dropped := Commit(d, Some(id), None);
      if ok {
        LagStays(old(disk), old(list));
        RemovedSound(old(disk), disk, old(list), list, d, id, old(bit), g, e.DirEntry?);
        EffectShows(old(disk), disk, old(list), list, d, Without(old(disk)[d].entries, id), g);
        EffectList(old(disk), disk, old(list), list, d, Without(old(disk)[d].entries, id), g);
        WithoutLast(old(disk)[d].entries, id);
        bit, orphan := e.DirEntry?, Target(e);
        SoundThreaded(disk, list, bit, move, orphan);
        FoldNothing(Total(disk, list));
      }
    }

    /** The last step of removing a directory: it leaves the list with the commit that clears the sync bit. */
    method DropOrphan(d: Pair) returns (ok: bool)
      requires Sane() && Settled() && move == None && orphan == Some(d) && count == 0
      modifies this`disk, this`power, this`gstate, this`gdelta, this`list, this`bit, this`orphan
      ensures Sane() && forall x :: Shows(x) == old(Shows(x))
      ensures ok <==> old(power) > 0
      ensures power == old(power) - (if ok then 1 else 0)
      ensures ok ==> Quiet() && gdelta == NOTHING && Fewer(old(list), list, {d})
    {
      hide Sound, Fold, State, Dropped, MoveOn, Total, KeepsOthers;
      SoundThreaded(disk, list, bit, move, orphan);
      OrphanOnList(disk, list, bit, d);
      HeldElsewhere();
      var found, p := FindPred(d);
      ghost var i: nat :| NextAt(list, i, p, d);
      NotHere(gpending, list, p);
      ghost var g := gdelta;
      ok := Drop(p, d);
      if ok {
        DroppedSound(old(disk), disk, old(list), list, p, d, old(bit), g, false);
        bit, orphan := false, None;
        LagStays(old(disk), old(list));
        SoundThreaded(disk, list, bit, move, orphan);
        FoldNothing(Total(disk, list));
      }
    }

    /** A move that memory has pending while none is on the disk is not on the list. */
    lemma HeldElsewhere()
      requires Settled() && move == None
      ensures !MoveOn(gpending, list) && (HasMove(gpending) <==> lag.Some?)
      ensures lag.Some? ==> Pair(gpending.b0, gpending.b1) == lag.value.pair
    {
      hide State, HasMove;
      StateReads(count > 0, Held());
    }

    /** A commit on the list leaves what lags behind as it is. */
    lemma LagStays(before: Disk, listBefore: seq<Pair>)
      requires MoveOk(lag) && (lag.Some? ==> move == None && lag.value.pair !in listBefore
                                             && lag.value.pair in before
                                                && lag.value.id < |before[lag.value.pair].entries|)
      requires KeepsOthers(before, disk, listBefore) && forall x <- list :: x in listBefore
      ensures LagOk()
    {
    }

    /**
      lfs_mkdir: the new pair n is written first, then threaded behind the last pair of d's directory, then
      named in d. Nothing but these three pairs is written.
     */
    method Mkdir(d: Pair, id: nat, name: string, n: Pair) returns (r: Result)
      requires Quiet() && d in list && d in disk && id <= |disk[d].entries| && n !in list && !HasMoveHere(gpending, n)
      modifies this
      ensures Sane() && move == None && r != NotEmpty && lag == old(lag)
      ensures r == Done <==> old(power) >= if old(disk)[d].split then 3 else 2
      ensures r == Done ==> Quiet() && n in list
      ensures exists p: Pair ::
                && LastOf(old(disk), old(list), d, p) && Untouched(old(disk), disk, {n, p, d})
                && if old(power) >= 2 then Inserted(old(list), list, p, n) else list == old(list)
      ensures forall x ::
                Shows(x) == if r == Done && x == d then With(old(Shows(d)), id, DirEntry(name, n)) else old(Shows(x))
    {
      hide Sound, Fold, State, With, HasMove, OrphansChange, Total, Linked, Distinct, Inserted, LastOf, Untouched;
      SoundThreaded(disk, list, bit, move, orphan);
      LinkedIn(disk, Some(ROOT), list);
      PlainStates();
      HeldElsewhere();
      var pred := EndOf(d);
      ghost var before := disk;
      FoldNothing(gdelta);
      NothingWritten(disk, {n, pred, d});
      var ok := Write(n, NOTHING, [], disk[pred].tail, false);
      if !ok {
        return PowerLost;
      }
      OneWritten(before, disk, n);
      ghost var written := disk;
      UnlistedSound(before, disk, list, bit, n);
      UnlistedShows(before, disk, list, n);
      gstate := gpending;
      gdelta := NOTHING;
      if disk[d].split {
        ok := LinkOrphan(pred, n);
        if ok {
          ghost var linked := disk;
          ok := NameOrphan(d, id, name, n);
          UntouchedThen(written, linked, disk, {pred}, {d}, {n, pred, d});
        } else {
          NothingWritten(written, {n, pred, d});
        }
      } else {
        ok := LinkNamed(d, id, name, n);
        UntouchedThen(written, written, disk, {d}, {d}, {n, pred, d});
      }
      UntouchedThen(before, written, disk, {n}, {n, pred, d}, {n, pred, d});
      r := if ok then Done else PowerLost;
    }

    /** The last pair of the directory that goes on with d. */
    method EndOf(d: Pair) returns (p: Pair)
      requires Threaded(disk, list) && d in list && (forall x <- list :: x in disk)
      ensures p in list && p in disk && !disk[p].split
      ensures p == d <==> !disk[d].split
      ensures LastOf(disk, list, d, p)
    {
      hide Linked;
      p := d;
      ghost var i: nat :| i < |list| && list[i] == d;
      ghost var start := i;
      while disk[p].split
        invariant start <= i < |list| && list[i] == p && p in disk && (i > start ==> disk[d].split)
                  && (i == start ==> p == d)
        invariant forall j :: start <= j < i ==> SplitOf(disk, list[j])
        decreases |list| - i
      {
        TailAt(disk, list, i);
        p := disk[p].tail.value;
        i := i + 1;
      }
      assert GoesOnTo(disk, list, start, i, d, p);
    }

    /** The commit that threads n behind p, with these entries of p. */
    method Link(p: Pair, n: Pair, entries: seq<Entry>, split: bool) returns (ok: bool)
      requires Threaded(disk, list) && p in list && p in disk && n in disk && n !in list
      requires disk[n].tail == disk[p].tail && disk[n].split == disk[p].split
      modifies this`disk, this`power, this`gstate, this`gdelta, this`list
      ensures ok <==> old(power) > 0
      ensures power == old(power) - (if ok then 1 else 0)
      ensures !ok ==> disk == old(disk) && list == old(list)
      ensures ok ==> Grown(old(disk), disk, old(list), list, p, n, entries, split, old(gdelta)) && gdelta == NOTHING
                     && gstate == gpending
      ensures ok ==> Inserted(old(list), list, p, n) && Untouched(old(disk), disk, {p}) && p in disk
                     && disk[p].split == split
      ensures ok ==> KeepsOthers(old(disk), disk, old(list)) && forall x :: x in list <==> x in old(list) || x == n
    {
      hide Linked, Distinct, Fold, KeepsOthers, Untouched;
      ghost var i: nat :| i < |list| && list[i] == p;
      ghost var before, g := disk, gdelta;
      ok := Write(p, disk[p].delta, entries, Some(n), split);
      if ok {
        OneKeepsOthers(before, disk, list, p);
        OneWritten(before, disk, p);
        ghost var longer := list[..i + 1] + [n] + list[i + 1..];
        assert GrownAt(before, disk, list, longer, i, p, n, entries, split, g);
        assert InsertedAt(list, longer, i, p, n);
        assert list == list[..i + 1] + list[i + 1..];
        list := longer;
        gstate := gpending;
        gdelta := NOTHING;
      }
    }

    /** The commit of lfs_mkdir that threads the new pair while nothing names it yet. */
    method LinkOrphan(p: Pair, n: Pair) returns (ok: bool)
      requires Sane() && InFlight(n) && p in list && p in disk && disk[n].tail == disk[p].tail && !disk[p].split
      modifies this
      ensures Sane() && move == None && lag == old(lag) && forall x :: Shows(x) == old(Shows(x))
      ensures ok <==> old(power) > 0
      ensures power == old(power) - (if ok then 1 else 0)
      ensures ok ==> Settled() && orphan == Some(n) && count == 0
      ensures if ok then Inserted(old(list), list, p, n) && Untouched(old(disk), disk, {p})
              else list == old(list) && disk == old(disk)
      ensures ok ==> forall x :: x in old(list) && x != p && x in old(disk) ==>
                       x in list && x in disk && old(disk)[x] == disk[x]
    {
      hide Sound, Fold, State, Total, OrphansChange, Grown, Threaded, Showing, SYNC, NOTHING, KeepsOthers, Inserted,
        Untouched;
      SoundThreaded(disk, list, bit, move, orphan);
      PlainStates();
      SyncChanges();
      PrepOrphans(1, lag);
      ghost var before, total, flight := disk, Total(disk, list), disk[n].delta;
      LinkTotal(total, flight, SYNC);
      ok := Link(p, n, disk[p].entries, false);
      if ok {
        LinkedOrphanSound(before, disk, old(list), list, p, n, bit, SYNC);
        bit, orphan := true, Some(n);
        LinkedLag(before, old(list), n);
        FoldNothing(SYNC);
        PrepOrphans(-1, lag);
      }
    }

    /** The last commit of lfs_mkdir if the new pair is already threaded. */
    method NameOrphan(d: Pair, id: nat, name: string, n: Pair) returns (ok: bool)
      requires Sane() && Settled() && move == None && orphan == Some(n) && count == 0
      requires d in list && d in disk && id <= |disk[d].entries|
      modifies this
      ensures Sane() && move == None && lag == old(lag) && (ok ==> Quiet() && n in list)
      ensures ok <==> old(power) > 0
      ensures power == old(power) - (if ok then 1 else 0)
      ensures list == old(list) && Untouched(old(disk), disk, {d})
      ensures forall x :: Shows(x) == if ok && x == d then With(old(Shows(d)), id, DirEntry(name, n)) else old(Shows(x))
    {
      hide Sound, Fold, State, Total, Effect, With, MoveOn, Edited, Folded, HasMoveHere, KeepsOthers, Untouched;
      SoundThreaded(disk, list, bit, move, orphan);
      OrphanOnList(disk, list, bit, n);
      HeldElsewhere();
      NotHere(gpending, list, d);
      var ins := Some((id, DirEntry(name, n)));
      NoMoveEdit(disk[d].entries, None, ins, gpending, gdelta, d);
      NoMoveEdit(disk[d].entries, None, ins, gpending, gpending, d);
      ghost var before, g := disk, gdelta;
      var dropped;
      ok, dropped := Commit(d, None, ins);
      NothingWritten(disk, {d});
      if ok {
        OneWritten(before, disk, d);
        LagStays(before, old(list));
        NamedSound(before, disk, old(list), list, d, id, DirEntry(name, n), bit, g);
        EffectShows(before, disk, old(list), list, d, With(before[d].entries, id, DirEntry(name, n)), g);
        bit, orphan := false, None;
        SoundThreaded(disk, list, bit, move, orphan);
        FoldNothing(Total(disk, list));
      }
    }

    /** The last commit of lfs_mkdir if d is the end of its directory: it threads the new pair and names it. */
    method LinkNamed(d: Pair, id: nat, name: string, n: Pair) returns (ok: bool)
      requires Sane() && InFlight(n) && d in list && d in disk && disk[n].tail == disk[d].tail && !disk[d].split
      requires id <= |disk[d].entries|
      modifies this
      ensures Sane() && move == None && lag == old(lag) && (ok ==> Quiet() && n in list)
      ensures ok <==> old(power) > 0
      ensures power == old(power) - (if ok then 1 else 0)
      ensures Untouched(old(disk), disk, {d}) && if ok then Inserted(old(list), list, d, n) else list == old(list)
      ensures forall x :: Shows(x) == if ok && x == d then With(old(Shows(d)), id, DirEntry(name, n)) else old(Shows(x))
    {
      hide Sound, Fold, State, Total, With, Grown, KeepsOthers, Inserted, Untouched;
      SoundThreaded(disk, list, bit, move, orphan);
      PlainStates();
      FoldNothing(Total(disk, list));
      NothingWritten(disk, {d});
      ghost var before := disk;
      ok := Link(d, n, With(disk[d].entries, id, DirEntry(name, n)), false);
      if ok {
        LinkedLag(before, old(list), n);
        LinkedNamedSound(before, disk, old(list), list, d, id, DirEntry(name, n), bit);
        GrownShows(before, disk, old(list), list, d, n, With(before[d].entries, id, DirEntry(name, n)), NOTHING);
        GrownKeeps(before, disk, old(list), list, d, n, With(before[d].entries, id, DirEntry(name, n)), NOTHING);
        bit, orphan := false, None;
        SoundThreaded(disk, list, bit, move, orphan);
        FoldNothing(Total(disk, list));
      }
    }

    lemma LinkedLag(before: Disk, listBefore: seq<Pair>, n: Pair)
      requires MoveOk(lag) && (lag.Some? ==> move == None && lag.value.pair !in listBefore && lag.value.pair != n
                                             && lag.value.pair in before
                                                && lag.value.id < |before[lag.value.pair].entries|)
      requires KeepsOthers(before, disk, listBefore) && forall x :: x in list <==> x in listBefore || x == n
      ensures LagOk()
    {
    }

    /** lfs_fs_parent: whether an entry on the list refers to the pair. */
    method HasParent(x: Pair) returns (found: bool)
      requires Threaded(disk, list)
      ensures found <==> x in Refs(disk, None, list)
    {
      hide Distinct, Linked, Refs, RefsOf, InsideAfter;
      var at := Some(ROOT);
      ghost var i := 0;
      FirstIsRoot(disk, list);
      NoRefsOn(disk);
      while at.Some?
        invariant i <= |list| && (at == if i < |list| then Some(list[i]) else None)
        invariant x !in Refs(disk, None, list[..i])
        decreases |list| - i
      {
        TailAt(disk, list, i);
        RefsNext(disk, list, i);
        if x in RefsOf(disk[at.value].entries) {
          return true;
        }
        at := disk[at.value].tail;
        i := i + 1;
      }
      assert list[..i] == list;
      return false;
    }

    /** lfs_mount: what the deltas on the list add up to becomes the global state. */
    method Mount()
      requires Threaded(disk, list)
      modifies this`gstate, this`gpending, this`gdelta, this`count, this`lag
      ensures gstate == gpending == Total(disk, list) && gdelta == NOTHING && lag == None
      ensures Sane() ==> Kept() && Settled() && gpending == State(bit, move) && count == if bit then 1 else 0
    {
      hide Sound, Threaded, Fold, Total, State, HasSync, Kept, Settled;
      Gather();
      gdelta, lag := NOTHING, None;
      count := if HasSync(gpending) then 1 else 0;
      gstate := gpending;
      if Sane() {
        SoundThreaded(disk, list, bit, move, orphan);
        StateReads(bit, move);
        MountedSettled();
      }
    }

    lemma StartsQuiet()
      requires Sound(disk, list, false, None, None) && Total(disk, list) == NOTHING && !bit && move == None
               && orphan == None
      requires lag == None && gstate == gpending == gdelta == NOTHING && count == 0
      ensures Quiet()
    {
      hide Fold, State, Sound, Total, NOTHING;
      PlainStates();
      FoldNothing(NOTHING);
    }

    lemma MountedSettled()
      requires Sane() && gpending == State(bit, move) && gdelta == NOTHING && lag == None
               && count == (if bit then 1 else 0)
      ensures Kept() && Settled()
    {
      hide Sound, Fold, Total, State;
      SoundThreaded(disk, list, bit, move, orphan);
      FoldNothing(gpending);
      assert bit == (count > 0);
    }

    /** The walk of lfs_mount over the list. */
    method Gather()
      requires Threaded(disk, list)
      modifies this`gpending
      ensures gpending == Total(disk, list)
    {
      hide Distinct, Linked, Fold, Total, InsideAfter;
      gpending := NOTHING;
      var at := Some(ROOT);
      ghost var i := 0;
      FirstIsRoot(disk, list);
      TotalOfNone(disk);
      while at.Some?
        invariant i <= |list| && (at == if i < |list| then Some(list[i]) else None)
        invariant gpending == Total(disk, list[..i])
        decreases |list| - i
      {
        TailAt(disk, list, i);
        TotalNext(disk, list, i);
        gpending := Fold(gpending, disk[at.value].delta);
        at := disk[at.value].tail;
        i := i + 1;
      }
      assert list[..i] == list;
    }

    /**
      lfs_fs_demove: carries out a move that a lost power left pending. A move that only memory has
      pending is carried out, too, with a commit of a pair that is off the list.
     */
    method Demove() returns (ok: bool, dropped: bool)
      requires Sane() && Settled() && gstate == gpending && (Held().Some? ==> gdelta == NOTHING)
      modifies this
      ensures Sane() && orphan == old(orphan) && bit == old(bit) && count == old(count)
      ensures forall x :: Shows(x) == old(Shows(x))
      ensures ok <==> old(Held()) == None || old(power) > 0
      ensures power == old(power) - (if ok && old(Held()).Some? then 1 else 0)
      ensures dropped <==> Strands(old(disk), old(list), old(move))
      ensures ok ==> Fewer(old(list), list, Stranded(old(disk), old(list), old(move)))
      ensures ok ==> Settled() && move == None && gstate == gpending && lag == if dropped then old(move) else None
      ensures ok ==> gdelta == if old(Held()).Some? then NOTHING else old(gdelta)
    {
      hide Sound, Fold, State, Total, Effect, HasMove, MoveChange, Without, Fewer;
      SoundThreaded(disk, list, bit, move, orphan);
      StateReads(count > 0, Held());
      NoFewer(list);
      if !HasMove(gstate) {
        return true, false;
      }
      HeldThere();
      ok, dropped := FinishMove(Pair(gstate.b0, gstate.b1));
    }

    lemma HeldThere()
      requires Sane() && LagOk()
      ensures Held().Some? ==> Held().value.pair in disk && Held().value.id < |disk[Held().value.pair].entries|
    {
      hide Sound;
      if move.Some? {
        MoveThere(disk, list, bit, move, orphan);
      }
    }

    /**
      The commit without attributes that deletes a moved entry. If the pair is dropped with its last
      entry, memory keeps the move pending; the same commit on the pair off the list then clears it.
     */
    method FinishMove(d: Pair) returns (ok: bool, dropped: bool)
      requires Sane() && Settled() && Held().Some? && Held().value.pair == d && d in disk
               && (move.Some? ==> gdelta == NOTHING)
      modifies this
      ensures Sane() && orphan == old(orphan) && bit == old(bit) && count == old(count)
      ensures forall x :: Shows(x) == old(Shows(x))
      ensures ok <==> old(power) > 0
      ensures power == old(power) - (if ok then 1 else 0)
      ensures ok ==> move == None && gdelta == NOTHING && gstate == gpending
      ensures ok ==> lag == if dropped then old(move) else None
      ensures ok ==> (Settled() <==> old(gdelta) == NOTHING) && (Kept() <==> !dropped && old(gdelta) == NOTHING)
      ensures dropped <==> Strands(old(disk), old(list), old(move))
      ensures ok ==> Fewer(old(list), list, if dropped then {d} else {})
    {
      hide Sound, Fold, State, Total, Effect, HasMove, MoveId, MoveChange, Without, With, Threaded, Showing, Visible,
        KeepsOthers;
      SoundThreaded(disk, list, bit, move, orphan);
      HeldThere();
      StateReads(count > 0, Held());
      MoveSet(count > 0, Held(), None);
      ghost var before, listBefore, m, g, held := disk, list, move, Folded(gdelta, gpending, d), Held();
      ghost var pending := gpending;
      KeptFold(Total(disk, list), gdelta, State(count > 0, move), MoveChange(gpending, None));
      WithoutLast(disk[d].entries, held.value.id);
      if move.Some? {
        MoveThere(disk, list, bit, move, orphan);
        StateReads(bit, move);
        FoldNothing(Total(disk, list));
      } else {
        NotContinued(disk, list, d);
        FoldRight(Total(disk, list), gdelta);
      }
      ok, dropped := Commit(d, None, None);
      if ok {
        if m.Some? {
          MovedSound(before, disk, listBefore, list, bit, m, orphan, g);
          EffectList(before, disk, listBefore, list, d, Edited(before[d].entries, None, None, pending, d), g);
          lag := if dropped then m else None;
        } else {
          UnlistedSoundWith(before, disk, list, bit, orphan, d);
          UnlistedShows(before, disk, list, d);
          lag := None;
        }
        move := None;
        SoundThreaded(disk, list, bit, move, orphan);
        FoldNothing(Total(disk, list));
        StateReads(count > 0, lag);
        StateReads(count > 0, None);
      }
    }

    /** lfs_fs_deorphan: the first head without a parent is dropped. */
    method Deorphan() returns (ok: bool)
      requires Sane() && Settled() && move == None && gstate == gpending && (orphan.Some? ==> count > 0)
      modifies this
      ensures Sane() && move == None && lag == old(lag) && forall x :: Shows(x) == old(Shows(x))
      ensures ok <==> old(orphan) == None || old(power) > 0
      ensures power == old(power) - (if ok && old(orphan).Some? then 1 else 0)
      ensures ok ==> Quiet()
      ensures ok ==> Fewer(old(list), list, Those(old(orphan)))
    {
      hide Sound, Fold, State, Total, HasMove, OrphansChange, Distinct, Linked, InsideAfter, Refs, Heads, Dropped;
      SoundOrphan(disk, list, bit, orphan);
      if count == 0 {
        return true;
      }
      ok := DropFirstOrphan();
      if ok {
        PrepOrphans(-(count as int), lag);
        gstate := gpending;
      }
    }

    /** The walk of lfs_fs_deorphan. */
    method DropFirstOrphan() returns (ok: bool)
      requires Sane() && Settled() && move == None && count > 0
      modifies this`disk, this`power, this`gstate, this`gdelta, this`list, this`bit, this`orphan
      ensures Sane() && forall x :: Shows(x) == old(Shows(x))
      ensures ok <==> old(orphan) == None || old(power) > 0
      ensures power == old(power) - (if ok && old(orphan).Some? then 1 else 0)
      ensures ok ==> orphan == None && Settled()
      ensures ok ==> forall x :: x in list <==> x in old(list) && old(orphan) != Some(x)
    {
      hide Sound, Fold, State, Total, HasMove, Distinct, Linked, InsideAfter, Refs, Heads, Dropped;
      SoundThreaded(disk, list, bit, move, orphan);
      SoundOrphan(disk, list, bit, orphan);
      var prev: Option<Pair> := None;
      var at := Some(ROOT);
      ghost var i := 0;
      FirstIsRoot(disk, list);
      while at.Some?
        invariant i <= |list| && (at == if i < |list| then Some(list[i]) else None)
        invariant Sane() && Settled() && power == old(power) && disk == old(disk) && list == old(list)
                  && bit == old(bit) && orphan == old(orphan)
        invariant prev == (if i == 0 then None else Some(list[i - 1])) && (prev.Some? ==> prev.value in disk)
        invariant forall j :: 0 <= j < i ==> orphan != Some(list[j])
        decreases |list| - i
      {
        TailAt(disk, list, i);
        var d := at.value;
        if prev.Some? {
          OrphanAt(disk, list, bit, orphan, i - 1);
        }
        if prev.Some? && !disk[prev.value].split {
          var found := HasParent(d);
          if !found {
            assert NextAt(list, i - 1, prev.value, d);
            ok := TakeOff(prev.value, d);
            return;
          }
        }
        prev := Some(d);
        at := disk[d].tail;
        i := i + 1;
      }
      return true;
    }

    /** The commit of lfs_fs_deorphan; the sync bit stays for now. */
    method TakeOff(p: Pair, d: Pair) returns (ok: bool)
      requires Sane() && Settled() && move == None && orphan == Some(d) && count > 0 && Before(list, p, d)
      modifies this`disk, this`power, this`gstate, this`gdelta, this`list, this`bit, this`orphan
      ensures Sane() && forall x :: Shows(x) == old(Shows(x))
      ensures ok <==> old(power) > 0
      ensures power == old(power) - (if ok then 1 else 0)
      ensures ok ==> orphan == None && Settled() && forall x :: x in list <==> x in old(list) && x != d
    {
      hide Sound, Fold, State, Dropped, MoveOn, Total, Threaded, Showing, Visible, Before, KeepsOthers;
      SoundThreaded(disk, list, bit, move, orphan);
      OrphanOnList(disk, list, bit, d);
      HeldElsewhere();
      BeforeListed(list, p, d);
      NotHere(gpending, list, p);
      ghost var g := gdelta;
      ok := Drop(p, d);
      if ok {
        DroppedSound(old(disk), disk, old(list), list, p, d, old(bit), g, true);
        bit, orphan := true, None;
        LagStays(old(disk), old(list));
        SoundThreaded(disk, list, bit, move, orphan);
        FoldNothing(Total(disk, list));
      }
    }

    /** lfs_fs_forceconsistency; a move whose pair was dropped stays pending in memory. */
    method ForceConsistency() returns (ok: bool)
      requires Sane() && Settled() && gstate == gpending && (orphan.Some? ==> count > 0)
               && (Held().Some? ==> gdelta == NOTHING)
      modifies this
      ensures Sane() && forall x :: Shows(x) == old(Shows(x))
      ensures ok <==> old(power) >= Repairs(old(Held()), old(orphan))
      ensures power == old(power) - (if ok then Repairs(old(Held()), old(orphan)) else old(power))
      ensures ok ==> Quiet() && lag == if Strands(old(disk), old(list), old(move)) then old(move) else None
      ensures ok ==> Fewer(old(list), list, Those(old(orphan)) + Stranded(old(disk), old(list), old(move)))
    {
      hide Sound, Fold, State, Total, Fewer, Stranded, Strands;
      var dropped;
      ok, dropped := Demove();
      if ok {
        ghost var middle := list;
        ok := Deorphan();
        if ok {
          FewerBoth(old(list), middle, list, Stranded(old(disk), old(list), old(move)), Those(old(orphan)));
        }
      }
    }

    /** lfs_rename, once the source and the destination are found: `moved` if the first commit was done. */
    method Rename(od: Pair, oid: nat, nd: Pair, nid: nat, replace: bool, name: string) returns (r: Result, moved: bool)
      requires Quiet() && lag == None && od in list && od in disk && nd in list && nd in disk
      requires oid < |disk[od].entries| < 0x3fe
               && (if replace then nid < |disk[nd].entries| else nid <= |disk[nd].entries|)
      requires replace ==> (od, oid) != (nd, nid) && disk[nd].entries[nid].DirEntry? == disk[od].entries[oid].DirEntry?
      modifies this
      ensures Sane()
      ensures r == NotEmpty <==> Inhabited(old(disk), Gone(old(disk)[nd].entries, nid, replace))
      ensures r == NotEmpty ==> Quiet() && lag == None && !moved
      ensures moved <==> r != NotEmpty && old(power) > 0
      ensures r == Done <==>
                r != NotEmpty && old(power) >= RenameCommits(od, nd, Gone(old(disk)[nd].entries, nid, replace))
      ensures r == Done ==> Quiet() && gdelta == NOTHING
      ensures r == Done ==>
                lag ==
                  if od != nd && Strands(old(disk), old(list), Some(Move(oid, od))) then Some(Move(oid, od)) else None
      ensures r == Done ==>
                Fewer(old(list), list,
                      Those(Gone(old(disk)[nd].entries, nid, replace))
                      + if od != nd && Strands(old(disk), old(list), Some(Move(oid, od))) then {od} else {})
      ensures var e := Renamed(old(disk)[od].entries[oid], name);
              forall x ::
                Shows(x) == if moved then AfterRename(old(Shows(x)), x, od, oid, nd, nid, replace, e) else old(Shows(x))
    {
      hide Sound, Fold, State, Total, Without, With, Threaded, AfterRename, Visible, SYNC, NOTHING, Strands, Showing;
      SoundThreaded(disk, list, bit, move, orphan);
      var e := Renamed(disk[od].entries[oid], name);
      var gone := Gone(disk[nd].entries, nid, replace);
      KeptUnlessLagging();
      if gone.Some? {
        RefTarget(disk, list, bit, nd, nid);
        if disk[gone.value].entries != [] || disk[gone.value].split {
          return NotEmpty, false;
        }
        PrepOrphans(1, None);
      }
      var m := Some(Move(if od == nd then ShiftedId(oid, nid, replace) else oid, od));
      PrepMove(m, gone.Some?, None);
      var ok := MoveIn(od, oid, nd, nid, replace, e, gone, m);
      if !ok {
        return PowerLost, false;
      }
      ok := Complete(od, nd, gone);
      return if ok then Done else PowerLost, true;
    }

    /** The commits of a rename behind the first: the old entry goes, and a directory that was replaced. */
    method Complete(od: Pair, nd: Pair, gone: Option<Pair>) returns (ok: bool)
      requires Sane() && Settled() && lag == None && gdelta == NOTHING && gstate == gpending && orphan == gone
      requires count == (if gone.Some? then 1 else 0) && od in disk
      requires if od == nd then move == None else move.Some? && move.value.pair == od
      modifies this
      ensures Sane() && forall x :: Shows(x) == old(Shows(x))
      ensures ok <==> old(power) + 1 >= RenameCommits(od, nd, gone)
      ensures ok ==> Quiet() && gdelta == NOTHING
      ensures ok ==> lag == if Strands(old(disk), old(list), old(move)) then old(move) else None
      ensures ok ==>
                Fewer(old(list), list,
                      Those(gone) + if Strands(old(disk), old(list), old(move)) then {od} else {})
    {
      hide Sound, Fold, State, Total, Strands, Fewer;
      ghost var before, dropped := list, false;
      NoFewer(list);
      ok := true;
      if od != nd {
        ok, dropped := FinishMove(od);
      } else {
        NoneStrands(disk, list);
      }
      ghost var middle := list;
      if ok && gone.Some? {
        PrepOrphans(-1, lag);
        ok := DropOrphan(gone.value);
      }
      if ok {
        FewerThen(before, middle, list, if dropped then {od} else {}, gone);
      }
    }

    /** The first commit of a rename: the new entry, in place of the old one if there was one there. */
    method MoveIn(od: Pair, oid: nat, nd: Pair, nid: nat, replace: bool, e: Entry, gone: Option<Pair>,
                  m: Option<Move>) returns (ok: bool)
      requires Sane() && Kept() && move == None && orphan == None && lag == None && (count > 0 <==> gone.Some?)
      requires od in list && od in disk && nd in list && nd in disk && oid < |disk[od].entries| < 0x3fe
      requires if replace then nid < |disk[nd].entries| && (od, oid) != (nd, nid) else nid <= |disk[nd].entries|
      requires m == Some(Move(if od == nd then ShiftedId(oid, nid, replace) else oid, od))
               && gpending == State(gone.Some?, m)
      requires gone == Gone(disk[nd].entries, nid, replace) && RefOf(e) == RefOf(disk[od].entries[oid])
      requires gone.Some? ==> gone.value in disk && disk[gone.value].entries == [] && !disk[gone.value].split
      modifies this
      ensures Sane() && count == old(count) && lag == None
      ensures ok <==> old(power) > 0
      ensures power == old(power) - (if ok then 1 else 0)
      ensures ok ==> move == (if od == nd then None else m) && orphan == gone && bit == gone.Some?
      ensures ok ==> Settled() && gdelta == NOTHING && gstate == gpending
      ensures ok ==> list == old(list) && od in disk
                     && Strands(disk, list, move) == (od != nd && Strands(old(disk), list, m))
      ensures forall x ::
                Shows(x) == if ok then AfterRename(old(Shows(x)), x, od, oid, nd, nid, replace, e) else old(Shows(x))
    {
      hide Sound, Fold, State, Total, Effect, HasMove, MoveId, MoveChange, Without, With, Threaded, AfterRename,
        Visible, NOTHING;
      SoundThreaded(disk, list, bit, move, orphan);
      StateReads(gone.Some?, m);
      MoveSet(gone.Some?, m, None);
      KeptFold(Total(disk, list), gdelta, gpending, MoveChange(gpending, None));
      ghost var before, b, g := disk, bit, Folded(gdelta, gpending, nd);
      EditedRename(disk[nd].entries, oid, nid, replace, e, gpending, od, nd);
      PlacedNotEmpty(disk[nd].entries, oid, nid, replace, e);
      if replace {
        WithoutLength(disk[nd].entries, nid);
      }
      var dropped;
      ok, dropped := Commit(nd, if replace then Some(nid) else None, Some((nid, e)));
      if ok {
        if od == nd {
          SameRenameSound(before, disk, old(list), list, b, nd, oid, nid, replace, e, gone, g);
          move := None;
        } else {
          RewrittenStrands(before, disk, list, nd, m);
          OtherRenameSound(before, disk, old(list), list, b, od, oid, nd, nid, replace, e, gone, g);
          move := m;
        }
        orphan, bit := gone, gone.Some?;
        SoundThreaded(disk, list, bit, move, orphan);
        FoldNothing(Total(disk, list));
      }
    }

    /**
      lfs_rename while memory has a move pending that the disk has not any more. All entries end up where they
      should, but the deltas then say that the old move is still pending; and if the power is lost behind
      the first commit, they are the two moves on top of each other.
     */
    method RenameStale(od: Pair, oid: nat, nd: Pair, nid: nat, replace: bool, name: string) returns (r: Result)
      requires Quiet() && lag.Some? && gdelta == NOTHING && od in list && od in disk && nd in list && nd in disk
      requires oid < |disk[od].entries| < 0x3fe
               && (if replace then nid < |disk[nd].entries| else nid <= |disk[nd].entries|)
      requires replace ==> (od, oid) != (nd, nid)
      modifies this
      ensures r == NotEmpty <==> Inhabited(old(disk), Gone(old(disk)[nd].entries, nid, replace))
      ensures r == Done <==>
                r != NotEmpty && old(power) >= RenameCommits(od, nd, Gone(old(disk)[nd].entries, nid, replace))
      ensures r == Done ==> Threaded(disk, list) && Total(disk, list) == State(false, old(lag)) && gdelta == NOTHING
      ensures r == Done ==> forall x <- list :: x in old(list)
      ensures r == Done ==>
                var e := Renamed(old(disk)[od].entries[oid], name);
                forall x ::
                  Showing(disk, list, None, x) == AfterRename(old(Shows(x)), x, od, oid, nd, nid, replace, e)
      ensures r == PowerLost && old(power) == 1 && od != nd ==>
                var o := Gone(old(disk)[nd].entries, nid, replace).Some?;
                Total(disk, list) ==
                  Fold(State(o, Some(Move(oid, od))), Fold(State(false, None), State(false, old(lag))))
    {
      hide Sound, Fold, State, Total, Without, With, Threaded, AfterRename, Visible, SYNC, NOTHING, Showing, Settled,
        LagOk, Owed, Shows;
      SoundThreaded(disk, list, bit, move, orphan);
      QuietOwes();
      ShowsAll();
      ghost var x := Owed();
      var e := Renamed(disk[od].entries[oid], name);
      var gone := Gone(disk[nd].entries, nid, replace);
      if gone.Some? {
        RefTarget(disk, list, bit, nd, nid);
        NotRoot(disk, list, bit, nd, nid);
        if disk[gone.value].entries != [] || disk[gone.value].split {
          return NotEmpty;
        }
        PrepOrphans(1, lag);
      }
      var m := Some(Move(if od == nd then ShiftedId(oid, nid, replace) else oid, od));
      PrepMove(m, gone.Some?, lag);
      var ok := StaleCommits(od, oid, nd, nid, replace, e, gone.Some?, m);
      if !ok {
        return PowerLost;
      }
      LagOnDisk(gone.Some?, lag, x);
      if gone.Some? {
        LagWithout(lag);
        ok := StaleDrop(gone.value, if MoveOn(gpending, [od]) then m else None);
        if !ok {
          return PowerLost;
        }
      }
      return Done;
    }

    lemma ShowsAll()
      requires move == None
      ensures forall p :: Shows(p) == Showing(disk, list, None, p)
    {
      hide Showing;
    }

    /** The commits that move the entry. */
    method StaleCommits(od: Pair, oid: nat, nd: Pair, nid: nat, replace: bool, e: Entry, ghost o: bool, m: Option<Move>)
      returns (ok: bool)
      requires Threaded(disk, list) && od in list && od in disk && nd in list && nd in disk
               && oid < |disk[od].entries| < 0x3fe
      requires if replace then nid < |disk[nd].entries| && (od, oid) != (nd, nid) else nid <= |disk[nd].entries|
      requires m == Some(Move(if od == nd then ShiftedId(oid, nid, replace) else oid, od)) && gpending == State(o, m)
      modifies this`disk, this`power, this`gstate, this`gpending, this`gdelta, this`list
      ensures ok <==> old(power) >= if od == nd then 1 else 2
      ensures power == old(power) - (if ok then if od == nd then 1 else 2 else old(power))
      ensures ok ==> Threaded(disk, list) && gdelta == NOTHING && Total(disk, list) == Fold(old(Owed()), State(o, None))
      ensures ok ==> gpending == if MoveOn(gpending, [od]) then State(o, m) else State(o, None)
      ensures ok ==> (MoveOn(gpending, [od]) ==> od !in list) && forall x <- list :: x in old(list)
      ensures ok ==> forall x ::
                Showing(disk, list, None, x) ==
                  AfterRename(old(Showing(disk, list, None, x)), x, od, oid, nd, nid, replace, e)
      ensures ok ==> forall x ::
                x in old(list) && x != od && x != nd && x in old(disk) ==>
                x in list && x in disk && disk[x].entries == old(disk)[x].entries
      ensures !ok && old(power) > 0 ==> Total(disk, list) == Fold(State(o, m), old(Owed()))
    {
      hide Fold, State, Total, Without, With, Threaded, AfterRename, Visible, NOTHING, Showing, Owed, HasMove, Placed,
        MoveOn;
      ghost var before, listBefore, x := disk, list, Owed();
      PendingIs(o, m);
      ok := StaleMoveIn(od, oid, nd, nid, replace, e, o, m);
      if !ok {
        return;
      }
      FoldBack(Total(disk, list), gpending, x);
      ghost var middle, listMiddle := disk, list;
      if od != nd {
        StillOwed();
        ok := StaleMoveOut(od, oid, o, m);
        if !ok {
          return;
        }
      }
      RenamedShows(before, listBefore, middle, listMiddle, disk, list, od, oid, nd, nid, replace, e);
    }

    lemma PendingIs(o: bool, m: Option<Move>)
      requires MoveOk(m) && m.Some?
      ensures MoveOn(State(o, m), [m.value.pair]) && !MoveOn(State(o, None), [m.value.pair])
    {
      hide State, HasMove;
      StateReads(o, m);
      StateReads(o, None);
    }

    lemma StillOwed()
      requires gdelta == NOTHING
      ensures Owed() == Fold(Total(disk, list), gpending)
    {
      hide Fold, Total, NOTHING;
      FoldNothing(Total(disk, list));
    }

    /** The first commit: the new entry, and within one directory the deletion of the old one. */
    method StaleMoveIn(od: Pair, oid: nat, nd: Pair, nid: nat, replace: bool, e: Entry, ghost o: bool, m: Option<Move>)
      returns (ok: bool)
      requires Threaded(disk, list) && od in list && od in disk && nd in list && nd in disk
               && oid < |disk[od].entries| < 0x3fe
      requires if replace then nid < |disk[nd].entries| && (od, oid) != (nd, nid) else nid <= |disk[nd].entries|
      requires m == Some(Move(if od == nd then ShiftedId(oid, nid, replace) else oid, od)) && gpending == State(o, m)
      modifies this`disk, this`power, this`gstate, this`gpending, this`gdelta, this`list
      ensures ok <==> old(power) > 0
      ensures power == old(power) - (if ok then 1 else 0)
      ensures !ok ==> disk == old(disk) && list == old(list)
      ensures ok ==> Threaded(disk, list) && list == old(list) && gdelta == NOTHING
      ensures ok ==> nd in disk && disk == old(disk)[nd := disk[nd]]
      ensures ok ==> gpending == State(o, if od == nd then None else m)
                     && Fold(Total(disk, list), gpending) == old(Owed())
      ensures ok ==> var t := Placed(old(disk)[nd].entries, nid, replace, e);
                     var u := if od == nd then Without(t, ShiftedId(oid, nid, replace)) else t;
                     forall x ::
                       Showing(disk, list, None, x) == if x == nd then u else old(Showing(disk, list, None, x))
    {
      hide Fold, State, Total, Effect, HasMove, MoveId, MoveChange, Without, With, Threaded, NOTHING, Placed, Edited,
        Continues, KeepsOthers, Showing;
      StateReads(o, m);
      MoveSet(o, m, None);
      EditedRename(disk[nd].entries, oid, nid, replace, e, gpending, od, nd);
      PlacedNotEmpty(disk[nd].entries, oid, nid, replace, e);
      if replace {
        WithoutLength(disk[nd].entries, nid);
      }
      ghost var total, delta, pending := Total(disk, list), gdelta, gpending;
      ghost var before := disk;
      var dropped;
      ok, dropped := Commit(nd, if replace then Some(nid) else None, Some((nid, e)));
      if ok {
        EffectThreaded(before, disk, list, list, nd, disk[nd].entries, Folded(delta, pending, nd));
        EffectShows(before, disk, list, list, nd, disk[nd].entries, Folded(delta, pending, nd));
        OwedAfter(total, delta, pending, nd);
      }
    }

    /** The second commit: the old entry goes, with its pair if that is left empty. */
    method StaleMoveOut(od: Pair, oid: nat, ghost o: bool, ghost m: Option<Move>) returns (ok: bool)
      requires Threaded(disk, list) && od in list && od in disk && oid < |disk[od].entries| && oid < 0x3ff
      requires m == Some(Move(oid, od)) && gpending == State(o, m)
      modifies this`disk, this`power, this`gstate, this`gpending, this`gdelta, this`list
      ensures ok <==> old(power) > 0
      ensures power == old(power) - (if ok then 1 else 0)
      ensures !ok ==> disk == old(disk) && list == old(list)
      ensures ok ==> Threaded(disk, list) && gdelta == NOTHING && Total(disk, list) == Fold(old(Owed()), State(o, None))
      ensures ok ==> gpending == State(o, None) || (gpending == State(o, m) && od !in list)
      ensures ok ==> forall x <- list :: x in old(list)
      ensures ok ==> forall x ::
                Showing(disk, list, None, x) ==
                  if x == od then Without(old(disk)[od].entries, oid) else old(Showing(disk, list, None, x))
      ensures ok ==> forall x ::
                x in old(list) && x != od && x in old(disk) ==>
                  x in list && x in disk && disk[x].entries == old(disk)[x].entries
    {
      hide Fold, State, Total, Effect, HasMove, MoveId, MoveChange, Without, With, Threaded, NOTHING, Continues,
        KeepsOthers, Showing;
      StateReads(o, m);
      MoveSet(o, m, None);
      ghost var before, listBefore, total, delta, pending := disk, list, Total(disk, list), gdelta, gpending;
      var dropped;
      ok, dropped := Commit(od, None, None);
      if ok {
        ghost var left, g := Without(before[od].entries, oid), Folded(delta, pending, od);
        EffectThreaded(before, disk, listBefore, list, od, left, g);
        EffectShows(before, disk, listBefore, list, od, left, g);
        OwedAfter(total, delta, pending, od);
        FoldBack(Total(disk, list), State(o, None), old(Owed()));
        forall x | x in listBefore && x != od && x in before
          ensures x in list && x in disk && disk[x].entries == before[x].entries
        {
          OtherStays(before, disk, listBefore, list, od, left, g, x);
        }
      }
    }

    /** The last commit: a directory that was replaced leaves the list. */
    method StaleDrop(d: Pair, ghost m: Option<Move>) returns (ok: bool)
      requires Threaded(disk, list) && d in list && d != ROOT && d in disk && disk[d].entries == [] && count == 1
               && gdelta == NOTHING
      requires MoveOk(m) && gpending == State(true, m) && (m.Some? ==> m.value.pair !in list)
      modifies this`disk, this`power, this`gstate, this`gpending, this`gdelta, this`list, this`count
      ensures ok <==> old(power) > 0
      ensures ok ==> Threaded(disk, list) && gdelta == NOTHING
                     && Total(disk, list) == Fold(old(Total(disk, list)), SYNC)
      ensures ok ==> forall x :: Showing(disk, list, None, x) == old(Showing(disk, list, None, x))
      ensures ok ==> forall x <- list :: x in old(list)
    {
      hide Fold, State, Total, HasMove, Threaded, NOTHING, SYNC, Dropped, KeepsOthers, Showing, Owed, Kept, Settled;
      PrepOrphans(-1, m);
      FoldNothing(SYNC);
      FirstIsRoot(disk, list);
      var found, p := FindPred(d);
      BeforeListed(list, p, d);
      StateReads(false, m);
      ghost var before, listBefore, g := disk, list, gdelta;
      ok := Drop(p, d);
      if ok {
        DroppedEffect(before, disk, listBefore, list, p, d, g);
        DroppedShows(before, disk, listBefore, list, p, d, g);
      }
    }

    lemma QuietOwes()
      requires Quiet() && gdelta == NOTHING
      ensures Owed() == Fold(State(false, None), State(false, lag)) && MoveOk(lag) && gpending == State(count > 0, lag)
    {
      hide Fold, State, Total, Sound;
      FoldNothing(Total(disk, list));
    }

    /** lfs_dir_split, within a compaction of d: the entries from k on move to the new pair n. */
    method Split(d: Pair, k: nat, n: Pair) returns (ok: bool)
      requires Quiet() && d in list && d in disk && k <= |disk[d].entries| && n !in list && !HasMoveHere(gpending, n)
      modifies this
      ensures Sane() && move == None && lag == old(lag) && (ok ==> Quiet() && n in list)
      ensures ok <==> old(power) >= 2
      ensures Untouched(old(disk), disk, {n, d})
      ensures if ok then Inserted(old(list), list, d, n) && d in disk && disk[d].split
                         && n in disk && disk[n].split == old(disk)[d].split
              else list == old(list)
      ensures forall x ::
                Shows(x) ==
                  if ok && x == d then old(disk)[d].entries[..k]
                  else if ok && x == n then old(disk)[d].entries[k..] else old(Shows(x))
    {
      hide Sound, Fold, State, Total, Threaded, Grown, HasMove, KeepsOthers, Inserted, Untouched, Showing, NOTHING;
      SoundThreaded(disk, list, bit, move, orphan);
      PlainStates();
      HeldElsewhere();
      ghost var before := disk;
      FoldNothing(gdelta);
      NothingWritten(disk, {n, d});
      ok := Write(n, NOTHING, disk[d].entries[k..], disk[d].tail, disk[d].split);
      if ok {
        OneWritten(before, disk, n);
        UnlistedSound(before, disk, list, bit, n);
        UnlistedShows(before, disk, list, n);
        SoundThreaded(disk, list, bit, None, None);
        gstate := gpending;
        gdelta := NOTHING;
        FoldNothing(Total(disk, list));
        ghost var written := disk;
        ok := SplitOff(d, k, n);
        UntouchedThen(before, written, disk, {n}, {d}, {n, d});
      }
    }

    /** The commit that threads the new pair behind d, which goes on there. */
    method SplitOff(d: Pair, k: nat, n: Pair) returns (ok: bool)
      requires Sane() && Flying(n) && d in list && d in disk && k <= |disk[d].entries|
      requires disk[n].entries == disk[d].entries[k..] && disk[n].tail == disk[d].tail && disk[n].split == disk[d].split
      modifies this
      ensures Sane() && move == None && lag == old(lag) && (ok ==> Quiet() && n in list)
      ensures ok <==> old(power) > 0
      ensures Untouched(old(disk), disk, {d})
      ensures if ok then Inserted(old(list), list, d, n) && d in disk && disk[d].split
                         && n in disk && disk[n] == old(disk)[n]
              else list == old(list)
      ensures forall x ::
                Shows(x) ==
                  if ok && x == d then old(disk)[d].entries[..k]
                  else if ok && x == n then old(disk)[d].entries[k..] else old(Shows(x))
    {
      hide Sound, Fold, State, Total, Threaded, Grown, HasMove, KeepsOthers, Inserted, Untouched, Showing, NOTHING;
      SoundThreaded(disk, list, bit, move, orphan);
      PlainStates();
      FoldNothing(Total(disk, list));
      ghost var before := disk;
      NothingWritten(before, {d});
      ok := Link(d, n, disk[d].entries[..k], true);
      if ok {
        LinkedLag(before, old(list), n);
        SplitSound(before, disk, old(list), list, d, n, k, bit);
        bit := false;
        SoundThreaded(disk, list, bit, move, orphan);
        FoldNothing(Total(disk, list));
      }
    }

    method IsListed(x: Pair) returns (b: bool)
      requires Threaded(disk, list)
      ensures b <==> x in list
      ensures b ==> x in disk
    {
      hide Distinct, Linked, InsideAfter;
      var at := Some(ROOT);
      ghost var i := 0;
      FirstIsRoot(disk, list);
      while at.Some?
        invariant i <= |list| && (at == if i < |list| then Some(list[i]) else None)
        invariant x !in list[..i]
        decreases |list| - i
      {
        TailAt(disk, list, i);
        if at.value == x {
          return true;
        }
        at := disk[at.value].tail;
        i := i + 1;
      }
      return false;
    }

    /** What all pairs show. */
    ghost function Picture(): imap<Pair, seq<Entry>>
      reads this
    {
      PictureOf(disk, list, move)
    }

    /**
      Any run of operations, each with some power: a loss of power leads to a mount, and every
      operation begins with the repairs. Between any two of them the file system is sound, and no
      mount or repair changes what shows. An operation shows its change exactly if it applies and has
      the power for the repairs and for the commit that shows it, and all of it; it is done exactly if
      the power is enough for all of its commits. The run stops early only where memory would act on
      a move that was already carried out.
     */
    method Run(ops: seq<Op>)
      returns (done: seq<bool>, stale: bool, ghost pictures: seq<imap<Pair, seq<Entry>>>, ghost starts: seq<Start>,
               ghost views: seq<View>)
      requires Sane()
      modifies this
      ensures Sane()
      ensures |done| <= |ops| && (!stale ==> |done| == |ops|) && |pictures| == |done| + 1 && |views| == |done|
      ensures pictures[0] == old(Picture()) && pictures[|done|] == Picture()
      ensures |starts| == |done| && (|done| > 0 ==> starts[0] == old(Here(false)))
      ensures forall i :: 0 <= i < |done| ==>
                Takes(pictures[i], starts[i], views[i], ops[i], done[i], pictures[i + 1])
      ensures forall i :: 0 < i < |done| ==> LeadsTo(starts[i - 1], views[i - 1], ops[i - 1], done[i - 1], starts[i])
      ensures stale ==> Quiet() && lag.Some? && |done| < |ops|
                        && (gdelta != NOTHING || !Harmless(ops[|done|], lag.value.pair))
    {
      hide Sound, State, Fold, Total, Showing, Takes, Harmless, Settled, LeadsTo, Picture;
      var up := false;
      done, stale, pictures, starts, views := [], false, [Picture()], [], [];
      for i := 0 to |ops|
        invariant Sane() && !stale && (up ==> Quiet())
        invariant |done| == i == |views| && |pictures| == i + 1 && pictures[0] == old(Picture())
                  && pictures[i] == Picture()
        invariant |starts| == i && if i > 0 then starts[0] == old(Here(false)) else Here(up) == old(Here(false))
        invariant forall j :: 0 <= j < i ==>
                    Takes(pictures[j], starts[j], views[j], ops[j], done[j], pictures[j + 1])
        invariant forall j :: 0 < j < i ==> LeadsTo(starts[j - 1], views[j - 1], ops[j - 1], done[j - 1], starts[j])
        invariant i > 0 ==> LeadsTo(starts[i - 1], views[i - 1], ops[i - 1], done[i - 1], Here(up))
      {
        ghost var here := Here(up);
        var finished;
        ghost var view;
        up, stale, finished, view := Turn(ops[i], up);
        if stale {
          return;
        }
        ghost var next := Picture();
        done, pictures, starts, views := done + [finished], pictures + [next], starts + [here], views + [view];
      }
    }

    /** What there is now, of which memory is lost unless the file system is mounted. */
    ghost function Here(mounted: bool): Start
      reads this
    {
      Start(disk, list, bit, move, orphan, mounted, if mounted then lag else None)
    }

    lemma StartsHere(mounted: bool, n: nat)
      requires Sane() && (mounted ==> Quiet()) && n == Repairs(if mounted then Held() else move, orphan)
      ensures forall v: View :: v.repairs == n ==> StartsFrom(Here(mounted), v, Picture())
    {
      hide Sound, Repairs, Showing, Settled;
    }

    /** One operation of a run with what comes before it. */
    method Turn(op: Op, mounted: bool) returns (up: bool, stale: bool, done: bool, ghost view: View)
      requires Sane() && (mounted ==> Quiet())
      modifies this
      ensures Sane()
      ensures stale ==> Picture() == old(Picture()) && Quiet() && lag.Some?
                        && (gdelta != NOTHING || !Harmless(op, lag.value.pair))
      ensures !stale ==> (up ==> Quiet()) && LeadsTo(old(Here(mounted)), view, op, done, Here(up))
      ensures !stale ==> Takes(old(Picture()), old(Here(mounted)), view, op, done, Picture())
    {
      hide Sound, State, Fold, Total, Showing, Changed, Applies, SoundView, Harmless, Strands, HasMove, Picture,
        Repairs, Commits, FirstCommits, StartsFrom, Fewer, Stranded, RenameLag;
      up, stale, done := false, false, false;
      view := View(disk, list, Repairs(if mounted then Held() else move, orphan));
      StartsHere(mounted, view.repairs);
      power := op.power;
      SamePicture();
      if mounted {
        HeldElsewhere();
        if HasMove(gpending) && gdelta != NOTHING {
          stale := true;
          return;
        }
      }
      up := Restart(mounted);
      if up {
        view := View(disk, list, view.repairs);
        ViewIsSound();
        AnyRepairs(disk, list, view.repairs, op);
        up, stale, done := Serve(op);
      }
    }

    /** An operation on a consistent file system: performed, unless it would act on a move that only memory has. */
    method Serve(op: Op) returns (up: bool, stale: bool, done: bool)
      requires Quiet()
      modifies this
      ensures Sane() && (up ==> Quiet())
      ensures stale ==> Picture() == old(Picture()) && Quiet() && lag.Some? && !Harmless(op, lag.value.pair)
      ensures !stale ==>
                var v := old(View(disk, list, 0));
                && (up <==> done || !Applies(v, op))
                && (up ==> lag == if op.RenameOp? && done then RenameLag(v, op) else old(lag))
                && (done <==> Applies(v, op) && old(power) >= Commits(v, op))
                && if Applies(v, op) && old(power) >= FirstCommits(v, op) then Changed(old(Picture()), op, Picture())
                   else Picture() == old(Picture())
    {
      hide Sound, State, Fold, Total, Showing, Changed, Applies, Commits, FirstCommits, RenameLag, Harmless, HasMove,
        Picture;
      HeldElsewhere();
      if HasMove(gpending) && !Harmless(op, Pair(gpending.b0, gpending.b1)) {
        return false, true, false;
      }
      up, done := Perform(op);
      stale := false;
    }

    /** lfs_mount, unless the file system is still mounted, and lfs_fs_forceconsistency. */
    method Restart(mounted: bool) returns (ready: bool)
      requires Sane() && (mounted ==> Quiet() && (lag.Some? ==> gdelta == NOTHING))
      modifies this
      ensures Sane() && Picture() == old(Picture())
      ensures ready <==> old(power) >= Repairs(if mounted then old(Held()) else old(move), old(orphan))
      ensures var cost := Repairs(if mounted then old(Held()) else old(move), old(orphan));
              power == old(power) - (if ready then cost else old(power))
      ensures ready ==> Quiet() && lag == if Strands(old(disk), old(list), old(move)) then old(move) else None
      ensures ready ==> Fewer(old(list), list, Those(old(orphan)) + Stranded(old(disk), old(list), old(move)))
    {
      hide Sound, State, Fold, Total, Showing, Strands, Repairs, Fewer, Stranded;
      if !mounted {
        SoundThreaded(disk, list, bit, move, orphan);
        Mount();
        assert forall x :: Shows(x) == old(Shows(x));
        assert bit == (count > 0);
        OrphanAnnounced(disk, list, bit, move, orphan);
      }
      ready := ForceConsistency();
      SamePicture();
    }

    lemma ViewIsSound()
      requires Quiet()
      ensures forall n: nat :: SoundView(View(disk, list, n), Picture())
    {
      hide Sound, Showing;
    }

    lemma PictureShows()
      ensures forall x :: x in Picture() && Picture()[x] == Shows(x)
    {
      hide Showing;
    }

    twostate lemma SamePicture()
      requires forall x :: Shows(x) == old(Shows(x))
      ensures Picture() == old(Picture())
    {
      hide Picture, Shows;
      PictureShows();
      OldPictureShows();
      assert forall x :: x in Picture() <==> x in old(Picture());
      assert forall x :: x in Picture() ==> Picture()[x] == old(Picture())[x];
    }

    twostate lemma OldPictureShows()
      ensures forall x :: x in old(Picture()) && old(Picture())[x] == old(Shows(x))
    {
      hide Showing;
    }

    /** With no move pending a pair shows its entries. */
    lemma ShowsEntries()
      requires Sane() && move == None
      ensures forall x :: Shows(x) == if x in list && x in disk then disk[x].entries else []
    {
    }

    /** One operation, if its pairs and ids are there. */
    method Perform(op: Op) returns (ready: bool, done: bool)
      requires Quiet() && (lag.Some? ==> Harmless(op, lag.value.pair))
      modifies this
      ensures Sane() && (ready ==> Quiet())
      ensures var v := old(View(disk, list, 0));
              && (ready <==> done || !Applies(v, op))
              && (ready ==> lag == if op.RenameOp? && done then RenameLag(v, op) else old(lag))
              && (done <==> Applies(v, op) && old(power) >= Commits(v, op))
              && if Applies(v, op) && old(power) >= FirstCommits(v, op) then Changed(old(Picture()), op, Picture())
                 else Picture() == old(Picture())
    {
      hide Sound, State, Fold, Total, Showing, Changed, Applies, Commits, FirstCommits, RenameLag;
      match op {
        case MkdirOp(_, d, id, name, n) =>
          ready, done := TryMkdir(d, id, name, n, op);
        case RemoveOp(_, d, id) =>
          ready, done := TryRemove(d, id, op);
        case RenameOp(_, od, oid, nd, nid, replace, name) =>
          ready, done := TryRename(od, oid, nd, nid, replace, name, op);
        case SplitOp(_, d, k, n) =>
          ready, done := TrySplit(d, k, n, op);
      }
    }

    twostate lemma MkdirShown(op: Op)
      requires op.MkdirOp? && op.id <= |old(Shows(op.d))|
      requires forall x ::
                 Shows(x) ==
                   if x == op.d then With(old(Shows(op.d)), op.id, DirEntry(op.name, op.n)) else old(Shows(x))
      ensures Changed(old(Picture()), op, Picture())
    {
      hide Picture, Shows, With;
      PictureShows();
      OldPictureShows();
    }

    method TryMkdir(d: Pair, id: nat, name: string, n: Pair, ghost op: Op) returns (ready: bool, done: bool)
      requires Quiet() && op == MkdirOp(op.power, d, id, name, n) && (lag.Some? ==> lag.value.pair != n)
      modifies this
      ensures Sane() && (ready ==> Quiet()) && lag == old(lag)
      ensures var v := old(View(disk, list, 0));
              && (ready <==> done || !Applies(v, op))
              && (done <==> Applies(v, op) && old(power) >= Commits(v, op))
              && if Applies(v, op) && old(power) >= FirstCommits(v, op) then Changed(old(Picture()), op, Picture())
                 else Picture() == old(Picture())
    {
      hide Sound, State, Fold, Total, AfterRename, With, Without, Showing, Shows, Picture, Kept, Linked, Distinct,
        InsideAfter, Threaded, HasMove, Settled, LagOk, Untouched, Inserted, LastOf, Changed;
      SoundThreaded(disk, list, bit, move, orphan);
      ShowsEntries();
      PictureShows();
      HeldElsewhere();
      ready, done := true, false;
      var there := IsListed(d);
      var taken := IsListed(n);
      if there && !taken && id <= |disk[d].entries| {
        var r := Mkdir(d, id, name, n);
        ready := r == Done;
        done := ready;
        if ready {
          MkdirShown(op);
          return;
        }
      }
      SamePicture();
    }

    method TryRemove(d: Pair, id: nat, ghost op: Op) returns (ready: bool, done: bool)
      requires Quiet() && op == RemoveOp(op.power, d, id)
      modifies this
      ensures Sane() && (ready ==> Quiet()) && lag == old(lag)
      ensures var v := old(View(disk, list, 0));
              && (ready <==> done || !Applies(v, op))
              && (done <==> Applies(v, op) && old(power) >= Commits(v, op))
              && if Applies(v, op) && old(power) >= FirstCommits(v, op) then Changed(old(Picture()), op, Picture())
                 else Picture() == old(Picture())
    {
      hide Sound, State, Fold, Total, AfterRename, With, Without, Showing, Shows, Picture, Kept, Linked, Distinct,
        InsideAfter, Threaded, HasMove, Settled, LagOk, Untouched, Inserted, LastOf;
      SoundThreaded(disk, list, bit, move, orphan);
      ShowsEntries();
      PictureShows();
      HeldElsewhere();
      ready, done := true, false;
      var there := IsListed(d);
      if there && id < |disk[d].entries| {
        var r := Remove(d, id);
        ready := r != PowerLost;
        done := r == Done;
      }
      PictureShows();
      if forall x :: Shows(x) == old(Shows(x)) {
        SamePicture();
      }
    }

    method TryRename(od: Pair, oid: nat, nd: Pair, nid: nat, replace: bool, name: string, ghost op: Op)
      returns (ready: bool, done: bool)
      requires Quiet() && op == RenameOp(op.power, od, oid, nd, nid, replace, name) && lag == None
      modifies this
      ensures Sane() && (ready ==> Quiet())
      ensures var v := old(View(disk, list, 0));
              && (ready <==> done || !Applies(v, op))
              && (ready ==> lag == if done then RenameLag(v, op) else old(lag))
              && (done <==> Applies(v, op) && old(power) >= Commits(v, op))
              && if Applies(v, op) && old(power) >= FirstCommits(v, op) then Changed(old(Picture()), op, Picture())
                 else Picture() == old(Picture())
    {
      hide Sound, State, Fold, Total, AfterRename, With, Without, Showing, Shows, Picture, Kept, Linked, Distinct,
        InsideAfter, Threaded, HasMove, Settled, LagOk, Untouched, Inserted, LastOf, Strands;
      SoundThreaded(disk, list, bit, move, orphan);
      ShowsEntries();
      PictureShows();
      HeldElsewhere();
      ready, done := true, false;
      var there := IsListed(od);
      var here := IsListed(nd);
      if there && here && oid < |disk[od].entries| < 0x3fe
         && (if replace then nid < |disk[nd].entries| && (od, oid) != (nd, nid)
                             && disk[nd].entries[nid].DirEntry? == disk[od].entries[oid].DirEntry?
             else nid <= |disk[nd].entries|)
      {
        var r, moved := Rename(od, oid, nd, nid, replace, name);
        ready := r != PowerLost;
        done := r == Done;
      }
      PictureShows();
      if forall x :: Shows(x) == old(Shows(x)) {
        SamePicture();
      }
    }

    twostate lemma SplitShown(op: Op)
      requires op.SplitOp? && op.k <= |old(Shows(op.d))| && old(Shows(op.n)) == []
      requires forall x ::
                 Shows(x) ==
                   if x == op.d then old(Shows(op.d))[..op.k]
                   else if x == op.n then old(Shows(op.d))[op.k..] else old(Shows(x))
      ensures Changed(old(Picture()), op, Picture())
    {
      hide Picture, Shows;
      PictureShows();
      OldPictureShows();
    }

    method TrySplit(d: Pair, k: nat, n: Pair, ghost op: Op) returns (ready: bool, done: bool)
      requires Quiet() && op == SplitOp(op.power, d, k, n) && (lag.Some? ==> lag.value.pair != n)
      modifies this
      ensures Sane() && (ready ==> Quiet()) && lag == old(lag)
      ensures var v := old(View(disk, list, 0));
              && (ready <==> done || !Applies(v, op))
              && (done <==> Applies(v, op) && old(power) >= Commits(v, op))
              && if Applies(v, op) && old(power) >= FirstCommits(v, op) then Changed(old(Picture()), op, Picture())
                 else Picture() == old(Picture())
    {
      hide Sound, State, Fold, Total, AfterRename, With, Without, Showing, Shows, Picture, Kept, Linked, Distinct,
        InsideAfter, Threaded, HasMove, Settled, LagOk, Untouched, Inserted, LastOf, Changed;
      SoundThreaded(disk, list, bit, move, orphan);
      ShowsEntries();
      PictureShows();
      HeldElsewhere();
      ready, done := true, false;
      var there := IsListed(d);
      var taken := IsListed(n);
      if there && !taken && k <= |disk[d].entries| {
        ready := Split(d, k, n);
        done := ready;
        if ready {
          SplitShown(op);
          return;
        }
      }
      SamePicture();
    }

    /** A new and empty pair holds the delta, and is not threaded yet. */
    ghost predicate InFlight(n: Pair)
      reads this
    {
      Flying(n) && disk[n].entries == [] && !disk[n].split
    }

    /** A new pair holds the delta, and is not threaded yet. */
    ghost predicate Flying(n: Pair)
      reads this
    {
      && move == None && orphan == None && count == 0 && LagOk() && (lag.Some? ==> lag.value.pair != n)
      && gpending == gstate == State(false, lag) && gdelta == NOTHING
      && n in disk && n !in list && Fold(Total(disk, list), disk[n].delta) == NOTHING
    }
  }

  ghost function PictureOf(disk: Disk, list: seq<Pair>, m: Option<Move>): imap<Pair, seq<Entry>> {
    imap x: Pair :: Showing(disk, list, m, x)
  }

  datatype Op =
    | MkdirOp(power: nat, d: Pair, id: nat, name: string, n: Pair)
    | RemoveOp(power: nat, d: Pair, id: nat)
    | RenameOp(power: nat, od: Pair, oid: nat, nd: Pair, nid: nat, replace: bool, name: string)
    | SplitOp(power: nat, d: Pair, k: nat, n: Pair)

  datatype Result = Done | NotEmpty | PowerLost

  /** Whether an operation does not touch the pair. */
  predicate Harmless(op: Op, p: Pair): (harmless: bool)
    ensures !harmless ==> op.RenameOp? || ((op.MkdirOp? || op.SplitOp?) && op.n == p)
  {
    match op
    case MkdirOp(_, d, id, name, n) => n != p
    case RemoveOp(_, d, id) => true
    case RenameOp(_, od, oid, nd, nid, replace, name) => false
    case SplitOp(_, d, k, n) => n != p
  }

  /** The disk and the list when an operation looks at them, and what the repairs before it cost. */
  datatype View = View(disk: Disk, list: seq<Pair>, repairs: nat)

  /** The disk before an operation, whether it is mounted, and a move that lags behind in memory. */
  datatype Start = Start(disk: Disk, list: seq<Pair>, bit: bool, move: Option<Move>, orphan: Option<Pair>,
                         mounted: bool, lag: Option<Move>)

  /** The disk is sound and shows the picture, and the repairs are those it needs. */
  ghost predicate StartsFrom(s: Start, v: View, picture: imap<Pair, seq<Entry>>) {
    && Sound(s.disk, s.list, s.bit, s.move, s.orphan) && PictureOf(s.disk, s.list, s.move) == picture
    && v.repairs == Repairs(if s.lag.Some? then s.lag else s.move, s.orphan) && (s.lag.Some? ==> s.move == None)
  }

  /**
    What an operation makes of what shows: its change exactly if it applies after the repairs and has the
    power for them and for the commits up to the one that shows it; it is done exactly if it has the power
    for all.
   */
  ghost predicate Takes(a: imap<Pair, seq<Entry>>, s: Start, v: View, op: Op, done: bool, b: imap<Pair, seq<Entry>>) {
    && StartsFrom(s, v, a) && Shown(a, v, op, b) && (done <==> Covers(v, op))
    && (op.power >= v.repairs ==> SoundView(v, a) && Fewer(s.list, v.list, Repaired(s)))
  }

  /** The pairs that leave the list with the repairs. */
  ghost function Repaired(s: Start): set<Pair> { Those(s.orphan) + Stranded(s.disk, s.list, s.move) }

  /** The move that memory has pending after an operation though it was carried out: by a rename, or by the repair. */
  ghost function Lagging(s: Start, v: View, op: Op, done: bool): Option<Move> {
    if op.RenameOp? && done then RenameLag(v, op)
    else if Strands(s.disk, s.list, s.move) then s.move else None
  }

  ghost function RenameLag(v: View, op: Op): Option<Move>
    requires op.RenameOp?
  {
    var m := Some(Move(op.oid, op.od));
    if op.od != op.nd && Strands(v.disk, v.list, m) then m else None
  }

  /** The file system stays mounted unless the power was lost; only then memory is kept. */
  ghost predicate LeadsTo(s: Start, v: View, op: Op, done: bool, next: Start) {
    && (next.mounted <==> op.power >= v.repairs && (done || !Applies(v, op)))
    && next.lag == if next.mounted then Lagging(s, v, op, done) else None
  }

  /** A sound disk without a move or an orphan, that shows the picture. */
  ghost predicate SoundView(v: View, picture: imap<Pair, seq<Entry>>) {
    (exists orphans: bool :: Sound(v.disk, v.list, orphans, None, None)) && PictureOf(v.disk, v.list, None) == picture
  }

  /** The pairs of an operation are listed, its ids in range, and a directory that goes is empty. */
  predicate Applies(v: View, op: Op) {
    match op
    case MkdirOp(_, d, id, name, n) =>
      d in v.list && n !in v.list && d in v.disk && id <= |v.disk[d].entries|
    case RemoveOp(_, d, id) =>
      d in v.list && d in v.disk && id < |v.disk[d].entries| && !Inhabited(v.disk, Target(v.disk[d].entries[id]))
    case RenameOp(_, od, oid, nd, nid, replace, name) =>
      && od in v.list && od in v.disk && nd in v.list && nd in v.disk && oid < |v.disk[od].entries| < 0x3fe
      && (if replace then nid < |v.disk[nd].entries| && (od, oid) != (nd, nid)
                          && v.disk[nd].entries[nid].DirEntry? == v.disk[od].entries[oid].DirEntry?
          else nid <= |v.disk[nd].entries|)
      && !Inhabited(v.disk, Gone(v.disk[nd].entries, nid, replace))
    case SplitOp(_, d, k, n) =>
      d in v.list && n !in v.list && d in v.disk && k <= |v.disk[d].entries|
  }

  /** The commits of an operation. */
  function Commits(v: View, op: Op): nat
    requires Applies(v, op)
  {
    match op
    case MkdirOp(_, d, id, name, n) => if v.disk[d].split then 3 else 2
    case RemoveOp(_, d, id) => if v.disk[d].entries[id].DirEntry? then 2 else 1
    case RenameOp(_, od, oid, nd, nid, replace, name) => RenameCommits(od, nd, Gone(v.disk[nd].entries, nid, replace))
    case SplitOp(_, d, k, n) => 2
  }

  /** Those up to the one with which the change shows. */
  function FirstCommits(v: View, op: Op): nat
    requires Applies(v, op)
  {
    if op.RemoveOp? || op.RenameOp? then 1 else Commits(v, op)
  }

  lemma AnyRepairs(disk: Disk, list: seq<Pair>, n: nat, op: Op)
    ensures var v, w := View(disk, list, n), View(disk, list, 0);
            && (Applies(v, op) <==> Applies(w, op))
            && (Applies(v, op) ==> Commits(v, op) == Commits(w, op) && FirstCommits(v, op) == FirstCommits(w, op))
            && (op.RenameOp? ==> RenameLag(v, op) == RenameLag(w, op))
  {
  }

  /** The power is enough for the repairs and all commits. */
  predicate Covers(v: View, op: Op) { Applies(v, op) && op.power >= v.repairs + Commits(v, op) }

  /** What shows before and after an operation. */
  ghost predicate Shown(a: imap<Pair, seq<Entry>>, v: View, op: Op, b: imap<Pair, seq<Entry>>) {
    if Applies(v, op) && op.power >= v.repairs + FirstCommits(v, op) then Changed(a, op, b) else b == a
  }

  /** What an operation changes in what the pairs show. */
  ghost predicate Changed(a: imap<Pair, seq<Entry>>, op: Op, b: imap<Pair, seq<Entry>>)
  {
    && (forall x :: x in a && x in b)
    && match op
       case MkdirOp(_, d, id, name, n) =>
         id <= |a[d]| && forall x :: b[x] == if x == d then With(a[d], id, DirEntry(name, n)) else a[x]
       case RemoveOp(_, d, id) =>
         id < |a[d]| && forall x :: b[x] == if x == d then Without(a[d], id) else a[x]
       case RenameOp(_, od, oid, nd, nid, replace, name) =>
         oid < |a[od]| && forall x :: b[x] == AfterRename(a[x], x, od, oid, nd, nid, replace, Renamed(a[od][oid], name))
       case SplitOp(_, d, k, n) =>
         k <= |a[d]| && a[n] == []
         && forall x :: b[x] == if x == d then a[d][..k] else if x == n then a[d][k..] else a[x]
  }

  lemma SoundThreaded(disk: Disk, list: seq<Pair>, bit: bool, m: Option<Move>, o: Option<Pair>)
    requires Sound(disk, list, bit, m, o)
    ensures Threaded(disk, list) && MoveOk(m) && Total(disk, list) == State(bit, m)
  {
    hide Threaded, Heads, Refs, Total, State;
  }

  lemma OrphanAnnounced(disk: Disk, list: seq<Pair>, bit: bool, m: Option<Move>, o: Option<Pair>)
    requires Sound(disk, list, bit, m, o)
    ensures o.Some? ==> bit
  {
    hide Threaded, Heads, Refs, Total, State;
  }

  lemma KeptFold(total: Gstate, delta: Gstate, pending: Gstate, c: Gstate)
    requires Fold(total, delta) == pending
    ensures Fold(total, Fold(delta, c)) == Fold(pending, c)
  {
    hide Fold;
    FoldAssociates(total, delta, c);
  }

  lemma RefTarget(disk: Disk, list: seq<Pair>, bit: bool, d: Pair, id: nat)
    requires Sound(disk, list, bit, None, None) && d in list && d in disk && id < |disk[d].entries|
             && disk[d].entries[id].DirEntry?
    ensures disk[d].entries[id].pair in list && disk[d].entries[id].pair in disk
  {
    hide Heads, Refs, Total, State, Linked;
    var i :| 0 <= i < |list| && list[i] == d;
    RefsListed(disk, None, list, i, id);
    HeadsListed(disk, false, list, disk[d].entries[id].pair);
    LinkedIn(disk, Some(ROOT), list);
  }

  lemma NoMoveEdit(s: seq<Entry>, del: Option<nat>, ins: Option<(nat, Entry)>, g: Gstate, delta: Gstate, d: Pair)
    requires !HasMoveHere(g, d) && (ins.Some? ==> del == None && ins.value.0 <= |s|)
    ensures Edited(s, del, ins, g, d) ==
              if del.Some? then Without(s, del.value) else if ins.Some? then With(s, ins.value.0, ins.value.1) else s
    ensures Folded(delta, g, d) == delta
  {
    hide Without, With, HasMove;
  }

  lemma WroteIsRewrote(disk: Disk, disk': Disk, list: seq<Pair>, d: Pair, entries: seq<Entry>, g: Gstate)
    requires d in disk && d in list
    requires disk' == disk[d := Dir(entries, disk[d].tail, disk[d].split, Fold(disk[d].delta, g))]
    ensures Rewrote(disk, disk', list, d, entries, g)
  {
  }

  lemma NotBoth(disk: Disk, list: seq<Pair>, s: seq<Entry>, del: Option<nat>, ins: Option<(nat, Entry)>, g: Gstate,
                p: Pair, d: Pair)
    requires Threaded(disk, list) && Before(list, p, d)
    requires ins.Some? ==> ins.value.0 <= |if del.Some? then Without(s, del.value) else s|
    requires del.Some? && ins == None ==> !MoveOn(g, list)
    requires (del.Some? || HasMoveHere(g, d)) && Edited(s, del, ins, g, d) == []
    ensures p in disk && !HasMoveHere(g, p)
  {
    hide HasMove, Linked;
    var i: nat :| NextAt(list, i, p, d);
    TailNext(disk, list, i);
    assert p != d;
  }

  lemma FirstIsRoot(disk: Disk, list: seq<Pair>)
    requires Threaded(disk, list)
    ensures list != [] && list[0] == ROOT
  {
  }

  /** An entry goes; if it was a directory, that becomes the orphan. */
  lemma RemovedSound(disk: Disk, disk': Disk, list: seq<Pair>, list': seq<Pair>, d: Pair, id: nat, bit: bool,
                     g: Gstate, bit': bool)
    requires Sound(disk, list, bit, None, None) && d in disk && id < |disk[d].entries|
    requires Effect(disk, disk', list, list', d, Without(disk[d].entries, id), g)
    requires Fold(Total(disk, list), g) == State(bit', None)
    requires var e := disk[d].entries[id];
             e.DirEntry? ==> bit' && e.pair in disk && disk[e.pair].entries == [] && !disk[e.pair].split
    ensures var e := disk[d].entries[id];
            Sound(disk', list', bit', None, if e.DirEntry? then Some(e.pair) else None)
  {
    hide Heads, Refs, RefsOf, Total, State, Threaded, Fold;
    var s, e := disk[d].entries, disk[d].entries[id];
    RefsWithout(s, id);
    Cancel(Refs(disk', None, list'), Refs(disk, None, list), RefsOf(Without(s, id)), RefOf(e));
    if e.DirEntry? {
      RefTarget(disk, list, bit, d, id);
    }
  }

  lemma OrphanOnList(disk: Disk, list: seq<Pair>, bit: bool, d: Pair)
    requires Sound(disk, list, bit, None, Some(d))
    ensures bit && d in list && list[0] != d && d in disk && disk[d].entries == [] && !disk[d].split
  {
    hide Refs, Total, State, Linked;
    HeadsListed(disk, false, list, d);
    if list[0] == d {
      FirstIsRoot(disk, list);
      HeadsOnce(disk, false, list, d);
    }
  }

  /** The orphan is gone, and nothing else. */
  lemma DroppedSound(disk: Disk, disk': Disk, list: seq<Pair>, list': seq<Pair>, p: Pair, d: Pair, bit: bool,
                     g: Gstate, bit': bool)
    requires Sound(disk, list, bit, None, Some(d)) && Dropped(disk, disk', list, list', p, d, g)
    requires Fold(Total(disk, list), g) == State(bit', None)
    ensures Sound(disk', list', bit', None, None) && Total(disk', list') == State(bit', None)
    ensures forall x :: x in list' <==> x in list && x != d
    ensures forall x :: Showing(disk', list', None, x) == Showing(disk, list, None, x)
  {
    hide Heads, Refs, RefsOf, Total, State, Linked, Fold;
    DroppedEffect(disk, disk', list, list', p, d, g);
    DroppedShows(disk, disk', list, list', p, d, g);
    var i: nat :| NextAt(list, i, p, d);
    Cut(list, i);
    HeadBehind(disk, list[..i], p, d, list[i + 2..]);
    NoRefs();
    var refs, heads := Refs(disk', None, list'), Heads(disk', false, list');
    assert refs + (multiset{d} + multiset{ROOT}) == heads + multiset{d};
    Cancel(refs, heads, multiset{d}, multiset{ROOT});
  }

  lemma LinkTotal(total: Gstate, flight: Gstate, c: Gstate)
    requires Fold(total, flight) == NOTHING
    ensures Fold(Fold(total, c), flight) == c
  {
    hide Fold;
    FoldNothing(c);
    FoldAssociates(total, c, flight);
    FoldCommutes(c, flight);
    FoldAssociates(total, flight, c);
  }

  /** A new directory is threaded before anything names it. */
  lemma LinkedOrphanSound(disk: Disk, disk': Disk, list: seq<Pair>, list': seq<Pair>, p: Pair, n: Pair, bit: bool,
                          g: Gstate)
    requires Sound(disk, list, bit, None, None) && p in disk
             && Grown(disk, disk', list, list', p, n, disk[p].entries, false, g)
    requires n in disk && disk[n].entries == [] && !disk[n].split
    requires Fold(Fold(Total(disk, list), g), disk[n].delta) == State(true, None)
    ensures Sound(disk', list', true, None, Some(n))
    ensures Total(disk', list') == State(true, None)
    ensures forall x :: Showing(disk', list', None, x) == Showing(disk, list, None, x)
    ensures forall x :: x in list && x != p && x in disk ==> x in list' && x in disk' && disk'[x] == disk[x]
  {
    hide Heads, Refs, RefsOf, Total, State, Threaded, Fold;
    GrownEffect(disk, disk', list, list', p, n, disk[p].entries, false, g);
    GrownShows(disk, disk', list, list', p, n, disk[p].entries, g);
    NoRefs();
    Cancel(Refs(disk, None, list), Refs(disk', None, list'), RefsOf(disk[p].entries), multiset{});
    GrownKeeps(disk, disk', list, list', p, n, disk[p].entries, g);
  }

  lemma GrownKeeps(disk: Disk, disk': Disk, list: seq<Pair>, list': seq<Pair>, p: Pair, n: Pair, entries: seq<Entry>,
                   g: Gstate)
    requires Grown(disk, disk', list, list', p, n, entries, false, g)
    ensures n in disk' && p in list && n !in list && disk'[n] == disk[n]
  {
  }

  /** The orphan gets its name. */
  lemma NamedSound(disk: Disk, disk': Disk, list: seq<Pair>, list': seq<Pair>, d: Pair, id: nat, e: Entry, bit: bool,
                   g: Gstate)
    requires e.DirEntry? && Sound(disk, list, bit, None, Some(e.pair)) && d in disk && id <= |disk[d].entries|
    requires Effect(disk, disk', list, list', d, With(disk[d].entries, id, e), g)
    requires Fold(Total(disk, list), g) == State(false, None)
    ensures Sound(disk', list', false, None, None) && e.pair in list'
  {
    hide Heads, Refs, RefsOf, Total, State, Threaded, Fold;
    var s := disk[d].entries;
    RefsWith(s, id, e);
    Cancel(Refs(disk, None, list) + RefOf(e), Refs(disk', None, list'), RefsOf(s), multiset{});
    HeadsListed(disk, false, list, e.pair);
  }

  /** The new directory is threaded and named at once. */
  lemma LinkedNamedSound(disk: Disk, disk': Disk, list: seq<Pair>, list': seq<Pair>, d: Pair, id: nat, e: Entry,
                         bit: bool)
    requires e.DirEntry? && Sound(disk, list, bit, None, None) && d in disk && id <= |disk[d].entries|
    requires Grown(disk, disk', list, list', d, e.pair, With(disk[d].entries, id, e), false, NOTHING)
    requires e.pair in disk && disk[e.pair].entries == []
    requires Fold(Total(disk, list), disk[e.pair].delta) == State(false, None)
    ensures Sound(disk', list', false, None, None) && e.pair in list'
  {
    hide Heads, Refs, RefsOf, Total, State, Threaded, Fold;
    var s := disk[d].entries;
    GrownEffect(disk, disk', list, list', d, e.pair, With(s, id, e), false, NOTHING);
    FoldNothing(Total(disk, list));
    NoRefs();
    RefsWith(s, id, e);
    Cancel(Refs(disk, None, list) + RefOf(e), Refs(disk', None, list'), RefsOf(s), multiset{});
  }

  lemma NoRefsOn(disk: Disk)
    ensures Refs(disk, None, []) == multiset{}
  {
  }

  lemma TotalOfNone(disk: Disk)
    ensures Total(disk, []) == NOTHING
  {
  }

  lemma RefsNext(disk: Disk, list: seq<Pair>, i: nat)
    requires i < |list| && list[i] in disk
    ensures list[..0] == []
            && Refs(disk, None, list[..i + 1]) == Refs(disk, None, list[..i]) + RefsOf(disk[list[i]].entries)
    ensures forall x :: x in Refs(disk, None, list[..i + 1]) ==> x in Refs(disk, None, list)
  {
    hide Refs, RefsOf;
    assert list[..i + 1] == list[..i] + [list[i]] && list == list[..i + 1] + list[i + 1..];
    RefsConcat(disk, None, list[..i], [list[i]]);
    RefsConcat(disk, None, list[..i + 1], list[i + 1..]);
    RefsOne(disk, None, list[i]);
  }

  lemma TotalNext(disk: Disk, list: seq<Pair>, i: nat)
    requires i < |list| && list[i] in disk
    ensures list[..0] == [] && Total(disk, list[..i + 1]) == Fold(Total(disk, list[..i]), disk[list[i]].delta)
  {
    hide Total, Fold;
    assert list[..i + 1] == list[..i] + [list[i]];
    TotalConcat(disk, list[..i], [list[i]]);
    TotalOne(disk, list[i]);
  }

  lemma MoveThere(disk: Disk, list: seq<Pair>, bit: bool, m: Option<Move>, o: Option<Pair>)
    requires Sound(disk, list, bit, m, o) && m.Some?
    ensures m.value.pair in list && m.value.pair in disk && m.value.id < |disk[m.value.pair].entries|
  {
    hide Threaded, Total, State, Heads, Refs;
  }

  lemma SoundOrphan(disk: Disk, list: seq<Pair>, bit: bool, o: Option<Pair>)
    requires Sound(disk, list, bit, None, o)
    ensures o.Some? ==> bit && o.value in list && list[0] != o.value
  {
    if o.Some? {
      OrphanOnList(disk, list, bit, o.value);
    }
    hide *;
  }

  /** What the walk over the list learns about the pair behind position i. */
  lemma OrphanAt(disk: Disk, list: seq<Pair>, bit: bool, o: Option<Pair>, i: nat)
    requires Sound(disk, list, bit, None, o) && i + 1 < |list| && list[i] in disk
    ensures o == Some(list[i + 1]) <==> !disk[list[i]].split && list[i + 1] !in Refs(disk, None, list)
  {
    hide Refs, Total, State, Linked, Heads;
    var a, p, d, b := list[..i], list[i], list[i + 1], list[i + 2..];
    Cut(list, i);
    HeadBehind(disk, a, p, d, b);
    FirstIsRoot(disk, list);
    if d in Heads(disk, false, list) {
      OnlyOrphans(disk, list, bit, None, o, d);
    }
  }

  /** The moved entry is deleted where it was: what shows is the same. */
  lemma MovedSound(disk: Disk, disk': Disk, list: seq<Pair>, list': seq<Pair>, bit: bool, m: Option<Move>,
                   o: Option<Pair>, g: Gstate)
    requires Sound(disk, list, bit, m, o) && m.Some? && m.value.pair in disk
    requires Effect(disk, disk', list, list', m.value.pair, Without(disk[m.value.pair].entries, m.value.id), g)
    requires Fold(Total(disk, list), g) == State(bit, None)
    ensures Sound(disk', list', bit, None, o)
    ensures forall x :: Showing(disk', list', None, x) == Showing(disk, list, m, x)
  {
    hide Heads, Refs, RefsOf, RefOf, Total, State, Threaded, Fold, Without;
    var d, id := m.value.pair, m.value.id;
    var s := disk[d].entries;
    EffectShows(disk, disk', list, list', d, Without(s, id), g);
    RefsWithout(s, id);
    MoveHidesThreaded(disk, m, list);
    Exchange(Refs(disk', None, list'), Refs(disk, m, list), RefsOf(Without(s, id)), RefOf(s[id]));
    if o.Some? {
      HeadsListed(disk, false, list, o.value);
    }
  }

  lemma Exchange(a: multiset<Pair>, b: multiset<Pair>, w: multiset<Pair>, r: multiset<Pair>)
    requires a + (w + r) == b + r + w
    ensures a == b
  {
    Cancel(b, a, w + r, multiset{});
  }

  lemma MoveHidesThreaded(disk: Disk, m: Option<Move>, list: seq<Pair>)
    requires m.Some? && m.value.pair in list && Threaded(disk, list) && m.value.pair in disk
    requires m.value.id < |disk[m.value.pair].entries|
    ensures Refs(disk, None, list) == Refs(disk, m, list) + RefOf(disk[m.value.pair].entries[m.value.id])
  {
    hide Refs, RefOf, Linked;
    MoveHides(disk, m, list);
  }

  /** The pair of a directory that a rename replaces. */
  function Gone(s: seq<Entry>, nid: nat, replace: bool): Option<Pair> {
    if replace && nid < |s| && s[nid].DirEntry? then Some(s[nid].pair) else None
  }

  lemma PlacedRefs(s: seq<Entry>, nid: nat, replace: bool, e: Entry)
    requires if replace then nid < |s| else nid <= |s|
    ensures RefsOf(Placed(s, nid, replace, e)) + OrphanOf(Gone(s, nid, replace)) == RefsOf(s) + RefOf(e)
  {
    hide RefsOf, With, Without;
    if replace {
      WithoutLength(s, nid);
      RefsWithout(s, nid);
      RefsWith(Without(s, nid), nid, e);
    } else {
      RefsWith(s, nid, e);
    }
  }

  lemma WithoutLast(s: seq<Entry>, i: nat)
    requires i < |s|
    ensures Without(s, i) == [] <==> |s| == 1
  {
    WithoutLength(s, i);
  }

  lemma WithoutLength(s: seq<Entry>, i: nat)
    requires i < |s|
    ensures |Without(s, i)| == |s| - 1
  {
  }

  lemma RenameNotEmpty(s: seq<Entry>, oid: nat, nid: nat, replace: bool, e: Entry)
    requires oid < |s| && (if replace then nid < |s| && nid != oid else nid <= |s|)
    ensures Without(Placed(s, nid, replace, e), ShiftedId(oid, nid, replace)) != []
  {
  }

  /** The entries the first commit of a rename writes. */
  lemma EditedRename(s: seq<Entry>, oid: nat, nid: nat, replace: bool, e: Entry, g: Gstate, od: Pair, nd: Pair)
    requires if replace then nid < |s| else nid <= |s|
    requires HasMove(g) && Pair(g.b0, g.b1) == od && (od == nd ==> MoveId(g) == ShiftedId(oid, nid, replace))
    ensures var t := Placed(s, nid, replace, e);
            Edited(s, if replace then Some(nid) else None, Some((nid, e)), g, nd) ==
              (if od == nd then Without(t, ShiftedId(oid, nid, replace)) else t)
  {
    hide HasMove, MoveId, With;
    if replace {
      WithoutLength(s, nid);
    }
  }

  lemma SameRefsOf(s: seq<Entry>, oid: nat, nid: nat, replace: bool, e: Entry)
    requires oid < |s| && (if replace then nid < |s| && nid != oid else nid <= |s|) && RefOf(e) == RefOf(s[oid])
    ensures var t := Without(Placed(s, nid, replace, e), ShiftedId(oid, nid, replace));
            RefsOf(s) == RefsOf(t) + OrphanOf(Gone(s, nid, replace))
  {
    hide RefsOf, With, Without, RefOf, Gone, Placed;
    var p, id := Placed(s, nid, replace, e), ShiftedId(oid, nid, replace);
    SameDirectory(s, ROOT, oid, nid, replace, e);
    PlacedRefs(s, nid, replace, e);
    RefsWithout(p, id);
    var w, o, r := RefsOf(Without(p, id)), OrphanOf(Gone(s, nid, replace)), RefOf(e);
    assert w + r + o == RefsOf(s) + r;
    Cancel(w, RefsOf(s), r, o);
  }

  /** The pieces of soundness that a commit of d carries over when the references of d change by an orphan. */
  lemma OrphanedSound(disk: Disk, disk': Disk, list: seq<Pair>, list': seq<Pair>, bit: bool, d: Pair,
                      entries: seq<Entry>, o: Option<Pair>, g: Gstate)
    requires Sound(disk, list, bit, None, None) && Effect(disk, disk', list, list', d, entries, g)
             && disk[d].entries != []
    requires RefsOf(disk[d].entries) == RefsOf(entries) + OrphanOf(o)
    requires o.Some? ==> o.value in disk && disk[o.value].entries == [] && !disk[o.value].split
    requires Fold(Total(disk, list), g) == State(o.Some?, None)
    ensures Sound(disk', list', o.Some?, None, o)
  {
    hide Heads, Refs, RefsOf, Total, State, Threaded, Fold;
    Cancel(Refs(disk', None, list'), Refs(disk, None, list), RefsOf(entries), OrphanOf(o));
    if o.Some? {
      assert o.value in Refs(disk, None, list);
      HeadsListed(disk, false, list, o.value);
    }
  }

  lemma SameRenameSound(disk: Disk, disk': Disk, list: seq<Pair>, list': seq<Pair>, bit: bool, d: Pair, oid: nat,
                        nid: nat, replace: bool, e: Entry,
                        gone: Option<Pair>, g: Gstate)
    requires Sound(disk, list, bit, None, None) && d in disk && oid < |disk[d].entries|
    requires var s := disk[d].entries;
             && (if replace then nid < |s| && nid != oid else nid <= |s|) && RefOf(e) == RefOf(s[oid])
                && gone == Gone(s, nid, replace)
             && Effect(disk, disk', list, list', d, Without(Placed(s, nid, replace, e), ShiftedId(oid, nid, replace)),
                       g)
    requires gone.Some? ==> gone.value in disk && disk[gone.value].entries == [] && !disk[gone.value].split
    requires Fold(Total(disk, list), g) == State(gone.Some?, None)
    ensures Sound(disk', list', gone.Some?, None, gone)
    ensures forall x ::
              Showing(disk', list', None, x) == AfterRename(Showing(disk, list, None, x), x, d, oid, d, nid, replace, e)
  {
    hide Sound, Refs, RefsOf, RefOf, Total, State, Effect, Fold, Gone, Placed, Without, With, ShiftedId, AfterRename;
    var s := disk[d].entries;
    var t := Without(Placed(s, nid, replace, e), ShiftedId(oid, nid, replace));
    SameRefsOf(s, oid, nid, replace, e);
    OrphanedSound(disk, disk', list, list', bit, d, t, gone, g);
    EffectShows(disk, disk', list, list', d, t, g);
    EffectShowing(disk, disk', list, list', d, t, g);
    SameDirectory(s, d, oid, nid, replace, e);
    forall x
      ensures Showing(disk', list', None, x) == AfterRename(Showing(disk, list, None, x), x, d, oid, d, nid, replace, e)
    {
      AfterElsewhere(Showing(disk, list, None, x), x, d, oid, d, nid, replace, e);
    }
  }

  lemma EffectShowing(disk: Disk, disk': Disk, list: seq<Pair>, list': seq<Pair>, d: Pair, entries: seq<Entry>,
                      g: Gstate)
    requires Effect(disk, disk', list, list', d, entries, g)
    ensures d in disk && Showing(disk, list, None, d) == disk[d].entries
  {
    hide Threaded, Total, Heads, Refs, RefsOf;
  }

  lemma AfterElsewhere(s: seq<Entry>, x: Pair, od: Pair, oid: nat, nd: Pair, nid: nat, replace: bool, e: Entry)
    ensures x != od && x != nd ==> AfterRename(s, x, od, oid, nd, nid, replace, e) == s
    ensures x == od && x != nd ==> AfterRename(s, x, od, oid, nd, nid, replace, e) == Without(s, oid)
    ensures x != od && x == nd && (if replace then nid < |s| else nid <= |s|) ==>
              AfterRename(s, x, od, oid, nd, nid, replace, e) == Placed(s, nid, replace, e)
  {
    if if replace then nid < |s| else nid <= |s| {
      PlacedIs(s, nid, replace, e);
    }
    hide Placed, Without, With;
  }

  lemma OtherRenameSound(disk: Disk, disk': Disk, list: seq<Pair>, list': seq<Pair>, bit: bool, od: Pair, oid: nat,
                         nd: Pair, nid: nat, replace: bool, e: Entry,
                         gone: Option<Pair>, g: Gstate)
    requires Sound(disk, list, bit, None, None) && od != nd && od in disk && od in list && nd in disk
             && oid < |disk[od].entries| && oid < 0x3ff
    requires var s := disk[nd].entries;
             && (if replace then nid < |s| else nid <= |s|) && RefOf(e) == RefOf(disk[od].entries[oid])
                && gone == Gone(s, nid, replace)
             && Effect(disk, disk', list, list', nd, Placed(s, nid, replace, e), g)
    requires gone.Some? ==> gone.value in disk && disk[gone.value].entries == [] && !disk[gone.value].split
    requires Fold(Total(disk, list), g) == State(gone.Some?, Some(Move(oid, od)))
    ensures Sound(disk', list', gone.Some?, Some(Move(oid, od)), gone)
    ensures forall x ::
              Showing(disk', list', Some(Move(oid, od)), x) ==
                AfterRename(Showing(disk, list, None, x), x, od, oid, nd, nid, replace, e)
  {
    hide Sound, Refs, RefsOf, RefOf, Total, State, Effect, Fold, Placed, Without, With, AfterRename;
    var s, m := disk[nd].entries, Some(Move(oid, od));
    var t := Placed(s, nid, replace, e);
    EffectShows(disk, disk', list, list', nd, t, g);
    EffectShowing(disk, disk', list, list', nd, t, g);
    OtherStays(disk, disk', list, list', nd, t, g, od);
    OtherRenameRefs(disk, disk', list, list', od, oid, nd, nid, replace, e, g);
    PendingSound(disk, disk', list, list', bit, nd, t, m, gone, g);
    forall x
      ensures Showing(disk', list', m, x) == AfterRename(Showing(disk, list, None, x), x, od, oid, nd, nid, replace, e)
    {
      AfterElsewhere(Showing(disk, list, None, x), x, od, oid, nd, nid, replace, e);
    }
  }

  lemma OtherStays(disk: Disk, disk': Disk, list: seq<Pair>, list': seq<Pair>, d: Pair, entries: seq<Entry>, g: Gstate,
                   x: Pair)
    requires Effect(disk, disk', list, list', d, entries, g) && x != d && x in list
    ensures Threaded(disk', list') && x in list' && x in disk && x in disk' && disk'[x].entries == disk[x].entries
  {
    hide Threaded, Total, Heads, Refs, RefsOf;
  }

  lemma OtherRenameRefs(disk: Disk, disk': Disk, list: seq<Pair>, list': seq<Pair>, od: Pair, oid: nat, nd: Pair,
                        nid: nat, replace: bool, e: Entry, g: Gstate)
    requires od != nd && od in disk && od in list && nd in disk && oid < |disk[od].entries|
    requires var s := disk[nd].entries;
             && (if replace then nid < |s| else nid <= |s|) && RefOf(e) == RefOf(disk[od].entries[oid])
             && Effect(disk, disk', list, list', nd, Placed(s, nid, replace, e), g)
    ensures Refs(disk, None, list) ==
              Refs(disk', Some(Move(oid, od)), list') + OrphanOf(Gone(disk[nd].entries, nid, replace))
  {
    hide Refs, RefsOf, RefOf, Total, Heads, Threaded, Fold, Gone, Placed;
    var s, m := disk[nd].entries, Some(Move(oid, od));
    OtherStays(disk, disk', list, list', nd, Placed(s, nid, replace, e), g, od);
    PlacedRefs(s, nid, replace, e);
    MoveHidesThreaded(disk', m, list');
    var r, r', m', o :=
      Refs(disk, None, list), Refs(disk', None, list'), Refs(disk', m, list'), OrphanOf(Gone(s, nid, replace));
    // r' + refs(s) == r + refs(t), refs(t) + o == refs(s) + ref(e), r' == m' + ref(e)
    Balance(r, r', m', o, RefsOf(s), RefsOf(Placed(s, nid, replace, e)), RefOf(e));
  }

  lemma Balance(r: multiset<Pair>, r': multiset<Pair>, m: multiset<Pair>, o: multiset<Pair>, s: multiset<Pair>,
                t: multiset<Pair>, e: multiset<Pair>)
    requires r' + s == r + t && t + o == s + e && r' == m + e
    ensures r == m + o
  {
    forall p
      ensures r[p] == (m + o)[p]
    {
      assert (r' + s)[p] == (r + t)[p] && (t + o)[p] == (s + e)[p];
    }
  }

  /** Soundness with a move pending elsewhere, when the references change by an orphan. */
  lemma PendingSound(disk: Disk, disk': Disk, list: seq<Pair>, list': seq<Pair>, bit: bool, d: Pair,
                     entries: seq<Entry>, m: Option<Move>, o: Option<Pair>, g: Gstate)
    requires Sound(disk, list, bit, None, None) && Effect(disk, disk', list, list', d, entries, g)
    requires disk[d].entries != [] || o == None
    requires m.Some? && m.value.pair != d && m.value.pair in list && m.value.pair in disk
             && m.value.id < |disk[m.value.pair].entries| && MoveOk(m)
    requires Refs(disk, None, list) == Refs(disk', m, list') + OrphanOf(o)
    requires o.Some? ==> o.value in disk && disk[o.value].entries == [] && !disk[o.value].split
    requires Fold(Total(disk, list), g) == State(o.Some?, m)
    ensures Sound(disk', list', o.Some?, m, o)
  {
    hide Heads, Refs, RefsOf, Total, State, Threaded, Fold;
    if o.Some? {
      assert o.value in Refs(disk, None, list);
      HeadsListed(disk, false, list, o.value);
    }
  }

  /** A directory goes on in a new pair: the list is as sound as before, and all entries are still there. */
  lemma SplitSound(disk: Disk, disk': Disk, list: seq<Pair>, list': seq<Pair>, d: Pair, n: Pair, k: nat, bit: bool)
    requires Sound(disk, list, bit, None, None) && d in disk && n in disk && k <= |disk[d].entries|
             && disk[n].entries == disk[d].entries[k..]
    requires Grown(disk, disk', list, list', d, n, disk[d].entries[..k], true, NOTHING)
    requires Fold(Total(disk, list), disk[n].delta) == State(false, None)
    ensures Sound(disk', list', false, None, None) && n in list' && n in disk' && disk'[n] == disk[n]
    ensures forall x ::
              Showing(disk', list', None, x) ==
                if x == d then disk[d].entries[..k]
                else if x == n then disk[n].entries else Showing(disk, list, None, x)
  {
    hide Heads, Refs, RefsOf, Total, State, Threaded, Fold;
    var s := disk[d].entries;
    GrownEffect(disk, disk', list, list', d, n, s[..k], true, NOTHING);
    GrownKeeps2(disk, disk', list, list', d, n, s[..k], true, NOTHING);
    FoldNothing(Total(disk, list));
    assert s == s[..k] + s[k..];
    RefsOfConcat(s[..k], s[k..]);
    Exchange(Refs(disk', None, list'), Refs(disk, None, list), RefsOf(s[..k]), RefsOf(s[k..]));
  }

  lemma GrownKeeps2(disk: Disk, disk': Disk, list: seq<Pair>, list': seq<Pair>, p: Pair, n: Pair, entries: seq<Entry>,
                    split: bool, g: Gstate)
    requires Grown(disk, disk', list, list', p, n, entries, split, g)
    ensures n in disk && n in disk' && p in list && p in disk' && n !in list && n != p && disk'[n] == disk[n]
            && disk'[p].entries == entries
    ensures forall x :: x in disk && x != p ==> x in disk' && disk'[x] == disk[x]
    ensures forall x :: x in disk' ==> x in disk
  {
  }

  /** A formatted file system is sound. */
  lemma FormattedSound()
    ensures Sound(map[ROOT := Dir([], None, false, NOTHING)], [ROOT], false, None, None)
  {
    hide Fold, State;
    var disk := map[ROOT := Dir([], None, false, NOTHING)];
    PlainStates();
    assert [ROOT][1..] == [];
    TotalOne(disk, ROOT);
    RefsOne(disk, None, ROOT);
    SameHeadOne(disk, disk, false, ROOT);
    NoRefs();
    assert Linked(disk, None, []);
    assert Linked(disk, Some(ROOT), [ROOT]);
    assert Threaded(disk, [ROOT]);
  }

  // ----- where the code departs from conservation -----

  const SECOND := Pair(Word(2), Word(3))

  lemma TwoPairs(disk: Disk, m: Option<Move>)
    requires ROOT in disk && SECOND in disk && disk[ROOT].tail == Some(SECOND) && disk[SECOND].tail == None
             && !disk[SECOND].split
    ensures Threaded(disk, [ROOT, SECOND])
    ensures Total(disk, [ROOT, SECOND]) == Fold(disk[ROOT].delta, disk[SECOND].delta)
    ensures Heads(disk, false, [ROOT, SECOND]) ==
              multiset{ROOT} + (if disk[ROOT].split then multiset{} else multiset{SECOND})
    ensures Refs(disk, m, [ROOT, SECOND]) == RefsOf(Visible(disk, m, ROOT)) + RefsOf(Visible(disk, m, SECOND))
    ensures NextAt([ROOT, SECOND], 0, ROOT, SECOND)
  {
    hide Fold, RefsOf, Visible, State;
    var list := [ROOT, SECOND];
    assert list[1..] == [SECOND] && [SECOND][1..] == [];
    assert Linked(disk, None, []);
    assert Linked(disk, Some(SECOND), [SECOND]);
    TotalOne(disk, SECOND);
    RefsOne(disk, m, SECOND);
    SameHeadOne(disk, disk, disk[ROOT].split, SECOND);
  }

  /**
    Removing a directory whose parent stores a delta: if the append of the first commit fails after
    folding it, nothing refers to the directory any more and no delta says that there is an orphan.
   */
  method AnnouncementLost() returns (fs: Fs)
    ensures fresh(fs) && fs.gdelta == NOTHING && HasSync(fs.gpending) && !fs.Kept()
    ensures fs.list == [ROOT, SECOND] && ROOT in fs.disk && fs.disk[ROOT].entries == []
            && Total(fs.disk, fs.list) == NOTHING
  {
    hide Fold, State, Threaded, Total, Heads, Refs, HasMove, HasSync, Edited, Folded, Continues, OrphansChange, SYNC,
      NOTHING;
    var root := Dir([DirEntry("a", SECOND)], Some(SECOND), false, SYNC);
    fs := new Fs;
    fs.disk := map[ROOT := root, SECOND := Dir([], None, false, SYNC)];
    fs.list, fs.bit, fs.move, fs.orphan, fs.lag := [ROOT, SECOND], false, None, None, None;
    fs.gstate, fs.gpending, fs.gdelta, fs.count, fs.power := NOTHING, NOTHING, NOTHING, 0, 1;
    AnnouncedTwice(fs.disk);
    PlainStates();
    SyncChanges();
    FoldNothing(NOTHING);
    FoldNothing(SYNC);
    fs.PrepOrphans(1, None);
    StateReads(true, None);
    NoMoveEdit(root.entries, Some(0), None, fs.gpending, fs.gdelta, ROOT);
    RootContinuesNothing(fs.disk);
    var ok := fs.CommitAgain(ROOT, Some(0), None);
    NoMoveEdit(root.entries, Some(0), None, SYNC, SYNC, ROOT);
  }

  lemma AnnouncedTwice(disk: Disk)
    requires disk == map[ROOT := Dir([DirEntry("a", SECOND)], Some(SECOND), false, SYNC), SECOND :=
                         Dir([], None, false, SYNC)]
    ensures Sound(disk, [ROOT, SECOND], false, None, None) && Total(disk, [ROOT, SECOND]) == NOTHING && SYNC != NOTHING
  {
    hide Fold, State, Threaded, Total, Heads, Refs, RefsOf;
    TwoPairs(disk, None);
    PlainStates();
    SyncChanges();
    StateReads(true, None);
    StateReads(false, None);
    NoRefs();
    RefsOfOne(DirEntry("a", SECOND));
  }

  lemma RootContinuesNothing(disk: Disk)
    ensures !Continues(disk, [ROOT, SECOND], ROOT)
  {
    forall p: Pair | Before([ROOT, SECOND], p, ROOT)
      ensures false
    {
      OneBefore([ROOT, SECOND], p, ROOT);
    }
  }

  /** A directory of two pairs with its only entry in the second. */
  method SecondPairOnly() returns (fs: Fs)
    ensures fresh(fs) && fs.Quiet() && fs.lag == None && fs.power == 2 && fs.list == [ROOT, SECOND]
            && fs.disk == TwoPairDisk()
    ensures Strands(fs.disk, fs.list, Some(Move(0, SECOND)))
  {
    hide Fold, State, Sound, Total, HasMove, NOTHING, Strands, Fs.Quiet;
    GoesOn(TwoPairDisk());
    fs := new Fs;
    fs.disk, fs.list, fs.bit, fs.move, fs.orphan, fs.lag := TwoPairDisk(), [ROOT, SECOND], false, None, None, None;
    fs.gstate, fs.gpending, fs.gdelta, fs.count, fs.power := NOTHING, NOTHING, NOTHING, 0, 2;
    fs.StartsQuiet();
  }

  function TwoPairDisk(): Disk {
    map[ROOT := Dir([], Some(SECOND), true, NOTHING), SECOND := Dir([FileEntry("a", 1)], None, false, NOTHING)]
  }

  /** Renaming the only entry of a pair that goes on from another leaves the move pending in memory. */
  method StrandedMove() returns (fs: Fs)
    ensures fresh(fs) && fs.Quiet() && fs.lag == Some(Move(0, SECOND)) && fs.gdelta == NOTHING && !fs.Kept()
    ensures ROOT in fs.list && ROOT in fs.disk && |fs.disk[ROOT].entries| == 1
  {
    hide Fold, State, Total, Sound, Strands, HasMove, AfterRename, Showing, NOTHING, Fs.Settled, Linked, Distinct,
      InsideAfter;
    fs := SecondPairOnly();
    RootShows(fs.disk);
    fs.ShowsAll();
    var r, moved := fs.Rename(SECOND, 0, ROOT, 0, false, "b");
    fs.KeptUnlessLagging();
    fs.ShowsAll();
    OneAtRoot(FileEntry("b", 1));
    SoundThreaded(fs.disk, fs.list, fs.bit, fs.move, fs.orphan);
    RootListed(fs.disk, fs.list);
  }

  lemma RootShows(disk: Disk)
    requires disk == map[ROOT := Dir([], Some(SECOND), true, NOTHING), SECOND :=
                         Dir([FileEntry("a", 1)], None, false, NOTHING)]
    ensures Showing(disk, [ROOT, SECOND], None, ROOT) == []
  {
    hide NOTHING;
  }

  lemma RootListed(disk: Disk, list: seq<Pair>)
    requires Threaded(disk, list)
    ensures ROOT in list && ROOT in disk && Showing(disk, list, None, ROOT) == disk[ROOT].entries
  {
    FirstIsRoot(disk, list);
    LinkedIn(disk, Some(ROOT), list);
  }

  lemma GoesOn(disk: Disk)
    requires disk == map[ROOT := Dir([], Some(SECOND), true, NOTHING), SECOND :=
                         Dir([FileEntry("a", 1)], None, false, NOTHING)]
    ensures Sound(disk, [ROOT, SECOND], false, None, None) && Total(disk, [ROOT, SECOND]) == NOTHING
    ensures Strands(disk, [ROOT, SECOND], Some(Move(0, SECOND)))
  {
    hide Fold, State, Threaded, Total, Heads, Refs, RefsOf;
    TwoPairs(disk, None);
    PlainStates();
    FoldNothing(NOTHING);
    NoRefs();
    RefsOfOne(FileEntry("a", 1));
  }

  lemma OneAtRoot(e: Entry)
    ensures |AfterRename([], ROOT, SECOND, 0, ROOT, 0, false, e)| == 1
  {
  }

  /** One more rename and a mount: the file system has a move pending on a pair that is not on the list. */
  method StaleMoveMounted() returns (fs: Fs)
    ensures fresh(fs) && Threaded(fs.disk, fs.list) && SECOND !in fs.list
    ensures fs.gpending == Total(fs.disk, fs.list) == State(false, Some(Move(0, SECOND)))
  {
    hide Fold, State, Threaded, Total, Heads, Refs, AfterRename, NOTHING, Sound;
    fs := StrandedMove();
    fs.power := 1;
    var r := fs.RenameStale(ROOT, 0, ROOT, 1, false, "c");
    fs.Mount();
  }
}
