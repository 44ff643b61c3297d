/**
  What the filesystem writes into a directory (lfs.c:1382-1622, 1926-1934, 3101-3294) is a log
  that its search can be used on: creating a name where the search says, deleting, writing
  other attributes, and compacting a range of ids all keep the log disciplined.
 */
module DirWrites {
  import opened Flash
  import opened DirLog
  import opened DirCompact
  import opened DirSplit
  import opened DirSearch

  predicate IsNameTag(e: Entry) { e.major == NAME && e.chunk < 0x80 && e.size != DELETED }

  lemma DisciplinedSorted(log: seq<Entry>, base: nat)
    requires Disciplined(log, base)
    ensures Sorted(Names(log))
  {
  }

  lemma DisciplinedAppend(log: seq<Entry>, e: Entry, base: nat)
    requires Disciplined(log, base) && MayFollow(log, e, base) && Sorted(Names(log + [e]))
    ensures Disciplined(log + [e], base)
  {
    assert (log + [e])[..|log|] == log;
  }

  lemma OpenSorted(t: Table, id: nat)
    requires Sorted(t)
    ensures Sorted(OpenGap(t, id))
  {
    forall i, j | i in OpenGap(t, id) && j in OpenGap(t, id) && i < j
      ensures Before(OpenGap(t, id)[i].data, OpenGap(t, id)[j].data)
    {
      assert Down(i, id) < Down(j, id);
    }
  }

  lemma CloseSorted(t: Table, id: nat)
    requires Sorted(t)
    ensures Sorted(CloseGap(t, id))
  {
    forall i, j | i in CloseGap(t, id) && j in CloseGap(t, id) && i < j
      ensures Before(CloseGap(t, id)[i].data, CloseGap(t, id)[j].data)
    {
      assert Up(i, id) < Up(j, id);
    }
  }

  /** lfs_mkdir, lfs_file_open, lfs_rename: CREATE and NAME where the search found no such name. */
  lemma CreateKeeps(log: seq<Entry>, base: nat, e: Entry)
    requires Disciplined(log, base) && Complete(log, base) && IsNameTag(e)
    requires base <= e.id && Finds(Insert(e.id), Names(log), Count(log), e.data)
    ensures Disciplined(log + [CreateAt(e.id)] + [e], base) && Complete(log + [CreateAt(e.id)] + [e], base)
    ensures Names(log + [CreateAt(e.id)] + [e]) == OpenGap(Names(log), e.id)[e.id := AttrOf(e)]
  {
    hide Names, Count, Disciplined, Sorted, MayFollow, OpenGap;
    GapKeeps(log, base, e.id);
    NameKeeps(log + [CreateAt(e.id)], Names(log), base, e, Count(log));
  }

  lemma GapKeeps(log: seq<Entry>, base: nat, id: nat)
    requires Disciplined(log, base) && Complete(log, base) && base <= id <= Count(log)
    ensures Disciplined(log + [CreateAt(id)], base) && Names(log + [CreateAt(id)]) == OpenGap(Names(log), id)
    ensures Count(log + [CreateAt(id)]) == Count(log) + 1 && OnlyHole(log + [CreateAt(id)], id, base)
    ensures Sorted(Names(log)) && !NoSplices(log + [CreateAt(id)])
  {
    hide Column, Count, Disciplined;
    DisciplinedSorted(log, base);
    NamesBelowCount(log, base);
    AppendNames(log, CreateAt(id));
    OpenSorted(Names(log), id);
    DisciplinedAppend(log, CreateAt(id), base);
  }

  lemma NameKeeps(log: seq<Entry>, t: Table, base: nat, e: Entry, count: int)
    requires Disciplined(log, base) && Names(log) == OpenGap(t, e.id) && Count(log) == count + 1
             && OnlyHole(log, e.id, base)
    requires Sorted(t) && Finds(Insert(e.id), t, count, e.data) && IsNameTag(e) && base <= e.id <= count
    ensures Disciplined(log + [e], base) && Complete(log + [e], base)
            && Names(log + [e]) == OpenGap(t, e.id)[e.id := AttrOf(e)]
  {
    hide Column, Count, Disciplined, Sorted, Finds;
    AppendNames(log, e);
    assert Selects(FINDABLE, e);
    InsertKeepsSorted(t, e.id, count, e.data, AttrOf(e));
    DisciplinedAppend(log, e, base);
  }

  /** lfs_remove, and the end of a rename: DELETE. */
  lemma DeleteKeeps(log: seq<Entry>, base: nat, id: nat)
    requires Disciplined(log, base) && Complete(log, base) && base <= id < Count(log)
    ensures Disciplined(log + [DeleteAt(id)], base) && Complete(log + [DeleteAt(id)], base)
    ensures Names(log + [DeleteAt(id)]) == CloseGap(Names(log), id)
  {
    var d := DeleteAt(id);
    hide Column, Count, Disciplined;
    DisciplinedSorted(log, base);
    AppendNames(log, d);
    CloseSorted(Names(log), id);
    DisciplinedAppend(log, d, base);
  }

  /** Once a name is deleted, its place is where the search would put it: so a rename can replace it. */
  lemma HitBecomesInsert(t: Table, count: int, id: nat, name: seq<Byte>)
    requires Sorted(t) && Finds(Hit(id), t, count, name) && id < count
    ensures Finds(Insert(id), CloseGap(t, id), count - 1, name)
  {
    forall i | i in CloseGap(t, id)
      ensures if i < id then Before(CloseGap(t, id)[i].data, name) else Before(name, CloseGap(t, id)[i].data)
    {
      assert Up(i, id) != id && (Up(i, id) < id <==> i < id);
    }
  }

  /** Other attributes are of no concern to the search. */
  lemma OthersKeep(log: seq<Entry>, base: nat, e: Entry)
    requires Disciplined(log, base) && e.major != NAME && e.major != SPLICE
    ensures Disciplined(log + [e], base) && (Complete(log, base) ==> Complete(log + [e], base))
    ensures Names(log + [e]) == Names(log)
  {
    hide Column, Count, Disciplined;
    DisciplinedSorted(log, base);
    AppendNames(log, e);
    DisciplinedAppend(log, e, base);
  }

  // ----- compaction -----

  /** Ids below `base` hold other names (the superblock's). */
  ghost predicate Valued(t: Table, base: nat) {
    forall i :: i in t ==> t[i].size != DELETED && (t[i].chunk < 0x80 <==> i >= base)
  }

  /** The names the search looks for are those from `base` on. */
  ghost predicate Shares(t: Table, n: Table, base: nat) {
    && (forall i :: i in n <==> i in t && i >= base)
    && (forall i :: i in n ==> n[i] == t[i])
  }

  /** What MayFollow says about ids and names, without the rest of the log. */
  predicate Fits(e: Entry, base: nat) {
    && WellFormed(e) && (e.major == SPLICE ==> base <= e.id)
    && (e.major == NAME ==> e.size != DELETED && (e.chunk < 0x80 <==> e.id >= base))
  }

  lemma {:induction false} NamesValued(log: seq<Entry>, base: nat)
    requires Disciplined(log, base)
    ensures Valued(Column(NAMES, log), base) && Shares(Column(NAMES, log), Names(log), base)
    ensures forall e <- log :: e.major == NAME ==> e.size != DELETED
    decreases |log|
  {
    if log != [] {
      var front, e := log[..|log| - 1], log[|log| - 1];
      assert log == front + [e];
      FollowFits(front, e, base);
      hide Column, Disciplined, Apply, Valued, Shares, MayFollow;
      NamesValued(front, base);
      ColumnAppend(NAMES, front, e);
      ColumnAppend(FINDABLE, front, e);
      NamesStep(Column(NAMES, front), Names(front), e, base);
    } else {
      assert Column(NAMES, log) == imap[] == Names(log);
    }
  }

  lemma FollowFits(log: seq<Entry>, e: Entry, base: nat)
    requires MayFollow(log, e, base)
    ensures Fits(e, base)
  {
  }

  lemma NamesStep(t: Table, n: Table, e: Entry, base: nat)
    requires Valued(t, base) && Shares(t, n, base) && Fits(e, base)
    ensures Valued(Apply(NAMES, t, e), base) && Shares(Apply(NAMES, t, e), Apply(FINDABLE, n, e), base)
  {
    if IsCreate(e) {
      OpenNames(t, n, base, e.id);
      hide Valued, Shares, OpenGap;
    } else if IsRemove(e) {
      CloseNames(t, n, base, e.id);
      hide Valued, Shares, CloseGap;
    } else if e.major == NAME {
      assert e.chunk / 0x80 == 0 <==> e.chunk < 0x80;
      hide OpenGap, CloseGap;
    }
  }

  lemma OpenNames(t: Table, n: Table, base: nat, id: nat)
    requires Valued(t, base) && Shares(t, n, base) && base <= id
    ensures Valued(OpenGap(t, id), base) && Shares(OpenGap(t, id), OpenGap(n, id), base)
  {
    forall i: nat
      ensures i != id ==> (Down(i, id) >= base <==> i >= base)
    {
    }
  }

  lemma CloseNames(t: Table, n: Table, base: nat, id: nat)
    requires Valued(t, base) && Shares(t, n, base) && base <= id
    ensures Valued(CloseGap(t, id), base) && Shares(CloseGap(t, id), CloseGap(n, id), base)
  {
    forall i: nat
      ensures Up(i, id) >= base <==> i >= base
    {
    }
  }

  /** The names from `base` on are in order. */
  ghost predicate InOrder(t: Table, base: nat) {
    Valued(t, base) && forall i, j :: i in t && j in t && base <= i < j ==> Before(t[i].data, t[j].data)
  }

  /** Like an entry of the log but for its id. */
  ghost predicate From(log: seq<Entry>, g: Entry) {
    exists f: Entry :: f in log && g == f.(id := g.id)
  }

  lemma {:induction false} EmittedFrom(m: Mode, all: seq<Entry>)
    requires AllWellFormed(all)
    ensures forall g :: g in Emitted(m, all) ==> From(all, g)
  {
    if all != [] {
      var front, t := all[..|all| - 1], all[|all| - 1];
      EmittedFrom(m, front);
      SurvivorsFrom(Emitted(m, front), t);
      forall g | g in Emitted(m, all)
        ensures From(all, g)
      {
        if g in Survivors(Emitted(m, front), t) {
          assert From(Emitted(m, front), g);
          var f :| f in Emitted(m, front) && g == f.(id := g.id);
          assert From(front, f);
          var h :| h in front && f == h.(id := f.id);
          assert h in all && g == h.(id := g.id);
        } else {
          assert g == t && t in all;
        }
      }
    }
  }

  lemma {:induction false} SurvivorsFrom(kept: seq<Entry>, t: Entry)
    requires WellFormed(t)
    ensures forall g :: g in Survivors(kept, t) ==> From(kept, g)
  {
    if kept != [] {
      var front, f := kept[..|kept| - 1], kept[|kept| - 1];
      SurvivorsFrom(front, t);
      forall g | g in Survivors(kept, t)
        ensures From(kept, g)
      {
        if g in Survivors(front, t) {
          var h :| h in front && g == h.(id := g.id);
          assert h in kept;
        } else {
          assert f in kept && g == f.(id := g.id);
        }
      }
    }
  }

  lemma {:induction false} CutFrom(log: seq<Entry>, begin: nat, end: nat, diff: int)
    requires begin + diff >= 0
    ensures forall g :: g in Cut(log, begin, end, diff) ==> g.id - diff >= 0 && g.(id := (g.id - diff) as nat) in log
    ensures Plain(log) ==> Plain(Cut(log, begin, end, diff))
    ensures Distinct(log) ==> Distinct(Cut(log, begin, end, diff))
  {
    if log != [] {
      var front, e := log[..|log| - 1], log[|log| - 1];
      CutFrom(front, begin, end, diff);
      var cut := Cut(front, begin, end, diff);
      if begin <= e.id < end {
        var e' := e.(id := (e.id + diff) as nat);
        forall g | g in cut && Distinct(log)
          ensures !(g.id == e'.id && SameKey(g, e'))
        {
          var h := g.(id := (g.id - diff) as nat);
          assert h in front;
          assert !(h.id == e.id && SameKey(h, e));
        }
      }
    }
  }

  /** In a plain log without duplicates every name stands in its column. */
  lemma {:induction false} DistinctNames(log: seq<Entry>, e: Entry)
    requires Plain(log) && Distinct(log) && e in log && e.major == NAME
    requires forall f <- log :: f.major == NAME ==> f.size != DELETED
    ensures e.id in Column(NAMES, log) && Column(NAMES, log)[e.id] == AttrOf(e)
  {
    var front, t := log[..|log| - 1], log[|log| - 1];
    assert log == front + [t];
    ColumnAppend(NAMES, front, t);
    if e != t {
      assert e in front;
      DistinctNames(front, e);
      assert !(e.id == t.id && SameKey(e, t));
    }
    hide Column;
  }

  /** Some entry of the log gives the id its name. */
  ghost predicate NamedBy(log: seq<Entry>, i: nat) {
    exists e :: e in log && e.major == NAME && e.id == i
  }

  /** A plain log without duplicates whose names are in order can be searched. */
  lemma {:induction false} PlainDisciplined(log: seq<Entry>, t: Table, base: nat)
    requires Plain(log) && Distinct(log) && InOrder(t, base)
    requires forall e <- log :: e.major == NAME ==> e.id in t && t[e.id] == AttrOf(e)
    ensures Disciplined(log, base) && Within(Names(log), t, base)
    ensures forall i :: i in Names(log) ==> NamedBy(log, i)
    decreases |log|
  {
    if log != [] {
      var front, e := log[..|log| - 1], log[|log| - 1];
      assert log == front + [e];
      FrontPlain(front, e);
      assert forall f <- front :: f in log;
      hide Plain, Distinct, InOrder, Disciplined, Within, Names;
      PlainDisciplined(front, t, base);
      assert e in log;
      PlainStep(front, e, t, base);
    }
  }

  lemma FrontPlain(front: seq<Entry>, e: Entry)
    requires Plain(front + [e]) && Distinct(front + [e])
    ensures Plain(front) && Distinct(front)
  {
    assert forall i :: 0 <= i < |front| ==> (front + [e])[i] == front[i];
  }

  /** Some of the names of a table, none of them below `base`. */
  ghost predicate Within(n: Table, t: Table, base: nat) {
    forall i :: i in n ==> i >= base && i in t && n[i] == t[i]
  }

  lemma PlainStep(log: seq<Entry>, e: Entry, t: Table, base: nat)
    requires Plain(log + [e]) && Distinct(log + [e]) && InOrder(t, base) && Disciplined(log, base)
    requires Within(Names(log), t, base) && forall i :: i in Names(log) ==> NamedBy(log, i)
    requires e.major == NAME ==> e.id in t && t[e.id] == AttrOf(e)
    ensures Disciplined(log + [e], base) && Within(Names(log + [e]), t, base)
    ensures forall i :: i in Names(log + [e]) ==> NamedBy(log + [e], i)
  {
    var longer := log + [e];
    assert longer[|log|] == e && (forall i :: 0 <= i < |log| ==> longer[i] == log[i]);
    assert NoSplices(log);
    AppendNames(log, e);
    if e.major == NAME {
      NotNamedYet(log, e);
    }
    hide Column, Count, Disciplined, Distinct, Complete, Plain;
    assert e.chunk / 0x80 == 0 <==> e.chunk < 0x80;
    assert Within(Names(longer), t, base);
    assert Sorted(Names(longer));
    forall i | i in Names(longer)
      ensures NamedBy(longer, i)
    {
      if i in Names(log) {
        var f :| f in log && f.major == NAME && f.id == i;
        assert f in longer;
      } else {
        assert e in longer;
      }
    }
    DisciplinedAppend(log, e, base);
  }

  lemma NotNamedYet(log: seq<Entry>, e: Entry)
    requires Distinct(log + [e]) && e.major == NAME
    ensures !NamedBy(log, e.id)
  {
    forall f | f in log && f.major == NAME
      ensures f.id != e.id
    {
      var i :| 0 <= i < |log| && log[i] == f;
      assert (log + [e])[i] == f && (log + [e])[|log|] == e;
    }
  }

  lemma SizeFrom(log: seq<Entry>, g: Entry)
    requires From(log, g) && forall e <- log :: e.major == NAME ==> e.size != DELETED
    ensures g.major == NAME ==> g.size != DELETED
  {
  }

  /** What a compaction writes has no splices, no duplicates, and no deleted names. */
  lemma CutIsPlain(log: seq<Entry>, lo: nat, hi: nat)
    requires AllWellFormed(log) && forall e <- log :: e.major == NAME ==> e.size != DELETED
    ensures var cut := Cut(Emitted(Compact, log), lo, hi, Minus(lo));
            Plain(cut) && Distinct(cut) && forall e <- cut :: e.major == NAME ==> e.size != DELETED
  {
    hide Emitted, Cut, Plain, Distinct, From, AllWellFormed;
    var emitted := Emitted(Compact, log);
    EmittedIsPlain(Compact, log);
    EmittedDistinct(Compact, log);
    CutFrom(emitted, lo, hi, Minus(lo));
    forall f | f in Cut(emitted, lo, hi, Minus(lo))
      ensures f.major == NAME ==> f.size != DELETED
    {
      CutSize(log, lo, hi, f);
    }
  }

  lemma CutSize(log: seq<Entry>, lo: nat, hi: nat, f: Entry)
    requires AllWellFormed(log) && f in Cut(Emitted(Compact, log), lo, hi, Minus(lo))
    requires forall e <- log :: e.major == NAME ==> e.size != DELETED
    ensures f.major == NAME ==> f.size != DELETED
  {
    hide Emitted, Cut, Plain, Distinct, From, AllWellFormed;
    EmittedFrom(Compact, log);
    CutFrom(Emitted(Compact, log), lo, hi, Minus(lo));
    SizeFrom(log, f.(id := (f.id - Minus(lo)) as nat));
  }

  /**
    Compacting a range of ids of a disciplined log gives a disciplined log; ids below `base` are
    names the search does not look for (the superblock's).
   */
  lemma CompactKeeps(log: seq<Entry>, base: nat, lo: nat, hi: nat)
    requires Disciplined(log, base) && AllWellFormed(log)
    ensures var cut := Cut(Emitted(Compact, log), lo, hi, Minus(lo));
            Disciplined(cut, if lo < base then base - lo else 0)
  {
    hide Emitted, Cut, Column, Disciplined, Valued, Shares, Sorted, Plain, Distinct, CutTable;
    var emitted := Emitted(Compact, log);
    var cut, t := Cut(emitted, lo, hi, Minus(lo)), Column(NAMES, log);
    NamesValued(log, base);
    DisciplinedSorted(log, base);
    SharedOrder(t, Names(log), base);
    EmittedColumn(NAMES, Compact, log);
    EmittedIsPlain(Compact, log);
    CutIsPlain(log, lo, hi);
    CutColumn(NAMES, emitted, lo, hi, Minus(lo));
    forall e | e in cut && e.major == NAME
      ensures e.id in Column(NAMES, cut) && Column(NAMES, cut)[e.id] == AttrOf(e)
    {
      DistinctNames(cut, e);
    }
    CutInOrder(t, base, lo, hi);
    PlainDisciplined(cut, Column(NAMES, cut), if lo < base then base - lo else 0);
  }

  lemma SharedOrder(t: Table, n: Table, base: nat)
    requires Valued(t, base) && Shares(t, n, base) && Sorted(n)
    ensures InOrder(t, base)
  {
    forall i, j | i in t && j in t && base <= i < j
      ensures Before(t[i].data, t[j].data)
    {
      assert i in n && j in n;
    }
  }

  lemma CutInOrder(t: Table, base: nat, lo: nat, hi: nat)
    requires InOrder(t, base)
    ensures InOrder(CutTable(t, lo, hi, Minus(lo)), if lo < base then base - lo else 0)
  {
  }
}
