/**
  A directory as its users see it: what is stored under each name, whatever id it has at the
  moment. The commits of a directory change it under one name only, and compactions nowhere.
 */
module DirMap {
  import opened Flash
  import opened DirLog
  import opened DirCompact
  import opened DirSplit
  import opened DirSearch
  import opened DirWrites
  import opened Optional

  /** Nothing stands under the ids from the count on. */
  ghost predicate Below(log: seq<Entry>) {
    forall c: Class, i: nat :: WantedClass(Compact, c) && i in Column(c, log) ==> i < Count(log)
  }

  /** Every id below the count has a name. */
  ghost predicate Named(log: seq<Entry>) {
    forall i: nat :: i < Count(log) ==> i in Column(NAMES, log)
  }

  /** The log of a directory; ids below `base` hold names that are not searched for (the superblock's). */
  ghost predicate Orderly(log: seq<Entry>, base: nat) {
    AllWellFormed(log) && Disciplined(log, base) && base <= Count(log) && Named(log) && Below(log)
  }

  lemma OrderlyFacts(log: seq<Entry>, base: nat)
    requires Orderly(log, base)
    ensures AllWellFormed(log) && Sorted(Names(log)) && Complete(log, base) && Count(log) >= 0
    ensures forall i :: i in Names(log) ==> base <= i < Count(log)
  {
    hide Column, Count, Disciplined, Sorted, AllWellFormed, Valued;
    DisciplinedSorted(log, base);
    NamesBelowCount(log, base);
    NamesValued(log, base);
  }

  lemma ColumnNext(c: Class, log: seq<Entry>, e: Entry)
    ensures Column(c, log + [e]) == Apply(c, Column(c, log), e)
    ensures Count(log + [e]) == (if e.major == NAME then (if e.id >= Count(log) then e.id + 1 else Count(log))
                                 else if e.major == SPLICE then Count(log) + Splice(e)
                                 else Count(log))
  {
    hide Apply;
    ColumnAppend(c, log, e);
    AppendNames(log, e);
  }

  /** An attribute of an entry that is there. */
  lemma Stays(log: seq<Entry>, base: nat, e: Entry)
    requires Orderly(log, base) && e.major != NAME && e.major != SPLICE && (e.major < 4 ==> e.id < Count(log))
    ensures Orderly(log + [e], base) && Names(log + [e]) == Names(log) && Count(log + [e]) == Count(log)
  {
    hide Column, Count, Disciplined;
    OthersKeep(log, base, e);
    ColumnNext(NAMES, log, e);
    forall c: Class, i: nat | WantedClass(Compact, c) && i in Column(c, log + [e])
      ensures i < Count(log + [e])
    {
      ColumnNext(c, log, e);
    }
  }

  function Created(log: seq<Entry>, e: Entry): seq<Entry> { log + [CreateAt(e.id)] + [e] }

  lemma CreatedColumn(c: Class, log: seq<Entry>, e: Entry)
    requires e.major == NAME && e.size != DELETED && e.id <= Count(log)
    ensures Column(c, Created(log, e)) ==
              if Selects(c, e) then OpenGap(Column(c, log), e.id)[e.id := AttrOf(e)] else OpenGap(Column(c, log), e.id)
    ensures Count(Created(log, e)) == Count(log) + 1
  {
    hide Column, Count, OpenGap;
    ColumnNext(c, log, CreateAt(e.id));
    ColumnNext(c, log + [CreateAt(e.id)], e);
  }

  lemma Opened(log: seq<Entry>, base: nat, e: Entry)
    requires Orderly(log, base) && IsNameTag(e) && base <= e.id && Finds(Insert(e.id), Names(log), Count(log), e.data)
    ensures Orderly(Created(log, e), base) && Count(Created(log, e)) == Count(log) + 1
    ensures Names(Created(log, e)) == OpenGap(Names(log), e.id)[e.id := AttrOf(e)]
  {
    hide Column, Count, Disciplined, Sorted;
    OrderlyFacts(log, base);
    CreateKeeps(log, base, e);
    CreatedColumn(NAMES, log, e);
    forall c: Class, i: nat | WantedClass(Compact, c) && i in Column(c, Created(log, e))
      ensures i < Count(Created(log, e))
    {
      CreatedColumn(c, log, e);
    }
  }

  lemma Closed(log: seq<Entry>, base: nat, id: nat)
    requires Orderly(log, base) && base <= id < Count(log)
    ensures Orderly(log + [DeleteAt(id)], base) && Count(log + [DeleteAt(id)]) == Count(log) - 1
    ensures Names(log + [DeleteAt(id)]) == CloseGap(Names(log), id)
  {
    hide Column, Count, Disciplined, Sorted;
    OrderlyFacts(log, base);
    DeleteKeeps(log, base, id);
    ColumnNext(NAMES, log, DeleteAt(id));
    forall c: Class, i: nat | WantedClass(Compact, c) && i in Column(c, log + [DeleteAt(id)])
      ensures i < Count(log + [DeleteAt(id)])
    {
      ColumnNext(c, log, DeleteAt(id));
    }
  }

  // ----- what is stored under a name -----

  ghost predicate Has(log: seq<Entry>, name: seq<Byte>, i: nat) { i in Names(log) && Names(log)[i].data == name }

  ghost predicate Exists(log: seq<Entry>, name: seq<Byte>) { exists i: nat :: Has(log, name, i) }

  /** The attribute of a class under a name. */
  ghost function Value(log: seq<Entry>, name: seq<Byte>, c: Class): Option<Attr> {
    if Exists(log, name) then
      var i: nat :| Has(log, name, i);
      Lookup(Column(c, log), i)
    else None
  }

  lemma ValueAt(log: seq<Entry>, name: seq<Byte>, i: nat, c: Class)
    requires Sorted(Names(log)) && Has(log, name, i)
    ensures Value(log, name, c) == Lookup(Column(c, log), i)
  {
    hide Column, Before;
    forall j: nat | Has(log, name, j)
      ensures j == i
    {
      BeforeIsTotal(name, name);
    }
  }

  /** What attributes, the later ones before the earlier, make of the one that was there. */
  function Overlaid(was: Option<Attr>, es: seq<Entry>, c: Class): Option<Attr> {
    if es == [] then was
    else
      var e := es[|es| - 1];
      if Selects(c, e) then (if e.size == DELETED then None else Some(AttrOf(e))) else Overlaid(was, es[..|es| - 1], c)
  }

  /** The attributes are put under the name, and nothing else changes. */
  ghost predicate Sets(before: seq<Entry>, name: seq<Byte>, es: seq<Entry>, after: seq<Entry>) {
    forall n: seq<Byte>, c: Class :: WantedClass(Compact, c) ==>
      Value(after, n, c) == if n == name then Overlaid(Value(before, n, c), es, c) else Value(before, n, c)
  }

  /** All that is under the name goes, and nothing else changes. */
  ghost predicate Removes(before: seq<Entry>, name: seq<Byte>, after: seq<Entry>) {
    forall n: seq<Byte>, c: Class :: WantedClass(Compact, c) ==>
      Value(after, n, c) == if n == name then None else Value(before, n, c)
  }

  ghost predicate Same(before: seq<Entry>, after: seq<Entry>) {
    forall n: seq<Byte>, c: Class :: WantedClass(Compact, c) ==> Value(after, n, c) == Value(before, n, c)
  }

  // ----- what the commits of a directory do -----

  /** CREATE and NAME where no such name is found. */
  lemma CreateSets(log: seq<Entry>, base: nat, e: Entry)
    requires Orderly(log, base) && IsNameTag(e) && base <= e.id && Finds(Insert(e.id), Names(log), Count(log), e.data)
    ensures Has(Created(log, e), e.data, e.id) && Sets(log, e.data, [e], Created(log, e))
  {
    hide Column, Count, Disciplined, Sorted, OpenGap, Value, Overlaid, Orderly;
    Opened(log, base, e);
    forall n: seq<Byte>, c: Class | WantedClass(Compact, c)
      ensures Value(Created(log, e), n, c) ==
                if n == e.data then Overlaid(Value(log, n, c), [e], c) else Value(log, n, c)
    {
      CreateValue(log, base, e, n, c);
    }
  }

  lemma CreateValue(log: seq<Entry>, base: nat, e: Entry, n: seq<Byte>, c: Class)
    requires Orderly(log, base) && IsNameTag(e) && base <= e.id && Finds(Insert(e.id), Names(log), Count(log), e.data)
    ensures Value(Created(log, e), n, c) == if n == e.data then Overlaid(Value(log, n, c), [e], c) else Value(log, n, c)
  {
    hide Column, Count, Disciplined, Sorted, Value, Orderly;
    var after := Created(log, e);
    OrderlyFacts(log, base);
    Opened(log, base, e);
    OrderlyFacts(after, base);
    CreatedColumn(c, log, e);
    if n == e.data {
      ValueAt(after, n, e.id, c);
      NewName(log, e.id, n, c);
      assert [e][..0] == [];
    } else if j: nat :| Has(log, n, j) {
      ValueAt(log, n, j, c);
      ValueAt(after, n, Up(j, e.id), c);
    } else {
      forall i: nat | Has(after, n, i)
        ensures Has(log, n, Down(i, e.id))
      {
      }
      NoName(log, n, c);
      NoName(after, n, c);
    }
  }

  lemma NoName(log: seq<Entry>, n: seq<Byte>, c: Class)
    requires !Exists(log, n)
    ensures Value(log, n, c) == None
  {
  }

  lemma NewName(log: seq<Entry>, id: nat, n: seq<Byte>, c: Class)
    requires Finds(Insert(id), Names(log), Count(log), n)
    ensures Value(log, n, c) == None
  {
    hide Column, Count;
    BeforeIsTotal(n, n);
  }

  /** Attributes under an id. */
  function At(body: seq<Entry>, id: nat): seq<Entry> {
    if body == [] then [] else At(body[..|body| - 1], id) + [body[|body| - 1].(id := id)]
  }

  /** Attributes other than names, which stand under an id. */
  predicate IsBody(es: seq<Entry>) { forall e <- es :: e.major == STRUCT || e.major == USERATTR }

  /** What is committed under the id of a name. */
  lemma {:induction false} BodySets(log: seq<Entry>, base: nat, name: seq<Byte>, id: nat, body: seq<Entry>)
    requires Orderly(log, base) && Has(log, name, id) && IsBody(body)
    ensures Orderly(log + At(body, id), base) && Names(log + At(body, id)) == Names(log)
    ensures Count(log + At(body, id)) == Count(log) && Sets(log, name, body, log + At(body, id))
    decreases |body|
  {
    hide Column, Count, Disciplined, Sorted, Value, Orderly, Names;
    if body == [] {
      assert log + At(body, id) == log;
    } else {
      var front, e := body[..|body| - 1], body[|body| - 1].(id := id);
      assert forall f <- front :: f in body;
      BodySets(log, base, name, id, front);
      var so := log + At(front, id);
      assert log + At(body, id) == so + [e];
      IdBelow(so, base, name, id);
      Stays(so, base, e);
      forall n: seq<Byte>, c: Class | WantedClass(Compact, c)
        ensures Value(so + [e], n, c) == if n == name then Overlaid(Value(log, n, c), body, c) else Value(log, n, c)
      {
        AttrValue(so, base, name, id, e, n, c);
        assert Value(so, n, c) == if n == name then Overlaid(Value(log, n, c), front, c) else Value(log, n, c);
      }
    }
  }

  lemma IdBelow(log: seq<Entry>, base: nat, name: seq<Byte>, id: nat)
    requires Orderly(log, base) && Has(log, name, id)
    ensures base <= id < Count(log)
  {
    hide Column, Count;
    OrderlyFacts(log, base);
  }

  lemma AttrValue(log: seq<Entry>, base: nat, name: seq<Byte>, id: nat, e: Entry, n: seq<Byte>, c: Class)
    requires Orderly(log, base) && Has(log, name, id) && e.id == id && (e.major == STRUCT || e.major == USERATTR)
    ensures Value(log + [e], n, c) ==
              if n == name && Selects(c, e) then (if e.size == DELETED then None else Some(AttrOf(e)))
              else Value(log, n, c)
  {
    hide Column, Count, Disciplined, Sorted, Value, Orderly;
    IdBelow(log, base, name, id);
    OrderlyFacts(log, base);
    Stays(log, base, e);
    ColumnNext(c, log, e);
    if j: nat :| Has(log, n, j) {
      ValueAt(log, n, j, c);
      ValueAt(log + [e], n, j, c);
      OneName(log, name, id, n, j);
    } else {
      forall i: nat | Has(log + [e], n, i)
        ensures Has(log, n, i)
      {
      }
      NoName(log, n, c);
      NoName(log + [e], n, c);
    }
  }

  lemma OneName(log: seq<Entry>, m: seq<Byte>, i: nat, n: seq<Byte>, j: nat)
    requires Sorted(Names(log)) && Has(log, m, i) && Has(log, n, j)
    ensures m == n <==> i == j
  {
    hide Column;
    BeforeIsTotal(m, n);
  }

  /** DELETE under the id of a name. */
  lemma DeleteRemoves(log: seq<Entry>, base: nat, name: seq<Byte>, id: nat)
    requires Orderly(log, base) && Has(log, name, id)
    ensures Orderly(log + [DeleteAt(id)], base) && Count(log + [DeleteAt(id)]) == Count(log) - 1
    ensures Removes(log, name, log + [DeleteAt(id)])
  {
    hide Column, Count, Disciplined, Sorted, Value, Orderly;
    IdBelow(log, base, name, id);
    Closed(log, base, id);
    forall n: seq<Byte>, c: Class | WantedClass(Compact, c)
      ensures Value(log + [DeleteAt(id)], n, c) == if n == name then None else Value(log, n, c)
    {
      DeleteValue(log, base, name, id, n, c);
    }
  }

  lemma DeleteValue(log: seq<Entry>, base: nat, name: seq<Byte>, id: nat, n: seq<Byte>, c: Class)
    requires Orderly(log, base) && Has(log, name, id)
    ensures Value(log + [DeleteAt(id)], n, c) == if n == name then None else Value(log, n, c)
  {
    hide Column, Count, Disciplined, Sorted, Value, Orderly;
    var after := log + [DeleteAt(id)];
    IdBelow(log, base, name, id);
    OrderlyFacts(log, base);
    Closed(log, base, id);
    OrderlyFacts(after, base);
    ColumnNext(c, log, DeleteAt(id));
    if i: nat :| Has(after, n, i) {
      ValueAt(after, n, i, c);
      ValueAt(log, n, Up(i, id), c);
      OneName(log, name, id, n, Up(i, id));
    } else {
      forall j: nat | Has(log, n, j) && j != id
        ensures Has(after, n, Down(j, id))
      {
      }
      NoName(after, n, c);
      if Exists(log, n) {
        var j: nat :| Has(log, n, j);
        OneName(log, name, id, n, j);
      } else {
        NoName(log, n, c);
      }
    }
  }

  /** Tails and global state are under no name. */
  lemma ForeignSame(log: seq<Entry>, base: nat, e: Entry)
    requires Orderly(log, base) && e.major >= 6
    ensures Orderly(log + [e], base) && Count(log + [e]) == Count(log) && Same(log, log + [e])
  {
    hide Column, Count, Disciplined, Sorted, Value, Orderly;
    OrderlyFacts(log, base);
    Stays(log, base, e);
    forall c: Class | WantedClass(Compact, c)
      ensures Column(c, log + [e]) == Column(c, log)
    {
      ColumnNext(c, log, e);
    }
    SameColumns(log, log + [e]);
  }

  /** The same names under the same ids, and the same columns. */
  lemma SameColumns(a: seq<Entry>, b: seq<Entry>)
    requires Sorted(Names(a)) && Names(a) == Names(b)
    requires forall c: Class :: WantedClass(Compact, c) ==> Column(c, b) == Column(c, a)
    ensures Same(a, b)
  {
    hide Column, Value, Sorted;
    forall n: seq<Byte>, c: Class | WantedClass(Compact, c)
      ensures Value(b, n, c) == Value(a, n, c)
    {
      if i: nat :| Has(a, n, i) {
        ValueAt(a, n, i, c);
        assert Has(b, n, i);
        ValueAt(b, n, i, c);
      } else {
        forall i: nat | Has(b, n, i)
          ensures Has(a, n, i)
        {
        }
        NoName(a, n, c);
        NoName(b, n, c);
      }
    }
  }

  // ----- compaction -----

  /** What a compaction of the whole directory writes, with tails and global state behind it. */
  function Contents(all: seq<Entry>, rest: seq<Entry>, count: nat): seq<Entry>
    requires AllWellFormed(all)
  {
    Cut(Emitted(Compact, all), 0, count, 0) + rest
  }

  /** A compaction of all ids keeps the directory. */
  lemma CompactSame(log: seq<Entry>, base: nat, rest: seq<Entry>)
    requires Orderly(log, base) && Count(log) >= 0 && forall e <- rest :: e.major >= 6
    ensures var c := Contents(log, rest, Count(log)); Orderly(c, base) && Count(c) == Count(log) && Same(log, c)
  {
    hide Emitted, Cut, Column, Count, Disciplined, Orderly, Value, Sorted;
    OrderlyFacts(log, base);
    var cut := Cut(Emitted(Compact, log), 0, Count(log), 0);
    CutCount(log, base);
    CutNames(log, base);
    forall c: Class | WantedClass(Compact, c)
      ensures Column(c, cut) == Column(c, log)
    {
      CutAll(log, base, c);
    }
    CutOrderly(log, base);
    SameColumns(log, cut);
    ForeignAll(cut, base, rest);
  }

  lemma CutAll(log: seq<Entry>, base: nat, c: Class)
    requires Orderly(log, base) && Count(log) >= 0 && WantedClass(Compact, c)
    ensures Column(c, Cut(Emitted(Compact, log), 0, Count(log), 0)) == Column(c, log)
  {
    hide Emitted, Cut, Column, Count, Disciplined;
    EmittedColumn(c, Compact, log);
    EmittedIsPlain(Compact, log);
    CutColumn(c, Emitted(Compact, log), 0, Count(log), 0);
    var t := Column(c, log);
    assert forall i: nat :: Back(i, 0) == i;
    assert CutTable(t, 0, Count(log), 0) == t;
  }

  lemma CutCount(log: seq<Entry>, base: nat)
    requires Orderly(log, base) && Count(log) >= 0
    ensures Count(Cut(Emitted(Compact, log), 0, Count(log), 0)) == Count(log)
  {
    hide Emitted, Cut, Column, Count, Disciplined;
    CompactedCount(log, Range(0, Count(log)));
  }

  lemma CutNames(log: seq<Entry>, base: nat)
    requires Orderly(log, base) && Count(log) >= 0
    ensures var cut := Cut(Emitted(Compact, log), 0, Count(log), 0); Disciplined(cut, base) && Names(cut) == Names(log)
  {
    hide Emitted, Cut, Column, Count, Disciplined, Valued;
    var cut := Cut(Emitted(Compact, log), 0, Count(log), 0);
    CompactKeeps(log, base, 0, Count(log));
    CutAll(log, base, NAMES);
    NamesValued(log, base);
    NamesValued(cut, base);
  }

  lemma CutOrderly(log: seq<Entry>, base: nat)
    requires Orderly(log, base) && Count(log) >= 0
    ensures Orderly(Cut(Emitted(Compact, log), 0, Count(log), 0), base)
  {
    hide Emitted, Cut, Column, Count, Disciplined;
    var cut := Cut(Emitted(Compact, log), 0, Count(log), 0);
    CutCount(log, base);
    CutNames(log, base);
    DisciplinedWellFormed(cut, base);
    CutAll(log, base, NAMES);
    forall c: Class, i: nat | WantedClass(Compact, c) && i in Column(c, cut)
      ensures i < Count(cut)
    {
      CutAll(log, base, c);
    }
  }

  lemma {:induction false} DisciplinedWellFormed(log: seq<Entry>, base: nat)
    requires Disciplined(log, base)
    ensures AllWellFormed(log)
  {
    if log != [] {
      DisciplinedWellFormed(log[..|log| - 1], base);
      FollowFits(log[..|log| - 1], log[|log| - 1], base);
    }
  }

  lemma {:induction false} ForeignAll(log: seq<Entry>, base: nat, rest: seq<Entry>)
    requires Orderly(log, base) && forall e <- rest :: e.major >= 6
    ensures Orderly(log + rest, base) && Count(log + rest) == Count(log) && Same(log, log + rest)
    decreases |rest|
  {
    hide Column, Count, Disciplined, Value, Orderly;
    if rest == [] {
      assert log + rest == log;
    } else {
      var n := |rest| - 1;
      assert log + rest == log + rest[..n] + [rest[n]];
      assert forall e <- rest[..n] :: e in rest;
      ForeignAll(log, base, rest[..n]);
      ForeignSame(log + rest[..n], base, rest[n]);
    }
  }
}
