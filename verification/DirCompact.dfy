/**
  lfs_dir_traverse with its suffix filter (lfs.c:625-752), the engine of compaction: every
  kept entry is checked against all entries after it, dropped if one of them makes it
  redundant, and renumbered by the splices among them. What comes out replays to the
  columns of what went in, restricted to a range of ids and shifted.
 */
module DirCompact {
  import opened DirLog
  import opened Optional

  /** tmask and ttag of the two traversals: compaction keeps types without bit 0x400, a move structs and attributes. */
  datatype Mode = Compact | Move

  predicate Wanted(m: Mode, e: Entry) {
    match m
    case Compact => e.major < 4
    case Move => e.major == STRUCT || e.major == USERATTR
  }

  /** The classes a later entry overwrites: by full type if bit 0x100 is set, else by major type. */
  predicate SameKey(e: Entry, f: Entry) {
    e.major == f.major && (e.major % 2 == 1 ==> e.chunk == f.chunk)
  }

  predicate KeyClass(c: Class) {
    c.mask == if c.major % 2 == 1 then Exact else Major
  }

  // ----- the filter, one later entry at a time -----

  /** lfs_dir_traverse_filter: the new id of `f` after the later entry `t`, or None if `t` makes it redundant. */
  function Filter(f: Entry, t: Entry): Option<nat>
    requires WellFormed(t)
  {
    if (SameKey(t, f) && t.id == f.id) || f.size == DELETED || (IsRemove(t) && t.id == f.id) then None
    else if t.major == SPLICE && t.id <= f.id then Some((f.id + Splice(t)) as nat)
    else Some(f.id)
  }

  /** The id an entry has after a run of later entries. */
  function Track(f: Entry, later: seq<Entry>): Option<nat>
    requires AllWellFormed(later)
  {
    if later == [] then Some(f.id)
    else
      match Track(f, later[..|later| - 1])
      case None => None
      case Some(id) => Filter(f.(id := id), later[|later| - 1])
  }

  /** The entry as it is emitted once a new id is known. */
  function Renumbered(f: Entry, id: Option<nat>): seq<Entry> {
    if id.None? then [] else [f.(id := id.value)]
  }

  // ----- the emitted entries, grown with the log -----

  function Survivors(kept: seq<Entry>, t: Entry): seq<Entry>
    requires WellFormed(t)
  {
    if kept == [] then []
    else Survivors(kept[..|kept| - 1], t) + Renumbered(kept[|kept| - 1], Filter(kept[|kept| - 1], t))
  }

  function Emitted(m: Mode, all: seq<Entry>): seq<Entry>
    requires AllWellFormed(all)
  {
    if all == [] then []
    else
      var t := all[|all| - 1];
      Survivors(Emitted(m, all[..|all| - 1]), t) + (if Wanted(m, t) then [t] else [])
  }

  /** The entries the traversal emits for the first n positions, each tracked through everything after it. */
  function Kept(m: Mode, all: seq<Entry>, n: nat): seq<Entry>
    requires AllWellFormed(all) && n <= |all|
  {
    if n == 0 then []
    else Kept(m, all, n - 1)
         + (if Wanted(m, all[n - 1]) then Renumbered(all[n - 1], Track(all[n - 1], all[n..])) else [])
  }

  lemma {:induction false} SurvivorsConcat(a: seq<Entry>, b: seq<Entry>, t: Entry)
    requires WellFormed(t)
    ensures Survivors(a + b, t) == Survivors(a, t) + Survivors(b, t)
  {
    if b == [] {
      assert a + b == a;
    } else {
      var n := |b| - 1;
      assert (a + b)[..|a + b| - 1] == a + b[..n] && (a + b)[|a + b| - 1] == b[n];
      SurvivorsConcat(a, b[..n], t);
    }
  }

  lemma SurvivorsOne(f: Entry, t: Entry)
    requires WellFormed(t)
    ensures Survivors([f], t) == Renumbered(f, Filter(f, t))
  {
    assert [f][..0] == [];
  }

  lemma {:induction false} KeptGrows(m: Mode, all: seq<Entry>, t: Entry, n: nat)
    requires AllWellFormed(all) && WellFormed(t) && AllWellFormed(all + [t]) && n <= |all|
    ensures Kept(m, all + [t], n) == Survivors(Kept(m, all, n), t)
  {
    hide Track, Filter, Survivors, WellFormed, Renumbered;
    if n > 0 {
      KeptGrows(m, all, t, n - 1);
      var f := all[n - 1];
      assert (all + [t])[n - 1] == f;
      KeptNext(m, all, n);
      KeptNext(m, all + [t], n);
      if Wanted(m, f) {
        var later := (all + [t])[n..];
        assert later[..|later| - 1] == all[n..] && later[|later| - 1] == t;
        TrackGrows(f, all[n..], t, later);
        KeptStep(Kept(m, all, n - 1), f, Track(f, all[n..]), t);
        KeptLast(f, Track(f, all[n..]), t, Track(f, later));
      } else {
        assert Kept(m, all, n) == Kept(m, all, n - 1);
      }
    } else {
      NoSurvivors(t);
    }
  }

  lemma NoSurvivors(t: Entry)
    requires WellFormed(t)
    ensures Survivors([], t) == []
  {
  }

  lemma KeptNext(m: Mode, all: seq<Entry>, n: nat)
    requires AllWellFormed(all) && 0 < n <= |all|
    ensures Kept(m, all, n) ==
              Kept(m, all, n - 1)
                + (if Wanted(m, all[n - 1]) then Renumbered(all[n - 1], Track(all[n - 1], all[n..])) else [])
  {
  }

  lemma KeptLast(f: Entry, id: Option<nat>, t: Entry, next: Option<nat>)
    requires WellFormed(t)
    requires next == match id case None => None case Some(i) => Filter(f.(id := i), t)
    ensures Renumbered(f, next) ==
              match id case None => [] case Some(i) => Renumbered(f.(id := i), Filter(f.(id := i), t))
  {
  }

  lemma TrackGrows(f: Entry, later: seq<Entry>, t: Entry, longer: seq<Entry>)
    requires AllWellFormed(later) && WellFormed(t) && AllWellFormed(longer)
    requires |longer| == |later| + 1 && longer[..|longer| - 1] == later && longer[|longer| - 1] == t
    ensures Track(f, longer) ==
            match Track(f, later)
            case None => None
            case Some(id) => Filter(f.(id := id), t)
  {
  }

  lemma KeptStep(kept: seq<Entry>, f: Entry, id: Option<nat>, t: Entry)
    requires WellFormed(t)
    ensures Survivors(kept + Renumbered(f, id), t) == Survivors(kept, t) +
            (match id case None => [] case Some(i) => Renumbered(f.(id := i), Filter(f.(id := i), t)))
  {
    SurvivorsConcat(kept, Renumbered(f, id), t);
    if id.Some? {
      SurvivorsOne(f.(id := id.value), t);
    }
  }

  /** Filtering each entry against its whole suffix is the same as filtering all entries against each new one. */
  lemma {:induction false} KeptIsEmitted(m: Mode, all: seq<Entry>)
    requires AllWellFormed(all)
    ensures Kept(m, all, |all|) == Emitted(m, all)
  {
    if all != [] {
      var n := |all| - 1;
      var t := all[n];
      assert all == all[..n] + [t];
      KeptIsEmitted(m, all[..n]);
      KeptGrows(m, all[..n], t, n);
      assert all[n + 1..] == [];
    }
  }

  // ----- what the emitted entries mean -----

  predicate Plain(log: seq<Entry>) {
    forall i :: 0 <= i < |log| ==> log[i].major != SPLICE
  }

  /** No two entries speak about the same attribute of the same id. */
  predicate Distinct(log: seq<Entry>) {
    forall i, j :: 0 <= i < j < |log| ==> !(log[i].id == log[j].id && SameKey(log[i], log[j]))
  }

  /** Only the last entry can be a deletion. */
  predicate NoDeletions(log: seq<Entry>) {
    forall i :: 0 <= i < |log| ==> log[i].size != DELETED
  }

  lemma {:induction false} SurvivorsAreRenumbered(kept: seq<Entry>, t: Entry)
    requires WellFormed(t) && Plain(kept)
    ensures Plain(Survivors(kept, t)) && NoDeletions(Survivors(kept, t))
    ensures forall g :: g in Survivors(kept, t) ==>
              exists f :: f in kept && Filter(f, t).Some? && g == f.(id := Filter(f, t).value)
  {
    if kept != [] {
      var front, f := kept[..|kept| - 1], kept[|kept| - 1];
      SurvivorsAreRenumbered(front, t);
      forall g | g in Survivors(kept, t)
        ensures exists f :: f in kept && Filter(f, t).Some? && g == f.(id := Filter(f, t).value)
      {
        if g in Survivors(front, t) {
          var h :| h in front && Filter(h, t).Some? && g == h.(id := Filter(h, t).value);
          assert h in kept;
        } else {
          assert f in kept && g in Renumbered(f, Filter(f, t));
        }
      }
    }
  }

  /** A table with one id dropped, opened or closed, or one entry removed, as a later entry t demands. */
  ghost function AfterLater(c: Class, table: Table, t: Entry): Table {
    if IsCreate(t) then OpenGap(table, t.id)
    else if IsRemove(t) then CloseGap(table, t.id)
    else if Selects(c, t) then table - {t.id}
    else table
  }

  /** Replaying the survivors: splices renumber, an overwriting entry erases. */
  lemma {:induction false} SurvivorsColumn(c: Class, kept: seq<Entry>, t: Entry)
    requires WellFormed(t) && KeyClass(c) && c.major != SPLICE
    requires Plain(kept) && NoDeletions(kept)
    ensures Column(c, Survivors(kept, t)) == AfterLater(c, Column(c, kept), t)
  {
    if kept == [] {
      assert AfterLater(c, imap[], t) == imap[];
    } else {
      var front, f := kept[..|kept| - 1], kept[|kept| - 1];
      SurvivorsColumn(c, front, t);
      SurvivorStep(c, Column(c, front), f, t);
      if Filter(f, t).Some? {
        var g := f.(id := Filter(f, t).value);
        var s := Survivors(front, t);
        assert (s + [g])[..|s|] == s;
        assert Survivors(kept, t) == s + [g];
      } else {
        assert Survivors(kept, t) == Survivors(front, t);
      }
    }
  }

  lemma SurvivorStep(c: Class, table: Table, f: Entry, t: Entry)
    requires WellFormed(t) && KeyClass(c) && c.major != SPLICE && f.major != SPLICE && f.size != DELETED
    ensures AfterLater(c, Apply(c, table, f), t) ==
            match Filter(f, t)
            case None => AfterLater(c, table, t)
            case Some(id) => Apply(c, AfterLater(c, table, t), f.(id := id))
  {
    KeyedTogether(c, f, t);
    if Selects(c, f) {
      SelectedStep(c, table, f, t);
    } else {
      hide OpenGap, CloseGap;
    }
  }

  lemma SelectedStep(c: Class, table: Table, f: Entry, t: Entry)
    requires WellFormed(t) && KeyClass(c) && c.major != SPLICE && f.major != SPLICE && f.size != DELETED
    requires Selects(c, f)
    ensures AfterLater(c, Apply(c, table, f), t) ==
            match Filter(f, t)
            case None => AfterLater(c, table, t)
            case Some(id) => Apply(c, AfterLater(c, table, t), f.(id := id))
  {
    hide OpenGap, CloseGap;
    KeyedTogether(c, f, t);
    if IsCreate(t) {
      OpenCommutes(table, f.id, AttrOf(f), t.id);
    } else if IsRemove(t) {
      CloseCommutes(table, f.id, AttrOf(f), t.id);
    } else {
      EraseCommutes(table, f.id, AttrOf(f), t.id);
    }
  }

  /** Entries with the same key are in the same classes. */
  lemma KeyedTogether(c: Class, f: Entry, t: Entry)
    requires KeyClass(c) && c.major != SPLICE
    ensures Selects(c, f) && t.major != SPLICE ==> (Selects(c, t) <==> SameKey(t, f))
    ensures !Selects(c, f) && SameKey(t, f) ==> !Selects(c, t)
    ensures Selects(c, f) && t.major == SPLICE ==> !SameKey(t, f)
  {
  }

  lemma SameTable(a: Table, b: Table)
    requires forall i :: i in a <==> i in b
    requires forall i :: i in a ==> a[i] == b[i]
    ensures a == b
  {
  }

  lemma OpenCommutes(table: Table, id: nat, a: Attr, gap: nat)
    ensures OpenGap(table[id := a], gap) == OpenGap(table, gap)[Up(id, gap) := a]
  {
    var x, y := OpenGap(table[id := a], gap), OpenGap(table, gap)[Up(id, gap) := a];
    forall i: nat
      ensures i in x <==> i in y
      ensures i in x ==> x[i] == y[i]
    {
      assert i != gap ==> (Down(i, gap) == id <==> i == Up(id, gap));
    }
    SameTable(x, y);
  }

  lemma CloseCommutes(table: Table, id: nat, a: Attr, gap: nat)
    ensures id == gap ==> CloseGap(table[id := a], gap) == CloseGap(table, gap)
    ensures id != gap ==> CloseGap(table[id := a], gap) == CloseGap(table, gap)[Down(id, gap) := a]
  {
    var x := CloseGap(table[id := a], gap);
    var y := if id == gap then CloseGap(table, gap) else CloseGap(table, gap)[Down(id, gap) := a];
    forall i: nat
      ensures i in x <==> i in y
      ensures i in x ==> x[i] == y[i]
    {
      assert Up(i, gap) != gap && (id != gap ==> (Up(i, gap) == id <==> i == Down(id, gap)));
    }
    SameTable(x, y);
  }

  lemma EraseCommutes(table: Table, id: nat, a: Attr, other: nat)
    ensures id == other ==> table[id := a] - {other} == table - {other}
    ensures id != other ==> table[id := a] - {other} == (table - {other})[id := a]
  {
  }

  predicate WantedClass(m: Mode, c: Class) {
    KeyClass(c) && (if m == Compact then c.major < 4 else c.major == STRUCT || c.major == USERATTR)
  }

  /** The emitted entries without a deletion that nothing followed. */
  function Solid(m: Mode, all: seq<Entry>): seq<Entry>
    requires AllWellFormed(all)
  {
    if all == [] then []
    else
      var t := all[|all| - 1];
      Survivors(Emitted(m, all[..|all| - 1]), t) + (if Wanted(m, t) && t.size != DELETED then [t] else [])
  }

  lemma SurvivorsOfSolid(m: Mode, all: seq<Entry>, t: Entry)
    requires AllWellFormed(all) && WellFormed(t)
    ensures Survivors(Emitted(m, all), t) == Survivors(Solid(m, all), t)
  {
    if all != [] {
      var d := all[|all| - 1];
      var s := Survivors(Emitted(m, all[..|all| - 1]), d);
      if Wanted(m, d) && d.size == DELETED {
        SurvivorsConcat(s, [d], t);
        SurvivorsOne(d, t);
        assert Emitted(m, all) == s + [d] && Solid(m, all) == s;
      }
    }
  }

  lemma {:induction false} SolidIsPlain(m: Mode, all: seq<Entry>)
    requires AllWellFormed(all)
    ensures Plain(Solid(m, all)) && NoDeletions(Solid(m, all))
  {
    if all != [] {
      var front, t := all[..|all| - 1], all[|all| - 1];
      hide Emitted, Survivors;
      SolidIsPlain(m, front);
      SurvivorsOfSolid(m, front, t);
      SurvivorsAreRenumbered(Solid(m, front), t);
    }
  }

  lemma ColumnAppend(c: Class, log: seq<Entry>, e: Entry)
    ensures Column(c, log + [e]) == Apply(c, Column(c, log), e)
  {
    assert (log + [e])[..|log|] == log;
  }

  /** Replaying what compaction keeps gives the columns of the whole log. */
  lemma {:induction false} EmittedColumn(c: Class, m: Mode, all: seq<Entry>)
    requires AllWellFormed(all) && WantedClass(m, c)
    ensures Column(c, Solid(m, all)) == Column(c, all)
    ensures Column(c, Emitted(m, all)) == Column(c, all)
  {
    if all != [] {
      var front, t := all[..|all| - 1], all[|all| - 1];
      EmittedColumn(c, m, front);
      SurvivorsOfSolid(m, front, t);
      SolidIsPlain(m, front);
      SurvivorsColumn(c, Solid(m, front), t);
      var s := Survivors(Emitted(m, front), t);
      ColumnAppend(c, s, t);
      LastEntry(c, m, Column(c, front), t);
      assert s + [] == s;
    }
  }

  lemma LastEntry(c: Class, m: Mode, table: Table, t: Entry)
    requires WellFormed(t) && WantedClass(m, c)
    ensures Wanted(m, t) ==> Apply(c, AfterLater(c, table, t), t) == Apply(c, table, t)
    ensures !Wanted(m, t) || t.size == DELETED ==> AfterLater(c, table, t) == Apply(c, table, t)
  {
  }

  /** Compaction leaves at most one entry for each attribute of each id. */
  lemma {:induction false} EmittedDistinct(m: Mode, all: seq<Entry>)
    requires AllWellFormed(all)
    ensures Distinct(Emitted(m, all))
  {
    if all != [] {
      var front, t := all[..|all| - 1], all[|all| - 1];
      EmittedDistinct(m, front);
      SurvivorsDistinct(Emitted(m, front), t);
    }
  }

  lemma {:induction false} SurvivorsDistinct(kept: seq<Entry>, t: Entry)
    requires WellFormed(t) && Distinct(kept)
    ensures Distinct(Survivors(kept, t))
    ensures forall g :: g in Survivors(kept, t) ==> !(g.id == t.id && SameKey(g, t)) || t.major == SPLICE
    ensures forall g :: g in Survivors(kept, t) ==> FromKept(kept, t, g)
  {
    if kept != [] {
      var front, f := kept[..|kept| - 1], kept[|kept| - 1];
      SurvivorsDistinct(front, t);
      forall g | g in Survivors(kept, t)
        ensures FromKept(kept, t, g)
      {
        if g in Survivors(front, t) {
          assert FromKept(front, t, g);
        } else {
          assert f in kept;
        }
      }
      forall g | g in Survivors(front, t) && Filter(f, t).Some?
        ensures !(g.id == Filter(f, t).value && SameKey(g, f))
      {
        assert FromKept(front, t, g);
        var h :| h in front && Filter(h, t).Some? && g == h.(id := Filter(h, t).value);
        assert !(h.id == f.id && SameKey(h, f));
      }
    }
  }

  ghost predicate FromKept(kept: seq<Entry>, t: Entry, g: Entry)
    requires WellFormed(t)
  {
    exists f :: f in kept && Filter(f, t).Some? && g == f.(id := Filter(f, t).value)
  }

  // ----- a range of ids, shifted -----

  /** Keeps the ids from `begin` up to `end` and adds `diff`. */
  function Cut(log: seq<Entry>, begin: nat, end: nat, diff: int): seq<Entry>
    requires begin + diff >= 0
  {
    if log == [] then []
    else
      var e := log[|log| - 1];
      Cut(log[..|log| - 1], begin, end, diff) +
        (if begin <= e.id < end then [e.(id := (e.id + diff) as nat)] else [])
  }

  ghost function CutTable(t: Table, begin: nat, end: nat, diff: int): Table
    requires begin + diff >= 0
  {
    imap i: nat | begin <= Back(i, diff) < end && (Back(i, diff) as nat) in t :: t[Back(i, diff) as nat]
  }

  function Back(i: nat, diff: int): int { i - diff }

  lemma {:induction false} CutColumn(c: Class, log: seq<Entry>, begin: nat, end: nat, diff: int)
    requires begin + diff >= 0 && Plain(log)
    ensures Column(c, Cut(log, begin, end, diff)) == CutTable(Column(c, log), begin, end, diff)
  {
    hide Apply, CutTable, Cut;
    CutUnfold(log, begin, end, diff);
    if log == [] {
      CutNothing(begin, end, diff);
    } else {
      var front, e := log[..|log| - 1], log[|log| - 1];
      CutColumn(c, front, begin, end, diff);
      if begin <= e.id < end {
        ColumnAppend(c, Cut(front, begin, end, diff), e.(id := (e.id + diff) as nat));
      }
      CutStep(c, Column(c, front), e, begin, end, diff);
    }
  }

  lemma CutNothing(begin: nat, end: nat, diff: int)
    requires begin + diff >= 0
    ensures CutTable(imap[], begin, end, diff) == imap[]
  {
  }

  lemma CutUnfold(log: seq<Entry>, begin: nat, end: nat, diff: int)
    requires begin + diff >= 0
    ensures log == [] ==> Cut(log, begin, end, diff) == []
    ensures log != [] ==>
            var front, e := log[..|log| - 1], log[|log| - 1];
            Cut(log, begin, end, diff) ==
              if begin <= e.id < end then Cut(front, begin, end, diff) + [e.(id := (e.id + diff) as nat)]
              else Cut(front, begin, end, diff)
  {
  }

  lemma CutStep(c: Class, t: Table, e: Entry, begin: nat, end: nat, diff: int)
    requires begin + diff >= 0 && e.major != SPLICE
    ensures CutTable(Apply(c, t, e), begin, end, diff) ==
            if begin <= e.id < end then Apply(c, CutTable(t, begin, end, diff), e.(id := (e.id + diff) as nat))
            else CutTable(t, begin, end, diff)
  {
    if Selects(c, e) {
      var x := CutTable(Apply(c, t, e), begin, end, diff);
      var y := if begin <= e.id < end then Apply(c, CutTable(t, begin, end, diff), e.(id := (e.id + diff) as nat))
               else CutTable(t, begin, end, diff);
      forall i: nat
        ensures i in x <==> i in y
        ensures i in x ==> x[i] == y[i]
      {
        assert begin <= e.id < end ==> (Back(i, diff) == e.id <==> i == e.id + diff);
      }
      SameTable(x, y);
    }
  }

  lemma {:induction false} EmittedIsPlain(m: Mode, all: seq<Entry>)
    requires AllWellFormed(all)
    ensures Plain(Emitted(m, all))
  {
    if all != [] {
      var front, t := all[..|all| - 1], all[|all| - 1];
      SurvivorsOfSolid(m, front, t);
      SolidIsPlain(m, front);
      SurvivorsAreRenumbered(Solid(m, front), t);
    }
  }

  /** Entries of a move are structs and user attributes, entries of a compaction are no splices, tails or states. */
  predicate Carries(m: Mode, log: seq<Entry>) {
    forall e <- log :: if m == Move then e.major == STRUCT || e.major == USERATTR else e.major < SPLICE
  }

  lemma {:induction false} SurvivorsCarry(m: Mode, kept: seq<Entry>, t: Entry)
    requires WellFormed(t) && Carries(m, kept)
    ensures Carries(m, Survivors(kept, t))
  {
    hide Filter;
    if kept != [] {
      var front, f := kept[..|kept| - 1], kept[|kept| - 1];
      assert forall e <- front :: e in kept;
      SurvivorsCarry(m, front, t);
      assert f in kept;
    }
  }

  /**
    Nothing else is emitted: no names for a move, and no column but those asked for. What comes last
    is always emitted if it is asked for, a deletion too.
   */
  lemma {:induction false} NothingElse(m: Mode, all: seq<Entry>)
    requires AllWellFormed(all)
    ensures Carries(m, Emitted(m, all))
    ensures forall c: Class :: (if m == Move then c.major != STRUCT && c.major != USERATTR else c.major >= SPLICE) ==>
              Column(c, Emitted(m, all)) == imap[]
    ensures all != [] && Carries(m, [all[|all| - 1]]) ==>
              Emitted(m, all) != [] && Emitted(m, all)[|Emitted(m, all)| - 1] == all[|all| - 1]
  {
    hide Survivors, Column;
    if all != [] {
      var front, t := all[..|all| - 1], all[|all| - 1];
      NothingElse(m, front);
      SurvivorsCarry(m, Emitted(m, front), t);
      assert t in [t];
    }
    forall c: Class | if m == Move then c.major != STRUCT && c.major != USERATTR else c.major >= SPLICE
      ensures Column(c, Emitted(m, all)) == imap[]
    {
      OtherColumn(c, m, Emitted(m, all));
    }
  }

  lemma {:induction false} OtherColumn(c: Class, m: Mode, log: seq<Entry>)
    requires Carries(m, log)
    requires if m == Move then c.major != STRUCT && c.major != USERATTR else c.major >= SPLICE
    ensures Column(c, log) == imap[]
  {
    if log != [] {
      var front, e := log[..|log| - 1], log[|log| - 1];
      assert forall f <- front :: f in log;
      OtherColumn(c, m, front);
      assert e in log;
    }
  }

  lemma {:induction false} CutCarries(m: Mode, log: seq<Entry>, begin: nat, end: nat, diff: int)
    requires begin + diff >= 0 && Carries(m, log)
    ensures Carries(m, Cut(log, begin, end, diff))
    ensures forall e <- Cut(log, begin, end, diff) :: begin + diff <= e.id < end + diff
  {
    if log != [] {
      var front, e := log[..|log| - 1], log[|log| - 1];
      assert forall f <- front :: f in log;
      CutCarries(m, front, begin, end, diff);
      assert e in log;
    }
  }

  /** A pending move: the deletion the traversal adds after the attributes to be written. */
  function PendingDelete(id: Option<nat>): seq<Entry> {
    match id
    case None => []
    case Some(i) => [DeleteAt(i)]
  }

  /**
    Compaction preserves meaning. For every attribute class, the entries written by the
    traversal replay to the replay of the log, then the new attributes, then the pending
    deletion, restricted to the ids from `begin` to `end` and shifted by `diff`.
  */
  lemma CompactionPreservesMeaning(c: Class, m: Mode, log: seq<Entry>, attrs: seq<Entry>, pending: Option<nat>,
                                   begin: nat, end: nat, diff: int)
    requires AllWellFormed(log) && AllWellFormed(attrs) && begin + diff >= 0 && WantedClass(m, c)
    ensures var all := log + attrs + PendingDelete(pending);
            && AllWellFormed(all)
            && Column(c, Cut(Emitted(m, all), begin, end, diff)) == CutTable(Column(c, all), begin, end, diff)
  {
    var all := log + attrs + PendingDelete(pending);
    EmittedColumn(c, m, all);
    EmittedIsPlain(m, all);
    CutColumn(c, Emitted(m, all), begin, end, diff);
  }

  // ----- lfs_dir_traverse -----

  /** The nested traversal that runs the filter over everything after position `from`. */
  method RunFilter(f: Entry, all: seq<Entry>, from: nat) returns (id: Option<nat>)
    requires AllWellFormed(all) && from <= |all|
    ensures id == Track(f, all[from..])
  {
    var tag := f;
    var i := from;
    while i < |all|
      invariant from <= i <= |all|
      invariant Track(f, all[from..i]) == Some(tag.id) && tag == f.(id := tag.id)
    {
      assert all[from..i + 1][..i - from] == all[from..i];
      var next := Filter(tag, all[i]);
      if next.None? {
        assert all[from..][..i + 1 - from] == all[from..i + 1];
        TrackStaysNone(f, all[from..], i + 1 - from);
        return None;
      }
      tag := tag.(id := next.value);
      i := i + 1;
    }
    assert all[from..i] == all[from..];
    return Some(tag.id);
  }

  lemma {:induction false} TrackStaysNone(f: Entry, later: seq<Entry>, n: nat)
    requires AllWellFormed(later) && n <= |later|
    requires AllWellFormed(later[..n]) && Track(f, later[..n]).None?
    ensures Track(f, later).None?
    decreases |later|
  {
    if n < |later| {
      assert later[..|later| - 1][..n] == later[..n];
      TrackStaysNone(f, later[..|later| - 1], n);
    } else {
      assert later[..n] == later;
    }
  }

  /**
    lfs_dir_traverse over the log, the new attributes and the pending move, with the filter
    on. The callback receives `out`.
  */
  method Traverse(m: Mode, log: seq<Entry>, attrs: seq<Entry>, pending: Option<nat>, begin: nat, end: nat, diff: int)
    returns (out: seq<Entry>)
    requires AllWellFormed(log) && AllWellFormed(attrs) && begin + diff >= 0
    ensures AllWellFormed(log + attrs + PendingDelete(pending))
    ensures out == Cut(Emitted(m, log + attrs + PendingDelete(pending)), begin, end, diff)
    ensures Carries(m, out) && forall e <- out :: begin + diff <= e.id < end + diff
  {
    var all := log + attrs + PendingDelete(pending);
    assert AllWellFormed(all);
    hide Kept, Cut, Emitted, AllWellFormed, Carries;
    KeptIsEmitted(m, all);
    NothingElse(m, all);
    CutCarries(m, Emitted(m, all), begin, end, diff);
    out := TraverseAll(m, all, begin, end, diff);
  }

  method TraverseAll(m: Mode, all: seq<Entry>, begin: nat, end: nat, diff: int) returns (out: seq<Entry>)
    requires AllWellFormed(all) && begin + diff >= 0
    ensures out == Cut(Kept(m, all, |all|), begin, end, diff)
  {
    hide Kept, Cut, Track, AllWellFormed;
    NothingKept(m, all, begin, end, diff);
    out := [];
    var i := 0;
    while i < |all|
      invariant 0 <= i <= |all|
      invariant out == Cut(Kept(m, all, i), begin, end, diff)
    {
      var tag := all[i];
      i := i + 1;
      CutNext(m, all, i, begin, end, diff);
      if !Wanted(m, tag) {
        continue;
      }
      var id := RunFilter(tag, all, i);
      if id.None? {
        continue;
      }
      if !(begin <= id.value < end) {
        continue;
      }
      out := out + [tag.(id := (id.value + diff) as nat)];
    }
  }

  /** What the traversal adds for one position. */
  lemma CutNext(m: Mode, all: seq<Entry>, n: nat, begin: nat, end: nat, diff: int)
    requires AllWellFormed(all) && 0 < n <= |all| && begin + diff >= 0
    ensures var tag, front := all[n - 1], Cut(Kept(m, all, n - 1), begin, end, diff);
            Cut(Kept(m, all, n), begin, end, diff) ==
              if !Wanted(m, tag) then front
              else
                match Track(tag, all[n..])
                case None => front
                case Some(id) => if begin <= id < end then front + [tag.(id := (id + diff) as nat)] else front
  {
    hide Track, Kept, Cut;
    var tag := all[n - 1];
    KeptNext(m, all, n);
    if Wanted(m, tag) {
      CutAppend(Kept(m, all, n - 1), Renumbered(tag, Track(tag, all[n..])), begin, end, diff);
    } else {
      assert Kept(m, all, n) == Kept(m, all, n - 1);
    }
  }

  lemma NothingKept(m: Mode, all: seq<Entry>, begin: nat, end: nat, diff: int)
    requires AllWellFormed(all) && begin + diff >= 0
    ensures Cut(Kept(m, all, 0), begin, end, diff) == []
  {
  }

  lemma CutAppend(a: seq<Entry>, b: seq<Entry>, begin: nat, end: nat, diff: int)
    requires begin + diff >= 0 && |b| <= 1
    ensures Cut(a + b, begin, end, diff) == Cut(a, begin, end, diff) +
            (if |b| == 1 && begin <= b[0].id < end then [b[0].(id := (b[0].id + diff) as nat)] else [])
  {
    if |b| == 1 {
      assert (a + b)[..|a|] == a;
    } else {
      assert a + b == a;
    }
  }
}
