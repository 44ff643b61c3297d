/**
  Global state (lfs.c:320-364, lfs.c:3955-3967): a sync bit and a pending move, kept as the xor
  of deltas spread over the metadata pairs. The number of orphans in the low bits of the copy in
  memory never reaches the disk and is a field of its own in the model.
 */
module Gstate {
  import opened Crc
  import opened Tag
  import opened Optional

  /** A metadata pair, by its two block addresses. */
  datatype Pair = Pair(b0: Word, b1: Word)

  /** An entry that is to be deleted because it was moved. */
  datatype Move = Move(id: nat, pair: Pair)

  /** struct lfs_gstate */
  datatype Gstate = Gstate(tag: Word, b0: Word, b1: Word)

  const NOTHING := Gstate(ZERO, ZERO, ZERO)

  const SYNC := Gstate(TOP, ZERO, ZERO)

  /** lfs_gstate_xor */
  function Fold(a: Gstate, b: Gstate): Gstate {
    Gstate(Xor(a.tag, b.tag), Xor(a.b0, b.b0), Xor(a.b1, b.b1))
  }

  lemma FoldCommutes(a: Gstate, b: Gstate)
    ensures Fold(a, b) == Fold(b, a)
  {
    hide Xor;
    XorCommutes(a.tag, b.tag);
    XorCommutes(a.b0, b.b0);
    XorCommutes(a.b1, b.b1);
  }

  lemma FoldAssociates(a: Gstate, b: Gstate, c: Gstate)
    ensures Fold(Fold(a, b), c) == Fold(a, Fold(b, c))
  {
    hide Xor;
    XorAssociates(a.tag, b.tag, c.tag);
    XorAssociates(a.b0, b.b0, c.b0);
    XorAssociates(a.b1, b.b1, c.b1);
  }

  lemma FoldNothing(a: Gstate)
    ensures Fold(a, NOTHING) == a && Fold(NOTHING, a) == a
  {
    hide Xor;
    FoldCommutes(a, NOTHING);
    XorZero(a.tag);
    XorZero(a.b0);
    XorZero(a.b1);
  }

  lemma FoldSelf(a: Gstate, b: Gstate)
    ensures Fold(a, b) == NOTHING <==> a == b
  {
    hide Xor;
    XorSelf(a.tag, b.tag);
    XorSelf(a.b0, b.b0);
    XorSelf(a.b1, b.b1);
  }

  // ----- the words of the global state -----

  function TopBits(x: bv32): bv32 { x & 0x8000_0000 }

  function MoveBits(x: bv32): bv32 { x & 0x7fff_fc00 }

  predicate TypeBits(x: bv32) { x & 0x7000_0000 != 0 }

  function IdBits(x: bv32): bv32 { (x >> 10) & 0x3ff }

  function DeleteBits(field: bv32): bv32 { 0x4ff0_0000 | (field << 10) }

  function SyncTag(orphans: bool): Word { if orphans then TOP else ZERO }

  predicate MoveOk(m: Option<Move>) { m.Some? ==> m.value.id < 0x3ff }

  /** LFS_MKTAG(LFS_TYPE_DELETE, id, 0), or 0 for no move. */
  function MoveTag(m: Option<Move>): Word
    requires MoveOk(m)
  {
    if m.Some? then Word(DeleteBits(Field(m.value.id))) else ZERO
  }

  function Block0(m: Option<Move>): Word { if m.Some? then m.value.pair.b0 else ZERO }

  function Block1(m: Option<Move>): Word { if m.Some? then m.value.pair.b1 else ZERO }

  /** The global state that says whether there are orphans and what was moved. */
  function State(orphans: bool, m: Option<Move>): Gstate
    requires MoveOk(m)
  {
    Gstate(Xor(SyncTag(orphans), MoveTag(m)), Block0(m), Block1(m))
  }

  /** The sync bit of a global state. */
  predicate HasSync(g: Gstate) { !IsValid(g.tag) }

  /** lfs_gstate_hasmove */
  predicate HasMove(g: Gstate) { TypeBits(g.tag.bits) }

  /** lfs_gstate_hasmovehere; distinct pairs share no block. */
  predicate HasMoveHere(g: Gstate, pair: Pair) { HasMove(g) && Pair(g.b0, g.b1) == pair }

  /** lfs_tag_id of the move. */
  function MoveId(g: Gstate): nat { Low10(IdBits(g.tag.bits)) }

  /** What lfs_gstate_xororphans folds into a state. */
  function OrphansChange(b: Gstate, orphans: bool): Gstate {
    Gstate(Word(TopBits(Xor(b.tag, SyncTag(orphans)).bits)), ZERO, ZERO)
  }

  /** What lfs_gstate_xormove folds into a state. */
  function MoveChange(b: Gstate, m: Option<Move>): Gstate
    requires MoveOk(m)
  {
    Gstate(Word(MoveBits(Xor(b.tag, MoveTag(m)).bits)), Xor(b.b0, Block0(m)), Xor(b.b1, Block1(m)))
  }

  // ----- masks -----

  lemma TopOfThree(s: bv32, m: bv32, s': bv32)
    requires MoveBits(m) == m && TopBits(s) == s && TopBits(s') == s'
    ensures TopBits(XorBits(XorBits(s, m), s')) == XorBits(s, s')
  {
  }

  lemma MoveLinear(x: bv32, y: bv32)
    ensures MoveBits(XorBits(x, y)) == XorBits(MoveBits(x), MoveBits(y))
  {
    MoveLinearRaw(x, y);
  }

  lemma MoveLinearRaw(x: bv32, y: bv32)
    ensures (x ^ y) & 0x7fff_fc00 == (x & 0x7fff_fc00) ^ (y & 0x7fff_fc00)
  {
  }

  lemma TopHasNoMove(s: bv32)
    ensures MoveBits(TopBits(s)) == 0
  {
  }

  lemma ZeroFirst(x: bv32)
    ensures XorBits(0, x) == x
  {
  }

  lemma MoveOfThree(s: bv32, m: bv32, m': bv32)
    requires MoveBits(m) == m && TopBits(s) == s && MoveBits(m') == m'
    ensures MoveBits(XorBits(XorBits(s, m), m')) == XorBits(m, m')
  {
    hide MoveBits, TopBits, XorBits;
    MoveLinear(XorBits(s, m), m');
    MoveLinear(s, m);
    TopHasNoMove(s);
    ZeroFirst(m);
  }

  lemma DeleteIsMove(field: bv32)
    requires LowField(field) == field
    ensures MoveBits(DeleteBits(field)) == DeleteBits(field)
  {
  }

  lemma DeleteHasType(s: bv32, field: bv32)
    requires LowField(field) == field && TopBits(s) == s
    ensures TypeBits(XorBits(s, DeleteBits(field)))
  {
  }

  lemma DeleteHasId(s: bv32, field: bv32)
    requires LowField(field) == field && TopBits(s) == s
    ensures IdBits(XorBits(s, DeleteBits(field))) == field
  {
  }

  lemma MoveKeepsTop(s: bv32, m: bv32)
    requires MoveBits(m) == m && TopBits(s) == s
    ensures ValidBits(XorBits(s, m)) <==> s == 0
  {
  }

  lemma SyncTagTop(orphans: bool)
    ensures TopBits(SyncTag(orphans).bits) == SyncTag(orphans).bits
    ensures SyncTag(orphans).bits == 0 <==> !orphans
    ensures !TypeBits(SyncTag(orphans).bits)
  {
  }

  lemma MoveTagMove(m: Option<Move>)
    requires MoveOk(m)
    ensures MoveBits(MoveTag(m).bits) == MoveTag(m).bits
  {
    if m.Some? {
      FieldIsLow(m.value.id);
      DeleteIsMove(Field(m.value.id));
    }
    hide *;
  }

  /** A state says what it was made from. */
  lemma StateReads(orphans: bool, m: Option<Move>)
    requires MoveOk(m)
    ensures HasSync(State(orphans, m)) <==> orphans
    ensures HasMove(State(orphans, m)) <==> m.Some?
    ensures m.Some? ==> MoveId(State(orphans, m)) == m.value.id
                        && Pair(State(orphans, m).b0, State(orphans, m).b1) == m.value.pair
  {
    hide TopBits, MoveBits, TypeBits, IdBits, DeleteBits, XorBits, ValidBits, Field, Low10, LowField, SyncTag;
    var s := SyncTag(orphans).bits;
    SyncTagTop(orphans);
    MoveTagMove(m);
    MoveKeepsTop(s, MoveTag(m).bits);
    if m.Some? {
      var f := Field(m.value.id);
      FieldIsLow(m.value.id);
      DeleteHasType(s, f);
      DeleteHasId(s, f);
      FieldRoundTrip(m.value.id);
    } else {
      XorZero(SyncTag(orphans));
    }
  }

  /** lfs_gstate_xororphans sets the sync bit and nothing else. */
  lemma OrphansSet(orphans: bool, m: Option<Move>, orphans': bool)
    requires MoveOk(m)
    ensures Fold(State(orphans, m), OrphansChange(State(orphans, m), orphans')) == State(orphans', m)
  {
    hide TopBits, MoveBits, XorBits, SyncTag, MoveTag;
    var s, t, s' := SyncTag(orphans), MoveTag(m), SyncTag(orphans');
    SyncTagTop(orphans);
    SyncTagTop(orphans');
    MoveTagMove(m);
    TopOfThree(s.bits, t.bits, s'.bits);
    Replace(s, t, s');
    XorZero(Block0(m));
    XorZero(Block1(m));
  }

  lemma Replace(s: Word, t: Word, s': Word)
    ensures Xor(Xor(s, t), Xor(s, s')) == Xor(s', t)
    ensures Xor(Xor(s, t), Xor(t, s')) == Xor(s, s')
  {
    hide Xor;
    XorCommutes(s, t);
    XorAssociates(t, s, Xor(s, s'));
    XorAssociates(s, s, s');
    XorSelf(s, s);
    XorCommutes(ZERO, s');
    XorZero(s');
    XorCommutes(t, s');
    XorAssociates(s, t, Xor(t, s'));
    XorAssociates(t, t, s');
    XorSelf(t, t);
  }

  /** lfs_gstate_xormove replaces the move and keeps the sync bit. */
  lemma MoveSet(orphans: bool, m: Option<Move>, m': Option<Move>)
    requires MoveOk(m) && MoveOk(m')
    ensures Fold(State(orphans, m), MoveChange(State(orphans, m), m')) == State(orphans, m')
  {
    hide TopBits, MoveBits, XorBits, SyncTag, MoveTag;
    var s, t, t' := SyncTag(orphans), MoveTag(m), MoveTag(m');
    SyncTagTop(orphans);
    MoveTagMove(m);
    MoveTagMove(m');
    MoveOfThree(s.bits, t.bits, t'.bits);
    Replace(s, t, t');
    XorTurns(Block0(m), Block0(m'));
    XorTurns(Block1(m), Block1(m'));
  }

  lemma XorTurns(a: Word, b: Word)
    ensures Xor(a, Xor(a, b)) == b
  {
    hide Xor;
    XorAssociates(a, a, b);
    XorSelf(a, a);
    XorCommutes(ZERO, b);
    XorZero(b);
  }

  /** The state with nothing in it is all zeros, and with only orphans it is the sync bit. */
  lemma PlainStates()
    ensures State(false, None) == NOTHING && State(true, None) == SYNC
  {
    hide Xor;
    XorZero(ZERO);
    XorZero(TOP);
  }

  /** Counting the first orphan, or the last one off, folds in the sync bit, whatever is being moved. */
  lemma OrphansChangeIs(orphans: bool, m: Option<Move>, orphans': bool)
    requires MoveOk(m)
    ensures OrphansChange(State(orphans, m), orphans') == if orphans == orphans' then NOTHING else SYNC
  {
    hide TopBits, MoveBits, XorBits, MoveTag;
    var s, t, s' := SyncTag(orphans), MoveTag(m), SyncTag(orphans');
    SyncTagTop(orphans);
    SyncTagTop(orphans');
    MoveTagMove(m);
    TopOfThree(s.bits, t.bits, s'.bits);
    XorZero(TOP);
    XorSelf(TOP, TOP);
    XorSelf(ZERO, ZERO);
    XorCommutes(TOP, ZERO);
  }

  lemma SyncChanges()
    ensures OrphansChange(NOTHING, true) == SYNC && OrphansChange(SYNC, false) == SYNC
    ensures Fold(NOTHING, SYNC) == SYNC && Fold(SYNC, SYNC) == NOTHING
  {
    hide Fold, OrphansChange, State;
    PlainStates();
    OrphansChangeIs(false, None, true);
    OrphansChangeIs(true, None, false);
    FoldNothing(SYNC);
    FoldSelf(SYNC, SYNC);
  }

  // ----- folding a delta into a pair -----

  /**
    A commit folds its delta into what the pair stores. If an append folds it and then fails,
    the compaction that follows folds again (lfs.c:1766-1779, then lfs.c:1533): what is
    stored is right exactly if the pair stored nothing.
   */
  lemma FoldedTwice(delta: Gstate, stored: Gstate)
    ensures Fold(Fold(delta, stored), stored) == Fold(stored, delta) <==> stored == NOTHING
  {
    hide Fold;
    FoldAssociates(delta, stored, stored);
    FoldSelf(stored, stored);
    FoldNothing(delta);
    FoldCommutes(stored, delta);
    // delta == delta + stored only for nothing
    FoldAssociates(delta, delta, stored);
    FoldSelf(delta, delta);
    FoldNothing(stored);
    FoldSelf(delta, Fold(delta, stored));
  }

  /**
    A rename while memory still has a move pending that the disk has not: what its two commits fold
    in puts that move on the disk.
   */
  lemma StaleMoveReturns(orphans: bool, lag: Option<Move>, m: Option<Move>)
    requires MoveOk(lag) && MoveOk(m)
    ensures Fold(Fold(State(orphans, None), MoveChange(State(orphans, lag), m)), MoveChange(State(orphans, m), None)) ==
              State(orphans, lag)
    ensures State(orphans, lag) == State(orphans, None) <==> lag == None
  {
    hide Fold, State, MoveChange;
    var a, l, n := State(orphans, m), State(orphans, lag), State(orphans, None);
    var c, d := MoveChange(l, m), MoveChange(a, None);
    MoveSet(orphans, lag, m);
    MoveSet(orphans, m, None);
    StateReads(orphans, lag);
    StateReads(orphans, None);
    // c == l + a and d == a + n
    Solve(l, c, a);
    Solve(a, d, n);
    FoldAssociates(n, Fold(l, a), Fold(a, n));
    FoldAssociates(Fold(l, a), a, n);
    FoldAssociates(l, a, a);
    FoldSelf(a, a);
    FoldNothing(l);
    FoldCommutes(n, Fold(l, n));
    FoldAssociates(l, n, n);
    FoldSelf(n, n);
  }

  lemma Solve(x: Gstate, c: Gstate, y: Gstate)
    requires Fold(x, c) == y
    ensures c == Fold(x, y)
  {
    hide Fold;
    FoldAssociates(x, x, c);
    FoldSelf(x, x);
    FoldNothing(c);
  }
}
