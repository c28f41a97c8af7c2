/**
 The random-access priority queue with its cursors (shared/randpq.h).

 Cursors on the same place may share one position, counted by `refcount` and split off
 only when one of them moves. `View` forgets the sharing: it gives each live cursor its
 own (target, valid) pair, plus whether it shares the position of the queue's begin
 cursor. Every method is stated on `View`, so a cursor that an operation does not name is
 seen to keep its value, except for what begin() and erase() are meant to do.

 Positions and cursors are named by numbers; a position number stands for an iterator of
 the list of positions, whose order nothing depends on.
 */
module RandPq {
  import opened QueueModel

  type CursorId = nat
  type PosId = nat

  datatype Position = Position(pos: Iter, refcount: int, invalid: bool)

  /** The cursors that hold a position. */
  ghost function Refs(refs: map<CursorId, PosId>, p: PosId): set<CursorId> {
    set c | c in refs && refs[c] == p
  }

  ghost predicate Covers(positions: map<PosId, Position>, refs: map<CursorId, PosId>) {
    forall c :: c in refs ==> refs[c] in positions
  }

  /** Counts are exact, no position is kept that no cursor holds, and a valid position is on an entry or at the end. */
  ghost predicate Balanced(es: seq<Entry>, positions: map<PosId, Position>, refs: map<CursorId, PosId>) {
    && Covers(positions, refs)
    && (forall p :: p in positions && positions[p].pos.At? && !positions[p].invalid ==> Has(es, positions[p].pos.node))
    && (forall p {:trigger Counted(positions, refs, p)} :: Counted(positions, refs, p))
  }

  ghost predicate Counted(positions: map<PosId, Position>, refs: map<CursorId, PosId>, p: PosId) {
    p in positions ==> positions[p].refcount == |Refs(refs, p)| > 0
  }

  ghost function View(positions: map<PosId, Position>, refs: map<CursorId, PosId>, begin: CursorId): map<CursorId,
          CursorVal>
    requires begin in refs && Covers(positions, refs)
  {
    map c | c in refs :: CursorVal(positions[refs[c]].pos, !positions[refs[c]].invalid, refs[c] == refs[begin])
  }

  /** release(): one holder less; the position goes with the last one. */
  function DecRef(positions: map<PosId, Position>, p: PosId): map<PosId, Position>
    requires p in positions
  {
    var pos := positions[p].(refcount := positions[p].refcount - 1);
    if pos.refcount <= 0 then positions - {p} else positions[p := pos]
  }

  lemma {:induction false} DropKeeps(es: seq<Entry>, positions: map<PosId, Position>, refs: map<CursorId, PosId>,
          c: CursorId)
    requires Balanced(es, positions, refs) && c in refs
    ensures Balanced(es, DecRef(positions, refs[c]), refs - {c})
  {
    var p, refs', positions' := refs[c], refs - {c}, DecRef(positions, refs[c]);
    assert Counted(positions, refs, p);
    assert Refs(refs', p) == Refs(refs, p) - {c};
    forall d | d in refs' ensures refs'[d] in positions' {
      if refs[d] == p {
        assert {c, d} <= Refs(refs, p);
        assert |Refs(refs, p)| >= |{c, d}| == 2 by { Subset({c, d}, Refs(refs, p)); }
      }
    }
    forall q ensures Counted(positions', refs', q) {
      assert Counted(positions, refs, q);
      if q != p {
        assert Refs(refs', q) == Refs(refs, q);
      }
    }
  }

  lemma {:induction false} Subset<T>(a: set<T>, b: set<T>)
    requires a <= b
    ensures |a| <= |b|
  {
    assert b == a + (b - a);
  }

  lemma {:induction false} OtherRefs(refs: map<CursorId, PosId>, c: CursorId, p: PosId, q: PosId)
    requires c !in refs && q != p
    ensures Refs(refs[c := p], q) == Refs(refs, q)
  {
  }

  lemma {:induction false} ShareKeeps(es: seq<Entry>, positions: map<PosId, Position>, refs: map<CursorId, PosId>,
          c: CursorId, p: PosId)
    requires Balanced(es, positions, refs) && c !in refs && p in positions
    ensures Balanced(es, positions[p := positions[p].(refcount := positions[p].refcount + 1)], refs[c := p])
  {
    var positions', refs' := positions[p := positions[p].(refcount := positions[p].refcount + 1)], refs[c := p];
    assert Refs(refs', p) == Refs(refs, p) + {c};
    forall q ensures Counted(positions', refs', q) {
      assert Counted(positions, refs, q);
      if q != p {
        OtherRefs(refs, c, p, q);
      }
    }
  }

  lemma {:induction false} FreshKeeps(es: seq<Entry>, positions: map<PosId, Position>, refs: map<CursorId, PosId>,
          c: CursorId, p: PosId, it: Iter)
    requires Balanced(es, positions, refs) && c !in refs && p !in positions
    requires it.At? ==> Has(es, it.node)
    ensures Balanced(es, positions[p := Position(it, 1, false)], refs[c := p])
  {
    var positions', refs' := positions[p := Position(it, 1, false)], refs[c := p];
    assert Refs(refs', p) == {c};
    forall q ensures Counted(positions', refs', q) {
      assert Counted(positions, refs, q);
      if q != p {
        OtherRefs(refs, c, p, q);
      }
    }
  }

  /** A position with one holder is held by nobody else. */
  lemma {:induction false} SingleHolder(es: seq<Entry>, positions: map<PosId, Position>, refs: map<CursorId, PosId>,
          c: CursorId)
    requires Balanced(es, positions, refs) && c in refs && positions[refs[c]].refcount == 1
    ensures forall d :: d in refs && refs[d] == refs[c] ==> d == c
  {
    assert Counted(positions, refs, refs[c]);
    forall d | d in refs && refs[d] == refs[c] ensures d == c {
      Subset({c, d}, Refs(refs, refs[c]));
    }
  }

  /** A position with several holders survives the loss of one, and no other cursor's value changes. */
  lemma {:induction false} DropView(es: seq<Entry>, positions: map<PosId, Position>, refs: map<CursorId, PosId>,
          begin: CursorId, c: CursorId)
    requires Balanced(es, positions, refs) && begin in refs && c in refs && c != begin
    ensures Balanced(es, DecRef(positions, refs[c]), refs - {c})
    ensures View(DecRef(positions, refs[c]), refs - {c}, begin) == View(positions, refs, begin) - {c}
  {
    DropKeeps(es, positions, refs, c);
  }

  lemma {:induction false} ShareView(es: seq<Entry>, positions: map<PosId, Position>, refs: map<CursorId, PosId>,
          begin: CursorId, c: CursorId, src: CursorId)
    requires Balanced(es, positions, refs) && begin in refs && c !in refs && src in refs
    ensures var positions' :=
      positions[refs[src] := positions[refs[src]].(refcount := positions[refs[src]].refcount + 1)];
      View(positions', refs[c := refs[src]], begin) ==
        View(positions, refs, begin)[c := View(positions, refs, begin)[src]]
  {
  }

  lemma {:induction false} FreshView(es: seq<Entry>, positions: map<PosId, Position>, refs: map<CursorId, PosId>,
          begin: CursorId, c: CursorId, p: PosId, it: Iter)
    requires Balanced(es, positions, refs) && begin in refs && c !in refs && p !in positions
    ensures View(positions[p := Position(it, 1, false)], refs[c := p], begin) ==
      View(positions, refs, begin)[c := CursorVal(it, true, false)]
  {
  }

  lemma {:induction false} SplitBalanced(es: seq<Entry>, positions: map<PosId, Position>, refs: map<CursorId, PosId>,
          c: CursorId, p: PosId)
    requires Balanced(es, positions, refs) && c in refs && p !in positions && !positions[refs[c]].invalid
    ensures Balanced(es, DecRef(positions, refs[c])[p := Position(positions[refs[c]].pos, 1, false)], refs[c := p])
  {
    DropKeeps(es, positions, refs, c);
    FreshKeeps(es, DecRef(positions, refs[c]), refs - {c}, c, p, positions[refs[c]].pos);
    assert (refs - {c})[c := p] == refs[c := p];
  }

  lemma {:induction false} SplitView(es: seq<Entry>, positions: map<PosId, Position>, refs: map<CursorId, PosId>,
          begin: CursorId, c: CursorId, p: PosId)
    requires Balanced(es, positions, refs) && begin in refs && c in refs && c != begin
    requires p !in positions && !positions[refs[c]].invalid
    ensures Covers(DecRef(positions, refs[c])[p := Position(positions[refs[c]].pos, 1, false)], refs[c := p])
    ensures View(DecRef(positions, refs[c])[p := Position(positions[refs[c]].pos, 1, false)], refs[c := p], begin)
      == View(positions, refs, begin)[c := View(positions, refs, begin)[c].(tied := false)]
  {
    DropView(es, positions, refs, begin, c);
    FreshView(es, DecRef(positions, refs[c]), refs - {c}, begin, c, p, positions[refs[c]].pos);
    assert (refs - {c})[c := p] == refs[c := p];
  }

  /** The copy in copy-on-write. */
  lemma {:induction false} SplitKeeps(es: seq<Entry>, positions: map<PosId, Position>, refs: map<CursorId, PosId>,
          begin: CursorId, c: CursorId, p: PosId)
    requires Balanced(es, positions, refs) && begin in refs && c in refs && c != begin
    requires p !in positions && !positions[refs[c]].invalid
    ensures var positions', refs' :=
      DecRef(positions, refs[c])[p := Position(positions[refs[c]].pos, 1, false)], refs[c := p];
      && Balanced(es, positions', refs')
      && View(positions', refs', begin) ==
        View(positions, refs, begin)[c := View(positions, refs, begin)[c].(tied := false)]
      && forall d :: d in refs' && refs'[d] == p ==> d == c
  {
    SplitBalanced(es, positions, refs, c, p);
    SplitView(es, positions, refs, begin, c, p);
  }

  /** Moving a position that only one cursor holds. */
  lemma {:induction false} MoveKeeps(es: seq<Entry>, positions: map<PosId, Position>, refs: map<CursorId, PosId>,
          begin: CursorId, c: CursorId, it: Iter)
    requires Balanced(es, positions, refs) && begin in refs && c in refs && c != begin
    requires forall d :: d in refs && refs[d] == refs[c] ==> d == c
    requires it.At? ==> Has(es, it.node)
    ensures var positions' := positions[refs[c] := positions[refs[c]].(pos := it)];
      && Balanced(es, positions', refs)
      && View(positions', refs, begin) ==
        View(positions, refs, begin)[c := View(positions, refs, begin)[c].(target := it)]
  {
    var positions' := positions[refs[c] := positions[refs[c]].(pos := it)];
    forall q ensures Counted(positions', refs, q) {
      assert Counted(positions, refs, q);
    }
  }

  /** Rewriting a position that is on no entry but the front, or at the end. */
  lemma {:induction false} ResetKeeps(es: seq<Entry>, positions: map<PosId, Position>, refs: map<CursorId, PosId>,
          p: PosId, it: Iter)
    requires Balanced(es, positions, refs) && p in positions && (it.At? ==> Has(es, it.node))
    ensures Balanced(es, positions[p := positions[p].(pos := it, invalid := false)], refs)
  {
    var positions' := positions[p := positions[p].(pos := it, invalid := false)];
    forall q ensures Counted(positions', refs, q) {
      assert Counted(positions, refs, q);
    }
  }

  lemma {:induction false} InvalidateView(positions: map<PosId, Position>, refs: map<CursorId, PosId>, begin: CursorId,
          node: nat)
    requires begin in refs && Covers(positions, refs)
    ensures View(InvalidateAt(positions, node), refs, begin) == Invalidate(View(positions, refs, begin), node)
  {
  }

  lemma {:induction false} InvalidateKeeps(es: seq<Entry>, positions: map<PosId, Position>, refs: map<CursorId, PosId>,
          node: nat)
    requires Balanced(es, positions, refs) && Unique(es)
    ensures Balanced(Remove(es, node), InvalidateAt(positions, node), refs)
  {
    RemoveNodes(es, node);
    forall q ensures Counted(InvalidateAt(positions, node), refs, q) {
      assert Counted(positions, refs, q);
    }
  }

  function InvalidateAt(positions: map<PosId, Position>, node: nat): map<PosId, Position> {
    map p | p in positions :: if positions[p].pos == At(node) then positions[p].(invalid := true) else positions[p]
  }

  class RaPriorityQueue {
    var storage: seq<Entry>
    var nextNode: nat
    var positions: map<PosId, Position>
    var refs: map<CursorId, PosId>
    const begin: CursorId := 0
    const end: CursorId := 1
    var nextCursor: CursorId
    var nextPos: PosId

    ghost predicate Valid()
      reads this
    {
      && ListOk(storage, nextNode)
      && Balanced(storage, positions, refs)
      && begin in refs && end in refs && refs[begin] != refs[end]
      && (forall c :: c in refs ==> c < nextCursor)
      && (forall p :: p in positions ==> p < nextPos)
      && positions[refs[end]].pos == End && !positions[refs[end]].invalid
    }

    ghost function Cursors(): map<CursorId, CursorVal>
      requires Valid()
      reads this
    {
      View(positions, refs, begin)
    }

    /** The cursors that users of the queue hold. */
    ghost predicate User(c: CursorId)
      reads this
    {
      c in refs && c != begin && c != end
    }

    constructor ()
      ensures Valid() && storage == [] && refs.Keys == {begin, end}
    {
      storage, nextNode := [], 0;
      positions := map[0 := Position(End, 1, false), 1 := Position(End, 1, false)];
      refs := map[0 := 0, 1 := 1];
      nextCursor, nextPos := 2, 2;
      new;
      assert Refs(refs, 0) == {0} && Refs(refs, 1) == {1};
    }

    // ---------- positions ----------

    method GetPosition(it: Iter) returns (p: PosId)
      modifies this`positions, this`nextPos
      ensures p == old(nextPos) && nextPos == p + 1
      ensures positions == old(positions)[p := Position(it, 1, false)]
    {
      p := nextPos;
      nextPos := nextPos + 1;
      positions := positions[p := Position(it, 0, false)];
      positions := positions[p := positions[p].(refcount := positions[p].refcount + 1)];
    }

    method ReleasePosition(p: PosId)
      requires p in positions
      modifies this`positions
      ensures positions == DecRef(old(positions), p)
    {
      positions := positions[p := positions[p].(refcount := positions[p].refcount - 1)];
      if positions[p].refcount <= 0 {
        positions := positions - {p};
      }
    }

    // ---------- cursors ----------

    /** ~cursor, and the first half of an assignment. */
    method Release(c: CursorId)
      requires Valid() && User(c)
      modifies this`positions, this`refs
      ensures Valid()
      ensures refs == old(refs) - {c}
      ensures Cursors() == old(Cursors()) - {c}
    {
      DropView(storage, positions, refs, begin, c);
      ReleasePosition(refs[c]);
      refs := refs - {c};
    }

    /** The second half: the cursor takes part in another's position. */
    method Share(dst: CursorId, src: CursorId)
      requires Valid() && src in refs && dst !in refs && dst < nextCursor
      modifies this`positions, this`refs
      ensures Valid()
      ensures Cursors() == old(Cursors())[dst := old(Cursors())[src]]
    {
      var p := refs[src];
      ShareKeeps(storage, positions, refs, dst, p);
      ShareView(storage, positions, refs, begin, dst, src);
      positions := positions[p := positions[p].(refcount := positions[p].refcount + 1)];
      refs := refs[dst := p];
    }

    /** Assignment of a cursor. One that is assigned to itself is left without a position. */
    method Copy(dst: CursorId, src: CursorId)
      requires Valid() && src in refs
      requires User(dst) || (dst !in refs && dst < nextCursor)
      modifies this`positions, this`refs
      ensures Valid()
      ensures Cursors() == if dst == src then old(Cursors()) - {dst} else old(Cursors())[dst := old(Cursors())[src]]
    {
      if dst in refs {
        Release(dst);
      }
      if src in refs {
        Share(dst, src);
      }
    }

    /** The cursor gets a position of its own if it shares one. */
    method MakeWritable(c: CursorId)
      requires Valid() && User(c) && Cursors()[c].valid
      modifies this`positions, this`refs, this`nextPos
      ensures Valid() && User(c) && positions[refs[c]].pos == old(positions[refs[c]].pos)
      ensures forall d :: d in refs && refs[d] == refs[c] ==> d == c
      ensures Cursors() == old(Cursors())[c := old(Cursors())[c].(tied := false)]
    {
      var p := refs[c];
      if positions[p].refcount == 1 {
        SingleHolder(storage, positions, refs, c);
      } else {
        var it := positions[p].pos;
        SplitKeeps(storage, positions, refs, begin, c, nextPos);
        ReleasePosition(p);
        p := GetPosition(it);
        refs := refs[c := p];
      }
    }

    method Move(c: CursorId, it: Iter)
      requires Valid() && User(c)
      requires forall d :: d in refs && refs[d] == refs[c] ==> d == c
      requires it.At? ==> Has(storage, it.node)
      modifies this`positions
      ensures Valid()
      ensures Cursors() == old(Cursors())[c := old(Cursors())[c].(target := it)]
    {
      MoveKeeps(storage, positions, refs, begin, c, it);
      positions := positions[refs[c] := positions[refs[c]].(pos := it)];
    }

    /** operator++ */
    method Advance(c: CursorId)
      requires Valid() && User(c)
      requires Cursors()[c].valid && Cursors()[c].target.At?
      modifies this`positions, this`refs, this`nextPos
      ensures Valid()
      ensures Cursors() == old(Cursors())[c := CursorVal(Next(storage, old(Cursors()[c].target.node)), true, false)]
    {
      var node := positions[refs[c]].pos.node;
      NextStays(storage, node);
      MakeWritable(c);
      Move(c, Next(storage, node));
    }

    /** begin(): rewrites the shared position in place. */
    method Begin() returns (c: CursorId)
      requires Valid()
      modifies this`positions
      ensures Valid() && c == begin
      ensures Cursors() == Retarget(old(Cursors()), First(storage))
    {
      ResetKeeps(storage, positions, refs, refs[begin], First(storage));
      positions := positions[refs[begin] := positions[refs[begin]].(pos := First(storage), invalid := false)];
      c := begin;
    }

    /** end(): rewriting its position changes no cursor. */
    method EndCursor() returns (c: CursorId)
      requires Valid()
      modifies this`positions
      ensures Valid() && c == end
      ensures Cursors() == old(Cursors()) && Cursors()[end] == CursorVal(End, true, false)
    {
      ResetKeeps(storage, positions, refs, refs[end], End);
      positions := positions[refs[end] := positions[refs[end]].(pos := End, invalid := false)];
      c := end;
    }

    // ---------- entries ----------

    /** Walks back from the end over the entries that the item precedes. */
    method LowerBound(item: QueueIndex) returns (i: nat)
      ensures i == InsertPos(Items(storage), item)
    {
      ghost var xs := Items(storage);
      i := |storage|;
      assert xs[..i] == xs;
      while i > 0 && Less(item, storage[i - 1].item)
        invariant i <= |xs| && InsertPos(xs[..i], item) == InsertPos(xs, item)
      {
        assert xs[..i][..i - 1] == xs[..i - 1];
        i := i - 1;
      }
    }

    /** A new cursor on an entry or at the end. */
    method NewCursor(it: Iter) returns (c: CursorId)
      requires Valid()
      requires it.At? ==> Has(storage, it.node)
      modifies this`positions, this`refs, this`nextPos, this`nextCursor
      ensures Valid() && c == old(nextCursor)
      ensures Cursors() == old(Cursors())[c := CursorVal(it, true, false)]
    {
      c := nextCursor;
      FreshKeeps(storage, positions, refs, c, nextPos, it);
      FreshView(storage, positions, refs, begin, c, nextPos, it);
      nextCursor := nextCursor + 1;
      var p := GetPosition(it);
      refs := refs[c := p];
    }

    method Enqueue(item: QueueIndex) returns (c: CursorId)
      requires Valid()
      modifies this
      ensures Valid() && c == old(nextCursor) && nextNode == old(nextNode) + 1
      ensures storage == Insert(old(storage), Entry(old(nextNode), item))
      ensures Cursors() == old(Cursors())[c := CursorVal(At(old(nextNode)), true, false)]
    {
      var i := LowerBound(item);
      var e := Entry(nextNode, item);
      InsertOk(storage, e);
      InsertNodes(storage, e);
      storage := storage[..i] + [e] + storage[i..];
      nextNode := nextNode + 1;
      c := NewCursor(At(e.node));
    }

    method InvalidateAll(node: nat)
      modifies this`positions
      ensures positions == InvalidateAt(old(positions), node)
    {
      var rest := positions.Keys;
      while rest != {}
        invariant rest <= positions.Keys == old(positions).Keys
        invariant forall p :: p in positions ==>
          positions[p] == if p in rest then old(positions)[p] else InvalidateAt(old(positions), node)[p]
      {
        var p :| p in rest;
        if !positions[p].invalid && positions[p].pos == At(node) {
          positions := positions[p := positions[p].(invalid := true)];
        }
        rest := rest - {p};
      }
    }

    /**
     Erases the entry under a valid cursor: exactly that entry goes, exactly the cursors
     on it become invalid, and the result is on the next entry. Through an invalid cursor
     nothing is erased.
     */
    method Erase(cur: CursorId) returns (c: CursorId)
      requires Valid() && cur in refs
      requires Cursors()[cur].valid ==> Cursors()[cur].target.At?
      modifies this
      ensures Valid() && c == old(nextCursor)
      ensures var v := old(Cursors()[cur]);
        if v.valid then
          && storage == Remove(old(storage), v.target.node)
          && Cursors() ==
            Invalidate(old(Cursors()), v.target.node)[c := CursorVal(Next(old(storage), v.target.node), true, false)]
        else
          storage == old(storage) && Cursors() == old(Cursors())[c := CursorVal(End, true, false)]
    {
      if !positions[refs[cur]].invalid {
        var node := positions[refs[cur]].pos.node;
        RemoveOk(storage, nextNode, node);
        RemoveNodes(storage, node);
        NextStays(storage, node);
        InvalidateKeeps(storage, positions, refs, node);
        InvalidateView(positions, refs, begin, node);
        var next := Next(storage, node);
        InvalidateAll(node);
        storage := Remove(storage, node);
        c := NewCursor(next);
      } else {
        var e := EndCursor();
        c := nextCursor;
        nextCursor := nextCursor + 1;
        Copy(c, e);
      }
    }
  }
}
