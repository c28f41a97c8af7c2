/**
 QStorage's cursor loops (openCursor and seekID in QStorage.cpp) run on the real index, a
 RaPriorityQueue with shared positions. They come out as the specification in QueueOps says
 they do on plain (target, valid, tied) values, and leave every other cursor as it was.
 */
module IndexCursors {
  import opened Bytes
  import opened QueueModel
  import opened QueueOps
  import opened RandPq

  /** A cursor variable that is not on any queue yet. */
  method Declare(q: RaPriorityQueue) returns (c: CursorId)
    requires q.Valid()
    modifies q`nextCursor
    ensures q.Valid() && c == old(q.nextCursor) && c !in q.refs && c < q.nextCursor && q.Cursors() == old(q.Cursors())
  {
    c := q.nextCursor;
    q.nextCursor := c + 1;
  }

  /** The place of a valid cursor. */
  method Target(q: RaPriorityQueue, c: CursorId) returns (it: Iter)
    requires q.Valid() && c in q.refs
    ensures it == q.Cursors()[c].target
  {
    it := q.positions[q.refs[c]].pos;
  }

  /** A cursor has gone k entries on from a place that it shared with others. */
  ghost predicate Passing(q: RaPriorityQueue, c: CursorId, es: seq<Entry>, cs: map<CursorId, CursorVal>, k: nat,
          tied: bool)
    requires q.Valid() && k <= |es|
    reads q
  {
    && q.storage == es && q.User(c)
    && q.Cursors() == cs[c := CursorVal(First(es[k..]), true, tied)]
  }

  /** ++c on an entry: one further, and on a position of its own. */
  method Pass(q: RaPriorityQueue, c: CursorId, ghost es: seq<Entry>, ghost cs: map<CursorId, CursorVal>, ghost k: nat,
          ghost tied: bool)
    returns (it: Iter)
    requires q.Valid() && k < |es| && Unique(es) && Passing(q, c, es, cs, k, tied)
    modifies q`positions, q`refs, q`nextPos
    ensures q.Valid() && Passing(q, c, es, cs, k + 1, false) && it == First(es[k + 1..])
  {
    NextAt(es, k);
    q.Advance(c);
    assert c in q.Cursors();
    it := Target(q, c);
  }

  /** A place k entries on, reached by passing only hidden ones. */
  ghost predicate OnlyHidden(es: seq<Entry>, k: nat, it: Iter) {
    && k <= |es| && it == First(es[k..]) && (it.At? ==> k < |es| && Has(es, it.node))
    && FirstVisible(es[k..]) == FirstVisible(es)
  }

  lemma {:induction false} OnlyHiddenStarts(es: seq<Entry>)
    ensures OnlyHidden(es, 0, First(es))
  {
    FirstHas(es);
    assert es[0..] == es;
  }

  lemma {:induction false} OnlyHiddenNext(es: seq<Entry>, k: nat, it: Iter)
    requires Unique(es) && OnlyHidden(es, k, it) && it.At? && IsHidden(es, it.node)
    ensures OnlyHidden(es, k + 1, First(es[k + 1..]))
  {
    NextAt(es, k);
  }

  lemma {:induction false} OnlyHiddenEnds(es: seq<Entry>, k: nat, it: Iter)
    requires Unique(es) && OnlyHidden(es, k, it) && (it.At? ==> !IsHidden(es, it.node))
    ensures FirstVisible(es) == First(es[k..]) && (FirstVisible(es) == First(es) <==> k == 0 || es == [])
  {
    FirstVisibleAt(es, k);
  }

  /** The same for entries with another receipt id. */
  ghost predicate OnlyOthers(es: seq<Entry>, k0: nat, k: nat, id: bytes, it: Iter) {
    && k0 <= k <= |es| && it == First(es[k..]) && (it.At? ==> k < |es| && Has(es, it.node))
    && SeekFrom(es, k, id) == SeekFrom(es, k0, id)
  }

  lemma {:induction false} OnlyOthersStarts(es: seq<Entry>, k0: nat, id: bytes)
    requires k0 <= |es|
    ensures OnlyOthers(es, k0, k0, id, First(es[k0..]))
  {
    if k0 < |es| {
      assert es[k0] in es;
    }
  }

  lemma {:induction false} OnlyOthersNext(es: seq<Entry>, k0: nat, k: nat, id: bytes, it: Iter)
    requires Unique(es) && OnlyOthers(es, k0, k, id, it) && it.At? && ItemAt(es, it.node).receiptId != id
    ensures OnlyOthers(es, k0, k + 1, id, First(es[k + 1..]))
  {
    NextAt(es, k);
  }

  lemma {:induction false} OnlyOthersEnds(es: seq<Entry>, k0: nat, k: nat, id: bytes, it: Iter)
    requires Unique(es) && OnlyOthers(es, k0, k, id, it) && (it.At? ==> ItemAt(es, it.node).receiptId == id)
    ensures it == SeekFrom(es, k0, id)
  {
    if k < |es| {
      NextAt(es, k);
    }
  }

  /** A copy of begin(). */
  method CopyBegin(q: RaPriorityQueue) returns (c: CursorId)
    requires q.Valid()
    modifies q
    ensures q.Valid() && c == old(q.nextCursor)
    ensures Passing(q, c, old(q.storage), Retarget(old(q.Cursors()), First(old(q.storage))), 0, true)
  {
    var b := q.Begin();
    c := Declare(q);
    assert b in q.refs && c != b;
    q.Copy(c, b);
    assert q.storage[0..] == q.storage && c in q.Cursors();
  }

  method PassHidden(q: RaPriorityQueue, c: CursorId, ghost es: seq<Entry>, ghost cs: map<CursorId, CursorVal>)
    returns (ghost k: nat)
    requires q.Valid() && Unique(es) && Passing(q, c, es, cs, 0, true)
    modifies q`positions, q`refs, q`nextPos
    ensures q.Valid() && k <= |es| && Passing(q, c, es, cs, k, k == 0)
    ensures FirstVisible(es) == First(es[k..]) && (FirstVisible(es) == First(es) <==> k == 0 || es == [])
  {
    k := 0;
    OnlyHiddenStarts(es);
    assert es[0..] == es;
    var it := Target(q, c);
    while it != End && IsHidden(q.storage, it.node)
      invariant q.Valid() && OnlyHidden(es, k, it) && Passing(q, c, es, cs, k, k == 0)
      decreases |es| - k
    {
      OnlyHiddenNext(es, k, it);
      it := Pass(q, c, es, cs, k, k == 0);
      k := k + 1;
    }
    OnlyHiddenEnds(es, k, it);
  }

  /** openCursor: a copy of begin(), taken past the hidden entries. */
  method OpenOn(q: RaPriorityQueue) returns (c: CursorId)
    requires q.Valid()
    modifies q
    ensures q.Valid() && q.storage == old(q.storage) && c == old(q.nextCursor)
    ensures q.Cursors() ==
      Retarget(old(q.Cursors()), First(q.storage))[c :=
        CursorVal(FirstVisible(q.storage), true, FirstVisible(q.storage) == First(q.storage))]
  {
    c := CopyBegin(q);
    ghost var k := PassHidden(q, c, q.storage, Retarget(old(q.Cursors()), First(q.storage)));
  }

  method CopyCursor(q: RaPriorityQueue, cur: CursorId, ghost k: nat) returns (tmp: CursorId)
    requires q.Valid() && q.User(cur) && k <= |q.storage| && q.Cursors()[cur].valid
    requires q.Cursors()[cur].target == First(q.storage[k..])
    modifies q
    ensures q.Valid() && tmp == old(q.nextCursor) && tmp !in old(q.refs)
    ensures Passing(q, tmp, old(q.storage), old(q.Cursors()), k, old(q.Cursors())[cur].tied)
  {
    tmp := Declare(q);
    q.Copy(tmp, cur);
    assert tmp in q.Cursors();
  }

  method PassOthers(q: RaPriorityQueue, c: CursorId, id: bytes, ghost es: seq<Entry>,
          ghost cs: map<CursorId, CursorVal>, ghost k0: nat, start: Iter, ghost tied: bool)
    returns (it: Iter, ghost k: nat)
    requires Unique(es) && Searching(q, c, id, es, cs, k0, k0, start, tied)
    modifies q`positions, q`refs, q`nextPos
    ensures q.Valid() && k0 <= k <= |es| && Passing(q, c, es, cs, k, tied && k == k0)
    ensures it == First(es[k..]) == SeekFrom(es, k0, id)
  {
    k := k0;
    it := start;
    while it != End && ItemAt(q.storage, it.node).receiptId != id
      invariant Searching(q, c, id, es, cs, k0, k, it, tied)
      decreases |es| - k
    {
      it := PassOther(q, c, id, es, cs, k0, k, it, tied);
      k := k + 1;
    }
    OnlyOthersEnds(es, k0, k, id, it);
  }

  ghost predicate Searching(q: RaPriorityQueue, c: CursorId, id: bytes, es: seq<Entry>, cs: map<CursorId, CursorVal>,
          k0: nat, k: nat, it: Iter, tied: bool)
    reads q
  {
    q.Valid() && OnlyOthers(es, k0, k, id, it) && Passing(q, c, es, cs, k, tied && k == k0)
  }

  /** Past an entry with another receipt id. */
  method PassOther(q: RaPriorityQueue, c: CursorId, id: bytes, ghost es: seq<Entry>,
          ghost cs: map<CursorId, CursorVal>, ghost k0: nat, ghost k: nat, it: Iter, ghost tied: bool)
    returns (next: Iter)
    requires Unique(es) && Searching(q, c, id, es, cs, k0, k, it, tied)
    requires it.At? && ItemAt(es, it.node).receiptId != id
    modifies q`positions, q`refs, q`nextPos
    ensures Searching(q, c, id, es, cs, k0, k + 1, next, tied)
  {
    OnlyOthersNext(es, k0, k, id, it);
    next := Pass(q, c, es, cs, k, tied && k == k0);
  }

  /** The end of a search: the searching copy goes, after its place was taken over if it found something. */
  method TakeOver(q: RaPriorityQueue, cur: CursorId, tmp: CursorId, found: bool)
    requires q.Valid() && q.User(cur) && q.User(tmp) && cur != tmp
    modifies q`positions, q`refs
    ensures q.Valid()
    ensures q.Cursors() == (if found then old(q.Cursors())[cur := old(q.Cursors())[tmp]] else old(q.Cursors())) - {tmp}
  {
    if found {
      q.Copy(cur, tmp);
      assert cur in q.Cursors() && tmp in q.Cursors();
    }
    q.Release(tmp);
  }

  lemma {:induction false} Forgotten(cs: map<CursorId, CursorVal>, cur: CursorId, tmp: CursorId, v: CursorVal)
    requires tmp !in cs && cur != tmp
    ensures cs[tmp := v] - {tmp} == cs && cs[tmp := v][cur := v] - {tmp} == cs[cur := v]
  {
  }

  /** The search itself, by a copy of the cursor. */
  method FindOn(q: RaPriorityQueue, cur: CursorId, id: bytes) returns (tmp: CursorId, it: Iter)
    requires q.Valid() && q.User(cur) && q.Cursors()[cur].valid && q.Cursors()[cur].target.At?
    requires Has(q.storage, q.Cursors()[cur].target.node)
    modifies q
    ensures q.Valid() && q.storage == old(q.storage) && q.User(cur) && q.User(tmp) && tmp !in old(q.Cursors())
    ensures var c := old(q.Cursors())[cur];
      && it == SeekFromNode(q.storage, c.target.node, id)
      && q.Cursors() == old(q.Cursors())[tmp := CursorVal(it, true, c.tied && it == c.target)]
  {
    ghost var es, cs, c := q.storage, q.Cursors(), q.Cursors()[cur];
    ghost var k0 := IndexOf(es, c.target.node);
    NextAt(es, k0);
    tmp := CopyCursor(q, cur, k0);
    OnlyOthersStarts(es, k0, id);
    it := Target(q, tmp);
    ghost var k;
    it, k := PassOthers(q, tmp, id, es, cs, k0, it, c.tied);
    assert cur in q.Cursors();
    SamePlace(es, k0, k);
  }

  /** seekID: a copy of the cursor moves on to the first match, and gives it its place if there is one. */
  method SeekOn(q: RaPriorityQueue, cur: CursorId, id: bytes) returns (found: bool)
    requires q.Valid() && q.User(cur) && q.Cursors()[cur].valid && q.Cursors()[cur].target.At?
    requires Has(q.storage, q.Cursors()[cur].target.node)
    modifies q
    ensures q.Valid() && q.storage == old(q.storage)
    ensures var c := old(q.Cursors())[cur];
      var it := SeekFromNode(q.storage, c.target.node, id);
      && found == (it != End)
      && q.Cursors() ==
         if found then old(q.Cursors())[cur := CursorVal(it, true, c.tied && it == c.target)] else old(q.Cursors())
  {
    var tmp, it := FindOn(q, cur, id);
    found := it != End;
    Forgotten(old(q.Cursors()), cur, tmp, q.Cursors()[tmp]);
    TakeOver(q, cur, tmp, found);
  }

  /** ++ on a handle's cursor, as AdvanceCursor does it: the cursor goes to the next entry, and no other one moves. */
  method AdvanceOn(q: RaPriorityQueue, cur: CursorId, ghost k: nat)
    requires q.Valid() && q.User(cur) && q.Cursors()[cur].valid
    requires k < |q.storage| && q.Cursors()[cur].target == At(q.storage[k].node)
    modifies q`positions, q`refs, q`nextPos
    ensures q.Valid() && q.storage == old(q.storage)
    ensures q.Cursors() == old(q.Cursors())[cur :=
      CursorVal(if k + 1 < |q.storage| then At(q.storage[k + 1].node) else End, true, false)]
  {
    NextAt(q.storage, k);
    q.Advance(cur);
  }

  /**
   erase through a handle's cursor and assignment of what it returns, as FinalizeRetrieveCursor
   does it: the entry goes, the other cursors on it become invalid, and the handle's is on the
   entry behind.
   */
  method EraseOn(q: RaPriorityQueue, cur: CursorId, ghost k: nat)
    requires q.Valid() && q.User(cur) && q.Cursors()[cur].valid
    requires k < |q.storage| && q.Cursors()[cur].target == At(q.storage[k].node)
    modifies q
    ensures q.Valid() && q.storage == old(q.storage)[..k] + old(q.storage)[k + 1..]
    ensures var next := if k + 1 < |old(q.storage)| then At(old(q.storage)[k + 1].node) else End;
      q.Cursors() == Invalidate(old(q.Cursors()), old(q.storage)[k].node)[cur := CursorVal(next, true, false)]
  {
    NextAt(q.storage, k);
    IndexOfUnique(q.storage, k);
    ghost var cs := Invalidate(q.Cursors(), q.storage[k].node);
    var c := q.Erase(cur);
    assert c !in cs && cur in q.Cursors() && c in q.Cursors();
    q.Copy(cur, c);
    assert q.Cursors()[c] == q.Cursors()[cur];
    Forgotten(cs, cur, c, q.Cursors()[c]);
    q.Release(c);
  }

  /** Different places in the list are different entries. */
  lemma {:induction false} SamePlace(es: seq<Entry>, k0: nat, k: nat)
    requires Unique(es) && k0 < |es| && k0 <= k <= |es|
    ensures First(es[k..]) == First(es[k0..]) <==> k == k0
  {
  }
}
