/**
 What each public operation of a message queue does to its index and cursors, with
 storage left out: the specification that QStorage is proved against.

 An entry is hidden (`purged` in memory) while its enqueue is not final or a retrieve
 holds it. A handle names a cursor; finalize and cancel work through handles.
 */
module QueueOps {
  import opened Bytes
  import opened QueueModel

  ghost function MaxOf(s: set<Handle>): (m: Handle)
    requires s != {}
    ensures m in s && forall x :: x in s ==> x <= m
  {
    var x :| x in s;
    if s == {x} then x
    else
      var m := MaxOf(s - {x});
      assert forall y :: y in s ==> y in s - {x} || y == x;
      if m < x then x else m
  }

  /** One more than the largest handle in use. */
  ghost function NextHandle(s: set<Handle>): (h: Handle)
    ensures forall x :: x in s ==> x < h
    ensures if s == {} then h == 0 else h - 1 in s
  {
    if s == {} then 0 else MaxOf(s) + 1
  }

  function TestCursor(q: Queue, h: Handle): ErrorCode {
    if h !in q.cursors then NotOpen
    else if !q.cursors[h].valid then CursorInvalidated
    else if q.cursors[h].target == End then NoMoreMessages
    else NoError
  }

  function Hide(q: Queue, node: nat): Queue {
    q.(entries := SetPurged(q.entries, node, true))
  }

  function Close(q: Queue, h: Handle): Queue {
    q.(cursors := q.cursors - {h})
  }

  /** A hidden entry behind everything of its priority or higher, and a handle of its own on it. */
  ghost function Enqueue(q: Queue, item: QueueIndex): Queue {
    Queue(
      Insert(q.entries, Entry(q.nextNode, item.(purged := true))),
      q.cursors[NextHandle(q.cursors.Keys) := CursorVal(At(q.nextNode), true, false)],
      q.nextNode + 1)
  }

  /** FinalizeEnqueue and CancelRetrieve: the entry shows again and the handle is closed. */
  function Unhide(q: Queue, h: Handle): Queue {
    if h !in q.cursors || !q.cursors[h].valid then q
    else
      var q' := Close(q, h);
      if q.cursors[h].target == End then q'
      else q'.(entries := SetPurged(q.entries, q.cursors[h].target.node, false))
  }

  /** CancelEnqueue and FinalizeRetrieve: the entry goes, its other cursors become invalid, and the handle is closed. */
  function Discard(q: Queue, h: Handle): Queue {
    if TestCursor(q, h) != NoError then q
    else
      var n := q.cursors[h].target.node;
      Queue(Remove(q.entries, n), Invalidate(q.cursors, n) - {h}, q.nextNode)
  }

  /** FinalizeRetrieveCursor: as above, but the handle moves to the entry behind. */
  function DiscardAndAdvance(q: Queue, h: Handle): Queue
    requires TestCursor(q, h) == NoError ==> Has(q.entries, q.cursors[h].target.node)
  {
    if TestCursor(q, h) != NoError then q
    else
      var n := q.cursors[h].target.node;
      Queue(Remove(q.entries, n), Invalidate(q.cursors, n)[h := CursorVal(Next(q.entries, n), true, false)], q.nextNode)
  }

  /** openCursor: a new handle on the first visible entry; begin() moves the cursors on its position. */
  ghost function OpenCursor(q: Queue): Queue {
    var it := FirstVisible(q.entries);
    var c := CursorVal(it, true, it == First(q.entries));
    q.(cursors := Retarget(q.cursors, First(q.entries))[NextHandle(q.cursors.Keys) := c])
  }

  ghost function BeginRetrieve(q: Queue): (Queue, ErrorCode) {
    var it := FirstVisible(q.entries);
    if it == End then (Close(OpenCursor(q), NextHandle(q.cursors.Keys)), NoMoreMessages)
    else (Hide(OpenCursor(q), it.node), NoError)
  }

  /** The first entry with the given receipt id at or behind position k, hidden or not. */
  function SeekFrom(es: seq<Entry>, k: nat, id: bytes): (it: Iter)
    requires k <= |es|
    ensures it.At? ==> Has(es, it.node)
    decreases |es| - k
  {
    if k == |es| then End
    else if es[k].item.receiptId == id then At(es[k].node)
    else SeekFrom(es, k + 1, id)
  }

  function SeekFromNode(es: seq<Entry>, node: nat, id: bytes): Iter
    requires Has(es, node)
  {
    SeekFrom(es, IndexOf(es, node), id)
  }

  predicate OnEntry(q: Queue, h: Handle) {
    TestCursor(q, h) == NoError ==> Has(q.entries, q.cursors[h].target.node)
  }

  function SeekID(q: Queue, id: bytes, h: Handle): (Queue, ErrorCode)
    requires OnEntry(q, h)
  {
    if TestCursor(q, h) != NoError then (q, TestCursor(q, h))
    else
      var c := q.cursors[h];
      var it := SeekFromNode(q.entries, c.target.node, id);
      if it == End then (q, NoMoreMessages)
      else (q.(cursors := q.cursors[h := CursorVal(it, true, c.tied && it == c.target)]), NoError)
  }

  /** A match that is hidden leaves the new handle open, as the code does. */
  ghost function BeginRetrieveID(q: Queue, id: bytes): (Queue, ErrorCode)
    requires OnEntry(OpenCursor(q), NextHandle(q.cursors.Keys))
  {
    var h := NextHandle(q.cursors.Keys);
    var (q', code) := SeekID(OpenCursor(q), id, h);
    Found(q', code, h)
  }

  function Found(q: Queue, code: ErrorCode, h: Handle): (Queue, ErrorCode)
    requires code == NoError ==> h in q.cursors
  {
    if code != NoError then (Close(q, h), code)
    else if !q.cursors[h].target.At? || IsHidden(q.entries, q.cursors[h].target.node) then (q, CursorInvalidated)
    else (Hide(q, q.cursors[h].target.node), NoError)
  }

  function PeekCode(q: Queue, h: Handle): ErrorCode {
    if TestCursor(q, h) != NoError then TestCursor(q, h)
    else if IsHidden(q.entries, q.cursors[h].target.node) then CursorInvalidated
    else NoError
  }

  function BeginRetrieveCursor(q: Queue, h: Handle): (Queue, ErrorCode) {
    if PeekCode(q, h) == NoError then (Hide(q, q.cursors[h].target.node), NoError) else (q, PeekCode(q, h))
  }

  function AdvanceCursor(q: Queue, h: Handle): Queue
    requires OnEntry(q, h)
  {
    if TestCursor(q, h) != NoError then q
    else q.(cursors := q.cursors[h := CursorVal(Next(q.entries, q.cursors[h].target.node), true, false)])
  }

  /** A cursor assigned to itself ends up on no queue: it is invalid, and no begin() revives it. */
  function Copied(q: Queue, dst: Handle, src: Handle): CursorVal
    requires src in q.cursors
  {
    if dst == src then CursorVal(End, false, false) else q.cursors[src]
  }

  function CopyCursor(q: Queue, dst: Handle, src: Handle): (Queue, ErrorCode) {
    if TestCursor(q, src) != NoError then (q, TestCursor(q, src))
    else if TestCursor(q, dst) != NoError && TestCursor(q, dst) != NoMoreMessages then (q, TestCursor(q, dst))
    else (q.(cursors := q.cursors[dst := Copied(q, dst, src)]), NoError)
  }

  /** With a usable source, a copy is refused exactly if the destination has been closed, or its entry erased. */
  lemma {:induction false} CopyRefused(q: Queue, dst: Handle, src: Handle)
    requires TestCursor(q, src) == NoError
    ensures CopyCursor(q, dst, src).1 != NoError <==> dst !in q.cursors || !q.cursors[dst].valid
  {
  }

  // ---------- expiry ----------

  predicate Expired(item: QueueIndex, now: int) {
    !item.purged && item.ttl > 0 && now - item.timestamp >= item.ttl
  }

  function Unexpired(es: seq<Entry>, now: int): seq<Entry> {
    if es == [] then []
    else (if Expired(es[0].item, now) then [] else [es[0]]) + Unexpired(es[1..], now)
  }

  ghost function ExpiredNodes(es: seq<Entry>, now: int): set<nat> {
    set e | e in es && Expired(e.item, now) :: e.node
  }

  function InvalidateSet<K>(cs: map<K, CursorVal>, nodes: set<nat>): map<K, CursorVal> {
    map c | c in cs :: if cs[c].valid && cs[c].target.At? && cs[c].target.node in nodes then cs[c].(valid := false)
      else cs[c]
  }

  /** The purge is a filter: exactly the visible expired entries go, and the cursors on them become invalid. */
  ghost function TTLPurge(q: Queue, now: int): Queue {
    Queue(
      Unexpired(q.entries, now),
      InvalidateSet(Retarget(q.cursors, First(q.entries)), ExpiredNodes(q.entries, now)),
      q.nextNode)
  }

  /** A visible entry that a later purge may remove. */
  ghost predicate TTLPending(es: seq<Entry>) {
    exists e :: e in es && !e.item.purged && e.item.ttl > 0
  }

  // ---------- well-formed queues ----------

  ghost predicate CursorsOk(es: seq<Entry>, cs: map<Handle, CursorVal>) {
    ValidTargets(cs) <= Nodes(es)
  }

  ghost function ValidTargets(cs: map<Handle, CursorVal>): set<nat> {
    set h | h in cs && cs[h].valid && cs[h].target.At? :: cs[h].target.node
  }

  ghost predicate Wf(q: Queue) {
    ListOk(q.entries, q.nextNode) && CursorsOk(q.entries, q.cursors)
  }

  lemma {:induction false} EnqueueWf(q: Queue, item: QueueIndex)
    requires Wf(q)
    ensures Wf(Enqueue(q, item))
  {
    InsertOk(q.entries, Entry(q.nextNode, item.(purged := true)));
    InsertNodes(q.entries, Entry(q.nextNode, item.(purged := true)));
  }

  lemma {:induction false} RemoveWf(es: seq<Entry>, cs: map<Handle, CursorVal>, nextNode: nat, node: nat)
    requires Wf(Queue(es, cs, nextNode))
    ensures Wf(Queue(Remove(es, node), Invalidate(cs, node), nextNode))
  {
    RemoveOk(es, nextNode, node);
    RemoveNodes(es, node);
  }

  lemma {:induction false} SetPurgedWf(es: seq<Entry>, cs: map<Handle, CursorVal>, nextNode: nat, node: nat,
          purged: bool)
    requires Wf(Queue(es, cs, nextNode))
    ensures Wf(Queue(SetPurged(es, node, purged), cs, nextNode))
  {
    SetPurgedOk(es, node, purged);
    SetPurgedNodes(es, node, purged);
  }

  lemma {:induction false} FirstHas(es: seq<Entry>)
    ensures First(es).At? ==> Has(es, First(es).node)
  {
    if es != [] {
      assert es[0] in es;
    }
  }

  lemma {:induction false} UnexpiredConcat(a: seq<Entry>, b: seq<Entry>, now: int)
    ensures Unexpired(a + b, now) == Unexpired(a, now) + Unexpired(b, now)
  {
    if a == [] {
      assert a + b == b;
    } else {
      assert (a + b)[1..] == a[1..] + b;
      UnexpiredConcat(a[1..], b, now);
    }
  }

  lemma {:induction false} UnexpiredMembers(es: seq<Entry>, now: int)
    ensures forall e :: e in Unexpired(es, now) <==>
      e in es && (e.item.purged || e.item.ttl <= 0 || now - e.item.timestamp < e.item.ttl)
  {
    if es != [] {
      UnexpiredMembers(es[1..], now);
      assert es == [es[0]] + es[1..];
    }
  }

  lemma {:induction false} NextAt(es: seq<Entry>, k: nat)
    requires Unique(es) && k < |es|
    ensures First(es[k..]) == At(es[k].node) && Has(es, es[k].node) && ItemAt(es, es[k].node) == es[k].item
    ensures Next(es, es[k].node) == First(es[k + 1..]) && es[k..][1..] == es[k + 1..]
    ensures k + 1 < |es| ==> Has(es, es[k + 1].node)
  {
    IndexOfUnique(es, k);
    assert es[k] in es;
  }

  lemma {:induction false} FirstVisibleAt(es: seq<Entry>, k: nat)
    requires Unique(es) && k <= |es| && FirstVisible(es[k..]) == FirstVisible(es)
    requires k < |es| ==> !IsHidden(es, es[k].node)
    ensures FirstVisible(es) == First(es[k..])
    ensures FirstVisible(es) == First(es) <==> k == 0 || es == []
  {
    if k < |es| {
      NextAt(es, k);
    }
    if k == 0 {
      assert es[k..] == es;
    }
  }

  lemma {:induction false} OpenCursorWf(q: Queue)
    requires Wf(q)
    ensures Wf(OpenCursor(q))
  {
    FirstHas(q.entries);
  }

  lemma {:induction false} FirstVisibleShows(es: seq<Entry>)
    requires Unique(es)
    ensures FirstVisible(es).At? ==> Has(es, FirstVisible(es).node) && !IsHidden(es, FirstVisible(es).node)
  {
    if es != [] && es[0].item.purged {
      FirstVisibleShows(es[1..]);
    }
  }

  lemma {:induction false} DiscardAndAdvanceWf(q: Queue, h: Handle)
    requires Wf(q) && TestCursor(q, h) == NoError
    ensures Wf(DiscardAndAdvance(q, h))
  {
    RemoveWf(q.entries, q.cursors, q.nextNode, q.cursors[h].target.node);
    RemoveNodes(q.entries, q.cursors[h].target.node);
    NextStays(q.entries, q.cursors[h].target.node);
  }

  // ---------- the expiry pass ----------

  /** After k entries: what came before the cursor is filtered, what comes behind is untouched. */
  ghost predicate PassInvariant(es: seq<Entry>, cs: map<Handle, CursorVal>, k: nat, now: int, index: seq<Entry>,
          cursors: map<Handle, CursorVal>, hasTTL: bool)
    requires k <= |es|
  {
    && index == Unexpired(es[..k], now) + es[k..] && Unique(index)
    && cursors == InvalidateSet(cs, ExpiredNodes(es[..k], now))
    && hasTTL == TTLPending(Unexpired(es[..k], now))
  }

  lemma {:induction false} PurgeStart(es: seq<Entry>, cs: map<Handle, CursorVal>, now: int)
    requires Unique(es)
    ensures PassInvariant(es, cs, 0, now, es, cs, false)
    ensures es[0..] == es
  {
    assert es[..0] == [];
  }

  /** What the filter keeps of the tail stands behind the head in the list. */
  lemma {:induction false} UnexpiredBehind(es: seq<Entry>, now: int)
    requires es != []
    ensures forall i :: 0 <= i < |Unexpired(es[1..], now)| ==>
      exists j :: 0 < j < |es| && es[j] == Unexpired(es[1..], now)[i]
  {
    UnexpiredMembers(es[1..], now);
    var rest := Unexpired(es[1..], now);
    forall i | 0 <= i < |rest| ensures exists j :: 0 < j < |es| && es[j] == rest[i] {
      assert rest[i] in es[1..];
    }
  }

  lemma {:induction false} UnexpiredUnique(es: seq<Entry>, now: int)
    requires Unique(es)
    ensures Unique(Unexpired(es, now))
  {
    if es != [] {
      UnexpiredUnique(es[1..], now);
      UnexpiredBehind(es, now);
    }
  }

  lemma {:induction false} UnexpiredOrdered(es: seq<Entry>, now: int)
    requires Ordered(es)
    ensures Ordered(Unexpired(es, now))
  {
    if es != [] {
      UnexpiredOrdered(es[1..], now);
      UnexpiredBehind(es, now);
    }
  }

  lemma {:induction false} UnexpiredNodes(es: seq<Entry>, now: int)
    ensures Nodes(Unexpired(es, now)) <= Nodes(es) <= Nodes(Unexpired(es, now)) + ExpiredNodes(es, now)
  {
    UnexpiredMembers(es, now);
    forall n | n in Nodes(es) && n !in ExpiredNodes(es, now) ensures n in Nodes(Unexpired(es, now)) {
      var e :| e in es && e.node == n;
      assert e in Unexpired(es, now);
    }
  }

  lemma {:induction false} TTLPurgeWf(q: Queue, now: int)
    requires Wf(q)
    ensures Wf(TTLPurge(q, now))
  {
    UnexpiredUnique(q.entries, now);
    UnexpiredOrdered(q.entries, now);
    UnexpiredNodes(q.entries, now);
    RetargetOk(q.entries, q.cursors);
    var cs, nodes := Retarget(q.cursors, First(q.entries)), ExpiredNodes(q.entries, now);
    assert ValidTargets(InvalidateSet(cs, nodes)) <= ValidTargets(cs) - nodes;
  }

  lemma {:induction false} RetargetOk(es: seq<Entry>, cs: map<Handle, CursorVal>)
    requires CursorsOk(es, cs)
    ensures CursorsOk(es, Retarget(cs, First(es)))
  {
    FirstHas(es);
    forall n | n in ValidTargets(Retarget(cs, First(es))) ensures n in Nodes(es) {
      var h :| h in cs && Retarget(cs, First(es))[h].valid && Retarget(cs, First(es))[h].target == At(n);
      assert !cs[h].tied ==> n in ValidTargets(cs);
    }
  }

  lemma {:induction false} PassEnd(es: seq<Entry>, cs: map<Handle, CursorVal>, k: nat, now: int, index: seq<Entry>,
          cursors: map<Handle, CursorVal>, hasTTL: bool)
    requires k <= |es| && First(es[k..]) == End && PassInvariant(es, cs, k, now, index, cursors, hasTTL)
    ensures index == Unexpired(es, now) && cursors == InvalidateSet(cs, ExpiredNodes(es, now))
    ensures hasTTL == TTLPending(index)
  {
    assert es[..k] == es && es[k..] == [];
  }

  lemma {:induction false} IndexOfMiddle(a: seq<Entry>, e: Entry, b: seq<Entry>)
    requires Unique(a + [e] + b)
    ensures IndexOf(a + [e] + b, e.node) == |a|
    ensures Has(a + [e] + b, e.node) && ItemAt(a + [e] + b, e.node) == e.item
    ensures Next(a + [e] + b, e.node) == First(b) && Remove(a + [e] + b, e.node) == a + b
  {
    var es := a + [e] + b;
    assert es[|a|] == e && es[|a|] in es;
    IndexOfUnique(es, |a|);
    assert es[|a| + 1..] == b && es[..|a|] == a;
  }

  lemma {:induction false} ExpiredNext(es: seq<Entry>, k: nat, now: int)
    requires k < |es|
    ensures Unexpired(es[..k + 1], now) == Unexpired(es[..k], now) + (if Expired(es[k].item, now) then [] else [es[k]])
    ensures ExpiredNodes(es[..k + 1], now) ==
      ExpiredNodes(es[..k], now) + (if Expired(es[k].item, now) then {es[k].node} else {})
  {
    assert es[..k + 1] == es[..k] + [es[k]];
    UnexpiredConcat(es[..k], [es[k]], now);
  }

  lemma {:induction false} InvalidateMore(cs: map<Handle, CursorVal>, nodes: set<nat>, node: nat)
    ensures Invalidate(InvalidateSet(cs, nodes), node) == InvalidateSet(cs, nodes + {node})
  {
  }

  /** One step of the pass: the entry under the cursor, and the state with and without it. */
  lemma {:induction false} PassAt(es: seq<Entry>, cs: map<Handle, CursorVal>, k: nat, now: int, index: seq<Entry>,
          cursors: map<Handle, CursorVal>, hasTTL: bool)
    requires k < |es| && PassInvariant(es, cs, k, now, index, cursors, hasTTL)
    ensures var e := es[k];
      && First(es[k..]) == At(e.node) && Has(index, e.node) && ItemAt(index, e.node) == e.item
      && Next(index, e.node) == First(es[k + 1..])
      && (if Expired(e.item, now) then
            PassInvariant(es, cs, k + 1, now, Remove(index, e.node), Invalidate(cursors, e.node), hasTTL)
          else
            PassInvariant(es, cs, k + 1, now, index, cursors, hasTTL || (!e.item.purged && e.item.ttl > 0)))
  {
    var a, b := Unexpired(es[..k], now), es[k + 1..];
    assert index == a + [es[k]] + b;
    IndexOfMiddle(a, es[k], b);
    RemoveUnique(index, es[k].node);
    ExpiredNext(es, k, now);
    InvalidateMore(cs, ExpiredNodes(es[..k], now), es[k].node);
    assert ExpiredNodes(es[..k], now) + {} == ExpiredNodes(es[..k], now);
    assert a + [] == a;
  }

  lemma {:induction false} InsertPending(es: seq<Entry>, e: Entry)
    ensures forall x :: x in Insert(es, e) <==> x in es || x == e
    ensures TTLPending(Insert(es, e)) <==> TTLPending(es) || (!e.item.purged && e.item.ttl > 0)
  {
    var k := InsertPos(Items(es), e.item);
    assert es == es[..k] + es[k..];
  }

  // ---------- recovery ----------

  /** An index in which everything is visible, and whether something in it may expire. */
  ghost predicate IsLoaded(es: seq<Entry>, nextNode: nat, hasTTL: bool) {
    ListOk(es, nextNode) && (forall e :: e in es ==> !e.item.purged) && hasTTL == TTLPending(es)
  }

  /** The same; the quantifier only keeps the definition folded where it is not needed. */
  ghost predicate Loaded(es: seq<Entry>, nextNode: nat, hasTTL: bool) {
    forall xs {:trigger IsLoaded(xs, nextNode, hasTTL)} :: xs == es ==> IsLoaded(xs, nextNode, hasTTL)
  }

  lemma {:induction false} LoadedNext(es: seq<Entry>, nextNode: nat, hasTTL: bool, x: QueueIndex)
    requires Loaded(es, nextNode, hasTTL) && !x.purged
    ensures Loaded(Insert(es, Entry(nextNode, x)), nextNode + 1, hasTTL || x.ttl > 0)
  {
    assert IsLoaded(es, nextNode, hasTTL);
    InsertOk(es, Entry(nextNode, x));
    InsertPending(es, Entry(nextNode, x));
  }

  lemma {:induction false} LoadedWf(es: seq<Entry>, nextNode: nat, hasTTL: bool)
    requires Loaded(es, nextNode, hasTTL)
    ensures Wf(Queue(es, map[], nextNode)) && (forall e :: e in es ==> !e.item.purged) && hasTTL == TTLPending(es)
  {
    assert IsLoaded(es, nextNode, hasTTL);
  }

  // ---------- every operation keeps queues well-formed ----------

  lemma {:induction false} UnhideWf(q: Queue, h: Handle)
    requires Wf(q)
    ensures Wf(Unhide(q, h))
  {
    if h in q.cursors && q.cursors[h].target.At? {
      SetPurgedWf(q.entries, q.cursors, q.nextNode, q.cursors[h].target.node, false);
    }
  }

  lemma {:induction false} DiscardWf(q: Queue, h: Handle)
    requires Wf(q)
    ensures Wf(Discard(q, h))
  {
    if TestCursor(q, h) == NoError {
      RemoveWf(q.entries, q.cursors, q.nextNode, q.cursors[h].target.node);
    }
  }

  /**
   A handle is usable exactly if it is valid and on an entry of the index, and exactly then
   deleting through it takes anything out of the index.
   */
  lemma {:induction false} UsableExact(q: Queue, h: Handle)
    requires Wf(q)
    ensures TestCursor(q, h) == NoError <==>
      h in q.cursors && q.cursors[h].valid && q.cursors[h].target.At? && Has(q.entries, q.cursors[h].target.node)
    ensures TestCursor(q, h) == NoError <==> Discard(q, h).entries != q.entries
    ensures TestCursor(q, h) == NotOpen <==> h !in q.cursors
    ensures TestCursor(q, h) == CursorInvalidated <==> h in q.cursors && !q.cursors[h].valid
  {
    if TestCursor(q, h) == NoError {
      assert q.cursors[h].target.node in ValidTargets(q.cursors);
      RemoveNodes(q.entries, q.cursors[h].target.node);
    }
  }

  /**
   A second finalize through another handle on the same entry does nothing, and it stays so
   over the next begin() if and only if that handle does not share the begin position.
   */
  lemma {:induction false} SecondFinalize(q: Queue, h: Handle, g: Handle)
    requires TestCursor(q, h) == NoError && g in q.cursors && g != h && q.cursors[g].valid
    requires q.cursors[g].target == q.cursors[h].target
    ensures var q' := Discard(q, h);
      && TestCursor(q', g) == CursorInvalidated && Discard(q', g) == q'
      && (TestCursor(OpenCursor(q'), g) == CursorInvalidated <==> !q.cursors[g].tied)
  {
    var q' := Discard(q, h);
    assert g in q'.cursors.Keys && g < NextHandle(q'.cursors.Keys);
  }

  lemma {:induction false} AdvanceWf(q: Queue, h: Handle)
    requires Wf(q) && OnEntry(q, h)
    ensures Wf(AdvanceCursor(q, h))
  {
    if TestCursor(q, h) == NoError {
      NextStays(q.entries, q.cursors[h].target.node);
    }
  }

  lemma {:induction false} BeginRetrieveCursorWf(q: Queue, h: Handle)
    requires Wf(q)
    ensures Wf(BeginRetrieveCursor(q, h).0)
  {
    if PeekCode(q, h) == NoError {
      SetPurgedWf(q.entries, q.cursors, q.nextNode, q.cursors[h].target.node, true);
    }
  }
}
