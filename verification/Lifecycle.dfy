/**
 Every step that one queue can take while sessions have work pending on it.

 An act is what happens to a queue under its lock, together with what it means for the
 claims on it. `Inv` says that each claim is on a hidden message of its own, and on the one
 that its key names. It holds after a legal act if and only if the act is clean. What an act
 does to the queue's outlook and to hidden messages without a claim is stated beside it.
 */
module Lifecycle {
  import opened Bytes
  import opened QueueModel
  import opened QueueOps
  import opened Claims
  import opened Outlooks

  datatype Act =
    | Add(key: WorkKey, item: QueueIndex)
    | Take(key: WorkKey)
    | TakeID(key: WorkKey, id: bytes)
    | TakeCursor(key: WorkKey, handle: Handle)
    | Rebind(key: WorkKey, handle: Handle)
    | Register(key: WorkKey)
    | Acknowledge(key: WorkKey)
    | Show(key: WorkKey)
    | Drop(key: WorkKey)
    | Forget(key: WorkKey)
    | Open
    | Close(handle: Handle)
    | Advance(handle: Handle)
    | Copy(dst: Handle, src: Handle)
    | Seek(id: bytes, handle: Handle)
    | Expire(now: int)

  datatype State = State(queue: Queue, claims: Claims)

  function Pending(h: Handle, kind: Kind): Work {
    Work(h, kind, false, false)
  }

  /** No pending work uses the handle. */
  ghost predicate Free(s: State, h: Handle) {
    forall k :: k in s.claims ==> s.claims[k].cursor != h
  }

  /** The message that a retrieve through this handle would deliver, once `q` has it. */
  ghost predicate Delivers(q: Queue, code: ErrorCode, h: Handle, key: WorkKey) {
    code == NoError ==>
      h in q.cursors && q.cursors[h].target.At? && (q.cursors[h].target.node, key.message) in Names(q.entries)
  }

  /**
   What the source's callers see to: fresh message ids, and keys of pending work. Handles are
   whatever a client names.
   */
  ghost predicate Legal(s: State, a: Act)
    requires Wf(s.queue)
  {
    var q, h := s.queue, NextHandle(s.queue.cursors.Keys);
    match a
    case Add(k, item) => item.messageId == k.message && FreshId(q.entries, k.message)
    case Take(k) => Delivers(BeginRetrieve(q).0, BeginRetrieve(q).1, h, k)
    case TakeID(k, id) => OpenOnEntry(q); Delivers(BeginRetrieveID(q, id).0, BeginRetrieveID(q, id).1, h, k)
    case TakeCursor(k, h) => Delivers(q, PeekCode(q, h), h, k)
    case Rebind(k, h) => k in s.claims
    case Register(k) => k in s.claims
    case Acknowledge(k) => k in s.claims
    case Show(k) => k in s.claims
    case Drop(k) => k in s.claims
    case Forget(k) => k in s.claims
    case Open => true
    case Close(h) => true
    case Advance(h) => true
    case Copy(dst, src) => true
    case Seek(id, h) => true
    case Expire(now) => true
  }

  lemma {:induction false} OpenOnEntry(q: Queue)
    requires Wf(q)
    ensures OnEntry(OpenCursor(q), NextHandle(q.cursors.Keys))
  {
    OpenCursorWf(q);
  }

  /** The effect of an act. */
  ghost function Do(s: State, a: Act): State
    requires Wf(s.queue) && Legal(s, a)
  {
    var q, c, h := s.queue, s.claims, NextHandle(s.queue.cursors.Keys);
    match a
    case Add(k, item) => State(Enqueue(q, item), c[k := Pending(h, Enqueueing)])
    case Take(k) => Taken(BeginRetrieve(q), c, k, h)
    case TakeID(k, id) => OpenOnEntry(q); Taken(BeginRetrieveID(q, id), c, k, h)
    case TakeCursor(k, h) => Taken(BeginRetrieveCursor(q, h), c, k, h)
    case Rebind(k, h) => Rebound(CopyCursor(q, h, c[k].cursor), c, k, h)
    case Register(k) => State(q, c[k := c[k].(sent := true)])
    case Acknowledge(k) => State(q, c[k := c[k].(acknowledged := true)])
    case Show(k) => State(Unhide(q, c[k].cursor), c - {k})
    case Drop(k) => State(Discard(q, c[k].cursor), c - {k})
    case Forget(k) => State(q, c - {k})
    case Open => State(OpenCursor(q), c)
    case Close(h) => State(QueueOps.Close(q, h), c)
    case Advance(h) => State(AdvanceCursor(q, h), c)
    case Copy(dst, src) => State(CopyCursor(q, dst, src).0, c)
    case Seek(id, h) => State(SeekID(q, id, h).0, c)
    case Expire(now) => State(TTLPurge(q, now), c)
  }

  function Taken(r: (Queue, ErrorCode), c: Claims, k: WorkKey, h: Handle): State {
    State(r.0, if r.1 == NoError then c[k := Pending(h, Retrieving)] else c)
  }

  /** A copy that is refused ends the retrieve without a word: nothing is registered, and nothing is cancelled. */
  function Rebound(r: (Queue, ErrorCode), c: Claims, k: WorkKey, h: Handle): State
    requires k in c
  {
    State(r.0, if r.1 == NoError then c[k := c[k].(cursor := h)] else c - {k})
  }

  /** The handle cannot take over the claim. */
  predicate Refuses(s: State, k: WorkKey, h: Handle) {
    k in s.claims && CopyCursor(s.queue, h, s.claims[k].cursor).1 != NoError
  }

  // ---------- message ids ----------

  ghost function Names(es: seq<Entry>): set<(nat, bytes)> {
    set e | e in es :: (e.node, e.item.messageId)
  }

  ghost predicate FreshId(es: seq<Entry>, id: bytes) {
    forall p :: p in Names(es) ==> p.1 != id
  }

  ghost predicate UniqueIds(es: seq<Entry>) {
    forall p, r :: p in Names(es) && r in Names(es) && p.1 == r.1 ==> p.0 == r.0
  }

  ghost predicate Inv(s: State) {
    && Sound(s.queue, s.claims) && UniqueIds(s.queue.entries)
    && (forall k :: k in s.claims ==> (NodeOf(s.queue, s.claims[k]), k.message) in Names(s.queue.entries))
  }

  lemma {:induction false} NameOf(es: seq<Entry>, n: nat, a: bytes, b: bytes)
    requires Unique(es) && (n, a) in Names(es) && (n, b) in Names(es)
    ensures a == b
  {
    var e :| e in es && e.node == n && e.item.messageId == a;
    var f :| f in es && f.node == n && f.item.messageId == b;
    var i :| 0 <= i < |es| && es[i] == e;
    var j :| 0 <= j < |es| && es[j] == f;
  }

  lemma {:induction false} Named(es: seq<Entry>, n: nat)
    requires Has(es, n)
    ensures exists id :: (n, id) in Names(es)
  {
    var e := es[IndexOf(es, n)];
    assert (e.node, e.item.messageId) in Names(es);
  }

  lemma {:induction false} NamesConcat(a: seq<Entry>, b: seq<Entry>)
    ensures Names(a + b) == Names(a) + Names(b)
  {
    forall p | p in Names(a) + Names(b) ensures p in Names(a + b) {
      var e :| (e in a || e in b) && (e.node, e.item.messageId) == p;
      assert e in a + b;
    }
  }

  lemma {:induction false} NamesSplice(a: seq<Entry>, e: Entry, b: seq<Entry>)
    ensures Names(a + [e] + b) == Names(a + b) + {(e.node, e.item.messageId)}
  {
    NamesConcat(a, [e]);
    NamesConcat(a + [e], b);
    NamesConcat(a, b);
    assert Names([e]) == {(e.node, e.item.messageId)} by {
      assert e in [e];
    }
  }

  lemma {:induction false} NamesInsert(es: seq<Entry>, e: Entry)
    ensures Names(Insert(es, e)) == Names(es) + {(e.node, e.item.messageId)}
  {
    var k := InsertPos(Items(es), e.item);
    assert es == es[..k] + es[k..];
    NamesSplice(es[..k], e, es[k..]);
  }

  lemma {:induction false} NamesRemove(es: seq<Entry>, n: nat)
    ensures Names(Remove(es, n)) <= Names(es)
  {
    var k := IndexOf(es, n);
    if k != -1 {
      assert es == es[..k] + [es[k]] + es[k + 1..];
      NamesSplice(es[..k], es[k], es[k + 1..]);
    }
  }

  lemma {:induction false} NamesSetPurged(es: seq<Entry>, n: nat, purged: bool)
    ensures Names(SetPurged(es, n, purged)) == Names(es)
  {
    var k := IndexOf(es, n);
    if k != -1 {
      var a, e, b := es[..k], es[k], es[k + 1..];
      var e' := e.(item := e.item.(purged := purged));
      assert es == a + [e] + b && SetPurged(es, n, purged) == a + [e'] + b;
      NamesSplice(a, e, b);
      NamesSplice(a, e', b);
    }
  }

  lemma {:induction false} NamesUnexpired(es: seq<Entry>, now: int)
    ensures Names(Unexpired(es, now)) <= Names(es)
  {
    UnexpiredMembers(es, now);
  }

  /** No new names, no new claims, and every claim where it was. */
  lemma {:induction false} InvKept(s: State, s': State)
    requires Inv(s) && Sound(s'.queue, s'.claims) && Names(s'.queue.entries) <= Names(s.queue.entries)
    requires forall k :: k in s'.claims ==>
      k in s.claims && NodeOf(s'.queue, s'.claims[k]) == NodeOf(s.queue, s.claims[k])
    ensures Inv(s')
  {
    forall k | k in s'.claims ensures (NodeOf(s'.queue, s'.claims[k]), k.message) in Names(s'.queue.entries) {
      var n := NodeOf(s'.queue, s'.claims[k]);
      Named(s'.queue.entries, n);
      var id :| (n, id) in Names(s'.queue.entries);
      NameOf(s.queue.entries, n, id, k.message);
    }
  }

  /** A message's id is not the key of pending work unless the message is claimed. */
  lemma {:induction false} VisibleUnclaimed(s: State, n: nat, k: WorkKey)
    requires Inv(s) && (n, k.message) in Names(s.queue.entries) && !IsHidden(s.queue.entries, n)
    ensures k !in s.claims
  {
  }

  lemma {:induction false} FreshUnclaimed(s: State, k: WorkKey)
    requires Inv(s) && FreshId(s.queue.entries, k.message)
    ensures k !in s.claims
  {
  }

  // ---------- the invariant ----------

  /**
   The run condition, which `DoExact` shows to be exact: nothing is put ahead of a claim that
   shares the begin position, nothing is retrieved through a cursor that begin() would move,
   and no handle that pending work uses is closed, or moved to another message.
   */
  ghost predicate Clean(s: State, a: Act)
    requires Wf(s.queue)
  {
    match a
    case Add(k, item) => !Overtakes(s.queue, s.claims, item.(purged := true))
    case TakeCursor(k, h) => PeekCode(s.queue, h) == NoError ==> AtFront(s.queue, s.queue.cursors[h])
    case Rebind(k, h) => Refuses(s, k, h) || Free(s, h)
    case Close(h) => Free(s, h)
    case Advance(h) => Free(s, h)
    case Copy(dst, src) => CopyCursor(s.queue, dst, src).1 == NoError ==> Keeps(s, dst, Copied(s.queue, dst, src))
    case Seek(id, h) => Free(s, h) || SeekID(s.queue, id, h).0 == s.queue
    case _ => true
  }

  /** A cursor that shares the begin position is where begin() would put it. */
  predicate AtFront(q: Queue, c: CursorVal) {
    c.tied ==> c.target == First(q.entries)
  }

  /** Giving the handle this value takes no claim off its message. */
  ghost predicate Keeps(s: State, h: Handle, c: CursorVal) {
    Free(s, h) || (h in s.queue.cursors && c.valid && c.target == s.queue.cursors[h].target && AtFront(s.queue, c))
  }

  lemma {:induction false} IdsInsert(es: seq<Entry>, e: Entry)
    requires UniqueIds(es) && FreshId(es, e.item.messageId)
    ensures UniqueIds(Insert(es, e))
  {
    NamesInsert(es, e);
  }

  lemma {:induction false} AddNamed(s: State, s': State, k: WorkKey, e: Entry, h: Handle)
    requires Inv(s) && k !in s.claims && e.item.messageId == k.message && h !in s.queue.cursors
    requires s'.queue.entries == Insert(s.queue.entries, e)
    requires s'.queue.cursors == s.queue.cursors[h := CursorVal(At(e.node), true, false)]
    requires s'.claims == s.claims[k := Pending(h, Enqueueing)] && Sound(s'.queue, s'.claims)
    requires UniqueIds(s'.queue.entries)
    ensures Inv(s')
  {
    NamesInsert(s.queue.entries, e);
    forall l | l in s'.claims ensures (NodeOf(s'.queue, s'.claims[l]), l.message) in Names(s'.queue.entries) {
      assert l != k ==> s'.claims[l] == s.claims[l] && NodeOf(s'.queue, s'.claims[l]) == NodeOf(s.queue, s.claims[l]);
    }
  }

  lemma {:induction false} AddInv(s: State, k: WorkKey, item: QueueIndex)
    requires Inv(s) && Legal(s, Add(k, item)) && Clean(s, Add(k, item))
    ensures Inv(Do(s, Add(k, item)))
  {
    var q, w := s.queue, Pending(NextHandle(s.queue.cursors.Keys), Enqueueing);
    var e := Entry(q.nextNode, item.(purged := true));
    FreshUnclaimed(s, k);
    EnqueueSound(q, s.claims, k, item, w);
    NamesInsert(q.entries, e);
    IdsInsert(q.entries, e);
    AddNamed(s, Do(s, Add(k, item)), k, e, w.cursor);
  }

  /** A retrieve claims the visible entry under its handle. */
  lemma {:induction false} HideInv(s: State, k: WorkKey, h: Handle)
    requires Inv(s) && TestCursor(s.queue, h) == NoError && !IsHidden(s.queue.entries, s.queue.cursors[h].target.node)
    requires (s.queue.cursors[h].target.node, k.message) in Names(s.queue.entries)
    requires s.queue.cursors[h].tied ==> s.queue.cursors[h].target == First(s.queue.entries)
    ensures k !in s.claims
    ensures Inv(State(Hide(s.queue, s.queue.cursors[h].target.node), s.claims[k := Pending(h, Retrieving)]))
  {
    var n := s.queue.cursors[h].target.node;
    VisibleUnclaimed(s, n, k);
    TakeSound(s.queue, s.claims, k, Pending(h, Retrieving));
    NamesSetPurged(s.queue.entries, n, true);
  }

  lemma {:induction false} OpenInv(s: State)
    requires Inv(s)
    ensures Inv(Do(s, Open))
  {
    OpenCursorSound(s.queue, s.claims);
  }

  lemma {:induction false} CloseInv(s: State, h: Handle)
    requires Inv(s) && Free(s, h)
    ensures Inv(State(QueueOps.Close(s.queue, h), s.claims))
  {
    CloseSound(s.queue, s.claims, h);
  }

  lemma {:induction false} MoveInv(s: State, h: Handle, c: CursorVal)
    requires Inv(s) && Free(s, h) && (c.valid && c.target.At? ==> Has(s.queue.entries, c.target.node))
    ensures Inv(State(s.queue.(cursors := s.queue.cursors[h := c]), s.claims))
  {
    MoveSound(s.queue, s.claims, h, c);
  }

  /** Closing a handle keeps the invariant if and only if no pending work uses it. */
  lemma {:induction false} CloseExact(s: State, h: Handle)
    requires Inv(s)
    ensures Inv(State(QueueOps.Close(s.queue, h), s.claims)) <==> Free(s, h)
  {
    if Free(s, h) {
      CloseInv(s, h);
    } else {
      var k :| k in s.claims && s.claims[k].cursor == h;
      assert !Holds(QueueOps.Close(s.queue, h), s.claims[k].cursor);
    }
  }

  /** A claimed handle may get another value for the same message. */
  lemma {:induction false} SameInv(s: State, h: Handle, c: CursorVal)
    requires Inv(s) && h in s.queue.cursors && s.queue.cursors[h].valid
    requires c.valid && c.target == s.queue.cursors[h].target && AtFront(s.queue, c)
    ensures Inv(State(s.queue.(cursors := s.queue.cursors[h := c]), s.claims))
  {
    var q' := s.queue.(cursors := s.queue.cursors[h := c]);
    SameWf(s.queue, h, c);
    forall k | k in s.claims
      ensures Holds(q', s.claims[k].cursor) && NodeOf(q', s.claims[k]) == NodeOf(s.queue, s.claims[k])
    {
      SameHolds(s.queue, h, c, s.claims[k].cursor);
    }
    InvKept(s, State(q', s.claims));
  }

  lemma {:induction false} SameWf(q: Queue, h: Handle, c: CursorVal)
    requires Wf(q) && h in q.cursors && q.cursors[h].valid && c.target == q.cursors[h].target
    ensures Wf(q.(cursors := q.cursors[h := c]))
  {
    assert c.target.At? ==> c.target.node in ValidTargets(q.cursors);
    assert ValidTargets(q.cursors[h := c]) <= ValidTargets(q.cursors);
  }

  lemma {:induction false} SameHolds(q: Queue, h: Handle, c: CursorVal, g: Handle)
    requires Holds(q, g) && h in q.cursors && c.valid && c.target == q.cursors[h].target && AtFront(q, c)
    ensures var q' := q.(cursors := q.cursors[h := c]); Holds(q', g) && q'.cursors[g].target == q.cursors[g].target
  {
  }

  lemma {:induction false} MoveBreaks(s: State, h: Handle, c: CursorVal)
    requires Inv(s) && !Keeps(s, h, c)
    ensures !Inv(State(s.queue.(cursors := s.queue.cursors[h := c]), s.claims))
  {
    var k :| k in s.claims && s.claims[k].cursor == h;
    assert (NodeOf(s.queue, s.claims[k]), k.message) in Names(s.queue.entries);
  }

  /** Changing a handle keeps the invariant if and only if no claim leaves its message by it. */
  lemma {:induction false} MoveExact(s: State, h: Handle, c: CursorVal)
    requires Inv(s) && (c.valid && c.target.At? ==> Has(s.queue.entries, c.target.node))
    ensures Inv(State(s.queue.(cursors := s.queue.cursors[h := c]), s.claims)) <==> Keeps(s, h, c)
  {
    if Free(s, h) {
      MoveInv(s, h, c);
    } else if Keeps(s, h, c) {
      SameInv(s, h, c);
    } else {
      MoveBreaks(s, h, c);
    }
  }

  /** The handle that openCursor hands out is nobody's yet. */
  lemma {:induction false} OpenedFree(s: State)
    requires Inv(s)
    ensures var h := NextHandle(s.queue.cursors.Keys);
      && Free(Do(s, Open), h) && h in Do(s, Open).queue.cursors
      && Do(s, Open).queue.cursors[h] ==
        CursorVal(FirstVisible(s.queue.entries), true, FirstVisible(s.queue.entries) == First(s.queue.entries))
  {
    assert forall k :: k in s.claims ==> s.claims[k].cursor in s.queue.cursors.Keys;
  }

  lemma {:induction false} TakeInv(s: State, k: WorkKey)
    requires Inv(s) && Legal(s, Take(k))
    ensures Inv(Do(s, Take(k)))
  {
    var h, s1 := NextHandle(s.queue.cursors.Keys), Do(s, Open);
    OpenInv(s);
    OpenedFree(s);
    FirstVisibleShows(s.queue.entries);
    if FirstVisible(s.queue.entries) == End {
      CloseInv(s1, h);
    } else {
      NamesSetPurged(s.queue.entries, FirstVisible(s.queue.entries).node, true);
      HideInv(s1, k, h);
    }
  }

  lemma {:induction false} SeekInv(s: State, id: bytes, h: Handle)
    requires Inv(s) && Free(s, h)
    ensures Inv(State(SeekID(s.queue, id, h).0, s.claims))
  {
    if TestCursor(s.queue, h) == NoError {
      var c := s.queue.cursors[h];
      var it := SeekFromNode(s.queue.entries, c.target.node, id);
      if it != End {
        MoveInv(s, h, CursorVal(it, true, c.tied && it == c.target));
      }
    }
  }

  /** A handle that a search has moved off the front no longer shares the begin position. */
  lemma {:induction false} SeekTied(q: Queue, id: bytes, h: Handle)
    requires OnEntry(q, h) && h in q.cursors && q.cursors[h].valid
    requires q.cursors[h].tied ==> q.cursors[h].target == First(q.entries)
    ensures var q' := SeekID(q, id, h).0;
      && q'.entries == q.entries && h in q'.cursors && q'.cursors[h].valid
      && (q'.cursors[h].tied ==> q'.cursors[h].target == First(q'.entries))
  {
  }

  lemma {:induction false} TakeFound(s: State, code: ErrorCode, k: WorkKey, h: Handle)
    requires Inv(s) && Free(s, h) && h in s.queue.cursors && s.queue.cursors[h].valid
    requires s.queue.cursors[h].tied ==> s.queue.cursors[h].target == First(s.queue.entries)
    requires Delivers(Found(s.queue, code, h).0, Found(s.queue, code, h).1, h, k)
    ensures Inv(Taken(Found(s.queue, code, h), s.claims, k, h))
  {
    if code != NoError {
      CloseInv(s, h);
    } else if s.queue.cursors[h].target.At? && !IsHidden(s.queue.entries, s.queue.cursors[h].target.node) {
      NamesSetPurged(s.queue.entries, s.queue.cursors[h].target.node, true);
      HideInv(s, k, h);
    }
  }

  lemma {:induction false} TakeSought(s: State, k: WorkKey, id: bytes, h: Handle)
    requires Inv(s) && Free(s, h) && h in s.queue.cursors && s.queue.cursors[h].valid && OnEntry(s.queue, h)
    requires s.queue.cursors[h].tied ==> s.queue.cursors[h].target == First(s.queue.entries)
    requires var r := Found(SeekID(s.queue, id, h).0, SeekID(s.queue, id, h).1, h); Delivers(r.0, r.1, h, k)
    ensures Inv(Taken(Found(SeekID(s.queue, id, h).0, SeekID(s.queue, id, h).1, h), s.claims, k, h))
  {
    SeekInv(s, id, h);
    SeekTied(s.queue, id, h);
    TakeFound(State(SeekID(s.queue, id, h).0, s.claims), SeekID(s.queue, id, h).1, k, h);
  }

  lemma {:induction false} TakeIDInv(s: State, k: WorkKey, id: bytes)
    requires Inv(s) && Legal(s, TakeID(k, id))
    ensures Inv(Do(s, TakeID(k, id)))
  {
    var h, s1 := NextHandle(s.queue.cursors.Keys), Do(s, Open);
    OpenInv(s);
    OpenedFree(s);
    TakeSought(s1, k, id, h);
  }

  /** A retrieve through a cursor is sound if and only if the cursor is not out of date. */
  lemma {:induction false} TakeCursorExact(s: State, k: WorkKey, h: Handle)
    requires Inv(s) && Legal(s, TakeCursor(k, h))
    ensures Inv(Do(s, TakeCursor(k, h))) <==> Clean(s, TakeCursor(k, h))
  {
    if PeekCode(s.queue, h) == NoError {
      if AtFront(s.queue, s.queue.cursors[h]) {
        HideInv(s, k, h);
      } else {
        StaleBreaks(s, k, h);
      }
    }
  }

  lemma {:induction false} StaleBreaks(s: State, k: WorkKey, h: Handle)
    requires h in s.queue.cursors && s.queue.cursors[h].target.At? && !AtFront(s.queue, s.queue.cursors[h])
    ensures !Inv(State(Hide(s.queue, s.queue.cursors[h].target.node), s.claims[k := Pending(h, Retrieving)]))
  {
    var q', claims' := Hide(s.queue, s.queue.cursors[h].target.node), s.claims[k := Pending(h, Retrieving)];
    FirstSetPurged(s.queue.entries, s.queue.cursors[h].target.node, true);
    assert claims'[k].cursor == h && !Holds(q', h);
  }

  /** A put is sound if and only if it does not overtake. */
  lemma {:induction false} AddExact(s: State, k: WorkKey, item: QueueIndex)
    requires Inv(s) && Legal(s, Add(k, item))
    ensures Inv(Do(s, Add(k, item))) <==> Clean(s, Add(k, item))
  {
    if Clean(s, Add(k, item)) {
      AddInv(s, k, item);
    } else {
      OvertakeBreaks(s, k, item);
    }
  }

  lemma {:induction false} OvertakeBreaks(s: State, k: WorkKey, item: QueueIndex)
    requires Inv(s) && Legal(s, Add(k, item)) && Overtakes(s.queue, s.claims, item.(purged := true))
    ensures !Inv(Do(s, Add(k, item)))
  {
    var l :| l in s.claims && s.claims[l].cursor in s.queue.cursors && s.queue.cursors[s.claims[l].cursor].tied;
    var s', h := Do(s, Add(k, item)), s.claims[l].cursor;
    FreshUnclaimed(s, k);
    FirstAfterInsert(s.queue.entries, Entry(s.queue.nextNode, item.(purged := true)));
    assert h < NextHandle(s.queue.cursors.Keys) && s'.queue.cursors[h] == s.queue.cursors[h];
    assert NodeOf(s.queue, s.claims[l]) in Nodes(s.queue.entries);
    assert s'.claims[l] == s.claims[l] && !Holds(s'.queue, h);
  }

  /** A claim that changes what it says, or its handle, but not the message. */
  lemma {:induction false} ReclaimSound(q: Queue, claims: Claims, k: WorkKey, w: Work)
    requires Sound(q, claims) && k in claims && Holds(q, w.cursor) && NodeOf(q, w) == NodeOf(q, claims[k])
    ensures Sound(q, claims[k := w])
  {
    var claims' := claims[k := w];
    forall a | a in claims'
      ensures a in claims && Holds(q, claims'[a].cursor) && NodeOf(q, claims'[a]) == NodeOf(q, claims[a])
    {
    }
  }

  lemma {:induction false} RecordInv(s: State, k: WorkKey, w: Work)
    requires Inv(s) && k in s.claims && Holds(s.queue, w.cursor) && NodeOf(s.queue, w) == NodeOf(s.queue, s.claims[k])
    ensures Inv(State(s.queue, s.claims[k := w]))
  {
    ReclaimSound(s.queue, s.claims, k, w);
    InvKept(s, State(s.queue, s.claims[k := w]));
  }

  lemma {:induction false} TakenOver(q: Queue, g: Handle, h: Handle)
    requires Holds(q, g) && g != h
    ensures var q' := q.(cursors := q.cursors[h := q.cursors[g]]);
      Holds(q', g) && Holds(q', h) && q'.cursors[g] == q'.cursors[h] == q.cursors[g]
  {
  }

  lemma {:induction false} RebindInv(s: State, k: WorkKey, h: Handle)
    requires Inv(s) && k in s.claims && Free(s, h)
    ensures var q' := s.queue.(cursors := s.queue.cursors[h := s.queue.cursors[s.claims[k].cursor]]);
      Inv(State(q', s.claims[k := s.claims[k].(cursor := h)]))
  {
    var g := s.claims[k].cursor;
    var q' := s.queue.(cursors := s.queue.cursors[h := s.queue.cursors[g]]);
    TakenOver(s.queue, g, h);
    MoveInv(s, h, s.queue.cursors[g]);
    RecordInv(State(q', s.claims), k, s.claims[k].(cursor := h));
  }

  lemma {:induction false} RebindBreaks(s: State, k: WorkKey, h: Handle, l: WorkKey)
    requires Inv(s) && Legal(s, Rebind(k, h)) && !Refuses(s, k, h) && l in s.claims && s.claims[l].cursor == h
    ensures !Inv(Do(s, Rebind(k, h)))
  {
    var s' := Do(s, Rebind(k, h));
    assert k in s'.claims && s'.claims[k].cursor == h;
    if l == k {
      SelfCopied(s.queue, h);
    } else {
      assert l in s'.claims && s'.claims[l].cursor == h;
      if Sound(s'.queue, s'.claims) {
        HandlesDiffer(s'.queue, s'.claims);
      }
    }
  }

  lemma {:induction false} SelfCopied(q: Queue, h: Handle)
    requires TestCursor(q, h) == NoError
    ensures !Holds(CopyCursor(q, h, h).0, h)
  {
  }

  /** The handle cannot take over the claim if and only if it has been closed, or its entry erased. */
  lemma {:induction false} RefusesExact(s: State, k: WorkKey, h: Handle)
    requires Inv(s) && k in s.claims
    ensures Refuses(s, k, h) <==> h !in s.queue.cursors || !s.queue.cursors[h].valid
  {
    CopyRefused(s.queue, h, s.claims[k].cursor);
  }

  lemma {:induction false} RefusedIs(s: State, k: WorkKey, h: Handle)
    requires Wf(s.queue) && Refuses(s, k, h)
    ensures Do(s, Rebind(k, h)) == State(s.queue, s.claims - {k})
  {
  }

  /**
   A claim is taken over soundly if and only if the copy is refused, or no pending work uses
   the handle that takes it.
   */
  lemma {:induction false} RebindExact(s: State, k: WorkKey, h: Handle)
    requires Inv(s) && Legal(s, Rebind(k, h))
    ensures Inv(Do(s, Rebind(k, h))) <==> Clean(s, Rebind(k, h))
  {
    if Refuses(s, k, h) {
      RefusedIs(s, k, h);
      ForgetInv(s, k);
    } else if Free(s, h) {
      RebindInv(s, k, h);
    } else {
      var l :| l in s.claims && s.claims[l].cursor == h;
      RebindBreaks(s, k, h, l);
    }
  }

  lemma {:induction false} ShowInv(s: State, k: WorkKey)
    requires Inv(s) && k in s.claims
    ensures Inv(Do(s, Show(k)))
  {
    UnhideSound(s.queue, s.claims, k);
    NamesSetPurged(s.queue.entries, NodeOf(s.queue, s.claims[k]), false);
    HandlesDiffer(s.queue, s.claims);
    InvKept(s, Do(s, Show(k)));
  }

  lemma {:induction false} DropTargets(q: Queue, claims: Claims, k: WorkKey)
    requires Sound(q, claims) && k in claims
    ensures var q' := Discard(q, claims[k].cursor);
      forall l :: l in claims - {k} ==>
        claims[l].cursor in q'.cursors && q'.cursors[claims[l].cursor].target == q.cursors[claims[l].cursor].target
  {
    HandlesDiffer(q, claims);
  }

  lemma {:induction false} DropInv(s: State, k: WorkKey)
    requires Inv(s) && k in s.claims
    ensures Inv(Do(s, Drop(k)))
  {
    DiscardSound(s.queue, s.claims, k);
    NamesRemove(s.queue.entries, NodeOf(s.queue, s.claims[k]));
    DropTargets(s.queue, s.claims, k);
    InvKept(s, State(Discard(s.queue, s.claims[k].cursor), s.claims - {k}));
  }

  lemma {:induction false} ForgetInv(s: State, k: WorkKey)
    requires Inv(s)
    ensures Inv(State(s.queue, s.claims - {k}))
  {
    SoundDrop(s.queue, s.claims, k);
  }

  lemma {:induction false} AdvanceExact(s: State, h: Handle)
    requires Inv(s)
    ensures Inv(Do(s, Advance(h))) <==> Free(s, h)
  {
    if TestCursor(s.queue, h) == NoError {
      var n := s.queue.cursors[h].target.node;
      var c := CursorVal(Next(s.queue.entries, n), true, false);
      NextStays(s.queue.entries, n);
      MoveExact(s, h, c);
      assert Do(s, Advance(h)) == State(s.queue.(cursors := s.queue.cursors[h := c]), s.claims);
    } else {
      UnusableFree(s, h);
      assert Do(s, Advance(h)) == s;
    }
  }

  /** Pending work goes through usable handles alone. */
  lemma {:induction false} UnusableFree(s: State, h: Handle)
    requires Inv(s) && TestCursor(s.queue, h) != NoError
    ensures Free(s, h)
  {
    forall k | k in s.claims ensures s.claims[k].cursor != h {
      assert Holds(s.queue, s.claims[k].cursor);
    }
  }

  lemma {:induction false} CopyExact(s: State, dst: Handle, src: Handle)
    requires Inv(s)
    ensures Inv(Do(s, Copy(dst, src))) <==> Clean(s, Copy(dst, src))
  {
    if CopyCursor(s.queue, dst, src).1 == NoError {
      var c := Copied(s.queue, dst, src);
      MoveExact(s, dst, c);
      assert Do(s, Copy(dst, src)) == State(s.queue.(cursors := s.queue.cursors[dst := c]), s.claims);
    } else {
      assert Do(s, Copy(dst, src)) == s;
    }
  }

  lemma {:induction false} MovedOff(s: State, h: Handle, c: CursorVal)
    requires Inv(s) && h in s.queue.cursors && c.target.At? && Has(s.queue.entries, c.target.node)
    requires c.target != s.queue.cursors[h].target
    ensures Inv(State(s.queue.(cursors := s.queue.cursors[h := c]), s.claims)) <==> Free(s, h)
  {
    MoveExact(s, h, c);
  }

  lemma {:induction false} SeekExact(s: State, id: bytes, h: Handle)
    requires Inv(s)
    ensures Inv(State(SeekID(s.queue, id, h).0, s.claims)) <==> Free(s, h) || SeekID(s.queue, id, h).0 == s.queue
  {
    if SeekID(s.queue, id, h).0 != s.queue {
      var c := SeekMoves(s.queue, id, h);
      MovedOff(s, h, c);
    } else {
      assert State(s.queue, s.claims) == s;
    }
  }

  /** A search that changes anything moves the handle to another entry. */
  lemma {:induction false} SeekMoves(q: Queue, id: bytes, h: Handle) returns (c: CursorVal)
    requires OnEntry(q, h) && SeekID(q, id, h).0 != q
    ensures h in q.cursors && SeekID(q, id, h).0 == q.(cursors := q.cursors[h := c])
    ensures c.target.At? && Has(q.entries, c.target.node) && c.target != q.cursors[h].target
  {
    var it := SeekFromNode(q.entries, q.cursors[h].target.node, id);
    c := CursorVal(it, true, q.cursors[h].tied && it == q.cursors[h].target);
    assert c == q.cursors[h] ==> q.cursors[h := c] == q.cursors;
  }

  /** Expiry leaves every claim's handle alone. */
  lemma {:induction false} ExpireTargets(s: State, now: int)
    requires Inv(s)
    ensures forall k :: k in s.claims ==>
      TTLPurge(s.queue, now).cursors[s.claims[k].cursor] == s.queue.cursors[s.claims[k].cursor]
  {
    forall k | k in s.claims
      ensures TTLPurge(s.queue, now).cursors[s.claims[k].cursor] == s.queue.cursors[s.claims[k].cursor]
    {
      var n := NodeOf(s.queue, s.claims[k]);
      HiddenIs(s.queue.entries, n);
      HiddenNotExpired(s.queue.entries, now, n);
    }
  }

  lemma {:induction false} ExpireInv(s: State, now: int)
    requires Inv(s)
    ensures Inv(Do(s, Expire(now)))
  {
    TTLPurgeSound(s.queue, s.claims, now);
    NamesUnexpired(s.queue.entries, now);
    ExpireTargets(s, now);
    InvKept(s, Do(s, Expire(now)));
  }

  /** The run condition is exact: a legal act keeps the invariant if and only if it is clean. */
  lemma {:induction false} DoExact(s: State, a: Act)
    requires Inv(s) && Legal(s, a)
    ensures Inv(Do(s, a)) <==> Clean(s, a)
  {
    match a
    case Add(k, item) => AddExact(s, k, item);
    case Take(k) => TakeInv(s, k);
    case TakeID(k, id) => TakeIDInv(s, k, id);
    case TakeCursor(k, h) => TakeCursorExact(s, k, h);
    case Rebind(k, h) => RebindExact(s, k, h);
    case Register(k) => RecordInv(s, k, s.claims[k].(sent := true));
    case Acknowledge(k) => RecordInv(s, k, s.claims[k].(acknowledged := true));
    case Show(k) => ShowInv(s, k);
    case Drop(k) => DropInv(s, k);
    case Forget(k) => ForgetInv(s, k);
    case Open => OpenInv(s);
    case Close(h) => CloseExact(s, h);
    case Advance(h) => AdvanceExact(s, h);
    case Copy(dst, src) => CopyExact(s, dst, src);
    case Seek(id, h) => SeekExact(s, id, h);
    case Expire(now) => ExpireInv(s, now);
  }

  // ---------- which handles pending work may come to use ----------

  /** The act makes a claim use the handle: a new one, or one that a client named. */
  ghost predicate Uses(s: State, a: Act, h: Handle)
    requires Wf(s.queue) && Legal(s, a)
  {
    match a
    case Add(k, item) => h == NextHandle(s.queue.cursors.Keys)
    case Take(k) => h == NextHandle(s.queue.cursors.Keys) && BeginRetrieve(s.queue).1 == NoError
    case TakeID(k, id) =>
      OpenOnEntry(s.queue); h == NextHandle(s.queue.cursors.Keys) && BeginRetrieveID(s.queue, id).1 == NoError
    case TakeCursor(k, g) => h == g && PeekCode(s.queue, g) == NoError
    case Rebind(k, g) => h == g && !Refuses(s, k, g)
    case _ => false
  }

  lemma {:induction false} FreeAdd(q: Queue, q': Queue, claims: Claims, k: WorkKey, w: Work, h: Handle)
    requires Free(State(q, claims), h)
    ensures Free(State(q', claims[k := w]), h) <==> w.cursor != h
  {
    if Free(State(q', claims[k := w]), h) {
      assert claims[k := w][k] == w;
    }
  }

  lemma {:induction false} FreeTaken(q: Queue, r: (Queue, ErrorCode), claims: Claims, k: WorkKey, g: Handle, h: Handle)
    requires Free(State(q, claims), h)
    ensures Free(Taken(r, claims, k, g), h) <==> !(h == g && r.1 == NoError)
  {
    FreeAdd(q, r.0, claims, k, Pending(g, Retrieving), h);
  }

  lemma {:induction false} FreeLess(q: Queue, q': Queue, claims: Claims, k: WorkKey, h: Handle)
    requires Free(State(q, claims), h)
    ensures Free(State(q', claims), h) && Free(State(q', claims - {k}), h)
  {
  }

  lemma {:induction false} FreeRebound(q: Queue, r: (Queue, ErrorCode), claims: Claims, k: WorkKey, g: Handle,
          h: Handle)
    requires k in claims && Free(State(q, claims), h)
    ensures Free(Rebound(r, claims, k, g), h) <==> !(h == g && r.1 == NoError)
  {
    FreeLess(q, r.0, claims, k, h);
    FreeAdd(q, r.0, claims, k, claims[k].(cursor := g), h);
  }

  /**
   A handle that no pending work uses comes into use exactly by these acts. An open handle is
   never the next new one, so it stays free until a retrieve goes through it; a handle that has
   been closed is handed out again as soon as it is one more than the largest open one.
   */
  lemma {:induction false} FreeExact(s: State, a: Act, h: Handle)
    requires Inv(s) && Legal(s, a) && Free(s, h)
    ensures Free(Do(s, a), h) <==> !Uses(s, a, h)
  {
    var q, c, g := s.queue, s.claims, NextHandle(s.queue.cursors.Keys);
    match a
    case Add(k, item) => FreeAdd(q, Enqueue(q, item), c, k, Pending(g, Enqueueing), h);
    case Take(k) => FreeTaken(q, BeginRetrieve(q), c, k, g, h);
    case TakeID(k, id) => OpenOnEntry(q); FreeTaken(q, BeginRetrieveID(q, id), c, k, g, h);
    case TakeCursor(k, f) => FreeTaken(q, BeginRetrieveCursor(q, f), c, k, f, h);
    case Rebind(k, f) => FreeRebound(q, CopyCursor(q, f, c[k].cursor), c, k, f, h);
    case Register(k) => FreeAdd(q, q, c, k, c[k].(sent := true), h);
    case Acknowledge(k) => FreeAdd(q, q, c, k, c[k].(acknowledged := true), h);
    case Show(k) => FreeLess(q, Unhide(q, c[k].cursor), c, k, h);
    case Drop(k) => FreeLess(q, Discard(q, c[k].cursor), c, k, h);
    case Forget(k) => FreeLess(q, q, c, k, h);
    case _ =>
  }

  /** An open handle comes into use only by a retrieve through it. */
  lemma {:induction false} OpenStaysFree(s: State, a: Act, h: Handle)
    requires Inv(s) && Legal(s, a) && Free(s, h) && h in s.queue.cursors
    ensures Free(Do(s, a), h) <==>
      && !(a.TakeCursor? && a.handle == h && PeekCode(s.queue, h) == NoError)
      && !(a.Rebind? && a.handle == h && !Refuses(s, a.key, h))
  {
    FreeExact(s, a, h);
    assert h in s.queue.cursors.Keys && h < NextHandle(s.queue.cursors.Keys);
  }
}
