/**
 One queue and the work that sessions have pending on it.

 A claim is a handle that a session will finalize or cancel: on a message that it is
 enqueueing, or on one that it retrieves. The invariant `Sound` says that every claim's
 handle is on a hidden entry of its own. The one thing that can break it is an enqueue
 ahead of the front while a claim still shares the begin cursor's position (`Overtakes`).
 */
module Claims {
  import opened Bytes
  import opened QueueModel
  import opened QueueOps

  datatype WorkKey = WorkKey(session: nat, queue: nat, message: bytes)

  datatype Kind = Enqueueing | Retrieving

  /** `sent`: registered with the session's transactions; before, the running command holds it. */
  datatype Work = Work(cursor: Handle, kind: Kind, acknowledged: bool, sent: bool)

  type Claims = map<WorkKey, Work>

  // ---------- the invariant ----------

  /** A handle on a hidden entry; if it shares the begin position, that entry is the front. */
  ghost predicate Holds(q: Queue, h: Handle) {
    && TestCursor(q, h) == NoError
    && IsHidden(q.entries, q.cursors[h].target.node)
    && (q.cursors[h].tied ==> q.cursors[h].target == First(q.entries))
  }

  ghost function NodeOf(q: Queue, w: Work): nat
    requires Holds(q, w.cursor)
  {
    q.cursors[w.cursor].target.node
  }

  ghost predicate Sound(q: Queue, claims: Claims) {
    && Wf(q)
    && (forall k :: k in claims ==> Holds(q, claims[k].cursor))
    && (forall k, l :: k in claims && l in claims && k != l ==> NodeOf(q, claims[k]) != NodeOf(q, claims[l]))
  }

  /** The enqueue would put a message in front of one that a claim holds through the begin position. */
  ghost predicate Overtakes(q: Queue, claims: Claims, item: QueueIndex) {
    && q.entries != [] && InsertPos(Items(q.entries), item) == 0
    && exists k :: k in claims && claims[k].cursor in q.cursors && q.cursors[claims[k].cursor].tied
  }

  // ---------- hidden entries ----------

  ghost function HiddenNodes(es: seq<Entry>): set<nat> {
    set e | e in es && e.item.purged :: e.node
  }

  lemma {:induction false} HiddenIs(es: seq<Entry>, n: nat)
    requires Unique(es)
    ensures n in HiddenNodes(es) <==> IsHidden(es, n)
  {
    if n in HiddenNodes(es) {
      var e :| e in es && e.item.purged && e.node == n;
      var i :| 0 <= i < |es| && es[i] == e;
      IndexOfUnique(es, i);
    }
    if IsHidden(es, n) {
      assert es[IndexOf(es, n)] in es;
    }
  }

  lemma {:induction false} HiddenConcat(a: seq<Entry>, b: seq<Entry>)
    ensures HiddenNodes(a + b) == HiddenNodes(a) + HiddenNodes(b)
  {
  }

  lemma {:induction false} HiddenOne(e: Entry)
    ensures HiddenNodes([e]) == if e.item.purged then {e.node} else {}
  {
    assert e in [e];
  }

  lemma {:induction false} HiddenSplice(a: seq<Entry>, e: Entry, b: seq<Entry>)
    ensures HiddenNodes(a + [e] + b) == HiddenNodes(a + b) + if e.item.purged then {e.node} else {}
  {
    HiddenConcat(a, [e]);
    HiddenConcat(a + [e], b);
    HiddenConcat(a, b);
    HiddenOne(e);
  }

  lemma {:induction false} HiddenInsert(es: seq<Entry>, e: Entry)
    requires e.item.purged
    ensures HiddenNodes(Insert(es, e)) == HiddenNodes(es) + {e.node}
  {
    var k := InsertPos(Items(es), e.item);
    assert es == es[..k] + es[k..];
    HiddenSplice(es[..k], e, es[k..]);
  }

  lemma {:induction false} HiddenRemove(es: seq<Entry>, n: nat)
    requires Unique(es)
    ensures HiddenNodes(Remove(es, n)) == HiddenNodes(es) - {n}
  {
    var k := IndexOf(es, n);
    if k != -1 {
      assert es == es[..k] + [es[k]] + es[k + 1..];
      HiddenSplice(es[..k], es[k], es[k + 1..]);
      RemoveUnique(es, n);
      RemoveNodes(es, n);
      assert HiddenNodes(Remove(es, n)) <= Nodes(Remove(es, n));
    } else {
      assert HiddenNodes(es) <= Nodes(es);
    }
  }

  lemma {:induction false} HiddenSetPurged(es: seq<Entry>, n: nat, purged: bool)
    requires Unique(es) && Has(es, n)
    ensures HiddenNodes(SetPurged(es, n, purged)) == if purged then HiddenNodes(es) + {n} else HiddenNodes(es) - {n}
  {
    var k := IndexOf(es, n);
    var e' := SetPurged(es, n, purged)[k];
    assert SetPurged(es, n, purged) == es[..k] + [e'] + es[k + 1..];
    HiddenSplice(es[..k], e', es[k + 1..]);
    HiddenRemove(es, n);
  }

  // ---------- what the operations do to claims ----------

  /** Whatever keeps a claim's handle, its entry's flag and the front, keeps the claim. */
  lemma {:induction false} HoldsKept(q: Queue, q': Queue, h: Handle)
    requires Holds(q, h) && Unique(q.entries) && Unique(q'.entries)
    requires h in q'.cursors && q'.cursors[h] == q.cursors[h]
    requires q.cursors[h].target.node in HiddenNodes(q'.entries)
    requires q.cursors[h].tied ==> First(q'.entries) == First(q.entries)
    ensures Holds(q', h)
  {
    HiddenIs(q'.entries, q.cursors[h].target.node);
  }

  /** The handle has its value, its entry is hidden, and the front is where it was if that matters. */
  ghost predicate StillOn(q: Queue, q': Queue, h: Handle)
    requires Holds(q, h)
  {
    && h in q'.cursors && q'.cursors[h] == q.cursors[h]
    && q.cursors[h].target.node in HiddenNodes(q'.entries)
    && (q.cursors[h].tied ==> First(q'.entries) == First(q.entries))
  }

  /** The claims stay sound if all their handles and entries are kept. */
  lemma {:induction false} SoundKept(q: Queue, q': Queue, claims: Claims)
    requires Sound(q, claims) && Wf(q')
    requires forall k :: k in claims ==> StillOn(q, q', claims[k].cursor)
    ensures Sound(q', claims)
  {
    forall k | k in claims ensures Holds(q', claims[k].cursor) && NodeOf(q', claims[k]) == NodeOf(q, claims[k]) {
      HoldsKept(q, q', claims[k].cursor);
    }
  }

  /** A new claim on an entry that no other claim is on. */
  lemma {:induction false} SoundAdd(q: Queue, claims: Claims, k: WorkKey, w: Work)
    requires Sound(q, claims) && k !in claims && Holds(q, w.cursor)
    requires forall l :: l in claims ==> NodeOf(q, claims[l]) != NodeOf(q, w)
    ensures Sound(q, claims[k := w])
  {
  }

  lemma {:induction false} SoundDrop(q: Queue, claims: Claims, k: WorkKey)
    requires Sound(q, claims)
    ensures Sound(q, claims - {k})
  {
  }

  lemma {:induction false} FirstInsert(es: seq<Entry>, e: Entry)
    requires es != [] && InsertPos(Items(es), e.item) > 0
    ensures First(Insert(es, e)) == First(es)
  {
  }

  lemma {:induction false} FirstRemove(es: seq<Entry>, n: nat)
    requires First(es) != At(n)
    ensures First(Remove(es, n)) == First(es)
  {
  }

  lemma {:induction false} EnqueueStillOn(q: Queue, item: QueueIndex, h: Handle)
    requires Wf(q) && Holds(q, h)
    requires q.cursors[h].tied ==> InsertPos(Items(q.entries), item.(purged := true)) > 0
    ensures StillOn(q, Enqueue(q, item), h) && h < NextHandle(q.cursors.Keys)
  {
    var e := Entry(q.nextNode, item.(purged := true));
    HiddenInsert(q.entries, e);
    HiddenIs(q.entries, q.cursors[h].target.node);
    if q.cursors[h].tied {
      FirstInsert(q.entries, e);
    }
    assert h in q.cursors.Keys;
  }

  /** The new handle is on the new entry. */
  lemma {:induction false} EnqueueHolds(q: Queue, item: QueueIndex)
    requires Wf(q)
    ensures Holds(Enqueue(q, item), NextHandle(q.cursors.Keys))
  {
    var e := Entry(q.nextNode, item.(purged := true));
    EnqueueWf(q, item);
    HiddenInsert(q.entries, e);
    HiddenIs(Enqueue(q, item).entries, e.node);
  }

  lemma {:induction false} EnqueueSound(q: Queue, claims: Claims, k: WorkKey, item: QueueIndex, w: Work)
    requires Sound(q, claims) && k !in claims && w.cursor == NextHandle(q.cursors.Keys)
    requires !Overtakes(q, claims, item.(purged := true))
    ensures Sound(Enqueue(q, item), claims[k := w])
  {
    EnqueueWf(q, item);
    EnqueueHolds(q, item);
    forall l | l in claims ensures StillOn(q, Enqueue(q, item), claims[l].cursor) && NodeOf(q, claims[l]) < q.nextNode {
      assert NodeOf(q, claims[l]) in Nodes(q.entries);
      EnqueueStillOn(q, item, claims[l].cursor);
    }
    SoundKept(q, Enqueue(q, item), claims);
    SoundAdd(Enqueue(q, item), claims, k, w);
  }

  lemma {:induction false} DiscardStillOn(q: Queue, h: Handle, g: Handle)
    requires Wf(q) && Holds(q, h) && Holds(q, g) && q.cursors[g].target != q.cursors[h].target
    ensures StillOn(q, Discard(q, h), g)
  {
    var n := q.cursors[h].target.node;
    HiddenRemove(q.entries, n);
    HiddenIs(q.entries, q.cursors[g].target.node);
    if q.cursors[g].tied {
      FirstRemove(q.entries, n);
    }
  }

  lemma {:induction false} DiscardSound(q: Queue, claims: Claims, k: WorkKey)
    requires Sound(q, claims) && k in claims
    ensures Sound(Discard(q, claims[k].cursor), claims - {k})
  {
    var q', rest := Discard(q, claims[k].cursor), claims - {k};
    DiscardWf(q, claims[k].cursor);
    SoundDrop(q, claims, k);
    forall l | l in rest ensures StillOn(q, q', rest[l].cursor) {
      DiscardStillOn(q, claims[k].cursor, claims[l].cursor);
    }
    SoundKept(q, q', rest);
  }

  lemma {:induction false} FirstSetPurged(es: seq<Entry>, n: nat, purged: bool)
    ensures First(SetPurged(es, n, purged)) == First(es)
  {
  }

  lemma {:induction false} UnhideStillOn(q: Queue, h: Handle, g: Handle)
    requires Wf(q) && Holds(q, h) && Holds(q, g) && q.cursors[g].target != q.cursors[h].target
    ensures StillOn(q, Unhide(q, h), g)
  {
    var n := q.cursors[h].target.node;
    HiddenSetPurged(q.entries, n, false);
    FirstSetPurged(q.entries, n, false);
    HiddenIs(q.entries, q.cursors[g].target.node);
  }

  lemma {:induction false} UnhideSound(q: Queue, claims: Claims, k: WorkKey)
    requires Sound(q, claims) && k in claims
    ensures Sound(Unhide(q, claims[k].cursor), claims - {k})
  {
    var q', rest := Unhide(q, claims[k].cursor), claims - {k};
    UnhideWf(q, claims[k].cursor);
    SoundDrop(q, claims, k);
    forall l | l in rest ensures StillOn(q, q', rest[l].cursor) {
      UnhideStillOn(q, claims[k].cursor, claims[l].cursor);
    }
    SoundKept(q, q', rest);
  }

  lemma {:induction false} OpenStillOn(q: Queue, h: Handle)
    requires Wf(q) && Holds(q, h)
    ensures StillOn(q, OpenCursor(q), h)
  {
    HiddenIs(q.entries, q.cursors[h].target.node);
    assert h in q.cursors.Keys;
  }

  lemma {:induction false} OpenCursorSound(q: Queue, claims: Claims)
    requires Sound(q, claims)
    ensures Sound(OpenCursor(q), claims)
    ensures forall k :: k in claims ==> OpenCursor(q).cursors[claims[k].cursor] == q.cursors[claims[k].cursor]
  {
    OpenCursorWf(q);
    forall k | k in claims ensures StillOn(q, OpenCursor(q), claims[k].cursor) {
      OpenStillOn(q, claims[k].cursor);
    }
    SoundKept(q, OpenCursor(q), claims);
  }

  lemma {:induction false} TakeStillOn(q: Queue, n: nat, h: Handle)
    requires Wf(q) && Holds(q, h) && Has(q.entries, n) && !IsHidden(q.entries, n)
    ensures StillOn(q, Hide(q, n), h) && q.cursors[h].target != At(n)
  {
    HiddenSetPurged(q.entries, n, true);
    FirstSetPurged(q.entries, n, true);
    HiddenIs(q.entries, q.cursors[h].target.node);
  }

  lemma {:induction false} TakeHolds(q: Queue, h: Handle)
    requires Wf(q) && TestCursor(q, h) == NoError
    requires q.cursors[h].tied ==> q.cursors[h].target == First(q.entries)
    ensures Wf(Hide(q, q.cursors[h].target.node)) && Holds(Hide(q, q.cursors[h].target.node), h)
  {
    var n := q.cursors[h].target.node;
    assert n in ValidTargets(q.cursors);
    SetPurgedWf(q.entries, q.cursors, q.nextNode, n, true);
    HiddenSetPurged(q.entries, n, true);
    FirstSetPurged(q.entries, n, true);
    HiddenIs(Hide(q, n).entries, n);
  }

  lemma {:induction false} TakeSound(q: Queue, claims: Claims, k: WorkKey, w: Work)
    requires Sound(q, claims) && k !in claims
    requires TestCursor(q, w.cursor) == NoError && !IsHidden(q.entries, q.cursors[w.cursor].target.node)
    requires q.cursors[w.cursor].tied ==> q.cursors[w.cursor].target == First(q.entries)
    ensures Sound(Hide(q, q.cursors[w.cursor].target.node), claims[k := w])
  {
    var n := q.cursors[w.cursor].target.node;
    assert n in ValidTargets(q.cursors);
    TakeHolds(q, w.cursor);
    forall l | l in claims ensures StillOn(q, Hide(q, n), claims[l].cursor) && NodeOf(q, claims[l]) != n {
      TakeStillOn(q, n, claims[l].cursor);
    }
    SoundKept(q, Hide(q, n), claims);
    SoundAdd(Hide(q, n), claims, k, w);
  }

  /** BeginRetrieve delivers a visible message and claims it. */
  lemma {:induction false} BeginRetrieveSound(q: Queue, claims: Claims, k: WorkKey, w: Work)
    requires Sound(q, claims) && k !in claims && w.cursor == NextHandle(q.cursors.Keys)
    ensures var (q', code) := BeginRetrieve(q);
      Sound(q', if code == NoError then claims[k := w] else claims)
  {
    OpenCursorSound(q, claims);
    FirstVisibleShows(q.entries);
    var q1 := OpenCursor(q);
    if FirstVisible(q.entries) == End {
      CloseSound(q1, claims, w.cursor);
    } else {
      TakeSound(q1, claims, k, w);
    }
  }

  /** Closing a handle that no claim uses. */
  lemma {:induction false} CloseSound(q: Queue, claims: Claims, h: Handle)
    requires Sound(q, claims) && forall k :: k in claims ==> claims[k].cursor != h
    ensures Sound(Close(q, h), claims)
  {
    ClaimedHidden(q, claims);
    SoundKept(q, Close(q, h), claims);
  }

  lemma {:induction false} ClaimedHidden(q: Queue, claims: Claims)
    requires Sound(q, claims)
    ensures forall k :: k in claims ==> q.cursors[claims[k].cursor].target.node in HiddenNodes(q.entries)
  {
    forall k | k in claims ensures q.cursors[claims[k].cursor].target.node in HiddenNodes(q.entries) {
      HiddenIs(q.entries, NodeOf(q, claims[k]));
    }
  }

  /** Moving a handle that no claim uses. */
  lemma {:induction false} MoveSound(q: Queue, claims: Claims, h: Handle, c: CursorVal)
    requires Sound(q, claims) && forall k :: k in claims ==> claims[k].cursor != h
    requires Wf(q.(cursors := q.cursors[h := c]))
    ensures Sound(q.(cursors := q.cursors[h := c]), claims)
  {
    ClaimedHidden(q, claims);
    SoundKept(q, q.(cursors := q.cursors[h := c]), claims);
  }

  lemma {:induction false} HiddenUnexpired(es: seq<Entry>, now: int)
    ensures HiddenNodes(Unexpired(es, now)) == HiddenNodes(es)
  {
    UnexpiredMembers(es, now);
    forall n | n in HiddenNodes(es) ensures n in HiddenNodes(Unexpired(es, now)) {
      var e :| e in es && e.item.purged && e.node == n;
      assert e in Unexpired(es, now);
    }
  }

  /** Expiry touches no claimed message. */
  lemma {:induction false} TTLPurgeSound(q: Queue, claims: Claims, now: int)
    requires Sound(q, claims)
    ensures Sound(TTLPurge(q, now), claims)
  {
    TTLPurgeWf(q, now);
    ClaimedHidden(q, claims);
    HiddenUnexpired(q.entries, now);
    forall k | k in claims
      ensures TTLPurge(q, now).cursors[claims[k].cursor] == q.cursors[claims[k].cursor]
      ensures q.cursors[claims[k].cursor].tied ==> First(Unexpired(q.entries, now)) == First(q.entries)
    {
      var n := NodeOf(q, claims[k]);
      HiddenIs(q.entries, n);
      HiddenNotExpired(q.entries, now, n);
    }
    SoundKept(q, TTLPurge(q, now), claims);
  }

  lemma {:induction false} HiddenNotExpired(es: seq<Entry>, now: int, n: nat)
    requires Unique(es) && n in HiddenNodes(es)
    ensures n !in ExpiredNodes(es, now)
    ensures First(es) == At(n) ==> First(Unexpired(es, now)) == At(n)
  {
    var e :| e in es && e.item.purged && e.node == n;
    var i :| 0 <= i < |es| && es[i] == e;
    forall f | f in es && Expired(f.item, now) ensures f.node != n {
      var j :| 0 <= j < |es| && es[j] == f;
    }
    if First(es) == At(n) {
      assert es[0] == e;
      assert Unexpired(es, now)[0] == e;
    }
  }

  /**
   `hasTTL` tells the purge whether to look. Showing a message does not set it, so it goes on
   covering all that may expire if and only if it is set already or the message lives for ever.
   */
  lemma {:induction false} ShownMayExpire(q: Queue, h: Handle, hasTTL: bool)
    requires Wf(q) && Holds(q, h) && (TTLPending(q.entries) ==> hasTTL)
    ensures (TTLPending(Unhide(q, h).entries) ==> hasTTL) <==>
      hasTTL || ItemAt(q.entries, q.cursors[h].target.node).ttl <= 0
  {
    var n, k := q.cursors[h].target.node, IndexOf(q.entries, q.cursors[h].target.node);
    var es := SetPurged(q.entries, n, false);
    assert es[k] in es && es[k].item.ttl == ItemAt(q.entries, n).ttl;
    if e :| e in es && !e.item.purged && e.item.ttl > 0 {
      var i :| 0 <= i < |es| && es[i] == e;
      assert i != k ==> q.entries[i] in q.entries;
    }
  }

  // ---------- overtaking ----------

  lemma {:induction false} FirstAfterInsert(es: seq<Entry>, e: Entry)
    ensures First(Insert(es, e)) == if InsertPos(Items(es), e.item) == 0 then At(e.node) else First(es)
  {
    if es != [] && InsertPos(Items(es), e.item) > 0 {
      FirstInsert(es, e);
    }
  }

  lemma {:induction false} EnqueueOpen(q: Queue, item: QueueIndex, h: Handle)
    requires h in q.cursors
    ensures var es := Insert(q.entries, Entry(q.nextNode, item.(purged := true)));
      OpenCursor(Enqueue(q, item)).cursors[h] == if q.cursors[h].tied then CursorVal(First(es), true, true)
        else q.cursors[h]
  {
    assert h < NextHandle(q.cursors.Keys);
    var q1 := Enqueue(q, item);
    assert h in q1.cursors.Keys && h < NextHandle(q1.cursors.Keys);
  }

  lemma {:induction false} ClaimMoved(q: Queue, claims: Claims, item: QueueIndex, k: WorkKey)
    requires Sound(q, claims) && k in claims
    ensures var h := claims[k].cursor;
      OpenCursor(Enqueue(q, item)).cursors[h] != q.cursors[h]
      <==> q.cursors[h].tied && InsertPos(Items(q.entries), item.(purged := true)) == 0
  {
    var h := claims[k].cursor;
    EnqueueOpen(q, item, h);
    FirstAfterInsert(q.entries, Entry(q.nextNode, item.(purged := true)));
    assert NodeOf(q, claims[k]) in Nodes(q.entries);
  }

  /**
   The exact condition: after an enqueue, the next begin() (here, the next cursor opened)
   leaves every claim's cursor where it was if and only if the enqueue did not overtake.
   */
  lemma {:induction false} OvertakeExact(q: Queue, claims: Claims, item: QueueIndex)
    requires Sound(q, claims)
    ensures var q' := OpenCursor(Enqueue(q, item));
      (forall k :: k in claims ==> q'.cursors[claims[k].cursor] == q.cursors[claims[k].cursor])
      <==> !Overtakes(q, claims, item.(purged := true))
  {
    forall k | k in claims
      ensures OpenCursor(Enqueue(q, item)).cursors[claims[k].cursor] != q.cursors[claims[k].cursor]
        <==> q.cursors[claims[k].cursor].tied && InsertPos(Items(q.entries), item.(purged := true)) == 0
      ensures q.entries != []
    {
      ClaimMoved(q, claims, item, k);
      assert NodeOf(q, claims[k]) in Nodes(q.entries);
    }
  }
}
