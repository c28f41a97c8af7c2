/**
 What the acts of Lifecycle do to a queue's prospect (what it would show if all pending
 work were undone) and to its lost messages (hidden, with no claim to show them again).
 */
module Prospects {
  import opened Bytes
  import opened QueueModel
  import opened QueueOps
  import opened Claims
  import opened Outlooks
  import opened Lifecycle

  ghost function Retrieves(claims: Claims): set<WorkKey> {
    set k | k in claims && claims[k].kind.Retrieving?
  }

  /** The messages that are visible or held by a retrieve, in order. */
  ghost function Prospect(s: State): seq<QueueIndex> {
    Outlook(s.queue, s.claims, Retrieves(s.claims))
  }

  ghost function Lost(s: State): set<nat> {
    Orphans(s.queue, s.claims)
  }

  /** Acts that leave nothing behind once their work is undone. */
  ghost predicate Tentative(s: State, a: Act)
    requires Wf(s.queue) && Legal(s, a)
  {
    match a
    case Show(k) => s.claims[k].kind.Retrieving?
    case Drop(k) => s.claims[k].kind.Enqueueing?
    case Rebind(k, h) => !Refuses(s, k, h)
    case Forget(k) => false
    case Expire(now) => false
    case _ => true
  }

  /** The node that an act loses, if any. */
  ghost function Loses(s: State, a: Act): set<nat>
    requires Inv(s) && Legal(s, a)
  {
    match a
    case Forget(k) => {NodeOf(s.queue, s.claims[k])}
    case Rebind(k, h) => if Refuses(s, k, h) then {NodeOf(s.queue, s.claims[k])} else {}
    case _ => {}
  }

  // ---------- cursors alone ----------

  lemma {:induction false} SameTargets(q: Queue, q': Queue, claims: Claims, some: set<WorkKey>)
    requires forall k :: k in claims ==> claims[k].cursor in q.cursors && claims[k].cursor in q'.cursors
    requires forall k :: k in claims ==>
      q'.cursors[claims[k].cursor].target == q.cursors[claims[k].cursor].target
    ensures Targets(q', claims, some) == Targets(q, claims, some)
  {
  }

  lemma {:induction false} SameEffects(s: State, q': Queue)
    requires Inv(s) && q'.entries == s.queue.entries
    requires forall k :: k in s.claims ==> s.claims[k].cursor in q'.cursors
    requires forall k :: k in s.claims ==>
      q'.cursors[s.claims[k].cursor].target == s.queue.cursors[s.claims[k].cursor].target
    ensures Prospect(State(q', s.claims)) == Prospect(s) && Lost(State(q', s.claims)) == Lost(s)
  {
    SameTargets(s.queue, q', s.claims, Retrieves(s.claims));
    SameTargets(s.queue, q', s.claims, s.claims.Keys);
  }

  lemma {:induction false} OpenEffects(s: State)
    requires Inv(s)
    ensures Prospect(Do(s, Open)) == Prospect(s) && Lost(Do(s, Open)) == Lost(s)
  {
    OpenCursorSound(s.queue, s.claims);
    SameEffects(s, OpenCursor(s.queue));
  }

  lemma {:induction false} CloseEffects(s: State, h: Handle)
    requires Inv(s) && Free(s, h)
    ensures var s' := State(QueueOps.Close(s.queue, h), s.claims); Prospect(s') == Prospect(s) && Lost(s') == Lost(s)
  {
    SameEffects(s, QueueOps.Close(s.queue, h));
  }

  lemma {:induction false} MoveEffects(s: State, h: Handle, c: CursorVal)
    requires Inv(s) && Keeps(s, h, c)
    ensures var s' := State(s.queue.(cursors := s.queue.cursors[h := c]), s.claims);
      Prospect(s') == Prospect(s) && Lost(s') == Lost(s)
  {
    SameEffects(s, s.queue.(cursors := s.queue.cursors[h := c]));
  }

  lemma {:induction false} SeekEffects(s: State, id: bytes, h: Handle)
    requires Inv(s) && (Free(s, h) || SeekID(s.queue, id, h).0 == s.queue)
    ensures Prospect(State(SeekID(s.queue, id, h).0, s.claims)) == Prospect(s)
    ensures Lost(State(SeekID(s.queue, id, h).0, s.claims)) == Lost(s)
  {
    if SeekID(s.queue, id, h).0 != s.queue {
      var c := SeekMoves(s.queue, id, h);
      MoveEffects(s, h, c);
    }
  }

  // ---------- claims ----------

  lemma {:induction false} AddEffects(s: State, k: WorkKey, item: QueueIndex)
    requires Inv(s) && Legal(s, Add(k, item))
    ensures Prospect(Do(s, Add(k, item))) == Prospect(s) && Lost(Do(s, Add(k, item))) == Lost(s)
  {
    var w := Pending(NextHandle(s.queue.cursors.Keys), Enqueueing);
    FreshUnclaimed(s, k);
    RetrievesSame(s.claims, k, w);
    EnqueueOutlook(s.queue, s.claims, Retrieves(s.claims), k, item, w);
    EnqueueOrphans(s.queue, s.claims, k, item, w);
  }

  lemma {:induction false} RetrievesSame(claims: Claims, k: WorkKey, w: Work)
    requires k !in claims && w.kind.Enqueueing?
    ensures Retrieves(claims[k := w]) == Retrieves(claims)
  {
  }

  lemma {:induction false} HideEffects(s: State, k: WorkKey, h: Handle)
    requires Inv(s) && k !in s.claims && TestCursor(s.queue, h) == NoError
    requires !IsHidden(s.queue.entries, s.queue.cursors[h].target.node)
    ensures var s' := State(Hide(s.queue, s.queue.cursors[h].target.node), s.claims[k := Pending(h, Retrieving)]);
      Prospect(s') == Prospect(s) && Lost(s') == Lost(s)
  {
    var w := Pending(h, Retrieving);
    TakeOutlook(s.queue, s.claims, Retrieves(s.claims), k, w);
    TakeOrphans(s.queue, s.claims, k, w);
    assert Retrieves(s.claims[k := w]) == Retrieves(s.claims) + {k};
  }

  lemma {:induction false} TakeEffects(s: State, k: WorkKey)
    requires Inv(s) && Legal(s, Take(k))
    ensures Prospect(Do(s, Take(k))) == Prospect(s) && Lost(Do(s, Take(k))) == Lost(s)
  {
    var h, s1 := NextHandle(s.queue.cursors.Keys), Do(s, Open);
    OpenInv(s);
    OpenedFree(s);
    OpenEffects(s);
    FirstVisibleShows(s.queue.entries);
    if FirstVisible(s.queue.entries) == End {
      CloseEffects(s1, h);
    } else {
      NamesSetPurged(s.queue.entries, FirstVisible(s.queue.entries).node, true);
      VisibleUnclaimed(s1, FirstVisible(s.queue.entries).node, k);
      HideEffects(s1, k, h);
    }
  }

  lemma {:induction false} FoundEffects(s: State, code: ErrorCode, k: WorkKey, h: Handle)
    requires Inv(s) && Free(s, h) && h in s.queue.cursors && s.queue.cursors[h].valid
    requires Delivers(Found(s.queue, code, h).0, Found(s.queue, code, h).1, h, k)
    ensures var s' := Taken(Found(s.queue, code, h), s.claims, k, h); Prospect(s') == Prospect(s) && Lost(s') == Lost(s)
  {
    if code != NoError {
      CloseEffects(s, h);
    } else if s.queue.cursors[h].target.At? && !IsHidden(s.queue.entries, s.queue.cursors[h].target.node) {
      NamesSetPurged(s.queue.entries, s.queue.cursors[h].target.node, true);
      VisibleUnclaimed(s, s.queue.cursors[h].target.node, k);
      HideEffects(s, k, h);
    }
  }

  lemma {:induction false} SoughtEffects(s: State, k: WorkKey, id: bytes, h: Handle)
    requires Inv(s) && Free(s, h) && h in s.queue.cursors && s.queue.cursors[h].valid && OnEntry(s.queue, h)
    requires s.queue.cursors[h].tied ==> s.queue.cursors[h].target == First(s.queue.entries)
    requires var r := Found(SeekID(s.queue, id, h).0, SeekID(s.queue, id, h).1, h); Delivers(r.0, r.1, h, k)
    ensures Prospect(Taken(Found(SeekID(s.queue, id, h).0, SeekID(s.queue, id, h).1, h), s.claims, k, h)) == Prospect(s)
    ensures Lost(Taken(Found(SeekID(s.queue, id, h).0, SeekID(s.queue, id, h).1, h), s.claims, k, h)) == Lost(s)
  {
    SeekInv(s, id, h);
    SeekTied(s.queue, id, h);
    SeekEffects(s, id, h);
    FoundEffects(State(SeekID(s.queue, id, h).0, s.claims), SeekID(s.queue, id, h).1, k, h);
  }

  lemma {:induction false} TakeIDEffects(s: State, k: WorkKey, id: bytes)
    requires Inv(s) && Legal(s, TakeID(k, id))
    ensures Prospect(Do(s, TakeID(k, id))) == Prospect(s) && Lost(Do(s, TakeID(k, id))) == Lost(s)
  {
    OpenInv(s);
    OpenedFree(s);
    OpenEffects(s);
    SoughtEffects(Do(s, Open), k, id, NextHandle(s.queue.cursors.Keys));
  }

  lemma {:induction false} TakeCursorEffects(s: State, k: WorkKey, h: Handle)
    requires Inv(s) && Legal(s, TakeCursor(k, h))
    ensures Prospect(Do(s, TakeCursor(k, h))) == Prospect(s) && Lost(Do(s, TakeCursor(k, h))) == Lost(s)
  {
    if PeekCode(s.queue, h) == NoError {
      NamesSetPurged(s.queue.entries, s.queue.cursors[h].target.node, true);
      VisibleUnclaimed(s, s.queue.cursors[h].target.node, k);
      HideEffects(s, k, h);
    }
  }

  /** Changing what a claim says, or its handle on the same message. */
  lemma {:induction false} RecordEffects(s: State, k: WorkKey, w: Work)
    requires Inv(s) && k in s.claims && Holds(s.queue, w.cursor)
    requires NodeOf(s.queue, w) == NodeOf(s.queue, s.claims[k]) && w.kind == s.claims[k].kind
    ensures Prospect(State(s.queue, s.claims[k := w])) == Prospect(s)
    ensures Lost(State(s.queue, s.claims[k := w])) == Lost(s)
  {
    RetrievesRecord(s.claims, k, w);
    RecordTargets(s.queue, s.claims, k, w, Retrieves(s.claims));
    RecordTargets(s.queue, s.claims, k, w, s.claims.Keys);
  }

  lemma {:induction false} RetrievesRecord(claims: Claims, k: WorkKey, w: Work)
    requires k in claims && w.kind == claims[k].kind
    ensures Retrieves(claims[k := w]) == Retrieves(claims) && claims[k := w].Keys == claims.Keys
  {
  }

  lemma {:induction false} RecordTargets(q: Queue, claims: Claims, k: WorkKey, w: Work, some: set<WorkKey>)
    requires Sound(q, claims) && k in claims && Holds(q, w.cursor) && NodeOf(q, w) == NodeOf(q, claims[k])
    ensures Targets(q, claims[k := w], some) == Targets(q, claims, some)
  {
    var claims' := claims[k := w];
    forall m | m in Targets(q, claims, some) ensures m in Targets(q, claims', some) {
      var l :| l in some && l in claims && q.cursors[claims[l].cursor].target == At(m);
      assert l in claims' && q.cursors[claims'[l].cursor].target == At(m);
    }
    forall m | m in Targets(q, claims', some) ensures m in Targets(q, claims, some) {
      var l :| l in some && l in claims' && q.cursors[claims'[l].cursor].target == At(m);
      assert l in claims && q.cursors[claims[l].cursor].target == At(m);
    }
  }

  lemma {:induction false} RebindEffects(s: State, k: WorkKey, h: Handle)
    requires Inv(s) && Legal(s, Rebind(k, h)) && !Refuses(s, k, h) && Free(s, h)
    ensures Prospect(Do(s, Rebind(k, h))) == Prospect(s) && Lost(Do(s, Rebind(k, h))) == Lost(s)
  {
    var c := s.queue.cursors[s.claims[k].cursor];
    var q' := s.queue.(cursors := s.queue.cursors[h := c]);
    RebindIs(s, k, h);
    TakenOver(s.queue, s.claims[k].cursor, h);
    MoveInv(s, h, c);
    MoveEffects(s, h, c);
    RecordEffects(State(q', s.claims), k, s.claims[k].(cursor := h));
  }

  lemma {:induction false} RebindIs(s: State, k: WorkKey, h: Handle)
    requires Inv(s) && Legal(s, Rebind(k, h)) && !Refuses(s, k, h) && Free(s, h)
    ensures s.claims[k].cursor != h && s.claims[k].cursor in s.queue.cursors
    ensures Do(s, Rebind(k, h)) == State(
      s.queue.(cursors := s.queue.cursors[h := s.queue.cursors[s.claims[k].cursor]]),
      s.claims[k := s.claims[k].(cursor := h)])
  {
  }

  lemma {:induction false} ShowProspect(s: State, k: WorkKey)
    requires Inv(s) && k in s.claims && s.claims[k].kind.Retrieving?
    ensures Prospect(State(Unhide(s.queue, s.claims[k].cursor), s.claims - {k})) == Prospect(s)
  {
    RetrievesLess(s.claims, k);
    UnhideOutlook(s.queue, s.claims, Retrieves(s.claims), k);
  }

  lemma {:induction false} RetrievesLess(claims: Claims, k: WorkKey)
    ensures Retrieves(claims - {k}) == Retrieves(claims) - {k}
  {
  }

  lemma {:induction false} ShowOrphans(q: Queue, claims: Claims, k: WorkKey)
    requires Sound(q, claims) && k in claims
    ensures Orphans(Unhide(q, claims[k].cursor), claims - {k}) == Orphans(q, claims)
  {
    UnhideOutlook(q, claims, claims.Keys, k);
    HandlesDiffer(q, claims);
    TargetsDrop(q, Unhide(q, claims[k].cursor), claims, claims.Keys, k);
    TargetOf(q, claims, claims.Keys, k);
    assert (claims - {k}).Keys == claims.Keys - {k};
  }

  lemma {:induction false} DropProspect(s: State, k: WorkKey)
    requires Inv(s) && k in s.claims && s.claims[k].kind.Enqueueing?
    ensures Prospect(State(Discard(s.queue, s.claims[k].cursor), s.claims - {k})) == Prospect(s)
  {
    RetrievesLess(s.claims, k);
    NotRetrieved(s.claims, k);
    DiscardOutlook(s.queue, s.claims, Retrieves(s.claims), k);
  }

  lemma {:induction false} NotRetrieved(claims: Claims, k: WorkKey)
    requires k in claims && claims[k].kind.Enqueueing?
    ensures k !in Retrieves(claims) && Retrieves(claims) - {k} == Retrieves(claims)
  {
  }

  lemma {:induction false} DropOrphans(q: Queue, claims: Claims, k: WorkKey)
    requires Sound(q, claims) && k in claims
    ensures Orphans(Discard(q, claims[k].cursor), claims - {k}) == Orphans(q, claims)
  {
    DiscardOutlook(q, claims, {}, k);
    DropTargets(q, claims, k);
    TargetsDrop(q, Discard(q, claims[k].cursor), claims, claims.Keys, k);
    TargetOf(q, claims, claims.Keys, k);
    assert (claims - {k}).Keys == claims.Keys - {k};
  }

  lemma {:induction false} ForgetEffects(s: State, k: WorkKey)
    requires Inv(s) && k in s.claims
    ensures Lost(State(s.queue, s.claims - {k})) == Lost(s) + {NodeOf(s.queue, s.claims[k])}
  {
    TargetsDrop(s.queue, s.queue, s.claims, s.claims.Keys, k);
    TargetOf(s.queue, s.claims, s.claims.Keys, k);
    HiddenIs(s.queue.entries, NodeOf(s.queue, s.claims[k]));
    assert (s.claims - {k}).Keys == s.claims.Keys - {k};
  }

  lemma {:induction false} ExpireEffects(s: State, now: int)
    requires Inv(s)
    ensures Lost(Do(s, Expire(now))) == Lost(s)
  {
    HiddenUnexpired(s.queue.entries, now);
    ExpireTargets(s, now);
    SameTargets(s.queue, TTLPurge(s.queue, now), s.claims, s.claims.Keys);
  }

  lemma {:induction false} AdvanceEffects(s: State, h: Handle)
    requires Inv(s) && Free(s, h)
    ensures Prospect(Do(s, Advance(h))) == Prospect(s) && Lost(Do(s, Advance(h))) == Lost(s)
  {
    if TestCursor(s.queue, h) == NoError {
      MoveEffects(s, h, CursorVal(Next(s.queue.entries, s.queue.cursors[h].target.node), true, false));
    }
  }

  lemma {:induction false} CopyEffects(s: State, dst: Handle, src: Handle)
    requires Inv(s) && Clean(s, Copy(dst, src))
    ensures Prospect(Do(s, Copy(dst, src))) == Prospect(s) && Lost(Do(s, Copy(dst, src))) == Lost(s)
  {
    if CopyCursor(s.queue, dst, src).1 == NoError {
      MoveEffects(s, dst, Copied(s.queue, dst, src));
    }
  }

  // ---------- every act ----------

  /**
   Only a claim that is forgotten, or that could not be taken over, loses a message: every
   other act leaves the lost messages as they are.
   */
  lemma {:induction false} DoLoses(s: State, a: Act)
    requires Inv(s) && Legal(s, a) && Clean(s, a)
    ensures Lost(Do(s, a)) == Lost(s) + Loses(s, a)
  {
    assert Lost(s) + {} == Lost(s);
    match a
    case Add(k, item) => AddEffects(s, k, item);
    case Take(k) => TakeEffects(s, k);
    case TakeID(k, id) => TakeIDEffects(s, k, id);
    case TakeCursor(k, h) => TakeCursorEffects(s, k, h);
    case Rebind(k, h) =>
      if Refuses(s, k, h) {
        RefusedIs(s, k, h);
        ForgetEffects(s, k);
      } else {
        RebindEffects(s, k, h);
      }
    case Register(k) => RecordEffects(s, k, s.claims[k].(sent := true));
    case Acknowledge(k) => RecordEffects(s, k, s.claims[k].(acknowledged := true));
    case Show(k) => ShowOrphans(s.queue, s.claims, k);
    case Drop(k) => DropOrphans(s.queue, s.claims, k);
    case Forget(k) => ForgetEffects(s, k);
    case Open => OpenEffects(s);
    case Close(h) => CloseEffects(s, h);
    case Advance(h) => AdvanceEffects(s, h);
    case Copy(dst, src) => CopyEffects(s, dst, src);
    case Seek(id, h) => SeekEffects(s, id, h);
    case Expire(now) => ExpireEffects(s, now);
  }

  /** A tentative act leaves the prospect as it is. */
  lemma {:induction false} DoTentative(s: State, a: Act)
    requires Inv(s) && Legal(s, a) && Clean(s, a) && Tentative(s, a)
    ensures Prospect(Do(s, a)) == Prospect(s)
  {
    match a
    case Add(k, item) => AddEffects(s, k, item);
    case Take(k) => TakeEffects(s, k);
    case TakeID(k, id) => TakeIDEffects(s, k, id);
    case TakeCursor(k, h) => TakeCursorEffects(s, k, h);
    case Rebind(k, h) => RebindEffects(s, k, h);
    case Register(k) => RecordEffects(s, k, s.claims[k].(sent := true));
    case Acknowledge(k) => RecordEffects(s, k, s.claims[k].(acknowledged := true));
    case Show(k) => ShowProspect(s, k);
    case Drop(k) => DropProspect(s, k);
    case Forget(k) =>
    case Open => OpenEffects(s);
    case Close(h) => CloseEffects(s, h);
    case Advance(h) => AdvanceEffects(s, h);
    case Copy(dst, src) => CopyEffects(s, dst, src);
    case Seek(id, h) => SeekEffects(s, id, h);
    case Expire(now) =>
  }

  // ---------- with nothing pending ----------

  lemma {:induction false} NothingPending(s: State)
    requires s.claims == map[]
    ensures Prospect(s) == Visible(s.queue)
  {
    assert HiddenNodes(s.queue.entries) - Targets(s.queue, s.claims, Retrieves(s.claims)) ==
      HiddenNodes(s.queue.entries);
  }

  /** Hidden if and only if some pending work claims it, and then no more than one does. */
  ghost predicate VisibleOrClaimed(s: State, n: nat)
    requires Inv(s)
  {
    && (IsHidden(s.queue.entries, n) <==> exists k :: k in s.claims && NodeOf(s.queue, s.claims[k]) == n)
    && (forall k, l ::
      k in s.claims && l in s.claims && NodeOf(s.queue, s.claims[k]) == n == NodeOf(s.queue, s.claims[l]) ==> k == l)
  }

  /**
   The exclusive life cycle: with nothing lost, every entry is either visible or claimed,
   and claimed by one piece of work alone.
   */
  lemma {:induction false} Exclusive(s: State, n: nat)
    requires Inv(s) && Lost(s) == {} && Has(s.queue.entries, n)
    ensures VisibleOrClaimed(s, n)
  {
    if IsHidden(s.queue.entries, n) {
      HiddenIs(s.queue.entries, n);
      assert n !in Lost(s);
      var k :| k in s.claims && s.claims[k].cursor in s.queue.cursors
        && s.queue.cursors[s.claims[k].cursor].target == At(n);
      assert NodeOf(s.queue, s.claims[k]) == n;
    }
  }
}
