/**
 Where the code goes wrong: short runs in which one session's command spoils another's
 pending work, one for each restriction on clean runs, and one in which the purge of expired
 messages forgets to look again.
 */
module Overtaking {
  import opened Bytes
  import opened QueueModel
  import opened QueueOps
  import opened Claims
  import opened Lifecycle

  const LOW := QueueIndex(0, [1], 0, [], 0, 0, 0, 0, false)
  const HIGH := QueueIndex(1, [2], 0, [], 0, 0, 0, 0, false)

  // ---------- indexes of one and of two entries ----------

  lemma {:induction false} OneEntry(e: Entry)
    ensures IndexOf([e], e.node) == 0 && Has([e], e.node) && ItemAt([e], e.node) == e.item && Nodes([e]) == {e.node}
    ensures forall p :: SetPurged([e], e.node, p) == [e.(item := e.item.(purged := p))]
    ensures FirstVisible([e]) == if e.item.purged then End else At(e.node)
  {
    assert e in [e];
    assert [e][1..] == [];
  }

  lemma {:induction false} TwoEntries(a: Entry, b: Entry)
    requires a.node != b.node
    ensures IndexOf([a, b], a.node) == 0 && IndexOf([a, b], b.node) == 1
    ensures Nodes([a, b]) == {a.node, b.node} && Has([a, b], a.node) && Has([a, b], b.node)
    ensures ItemAt([a, b], a.node) == a.item && ItemAt([a, b], b.node) == b.item
    ensures FirstVisible([a, b]) == if !a.item.purged then At(a.node) else FirstVisible([b])
  {
    assert a in [a, b] && b in [a, b];
    assert [a, b][1..] == [b];
    OneEntry(b);
  }

  lemma {:induction false} TwoSet(a: Entry, b: Entry, p: bool)
    requires a.node != b.node
    ensures SetPurged([a, b], a.node, p) == [a.(item := a.item.(purged := p)), b]
    ensures SetPurged([a, b], b.node, p) == [a, b.(item := b.item.(purged := p))]
    ensures Remove([a, b], a.node) == [b]
  {
    TwoEntries(a, b);
  }

  // ---------- a put ahead of the front ----------

  /** One visible message, retrieved; then a put of higher priority; then anyone opens a cursor. */
  ghost function Overtaken(): Queue {
    OpenCursor(Enqueue(BeginRetrieve(Queue([Entry(0, LOW)], map[], 1)).0, HIGH))
  }

  lemma {:induction false} FirstTaken()
    ensures BeginRetrieve(Queue([Entry(0, LOW)], map[], 1)).0
      == Queue([Entry(0, LOW.(purged := true))], map[0 := CursorVal(At(0), true, true)], 1)
    ensures BeginRetrieve(Queue([Entry(0, LOW)], map[], 1)).1 == NoError
  {
    var q := Queue([Entry(0, LOW)], map[], 1);
    assert NextHandle(q.cursors.Keys) == 0;
    OneEntry(Entry(0, LOW));
  }

  lemma {:induction false} ThenPut()
    ensures var q := Enqueue(Queue([Entry(0, LOW.(purged := true))], map[0 := CursorVal(At(0), true, true)], 1), HIGH);
      q == Queue([Entry(1, HIGH.(purged := true)), Entry(0, LOW.(purged := true))],
                 map[0 := CursorVal(At(0), true, true), 1 := CursorVal(At(1), true, false)], 2)
  {
    var xs := Items([Entry(0, LOW.(purged := true))]);
    assert xs == [LOW.(purged := true)];
    assert InsertPos(xs, HIGH.(purged := true)) == 0;
    assert NextHandle({0}) == 1;
  }

  lemma {:induction false} ThenOpened()
    ensures var q := Overtaken();
      && q.entries == [Entry(1, HIGH.(purged := true)), Entry(0, LOW.(purged := true))]
      && 0 in q.cursors && q.cursors[0] == CursorVal(At(1), true, true)
  {
    FirstTaken();
    ThenPut();
    assert NextHandle({0, 1}) == 2;
  }

  /**
   The retrieve's handle is now on the pending enqueue. Cancelling the retrieve shows that
   message, which no session has committed, and leaves the retrieved one hidden.
   */
  lemma {:induction false} RollbackShowsAnother()
    ensures var q := Overtaken();
      && 0 in q.cursors && q.cursors[0] == CursorVal(At(1), true, true) && IsHidden(q.entries, 1)
      && !IsHidden(Unhide(q, 0).entries, 1) && IsHidden(Unhide(q, 0).entries, 0)
  {
    ThenOpened();
    var q := Overtaken();
    var high, low := Entry(1, HIGH.(purged := true)), Entry(0, LOW.(purged := true));
    TwoEntries(high, low);
    TwoSet(high, low, false);
    assert Unhide(q, 0).entries == [Entry(1, HIGH), low];
    TwoEntries(Entry(1, HIGH), low);
  }

  // ---------- a retrieve through a cursor that is out of date ----------

  const WRITER := WorkKey(1, 0, [2])
  const READER := WorkKey(2, 0, [1])

  /**
   A client's cursor shares the begin position, on a visible message; in front of it another
   session's enqueue is not final yet. No claim shares that position.
   */
  ghost function OutOfDate(): State {
    State(
      Queue([Entry(1, HIGH.(purged := true)), Entry(0, LOW)],
            map[0 := CursorVal(At(0), true, true), 1 := CursorVal(At(1), true, false)], 2),
      map[WRITER := Work(1, Enqueueing, false, true)])
  }

  lemma {:induction false} OutOfDateSound()
    ensures Sound(OutOfDate().queue, OutOfDate().claims)
  {
    TwoEntries(Entry(1, HIGH.(purged := true)), Entry(0, LOW));
  }

  lemma {:induction false} OutOfDateNames()
    ensures Names(OutOfDate().queue.entries) == {(1, [2]), (0, [1])}
  {
    var es := OutOfDate().queue.entries;
    assert es[0] in es && es[1] in es;
  }

  lemma {:induction false} OutOfDateInv()
    ensures Inv(OutOfDate())
  {
    OutOfDateSound();
    OutOfDateIds();
    OutOfDateNames();
  }

  lemma {:induction false} OutOfDateIds()
    ensures UniqueIds(OutOfDate().queue.entries)
  {
    OutOfDateNames();
    assert READER.message != WRITER.message;
  }

  lemma {:induction false} OutOfDateLegal()
    ensures Wf(OutOfDate().queue) && Legal(OutOfDate(), TakeCursor(READER, 0))
    ensures !Clean(OutOfDate(), TakeCursor(READER, 0))
  {
    OutOfDateSound();
    OutOfDateNames();
    CursorTaken();
  }

  /** The retrieve hides the message; its own openCursor then moves the cursor, and the handle is copied from there. */
  ghost function Misdirected(): Queue {
    CopyCursor(OpenCursor(BeginRetrieveCursor(OutOfDate().queue, 0).0), 2, 0).0
  }

  lemma {:induction false} CursorTaken()
    ensures PeekCode(OutOfDate().queue, 0) == NoError
    ensures BeginRetrieveCursor(OutOfDate().queue, 0).0
      == OutOfDate().queue.(entries := [Entry(1, HIGH.(purged := true)), Entry(0, LOW.(purged := true))])
  {
    TwoEntries(Entry(1, HIGH.(purged := true)), Entry(0, LOW));
    TwoSet(Entry(1, HIGH.(purged := true)), Entry(0, LOW), true);
  }

  lemma {:induction false} CursorMoved(q: Queue)
    requires q.entries == [Entry(1, HIGH.(purged := true)), Entry(0, LOW.(purged := true))]
    requires q.cursors == map[0 := CursorVal(At(0), true, true), 1 := CursorVal(At(1), true, false)]
    ensures OpenCursor(q) == q.(cursors :=
      map[0 := CursorVal(At(1), true, true), 1 := CursorVal(At(1), true, false), 2 := CursorVal(End, true, false)])
  {
    TwoEntries(q.entries[0], q.entries[1]);
    OneEntry(q.entries[1]);
    assert NextHandle({0, 1}) == 2;
  }

  lemma {:induction false} Misdirects()
    ensures Misdirected().entries == [Entry(1, HIGH.(purged := true)), Entry(0, LOW.(purged := true))]
    ensures Misdirected().cursors ==
      map[0 := CursorVal(At(1), true, true), 1 := CursorVal(At(1), true, false), 2 := CursorVal(At(1), true, true)]
  {
    CursorTaken();
    CursorMoved(BeginRetrieveCursor(OutOfDate().queue, 0).0);
  }

  /**
   The retrieve is registered on the other session's message: acknowledging it deletes that
   one, which was never committed, and the message that was delivered stays hidden.
   */
  lemma {:induction false} RetrieveTakesAnother()
    ensures Inv(OutOfDate()) && Legal(OutOfDate(), TakeCursor(READER, 0)) && !Clean(OutOfDate(), TakeCursor(READER, 0))
    ensures var q := Misdirected();
      2 in q.cursors && q.cursors[2].target == At(1) && Discard(q, 2).entries == [Entry(0, LOW.(purged := true))]
  {
    OutOfDateInv();
    OutOfDateLegal();
    Misdirects();
    TwoSet(Entry(1, HIGH.(purged := true)), Entry(0, LOW.(purged := true)), true);
  }

  // ---------- a number that is handed out again ----------

  /** One visible message with a client's cursor on it, retrieved through the cursor, and the reply fails. */
  ghost function Failed(): Queue {
    Unhide(BeginRetrieveCursor(Queue([Entry(0, LOW)], map[0 := CursorVal(At(0), true, true)], 1), 0).0, 0)
  }

  /**
   The failed reply closes the cursor, whose number the session still lists. The next retrieve,
   of another session, is given that number; when the first session ends it closes the number,
   and the other's acknowledgement does nothing: the message stays hidden.
   */
  lemma {:induction false} ClosesAnother()
    ensures var (q, code) := BeginRetrieve(Failed());
      && code == NoError && NextHandle(Failed().cursors.Keys) == 0
      && 0 in q.cursors && q.cursors[0].target == At(0) && IsHidden(q.entries, 0)
      && Discard(q, 0).entries == []
      && Discard(QueueOps.Close(q, 0), 0) == QueueOps.Close(q, 0)
      && IsHidden(QueueOps.Close(q, 0).entries, 0)
  {
    var low := Entry(0, LOW.(purged := true));
    OneEntry(Entry(0, LOW));
    OneEntry(low);
    assert Failed() == Queue([Entry(0, LOW)], map[], 1);
    FirstTaken();
  }

  // ---------- a purge between a put and its end ----------

  /**
   On any empty queue: a message with a time to live is put, a purge looks at the queue while
   the message is hidden, and the put is finalized. The purge found nothing that may expire,
   so hasTTL is off, and the message that is visible now will never be looked at.
   */
  lemma {:induction false} PurgeForgets(q: Queue, item: QueueIndex, now: int)
    requires q.entries == [] && item.ttl > 0
    ensures var h, q' := NextHandle(q.cursors.Keys), TTLPurge(Enqueue(q, item), now);
      && !TTLPending(q'.entries)
      && Unhide(q', h).entries == [Entry(q.nextNode, item.(purged := false))] && TTLPending(Unhide(q', h).entries)
  {
    var e := Entry(q.nextNode, item.(purged := true));
    assert Enqueue(q, item).entries == [e];
    assert [e][1..] == [];
    OneEntry(e);
    assert Unexpired([e], now) == [e];
    assert !Expired(e.item, now) && forall x :: x in [e] ==> x == e;
    assert ExpiredNodes([e], now) == {};
    assert TTLPurge(Enqueue(q, item), now).cursors[NextHandle(q.cursors.Keys)] ==
      CursorVal(At(q.nextNode), true, false);
    assert SetPurged([e], e.node, false) == [Entry(q.nextNode, item.(purged := false))];
    assert Entry(q.nextNode, item.(purged := false)) in [Entry(q.nextNode, item.(purged := false))];
  }
}
