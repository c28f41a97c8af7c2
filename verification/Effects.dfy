/**
 What the operations of QueueOps do, said of positions in the list and of single handles, as
 a client that knows nothing of their definitions would put it.
 */
module Effects {
  import opened Bytes
  import opened QueueModel
  import opened QueueOps

  /** A valid handle on the entry at position k. */
  ghost predicate Stands(q: Queue, h: Handle, k: nat) {
    && Unique(q.entries) && k < |q.entries|
    && h in q.cursors && q.cursors[h].valid && q.cursors[h].target == At(q.entries[k].node)
  }

  lemma {:induction false} StandsUsable(q: Queue, h: Handle, k: nat)
    requires Stands(q, h, k)
    ensures TestCursor(q, h) == NoError && Has(q.entries, q.cursors[h].target.node) && OnEntry(q, h)
    ensures IndexOf(q.entries, q.cursors[h].target.node) == k
    ensures ItemAt(q.entries, q.entries[k].node) == q.entries[k].item
  {
    IndexOfUnique(q.entries, k);
    assert q.entries[k] in q.entries;
  }

  lemma {:induction false} NextIs(es: seq<Entry>, k: nat)
    requires Unique(es) && k < |es|
    ensures Has(es, es[k].node)
    ensures Next(es, es[k].node) == if k + 1 < |es| then At(es[k + 1].node) else End
  {
    NextAt(es, k);
  }

  // ---------- browsing ----------

  /** AdvanceCursor takes a handle to the very next entry, or behind the last one, and touches nothing else. */
  lemma {:induction false} AdvanceAt(q: Queue, h: Handle, k: nat)
    requires Stands(q, h, k)
    ensures OnEntry(q, h)
    ensures var q' := AdvanceCursor(q, h);
      && q'.entries == q.entries && q'.nextNode == q.nextNode && q'.cursors.Keys == q.cursors.Keys
      && q'.cursors[h].valid
      && q'.cursors[h].target == (if k + 1 < |q.entries| then At(q.entries[k + 1].node) else End)
      && forall g :: g in q.cursors && g != h ==> q'.cursors[g] == q.cursors[g]
  {
    StandsUsable(q, h, k);
    NextIs(q.entries, k);
  }

  /** A handle that was advanced n times. */
  ghost predicate Browsed(q: Queue, h: Handle, n: nat, q': Queue)
    decreases n
  {
    if n == 0 then q' == q
    else exists p :: Browsed(q, h, n - 1, p) && OnEntry(p, h) && q' == AdvanceCursor(p, h)
  }

  /** Browsing from an entry on visits every entry behind it, one after another and none twice, and then the end. */
  lemma {:induction false} BrowseAll(q: Queue, h: Handle, k: nat, n: nat, q': Queue)
    requires Stands(q, h, k) && k + n <= |q.entries| && Browsed(q, h, n, q')
    ensures q'.entries == q.entries && h in q'.cursors && q'.cursors[h].valid
    ensures q'.cursors[h].target == if k + n < |q.entries| then At(q.entries[k + n].node) else End
  {
    if n > 0 {
      var p :| Browsed(q, h, n - 1, p) && OnEntry(p, h) && q' == AdvanceCursor(p, h);
      BrowseAll(q, h, k, n - 1, p);
      AdvanceAt(p, h, k + n - 1);
    }
  }

  /** seekID finds the first entry with the receipt id from where the handle stands, hidden or not. */
  lemma {:induction false} SeekAt(q: Queue, id: bytes, h: Handle, k: nat, j: nat)
    requires Stands(q, h, k) && k <= j <= |q.entries|
    requires forall i :: k <= i < j ==> q.entries[i].item.receiptId != id
    requires j < |q.entries| ==> q.entries[j].item.receiptId == id
    ensures OnEntry(q, h)
    ensures var (q', code) := SeekID(q, id, h);
      if j == |q.entries| then code == NoMoreMessages && q' == q
      else
        && code == NoError && q'.entries == q.entries && q'.cursors.Keys == q.cursors.Keys
        && q'.cursors[h].valid && q'.cursors[h].target == At(q.entries[j].node)
        && forall g :: g in q.cursors && g != h ==> q'.cursors[g] == q.cursors[g]
  {
    StandsUsable(q, h, k);
    FirstMatch(q.entries, k, j, id);
  }

  lemma {:induction false} FirstMatch(es: seq<Entry>, k: nat, j: nat, id: bytes)
    requires k <= j <= |es| && forall i :: k <= i < j ==> es[i].item.receiptId != id
    requires j < |es| ==> es[j].item.receiptId == id
    ensures SeekFrom(es, k, id) == if j == |es| then End else At(es[j].node)
    decreases j - k
  {
    if k < j {
      FirstMatch(es, k + 1, j, id);
    }
  }

  /** A copy gives the destination the source's place, and touches nothing else. */
  lemma {:induction false} CopyAt(q: Queue, dst: Handle, src: Handle, k: nat)
    requires Stands(q, src, k) && dst in q.cursors && q.cursors[dst].valid && dst != src
    ensures var (q', code) := CopyCursor(q, dst, src);
      && code == NoError && q'.entries == q.entries && q'.cursors.Keys == q.cursors.Keys && Stands(q', dst, k)
      && forall g :: g in q.cursors && g != dst ==> q'.cursors[g] == q.cursors[g]
  {
    StandsUsable(q, src, k);
  }

  // ---------- taking and putting ----------

  /** Position k is the first visible one, or behind the end. */
  ghost predicate FirstShown(es: seq<Entry>, k: nat) {
    k <= |es| && (forall i :: 0 <= i < k ==> es[i].item.purged) && (k < |es| ==> !es[k].item.purged)
  }

  lemma {:induction false} FirstVisibleIs(es: seq<Entry>, k: nat)
    requires FirstShown(es, k)
    ensures FirstVisible(es) == if k < |es| then At(es[k].node) else End
  {
    if k > 0 {
      FirstVisibleIs(es[1..], k - 1);
    }
  }

  /** The entry at position k with its flag set, and the rest of the list as it is. */
  function Flagged(es: seq<Entry>, k: nat, purged: bool): seq<Entry>
    requires k < |es|
  {
    es[k := Entry(es[k].node, es[k].item.(purged := purged))]
  }

  lemma {:induction false} FlaggedIs(es: seq<Entry>, k: nat, purged: bool)
    requires Unique(es) && k < |es|
    ensures SetPurged(es, es[k].node, purged) == Flagged(es, k, purged)
  {
    IndexOfUnique(es, k);
  }

  /** openCursor puts a new handle on the first visible entry, and moves no handle but those on the begin position. */
  lemma {:induction false} OpenAt(q: Queue, k: nat)
    requires FirstShown(q.entries, k)
    ensures var h, q' := NextHandle(q.cursors.Keys), OpenCursor(q);
      && q'.entries == q.entries && q'.cursors.Keys == q.cursors.Keys + {h} && q'.cursors[h].valid
      && q'.cursors[h].target == (if k < |q.entries| then At(q.entries[k].node) else End)
      && forall g :: g in q.cursors && !q.cursors[g].tied ==> q'.cursors[g] == q.cursors[g]
  {
    FirstVisibleIs(q.entries, k);
  }

  /** BeginRetrieve hides the first visible entry and gives a handle on it, or leaves list and handles as they were. */
  lemma {:induction false} RetrieveAt(q: Queue, k: nat)
    requires Unique(q.entries) && FirstShown(q.entries, k)
    ensures var h, (q', code) := NextHandle(q.cursors.Keys), BeginRetrieve(q);
      if k < |q.entries| then
        code == NoError && q'.entries == Flagged(q.entries, k, true) && q'.cursors.Keys == q.cursors.Keys + {h}
        && q'.cursors[h].valid && q'.cursors[h].target == At(q.entries[k].node)
      else
        code == NoMoreMessages && q'.entries == q.entries && q'.cursors.Keys == q.cursors.Keys
  {
    OpenAt(q, k);
    if k < |q.entries| {
      FlaggedIs(q.entries, k, true);
    }
  }

  /** BeginRetrieveCursor hides the entry under the handle if it is visible, and is refused if it is hidden. */
  lemma {:induction false} RetrieveCursorAt(q: Queue, h: Handle, k: nat)
    requires Stands(q, h, k)
    ensures var (q', code) := BeginRetrieveCursor(q, h);
      if q.entries[k].item.purged then code == CursorInvalidated && q' == q
      else code == NoError && q'.entries == Flagged(q.entries, k, true) && q'.cursors == q.cursors
  {
    StandsUsable(q, h, k);
    FlaggedIs(q.entries, k, true);
  }

  /** BeginRetrieveID hides the first entry with the receipt id from the first visible one on, unless it is hidden. */
  lemma {:induction false} RetrieveIDAt(q: Queue, id: bytes, k: nat, j: nat)
    requires Unique(q.entries) && FirstShown(q.entries, k) && k <= j < |q.entries|
    requires q.entries[j].item.receiptId == id && forall i :: k <= i < j ==> q.entries[i].item.receiptId != id
    ensures OnEntry(OpenCursor(q), NextHandle(q.cursors.Keys))
    ensures var h, (q', code) := NextHandle(q.cursors.Keys), BeginRetrieveID(q, id);
      && h in q'.cursors && q'.cursors[h].target == At(q.entries[j].node)
      && if q.entries[j].item.purged then code == CursorInvalidated && q'.entries == q.entries
         else code == NoError && q'.entries == Flagged(q.entries, j, true)
  {
    var h := NextHandle(q.cursors.Keys);
    OpenAt(q, k);
    StandsUsable(OpenCursor(q), h, k);
    SeekAt(OpenCursor(q), id, h, k, j);
    StandsUsable(SeekID(OpenCursor(q), id, h).0, h, j);
    FlaggedIs(q.entries, j, true);
  }

  /** Enqueue puts a hidden entry behind all of its priority or higher and before all others, and a handle on it. */
  lemma {:induction false} EnqueueAt(q: Queue, item: QueueIndex) returns (k: nat)
    requires Ordered(q.entries)
    ensures var h, q' := NextHandle(q.cursors.Keys), Enqueue(q, item);
      && k <= |q.entries|
      && q'.entries == q.entries[..k] + [Entry(q.nextNode, item.(purged := true))] + q.entries[k..]
      && (forall i :: 0 <= i < k ==> q.entries[i].item.priority >= item.priority)
      && (forall i :: k <= i < |q.entries| ==> q.entries[i].item.priority < item.priority)
      && q'.cursors.Keys == q.cursors.Keys + {h} && q'.cursors[h].valid && q'.cursors[h].target == At(q.nextNode)
      && forall g :: g in q.cursors ==> q'.cursors[g] == q.cursors[g]
  {
    k := InsertPos(Items(q.entries), item.(purged := true));
  }

  // ---------- ending ----------

  /** What is left of the other handles when the entry at position k goes: those on it become invalid. */
  ghost predicate OthersLeft(q: Queue, q': Queue, h: Handle, k: nat)
    requires k < |q.entries|
  {
    forall g :: g in q.cursors && g != h ==>
      && g in q'.cursors
      && q'.cursors[g].target == q.cursors[g].target
      && (q'.cursors[g].valid <==> q.cursors[g].valid && q.cursors[g].target != At(q.entries[k].node))
  }

  /** FinalizeEnqueue and CancelRetrieve show exactly the handle's entry, and close the handle. */
  lemma {:induction false} UnhideAt(q: Queue, h: Handle, k: nat)
    requires Stands(q, h, k)
    ensures Unhide(q, h).entries == Flagged(q.entries, k, false) && Unhide(q, h).cursors == q.cursors - {h}
  {
    FlaggedIs(q.entries, k, false);
  }

  /** FinalizeRetrieve and CancelEnqueue take exactly the handle's entry out of the list, and close the handle. */
  lemma {:induction false} DiscardAt(q: Queue, h: Handle, k: nat)
    requires Stands(q, h, k)
    ensures var q' := Discard(q, h);
      && q'.entries == q.entries[..k] + q.entries[k + 1..]
      && q'.cursors.Keys == q.cursors.Keys - {h} && OthersLeft(q, q', h, k)
  {
    StandsUsable(q, h, k);
  }

  /** FinalizeRetrieveCursor takes it out and leaves the handle on the entry that was behind it. */
  lemma {:induction false} DiscardAndAdvanceAt(q: Queue, h: Handle, k: nat)
    requires Stands(q, h, k)
    ensures TestCursor(q, h) == NoError && Has(q.entries, q.cursors[h].target.node)
    ensures var q' := DiscardAndAdvance(q, h);
      && q'.entries == q.entries[..k] + q.entries[k + 1..]
      && q'.cursors.Keys == q.cursors.Keys && OthersLeft(q, q', h, k) && q'.cursors[h].valid
      && q'.cursors[h].target == (if k + 1 < |q.entries| then At(q.entries[k + 1].node) else End)
  {
    StandsUsable(q, h, k);
    NextIs(q.entries, k);
  }

  // ---------- expiry ----------

  /** The purge takes out the visible messages whose age has reached their time to live, and no others. */
  lemma {:induction false} PurgeMembers(q: Queue, now: int)
    requires Wf(q)
    ensures Ordered(TTLPurge(q, now).entries)
    ensures forall e :: e in TTLPurge(q, now).entries <==>
      e in q.entries && (e.item.purged || e.item.ttl <= 0 || now < e.item.timestamp + e.item.ttl)
  {
    UnexpiredMembers(q.entries, now);
    TTLPurgeWf(q, now);
  }

  /** The queue after purges at these times, one after another. */
  ghost function PurgedBy(q: Queue, times: seq<int>): Queue {
    if times == [] then q else TTLPurge(PurgedBy(q, times[..|times| - 1]), times[|times| - 1])
  }

  lemma {:induction false} PurgedWf(q: Queue, times: seq<int>)
    requires Wf(q)
    ensures Wf(PurgedBy(q, times))
  {
    if times != [] {
      PurgedWf(q, times[..|times| - 1]);
      TTLPurgeWf(PurgedBy(q, times[..|times| - 1]), times[|times| - 1]);
    }
  }

  lemma {:induction false} AllBefore(before: seq<int>, now: int, limit: int)
    ensures (forall t :: t in before + [now] ==> t < limit) <==> (forall t :: t in before ==> t < limit) && now < limit
  {
    var times := before + [now];
    assert times[|before|] == now;
    if forall t :: t in times ==> t < limit {
      assert now in times;
      forall t | t in before ensures t < limit {
        assert t in times;
      }
    }
  }

  /** A visible message with a time to live outlives purges if and only if all of them come before its time. */
  lemma {:induction false} Outlives(q: Queue, times: seq<int>, e: Entry)
    requires Wf(q) && e in q.entries && !e.item.purged && e.item.ttl > 0
    ensures e in PurgedBy(q, times).entries <==> forall t :: t in times ==> t < e.item.timestamp + e.item.ttl
  {
    if times != [] {
      var before, now := times[..|times| - 1], times[|times| - 1];
      assert times == before + [now];
      Outlives(q, before, e);
      PurgedWf(q, before);
      PurgeMembers(PurgedBy(q, before), now);
      AllBefore(before, now, e.item.timestamp + e.item.ttl);
    }
  }
}
