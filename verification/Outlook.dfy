/**
 What a queue would show if some of the pending work were undone and the rest abandoned.

 `Outlook(q, claims, shown)` is the sequence of messages, in order, that are visible
 already or are held by a claim in `shown`. Rolling back moves towards the outlook in which
 all retrieves are shown; a session's commit moves towards the one in which its enqueues
 are. Each single step of either leaves its outlook unchanged, and at the end nothing
 pending is left of it: the outlook is what is visible.
 */
module Outlooks {
  import opened Bytes
  import opened QueueModel
  import opened QueueOps
  import opened Claims

  function Shown(e: Entry, without: set<nat>): seq<QueueIndex> {
    if e.node in without then [] else [e.item.(purged := false)]
  }

  /** The messages of an index, except those on some nodes. */
  function Keep(es: seq<Entry>, without: set<nat>): seq<QueueIndex> {
    if es == [] then [] else Shown(es[0], without) + Keep(es[1..], without)
  }

  ghost function Visible(q: Queue): seq<QueueIndex> {
    Keep(q.entries, HiddenNodes(q.entries))
  }

  /** The nodes that some of the claims are on. */
  ghost function Targets(q: Queue, claims: Claims, some: set<WorkKey>): set<nat> {
    set k | k in some && k in claims && claims[k].cursor in q.cursors && q.cursors[claims[k].cursor].target.At?
      :: q.cursors[claims[k].cursor].target.node
  }

  ghost function Outlook(q: Queue, claims: Claims, shown: set<WorkKey>): seq<QueueIndex> {
    Keep(q.entries, HiddenNodes(q.entries) - Targets(q, claims, shown))
  }

  /** Hidden entries that no claim accounts for. */
  ghost function Orphans(q: Queue, claims: Claims): set<nat> {
    HiddenNodes(q.entries) - Targets(q, claims, claims.Keys)
  }

  // ---------- keeping ----------

  lemma {:induction false} KeepConcat(a: seq<Entry>, b: seq<Entry>, without: set<nat>)
    ensures Keep(a + b, without) == Keep(a, without) + Keep(b, without)
  {
    if a == [] {
      assert a + b == b;
    } else {
      assert (a + b)[1..] == a[1..] + b;
      KeepConcat(a[1..], b, without);
    }
  }

  lemma {:induction false} KeepSplice(a: seq<Entry>, e: Entry, b: seq<Entry>, without: set<nat>)
    ensures Keep(a + [e] + b, without) == Keep(a, without) + Shown(e, without) + Keep(b, without)
  {
    KeepConcat(a, [e], without);
    KeepConcat(a + [e], b, without);
    assert Keep([e], without) == Shown(e, without);
  }

  lemma {:induction false} KeepAgree(es: seq<Entry>, s: set<nat>, t: set<nat>)
    requires forall n :: n in Nodes(es) ==> (n in s <==> n in t)
    ensures Keep(es, s) == Keep(es, t)
  {
    if es != [] {
      assert es[0] in es;
      assert Nodes(es[1..]) <= Nodes(es);
      KeepAgree(es[1..], s, t);
    }
  }

  lemma {:induction false} KeepInsert(es: seq<Entry>, e: Entry, without: set<nat>)
    requires e.node !in Nodes(es)
    ensures Keep(Insert(es, e), without + {e.node}) == Keep(es, without)
  {
    var k := InsertPos(Items(es), e.item);
    var a, b := es[..k], es[k..];
    assert es == a + b;
    KeepSplice(a, e, b, without + {e.node});
    KeepConcat(a, b, without + {e.node});
    KeepAgree(es, without + {e.node}, without);
    assert Keep(a, without + {e.node}) + [] == Keep(a, without + {e.node});
  }

  lemma {:induction false} KeepRemove(es: seq<Entry>, n: nat, without: set<nat>)
    requires Unique(es) && n in without
    ensures Keep(Remove(es, n), without - {n}) == Keep(es, without)
  {
    var k := IndexOf(es, n);
    RemoveNodes(es, n);
    KeepAgree(Remove(es, n), without - {n}, without);
    if k != -1 {
      var a, b := es[..k], es[k + 1..];
      assert es == a + [es[k]] + b;
      KeepSplice(a, es[k], b, without);
      KeepConcat(a, b, without);
      assert Keep(a, without) + [] == Keep(a, without);
    }
  }

  lemma {:induction false} KeepSetPurged(es: seq<Entry>, n: nat, purged: bool, without: set<nat>)
    ensures Keep(SetPurged(es, n, purged), without) == Keep(es, without)
  {
    var k := IndexOf(es, n);
    if k != -1 {
      var e := SetPurged(es, n, purged)[k];
      assert es == es[..k] + [es[k]] + es[k + 1..];
      assert SetPurged(es, n, purged) == es[..k] + [e] + es[k + 1..];
      KeepSplice(es[..k], es[k], es[k + 1..], without);
      KeepSplice(es[..k], e, es[k + 1..], without);
    }
  }

  // ---------- targets ----------

  lemma {:induction false} TargetOf(q: Queue, claims: Claims, some: set<WorkKey>, k: WorkKey)
    requires Sound(q, claims) && k in claims
    ensures NodeOf(q, claims[k]) in Targets(q, claims, some) <==> k in some
  {
    if NodeOf(q, claims[k]) in Targets(q, claims, some) {
      var l :| l in some && l in claims && q.cursors[claims[l].cursor].target == At(NodeOf(q, claims[k]));
    }
  }

  /** A claim that is gone, with the other claims' handles as before. */
  lemma {:induction false} TargetLeft(q: Queue, claims: Claims, k: WorkKey, l: WorkKey)
    requires Sound(q, claims) && k in claims && l in claims && l != k
    ensures claims[l].cursor in q.cursors && q.cursors[claims[l].cursor].target.At?
    ensures q.cursors[claims[l].cursor].target.node != NodeOf(q, claims[k])
  {
  }

  lemma {:induction false} TargetsLeft(q: Queue, q': Queue, claims: Claims, some: set<WorkKey>, k: WorkKey, n: nat)
    requires forall l :: l in claims && l != k ==>
      claims[l].cursor in q.cursors && q.cursors[claims[l].cursor].target != At(n)
    requires forall l :: l in claims && l != k ==>
      claims[l].cursor in q'.cursors && q'.cursors[claims[l].cursor].target == q.cursors[claims[l].cursor].target
    ensures Targets(q', claims - {k}, some - {k}) <= Targets(q, claims, some) - {n}
  {
    forall m | m in Targets(q', claims - {k}, some - {k}) ensures m in Targets(q, claims, some) && m != n {
      var l :| l in some - {k} && l in claims - {k} && q'.cursors[claims[l].cursor].target == At(m);
      assert l in some && l in claims;
    }
  }

  lemma {:induction false} TargetsDrop(q: Queue, q': Queue, claims: Claims, some: set<WorkKey>, k: WorkKey)
    requires Sound(q, claims) && k in claims
    requires forall l :: l in claims && l != k ==>
      claims[l].cursor in q'.cursors && q'.cursors[claims[l].cursor].target == q.cursors[claims[l].cursor].target
    ensures Targets(q', claims - {k}, some - {k}) == Targets(q, claims, some) - {NodeOf(q, claims[k])}
  {
    var n := NodeOf(q, claims[k]);
    forall l | l in claims && l != k
      ensures claims[l].cursor in q.cursors && q.cursors[claims[l].cursor].target != At(n)
    {
      TargetLeft(q, claims, k, l);
    }
    TargetsLeft(q, q', claims, some, k, n);
    forall m | m in Targets(q, claims, some) && m != n ensures m in Targets(q', claims - {k}, some - {k}) {
      var l :| l in some && l in claims && q.cursors[claims[l].cursor].target == At(m);
      assert l in claims - {k} && l in some - {k};
    }
  }

  /** A new claim, with the other claims' handles as before. */
  lemma {:induction false} TargetsSame(q: Queue, q': Queue, claims: Claims, some: set<WorkKey>, k: WorkKey, w: Work)
    requires Sound(q, claims) && k !in claims && k !in some
    requires forall l :: l in claims ==>
      claims[l].cursor in q'.cursors && q'.cursors[claims[l].cursor].target == q.cursors[claims[l].cursor].target
    ensures Targets(q', claims[k := w], some) == Targets(q, claims, some)
  {
    var claims' := claims[k := w];
    forall m | m in Targets(q, claims, some) ensures m in Targets(q', claims', some) {
      var l :| l in some && l in claims && q.cursors[claims[l].cursor].target == At(m);
      assert l in claims' && claims'[l] == claims[l];
    }
    forall m | m in Targets(q', claims', some) ensures m in Targets(q, claims, some) {
      var l :| l in some && l in claims' && q'.cursors[claims'[l].cursor].target == At(m);
      assert l in claims && claims'[l] == claims[l];
    }
  }

  lemma {:induction false} TargetsMore(q: Queue, claims: Claims, some: set<WorkKey>, k: WorkKey)
    requires k in claims && claims[k].cursor in q.cursors && q.cursors[claims[k].cursor].target.At?
    ensures Targets(q, claims, some + {k}) == Targets(q, claims, some) + {q.cursors[claims[k].cursor].target.node}
  {
    var n := q.cursors[claims[k].cursor].target.node;
    assert k in some + {k};
    forall m | m in Targets(q, claims, some + {k}) ensures m in Targets(q, claims, some) + {n} {
      var l :| l in some + {k} && l in claims && claims[l].cursor in q.cursors
        && q.cursors[claims[l].cursor].target == At(m);
    }
  }

  lemma {:induction false} TargetsAdd(q: Queue, q': Queue, claims: Claims, some: set<WorkKey>, k: WorkKey, w: Work)
    requires Sound(q, claims) && k !in claims && k !in some
    requires forall l :: l in claims ==>
      claims[l].cursor in q'.cursors && q'.cursors[claims[l].cursor].target == q.cursors[claims[l].cursor].target
    requires w.cursor in q'.cursors && q'.cursors[w.cursor].target.At?
    ensures Targets(q', claims[k := w], some) == Targets(q, claims, some)
    ensures Targets(q', claims[k := w], some + {k}) == Targets(q, claims, some) + {q'.cursors[w.cursor].target.node}
  {
    TargetsSame(q, q', claims, some, k, w);
    TargetsMore(q', claims[k := w], some, k);
  }

  // ---------- the steps of commit and rollback ----------

  /** Showing a claim's entry again, when the outlook shows it. */
  lemma {:induction false} UnhideOutlook(q: Queue, claims: Claims, shown: set<WorkKey>, k: WorkKey)
    requires Sound(q, claims) && k in claims && k in shown
    ensures var q' := Unhide(q, claims[k].cursor);
      && Outlook(q', claims - {k}, shown - {k}) == Outlook(q, claims, shown)
      && HiddenNodes(q'.entries) == HiddenNodes(q.entries) - {NodeOf(q, claims[k])}
  {
    var n, q' := NodeOf(q, claims[k]), Unhide(q, claims[k].cursor);
    HandlesDiffer(q, claims);
    TargetsDrop(q, q', claims, shown, k);
    HiddenSetPurged(q.entries, n, false);
    TargetOf(q, claims, shown, k);
    KeepSetPurged(q.entries, n, false, HiddenNodes(q.entries) - Targets(q, claims, shown));
    assert HiddenNodes(q'.entries) - Targets(q', claims - {k}, shown - {k}) ==
      HiddenNodes(q.entries) - Targets(q, claims, shown);
  }

  lemma {:induction false} HandlesDiffer(q: Queue, claims: Claims)
    requires Sound(q, claims)
    ensures forall k, l :: k in claims && l in claims && k != l ==> claims[k].cursor != claims[l].cursor
  {
  }

  /** Discarding a claim's entry, when the outlook does not show it. */
  lemma {:induction false} DiscardOutlook(q: Queue, claims: Claims, shown: set<WorkKey>, k: WorkKey)
    requires Sound(q, claims) && k in claims && k !in shown
    ensures var q' := Discard(q, claims[k].cursor);
      && Outlook(q', claims - {k}, shown) == Outlook(q, claims, shown)
      && HiddenNodes(q'.entries) == HiddenNodes(q.entries) - {NodeOf(q, claims[k])}
      && Nodes(q'.entries) == Nodes(q.entries) - {NodeOf(q, claims[k])}
  {
    var n, q' := NodeOf(q, claims[k]), Discard(q, claims[k].cursor);
    HandlesDiffer(q, claims);
    TargetsDrop(q, q', claims, shown, k);
    HiddenRemove(q.entries, n);
    RemoveNodes(q.entries, n);
    TargetOf(q, claims, shown, k);
    HiddenIs(q.entries, n);
    assert shown - {k} == shown;
    KeepRemove(q.entries, n, HiddenNodes(q.entries) - Targets(q, claims, shown));
    assert HiddenNodes(q'.entries) - Targets(q', claims - {k}, shown) ==
      HiddenNodes(q.entries) - Targets(q, claims, shown) - {n};
  }

  // ---------- the steps of a transaction ----------

  lemma {:induction false} EnqueueTargets(q: Queue, claims: Claims, some: set<WorkKey>, k: WorkKey, item: QueueIndex,
          w: Work)
    requires Sound(q, claims) && k !in claims && k !in some && w.cursor == NextHandle(q.cursors.Keys)
    ensures var q' := Enqueue(q, item);
      && HiddenNodes(q'.entries) == HiddenNodes(q.entries) + {q.nextNode} && q.nextNode !in Nodes(q.entries)
      && Targets(q', claims[k := w], some) == Targets(q, claims, some)
      && Targets(q', claims[k := w], some + {k}) == Targets(q, claims, some) + {q.nextNode}
  {
    HiddenInsert(q.entries, Entry(q.nextNode, item.(purged := true)));
    TargetsAdd(q, Enqueue(q, item), claims, some, k, w);
  }

  lemma {:induction false} EnqueueOutlook(q: Queue, claims: Claims, shown: set<WorkKey>, k: WorkKey, item: QueueIndex,
          w: Work)
    requires Sound(q, claims) && k !in claims && k !in shown && w.cursor == NextHandle(q.cursors.Keys)
    ensures Outlook(Enqueue(q, item), claims[k := w], shown) == Outlook(q, claims, shown)
  {
    EnqueueTargets(q, claims, shown, k, item, w);
    TargetsHidden(q, claims, shown);
    var without := HiddenNodes(q.entries) - Targets(q, claims, shown);
    KeepInsert(q.entries, Entry(q.nextNode, item.(purged := true)), without);
    assert HiddenNodes(q.entries) + {q.nextNode} - Targets(q, claims, shown) == without + {q.nextNode};
  }

  lemma {:induction false} EnqueueOrphans(q: Queue, claims: Claims, k: WorkKey, item: QueueIndex, w: Work)
    requires Sound(q, claims) && k !in claims && w.cursor == NextHandle(q.cursors.Keys)
    ensures Orphans(Enqueue(q, item), claims[k := w]) == Orphans(q, claims)
  {
    EnqueueTargets(q, claims, claims.Keys, k, item, w);
    assert claims[k := w].Keys == claims.Keys + {k};
    NextNotHidden(q);
    OrphansBoth(q, claims, Enqueue(q, item), claims[k := w], q.nextNode);
  }

  lemma {:induction false} OrphansBoth(q: Queue, claims: Claims, q': Queue, claims': Claims, n: nat)
    requires HiddenNodes(q'.entries) == HiddenNodes(q.entries) + {n} && n !in HiddenNodes(q.entries)
    requires Targets(q', claims', claims'.Keys) == Targets(q, claims, claims.Keys) + {n}
    ensures Orphans(q', claims') == Orphans(q, claims)
  {
  }

  lemma {:induction false} NextNotHidden(q: Queue)
    requires Wf(q)
    ensures q.nextNode !in HiddenNodes(q.entries)
  {
    HiddenIs(q.entries, q.nextNode);
  }

  lemma {:induction false} TargetsHidden(q: Queue, claims: Claims, some: set<WorkKey>)
    requires Sound(q, claims)
    ensures Targets(q, claims, some) <= HiddenNodes(q.entries) <= Nodes(q.entries)
  {
    ClaimedHidden(q, claims);
  }

  /** Claiming a visible entry for a retrieve, when the outlook shows retrieves. */
  lemma {:induction false} TakeOutlook(q: Queue, claims: Claims, shown: set<WorkKey>, k: WorkKey, w: Work)
    requires Sound(q, claims) && k !in claims && k !in shown
    requires TestCursor(q, w.cursor) == NoError && !IsHidden(q.entries, q.cursors[w.cursor].target.node)
    ensures Outlook(Hide(q, q.cursors[w.cursor].target.node), claims[k := w], shown + {k}) == Outlook(q, claims, shown)
  {
    var n := q.cursors[w.cursor].target.node;
    var q' := Hide(q, n);
    TakeTargets(q, claims, shown, k, w);
    KeepSetPurged(q.entries, n, true, HiddenNodes(q.entries) - Targets(q, claims, shown));
    assert HiddenNodes(q'.entries) - Targets(q', claims[k := w], shown + {k}) ==
      HiddenNodes(q.entries) - Targets(q, claims, shown);
  }

  lemma {:induction false} TakeTargets(q: Queue, claims: Claims, some: set<WorkKey>, k: WorkKey, w: Work)
    requires Sound(q, claims) && k !in claims && k !in some
    requires TestCursor(q, w.cursor) == NoError && !IsHidden(q.entries, q.cursors[w.cursor].target.node)
    ensures var n := q.cursors[w.cursor].target.node;
      var q' := Hide(q, n);
      && HiddenNodes(q'.entries) == HiddenNodes(q.entries) + {n} && n !in HiddenNodes(q.entries)
      && Targets(q', claims[k := w], some + {k}) == Targets(q, claims, some) + {n}
  {
    var n := q.cursors[w.cursor].target.node;
    HiddenSetPurged(q.entries, n, true);
    HiddenIs(q.entries, n);
    TargetsAdd(q, Hide(q, n), claims, some, k, w);
  }

  lemma {:induction false} TakeOrphans(q: Queue, claims: Claims, k: WorkKey, w: Work)
    requires Sound(q, claims) && k !in claims
    requires TestCursor(q, w.cursor) == NoError && !IsHidden(q.entries, q.cursors[w.cursor].target.node)
    ensures Orphans(Hide(q, q.cursors[w.cursor].target.node), claims[k := w]) == Orphans(q, claims)
  {
    TakeTargets(q, claims, claims.Keys, k, w);
    TargetsHidden(q, claims, claims.Keys);
    assert claims[k := w].Keys == claims.Keys + {k};
  }
}
