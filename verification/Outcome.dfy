/**
 What each command does to the message that it concerns: when the message is visible again,
 when it is gone for good, and when it waits for the end of a transaction.
 */
module Outcomes {
  import opened Bytes
  import opened QueueModel
  import opened QueueOps
  import opened Claims
  import opened Outlooks
  import opened Lifecycle
  import opened Prospects
  import opened Server
  import opened ServerRuns
  import opened Commits
  import opened SessionSteps

  /** The command is about to act on work that is pending on this hidden entry. */
  ghost predicate Concerns(w: World, k: WorkKey, c: Command, q: nat, n: nat) {
    && WorldInv(w) && WellFormed(w) && Enabled(w, OnWork(k, c))
    && k in w.works && PendingOn(w, k, w.works[k], q, n)
  }

  /** The entry is hidden, and the work is not pending any more. */
  ghost predicate HiddenIn(w: World, q: nat, n: nat) {
    q in w.queues && IsHidden(w.queues[q].entries, n)
  }

  lemma {:induction false} WorkGone(w: World, q: nat, s: State, k: WorkKey)
    requires OnQueue(w.handles, k, q) && k !in s.claims
    ensures k !in WithState(w, q, s).works
  {
  }

  lemma {:induction false} ClaimOf(w: World, k: WorkKey, q: nat)
    requires WorldInv(w) && k in w.works && OnQueue(w.handles, k, q) && q in w.queues
    ensures Inv(StateOf(w, q)) && k in StateOf(w, q).claims && StateOf(w, q).claims[k] == w.works[k]
  {
    assert QueueInv(w, q);
  }

  lemma {:induction false} DoEnds(s: State, a: Act, k: WorkKey)
    requires Wf(s.queue) && Legal(s, a) && (a == Show(k) || a == Drop(k) || a == Forget(k))
    ensures k !in Do(s, a).claims
  {
  }

  lemma {:induction false} EndedQueue(w: World, k: WorkKey, c: Command, q: nat, n: nat, a: Act)
    requires Concerns(w, k, c, q, n) && a == ActOf(w, k, c) && (a == Show(k) || a == Drop(k) || a == Forget(k))
    ensures var w' := After(w, OnWork(k, c));
      q in w'.queues && w'.queues[q] == Do(StateOf(w, q), a).queue && k !in w'.works
    ensures Inv(StateOf(w, q)) && k in StateOf(w, q).claims && StateOf(w, q).claims[k] == w.works[k]
  {
    ClaimOf(w, k, q);
    CommandKeysOn(w, k, c, q);
    ActedSplits(w, q, a);
    DoEnds(StateOf(w, q), a, k);
    WorkGone(w, q, Do(StateOf(w, q), a), k);
    assert w.handles[(k.session, k.queue)] == q;
    assert StateOf(After(w, OnWork(k, c)), q).queue == Do(StateOf(w, q), a).queue;
  }

  lemma {:induction false} ShowOutcome(w: World, k: WorkKey, c: Command, q: nat, n: nat)
    requires Concerns(w, k, c, q, n) && ActOf(w, k, c) == Show(k)
    ensures ShownIn(After(w, OnWork(k, c)), q, n) && k !in After(w, OnWork(k, c)).works
  {
    EndedQueue(w, k, c, q, n, Show(k));
    ShowDone(StateOf(w, q), k);
  }

  lemma {:induction false} DropOutcome(w: World, k: WorkKey, c: Command, q: nat, n: nat)
    requires Concerns(w, k, c, q, n) && ActOf(w, k, c) == Drop(k)
    ensures GoneFrom(After(w, OnWork(k, c)), q, n) && k !in After(w, OnWork(k, c)).works
  {
    EndedQueue(w, k, c, q, n, Drop(k));
    DropDone(StateOf(w, q), k);
  }

  lemma {:induction false} ForgetOutcome(w: World, k: WorkKey, c: Command, q: nat, n: nat)
    requires Concerns(w, k, c, q, n) && ActOf(w, k, c) == Forget(k)
    ensures HiddenIn(After(w, OnWork(k, c)), q, n) && k !in After(w, OnWork(k, c)).works
  {
    EndedQueue(w, k, c, q, n, Forget(k));
  }

  lemma {:induction false} RecordOutcome(w: World, k: WorkKey, c: Command, q: nat, n: nat, v: Work)
    requires Concerns(w, k, c, q, n) && v.cursor == w.works[k].cursor
    requires
      || (ActOf(w, k, c) == Register(k) && v == w.works[k].(sent := true))
      || (ActOf(w, k, c) == Acknowledge(k) && v == w.works[k].(acknowledged := true))
    ensures PendingOn(After(w, OnWork(k, c)), k, v, q, n)
  {
    CommandKeysOn(w, k, c, q);
    ActedSplits(w, q, ActOf(w, k, c));
    var w' := After(w, OnWork(k, c));
    assert k in StateOf(w', q).claims;
  }

  // ---------- one command ----------

  /** A put outside a transaction shows its message at once; in one it waits, hidden, and is registered. */
  lemma {:induction false} PutOutcome(w: World, k: WorkKey, q: nat, n: nat)
    requires Concerns(w, k, PutDone, q, n)
    ensures var w', v := After(w, OnWork(k, PutDone)), w.works[k];
      if k.session in w.inTx then PendingOn(w', k, v.(sent := true), q, n)
      else ShownIn(w', q, n) && k !in w'.works
  {
    if k.session in w.inTx {
      RecordOutcome(w, k, PutDone, q, n, w.works[k].(sent := true));
    } else {
      ShowOutcome(w, k, PutDone, q, n);
    }
  }

  /** A retrieve that was sent waits for its acknowledgement, and its message stays hidden. */
  lemma {:induction false} SentOutcome(w: World, k: WorkKey, q: nat, n: nat)
    requires Concerns(w, k, GetDone, q, n)
    ensures PendingOn(After(w, OnWork(k, GetDone)), k, w.works[k].(sent := true), q, n)
  {
    RecordOutcome(w, k, GetDone, q, n, w.works[k].(sent := true));
  }

  /** One that could not be sent shows its message again. */
  lemma {:induction false} FailedOutcome(w: World, k: WorkKey, q: nat, n: nat)
    requires Concerns(w, k, GetFailed, q, n)
    ensures ShownIn(After(w, OnWork(k, GetFailed)), q, n) && k !in After(w, OnWork(k, GetFailed)).works
  {
    ShowOutcome(w, k, GetFailed, q, n);
  }

  /** An acknowledgement outside a transaction deletes its message; in one it is noted, and the message stays hidden. */
  lemma {:induction false} AckOutcome(w: World, k: WorkKey, q: nat, n: nat)
    requires Concerns(w, k, Ack, q, n)
    ensures var w', v := After(w, OnWork(k, Ack)), w.works[k];
      if k.session in w.inTx then PendingOn(w', k, v.(acknowledged := true), q, n)
      else GoneFrom(w', q, n) && k !in w'.works
  {
    if k.session in w.inTx {
      RecordOutcome(w, k, Ack, q, n, w.works[k].(acknowledged := true));
    } else {
      DropOutcome(w, k, Ack, q, n);
    }
  }

  /** A commit shows what was put and deletes what was acknowledged; a rollback does the opposite. */
  lemma {:induction false} SettleOutcome(w: World, k: WorkKey, c: Command, q: nat, n: nat)
    requires Concerns(w, k, c, q, n) && (c == CommitOne || c == RollbackOne)
    ensures var w', v := After(w, OnWork(k, c)), w.works[k];
      && v.sent && (v.kind.Retrieving? ==> v.acknowledged) && k !in w'.works
      && if v.kind.Enqueueing? <==> c == CommitOne then ShownIn(w', q, n) else GoneFrom(w', q, n)
  {
    if w.works[k].kind.Enqueueing? <==> c == CommitOne {
      ShowOutcome(w, k, c, q, n);
    } else {
      DropOutcome(w, k, c, q, n);
    }
  }

  /**
   Closing a queue takes back what was put, shows what was acknowledged in a transaction, and
   leaves a message hidden whose retrieve was not acknowledged.
   */
  lemma {:induction false} ShutOutcome(w: World, k: WorkKey, q: nat, n: nat)
    requires Concerns(w, k, ShutdownOne, q, n)
    ensures var w', v := After(w, OnWork(k, ShutdownOne)), w.works[k];
      && k !in w'.works
      && if v.kind.Enqueueing? then GoneFrom(w', q, n)
         else if v.acknowledged then ShownIn(w', q, n)
         else HiddenIn(w', q, n)
  {
    if w.works[k].kind.Enqueueing? {
      DropOutcome(w, k, ShutdownOne, q, n);
    } else if w.works[k].acknowledged {
      ShowOutcome(w, k, ShutdownOne, q, n);
    } else {
      ForgetOutcome(w, k, ShutdownOne, q, n);
    }
  }

  // ---------- runs ----------

  /**
   A message acknowledged outside a transaction was hidden, and is never in the queue again,
   whatever the others do.
   */
  lemma {:induction false} AckFinal(ws: seq<World>, sts: seq<Step>, i: nat, k: WorkKey, q: nat) returns (n: nat)
    requires Run(ws, sts) && CleanRun(ws, sts) && WorldInv(ws[0]) && i < |sts| && sts[i] == OnWork(k, Ack)
    requires k in ws[i].works && OnQueue(ws[i].handles, k, q) && q in ws[i].queues && k.session !in ws[i].inTx
    ensures HiddenIn(ws[i], q, n) && forall l :: i < l <= |sts| ==> GoneFrom(ws[l], q, n)
  {
    RunInv(ws, sts);
    assert QueueInv(ws[i], q) && k in ClaimsOf(ws[i], q);
    n := NodeOf(ws[i].queues[q], ws[i].works[k]);
    var m := i + 1;
    assert Steps(ws[i], sts[i], ws[m]);
    AckOutcome(ws[i], k, q, n);
    forall l | i < l <= |sts| ensures GoneFrom(ws[l], q, n) {
      GoneFor(ws, sts, q, n, m, l);
    }
  }

  // ---------- in the session's own fields ----------

  /** Exactly the handle's entry has left the queue, and the handle is closed. */
  ghost predicate Deletes(q: Queue, h: Handle, q': Queue) {
    && h in q.cursors && q.cursors[h].target.At? && Has(q.entries, q.cursors[h].target.node)
    && Nodes(q'.entries) == Nodes(q.entries) - {q.cursors[h].target.node} && h !in q'.cursors
  }

  /** The handle's entry was hidden and is visible, no other has come or gone, and the handle is closed. */
  ghost predicate Shows(q: Queue, h: Handle, q': Queue) {
    && h in q.cursors && q.cursors[h].target.At? && IsHidden(q.entries, q.cursors[h].target.node)
    && Nodes(q'.entries) == Nodes(q.entries) && !IsHidden(q'.entries, q.cursors[h].target.node) && h !in q'.cursors
  }

  ghost predicate DeletesAt(before: map<nat, Queue>, after: map<nat, Queue>, queues: map<nat, nat>, h: nat,
          cursor: Handle) {
    && h in queues && queues[h] in before && queues[h] in after && Deletes(before[queues[h]], cursor, after[queues[h]])
    && forall q :: q in before && q != queues[h] ==> q in after && after[q] == before[q]
  }

  ghost predicate ShowsAt(before: map<nat, Queue>, after: map<nat, Queue>, queues: map<nat, nat>, h: nat,
          cursor: Handle) {
    && h in queues && queues[h] in before && queues[h] in after && Shows(before[queues[h]], cursor, after[queues[h]])
    && forall q :: q in before && q != queues[h] ==> q in after && after[q] == before[q]
  }

  /** What is left when a transaction has ended: the retrieves that were not acknowledged. */
  ghost predicate OnlyUnacknowledged(before: Claims, after: Claims) {
    && (forall k :: k in after <==> k in before && before[k].kind.Retrieving? && !before[k].acknowledged)
    && (forall k :: k in after ==> after[k] == before[k])
  }

  lemma {:induction false} UnsettledAre(p: Part)
    requires Fit(p)
    ensures OnlyUnacknowledged(p.mine, Unsettled(p.mine))
  {
    assert IsFit(p) && IsSane(p);
  }

  lemma {:induction false} AckDeletes(p: Part, k: WorkKey)
    requires Fit(p) && k in p.mine
    ensures k.queue in p.queues && p.queues[k.queue] in p.storage
    ensures var q, h := p.storage[p.queues[k.queue]], p.mine[k].cursor; Deletes(q, h, Discard(q, h))
  {
    assert IsFit(p);
    PendingOpen(p, k);
    var w, q := Join(p), p.queues[k.queue];
    assert QueueInv(w, q) && k in StateOf(w, q).claims;
    RemoveNodes(p.storage[q].entries, NodeOf(p.storage[q], p.mine[k]));
  }

  lemma {:induction false} PutShows(p: Part, k: WorkKey)
    requires Fit(p) && k.session == p.id && k in p.rest.works
    ensures k.queue in p.queues && p.queues[k.queue] in p.storage
    ensures var q, h := p.storage[p.queues[k.queue]], p.rest.works[k].cursor; Shows(q, h, Unhide(q, h))
  {
    assert IsFit(p);
    RunningOpen(p, k);
    var w, q := Join(p), p.queues[k.queue];
    assert QueueInv(w, q) && k in StateOf(w, q).claims;
    ShowDone(StateOf(w, q), k);
    SetPurgedNodes(p.storage[q].entries, NodeOf(p.storage[q], p.rest.works[k]), false);
  }
}
