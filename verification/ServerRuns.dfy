/**
 What holds over whole runs of the server, whatever the interleaving of sessions: pending
 work stays sound exactly as long as the steps are clean, and a rollback leaves no trace.
 Loss.dfy adds which steps lose a message, and Commit.dfy what a commit does.
 */
module ServerRuns {
  import opened Bytes
  import opened QueueModel
  import opened QueueOps
  import opened Claims
  import opened Outlooks
  import opened Lifecycle
  import opened Prospects
  import opened Server

  // ---------- one step ----------

  ghost predicate CleanStep(w: World, st: Step)
    requires WellFormed(w) && Enabled(w, st)
  {
    match st
    case OnWork(k, c) => Clean(StateOf(w, w.handles[(k.session, k.queue)]), ActOf(w, k, c))
    case OnCursor(q, a) => Clean(StateOf(w, q), a)
    case _ => true
  }

  lemma {:induction false} CommandRecord(w: World, q: nat, k: WorkKey, c: Command)
    requires Bookkeeping(w) && WellFormed(w) && Ready(w, k, c) && CanAct(w, q, ActOf(w, k, c))
    requires OnQueue(w.handles, k, q)
    ensures var s' := Do(StateOf(w, q), ActOf(w, k, c));
      k in s'.claims ==>
        (k.session !in w.inTx ==> !Settles(s'.claims[k])) && (s'.claims[k].acknowledged ==> s'.claims[k].sent)
  {
    assert Booked(w, k);
  }

  lemma {:induction false} WithStateBooks(w: World, q: nat, s: State, ks: set<WorkKey>)
    requires Bookkeeping(w) && q in w.queues
    requires s.claims.Keys <= ClaimsOf(w, q).Keys + ks
    requires forall k :: k in s.claims && k !in ks ==> k in w.works && s.claims[k] == w.works[k]
    requires forall k :: k in ks ==> OnQueue(w.handles, k, q)
    requires forall k :: k in ks && k in s.claims ==>
      (k.session !in w.inTx ==> !Settles(s.claims[k])) && (s.claims[k].acknowledged ==> s.claims[k].sent)
    ensures Bookkeeping(WithState(w, q, s))
  {
    forall k ensures Booked(WithState(w, q, s), k) {
      assert Booked(w, k);
    }
  }

  lemma {:induction false} ActedInv(w: World, q: nat, a: Act)
    requires WorldInv(w) && WellFormed(w) && CanAct(w, q, a) && KeysOn(w, a, q)
    requires Bookkeeping(Acted(w, q, a))
    ensures WorldInv(Acted(w, q, a)) <==> Clean(StateOf(w, q), a)
  {
    ActedSplits(w, q, a);
    assert QueueInv(w, q);
    DoExact(StateOf(w, q), a);
    var w' := Acted(w, q, a);
    if Clean(StateOf(w, q), a) {
      forall r: nat ensures QueueInv(w', r) {
        assert QueueInv(w, r);
        assert r in w.queues && r != q ==> StateOf(w', r) == StateOf(w, r);
      }
    } else {
      assert !QueueInv(w', q);
    }
  }

  lemma {:induction false} ActedBooks(w: World, q: nat, a: Act)
    requires Bookkeeping(w) && WellFormed(w) && CanAct(w, q, a)
    requires KeysOn(w, a, q)
    requires forall k :: k in KeysOf(a) && k in Do(StateOf(w, q), a).claims ==>
      var v := Do(StateOf(w, q), a).claims[k]; (k.session !in w.inTx ==> !Settles(v)) && (v.acknowledged ==> v.sent)
    ensures Bookkeeping(Acted(w, q, a))
  {
    var s' := Do(StateOf(w, q), a);
    DoKeys(StateOf(w, q), a);
    forall k | k in s'.claims && k !in KeysOf(a) ensures k in w.works && s'.claims[k] == w.works[k] {
      assert k in ClaimsOf(w, q);
    }
    WithStateBooks(w, q, s', KeysOf(a));
  }

  lemma {:induction false} WorkInv(w: World, q: nat, k: WorkKey, c: Command)
    requires WorldInv(w) && WellFormed(w) && Ready(w, k, c) && OnQueue(w.handles, k, q)
    requires CanAct(w, q, ActOf(w, k, c))
    ensures WorldInv(Acted(w, q, ActOf(w, k, c))) <==> Clean(StateOf(w, q), ActOf(w, k, c))
  {
    var a := ActOf(w, k, c);
    CommandKeysOn(w, k, c, q);
    assert Bookkeeping(Acted(w, q, a)) by {
      CommandRecord(w, q, k, c);
      ActedBooks(w, q, a);
    }
    ActedInv(w, q, a);
  }

  lemma {:induction false} WorldInvIsWellFormed(w: World)
    requires WorldInv(w)
    ensures WellFormed(w)
  {
    forall q | q in w.queues ensures Wf(w.queues[q]) {
      assert QueueInv(w, q);
    }
  }

  /** Opening or closing a queue, or a transaction, concerns no queue's claims. */
  lemma {:induction false} ClaimsSame(w: World, w': World)
    requires WorldInv(w) && Bookkeeping(w') && w'.queues == w.queues && w'.works == w.works
    requires forall k :: k in w.works && (k.session, k.queue) in w.handles && (k.session, k.queue) in w'.handles ==>
      w'.handles[(k.session, k.queue)] == w.handles[(k.session, k.queue)]
    ensures WorldInv(w') && forall q :: q in w.queues ==> StateOf(w', q) == StateOf(w, q)
  {
    forall k | k in w.works ensures (k.session, k.queue) in w'.handles && (k.session, k.queue) in w.handles {
      assert Booked(w, k) && Booked(w', k);
    }
    forall q | q in w.queues ensures StateOf(w', q) == StateOf(w, q) {
      assert ClaimsOf(w', q) == ClaimsOf(w, q);
    }
    forall q: nat ensures QueueInv(w', q) {
      assert QueueInv(w, q);
    }
  }

  lemma {:induction false} TransactionInv(w: World, inTx: set<nat>)
    requires WorldInv(w) && forall k :: k in w.works && k.session in w.inTx && k.session !in inTx ==>
      !Settles(w.works[k])
    ensures WorldInv(w.(inTx := inTx))
    ensures forall r :: r in w.queues ==> StateOf(w.(inTx := inTx), r) == StateOf(w, r)
  {
    var w' := w.(inTx := inTx);
    forall k ensures Booked(w', k) {
      assert Booked(w, k);
    }
    ClaimsSame(w, w');
  }

  lemma {:induction false} OpenQueueInv(w: World, s: nat, h: nat, q: nat)
    requires WorldInv(w) && (s, h) !in w.handles && q in w.queues
    ensures WorldInv(w.(handles := w.handles[(s, h) := q]))
    ensures forall r :: r in w.queues ==> StateOf(w.(handles := w.handles[(s, h) := q]), r) == StateOf(w, r)
  {
    var w' := w.(handles := w.handles[(s, h) := q]);
    forall k ensures Booked(w', k) {
      assert Booked(w, k);
    }
    ClaimsSame(w, w');
  }

  lemma {:induction false} CloseQueueInv(w: World, s: nat, h: nat)
    requires WorldInv(w) && forall k :: k in w.works ==> k.session != s || k.queue != h
    ensures WorldInv(w.(handles := w.handles - {(s, h)}))
    ensures forall r :: r in w.queues ==> StateOf(w.(handles := w.handles - {(s, h)}), r) == StateOf(w, r)
  {
    var w' := w.(handles := w.handles - {(s, h)});
    forall k ensures Booked(w', k) {
      assert Booked(w, k);
    }
    ClaimsSame(w, w');
  }

  /** A step of any session keeps every queue's pending work sound if and only if it is clean. */
  lemma {:induction false} StepExact(w: World, st: Step)
    requires WorldInv(w) && WellFormed(w) && Enabled(w, st)
    ensures WorldInv(After(w, st)) <==> CleanStep(w, st)
  {
    match st
    case BeginTransaction(s) => TransactionInv(w, w.inTx + {s});
    case EndTransaction(s) => TransactionInv(w, w.inTx - {s});
    case OpenQueue(s, h, q) => OpenQueueInv(w, s, h, q);
    case CloseQueue(s, h) => CloseQueueInv(w, s, h);
    case OnWork(k, c) => WorkInv(w, w.handles[(k.session, k.queue)], k, c);
    case OnCursor(q, a) => PlainActInv(w, q, a);
    case OnTimer(q, now) => PlainActInv(w, q, Expire(now));
  }

  lemma {:induction false} PlainActInv(w: World, q: nat, a: Act)
    requires WorldInv(w) && WellFormed(w) && CanAct(w, q, a) && (CursorAct(a) || a.Expire?)
    ensures WorldInv(Acted(w, q, a)) <==> Clean(StateOf(w, q), a)
  {
    NoKeysOn(w, a, q);
    ActedBooks(w, q, a);
    ActedInv(w, q, a);
  }

  // ---------- runs ----------

  ghost predicate Steps(w: World, st: Step, w': World) {
    WellFormed(w) && Enabled(w, st) && w' == After(w, st)
  }

  /** Worlds that follow one another, one step each, whoever takes it. */
  ghost predicate Run(ws: seq<World>, sts: seq<Step>) {
    |ws| == |sts| + 1 && forall i, j :: 0 <= i < |sts| && j == i + 1 ==> Steps(ws[i], sts[i], ws[j])
  }

  ghost predicate CleanRun(ws: seq<World>, sts: seq<Step>)
    requires Run(ws, sts)
  {
    forall i, j :: 0 <= i < |sts| && j == i + 1 && Steps(ws[i], sts[i], ws[j]) ==> CleanStep(ws[i], sts[i])
  }

  /** All but the last step of a run. */
  lemma {:induction false} RunInit(ws: seq<World>, sts: seq<Step>)
    requires Run(ws, sts) && CleanRun(ws, sts) && |sts| > 0
    ensures var n := |sts|;
      && Run(ws[..n], sts[..n - 1]) && CleanRun(ws[..n], sts[..n - 1])
      && Steps(ws[n - 1], sts[n - 1], ws[n]) && CleanStep(ws[n - 1], sts[n - 1])
  {
  }

  /** The invariant holds in every world of every clean run. */
  lemma {:induction false} RunInv(ws: seq<World>, sts: seq<Step>)
    requires Run(ws, sts) && CleanRun(ws, sts) && WorldInv(ws[0])
    ensures forall i :: 0 <= i < |ws| ==> WorldInv(ws[i])
    decreases |sts|
  {
    var n := |sts|;
    if n > 0 {
      RunInit(ws, sts);
      RunInv(ws[..n], sts[..n - 1]);
      assert ws[..n][n - 1] == ws[n - 1];
      StepExact(ws[n - 1], sts[n - 1]);
      forall i | 0 <= i < |ws| ensures WorldInv(ws[i]) {
        if i < n {
          assert ws[..n][i] == ws[i];
        }
      }
    }
  }

  /**
   A server just started, whose queues were recovered and hold no id twice: the invariant
   holds and nothing is lost.
   */
  lemma {:induction false} Started(queues: map<nat, Queue>)
    requires forall q :: q in queues ==> Recovered(queues[q])
    ensures var w := World(queues, map[], {}, map[]);
      WorldInv(w) && forall q :: q in queues ==> Lost(StateOf(w, q)) == {}
  {
    var w := World(queues, map[], {}, map[]);
    forall q: nat ensures QueueInv(w, q) && (q in queues ==> Lost(StateOf(w, q)) == {}) {
      assert q in queues ==> Recovered(queues[q]);
    }
  }

  /** The run condition is exact: the invariant holds all along a run if and only if every step is clean. */
  lemma {:induction false} RunExact(ws: seq<World>, sts: seq<Step>)
    requires Run(ws, sts) && WorldInv(ws[0])
    ensures (forall i :: 0 <= i < |ws| ==> WorldInv(ws[i])) <==> CleanRun(ws, sts)
  {
    if CleanRun(ws, sts) {
      RunInv(ws, sts);
    } else if forall i :: 0 <= i < |ws| ==> WorldInv(ws[i]) {
      forall i, j | 0 <= i < |sts| && j == i + 1 && Steps(ws[i], sts[i], ws[j]) ensures CleanStep(ws[i], sts[i]) {
        StepExact(ws[i], sts[i]);
      }
    }
  }

  ghost predicate Recovered(q: Queue) {
    Wf(q) && UniqueIds(q.entries) && forall e :: e in q.entries ==> !e.item.purged
  }

  // ---------- cursor numbers ----------

  /** The step makes a piece of work on the queue go through this cursor number. */
  ghost predicate UsesStep(w: World, st: Step, q: nat, h: Handle)
    requires WellFormed(w) && Enabled(w, st)
  {
    st.OnWork? && OnQueue(w.handles, st.key, q) && Uses(StateOf(w, q), ActOf(w, st.key, st.command), h)
  }

  /**
   A number that no pending work goes through comes into use by these steps alone, whoever
   takes them: a new handle of this number, or a retrieve through a cursor of this number.
   */
  lemma {:induction false} FreeStepExact(w: World, st: Step, q: nat, h: Handle)
    requires WorldInv(w) && WellFormed(w) && Enabled(w, st) && q in w.queues && Free(StateOf(w, q), h)
    ensures q in After(w, st).queues
    ensures Free(StateOf(After(w, st), q), h) <==> !UsesStep(w, st, q, h)
  {
    match st
    case BeginTransaction(s) => TransactionInv(w, w.inTx + {s});
    case EndTransaction(s) => TransactionInv(w, w.inTx - {s});
    case OpenQueue(s, g, r) => OpenQueueInv(w, s, g, r);
    case CloseQueue(s, g) => CloseQueueInv(w, s, g);
    case OnWork(k, c) => {
      CommandKeysOn(w, k, c, w.handles[(k.session, k.queue)]);
      ActedFree(w, w.handles[(k.session, k.queue)], ActOf(w, k, c), q, h);
    }
    case OnCursor(r, a) => {
      NoKeysOn(w, a, r);
      ActedFree(w, r, a, q, h);
    }
    case OnTimer(r, now) => {
      NoKeysOn(w, Expire(now), r);
      ActedFree(w, r, Expire(now), q, h);
    }
  }

  lemma {:induction false} ActedFree(w: World, r: nat, a: Act, q: nat, h: Handle)
    requires WorldInv(w) && WellFormed(w) && CanAct(w, r, a) && KeysOn(w, a, r)
    requires q in w.queues && Free(StateOf(w, q), h)
    ensures q in Acted(w, r, a).queues
    ensures Free(StateOf(Acted(w, r, a), q), h) <==> !(q == r && Uses(StateOf(w, q), a, h))
  {
    ActedSplits(w, r, a);
    if q == r {
      assert QueueInv(w, q);
      FreeExact(StateOf(w, q), a, h);
    }
  }

  // ---------- rollback ----------

  /** The copy that was to take the retrieve over is refused: its handle is closed by now, or its entry gone. */
  predicate CopyFails(w: World, k: WorkKey, h: Handle) {
    && k in w.works && (k.session, k.queue) in w.handles && w.handles[(k.session, k.queue)] in w.queues
    && Refuses(StateOf(w, w.handles[(k.session, k.queue)]), k, h)
  }

  /**
   The steps a session takes before it commits, rolls back, or closes a queue with retrieves to
   be acknowledged, unless the copy for a retrieve through a cursor fails.
   */
  predicate Undoable(w: World, st: Step) {
    match st
    case OnWork(k, c) =>
      (match c
       case PutDone => k.session in w.inTx
       case Ack => k.session in w.inTx
       case CommitOne => false
       case ShutdownOne => k in w.works && Settles(w.works[k])
       case GetCopied(h) => !CopyFails(w, k, h)
       case _ => true)
    case OnTimer(q, now) => false
    case _ => true
  }

  lemma {:induction false} UndoableAct(w: World, q: nat, k: WorkKey, c: Command)
    requires WellFormed(w) && Ready(w, k, c) && CanAct(w, q, ActOf(w, k, c)) && OnQueue(w.handles, k, q)
    requires Undoable(w, OnWork(k, c))
    ensures Tentative(StateOf(w, q), ActOf(w, k, c))
  {
  }

  lemma {:induction false} ActedProspect(w: World, q: nat, a: Act, r: nat)
    requires WorldInv(w) && WellFormed(w) && CanAct(w, q, a) && Tentative(StateOf(w, q), a) && r in w.queues
    requires Clean(StateOf(w, q), a)
    requires KeysOn(w, a, q)
    ensures r in Acted(w, q, a).queues && Prospect(StateOf(Acted(w, q, a), r)) == Prospect(StateOf(w, r))
  {
    ActedSplits(w, q, a);
    assert QueueInv(w, q);
    DoTentative(StateOf(w, q), a);
  }

  lemma {:induction false} WorkProspect(w: World, q: nat, k: WorkKey, c: Command, r: nat)
    requires WorldInv(w) && WellFormed(w) && Ready(w, k, c) && OnQueue(w.handles, k, q)
    requires CanAct(w, q, ActOf(w, k, c)) && Clean(StateOf(w, q), ActOf(w, k, c))
    requires Undoable(w, OnWork(k, c)) && r in w.queues
    ensures r in Acted(w, q, ActOf(w, k, c)).queues
    ensures Prospect(StateOf(Acted(w, q, ActOf(w, k, c)), r)) == Prospect(StateOf(w, r))
  {
    CommandKeysOn(w, k, c, q);
    UndoableAct(w, q, k, c);
    ActedProspect(w, q, ActOf(w, k, c), r);
  }

  lemma {:induction false} CursorProspect(w: World, q: nat, a: Act, r: nat)
    requires WorldInv(w) && WellFormed(w) && CanAct(w, q, a) && CursorAct(a) && r in w.queues
    requires Clean(StateOf(w, q), a)
    ensures r in Acted(w, q, a).queues && Prospect(StateOf(Acted(w, q, a), r)) == Prospect(StateOf(w, r))
  {
    NoKeysOn(w, a, q);
    ActedProspect(w, q, a, r);
  }

  lemma {:induction false} StepProspect(w: World, st: Step, r: nat)
    requires WorldInv(w) && WellFormed(w) && Enabled(w, st) && CleanStep(w, st) && Undoable(w, st) && r in w.queues
    ensures r in After(w, st).queues && Prospect(StateOf(After(w, st), r)) == Prospect(StateOf(w, r))
  {
    match st
    case BeginTransaction(s) => TransactionInv(w, w.inTx + {s});
    case EndTransaction(s) => TransactionInv(w, w.inTx - {s});
    case OpenQueue(s, h, q) => OpenQueueInv(w, s, h, q);
    case CloseQueue(s, h) => CloseQueueInv(w, s, h);
    case OnWork(k, c) => WorkProspect(w, w.handles[(k.session, k.queue)], k, c, r);
    case OnCursor(q, a) => CursorProspect(w, q, a, r);
    case OnTimer(q, now) =>
  }

  lemma {:induction false} RunProspect(ws: seq<World>, sts: seq<Step>, q: nat)
    requires Run(ws, sts) && CleanRun(ws, sts) && WorldInv(ws[0]) && q in ws[0].queues
    requires forall i :: 0 <= i < |sts| ==> Undoable(ws[i], sts[i])
    ensures q in ws[|sts|].queues && Prospect(StateOf(ws[|sts|], q)) == Prospect(StateOf(ws[0], q))
    decreases |sts|
  {
    var n := |sts|;
    if n > 0 {
      RunInit(ws, sts);
      LastInv(ws, sts);
      RunProspect(ws[..n], sts[..n - 1], q);
      StepProspect(ws[n - 1], sts[n - 1], q);
    }
  }

  lemma {:induction false} LastInv(ws: seq<World>, sts: seq<Step>)
    requires Run(ws, sts) && CleanRun(ws, sts) && WorldInv(ws[0]) && |sts| > 0
    ensures WorldInv(ws[|sts| - 1])
  {
    RunInv(ws, sts);
  }

  /**
   Rollback is the identity: a run of tentative steps, by any number of sessions, that starts
   and ends with nothing pending leaves what every queue shows exactly as it was.
   */
  lemma {:induction false} RollbackIdentity(ws: seq<World>, sts: seq<Step>, q: nat)
    requires Run(ws, sts) && CleanRun(ws, sts) && WorldInv(ws[0]) && q in ws[0].queues
    requires forall i :: 0 <= i < |sts| ==> Undoable(ws[i], sts[i])
    requires ws[0].works == map[] == ws[|sts|].works
    ensures q in ws[|sts|].queues && Visible(ws[|sts|].queues[q]) == Visible(ws[0].queues[q])
  {
    RunProspect(ws, sts, q);
    assert ClaimsOf(ws[0], q) == map[] == ClaimsOf(ws[|sts|], q);
    NothingPending(StateOf(ws[0], q));
    NothingPending(StateOf(ws[|sts|], q));
  }

  // ---------- what retrieves deliver ----------

  /** The handle is on an entry that is visible in the first queue. */
  ghost predicate OnVisible(q: Queue, q': Queue, h: Handle) {
    && h in q'.cursors && q'.cursors[h].target.At? && Has(q.entries, q'.cursors[h].target.node)
    && !IsHidden(q.entries, q'.cursors[h].target.node)
  }

  lemma {:induction false} FirstDelivers(q: Queue)
    requires Wf(q) && BeginRetrieve(q).1 == NoError
    ensures OnVisible(q, BeginRetrieve(q).0, NextHandle(q.cursors.Keys))
  {
    FirstVisibleShows(q.entries);
  }

  lemma {:induction false} FoundDelivers(q: Queue, id: bytes)
    requires OnEntry(OpenCursor(q), NextHandle(q.cursors.Keys)) && BeginRetrieveID(q, id).1 == NoError
    ensures OnVisible(q, BeginRetrieveID(q, id).0, NextHandle(q.cursors.Keys))
  {
  }

  /** A retrieve of any kind claims a message that was visible. */
  lemma {:induction false} DeliversVisible(s: State, a: Act, k: WorkKey)
    requires Inv(s) && Legal(s, a) && (a.Take? || a.TakeID? || a.TakeCursor?) && a.key == k && k !in s.claims
    requires k in Do(s, a).claims
    ensures OnVisible(s.queue, Do(s, a).queue, Do(s, a).claims[k].cursor)
  {
    if a.Take? {
      FirstDelivers(s.queue);
    } else if a.TakeID? {
      OpenOnEntry(s.queue);
      FoundDelivers(s.queue, a.id);
    }
  }

  predicate Precedes(f: Entry, e: Entry) {
    f.item.priority > e.item.priority || (f.item.priority == e.item.priority && f.node < e.node)
  }

  /**
   No visible message is of a higher priority, or of the same priority and older, than the one
   BeginRetrieve delivers.
   */
  lemma {:induction false} FirstVisibleBest(es: seq<Entry>, e: Entry)
    requires Ordered(es) && e in es && !e.item.purged
    ensures FirstVisible(es).At?
    ensures exists f :: f in es && f.node == FirstVisible(es).node && !f.item.purged && (f == e || Precedes(f, e))
  {
    if !es[0].item.purged {
      assert es[0] in es;
    } else {
      assert es == [es[0]] + es[1..];
      FirstVisibleBest(es[1..], e);
      var f :| f in es[1..] && f.node == FirstVisible(es).node && !f.item.purged && (f == e || Precedes(f, e));
      assert f in es;
    }
  }
}
