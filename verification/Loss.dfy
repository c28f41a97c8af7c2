/**
 Which steps lose a message, and what follows for the life cycle of messages and for
 rollbacks. A message is lost when it stays hidden with no pending work to show it again:
 when a queue is closed over a retrieve that was not acknowledged, and when the copy that
 was to take a retrieve over fails, because between two locks of the one command the new
 handle was closed or its entry erased.
 */
module Losses {
  import opened Bytes
  import opened QueueModel
  import opened QueueOps
  import opened Claims
  import opened Outlooks
  import opened Lifecycle
  import opened Prospects
  import opened Server
  import opened ServerRuns

  /** The step forgets a piece of work without settling it. */
  predicate Losing(w: World, st: Step) {
    && st.OnWork? && st.key in w.works
    && match st.command
       case ShutdownOne => !Settles(w.works[st.key])
       case GetCopied(h) => CopyFails(w, st.key, h)
       case _ => false
  }

  predicate LosingOn(w: World, st: Step, q: nat) {
    Losing(w, st) && OnQueue(w.handles, st.key, q)
  }

  /** The node of this queue that the step loses, if any. */
  ghost function LostBy(w: World, st: Step, q: nat): set<nat>
    requires q in w.queues && Inv(StateOf(w, q))
  {
    if LosingOn(w, st, q) then {NodeOf(w.queues[q], StateOf(w, q).claims[st.key])} else {}
  }

  // ---------- one step ----------

  /** A claimed node is not lost yet. */
  lemma {:induction false} ClaimedNotLost(s: State, k: WorkKey)
    requires Inv(s) && k in s.claims
    ensures NodeOf(s.queue, s.claims[k]) !in Lost(s)
  {
    TargetOf(s.queue, s.claims, s.claims.Keys, k);
  }

  /** An act forgets a claim, or fails to take it over. */
  predicate Forgets(s: State, a: Act) {
    a.Forget? || (a.Rebind? && Refuses(s, a.key, a.handle))
  }

  lemma {:induction false} WorkForgets(w: World, q: nat, k: WorkKey, c: Command)
    requires Ready(w, k, c) && OnQueue(w.handles, k, q) && q in w.queues
    ensures LosingOn(w, OnWork(k, c), q) <==> Forgets(StateOf(w, q), ActOf(w, k, c))
    ensures Forgets(StateOf(w, q), ActOf(w, k, c)) ==> ActOf(w, k, c).key == k && k in StateOf(w, q).claims
  {
  }

  lemma {:induction false} ForgetsLoses(s: State, a: Act)
    requires Inv(s) && Legal(s, a)
    ensures Loses(s, a) == if Forgets(s, a) then {NodeOf(s.queue, s.claims[a.key])} else {}
  {
  }

  lemma {:induction false} WorkLoses(w: World, q: nat, k: WorkKey, c: Command)
    requires WellFormed(w) && Ready(w, k, c) && OnQueue(w.handles, k, q) && q in w.queues && Inv(StateOf(w, q))
    requires Legal(StateOf(w, q), ActOf(w, k, c))
    ensures Loses(StateOf(w, q), ActOf(w, k, c)) == LostBy(w, OnWork(k, c), q)
  {
    WorkForgets(w, q, k, c);
    ForgetsLoses(StateOf(w, q), ActOf(w, k, c));
  }

  lemma {:induction false} ActedLost(w: World, q: nat, a: Act, r: nat)
    requires WorldInv(w) && WellFormed(w) && CanAct(w, q, a) && KeysOn(w, a, q) && Clean(StateOf(w, q), a)
    requires r in w.queues && Inv(StateOf(w, q))
    ensures var w' := Acted(w, q, a);
      r in w'.queues && Lost(StateOf(w', r)) == Lost(StateOf(w, r)) + if r == q then Loses(StateOf(w, q), a) else {}
  {
    ActedSplits(w, q, a);
    DoLoses(StateOf(w, q), a);
  }

  lemma {:induction false} WorkLost(w: World, q: nat, k: WorkKey, c: Command, r: nat)
    requires WorldInv(w) && WellFormed(w) && Ready(w, k, c) && OnQueue(w.handles, k, q)
    requires CanAct(w, q, ActOf(w, k, c)) && Clean(StateOf(w, q), ActOf(w, k, c))
    requires r in w.queues && Inv(StateOf(w, r))
    ensures var w' := Acted(w, q, ActOf(w, k, c));
      r in w'.queues && Lost(StateOf(w', r)) == Lost(StateOf(w, r)) + LostBy(w, OnWork(k, c), r)
  {
    assert QueueInv(w, q);
    CommandKeysOn(w, k, c, q);
    ActedLost(w, q, ActOf(w, k, c), r);
    WorkLoses(w, q, k, c);
  }

  lemma {:induction false} PlainActLost(w: World, q: nat, a: Act, r: nat)
    requires WorldInv(w) && WellFormed(w) && CanAct(w, q, a) && (CursorAct(a) || a.Expire?) && r in w.queues
    requires Clean(StateOf(w, q), a)
    ensures r in Acted(w, q, a).queues && Lost(StateOf(Acted(w, q, a), r)) == Lost(StateOf(w, r))
  {
    assert QueueInv(w, q);
    NoKeysOn(w, a, q);
    ActedLost(w, q, a, r);
  }

  /** A clean step of any session adds to the lost messages exactly the one that it forgets, if any. */
  lemma {:induction false} StepLost(w: World, st: Step, r: nat)
    requires WorldInv(w) && WellFormed(w) && Enabled(w, st) && CleanStep(w, st) && r in w.queues && Inv(StateOf(w, r))
    ensures r in After(w, st).queues && Lost(StateOf(After(w, st), r)) == Lost(StateOf(w, r)) + LostBy(w, st, r)
    ensures LosingOn(w, st, r) ==> LostBy(w, st, r) !! Lost(StateOf(w, r))
  {
    match st
    case BeginTransaction(s) => TransactionInv(w, w.inTx + {s});
    case EndTransaction(s) => TransactionInv(w, w.inTx - {s});
    case OpenQueue(s, h, q) => OpenQueueInv(w, s, h, q);
    case CloseQueue(s, h) => CloseQueueInv(w, s, h);
    case OnWork(k, c) => {
      WorkLost(w, w.handles[(k.session, k.queue)], k, c, r);
      if LosingOn(w, st, r) {
        ClaimedNotLost(StateOf(w, r), k);
      }
    }
    case OnCursor(q, a) => PlainActLost(w, q, a, r);
    case OnTimer(q, now) => PlainActLost(w, q, Expire(now), r);
  }

  // ---------- runs ----------

  /** From one world to the other the queue's lost messages only become more, and none more if and only if `same`. */
  ghost predicate LostGrows(w: World, w': World, q: nat, same: bool) {
    && q in w.queues && q in w'.queues && Lost(StateOf(w, q)) <= Lost(StateOf(w', q))
    && (Lost(StateOf(w', q)) == Lost(StateOf(w, q)) <==> same)
  }

  lemma {:induction false} LostGrowsOn(w: World, w1: World, w2: World, q: nat, same: bool, same': bool)
    requires LostGrows(w, w1, q, same) && LostGrows(w1, w2, q, same')
    ensures LostGrows(w, w2, q, same && same')
  {
  }

  lemma {:induction false} LastStepLost(ws: seq<World>, sts: seq<Step>, q: nat)
    requires Run(ws, sts) && CleanRun(ws, sts) && WorldInv(ws[0]) && |sts| > 0 && q in ws[|sts| - 1].queues
    ensures var n := |sts|; LostGrows(ws[n - 1], ws[n], q, !LosingOn(ws[n - 1], sts[n - 1], q))
  {
    var n := |sts|;
    RunInit(ws, sts);
    LastInv(ws, sts);
    assert QueueInv(ws[n - 1], q);
    StepLost(ws[n - 1], sts[n - 1], q);
    if LosingOn(ws[n - 1], sts[n - 1], q) {
      var x :| x in LostBy(ws[n - 1], sts[n - 1], q);
      assert x in Lost(StateOf(ws[n], q)) && x !in Lost(StateOf(ws[n - 1], q));
    }
  }

  /** None of the first n steps loses a message of the queue. */
  ghost predicate NoneLosing(ws: seq<World>, sts: seq<Step>, q: nat)
    requires |ws| >= |sts|
  {
    forall i :: 0 <= i < |sts| ==> !LosingOn(ws[i], sts[i], q)
  }

  lemma {:induction false} NoneLosingSnoc(ws: seq<World>, sts: seq<Step>, q: nat)
    requires |ws| == |sts| + 1 && |sts| > 0
    ensures var n := |sts|;
      NoneLosing(ws, sts, q) <==> NoneLosing(ws[..n], sts[..n - 1], q) && !LosingOn(ws[n - 1], sts[n - 1], q)
  {
    var n := |sts|;
    assert forall i :: 0 <= i < n - 1 ==> ws[..n][i] == ws[i] && sts[..n - 1][i] == sts[i];
  }

  /** Over a clean run nothing that was lost is found again, and no more is lost if and only if no step loses any. */
  lemma {:induction false} RunLost(ws: seq<World>, sts: seq<Step>, q: nat)
    requires Run(ws, sts) && CleanRun(ws, sts) && WorldInv(ws[0]) && q in ws[0].queues
    ensures LostGrows(ws[0], ws[|sts|], q, NoneLosing(ws, sts, q))
    decreases |sts|
  {
    var n := |sts|;
    if n > 0 {
      RunInit(ws, sts);
      RunLost(ws[..n], sts[..n - 1], q);
      assert ws[..n][0] == ws[0] && ws[..n][n - 1] == ws[n - 1];
      LastStepLost(ws, sts, q);
      NoneLosingSnoc(ws, sts, q);
      var before, last := NoneLosing(ws[..n], sts[..n - 1], q), !LosingOn(ws[n - 1], sts[n - 1], q);
      LostGrowsOn(ws[0], ws[n - 1], ws[n], q, before, last);
    }
  }

  // ---------- the life cycle of a message ----------

  /** Every entry is visible, or claimed by one piece of pending work alone, and never both. */
  ghost predicate AllVisibleOrClaimed(s: State)
    requires Inv(s)
  {
    forall n :: Has(s.queue.entries, n) ==> VisibleOrClaimed(s, n)
  }

  lemma {:induction false} ExclusiveExact(s: State)
    requires Inv(s)
    ensures AllVisibleOrClaimed(s) <==> Lost(s) == {}
  {
    if Lost(s) == {} {
      forall n | Has(s.queue.entries, n) ensures VisibleOrClaimed(s, n) {
        Exclusive(s, n);
      }
    } else if AllVisibleOrClaimed(s) {
      var n :| n in Lost(s);
      HiddenIs(s.queue.entries, n);
      assert VisibleOrClaimed(s, n);
      var k :| k in s.claims && NodeOf(s.queue, s.claims[k]) == n;
      ClaimedNotLost(s, k);
    }
  }

  /**
   The exclusive life cycle, across all sessions: over a clean run that starts with nothing
   lost, every entry of a queue is in the end visible, or claimed by exactly one piece of
   pending work, and never both, if and only if no step of the run loses a message of it.
   */
  lemma {:induction false} LifeCycle(ws: seq<World>, sts: seq<Step>, q: nat)
    requires Run(ws, sts) && CleanRun(ws, sts) && WorldInv(ws[0]) && q in ws[0].queues && Lost(StateOf(ws[0], q)) == {}
    ensures q in ws[|sts|].queues && Inv(StateOf(ws[|sts|], q))
    ensures AllVisibleOrClaimed(StateOf(ws[|sts|], q)) <==> NoneLosing(ws, sts, q)
  {
    RunInv(ws, sts);
    RunLost(ws, sts, q);
    assert QueueInv(ws[|sts|], q);
    ExclusiveExact(StateOf(ws[|sts|], q));
  }

  // ---------- rollbacks ----------

  /** A retrieve that is forgotten takes one message out of the prospect. */
  lemma {:induction false} ForgetProspect(s: State, k: WorkKey)
    requires Inv(s) && k in s.claims && s.claims[k].kind.Retrieving?
    ensures |Prospect(State(s.queue, s.claims - {k}))| == |Prospect(s)| - 1
  {
    var n, some := NodeOf(s.queue, s.claims[k]), Retrieves(s.claims);
    RetrievesLess(s.claims, k);
    TargetsDrop(s.queue, s.queue, s.claims, some, k);
    TargetOf(s.queue, s.claims, some, k);
    HiddenIs(s.queue.entries, n);
    var hidden, held := HiddenNodes(s.queue.entries), Targets(s.queue, s.claims, some);
    OneMore(hidden, held, n);
    KeepLess(s.queue.entries, n, hidden - held);
  }

  lemma {:induction false} OneMore(a: set<nat>, b: set<nat>, n: nat)
    requires n in a && n in b
    ensures a - (b - {n}) == (a - b) + {n}
  {
  }

  lemma {:induction false} KeepLess(es: seq<Entry>, n: nat, without: set<nat>)
    requires Unique(es) && Has(es, n) && n !in without
    ensures |Keep(es, without + {n})| == |Keep(es, without)| - 1
  {
    var k := IndexOf(es, n);
    var a, e, b := es[..k], es[k], es[k + 1..];
    assert es == a + [e] + b;
    assert n !in Nodes(a) && n !in Nodes(b);
    KeepSplice(a, e, b, without);
    KeepSplice(a, e, b, without + {n});
    KeepAgree(a, without, without + {n});
    KeepAgree(b, without, without + {n});
  }

  /** A step that loses a message of the queue takes it out of the prospect. */
  lemma {:induction false} LosingProspect(w: World, st: Step, r: nat)
    requires WorldInv(w) && WellFormed(w) && Enabled(w, st) && CleanStep(w, st) && LosingOn(w, st, r) && r in w.queues
    ensures r in After(w, st).queues
    ensures |Prospect(StateOf(After(w, st), r))| == |Prospect(StateOf(w, r))| - 1
  {
    var k := st.key;
    CommandKeysOn(w, k, st.command, r);
    ActedSplits(w, r, ActOf(w, k, st.command));
    assert QueueInv(w, r) && k in StateOf(w, r).claims;
    LosingForgets(w, k, st.command, r);
    ForgetProspect(StateOf(w, r), k);
  }

  lemma {:induction false} LosingForgets(w: World, k: WorkKey, c: Command, r: nat)
    requires WellFormed(w) && Ready(w, k, c) && LosingOn(w, OnWork(k, c), r) && r in w.queues
    requires Legal(StateOf(w, r), ActOf(w, k, c))
    ensures k in StateOf(w, r).claims && StateOf(w, r).claims[k].kind.Retrieving?
    ensures Do(StateOf(w, r), ActOf(w, k, c)) == State(w.queues[r], StateOf(w, r).claims - {k})
  {
    if c.GetCopied? {
      RefusedIs(StateOf(w, r), k, c.cursor);
    }
  }

  /** A step on another queue leaves this one's state alone. */
  lemma {:induction false} ElsewhereSame(w: World, st: Step, r: nat)
    requires WellFormed(w) && Enabled(w, st) && Losing(w, st) && !LosingOn(w, st, r) && r in w.queues
    ensures r in After(w, st).queues && StateOf(After(w, st), r) == StateOf(w, r)
  {
    var k, q := st.key, w.handles[(st.key.session, st.key.queue)];
    CommandKeysOn(w, k, st.command, q);
    ActedSplits(w, q, ActOf(w, k, st.command));
  }

  /** The steps of work that is undone in the end, the losing ones among them. */
  predicate Abandoning(w: World, st: Step) {
    Undoable(w, st) || Losing(w, st)
  }

  lemma {:induction false} StepShrinks(w: World, st: Step, r: nat)
    requires WorldInv(w) && WellFormed(w) && Enabled(w, st) && CleanStep(w, st) && Abandoning(w, st) && r in w.queues
    ensures r in After(w, st).queues
    ensures var p, p' := Prospect(StateOf(w, r)), Prospect(StateOf(After(w, st), r));
      if LosingOn(w, st, r) then |p'| == |p| - 1 else p' == p
  {
    if LosingOn(w, st, r) {
      LosingProspect(w, st, r);
    } else if Losing(w, st) {
      ElsewhereSame(w, st, r);
    } else {
      StepProspect(w, st, r);
    }
  }

  lemma {:induction false} RunShrinks(ws: seq<World>, sts: seq<Step>, q: nat)
    requires Run(ws, sts) && CleanRun(ws, sts) && WorldInv(ws[0]) && q in ws[0].queues
    requires forall i :: 0 <= i < |sts| ==> Abandoning(ws[i], sts[i])
    ensures q in ws[|sts|].queues
    ensures var p, p' := Prospect(StateOf(ws[0], q)), Prospect(StateOf(ws[|sts|], q));
      if NoneLosing(ws, sts, q) then p' == p else |p'| < |p|
    decreases |sts|
  {
    var n := |sts|;
    if n > 0 {
      RunInit(ws, sts);
      LastInv(ws, sts);
      NoneLosingSnoc(ws, sts, q);
      RunShrinks(ws[..n], sts[..n - 1], q);
      StepShrinks(ws[n - 1], sts[n - 1], q);
    }
  }

  /**
   When rollback is the identity: over a clean run of any number of sessions in which nothing
   is committed and nothing expires, that starts and ends with nothing pending, a queue shows
   exactly what it showed before if and only if no step of the run loses a message of it.
   */
  lemma {:induction false} RollbackExact(ws: seq<World>, sts: seq<Step>, q: nat)
    requires Run(ws, sts) && CleanRun(ws, sts) && WorldInv(ws[0]) && q in ws[0].queues
    requires forall i :: 0 <= i < |sts| ==> Abandoning(ws[i], sts[i])
    requires ws[0].works == map[] == ws[|sts|].works
    ensures q in ws[|sts|].queues
    ensures Visible(ws[|sts|].queues[q]) == Visible(ws[0].queues[q]) <==> NoneLosing(ws, sts, q)
  {
    RunShrinks(ws, sts, q);
    assert ClaimsOf(ws[0], q) == map[] == ClaimsOf(ws[|sts|], q);
    NothingPending(StateOf(ws[0], q));
    NothingPending(StateOf(ws[|sts|], q));
  }
}
