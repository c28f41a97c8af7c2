/**
 A shutdown with other sessions in between. The source holds a queue's lock for one call at
 a time, so between two calls of a shutdown other sessions may act, and be given a cursor
 number that the ending session still lists.
 */
module Interruptions {
  import opened QueueModel
  import opened QueueOps
  import opened Claims
  import opened Lifecycle
  import opened Server
  import opened ServerRuns
  import opened SessionEnds

  /** What a session that ends does: it ends a piece of work, closes a number, closes a queue. */
  predicate Ends(id: nat, st: Step) {
    || (st.OnWork? && st.command == ShutdownOne && st.key.session == id)
    || (st.OnCursor? && st.act.Close?)
    || (st.CloseQueue? && st.session == id)
  }

  /** A number that is closed by this step is in use by no pending work. */
  ghost predicate ClosesFree(w: World, st: Step) {
    st.OnCursor? && st.act.Close? && st.queue in w.queues ==> Free(StateOf(w, st.queue), st.act.handle)
  }

  lemma {:induction false} EndsClean(w: World, id: nat, st: Step)
    requires WellFormed(w) && Enabled(w, st) && Ends(id, st)
    ensures CleanStep(w, st) <==> ClosesFree(w, st)
  {
  }

  /**
   A session ends while others act: the steps at `mine` are its own, and those in between are
   clean. Pending work is sound in every world on the way if and only if each number is in use
   by none when it is closed. That none was in use when the shutdown began does not matter.
   */
  lemma {:induction false} EndInterrupted(ws: seq<World>, sts: seq<Step>, id: nat, mine: set<nat>)
    requires Run(ws, sts) && WorldInv(ws[0])
    requires forall i :: 0 <= i < |sts| && i in mine ==> Ends(id, sts[i])
    requires forall i, j :: 0 <= i < |sts| && j == i + 1 && i !in mine && Steps(ws[i], sts[i], ws[j]) ==>
      CleanStep(ws[i], sts[i])
    ensures (forall i :: 0 <= i < |ws| ==> WorldInv(ws[i])) <==>
      forall i :: 0 <= i < |sts| && i in mine ==> ClosesFree(ws[i], sts[i])
  {
    RunExact(ws, sts);
    forall i, j | 0 <= i < |sts| && j == i + 1 && i in mine && Steps(ws[i], sts[i], ws[j])
      ensures CleanStep(ws[i], sts[i]) <==> ClosesFree(ws[i], sts[i])
    {
      EndsClean(ws[i], id, sts[i]);
    }
    forall i | 0 <= i < |sts| && i in mine
      ensures CleanRun(ws, sts) ==> ClosesFree(ws[i], sts[i])
    {
      assert Steps(ws[i], sts[i], ws[i + 1]);
    }
  }

  /**
   The first number that nobody has is in use by no work; the next retrieve from the queue is
   given it; and if the session that ends then closes it, as one that it lists from before, the
   other's claim is lost.
   */
  lemma {:induction false} GivenInBetween(w: World, k: WorkKey, q: nat, w1: World, w2: World)
    requires WorldInv(w) && OnQueue(w.handles, k, q) && Steps(w, OnWork(k, Get), w1)
    requires BeginRetrieve(w.queues[q]).1 == NoError
    requires Steps(w1, OnCursor(q, Act.Close(NextHandle(w.queues[q].cursors.Keys))), w2)
    ensures Free(StateOf(w, q), NextHandle(w.queues[q].cursors.Keys))
    ensures WorldInv(w1) && !WorldInv(w2)
  {
    var h := NextHandle(w.queues[q].cursors.Keys);
    forall l | l in ClaimsOf(w, q) ensures w.works[l].cursor != h {
      OpenThrough(w, q, l);
    }
    StepExact(w, OnWork(k, Get));
    CommandKeysOn(w, k, Get, q);
    ActedSplits(w, q, Take(k));
    assert StateOf(w1, q).claims[k] == Pending(h, Retrieving);
    StepExact(w1, OnCursor(q, Act.Close(h)));
  }
}
