/**
 What ends with a session: its pending work, its cursors, its queues. Cursor numbers are
 handed out again once they are closed, so a number that the session still lists may by now
 belong to other work. `Lively` is the world without what the session has pending through
 handles that are closed already: that is the part of it that can stay sound.
 */
module SessionEnds {
  import opened Bytes
  import opened QueueModel
  import opened QueueOps
  import opened Claims
  import opened Outlooks
  import opened Lifecycle
  import opened Server
  import opened ServerRuns
  import opened SessionSteps

  // ---------- closing several handles of a queue ----------

  function CloseAll(q: Queue, hs: set<Handle>): Queue {
    q.(cursors := q.cursors - hs)
  }

  ghost predicate AllFree(s: State, hs: set<Handle>) {
    forall k :: k in s.claims ==> s.claims[k].cursor !in hs
  }

  lemma {:induction false} CloseAllWf(q: Queue, hs: set<Handle>)
    requires Wf(q)
    ensures Wf(CloseAll(q, hs))
  {
    assert ValidTargets(CloseAll(q, hs).cursors) <= ValidTargets(q.cursors);
  }

  lemma {:induction false} StillHolds(q: Queue, hs: set<Handle>, h: Handle)
    requires Holds(q, h) && h !in hs
    ensures Holds(CloseAll(q, hs), h) && CloseAll(q, hs).cursors[h] == q.cursors[h]
  {
  }

  /** Some of the claims, and none of their handles closed. */
  lemma {:induction false} SomeInv(s: State, claims: Claims, hs: set<Handle>)
    requires Inv(s) && (forall k :: k in claims ==> k in s.claims && claims[k] == s.claims[k])
    requires AllFree(State(s.queue, claims), hs)
    ensures Inv(State(CloseAll(s.queue, hs), claims))
  {
    var q' := CloseAll(s.queue, hs);
    CloseAllWf(s.queue, hs);
    forall k | k in claims
      ensures Holds(q', claims[k].cursor) && NodeOf(q', claims[k]) == NodeOf(s.queue, s.claims[k])
    {
      StillHolds(s.queue, hs, s.claims[k].cursor);
    }
    InvKept(s, State(q', claims));
  }

  /** Closing handles keeps the invariant if and only if no pending work uses one of them. */
  lemma {:induction false} CloseAllExact(s: State, hs: set<Handle>)
    requires Inv(s)
    ensures Inv(State(CloseAll(s.queue, hs), s.claims)) <==> AllFree(s, hs)
  {
    if AllFree(s, hs) {
      SomeInv(s, s.claims, hs);
    } else {
      var k :| k in s.claims && s.claims[k].cursor in hs;
      assert !Holds(CloseAll(s.queue, hs), s.claims[k].cursor);
    }
  }

  // ---------- the work whose handle is still open ----------

  predicate Alive(w: World, k: WorkKey) {
    k in w.works && (k.session, k.queue) in w.handles && w.handles[(k.session, k.queue)] in w.queues
    && w.works[k].cursor in w.queues[w.handles[(k.session, k.queue)]].cursors
  }

  function Lively(w: World, id: nat): World {
    w.(works := map k | k in w.works && (k.session == id ==> Alive(w, k)) :: w.works[k])
  }

  /** In a sound world all work is alive. */
  lemma {:induction false} AllAlive(w: World, id: nat)
    requires WorldInv(w)
    ensures Lively(w, id) == w && forall k :: k in w.works ==> Alive(w, k)
  {
    forall k | k in w.works ensures Alive(w, k) {
      assert Booked(w, k);
      var q := w.handles[(k.session, k.queue)];
      assert QueueInv(w, q) && k in ClaimsOf(w, q);
    }
  }

  lemma {:induction false} LivelyBooks(w: World, id: nat)
    requires Bookkeeping(w)
    ensures Bookkeeping(Lively(w, id))
  {
    forall k ensures Booked(Lively(w, id), k) {
      assert Booked(w, k);
    }
  }

  /** Ending a piece of work closes its own handle or none. */
  lemma {:induction false} SettledKeys(q: Queue, v: Work, c: Command)
    ensures var q' := SettledQueue(q, v, c);
      q'.cursors.Keys == q.cursors.Keys || q'.cursors.Keys == q.cursors.Keys - {v.cursor}
    ensures v.cursor !in q.cursors ==> SettledQueue(q, v, c) == q
  {
  }

  /** Ending work whose handle is closed changes no queue. */
  lemma {:induction false} SettleDead(w: World, id: nat, k: WorkKey, c: Command, q: nat)
    requires k in w.works && k.session == id && OnQueue(w.handles, k, q) && q in w.queues && !Alive(w, k)
    ensures Lively(Settled(w, q, SettledQueue(w.queues[q], w.works[k], c), k), id) == Lively(w, id)
  {
    SettledKeys(w.queues[q], w.works[k], c);
    assert w.queues[q := w.queues[q]] == w.queues;
  }

  /** Ending work whose handle is open leaves the handles of the other work open. */
  lemma {:induction false} OthersAlive(w: World, id: nat, k: WorkKey, c: Command, q: nat, l: WorkKey)
    requires WorldInv(Lively(w, id)) && Alive(w, k) && k.session == id && OnQueue(w.handles, k, q)
    requires l in w.works && l.session == id && l != k
    ensures Alive(Settled(w, q, SettledQueue(w.queues[q], w.works[k], c), k), l) <==> Alive(w, l)
  {
    SettledKeys(w.queues[q], w.works[k], c);
    if Alive(w, l) && OnQueue(w.handles, l, q) {
      OthersDiffer(w, id, k, q, l);
    }
  }

  lemma {:induction false} OthersDiffer(w: World, id: nat, k: WorkKey, q: nat, l: WorkKey)
    requires WorldInv(Lively(w, id)) && Alive(w, k) && Alive(w, l) && k != l
    requires OnQueue(w.handles, k, q) && OnQueue(w.handles, l, q)
    ensures w.works[k].cursor != w.works[l].cursor
  {
    assert QueueInv(Lively(w, id), q);
    var claims := ClaimsOf(Lively(w, id), q);
    assert k in claims && l in claims;
    HandlesDiffer(w.queues[q], claims);
  }

  lemma {:induction false} SettleAlive(w: World, id: nat, k: WorkKey, c: Command, q: nat)
    requires WorldInv(Lively(w, id)) && Alive(w, k) && k.session == id && OnQueue(w.handles, k, q)
    requires w.works[k].sent && c == ShutdownOne
    ensures var w' := Settled(w, q, SettledQueue(w.queues[q], w.works[k], c), k);
      && Steps(Lively(w, id), OnWork(k, c), Lively(w', id)) && CleanStep(Lively(w, id), OnWork(k, c))
      && WorldInv(Lively(w', id))
  {
    var w' := Settled(w, q, SettledQueue(w.queues[q], w.works[k], c), k);
    SettleStep(Lively(w, id), k, c, q);
    forall l | l in w.works && l.session == id && l != k ensures Alive(w', l) <==> Alive(w, l) {
      OthersAlive(w, id, k, c, q, l);
    }
    LivelySettled(w, id, k, q, SettledQueue(w.queues[q], w.works[k], c));
  }

  lemma {:induction false} LivelySettled(w: World, id: nat, k: WorkKey, q: nat, queue: Queue)
    requires Alive(w, k)
    requires forall l :: l in w.works && l.session == id && l != k ==>
      (Alive(Settled(w, q, queue, k), l) <==> Alive(w, l))
    ensures Lively(Settled(w, q, queue, k), id) == Settled(Lively(w, id), q, queue, k)
  {
  }

  // ---------- closing cursors ----------

  function Closed(w: World, q: nat, hs: set<Handle>): World
    requires q in w.queues
  {
    w.(queues := w.queues[q := CloseAll(w.queues[q], hs)])
  }

  /** The work is on this queue, and through one of the handles. */
  predicate Through(w: World, q: nat, hs: set<Handle>, k: WorkKey) {
    k in w.works && OnQueue(w.handles, k, q) && w.works[k].cursor in hs
  }

  ghost predicate Unused(w: World, q: nat, hs: set<Handle>) {
    forall k :: k in w.works && OnQueue(w.handles, k, q) ==> w.works[k].cursor !in hs
  }

  lemma {:induction false} LivelyClosed(w: World, id: nat, q: nat, hs: set<Handle>, r: nat)
    requires q in w.queues && r in w.queues && r != q
    ensures StateOf(Lively(Closed(w, q, hs), id), r) == StateOf(Lively(w, id), r)
  {
    assert ClaimsOf(Lively(Closed(w, q, hs), id), r) == ClaimsOf(Lively(w, id), r);
  }

  /** When no other session's work uses the handles, all that stays alive stays sound. */
  lemma {:induction false} CloseLively(w: World, id: nat, q: nat, hs: set<Handle>)
    requires Bookkeeping(w) && WorldInv(Lively(w, id)) && q in w.queues
    requires forall k :: Through(w, q, hs, k) ==> k.session == id
    ensures WorldInv(Lively(Closed(w, q, hs), id))
  {
    ClosedBooks(w, q, hs);
    LivelyBooks(Closed(w, q, hs), id);
    forall r: nat ensures QueueInv(Lively(Closed(w, q, hs), id), r) {
      assert QueueInv(Lively(w, id), r);
      if r == q {
        LivelyClosing(w, id, q, hs);
      } else if r in w.queues {
        LivelyClosed(w, id, q, hs, r);
      }
    }
  }

  lemma {:induction false} ClosedBooks(w: World, q: nat, hs: set<Handle>)
    requires Bookkeeping(w) && q in w.queues
    ensures Bookkeeping(Closed(w, q, hs))
  {
    forall k ensures Booked(Closed(w, q, hs), k) {
      assert Booked(w, k);
    }
  }

  lemma {:induction false} LivelyClosing(w: World, id: nat, q: nat, hs: set<Handle>)
    requires q in w.queues && Inv(StateOf(Lively(w, id), q))
    requires forall k :: Through(w, q, hs, k) ==> k.session == id
    ensures Inv(StateOf(Lively(Closed(w, q, hs), id), q))
  {
    var claims := ClaimsOf(Lively(Closed(w, q, hs), id), q);
    forall k | k in claims ensures claims[k].cursor !in hs {
      assert !Through(w, q, hs, k) || k.session == id;
    }
    SomeInv(StateOf(Lively(w, id), q), claims, hs);
  }

  /** Sound work goes through an open handle. */
  lemma {:induction false} OpenThrough(w: World, q: nat, k: WorkKey)
    requires WorldInv(w) && k in w.works && OnQueue(w.handles, k, q) && q in w.queues
    ensures w.works[k].cursor in w.queues[q].cursors
  {
    assert QueueInv(w, q) && k in ClaimsOf(w, q);
  }

  lemma {:induction false} ClosedNone(w: World, q: nat)
    requires q in w.queues
    ensures Closed(w, q, {}) == w
  {
    assert w.queues[q].cursors - {} == w.queues[q].cursors;
    assert w.queues[q := w.queues[q]] == w.queues;
  }

  lemma {:induction false} ClosedOne(w: World, q: nat, hs: set<Handle>, h: Handle)
    requires q in w.queues && h in hs
    ensures Closed(Closed(w, q, hs - {h}), q, {h}) == Closed(w, q, hs)
  {
    assert w.queues[q].cursors - (hs - {h}) - {h} == w.queues[q].cursors - hs;
  }

  /** The handles are closed one at a time, each as one step. */
  lemma {:induction false} ClosePath(w: World, q: nat, hs: set<Handle>) returns (ws: seq<World>, sts: seq<Step>)
    requires WorldInv(w) && q in w.queues && Unused(w, q, hs)
    ensures Path(ws, sts, w, Closed(w, q, hs)) && WorldInv(Closed(w, q, hs)) && |sts| == |hs|
    decreases |hs|
  {
    if hs == {} {
      ws, sts := [w], [];
      ClosedNone(w, q);
    } else {
      var h :| h in hs;
      ws, sts := ClosePath(w, q, hs - {h});
      var w1 := Closed(w, q, hs - {h});
      CloseOneStep(w1, q, h);
      ClosedOne(w, q, hs, h);
      PathSnoc(ws, sts, w, w1, OnCursor(q, Act.Close(h)), Closed(w, q, hs));
      ws, sts := ws + [Closed(w, q, hs)], sts + [OnCursor(q, Act.Close(h))];
    }
  }

  lemma {:induction false} CloseOneStep(w: World, q: nat, h: Handle)
    requires WorldInv(w) && q in w.queues && Unused(w, q, {h})
    ensures var w' := Closed(w, q, {h});
      Steps(w, OnCursor(q, Act.Close(h)), w') && CleanStep(w, OnCursor(q, Act.Close(h))) && WorldInv(w')
  {
    WorldInvIsWellFormed(w);
    UnusedFree(w, q, h);
    PlainActInv(w, q, Act.Close(h));
    SameWorks(w, q);
  }

  lemma {:induction false} UnusedFree(w: World, q: nat, h: Handle)
    requires q in w.queues && Unused(w, q, {h})
    ensures Free(StateOf(w, q), h)
  {
    forall k | k in ClaimsOf(w, q) ensures w.works[k].cursor != h {
      assert w.works[k].cursor !in {h};
    }
  }

  lemma {:induction false} SameWorks(w: World, q: nat)
    ensures Elsewhere(w, q) + ClaimsOf(w, q) == w.works
  {
  }

  // ---------- closing the queue handle ----------

  function WithoutHandle(works: Claims, h: nat): Claims {
    map k | k in works && k.queue != h :: works[k]
  }

  lemma {:induction false} WithoutAll(works: Claims, h: nat)
    requires forall k :: k in works ==> k.queue != h
    ensures WithoutHandle(works, h) == works
  {
  }

  function Unhandled(w: World, id: nat, h: nat): World {
    w.(handles := w.handles - {(id, h)})
  }

  ghost predicate NoWorkOn(w: World, id: nat, h: nat) {
    forall k :: k in w.works ==> k.session != id || k.queue != h
  }

  lemma {:induction false} UnhandledExact(w: World, id: nat, h: nat)
    requires (id, h) in w.handles && w.handles[(id, h)] in w.queues && NoWorkOn(w, id, h)
    ensures WorldInv(Unhandled(w, id, h)) <==> WorldInv(w)
  {
    var w' := Unhandled(w, id, h);
    if WorldInv(w) {
      CloseQueueInv(w, id, h);
    }
    if WorldInv(w') {
      OpenQueueInv(w', id, h, w.handles[(id, h)]);
      assert w'.handles[(id, h) := w.handles[(id, h)]] == w.handles;
    }
  }

  lemma {:induction false} UnhandledLively(w: World, id: nat, h: nat)
    requires NoWorkOn(w, id, h)
    ensures Lively(Unhandled(w, id, h), id) == Unhandled(Lively(w, id), id, h)
  {
    forall k | k in w.works ensures Alive(Unhandled(w, id, h), k) <==> Alive(w, k) {
    }
  }

  lemma {:induction false} UnhandledStep(w: World, id: nat, h: nat)
    requires WorldInv(w) && (id, h) in w.handles && NoWorkOn(w, id, h)
    ensures Steps(w, CloseQueue(id, h), Unhandled(w, id, h)) && CleanStep(w, CloseQueue(id, h))
  {
    WorldInvIsWellFormed(w);
  }

  // ---------- the session's record over a shutdown ----------

  /** The numbers that the session lists as its cursors on a handle. */
  function Listed(p: Part, h: nat): set<Handle> {
    set c | c in p.cursors && c.0 == h :: c.1
  }

  /** No work but the handle's own goes through a number that is listed under the handle. */
  ghost predicate Clear(p: Part, h: nat) {
    h in p.queues ==> forall k :: Through(Join(p), p.queues[h], Listed(p, h), k) ==> k.session == p.id && k.queue == h
  }

  /** No other session's work goes through a number that is listed under the handle. */
  ghost predicate Spared(p: Part, h: nat) {
    h in p.queues ==> forall k :: Through(Join(p), p.queues[h], Listed(p, h), k) ==> k.session == p.id
  }

  ghost predicate AllClear(p: Part) {
    forall h {:trigger Clear(p, h)} :: Clear(p, h)
  }

  ghost predicate AllSpared(p: Part) {
    forall h {:trigger Spared(p, h)} :: Spared(p, h)
  }

  ghost predicate Steady(p: Part) {
    Sane(p) && WorldInv(Lively(Join(p), p.id))
  }

  /** Less of the session than before, in the same surroundings. */
  ghost predicate Fewer(p: Part, p': Part) {
    && p'.id == p.id && p'.inTx == p.inTx && p'.rest == p.rest
    && (forall k :: k in p'.mine ==> k in p.mine && p'.mine[k] == p.mine[k])
    && (forall h :: h in p'.queues ==> h in p.queues && p'.queues[h] == p.queues[h])
    && p'.cursors <= p.cursors && KeysShrink(p.storage, p'.storage)
  }

  /** No queue has got another open handle. */
  ghost predicate KeysShrink(a: map<nat, Queue>, b: map<nat, Queue>) {
    a.Keys == b.Keys && forall q :: q in a ==> b[q].cursors.Keys <= a[q].cursors.Keys
  }

  lemma {:induction false} FewerThrough(p: Part, p': Part, q: nat, hs: set<Handle>, k: WorkKey)
    requires Fewer(p, p') && Apart(p) && Through(Join(p'), q, hs, k)
    ensures Through(Join(p), q, hs, k)
  {
    if (k.session, k.queue) in Handles(p'.id, p'.queues) {
      assert (k.session, k.queue) in Handles(p.id, p.queues);
    }
  }

  lemma {:induction false} FewerClear(p: Part, p': Part)
    requires Fewer(p, p') && Apart(p)
    ensures AllClear(p) ==> AllClear(p')
    ensures AllSpared(p) ==> AllSpared(p')
  {
    forall h, k | h in p'.queues && Through(Join(p'), p'.queues[h], Listed(p', h), k)
      ensures Through(Join(p), p.queues[h], Listed(p, h), k)
    {
      FewerThrough(p, p', p.queues[h], Listed(p', h), k);
    }
    forall h ensures (Clear(p, h) ==> Clear(p', h)) && (Spared(p, h) ==> Spared(p', h)) {
    }
  }

  lemma {:induction false} FitIsSteady(p: Part)
    requires Fit(p)
    ensures Steady(p) && Lively(Join(p), p.id) == Join(p)
  {
    assert IsFit(p);
    AllAlive(Join(p), p.id);
  }

  lemma {:induction false} FitIsAlive(p: Part, k: WorkKey)
    requires Fit(p) && k in p.mine
    ensures Alive(Join(p), k)
  {
    assert IsFit(p);
    AllAlive(Join(p), p.id);
  }

  // ---------- the loop that ends a handle's work ----------

  /**
   A shutdown under way. What it did is a run of the state machine on the work that is alive;
   if all was sound before, that is all the work, and each piece took one step.
   */
  ghost predicate Shutting(p0: Part, p: Part, h: nat, ws: seq<World>, sts: seq<Step>) {
    && Sane(p) && Fewer(p0, p) && p.queues == p0.queues && p.cursors == p0.cursors
    && WithoutHandle(p.mine, h) == WithoutHandle(p0.mine, h)
    && (Steady(p0) ==>
          Steady(p) && SettleRun(ws, sts, p.id, ShutdownOne, Lively(Join(p0), p.id), Lively(Join(p), p.id)))
    && (Fit(p0) ==> Fit(p) && |sts| + |p.mine| == |p0.mine|)
  }

  lemma {:induction false} ShuttingStart(p: Part, h: nat)
    requires Sane(p)
    ensures Shutting(p, p, h, [Lively(Join(p), p.id)], [])
  {
  }

  lemma {:induction false} ShutSteady(p: Part, k: WorkKey)
    requires Steady(p) && k in p.mine && k.queue in p.queues && p.queues[k.queue] in p.storage
    ensures var p' := SettledPart(p, k, ShutdownOne);
      var w, w' := Lively(Join(p), p.id), Lively(Join(p'), p.id);
      && Steady(p')
      && (if Alive(Join(p), k) then Steps(w, OnWork(k, ShutdownOne), w') && CleanStep(w, OnWork(k, ShutdownOne))
        else w' == w)
  {
    PendingOpen(p, k);
    SaneWithout(p, k, ShutdownOne);
    assert IsSane(p);
    JoinWithout(p, k, ShutdownOne);
    if Alive(Join(p), k) {
      SettleAlive(Join(p), p.id, k, ShutdownOne, p.queues[k.queue]);
    } else {
      SettleDead(Join(p), p.id, k, ShutdownOne, p.queues[k.queue]);
    }
  }

  lemma {:induction false} ShutFewer(p0: Part, p: Part, k: WorkKey, h: nat)
    requires Fewer(p0, p) && k in p.mine && k.queue == h && k.queue in p.queues && p.queues[k.queue] in p.storage
    ensures var p' := SettledPart(p, k, ShutdownOne);
      && Fewer(p0, p') && WithoutHandle(p'.mine, h) == WithoutHandle(p.mine, h) && |p'.mine| == |p.mine| - 1
  {
    SettledShrinks(p.storage, p.queues[h], p.mine[k], ShutdownOne);
    ShrinkTransitive(p0.storage, p.storage, SettledPart(p, k, ShutdownOne).storage);
    OneLess(p.mine, k);
  }

  lemma {:induction false} OneLess(works: Claims, k: WorkKey)
    requires k in works
    ensures |works - {k}| == |works| - 1 && WithoutHandle(works - {k}, k.queue) == WithoutHandle(works, k.queue)
  {
    assert works.Keys == (works - {k}).Keys + {k};
  }

  lemma {:induction false} SettledShrinks(storage: map<nat, Queue>, q: nat, v: Work, c: Command)
    requires q in storage
    ensures KeysShrink(storage, storage[q := SettledQueue(storage[q], v, c)])
  {
    SettledKeys(storage[q], v, c);
  }

  lemma {:induction false} ShrinkTransitive(a: map<nat, Queue>, b: map<nat, Queue>, c: map<nat, Queue>)
    requires KeysShrink(a, b) && KeysShrink(b, c)
    ensures KeysShrink(a, c)
  {
  }

  /** One turn of the loop. */
  lemma {:induction false} ShuttingNext(p0: Part, p: Part, h: nat, ws: seq<World>, sts: seq<Step>, k: WorkKey)
    returns (ws': seq<World>, sts': seq<Step>)
    requires Shutting(p0, p, h, ws, sts) && k in p.mine && k.queue == h
    ensures k.queue in p.queues && p.queues[k.queue] in p.storage
    ensures Shutting(p0, SettledPart(p, k, ShutdownOne), h, ws', sts')
  {
    PendingOpen(p, k);
    var p' := SettledPart(p, k, ShutdownOne);
    SaneWithout(p, k, ShutdownOne);
    ShutFewer(p0, p, k, h);
    ws', sts' := ws, sts;
    if Steady(p0) {
      ShutSteady(p, k);
      if Alive(Join(p), k) {
        assert k.session == p.id by {
          assert IsSane(p);
        }
        var w0, w, w' := Lively(Join(p0), p.id), Lively(Join(p), p.id), Lively(Join(p'), p.id);
        var st := OnWork(k, ShutdownOne);
        SettleSnoc(ws, sts, p.id, ShutdownOne, w0, w, st, w');
        ws', sts' := ws + [w'], sts + [st];
      }
    }
    if Fit(p0) {
      FitIsSteady(p0);
      FitIsAlive(p, k);
      SettleJoin(p, k, ShutdownOne);
    }
  }

  // ---------- cursors and handle ----------

  /** The numbers of the cursors that are no longer listed. */
  function Unlisted(all: set<(nat, Handle)>, left: set<(nat, Handle)>): set<Handle> {
    set c | c in all && c !in left :: c.1
  }

  lemma {:induction false} UnlistedNone(storage: map<nat, Queue>, q: nat, all: set<(nat, Handle)>)
    requires q in storage
    ensures storage[q := CloseAll(storage[q], Unlisted(all, all))] == storage
  {
    assert Unlisted(all, all) == {};
    assert storage[q].cursors - {} == storage[q].cursors;
  }

  lemma {:induction false} UnlistedNext(q: Queue, all: set<(nat, Handle)>, left: set<(nat, Handle)>, c: (nat, Handle))
    requires left <= all && c in left
    ensures QueueOps.Close(CloseAll(q, Unlisted(all, left)), c.1) == CloseAll(q, Unlisted(all, left - {c}))
  {
    assert Unlisted(all, left - {c}) == Unlisted(all, left) + {c.1};
  }

  /** The handle's cursors are closed and no longer listed. */
  function ClosedPart(p: Part, h: nat): Part
    requires h in p.queues && p.queues[h] in p.storage
  {
    var q := p.queues[h];
    p.(cursors := (set c | c in p.cursors && c.0 != h), storage := p.storage[q := CloseAll(p.storage[q], Listed(p, h))])
  }

  function UnhandledPart(p: Part, h: nat): Part {
    p.(queues := p.queues - {h})
  }

  /** The end of shutdownQueue, after the work. */
  function ShutPart(p: Part, h: nat): Part
    requires h in p.queues && p.queues[h] in p.storage
  {
    UnhandledPart(ClosedPart(p, h), h)
  }

  lemma {:induction false} JoinUnhandled(p: Part, h: nat)
    requires Apart(p)
    ensures Join(UnhandledPart(p, h)) == Unhandled(Join(p), p.id, h)
  {
    HandlesDrop(p.id, p.queues, h);
    assert (p.id, h) !in p.rest.handles;
    HandlesMerge(p.rest.handles, Handles(p.id, p.queues), (p.id, h), 0);
  }

  /** All of the handle's work has ended. */
  ghost predicate NoneLeft(p: Part, h: nat) {
    && Sane(p) && h in p.queues && (forall k :: k in p.mine ==> k.queue != h)
    && (forall k :: k in p.rest.works ==> k.session != p.id)
  }

  lemma {:induction false} NoneLeftOpen(p: Part, h: nat)
    requires NoneLeft(p, h)
    ensures p.queues[h] in p.storage && Apart(p) && Bookkeeping(Join(p)) && NoWorkOn(Join(p), p.id, h)
    ensures (p.id, h) in Join(p).handles && Join(p).handles[(p.id, h)] == p.queues[h]
  {
    assert IsSane(p);
    HandleOpen(p, h);
  }

  lemma {:induction false} BooksClosed(w: World, q: nat, hs: set<Handle>, id: nat, h: nat)
    requires Bookkeeping(w) && q in w.queues && NoWorkOn(w, id, h)
    ensures Bookkeeping(Unhandled(Closed(w, q, hs), id, h))
  {
    forall k ensures Booked(Unhandled(Closed(w, q, hs), id, h), k) {
      assert Booked(w, k);
    }
  }

  lemma {:induction false} JoinShut(p: Part, h: nat)
    requires NoneLeft(p, h)
    ensures p.queues[h] in p.storage
    ensures Join(ClosedPart(p, h)) == Closed(Join(p), p.queues[h], Listed(p, h))
    ensures Join(ShutPart(p, h)) == Unhandled(Closed(Join(p), p.queues[h], Listed(p, h)), p.id, h)
    ensures Sane(ShutPart(p, h)) && Fewer(p, ShutPart(p, h))
  {
    NoneLeftOpen(p, h);
    JoinUnhandled(ClosedPart(p, h), h);
    BooksClosed(Join(p), p.queues[h], Listed(p, h), p.id, h);
    ShutSane(p, h);
    ShutPartFewer(p, h);
  }

  lemma {:induction false} ShutSane(p: Part, h: nat)
    requires Sane(p) && h in p.queues && p.queues[h] in p.storage && Bookkeeping(Join(ShutPart(p, h)))
    ensures Sane(ShutPart(p, h))
  {
    assert IsSane(p);
    ShutApart(p, h);
  }

  lemma {:induction false} ShutApart(p: Part, h: nat)
    requires Apart(p) && h in p.queues && p.queues[h] in p.storage && forall c :: c in p.cursors ==> c.0 in p.queues
    ensures Apart(ShutPart(p, h)) && ShutPart(p, h).mine == p.mine
    ensures forall c :: c in ShutPart(p, h).cursors ==> c.0 in ShutPart(p, h).queues
  {
  }

  lemma {:induction false} ShutPartFewer(p: Part, h: nat)
    requires h in p.queues && p.queues[h] in p.storage
    ensures Fewer(p, ShutPart(p, h))
  {
  }

  lemma {:induction false} ClosedExact(w: World, q: nat, hs: set<Handle>)
    requires WorldInv(w) && q in w.queues
    ensures WorldInv(Closed(w, q, hs)) <==> Unused(w, q, hs)
  {
    if Unused(w, q, hs) {
      var ws, sts := ClosePath(w, q, hs);
    } else {
      var k :| k in w.works && OnQueue(w.handles, k, q) && w.works[k].cursor in hs;
      if WorldInv(Closed(w, q, hs)) {
        OpenThrough(Closed(w, q, hs), q, k);
      }
    }
  }

  /** From a sound record: sound afterwards if and only if no work goes through a listed number. */
  lemma {:induction false} ShutExact(p: Part, h: nat)
    requires NoneLeft(p, h) && Fit(p)
    ensures p.queues[h] in p.storage
    ensures Fit(ShutPart(p, h)) <==> Unused(Join(p), p.queues[h], Listed(p, h))
  {
    assert IsFit(p);
    NoneLeftOpen(p, h);
    JoinShut(p, h);
    var w, q, hs := Join(p), p.queues[h], Listed(p, h);
    UnhandledExact(Closed(w, q, hs), p.id, h);
    ClosedExact(w, q, hs);
    assert Fit(ShutPart(p, h)) <==> IsFit(ShutPart(p, h));
  }

  lemma {:induction false} ShutPath(p: Part, h: nat) returns (ws: seq<World>, sts: seq<Step>)
    requires NoneLeft(p, h) && Fit(p) && p.queues[h] in p.storage && Unused(Join(p), p.queues[h], Listed(p, h))
    ensures Path(ws, sts, Join(p), Join(ShutPart(p, h))) && |sts| == |Listed(p, h)| + 1
  {
    assert IsFit(p);
    NoneLeftOpen(p, h);
    JoinShut(p, h);
    var w1 := Closed(Join(p), p.queues[h], Listed(p, h));
    ws, sts := ClosePath(Join(p), p.queues[h], Listed(p, h));
    UnhandledStep(w1, p.id, h);
    PathSnoc(ws, sts, Join(p), w1, CloseQueue(p.id, h), Unhandled(w1, p.id, h));
    ws, sts := ws + [Unhandled(w1, p.id, h)], sts + [CloseQueue(p.id, h)];
  }

  /** The work that is alive stays sound when other sessions are spared. */
  lemma {:induction false} ShutSpared(p: Part, h: nat)
    requires NoneLeft(p, h) && Steady(p) && Spared(p, h)
    ensures p.queues[h] in p.storage && Steady(ShutPart(p, h))
  {
    NoneLeftOpen(p, h);
    JoinShut(p, h);
    var w, q, hs := Join(p), p.queues[h], Listed(p, h);
    CloseLively(w, p.id, q, hs);
    UnhandledLively(Closed(w, q, hs), p.id, h);
    UnhandledExact(Lively(Closed(w, q, hs), p.id), p.id, h);
  }

  /** The handle's own work does not count, as it has ended by then. */
  lemma {:induction false} ClearUnused(p: Part, p1: Part, h: nat)
    requires Fewer(p, p1) && Sane(p) && h in p.queues && p1.queues == p.queues && p1.cursors == p.cursors
    requires p1.mine == WithoutHandle(p.mine, h) && forall k :: k in p.rest.works ==> k.session != p.id
    ensures Clear(p, h) <==> Unused(Join(p1), p1.queues[h], Listed(p1, h))
    ensures Spared(p, h) ==> Spared(p1, h)
  {
    assert IsSane(p);
    var q, hs := p.queues[h], Listed(p, h);
    forall k
      ensures Through(Join(p1), q, hs, k) <==> Through(Join(p), q, hs, k) && !(k.session == p.id && k.queue == h)
    {
      assert k in p.mine ==> k.session == p.id;
    }
    assert Listed(p1, h) == hs;
    if Unused(Join(p1), q, hs) {
      forall k | Through(Join(p), q, hs, k) ensures k.session == p.id && k.queue == h {
        assert !Through(Join(p1), q, hs, k);
      }
    }
    if Clear(p, h) {
      forall k | k in Join(p1).works && OnQueue(Join(p1).handles, k, q) ensures Join(p1).works[k].cursor !in hs {
        assert !Through(Join(p1), q, hs, k);
      }
    }
  }

  /** All of the handle's work has ended, each piece as the shutdown loop ends it, and nothing else has happened. */
  ghost predicate WorkEnded(p: Part, p1: Part, h: nat) {
    p1.mine == WithoutHandle(p.mine, h) && exists ws, sts :: Shutting(p, p1, h, ws, sts)
  }

  /**
   The handle has no work and no cursor any more, and is not open; what it listed is closed.
   Apart from that, the queues are as the end of the handle's work left them.
   */
  ghost predicate IsShut(p: Part, p': Part, h: nat) {
    && (exists p1 {:trigger WorkEnded(p, p1, h)} ::
          WorkEnded(p, p1, h) && h in p1.queues && p1.queues[h] in p1.storage && p' == ShutPart(p1, h))
    && h in p.queues && p'.queues == p.queues - {h}
    && p'.mine == WithoutHandle(p.mine, h) && p'.cursors == (set c | c in p.cursors && c.0 != h)
    && Sane(p') && Fewer(p, p')
    && p.queues[h] in p'.storage && p'.storage[p.queues[h]].cursors.Keys !! Listed(p, h)
  }

  /** What a shutdown came to, from the record before, after the handle's work, and at the end. */
  lemma {:induction false} ShutdownDone(p: Part, p1: Part, h: nat, ws: seq<World>, sts: seq<Step>)
    returns (ws': seq<World>, sts': seq<Step>)
    requires Shutting(p, p1, h, ws, sts) && Sane(p) && NoneLeft(p1, h) && p1.queues[h] in p1.storage
    requires p1.mine == WithoutHandle(p.mine, h)
    ensures var p' := ShutPart(p1, h);
      && IsShut(p, p', h)
      && (Fit(p) ==> (Fit(p') <==> Clear(p, h)))
      && (Fit(p) && Clear(p, h) ==> Path(ws', sts', Join(p), Join(p')))
      && (Steady(p) && Spared(p, h) ==> Steady(p'))
  {
    var p' := ShutPart(p1, h);
    assert WorkEnded(p, p1, h);
    JoinShut(p1, h);
    FewerTransitive(p, p1, p');
    ClearUnused(p, p1, h);
    ws', sts' := ws, sts;
    if Steady(p) && Spared(p, h) {
      ShutSpared(p1, h);
    }
    if Fit(p) {
      FitIsSteady(p);
      FitIsSteady(p1);
      ShutExact(p1, h);
      if Clear(p, h) {
        ws', sts' := ShutPath(p1, h);
        PathConcat(ws, sts, ws', sts', Join(p), Join(p1), Join(p'));
        ws', sts' := ws[..|sts|] + ws', sts + sts';
      }
    }
  }

  lemma {:induction false} FewerTransitive(p: Part, p1: Part, p2: Part)
    requires Fewer(p, p1) && Fewer(p1, p2)
    ensures Fewer(p, p2)
  {
  }

  // ---------- the whole session ----------

  /** What was listed at first is still listed, or closed. */
  ghost predicate Gone(p0: Part, p: Part) {
    forall c :: c in p0.cursors && c !in p.cursors ==>
      c.0 in p0.queues && p0.queues[c.0] in p.storage && c.1 !in p.storage[p0.queues[c.0]].cursors
  }

  /** Another session's work through a number that has been closed makes the world unsound. */
  lemma {:induction false} NotSpared(p0: Part, p: Part)
    requires Sane(p0) && Sane(p) && Fewer(p0, p) && Gone(p0, p) && p.cursors == {} && !AllSpared(p0)
    ensures !Fit(p)
  {
    assert IsSane(p0);
    var h :| !Spared(p0, h);
    var k :| Through(Join(p0), p0.queues[h], Listed(p0, h), k) && k.session != p0.id;
    var q, x := p0.queues[h], Join(p0).works[k].cursor;
    assert (h, x) in p0.cursors;
    assert k !in p0.mine && k !in p.mine;
    assert (k.session, k.queue) !in Handles(p.id, p.queues) && (k.session, k.queue) !in Handles(p0.id, p0.queues);
    if Fit(p) {
      assert IsFit(p);
      OpenThrough(Join(p), q, k);
    }
  }

  lemma {:induction false} GoneNext(p0: Part, p: Part, p': Part, h: nat)
    requires Gone(p0, p) && Fewer(p0, p) && Fewer(p, p') && h in p.queues && p.queues[h] in p'.storage
    requires forall c :: c in p.cursors && c.0 != h ==> c in p'.cursors
    requires forall c :: c in Listed(p, h) ==> c !in p'.storage[p.queues[h]].cursors
    ensures Gone(p0, p')
  {
    forall c | c in p0.cursors && c !in p'.cursors
      ensures c.0 in p0.queues && p0.queues[c.0] in p'.storage && c.1 !in p'.storage[p0.queues[c.0]].cursors
    {
      if c in p.cursors {
        assert c.1 in Listed(p, h);
      }
    }
  }

  /** Records that follow one another, one handle shut down each time. */
  ghost predicate ShutRun(ps: seq<Part>, hs: seq<nat>) {
    |ps| == |hs| + 1 && forall i, j :: 0 <= i < |hs| && j == i + 1 ==> IsShut(ps[i], ps[j], hs[i])
  }

  lemma {:induction false} ShutSnoc(ps: seq<Part>, hs: seq<nat>, p': Part, h: nat)
    requires ShutRun(ps, hs) && IsShut(ps[|hs|], p', h)
    ensures ShutRun(ps + [p'], hs + [h])
  {
    var ps', hs' := ps + [p'], hs + [h];
    forall i, j | 0 <= i < |hs'| && j == i + 1 ensures IsShut(ps'[i], ps'[j], hs'[i]) {
      if i < |hs| {
        assert IsShut(ps[i], ps[j], hs[i]);
      }
    }
  }

  /** The destructor's loop under way. */
  ghost predicate Ending(p0: Part, p: Part, ws: seq<World>, sts: seq<Step>) {
    && Sane(p0) && Sane(p) && Fewer(p0, p) && Gone(p0, p) && (forall k :: k in p.rest.works ==> k.session != p.id)
    && (AllSpared(p0) ==> Steady(p))
    && (AllClear(p0) ==> Fit(p) && Path(ws, sts, Join(p0), Join(p)))
  }

  lemma {:induction false} EndingStart(p: Part)
    requires Fit(p) && forall k :: k in p.rest.works ==> k.session != p.id
    ensures Ending(p, p, [Join(p)], [])
  {
    FitIsSteady(p);
  }

  /** One more queue has been shut down. */
  lemma {:induction false} EndingNext(p0: Part, p: Part, p': Part, h: nat, ws: seq<World>, sts: seq<Step>,
          ws1: seq<World>, sts1: seq<Step>)
    returns (ws': seq<World>, sts': seq<Step>)
    requires Ending(p0, p, ws, sts) && IsShut(p, p', h)
    requires Fit(p) && Clear(p, h) ==> Fit(p') && Path(ws1, sts1, Join(p), Join(p'))
    requires Steady(p) && Spared(p, h) ==> Steady(p')
    ensures Ending(p0, p', ws', sts')
  {
    assert IsSane(p0);
    FewerTransitive(p0, p, p');
    FewerClear(p0, p);
    GoneNext(p0, p, p', h);
    ws', sts' := ws, sts;
    if AllSpared(p0) {
      assert Spared(p, h);
    }
    if AllClear(p0) {
      assert Clear(p, h);
      PathConcat(ws, sts, ws1, sts1, Join(p0), Join(p), Join(p'));
      ws', sts' := ws[..|sts|] + ws1, sts + sts1;
    }
  }

  lemma {:induction false} EndingDone(p0: Part, p: Part, ws: seq<World>, sts: seq<Step>)
    requires Ending(p0, p, ws, sts) && p.queues == map[]
    ensures p.mine == map[] && p.cursors == {} && (Fit(p) <==> AllSpared(p0))
    ensures AllClear(p0) ==> Path(ws, sts, Join(p0), Join(p))
  {
    NothingOpen(p);
    if !AllSpared(p0) {
      NotSpared(p0, p);
    }
  }

  /** When nothing is open, nothing is pending either. */
  lemma {:induction false} NothingOpen(p: Part)
    requires Sane(p) && p.queues == map[] && forall k :: k in p.rest.works ==> k.session != p.id
    ensures p.mine == map[] && p.cursors == {} && Lively(Join(p), p.id) == Join(p)
  {
    assert IsSane(p);
    forall k | k in p.mine ensures false {
      PendingOpen(p, k);
    }
  }

  lemma {:induction false} SaneListed(p: Part, cursors: set<(nat, Handle)>)
    requires Sane(p) && forall c :: c in cursors ==> c.0 in p.queues
    ensures Sane(p.(cursors := cursors))
  {
    assert IsSane(p) && IsSane(p.(cursors := cursors));
  }
}
