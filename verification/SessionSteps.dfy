/**
 The steps by which a session settles its pending work, one key at a time, as the loops of
 TransactionManager.cpp take them: what each does to the world, and runs of them.
 */
module SessionSteps {
  import opened Bytes
  import opened QueueModel
  import opened QueueOps
  import opened Claims
  import opened Outlooks
  import opened Lifecycle
  import opened Prospects
  import opened Server
  import opened ServerRuns

  /** A piece of work is gone, and its queue is as given. */
  function Settled(w: World, q: nat, queue: Queue, k: WorkKey): World {
    w.(queues := w.queues[q := queue], works := w.works - {k})
  }

  lemma {:induction false} WorksWithout(w: World, q: nat, k: WorkKey)
    requires OnQueue(w.handles, k, q)
    ensures Elsewhere(w, q) + (ClaimsOf(w, q) - {k}) == w.works - {k}
  {
  }

  /** An act that ends a claim leaves the other works as they are. */
  lemma {:induction false} EndsClaim(w: World, q: nat, k: WorkKey, a: Act)
    requires WellFormed(w) && q in w.queues && OnQueue(w.handles, k, q) && k in w.works
    requires a == Show(k) || a == Drop(k) || a == Forget(k)
    ensures CanAct(w, q, a) && Acted(w, q, a) == Settled(w, q, Do(StateOf(w, q), a).queue, k)
  {
    WorksWithout(w, q, k);
  }

  /** The queue after one piece of work has ended. */
  function SettledQueue(q: Queue, w: Work, c: Command): Queue {
    match c
    case CommitOne => if w.kind.Enqueueing? then Unhide(q, w.cursor) else Discard(q, w.cursor)
    case RollbackOne => if w.kind.Enqueueing? then Discard(q, w.cursor) else Unhide(q, w.cursor)
    case Ack => Discard(q, w.cursor)
    case PutDone => Unhide(q, w.cursor)
    case _ => if w.kind.Enqueueing? then Discard(q, w.cursor) else if w.acknowledged then Unhide(q, w.cursor) else q
  }

  /** The command ends a claim: outside a transaction, finishing an enqueue and acknowledging a retrieve do so too. */
  predicate Ends(w: World, k: WorkKey, c: Command) {
    c.CommitOne? || c.RollbackOne? || c.ShutdownOne? || ((c.PutDone? || c.Ack?) && k.session !in w.inTx)
  }

  lemma {:induction false} SettleIsAct(w: World, k: WorkKey, c: Command, q: nat)
    requires WellFormed(w) && Bookkeeping(w) && Ends(w, k, c) && Ready(w, k, c) && OnQueue(w.handles, k, q)
    requires q in w.queues
    ensures CanAct(w, q, ActOf(w, k, c)) && Clean(StateOf(w, q), ActOf(w, k, c))
    ensures Acted(w, q, ActOf(w, k, c)) == Settled(w, q, SettledQueue(w.queues[q], w.works[k], c), k)
  {
    EndsClaim(w, q, k, ActOf(w, k, c));
  }

  lemma {:induction false} SettleStep(w: World, k: WorkKey, c: Command, q: nat)
    requires WorldInv(w) && Ends(w, k, c) && Ready(w, k, c) && OnQueue(w.handles, k, q) && q in w.queues
    ensures var w' := Settled(w, q, SettledQueue(w.queues[q], w.works[k], c), k);
      Steps(w, OnWork(k, c), w') && CleanStep(w, OnWork(k, c)) && WorldInv(w')
  {
    WorldInvIsWellFormed(w);
    SettleIsAct(w, k, c, q);
    WorkInv(w, q, k, c);
  }

  // ---------- runs of such steps ----------

  predicate SettlesFor(st: Step, session: nat, c: Command) {
    st.OnWork? && st.key.session == session && st.command == c
  }

  /** A run in which one session settles work, and how it got from one world to the other. */
  ghost predicate SettleRun(ws: seq<World>, sts: seq<Step>, session: nat, c: Command, first: World, last: World) {
    && Run(ws, sts) && CleanRun(ws, sts)
    && ws[0] == first && ws[|sts|] == last
    && (forall i :: 0 <= i < |sts| ==> SettlesFor(sts[i], session, c))
  }

  lemma {:induction false} RunSnoc(ws: seq<World>, sts: seq<Step>, st: Step, w': World)
    requires Run(ws, sts) && CleanRun(ws, sts) && Steps(ws[|sts|], st, w') && CleanStep(ws[|sts|], st)
    ensures Run(ws + [w'], sts + [st]) && CleanRun(ws + [w'], sts + [st])
  {
    var ws', sts', n := ws + [w'], sts + [st], |sts|;
    forall i, j | 0 <= i <= n && j == i + 1 ensures Steps(ws'[i], sts'[i], ws'[j]) && CleanStep(ws'[i], sts'[i]) {
      if i < n {
        assert ws'[i] == ws[i] && sts'[i] == sts[i] && ws'[j] == ws[j];
        assert Steps(ws[i], sts[i], ws[j]);
      }
    }
  }

  lemma {:induction false} SettleSnoc(ws: seq<World>, sts: seq<Step>, session: nat, c: Command, first: World, w: World,
          st: Step, w': World)
    requires SettleRun(ws, sts, session, c, first, w) && SettlesFor(st, session, c)
    requires Steps(w, st, w') && CleanStep(w, st)
    ensures SettleRun(ws + [w'], sts + [st], session, c, first, w')
  {
    RunSnoc(ws, sts, st, w');
  }

  /** One clean step; folded like Sane below. */
  ghost predicate Moves(w: World, st: Step, w': World) {
    forall v {:trigger Steps(v, st, w')} :: v == w ==> Steps(v, st, w') && CleanStep(v, st)
  }

  // ---------- one session's part of the world ----------

  /** What one session has, the server's queues, and what the other sessions have. */
  datatype Part = Part(
    id: nat,
    inTx: bool,
    mine: Claims,
    queues: map<nat, nat>,
    cursors: set<(nat, Handle)>,
    storage: map<nat, Queue>,
    rest: World)

  function Handles(id: nat, queues: map<nat, nat>): map<(nat, nat), nat> {
    map h | h in queues :: (id, h) := queues[h]
  }

  function Join(p: Part): World {
    World(
      p.storage,
      p.rest.handles + Handles(p.id, p.queues),
      if p.inTx then p.rest.inTx + {p.id} else p.rest.inTx - {p.id},
      p.rest.works + p.mine)
  }

  /** The session's transactions are its own; `rest` may hold what its running command has not registered. */
  ghost predicate Apart(p: Part) {
    && (forall k :: k in p.mine ==> k.session == p.id && p.mine[k].sent && k !in p.rest.works)
    && (forall k :: k in p.rest.works && k.session == p.id ==> !p.rest.works[k].sent)
    && (forall o :: o in p.rest.handles ==> o.0 != p.id)
  }

  /** The session's record is in order, whatever has become of the handles it names. */
  ghost predicate IsSane(p: Part) {
    && Apart(p) && Bookkeeping(Join(p))
    && (forall k :: k in p.mine ==> |k.message| == UUID_SIZE)
    && (forall c :: c in p.cursors ==> c.0 in p.queues)
  }

  /** The same; the quantifier only keeps the definition folded where it is not needed. */
  ghost predicate Sane(p: Part) {
    forall r {:trigger IsSane(r)} :: r == p ==> IsSane(r)
  }

  ghost predicate IsFit(p: Part) {
    Sane(p) && WorldInv(Join(p))
  }

  /** The session's record is in order, and all pending work is sound; folded as above. */
  ghost predicate Fit(p: Part) {
    forall r {:trigger IsFit(r)} :: r == p ==> IsFit(r)
  }

  /** A session that has nothing adds nothing to the world. */
  lemma {:induction false} FirstSane(p: Part)
    requires WorldInv(p.rest) && p.rest.queues == p.storage && !p.inTx && p.id !in p.rest.inTx
    requires (forall k :: k in p.rest.works ==> k.session != p.id) && (forall o :: o in p.rest.handles ==> o.0 != p.id)
    requires p.mine == map[] && p.queues == map[] && p.cursors == {}
    ensures Join(p) == p.rest && Fit(p)
  {
    assert Handles(p.id, p.queues) == map[];
    assert p.rest.handles + map[] == p.rest.handles && p.rest.works + map[] == p.rest.works;
    assert p.rest.inTx - {p.id} == p.rest.inTx;
    assert IsSane(p) && IsFit(p);
  }

  lemma {:induction false} HandleOpen(p: Part, h: nat)
    requires Apart(p)
    ensures var handles := Join(p).handles;
      ((p.id, h) in handles <==> h in p.queues) && (h in p.queues ==> handles[(p.id, h)] == p.queues[h])
  {
    assert h in p.queues ==> (p.id, h) in Handles(p.id, p.queues);
  }

  /** Pending work always finds its queue. */
  lemma {:induction false} PendingOpen(p: Part, k: WorkKey)
    requires Sane(p) && k in p.mine
    ensures k.queue in p.queues && p.queues[k.queue] in p.storage
    ensures OnQueue(Join(p).handles, k, p.queues[k.queue]) && Join(p).works[k] == p.mine[k] && p.mine[k].sent
  {
    assert IsSane(p) && Booked(Join(p), k);
    HandleOpen(p, k.queue);
  }

  // ---------- settling one piece of work ----------

  lemma {:induction false} DropRight(a: Claims, b: Claims, k: WorkKey)
    requires k !in a
    ensures a + (b - {k}) == (a + b) - {k}
  {
  }

  lemma {:induction false} DropLeft(a: Claims, b: Claims, k: WorkKey)
    requires k !in b
    ensures (a - {k}) + b == (a + b) - {k}
  {
  }

  lemma {:induction false} PutRight(a: Claims, b: Claims, k: WorkKey, v: Work)
    ensures a + b[k := v] == (a + b)[k := v] == (a - {k}) + b[k := v]
  {
  }

  function SettledPart(p: Part, k: WorkKey, c: Command): Part
    requires k in p.mine && k.queue in p.queues && p.queues[k.queue] in p.storage
  {
    var q := p.queues[k.queue];
    p.(mine := p.mine - {k}, storage := p.storage[q := SettledQueue(p.storage[q], p.mine[k], c)])
  }

  /** Work that goes away takes no record with it that others need. */
  lemma {:induction false} BooksWithout(w: World, q: nat, queue: Queue, k: WorkKey)
    requires Bookkeeping(w) && q in w.queues
    ensures Bookkeeping(Settled(w, q, queue, k))
  {
    forall l ensures Booked(Settled(w, q, queue, k), l) {
      assert Booked(w, l);
    }
  }

  lemma {:induction false} JoinWithout(p: Part, k: WorkKey, c: Command)
    requires Apart(p) && k in p.mine && k.queue in p.queues && p.queues[k.queue] in p.storage
    ensures var q := p.queues[k.queue];
      Join(SettledPart(p, k, c)) == Settled(Join(p), q, SettledQueue(p.storage[q], p.mine[k], c), k)
  {
    DropRight(p.rest.works, p.mine, k);
  }

  lemma {:induction false} SaneWithout(p: Part, k: WorkKey, c: Command)
    requires Sane(p) && k in p.mine && k.queue in p.queues && p.queues[k.queue] in p.storage
    ensures Sane(SettledPart(p, k, c))
  {
    assert IsSane(p);
    JoinWithout(p, k, c);
    BooksWithout(Join(p), p.queues[k.queue], SettledQueue(p.storage[p.queues[k.queue]], p.mine[k], c), k);
    assert IsSane(SettledPart(p, k, c));
  }

  lemma {:induction false} SettleJoin(p: Part, k: WorkKey, c: Command)
    requires Fit(p) && k in p.mine
    requires
      || c == ShutdownOne || (c == Ack && !p.inTx)
      || ((c == CommitOne || c == RollbackOne) && p.inTx && Settles(p.mine[k]))
    ensures k.queue in p.queues && p.queues[k.queue] in p.storage
    ensures var p' := SettledPart(p, k, c);
      Moves(Join(p), OnWork(k, c), Join(p')) && Fit(p')
  {
    assert IsFit(p);
    PendingOpen(p, k);
    assert IsSane(p);
    SettleStep(Join(p), k, c, p.queues[k.queue]);
    JoinWithout(p, k, c);
    SaneWithout(p, k, c);
  }

  function Unsettled(works: Claims): Claims {
    map k | k in works && !Settles(works[k]) :: works[k]
  }

  /** What a commit or rollback loop has still to look at, and what stays. */
  ghost function Remaining(works: Claims, todo: set<WorkKey>): Claims {
    map k | k in works && (k in todo || !Settles(works[k])) :: works[k]
  }

  lemma {:induction false} RemainingNext(works: Claims, todo: set<WorkKey>, k: WorkKey)
    requires k in works && k in todo
    ensures k in Remaining(works, todo)
    ensures Remaining(works, todo - {k}) == if Settles(works[k]) then Remaining(works, todo) - {k}
      else Remaining(works, todo)
  {
  }

  lemma {:induction false} RemainingNone(works: Claims)
    ensures Remaining(works, {}) == Unsettled(works)
  {
  }

  /** A commit or rollback loop under way: what is left, and the run so far. */
  ghost predicate Settling(c: Command, p0: Part, p: Part, todo: set<WorkKey>, ws: seq<World>, sts: seq<Step>) {
    && Fit(p) && p.id == p0.id && p.inTx && (c == CommitOne || c == RollbackOne)
    && p.mine == Remaining(p0.mine, todo) && SettleRun(ws, sts, p0.id, c, Join(p0), Join(p))
  }

  lemma {:induction false} SettlingStart(c: Command, p: Part)
    requires Fit(p) && p.inTx && (c == CommitOne || c == RollbackOne)
    ensures Settling(c, p, p, p.mine.Keys, [Join(p)], [])
  {
  }

  /** One turn of the loop. */
  lemma {:induction false} SettlingNext(c: Command, p0: Part, p: Part, todo: set<WorkKey>, ws: seq<World>,
          sts: seq<Step>, k: WorkKey)
    returns (ws': seq<World>, sts': seq<Step>)
    requires Settling(c, p0, p, todo, ws, sts) && k in todo && k in p0.mine
    ensures k in p.mine && p.mine[k].sent && k.queue in p.queues && p.queues[k.queue] in p.storage
    ensures Settling(c, p0, if Settles(p.mine[k]) then SettledPart(p, k, c) else p, todo - {k}, ws', sts')
  {
    RemainingNext(p0.mine, todo, k);
    assert IsFit(p) && IsSane(p);
    PendingOpen(p, k);
    ws', sts' := ws, sts;
    if Settles(p0.mine[k]) {
      SettleJoin(p, k, c);
      var w' := Join(SettledPart(p, k, c));
      SettleSnoc(ws, sts, p0.id, c, Join(p0), Join(p), OnWork(k, c), w');
      ws', sts' := ws + [w'], sts + [OnWork(k, c)];
    }
  }

  /** An enqueue outside a transaction is final at once. */
  function FinishedPart(p: Part, k: WorkKey): Part
    requires k in p.rest.works && k.queue in p.queues && p.queues[k.queue] in p.storage
  {
    var q := p.queues[k.queue];
    p.(storage := p.storage[q := Unhide(p.storage[q], p.rest.works[k].cursor)],
       rest := p.rest.(works := p.rest.works - {k}))
  }

  lemma {:induction false} RunningOpen(p: Part, k: WorkKey)
    requires Sane(p) && k.session == p.id && k in p.rest.works
    ensures k.queue in p.queues && p.queues[k.queue] in p.storage
    ensures OnQueue(Join(p).handles, k, p.queues[k.queue]) && Join(p).works[k] == p.rest.works[k]
    ensures !p.rest.works[k].sent && !p.rest.works[k].acknowledged
  {
    assert IsSane(p) && Booked(Join(p), k);
    HandleOpen(p, k.queue);
  }

  lemma {:induction false} JoinFinish(p: Part, k: WorkKey)
    requires Apart(p) && k in p.rest.works && k.queue in p.queues && p.queues[k.queue] in p.storage
    ensures var q := p.queues[k.queue];
      Join(FinishedPart(p, k)) == Settled(Join(p), q, Unhide(p.storage[q], p.rest.works[k].cursor), k)
  {
    DropLeft(p.rest.works, p.mine, k);
  }

  lemma {:induction false} SaneFinish(p: Part, k: WorkKey)
    requires Sane(p) && k in p.rest.works && k.queue in p.queues && p.queues[k.queue] in p.storage
    ensures Sane(FinishedPart(p, k))
  {
    assert IsSane(p);
    JoinFinish(p, k);
    BooksWithout(Join(p), p.queues[k.queue], Unhide(p.storage[p.queues[k.queue]], p.rest.works[k].cursor), k);
    assert IsSane(FinishedPart(p, k));
  }

  lemma {:induction false} PutJoin(p: Part, k: WorkKey)
    requires Fit(p) && !p.inTx && k.session == p.id && k in p.rest.works && p.rest.works[k].kind == Enqueueing
    ensures k.queue in p.queues && p.queues[k.queue] in p.storage
    ensures var p' := FinishedPart(p, k);
      Moves(Join(p), OnWork(k, PutDone), Join(p')) && Fit(p')
  {
    assert IsFit(p);
    RunningOpen(p, k);
    SettleStep(Join(p), k, PutDone, p.queues[k.queue]);
    assert IsSane(p);
    JoinFinish(p, k);
    SaneFinish(p, k);
  }

  // ---------- recording what is pending ----------

  /** What registers or acknowledges a claim leaves its queue as it is. */
  lemma {:induction false} RecordStep(w: World, k: WorkKey, c: Command, q: nat)
    requires WorldInv(w) && Ready(w, k, c) && OnQueue(w.handles, k, q) && q in w.queues
    requires c.GetDone? || ((c.PutDone? || c.Ack?) && k.session in w.inTx)
    ensures var v := if c.Ack? then w.works[k].(acknowledged := true) else w.works[k].(sent := true);
      var w' := w.(works := w.works[k := v]);
      Steps(w, OnWork(k, c), w') && CleanStep(w, OnWork(k, c)) && WorldInv(w')
  {
    WorldInvIsWellFormed(w);
    RecordIsAct(w, k, c, q);
    WorkInv(w, q, k, c);
  }

  lemma {:induction false} RecordIsAct(w: World, k: WorkKey, c: Command, q: nat)
    requires WellFormed(w) && Ready(w, k, c) && OnQueue(w.handles, k, q) && q in w.queues
    requires c.GetDone? || ((c.PutDone? || c.Ack?) && k.session in w.inTx)
    ensures CanAct(w, q, ActOf(w, k, c)) && Clean(StateOf(w, q), ActOf(w, k, c))
    ensures var v := if c.Ack? then w.works[k].(acknowledged := true) else w.works[k].(sent := true);
      Acted(w, q, ActOf(w, k, c)) == w.(works := w.works[k := v])
  {
    var v := if c.Ack? then w.works[k].(acknowledged := true) else w.works[k].(sent := true);
    assert Elsewhere(w, q) + ClaimsOf(w, q)[k := v] == w.works[k := v];
    assert w.queues[q := w.queues[q]] == w.queues;
  }

  /** A running command hands its claim over to the session's transactions. */
  function RegisteredPart(p: Part, k: WorkKey, v: Work): Part {
    p.(mine := p.mine[k := v], rest := p.rest.(works := p.rest.works - {k}))
  }

  lemma {:induction false} JoinRegister(p: Part, k: WorkKey, v: Work)
    ensures Join(RegisteredPart(p, k, v)) == Join(p).(works := Join(p).works[k := v])
  {
    PutRight(p.rest.works, p.mine, k, v);
  }

  lemma {:induction false} ApartRegister(p: Part, k: WorkKey, v: Work)
    requires Apart(p) && k.session == p.id && v.sent
    ensures Apart(RegisteredPart(p, k, v))
  {
  }

  lemma {:induction false} SaneRegister(p: Part, k: WorkKey, v: Work)
    requires Sane(p) && k.session == p.id && |k.message| == UUID_SIZE && v.sent
    requires Bookkeeping(Join(RegisteredPart(p, k, v)))
    ensures Sane(RegisteredPart(p, k, v))
  {
    assert IsSane(p);
    ApartRegister(p, k, v);
    assert IsSane(RegisteredPart(p, k, v));
  }

  lemma {:induction false} RegisterJoin(p: Part, k: WorkKey, c: Command)
    requires Fit(p) && k.session == p.id && k in p.rest.works && |k.message| == UUID_SIZE
    requires p.rest.works[k].kind == (if c.GetDone? then Retrieving else Enqueueing)
    requires c.GetDone? || (c.PutDone? && p.inTx)
    ensures var p' := RegisteredPart(p, k, Work(p.rest.works[k].cursor, p.rest.works[k].kind, false, true));
      Moves(Join(p), OnWork(k, c), Join(p')) && Fit(p')
  {
    assert IsFit(p);
    RunningOpen(p, k);
    RecordStep(Join(p), k, c, p.queues[k.queue]);
    JoinRegister(p, k, p.rest.works[k].(sent := true));
    SaneRegister(p, k, p.rest.works[k].(sent := true));
  }

  lemma {:induction false} JoinRecord(p: Part, k: WorkKey, v: Work)
    ensures Join(p.(mine := p.mine[k := v])) == Join(p).(works := Join(p).works[k := v])
  {
    PutRight(p.rest.works, p.mine, k, v);
  }

  lemma {:induction false} SaneRecord(p: Part, k: WorkKey, v: Work)
    requires Sane(p) && k in p.mine && v.sent && Bookkeeping(Join(p.(mine := p.mine[k := v])))
    ensures Sane(p.(mine := p.mine[k := v]))
  {
    assert IsSane(p) && IsSane(p.(mine := p.mine[k := v]));
  }

  lemma {:induction false} AckJoin(p: Part, k: WorkKey)
    requires Fit(p) && p.inTx && k in p.mine
    ensures var p' := p.(mine := p.mine[k := p.mine[k].(acknowledged := true)]);
      Moves(Join(p), OnWork(k, Ack), Join(p')) && Fit(p')
  {
    assert IsFit(p);
    PendingOpen(p, k);
    assert IsSane(p);
    RecordStep(Join(p), k, Ack, p.queues[k.queue]);
    JoinRecord(p, k, p.mine[k].(acknowledged := true));
    SaneRecord(p, k, p.mine[k].(acknowledged := true));
  }

  // ---------- transactions and queues ----------

  lemma {:induction false} BeginJoin(p: Part)
    requires Fit(p) && !p.inTx
    ensures var p' := p.(inTx := true);
      Moves(Join(p), BeginTransaction(p.id), Join(p')) && Fit(p')
  {
    assert IsFit(p);
    assert IsSane(p);
    WorldInvIsWellFormed(Join(p));
    assert Join(p).inTx + {p.id} == Join(p.(inTx := true)).inTx;
    StepExact(Join(p), BeginTransaction(p.id));
  }

  lemma {:induction false} EndJoin(p: Part)
    requires Fit(p) && p.inTx && forall k :: k in p.mine ==> !Settles(p.mine[k])
    ensures var p' := p.(inTx := false);
      Moves(Join(p), EndTransaction(p.id), Join(p')) && Fit(p')
  {
    assert IsFit(p);
    assert IsSane(p);
    WorldInvIsWellFormed(Join(p));
    assert Join(p).inTx - {p.id} == Join(p.(inTx := false)).inTx;
    StepExact(Join(p), EndTransaction(p.id));
  }

  lemma {:induction false} HandlesMerge(a: map<(nat, nat), nat>, b: map<(nat, nat), nat>, o: (nat, nat), q: nat)
    ensures a + b[o := q] == (a + b)[o := q]
    ensures o !in a ==> a + (b - {o}) == (a + b) - {o}
  {
  }

  lemma {:induction false} HandlesAdd(id: nat, queues: map<nat, nat>, h: nat, q: nat)
    ensures Handles(id, queues[h := q]) == Handles(id, queues)[(id, h) := q]
  {
    assert forall g :: g in queues[h := q] ==> (id, g) in Handles(id, queues[h := q]);
  }

  lemma {:induction false} HandlesDrop(id: nat, queues: map<nat, nat>, h: nat)
    ensures Handles(id, queues - {h}) == Handles(id, queues) - {(id, h)}
  {
  }

  lemma {:induction false} JoinOpened(p: Part, h: nat, q: nat)
    ensures Join(p.(queues := p.queues[h := q])) == Join(p).(handles := Join(p).handles[(p.id, h) := q])
  {
    HandlesAdd(p.id, p.queues, h, q);
    HandlesMerge(p.rest.handles, Handles(p.id, p.queues), (p.id, h), q);
  }

  lemma {:induction false} SaneOpened(p: Part, h: nat, q: nat)
    requires Sane(p) && Bookkeeping(Join(p.(queues := p.queues[h := q])))
    ensures Sane(p.(queues := p.queues[h := q]))
  {
    assert IsSane(p) && IsSane(p.(queues := p.queues[h := q]));
  }

  lemma {:induction false} OpenJoin(p: Part, h: nat, q: nat)
    requires Fit(p) && h !in p.queues && q in p.storage
    ensures var p' := p.(queues := p.queues[h := q]);
      Moves(Join(p), OpenQueue(p.id, h, q), Join(p')) && Fit(p')
  {
    assert IsFit(p);
    assert (p.id, h) !in Join(p).handles by {
      assert IsSane(p);
      HandleOpen(p, h);
    }
    JoinOpened(p, h, q);
    OpenStep(Join(p), p.id, h, q);
    SaneOpened(p, h, q);
  }

  lemma {:induction false} OpenStep(w: World, s: nat, h: nat, q: nat)
    requires WorldInv(w) && (s, h) !in w.handles && q in w.queues
    ensures var w' := w.(handles := w.handles[(s, h) := q]);
      Moves(w, OpenQueue(s, h, q), w') && WorldInv(w')
  {
    WorldInvIsWellFormed(w);
    OpenQueueInv(w, s, h, q);
    assert Steps(w, OpenQueue(s, h, q), w.(handles := w.handles[(s, h) := q]));
  }

  // ---------- keys in order ----------

  /** memcmp order on uuids of equal length. */
  predicate BytesLess(a: bytes, b: bytes) {
    if a == [] || b == [] then a == [] && b != []
    else a[0] < b[0] || (a[0] == b[0] && BytesLess(a[1..], b[1..]))
  }

  predicate KeyLess(a: WorkKey, b: WorkKey) {
    a.queue < b.queue || (a.queue == b.queue && BytesLess(a.message, b.message))
  }

  function Zeros(n: nat): bytes {
    if n == 0 then [] else [0] + Zeros(n - 1)
  }

  const UUID_SIZE := 16

  function UuidNull(): bytes {
    Zeros(UUID_SIZE)
  }

  /** UUID_NULL is the least uuid, so a lower bound from it finds every key of a handle. */
  lemma {:induction false} NullLeast(m: bytes, n: nat)
    requires |m| == n
    ensures |Zeros(n)| == n && !BytesLess(m, Zeros(n))
  {
    if n > 0 {
      assert Zeros(n)[1..] == Zeros(n - 1);
      NullLeast(m[1..], n - 1);
    }
  }

  lemma {:induction false} BytesLessTransitive(a: bytes, b: bytes, c: bytes)
    requires BytesLess(a, b) && BytesLess(b, c)
    ensures BytesLess(a, c)
  {
    if a != [] && a[0] == b[0] == c[0] {
      BytesLessTransitive(a[1..], b[1..], c[1..]);
    }
  }

  lemma {:induction false} KeyLessTransitive(a: WorkKey, b: WorkKey, c: WorkKey)
    requires KeyLess(a, b) && KeyLess(b, c)
    ensures KeyLess(a, c)
  {
    if a.queue == b.queue == c.queue {
      BytesLessTransitive(a.message, b.message, c.message);
    }
  }

  datatype Bound = NoKey | Least(key: WorkKey)

  /** What std::map's lower_bound finds among the keys. */
  ghost predicate IsLowerBound(keys: set<WorkKey>, from: WorkKey, b: Bound) {
    match b
    case NoKey => forall k :: k in keys ==> KeyLess(k, from)
    case Least(l) => l in keys && !KeyLess(l, from) && forall k :: k in keys && !KeyLess(k, from) ==> !KeyLess(k, l)
  }

  lemma {:induction false} LowerBoundNext(keys: set<WorkKey>, from: WorkKey, b: Bound, k: WorkKey)
    requires IsLowerBound(keys, from, b)
    ensures IsLowerBound(keys + {k}, from, if !KeyLess(k, from) && (b.NoKey? || KeyLess(k, b.key)) then Least(k) else b)
  {
    if b.Least? && KeyLess(k, b.key) {
      forall l | l in keys && !KeyLess(l, from) ensures !KeyLess(l, k) {
        if KeyLess(l, k) {
          KeyLessTransitive(l, k, b.key);
        }
      }
    }
    if !KeyLess(k, from) && (b.NoKey? || KeyLess(k, b.key)) {
      Irreflexive(k);
    }
  }

  lemma {:induction false} Irreflexive(k: WorkKey)
    ensures !KeyLess(k, k)
  {
    NotLessSelf(k.message);
  }

  lemma {:induction false} NotLessSelf(m: bytes)
    ensures !BytesLess(m, m)
  {
    if m != [] {
      NotLessSelf(m[1..]);
    }
  }

  /** When the lower bound is not of the handle, no key is: UUID_NULL hides none. */
  lemma {:induction false} NoneOfHandle(keys: set<WorkKey>, id: nat, h: nat, b: Bound)
    requires IsLowerBound(keys, WorkKey(id, h, UuidNull()), b) && (b.NoKey? || b.key.queue != h)
    requires forall k :: k in keys ==> |k.message| == UUID_SIZE
    ensures forall k :: k in keys ==> k.queue != h
  {
    forall k | k in keys && k.queue == h ensures false {
      NullLeast(k.message, UUID_SIZE);
    }
  }

  // ---------- clean runs from one world to another ----------

  ghost predicate Path(ws: seq<World>, sts: seq<Step>, first: World, last: World) {
    Run(ws, sts) && CleanRun(ws, sts) && ws[0] == first && ws[|sts|] == last
  }

  lemma {:induction false} PathSnoc(ws: seq<World>, sts: seq<Step>, first: World, w: World, st: Step, w': World)
    requires Path(ws, sts, first, w) && Steps(w, st, w') && CleanStep(w, st)
    ensures Path(ws + [w'], sts + [st], first, w')
  {
    RunSnoc(ws, sts, st, w');
  }

  lemma {:induction false} PathConcat(ws: seq<World>, sts: seq<Step>, ws': seq<World>, sts': seq<Step>, a: World,
          b: World, c: World)
    requires Path(ws, sts, a, b) && Path(ws', sts', b, c)
    ensures Path(ws[..|sts|] + ws', sts + sts', a, c)
  {
    var xs, ts, n := ws[..|sts|] + ws', sts + sts', |sts|;
    forall i, j | 0 <= i < |ts| && j == i + 1 ensures Steps(xs[i], ts[i], xs[j]) && CleanStep(xs[i], ts[i]) {
      if i < n {
        assert xs[i] == ws[i] && ts[i] == sts[i] && xs[j] == ws[j];
        assert Steps(ws[i], sts[i], ws[j]);
      } else {
        assert xs[i] == ws'[i - n] && ts[i] == sts'[i - n] && xs[j] == ws'[j - n];
        assert Steps(ws'[i - n], sts'[i - n], ws'[j - n]);
      }
    }
  }
}
