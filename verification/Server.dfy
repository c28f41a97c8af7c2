/**
 The whole server as a state machine: every session, every queue, and each step that runs
 under one lock (MessageCmds.h, TransactionManager.cpp, ServiceThread.cpp), in any order.

 `works` is the union of the sessions' transaction maps and of what a running command still
 holds. A step on a queue is one act of Lifecycle; which act it is depends on the session.
 */
module Server {
  import opened Bytes
  import opened QueueModel
  import opened QueueOps
  import opened Claims
  import opened Outlooks
  import opened Lifecycle
  import opened Prospects

  datatype World = World(queues: map<nat, Queue>, handles: map<(nat, nat), nat>, inTx: set<nat>, works: Claims)

  /** The steps of a command, and of settling one piece of pending work. */
  datatype Command =
    | Put(item: QueueIndex)
    | PutDone
    | Get
    | GetID(id: bytes)
    | GetCursor(cursor: Handle)
    | GetCopied(cursor: Handle)
    | GetDone
    | GetFailed
    | Ack
    | CommitOne
    | RollbackOne
    | ShutdownOne

  datatype Step =
    | BeginTransaction(session: nat)
    | EndTransaction(session: nat)
    | OpenQueue(session: nat, handle: nat, queue: nat)
    | CloseQueue(session: nat, handle: nat)
    | OnWork(key: WorkKey, command: Command)
    | OnCursor(queue: nat, act: Act)
    | OnTimer(queue: nat, now: int)

  // ---------- claims by queue ----------

  predicate OnQueue(handles: map<(nat, nat), nat>, k: WorkKey, q: nat) {
    (k.session, k.queue) in handles && handles[(k.session, k.queue)] == q
  }

  function ClaimsOf(w: World, q: nat): Claims {
    map k | k in w.works && OnQueue(w.handles, k, q) :: w.works[k]
  }

  function Elsewhere(w: World, q: nat): Claims {
    map k | k in w.works && !OnQueue(w.handles, k, q) :: w.works[k]
  }

  function StateOf(w: World, q: nat): State
    requires q in w.queues
  {
    State(w.queues[q], ClaimsOf(w, q))
  }

  /** Work that a commit or a rollback settles: enqueues, and retrieves that were acknowledged. */
  predicate Settles(w: Work) {
    w.sent && (w.kind.Enqueueing? || w.acknowledged)
  }

  // ---------- the invariant ----------

  ghost predicate WorldInv(w: World) {
    && (forall q {:trigger QueueInv(w, q)} :: QueueInv(w, q))
    && Bookkeeping(w)
  }

  ghost predicate QueueInv(w: World, q: nat) {
    q in w.queues ==> Inv(StateOf(w, q))
  }

  /** Pending work belongs to an open queue; outside a transaction it is retrieves to be acknowledged. */
  ghost predicate Bookkeeping(w: World) {
    && (forall p :: p in w.handles ==> w.handles[p] in w.queues)
    && (forall k {:trigger Booked(w, k)} :: Booked(w, k))
  }

  ghost predicate Booked(w: World, k: WorkKey) {
    k in w.works ==>
      && (k.session, k.queue) in w.handles
      && (k.session !in w.inTx ==> !Settles(w.works[k]))
      && (w.works[k].acknowledged ==> w.works[k].sent)
  }

  // ---------- steps ----------

  predicate CursorAct(a: Act) {
    a.Open? || a.Close? || a.Advance? || a.Copy? || a.Seek?
  }

  /** The key has work of this kind that its command has not registered yet. */
  predicate Running(w: World, k: WorkKey, kind: Kind) {
    k in w.works && !w.works[k].sent && w.works[k].kind == kind
  }

  /** When the code takes a step that concerns a key. */
  predicate Ready(w: World, k: WorkKey, c: Command) {
    match c
    case PutDone => Running(w, k, Enqueueing)
    case GetCopied(_) => Running(w, k, Retrieving)
    case GetDone => Running(w, k, Retrieving)
    case GetFailed => Running(w, k, Retrieving)
    case Ack => k in w.works && w.works[k].sent
    case CommitOne => k in w.works && Settles(w.works[k]) && k.session in w.inTx
    case RollbackOne => k in w.works && Settles(w.works[k]) && k.session in w.inTx
    case ShutdownOne => k in w.works && w.works[k].sent
    case _ => true
  }

  /** What it does to its queue. Whether a copy is refused depends on the queue. */
  function ActOf(w: World, k: WorkKey, c: Command): Act
    requires Ready(w, k, c)
  {
    match c
    case Put(item) => Add(k, item)
    case PutDone => if k.session in w.inTx then Register(k) else Show(k)
    case Get => Take(k)
    case GetID(id) => TakeID(k, id)
    case GetCursor(h) => TakeCursor(k, h)
    case GetCopied(h) => Rebind(k, h)
    case GetDone => Register(k)
    case GetFailed => Show(k)
    case Ack => if k.session in w.inTx then Acknowledge(k) else Drop(k)
    case CommitOne => if w.works[k].kind.Enqueueing? then Show(k) else Drop(k)
    case RollbackOne => if w.works[k].kind.Enqueueing? then Drop(k) else Show(k)
    case ShutdownOne =>
      if w.works[k].kind.Enqueueing? then Drop(k) else if w.works[k].acknowledged then Show(k) else Forget(k)
  }

  ghost predicate WellFormed(w: World) {
    forall q :: q in w.queues ==> Wf(w.queues[q])
  }

  ghost predicate CanAct(w: World, q: nat, a: Act)
    requires WellFormed(w)
  {
    q in w.queues && Legal(StateOf(w, q), a)
  }

  ghost predicate Enabled(w: World, st: Step)
    requires WellFormed(w)
  {
    match st
    case BeginTransaction(s) => s !in w.inTx
    case EndTransaction(s) => s in w.inTx && forall k :: k in w.works && k.session == s ==> !Settles(w.works[k])
    case OpenQueue(s, h, q) => (s, h) !in w.handles && q in w.queues
    case CloseQueue(s, h) => (s, h) in w.handles && forall k :: k in w.works ==> k.session != s || k.queue != h
    case OnWork(k, c) =>
      (k.session, k.queue) in w.handles && Ready(w, k, c) && CanAct(w, w.handles[(k.session, k.queue)], ActOf(w, k, c))
    case OnCursor(q, a) => CursorAct(a) && CanAct(w, q, a)
    case OnTimer(q, now) => CanAct(w, q, Expire(now))
  }

  function WithState(w: World, q: nat, s: State): World {
    w.(queues := w.queues[q := s.queue], works := Elsewhere(w, q) + s.claims)
  }

  ghost function Acted(w: World, q: nat, a: Act): World
    requires WellFormed(w) && CanAct(w, q, a)
  {
    WithState(w, q, Do(StateOf(w, q), a))
  }

  ghost function After(w: World, st: Step): World
    requires WellFormed(w) && Enabled(w, st)
  {
    match st
    case BeginTransaction(s) => w.(inTx := w.inTx + {s})
    case EndTransaction(s) => w.(inTx := w.inTx - {s})
    case OpenQueue(s, h, q) => w.(handles := w.handles[(s, h) := q])
    case CloseQueue(s, h) => w.(handles := w.handles - {(s, h)})
    case OnWork(k, c) => Acted(w, w.handles[(k.session, k.queue)], ActOf(w, k, c))
    case OnCursor(q, a) => Acted(w, q, a)
    case OnTimer(q, now) => Acted(w, q, Expire(now))
  }

  // ---------- plumbing: an act concerns one queue ----------

  function KeysOf(a: Act): set<WorkKey> {
    match a
    case Add(k, _) => {k}
    case Take(k) => {k}
    case TakeID(k, _) => {k}
    case TakeCursor(k, _) => {k}
    case Rebind(k, _) => {k}
    case Register(k) => {k}
    case Acknowledge(k) => {k}
    case Show(k) => {k}
    case Drop(k) => {k}
    case Forget(k) => {k}
    case _ => {}
  }

  predicate KeysOn(w: World, a: Act, q: nat) {
    forall k :: k in KeysOf(a) ==> OnQueue(w.handles, k, q)
  }

  lemma {:induction false} CommandKeysOn(w: World, k: WorkKey, c: Command, q: nat)
    requires Ready(w, k, c) && OnQueue(w.handles, k, q)
    ensures KeysOf(ActOf(w, k, c)) == {k} && KeysOn(w, ActOf(w, k, c), q)
  {
  }

  lemma {:induction false} NoKeysOn(w: World, a: Act, q: nat)
    requires CursorAct(a) || a.Expire?
    ensures KeysOf(a) == {} && KeysOn(w, a, q)
  {
  }

  lemma {:induction false} DoKeys(s: State, a: Act)
    requires Wf(s.queue) && Legal(s, a)
    ensures Do(s, a).claims.Keys <= s.claims.Keys + KeysOf(a)
    ensures forall k :: k in s.claims && k !in KeysOf(a) ==> k in Do(s, a).claims && Do(s, a).claims[k] == s.claims[k]
  {
  }

  lemma {:induction false} WithStateSplits(w: World, q: nat, s: State)
    requires q in w.queues && forall k :: k in s.claims ==> OnQueue(w.handles, k, q)
    ensures var w' := WithState(w, q, s);
      && w'.handles == w.handles && w'.inTx == w.inTx && w'.queues.Keys == w.queues.Keys
      && StateOf(w', q) == s
      && (forall r :: r in w.queues && r != q ==> StateOf(w', r) == StateOf(w, r))
  {
    var w' := WithState(w, q, s);
    assert ClaimsOf(w', q) == s.claims;
    forall r | r in w.queues && r != q ensures StateOf(w', r) == StateOf(w, r) {
      assert ClaimsOf(w', r) == ClaimsOf(w, r);
    }
  }

  lemma {:induction false} ActedSplits(w: World, q: nat, a: Act)
    requires WellFormed(w) && CanAct(w, q, a) && KeysOn(w, a, q)
    ensures var w' := Acted(w, q, a);
      && w'.handles == w.handles && w'.inTx == w.inTx && w'.queues.Keys == w.queues.Keys
      && StateOf(w', q) == Do(StateOf(w, q), a)
      && (forall r :: r in w.queues && r != q ==> StateOf(w', r) == StateOf(w, r))
  {
    DoKeys(StateOf(w, q), a);
    WithStateSplits(w, q, Do(StateOf(w, q), a));
  }
}
