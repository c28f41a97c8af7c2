/**
 What a commit does: every message that the session enqueued becomes visible where it
 stands, every message whose retrieve it acknowledged leaves the index, and nothing else
 changes in any queue.
 */
module Commits {
  import opened Bytes
  import opened QueueModel
  import opened QueueOps
  import opened Claims
  import opened Outlooks
  import opened Lifecycle
  import opened Prospects
  import opened Server
  import opened ServerRuns

  /** The session's enqueues, and its acknowledged retrieves. */
  ghost function Enqueued(claims: Claims, session: nat): set<WorkKey> {
    set k | k in claims && k.session == session && claims[k].sent && claims[k].kind.Enqueueing?
  }

  ghost function Acknowledged(claims: Claims, session: nat): set<WorkKey> {
    set k | k in claims && k.session == session && claims[k].sent && claims[k].acknowledged &&
      claims[k].kind.Retrieving?
  }

  /** What the queue will show after the commit, and the entries it will keep. */
  ghost function Committed(s: State, session: nat): seq<QueueIndex> {
    Outlook(s.queue, s.claims, Enqueued(s.claims, session))
  }

  ghost function Retrieved(s: State, session: nat): set<nat> {
    Targets(s.queue, s.claims, Acknowledged(s.claims, session))
  }

  ghost function Kept(s: State, session: nat): set<nat> {
    Nodes(s.queue.entries) - Retrieved(s, session)
  }

  lemma {:induction false} CommitEnqueue(s: State, k: WorkKey)
    requires Inv(s) && k in s.claims && Settles(s.claims[k]) && s.claims[k].kind.Enqueueing?
    ensures var s' := State(Unhide(s.queue, s.claims[k].cursor), s.claims - {k});
      Committed(s', k.session) == Committed(s, k.session) && Kept(s', k.session) == Kept(s, k.session)
  {
    var shown := Enqueued(s.claims, k.session);
    UnhideOutlook(s.queue, s.claims, shown, k);
    assert Enqueued(s.claims - {k}, k.session) == shown - {k};
    ShowKept(s, k);
  }

  lemma {:induction false} ShowTargets(q: Queue, claims: Claims, some: set<WorkKey>, k: WorkKey)
    requires Sound(q, claims) && k in claims && k !in some
    ensures Targets(Unhide(q, claims[k].cursor), claims - {k}, some) == Targets(q, claims, some)
  {
    HandlesDiffer(q, claims);
    TargetsDrop(q, Unhide(q, claims[k].cursor), claims, some, k);
    TargetOf(q, claims, some, k);
    assert some - {k} == some;
  }

  lemma {:induction false} RemoveTargets(q: Queue, claims: Claims, some: set<WorkKey>, k: WorkKey)
    requires Sound(q, claims) && k in claims && k in some
    ensures var n, q' := NodeOf(q, claims[k]), Discard(q, claims[k].cursor);
      Nodes(q'.entries) - Targets(q', claims - {k}, some - {k}) == Nodes(q.entries) - Targets(q, claims, some)
  {
    RemoveNodes(q.entries, NodeOf(q, claims[k]));
    DropTargets(q, claims, k);
    TargetsDrop(q, Discard(q, claims[k].cursor), claims, some, k);
    TargetOf(q, claims, some, k);
    BothLess(Nodes(q.entries), Targets(q, claims, some), NodeOf(q, claims[k]));
  }

  lemma {:induction false} BothLess(a: set<nat>, b: set<nat>, n: nat)
    requires n in b
    ensures (a - {n}) - (b - {n}) == a - b
  {
  }

  lemma {:induction false} ShowKept(s: State, k: WorkKey)
    requires Inv(s) && k in s.claims && Settles(s.claims[k]) && s.claims[k].kind.Enqueueing?
    ensures Kept(State(Unhide(s.queue, s.claims[k].cursor), s.claims - {k}), k.session) == Kept(s, k.session)
  {
    NotAcknowledged(s.claims, k);
    SetPurgedNodes(s.queue.entries, NodeOf(s.queue, s.claims[k]), false);
    ShowTargets(s.queue, s.claims, Acknowledged(s.claims, k.session), k);
  }

  lemma {:induction false} NotAcknowledged(claims: Claims, k: WorkKey)
    requires k in claims && claims[k].kind.Enqueueing?
    ensures k !in Acknowledged(claims, k.session)
    ensures Acknowledged(claims - {k}, k.session) == Acknowledged(claims, k.session)
  {
  }

  lemma {:induction false} CommitRetrieve(s: State, k: WorkKey)
    requires Inv(s) && k in s.claims && Settles(s.claims[k]) && s.claims[k].kind.Retrieving?
    ensures var s' := State(Discard(s.queue, s.claims[k].cursor), s.claims - {k});
      Committed(s', k.session) == Committed(s, k.session) && Kept(s', k.session) == Kept(s, k.session)
  {
    var shown := Enqueued(s.claims, k.session);
    DiscardOutlook(s.queue, s.claims, shown, k);
    assert Enqueued(s.claims - {k}, k.session) == shown;
    DropKept(s, k);
  }

  lemma {:induction false} DropKept(s: State, k: WorkKey)
    requires Inv(s) && k in s.claims && Settles(s.claims[k]) && s.claims[k].kind.Retrieving?
    ensures Kept(State(Discard(s.queue, s.claims[k].cursor), s.claims - {k}), k.session) == Kept(s, k.session)
  {
    var done := Acknowledged(s.claims, k.session);
    RemoveTargets(s.queue, s.claims, done, k);
    assert Acknowledged(s.claims - {k}, k.session) == done - {k};
  }

  // ---------- runs of commit steps ----------

  predicate CommitStep(st: Step, session: nat) {
    st.OnWork? && st.command.CommitOne? && st.key.session == session
  }

  lemma {:induction false} CommitAct(w: World, q: nat, k: WorkKey, r: nat)
    requires WorldInv(w) && WellFormed(w) && Ready(w, k, CommitOne) && OnQueue(w.handles, k, q)
    requires CanAct(w, q, ActOf(w, k, CommitOne)) && r in w.queues
    ensures var w' := Acted(w, q, ActOf(w, k, CommitOne));
      && r in w'.queues
      && Committed(StateOf(w', r), k.session) == Committed(StateOf(w, r), k.session)
      && Kept(StateOf(w', r), k.session) == Kept(StateOf(w, r), k.session)
  {
    CommandKeysOn(w, k, CommitOne, q);
    ActedSplits(w, q, ActOf(w, k, CommitOne));
    if r == q {
      assert QueueInv(w, q);
      if w.works[k].kind.Enqueueing? {
        CommitEnqueue(StateOf(w, q), k);
      } else {
        CommitRetrieve(StateOf(w, q), k);
      }
    }
  }

  /** Nothing has changed of what the queue will show and keep. */
  ghost predicate SameCommit(w: World, w': World, session: nat, q: nat) {
    && q in w.queues && q in w'.queues
    && Committed(StateOf(w', q), session) == Committed(StateOf(w, q), session)
    && Kept(StateOf(w', q), session) == Kept(StateOf(w, q), session)
  }

  lemma {:induction false} CommitLast(ws: seq<World>, sts: seq<Step>, session: nat, q: nat)
    requires Run(ws, sts) && CleanRun(ws, sts) && WorldInv(ws[0]) && |sts| > 0 && q in ws[|sts| - 1].queues
    requires CommitStep(sts[|sts| - 1], session)
    ensures SameCommit(ws[|sts| - 1], ws[|sts|], session, q)
  {
    var n := |sts|;
    RunInit(ws, sts);
    LastInv(ws, sts);
    var k := sts[n - 1].key;
    CommitAct(ws[n - 1], ws[n - 1].handles[(k.session, k.queue)], k, q);
  }

  lemma {:induction false} CommitRun(ws: seq<World>, sts: seq<Step>, session: nat, q: nat)
    requires Run(ws, sts) && CleanRun(ws, sts) && WorldInv(ws[0]) && q in ws[0].queues
    requires forall i :: 0 <= i < |sts| ==> CommitStep(sts[i], session)
    ensures SameCommit(ws[0], ws[|sts|], session, q)
    decreases |sts|
  {
    var n := |sts|;
    if n > 0 {
      RunInit(ws, sts);
      CommitRun(ws[..n], sts[..n - 1], session, q);
      assert ws[..n][0] == ws[0] && ws[..n][n - 1] == ws[n - 1];
      CommitLast(ws, sts, session, q);
      SameCommitTransitive(ws[0], ws[n - 1], ws[n], session, q);
    }
  }

  lemma {:induction false} SameCommitTransitive(w: World, w1: World, w2: World, session: nat, q: nat)
    requires SameCommit(w, w1, session, q) && SameCommit(w1, w2, session, q)
    ensures SameCommit(w, w2, session, q)
  {
  }

  lemma {:induction false} NothingToCommit(w: World, session: nat, q: nat)
    requires q in w.queues && forall k :: k in w.works && k.session == session ==> !Settles(w.works[k])
    ensures Committed(StateOf(w, q), session) == Visible(w.queues[q])
    ensures Kept(StateOf(w, q), session) == Nodes(w.queues[q].entries)
  {
    var s := StateOf(w, q);
    assert Enqueued(s.claims, session) == {} == Acknowledged(s.claims, session);
    assert Targets(s.queue, s.claims, {}) == {};
    assert HiddenNodes(s.queue.entries) - {} == HiddenNodes(s.queue.entries);
  }

  /**
   A commit is exact: when a session has settled all it had to settle, each queue shows what
   it showed before together with the session's enqueues, in index order, and has lost from
   its index exactly the messages that the session retrieved and acknowledged.
   */
  lemma {:induction false} CommitExact(ws: seq<World>, sts: seq<Step>, session: nat, q: nat)
    requires Run(ws, sts) && CleanRun(ws, sts) && WorldInv(ws[0]) && q in ws[0].queues
    requires forall i :: 0 <= i < |sts| ==> CommitStep(sts[i], session)
    requires forall k :: k in ws[|sts|].works && k.session == session ==> !Settles(ws[|sts|].works[k])
    ensures q in ws[|sts|].queues
    ensures Visible(ws[|sts|].queues[q]) == Committed(StateOf(ws[0], q), session)
    ensures Nodes(ws[|sts|].queues[q].entries) == Nodes(ws[0].queues[q].entries) - Retrieved(StateOf(ws[0], q), session)
  {
    CommitRun(ws, sts, session, q);
    NothingToCommit(ws[|sts|], session, q);
  }

  // ---------- commits that other sessions run into ----------

  /** The only new name is that of a message being put. */
  lemma {:induction false} DoNames(s: State, a: Act)
    requires Wf(s.queue) && Legal(s, a)
    ensures Names(Do(s, a).queue.entries) <= Names(s.queue.entries) + NewName(s, a)
    ensures s.queue.nextNode <= Do(s, a).queue.nextNode
  {
    var q, c, h := s.queue, s.claims, NextHandle(s.queue.cursors.Keys);
    match a
    case Add(k, item) => NamesInsert(q.entries, Entry(q.nextNode, item.(purged := true)));
    case Take(k) => HideNames(q, FirstVisible(q.entries));
    case TakeID(k, id) => {
      OpenOnEntry(q);
      FoundNames(SeekID(OpenCursor(q), id, h).0, SeekID(OpenCursor(q), id, h).1, h);
    }
    case TakeCursor(k, g) =>
      if PeekCode(q, g) == NoError {
        NamesSetPurged(q.entries, q.cursors[g].target.node, true);
      }
    case Show(k) => UnhideNames(q, c[k].cursor);
    case Drop(k) => DiscardNames(q, c[k].cursor);
    case Expire(now) => NamesUnexpired(q.entries, now);
    case _ =>
  }

  function NewName(s: State, a: Act): set<(nat, bytes)> {
    if a.Add? then {(s.queue.nextNode, a.item.messageId)} else {}
  }

  lemma {:induction false} HideNames(q: Queue, it: Iter)
    ensures it.At? ==> Names(Hide(q, it.node).entries) == Names(q.entries)
  {
    if it.At? {
      NamesSetPurged(q.entries, it.node, true);
    }
  }

  lemma {:induction false} FoundNames(q: Queue, code: ErrorCode, h: Handle)
    requires code == NoError ==> h in q.cursors
    ensures Names(Found(q, code, h).0.entries) == Names(q.entries)
  {
    if code == NoError && q.cursors[h].target.At? {
      NamesSetPurged(q.entries, q.cursors[h].target.node, true);
    }
  }

  lemma {:induction false} UnhideNames(q: Queue, h: Handle)
    ensures Names(Unhide(q, h).entries) == Names(q.entries)
  {
    if h in q.cursors && q.cursors[h].target.At? {
      NamesSetPurged(q.entries, q.cursors[h].target.node, false);
    }
  }

  lemma {:induction false} DiscardNames(q: Queue, h: Handle)
    ensures Names(Discard(q, h).entries) <= Names(q.entries)
  {
    if TestCursor(q, h) == NoError {
      NamesRemove(q.entries, q.cursors[h].target.node);
    }
  }

  /** An act on other keys leaves a claim on its message. */
  lemma {:induction false} ClaimStays(s: State, a: Act, k: WorkKey)
    requires Inv(s) && Legal(s, a) && Clean(s, a) && k in s.claims && k !in KeysOf(a)
    ensures Inv(Do(s, a)) && k in Do(s, a).claims && Do(s, a).claims[k] == s.claims[k]
    ensures NodeOf(Do(s, a).queue, s.claims[k]) == NodeOf(s.queue, s.claims[k])
  {
    DoExact(s, a);
    DoKeys(s, a);
    DoNames(s, a);
    var s' := Do(s, a);
    var n, n' := NodeOf(s.queue, s.claims[k]), NodeOf(s'.queue, s'.claims[k]);
    assert (n, k.message) in Names(s.queue.entries) && (n', k.message) in Names(s'.queue.entries);
    assert (n', k.message) !in NewName(s, a);
  }

  /** A node that has left the index does not come back: node numbers are not used again. */
  lemma {:induction false} GoneStays(s: State, a: Act, n: nat)
    requires Wf(s.queue) && Legal(s, a) && n !in Nodes(s.queue.entries) && n < s.queue.nextNode
    ensures n !in Nodes(Do(s, a).queue.entries) && n < Do(s, a).queue.nextNode
  {
    DoNames(s, a);
    if Has(Do(s, a).queue.entries, n) {
      Named(Do(s, a).queue.entries, n);
    }
  }

  /** The work is pending, on this hidden entry of this queue. */
  ghost predicate PendingOn(w: World, k: WorkKey, v: Work, q: nat, n: nat) {
    && k in w.works && w.works[k] == v && OnQueue(w.handles, k, q)
    && q in w.queues && Holds(w.queues[q], v.cursor) && NodeOf(w.queues[q], v) == n
  }

  ghost predicate GoneFrom(w: World, q: nat, n: nat) {
    q in w.queues && n !in Nodes(w.queues[q].entries) && n < w.queues[q].nextNode
  }

  ghost predicate ShownIn(w: World, q: nat, n: nat) {
    q in w.queues && Has(w.queues[q].entries, n) && !IsHidden(w.queues[q].entries, n)
  }

  predicate OnKey(st: Step, k: WorkKey) {
    st.OnWork? && st.key == k
  }

  lemma {:induction false} ActedPending(w: World, r: nat, a: Act, k: WorkKey, v: Work, q: nat, n: nat)
    requires WorldInv(w) && WellFormed(w) && CanAct(w, r, a) && KeysOn(w, a, r) && Clean(StateOf(w, r), a)
    requires PendingOn(w, k, v, q, n) && k !in KeysOf(a)
    ensures PendingOn(Acted(w, r, a), k, v, q, n)
  {
    ActedSplits(w, r, a);
    var w' := Acted(w, r, a);
    assert QueueInv(w, q) && k in StateOf(w, q).claims;
    if q == r {
      ClaimStays(StateOf(w, q), a, k);
      assert k in StateOf(w', q).claims;
    } else {
      assert StateOf(w', q) == StateOf(w, q);
    }
  }

  /** A step on other keys, whoever takes it, leaves pending work where it is. */
  lemma {:induction false} StepPending(w: World, st: Step, k: WorkKey, v: Work, q: nat, n: nat)
    requires WorldInv(w) && WellFormed(w) && Enabled(w, st) && CleanStep(w, st)
    requires PendingOn(w, k, v, q, n) && !OnKey(st, k)
    ensures PendingOn(After(w, st), k, v, q, n)
  {
    match st
    case BeginTransaction(s) =>
    case EndTransaction(s) =>
    case OpenQueue(s, h, r) =>
    case CloseQueue(s, h) =>
    case OnWork(l, c) => {
      var r := w.handles[(l.session, l.queue)];
      CommandKeysOn(w, l, c, r);
      ActedPending(w, r, ActOf(w, l, c), k, v, q, n);
    }
    case OnCursor(r, a) => {
      NoKeysOn(w, a, r);
      ActedPending(w, r, a, k, v, q, n);
    }
    case OnTimer(r, now) => {
      NoKeysOn(w, Expire(now), r);
      ActedPending(w, r, Expire(now), k, v, q, n);
    }
  }

  lemma {:induction false} ActedGone(w: World, r: nat, a: Act, q: nat, n: nat)
    requires WellFormed(w) && CanAct(w, r, a) && KeysOn(w, a, r) && GoneFrom(w, q, n)
    ensures GoneFrom(Acted(w, r, a), q, n)
  {
    ActedSplits(w, r, a);
    if q == r {
      GoneStays(StateOf(w, q), a, n);
    } else {
      assert StateOf(Acted(w, r, a), q) == StateOf(w, q);
    }
  }

  lemma {:induction false} StepGone(w: World, st: Step, q: nat, n: nat)
    requires WellFormed(w) && Enabled(w, st) && GoneFrom(w, q, n)
    ensures GoneFrom(After(w, st), q, n)
  {
    match st
    case OnWork(l, c) => {
      CommandKeysOn(w, l, c, w.handles[(l.session, l.queue)]);
      ActedGone(w, w.handles[(l.session, l.queue)], ActOf(w, l, c), q, n);
    }
    case OnCursor(r, a) => {
      NoKeysOn(w, a, r);
      ActedGone(w, r, a, q, n);
    }
    case OnTimer(r, now) => {
      NoKeysOn(w, Expire(now), r);
      ActedGone(w, r, Expire(now), q, n);
    }
    case _ =>
  }

  lemma {:induction false} GoneFor(ws: seq<World>, sts: seq<Step>, q: nat, n: nat, i: nat, j: nat)
    requires Run(ws, sts) && i <= j <= |sts| && GoneFrom(ws[i], q, n)
    ensures GoneFrom(ws[j], q, n)
    decreases j - i
  {
    if i < j {
      var m := i + 1;
      assert Steps(ws[i], sts[i], ws[m]);
      StepGone(ws[i], sts[i], q, n);
      GoneFor(ws, sts, q, n, m, j);
    }
  }

  lemma {:induction false} ShowDone(s: State, k: WorkKey)
    requires Inv(s) && k in s.claims
    ensures var n, es := NodeOf(s.queue, s.claims[k]), Unhide(s.queue, s.claims[k].cursor).entries;
      Has(es, n) && !IsHidden(es, n)
  {
    var n := NodeOf(s.queue, s.claims[k]);
    SetPurgedNodes(s.queue.entries, n, false);
    ShownAfter(s.queue.entries, n);
  }

  lemma {:induction false} DropDone(s: State, k: WorkKey)
    requires Inv(s) && k in s.claims
    ensures var n, q' := NodeOf(s.queue, s.claims[k]), Discard(s.queue, s.claims[k].cursor);
      n !in Nodes(q'.entries) && n < q'.nextNode
  {
    RemoveNodes(s.queue.entries, NodeOf(s.queue, s.claims[k]));
  }

  /** What the step that commits the work does to its message. */
  lemma {:induction false} CommitOneDone(w: World, k: WorkKey, v: Work, q: nat, n: nat)
    requires WorldInv(w) && WellFormed(w) && Enabled(w, OnWork(k, CommitOne)) && PendingOn(w, k, v, q, n)
    ensures var w' := After(w, OnWork(k, CommitOne));
      if v.kind.Enqueueing? then ShownIn(w', q, n) else GoneFrom(w', q, n)
  {
    assert QueueInv(w, q) && k in StateOf(w, q).claims;
    CommandKeysOn(w, k, CommitOne, q);
    ActedSplits(w, q, ActOf(w, k, CommitOne));
    if v.kind.Enqueueing? {
      ShowDone(StateOf(w, q), k);
    } else {
      DropDone(StateOf(w, q), k);
    }
  }

  lemma {:induction false} ShownAfter(es: seq<Entry>, n: nat)
    requires Has(es, n) && Unique(es)
    ensures !IsHidden(SetPurged(es, n, false), n)
  {
    var k := IndexOf(es, n);
    SetPurgedKeeps(es, n, false);
    SetPurgedOk(es, n, false);
    IndexOfUnique(SetPurged(es, n, false), k);
  }

  /** The step that commits the work, from place j of the run on. */
  lemma {:induction false} CommitFrom(ws: seq<World>, sts: seq<Step>, k: WorkKey, v: Work, q: nat, n: nat, j: nat)
    returns (i: nat)
    requires Run(ws, sts) && CleanRun(ws, sts) && (forall l :: 0 <= l < |ws| ==> WorldInv(ws[l]))
    requires j <= |sts| && PendingOn(ws[j], k, v, q, n) && k !in ws[|sts|].works
    requires forall l :: 0 <= l < |sts| && OnKey(sts[l], k) ==> sts[l].command.CommitOne?
    ensures j <= i < |sts| && sts[i] == OnWork(k, CommitOne)
    ensures forall l :: j <= l <= i ==> PendingOn(ws[l], k, v, q, n)
    decreases |sts| - j
  {
    var m := j + 1;
    assert Steps(ws[j], sts[j], ws[m]);
    if OnKey(sts[j], k) {
      i := j;
    } else {
      StepPending(ws[j], sts[j], k, v, q, n);
      i := CommitFrom(ws, sts, k, v, q, n, m);
    }
  }

  /**
   A commit that other sessions run into, since each entry is settled under its own lock: in
   any clean run in which nothing but commits concerns the work's key, and after which it is
   gone, there is one step that commits it. Until then the message is hidden, whatever the
   others do; with that step an enqueued message is visible, and a retrieved one is gone and
   does not come back.
   */
  lemma {:induction false} CommitInterleaved(ws: seq<World>, sts: seq<Step>, k: WorkKey, q: nat) returns (i: nat)
    requires Run(ws, sts) && CleanRun(ws, sts) && WorldInv(ws[0])
    requires k in ws[0].works && OnQueue(ws[0].handles, k, q) && q in ws[0].queues && k !in ws[|sts|].works
    requires forall l :: 0 <= l < |sts| && OnKey(sts[l], k) ==> sts[l].command.CommitOne?
    ensures i < |sts| && sts[i] == OnWork(k, CommitOne) && Holds(ws[0].queues[q], ws[0].works[k].cursor)
    ensures var v, n := ws[0].works[k], NodeOf(ws[0].queues[q], ws[0].works[k]);
      && (forall l :: 0 <= l <= i ==> PendingOn(ws[l], k, v, q, n))
      && (if v.kind.Enqueueing? then ShownIn(ws[i + 1], q, n) else forall l :: i < l <= |sts| ==> GoneFrom(ws[l], q, n))
  {
    RunInv(ws, sts);
    assert QueueInv(ws[0], q) && k in ClaimsOf(ws[0], q);
    var v, n := ws[0].works[k], NodeOf(ws[0].queues[q], ws[0].works[k]);
    i := CommitFrom(ws, sts, k, v, q, n, 0);
    var m := i + 1;
    assert Steps(ws[i], sts[i], ws[m]);
    CommitOneDone(ws[i], k, v, q, n);
    if v.kind.Retrieving? {
      forall l | i < l <= |sts| ensures GoneFrom(ws[l], q, n) {
        GoneFor(ws, sts, q, n, m, l);
      }
    }
  }
}
