/**
 A client's session on the server (ServiceThread.cpp) and its transactions
 (TransactionManager.cpp), one method each.

 `Here` is the world of Server with this session's part filled in from the object's fields.
 The methods that settle pending work say what is left of it, and that what they did is a
 run of the state machine: so all that ServerRuns and Commits prove of runs holds of them.
 The methods that close queues start in any state of the session's record, and say exactly
 when all pending work is sound afterwards.
 */
module Session {
  import opened Bytes
  import opened QueueModel
  import opened QueueOps
  import opened Claims
  import opened Commits
  import opened Lifecycle
  import opened Outcomes
  import opened Outlooks
  import opened Prospects
  import opened Server
  import opened ServerRuns
  import opened SessionEnds
  import opened SessionSteps

  const FIRST_HANDLE := 4891

  class ServiceThread {
    const id: nat
    var inTransaction: bool
    var transactions: Claims
    var queues: map<nat, nat>
    var cursors: set<(nat, Handle)>
    var storage: map<nat, Queue>
    ghost var rest: World

    ghost function View(): Part
      reads this
    {
      Part(id, inTransaction, transactions, queues, cursors, storage, rest)
    }

    ghost function Here(): World
      reads this
    {
      Join(View())
    }

    ghost predicate Valid()
      reads this
    {
      Fit(View())
    }

    /** A client has connected: nothing is open or pending yet, and the others' work is as it was. */
    constructor (id: nat, storage: map<nat, Queue>, ghost rest: World)
      requires WorldInv(rest) && rest.queues == storage && id !in rest.inTx
      requires (forall k :: k in rest.works ==> k.session != id) && (forall p :: p in rest.handles ==> p.0 != id)
      ensures Valid() && Here() == rest && this.id == id && this.storage == storage && this.rest == rest
      ensures !inTransaction && transactions == map[] && queues == map[] && cursors == {}
    {
      this.id, this.storage, this.rest := id, storage, rest;
      inTransaction, transactions, queues, cursors := false, map[], map[], {};
      new;
      FirstSane(View());
    }

    // ---------- ServiceThread: finalize and cancel through an open queue ----------

    /** rollbackRetrieve and commitEnqueue. */
    method Show(h: nat, cursor: Handle) returns (code: ErrorCode)
      requires h in queues ==> queues[h] in storage
      modifies this`storage
      ensures code == if h in queues then NoError else NotOpen
      ensures storage == if h in queues then old(storage)[queues[h] := Unhide(old(storage)[queues[h]], cursor)]
        else old(storage)
    {
      if h in queues {
        storage := storage[queues[h] := Unhide(storage[queues[h]], cursor)];
        return NoError;
      }
      return NotOpen;
    }

    /** commitRetrieve and rollbackEnqueue. */
    method Delete(h: nat, cursor: Handle) returns (code: ErrorCode)
      requires h in queues ==> queues[h] in storage
      modifies this`storage
      ensures code == if h in queues then NoError else NotOpen
      ensures storage == if h in queues then old(storage)[queues[h] := Discard(old(storage)[queues[h]], cursor)]
        else old(storage)
    {
      if h in queues {
        storage := storage[queues[h] := Discard(storage[queues[h]], cursor)];
        return NoError;
      }
      return NotOpen;
    }

    // ---------- TransactionManager ----------

    method BeginTransaction() returns (ok: bool)
      requires Valid()
      modifies this`inTransaction
      ensures Valid() && inTransaction && ok == !old(inTransaction)
      ensures ok ==> Moves(old(Here()), Server.BeginTransaction(id), Here())
    {
      ok := !inTransaction;
      if ok {
        BeginJoin(View());
      }
      inTransaction := true;
    }

    /** The body of the commit loop, for one entry. */
    method CommitEntry(k: WorkKey)
      requires k in transactions && transactions[k].sent && k.queue in queues && queues[k.queue] in storage
      modifies this`transactions, this`storage
      ensures View() == if Settles(old(transactions)[k]) then SettledPart(old(View()), k, CommitOne) else old(View())
    {
      var w := transactions[k];
      match w.kind
      case Retrieving =>
        if w.acknowledged {
          var code := Delete(k.queue, w.cursor);
          transactions := transactions - {k};
        }
      case Enqueueing =>
        var code := Show(k.queue, w.cursor);
        transactions := transactions - {k};
    }

    method CommitNext(k: WorkKey, ghost before: Part, ghost todo: set<WorkKey>, ghost ws: seq<World>,
            ghost sts: seq<Step>)
      returns (ghost ws': seq<World>, ghost sts': seq<Step>)
      requires Settling(CommitOne, before, View(), todo, ws, sts) && k in todo && k in before.mine
      modifies this`transactions, this`storage
      ensures Settling(CommitOne, before, View(), todo - {k}, ws', sts')
    {
      ws', sts' := SettlingNext(CommitOne, before, View(), todo, ws, sts, k);
      CommitEntry(k);
    }

    method CommitTransaction() returns (ghost ws: seq<World>, ghost sts: seq<Step>)
      requires Valid()
      modifies this`transactions, this`storage
      ensures Valid() && SettleRun(ws, sts, id, CommitOne, old(Here()), Here())
      ensures if inTransaction then OnlyUnacknowledged(old(transactions), transactions)
        else transactions == old(transactions)
    {
      ws, sts := [Here()], [];
      if inTransaction {
        ghost var before := View();
        var todo := transactions.Keys;
        SettlingStart(CommitOne, before);
        UnsettledAre(before);
        while todo != {}
          invariant todo <= before.mine.Keys && Settling(CommitOne, before, View(), todo, ws, sts)
        {
          var k :| k in todo;
          ws, sts := CommitNext(k, before, todo, ws, sts);
          todo := todo - {k};
        }
        RemainingNone(before.mine);
      }
    }

    /** The body of the rollback loop, for one entry. */
    method RollbackEntry(k: WorkKey)
      requires k in transactions && transactions[k].sent && k.queue in queues && queues[k.queue] in storage
      modifies this`transactions, this`storage
      ensures View() == if Settles(old(transactions)[k]) then SettledPart(old(View()), k, RollbackOne) else old(View())
    {
      var w := transactions[k];
      match w.kind
      case Retrieving =>
        if w.acknowledged {
          var code := Show(k.queue, w.cursor);
          transactions := transactions - {k};
        }
      case Enqueueing =>
        var code := Delete(k.queue, w.cursor);
        transactions := transactions - {k};
    }

    method RollbackNext(k: WorkKey, ghost before: Part, ghost todo: set<WorkKey>, ghost ws: seq<World>,
            ghost sts: seq<Step>)
      returns (ghost ws': seq<World>, ghost sts': seq<Step>)
      requires Settling(RollbackOne, before, View(), todo, ws, sts) && k in todo && k in before.mine
      modifies this`transactions, this`storage
      ensures Settling(RollbackOne, before, View(), todo - {k}, ws', sts')
    {
      ws', sts' := SettlingNext(RollbackOne, before, View(), todo, ws, sts, k);
      RollbackEntry(k);
    }

    method RollbackTransaction() returns (ghost ws: seq<World>, ghost sts: seq<Step>)
      requires Valid()
      modifies this`transactions, this`storage
      ensures Valid() && SettleRun(ws, sts, id, RollbackOne, old(Here()), Here())
      ensures if inTransaction then OnlyUnacknowledged(old(transactions), transactions)
        else transactions == old(transactions)
    {
      ws, sts := [Here()], [];
      if inTransaction {
        ghost var before := View();
        var todo := transactions.Keys;
        SettlingStart(RollbackOne, before);
        UnsettledAre(before);
        while todo != {}
          invariant todo <= before.mine.Keys && Settling(RollbackOne, before, View(), todo, ws, sts)
        {
          var k :| k in todo;
          ws, sts := RollbackNext(k, before, todo, ws, sts);
          todo := todo - {k};
        }
        RemainingNone(before.mine);
      }
    }

    method EndTransaction() returns (ok: bool, ghost ws: seq<World>, ghost sts: seq<Step>)
      requires Valid()
      modifies this`transactions, this`storage, this`inTransaction
      ensures Valid() && !inTransaction && ok == old(inTransaction)
      ensures if ok then OnlyUnacknowledged(old(transactions), transactions) else transactions == old(transactions)
      ensures |ws| == |sts| + 1 && SettleRun(ws, sts, id, CommitOne, old(Here()), ws[|sts|])
      ensures if ok then Moves(ws[|sts|], Server.EndTransaction(id), Here()) else Here() == old(Here())
    {
      ws, sts := [Here()], [];
      ok := inTransaction;
      if inTransaction {
        ws, sts := CommitTransaction();
        EndJoin(View());
        inTransaction := false;
      }
    }

    /** Enqueue: in a transaction the enqueue is kept for the commit, otherwise it is final now. */
    method Enqueue(h: nat, message: bytes, cursor: Handle)
      requires Valid() && |message| == UUID_SIZE && WorkKey(id, h, message) in rest.works
      requires rest.works[WorkKey(id, h, message)].kind == Enqueueing
      requires rest.works[WorkKey(id, h, message)].cursor == cursor
      modifies this`transactions, this`storage, this`rest
      ensures Valid() && Moves(old(Here()), OnWork(WorkKey(id, h, message), PutDone), Here())
      ensures if inTransaction then
          && storage == old(storage)
          && transactions == old(transactions)[WorkKey(id, h, message) := Work(cursor, Enqueueing, false, true)]
        else transactions == old(transactions) && ShowsAt(old(storage), storage, queues, h, cursor)
    {
      var k := WorkKey(id, h, message);
      if inTransaction {
        PutLater(k, cursor);
      } else {
        PutAtOnce(k, cursor);
      }
    }

    method PutLater(k: WorkKey, cursor: Handle)
      requires Valid() && inTransaction && k in rest.works && k.session == id && |k.message| == UUID_SIZE
      requires rest.works[k].kind == Enqueueing && rest.works[k].cursor == cursor
      modifies this`transactions, this`rest
      ensures Valid() && Moves(old(Here()), OnWork(k, PutDone), Here())
      ensures transactions == old(transactions)[k := Work(cursor, Enqueueing, false, true)]
    {
      RegisterJoin(View(), k, PutDone);
      transactions := transactions[k := Work(cursor, Enqueueing, false, true)];
      rest := rest.(works := rest.works - {k});
    }

    /** commitEnqueue at once, for an enqueue outside a transaction. */
    method PutAtOnce(k: WorkKey, cursor: Handle)
      requires Valid() && !inTransaction && k in rest.works && k.session == id
      requires rest.works[k].kind == Enqueueing && rest.works[k].cursor == cursor
      modifies this`storage, this`rest
      ensures Valid() && Moves(old(Here()), OnWork(k, PutDone), Here())
      ensures ShowsAt(old(storage), storage, queues, k.queue, cursor)
    {
      PutShows(View(), k);
      PutJoin(View(), k);
      var code := Show(k.queue, cursor);
      rest := rest.(works := rest.works - {k});
    }

    method BeginRetrieve(h: nat, message: bytes, cursor: Handle)
      requires Valid() && |message| == UUID_SIZE && WorkKey(id, h, message) in rest.works
      requires rest.works[WorkKey(id, h, message)].kind == Retrieving
      requires rest.works[WorkKey(id, h, message)].cursor == cursor
      modifies this`transactions, this`rest
      ensures Valid() && Moves(old(Here()), OnWork(WorkKey(id, h, message), GetDone), Here())
      ensures transactions == old(transactions)[WorkKey(id, h, message) := Work(cursor, Retrieving, false, true)]
    {
      var k := WorkKey(id, h, message);
      RegisterJoin(View(), k, GetDone);
      transactions := transactions[k := Work(cursor, Retrieving, false, true)];
      rest := rest.(works := rest.works - {k});
    }

    /** An acknowledgement: for the commit, or at once. It succeeds whenever the retrieve is pending. */
    method FinalizeRetrieve(h: nat, message: bytes) returns (code: ErrorCode)
      requires Valid()
      modifies this`transactions, this`storage
      ensures Valid() && code == if WorkKey(id, h, message) in old(transactions) then NoError else DoesNotExist
      ensures if code == NoError then Moves(old(Here()), OnWork(WorkKey(id, h, message), Ack), Here())
        else Here() == old(Here())
      ensures code == NoError ==>
        var k := WorkKey(id, h, message);
        if inTransaction then
          storage == old(storage) && transactions == old(transactions)[k := old(transactions)[k].(acknowledged := true)]
        else
          && transactions == old(transactions) - {k}
          && DeletesAt(old(storage), storage, queues, h, old(transactions)[k].cursor)
    {
      var k := WorkKey(id, h, message);
      if k !in transactions {
        return DoesNotExist;
      }
      if inTransaction {
        AckJoin(View(), k);
        transactions := transactions[k := transactions[k].(acknowledged := true)];
        return NoError;
      }
      SettleJoin(View(), k, Ack);
      AckDeletes(View(), k);
      code := Delete(h, transactions[k].cursor);
      if code == NoError {
        transactions := transactions - {k};
      }
    }

    // ---------- closing a queue ----------

    method LowerBound(h: nat) returns (b: Bound)
      ensures IsLowerBound(transactions.Keys, WorkKey(id, h, UuidNull()), b)
    {
      b := NoKey;
      var from := WorkKey(id, h, UuidNull());
      var todo, seen := transactions.Keys, {};
      while todo != {}
        invariant todo + seen == transactions.Keys && IsLowerBound(seen, from, b)
        decreases todo
      {
        var k :| k in todo;
        LowerBoundNext(seen, from, b, k);
        if !KeyLess(k, from) && (b.NoKey? || KeyLess(k, b.key)) {
          b := Least(k);
        }
        todo, seen := todo - {k}, seen + {k};
      }
    }

    /** The body of the shutdown loop: an unacknowledged retrieve is dropped without being cancelled. */
    method ShutdownEntry(k: WorkKey)
      requires k in transactions && k.queue in queues && queues[k.queue] in storage
      modifies this`transactions, this`storage
      ensures View() == SettledPart(old(View()), k, ShutdownOne)
    {
      var w := transactions[k];
      assert storage[queues[k.queue] := storage[queues[k.queue]]] == storage;
      match w.kind {
        case Retrieving =>
          if w.acknowledged {
            var code := Show(k.queue, w.cursor);
          }
        case Enqueueing =>
          var code := Delete(k.queue, w.cursor);
      }
      transactions := transactions - {k};
    }

    method ShutdownNext(k: WorkKey, ghost h: nat, ghost before: Part, ghost ws: seq<World>, ghost sts: seq<Step>)
      returns (ghost ws': seq<World>, ghost sts': seq<Step>)
      requires Shutting(before, View(), h, ws, sts) && k in transactions && k.queue == h
      modifies this`transactions, this`storage
      ensures Shutting(before, View(), h, ws', sts') && |transactions| == |old(transactions)| - 1
    {
      ws', sts' := ShuttingNext(before, View(), h, ws, sts, k);
      ShutFewer(before, View(), k, h);
      ShutdownEntry(k);
    }

    /** TransactionManager's ShutdownQueue: ends all of a handle's pending work and nothing else, each piece once. */
    method ShutdownPending(h: nat) returns (ghost ws: seq<World>, ghost sts: seq<Step>)
      requires Sane(View())
      modifies this`transactions, this`storage
      ensures Shutting(old(View()), View(), h, ws, sts) && transactions == WithoutHandle(old(transactions), h)
    {
      ghost var before := View();
      ws, sts := [Lively(Here(), id)], [];
      ShuttingStart(before, h);
      var b := LowerBound(h);
      while b.Least? && b.key.queue == h
        invariant Shutting(before, View(), h, ws, sts)
        invariant IsLowerBound(transactions.Keys, WorkKey(id, h, UuidNull()), b)
        decreases |transactions|
      {
        ws, sts := ShutdownNext(b.key, h, before, ws, sts);
        b := LowerBound(h);
      }
      NoneLeftOf(h, b);
    }

    lemma {:induction false} NoneLeftOf(h: nat, b: Bound)
      requires Sane(View()) && IsLowerBound(transactions.Keys, WorkKey(id, h, UuidNull()), b)
      requires b.NoKey? || b.key.queue != h
      ensures (forall k :: k in transactions ==> k.queue != h) && WithoutHandle(transactions, h) == transactions
    {
      assert IsSane(View());
      NoneOfHandle(transactions.Keys, id, h, b);
      WithoutAll(transactions, h);
    }

    /** Closes the session's cursors on a handle, each once, in any order. */
    method CloseCursors(h: nat)
      requires h in queues && queues[h] in storage
      modifies this`cursors, this`storage
      ensures View() == ClosedPart(old(View()), h)
    {
      var q := queues[h];
      ghost var first, all := storage[q], cursors;
      UnlistedNone(storage, q, all);
      while exists c :: c in cursors && c.0 == h
        invariant cursors <= all && forall c :: c in all && c.0 != h ==> c in cursors
        invariant storage == old(storage)[q := CloseAll(first, Unlisted(all, cursors))]
        decreases |cursors|
      {
        var c :| c in cursors && c.0 == h;
        UnlistedNext(first, all, cursors, c);
        storage := storage[q := QueueOps.Close(storage[q], c.1)];
        cursors := cursors - {c};
      }
      assert Unlisted(all, cursors) == Listed(old(View()), h);
    }

    /** ServiceThread's shutdownQueue: the handle's pending work, its cursors, then the handle itself. */
    method ShutdownQueue(h: nat) returns (code: ErrorCode, ghost ws: seq<World>, ghost sts: seq<Step>)
      requires Sane(View()) && forall k :: k in rest.works ==> k.session != id
      modifies this`transactions, this`storage, this`cursors, this`queues
      ensures code == if h in old(queues) then NoError else NotOpen
      ensures if code == NoError then IsShut(old(View()), View(), h) else View() == old(View())
      ensures old(Valid()) ==> (Valid() <==> old(Clear(View(), h)))
      ensures old(Valid() && Clear(View(), h)) ==> Path(ws, sts, old(Here()), Here())
      ensures old(Steady(View()) && Spared(View(), h)) ==> Steady(View())
    {
      ws, sts := [Here()], [];
      if h !in queues {
        return NotOpen, ws, sts;
      }
      ghost var before := View();
      ws, sts := ShutdownPending(h);
      ghost var middle := View();
      NoneLeftOpen(middle, h);
      EndHandle(h);
      ws, sts := ShutdownDone(before, middle, h, ws, sts);
      code := NoError;
    }

    method EndHandle(h: nat)
      requires h in queues && queues[h] in storage
      modifies this`storage, this`cursors, this`queues
      ensures View() == ShutPart(old(View()), h)
    {
      CloseCursors(h);
      queues := queues - {h};
    }

    method DisconnectNext(h: nat, ghost first: Part, ghost ws: seq<World>, ghost sts: seq<Step>)
      returns (ghost ws': seq<World>, ghost sts': seq<Step>)
      requires Ending(first, View(), ws, sts) && h in queues
      modifies this`transactions, this`storage, this`cursors, this`queues
      ensures Ending(first, View(), ws', sts') && IsShut(old(View()), View(), h) && |queues| == |old(queues)| - 1
    {
      ghost var before := View();
      var code;
      code, ws', sts' := ShutdownQueue(h);
      ws', sts' := EndingNext(first, before, View(), h, ws, sts, ws', sts');
    }

    /**
     The destructor's loop: a session that ends leaves nothing pending, no cursor and no open
     queue; it has shut down one handle after another, and done nothing else. The others' work
     stays sound if and only if none of it goes through a cursor number that this session still
     lists.
     */
    method Disconnect() returns (ghost ps: seq<Part>, ghost hs: seq<nat>, ghost ws: seq<World>, ghost sts: seq<Step>)
      requires Valid() && forall k :: k in rest.works ==> k.session != id
      modifies this`transactions, this`storage, this`cursors, this`queues
      ensures Sane(View()) && queues == map[] && transactions == map[] && cursors == {}
      ensures ShutRun(ps, hs) && ps[0] == old(View()) && ps[|hs|] == View()
      ensures Valid() <==> old(AllSpared(View()))
      ensures old(AllClear(View())) ==> Path(ws, sts, old(Here()), Here())
    {
      ghost var first := View();
      ps, hs, ws, sts := [first], [], [Here()], [];
      EndingStart(first);
      while queues != map[]
        invariant Ending(first, View(), ws, sts)
        invariant ShutRun(ps, hs) && ps[0] == first && ps[|hs|] == View()
        decreases |queues|
      {
        var h :| h in queues;
        ws, sts := DisconnectNext(h, first, ws, sts);
        ShutSnoc(ps, hs, View(), h);
        ps, hs := ps + [View()], hs + [h];
      }
      EndingDone(first, View(), ws, sts);
    }

    // ---------- handles and cursors ----------

    /** addCursor, for a cursor that was opened on an open queue. */
    method AddCursor(h: nat, cursor: Handle)
      requires Sane(View()) && h in queues
      modifies this`cursors
      ensures View() == old(View()).(cursors := old(cursors) + {(h, cursor)}) && Sane(View())
    {
      assert IsSane(View());
      cursors := cursors + {(h, cursor)};
      SaneListed(old(View()), cursors);
    }

    method RemoveCursor(h: nat, cursor: Handle)
      requires Sane(View())
      modifies this`cursors
      ensures View() == old(View()).(cursors := old(cursors) - {(h, cursor)}) && Sane(View())
    {
      assert IsSane(View());
      cursors := cursors - {(h, cursor)};
      SaneListed(old(View()), cursors);
    }

    /** A new handle is one more than the last one, or the first of all. */
    method RegisterQueue(q: nat) returns (h: nat)
      requires Valid() && q in storage
      modifies this`queues
      ensures Valid() && h !in old(queues) && queues == old(queues)[h := q]
      ensures Moves(old(Here()), OpenQueue(id, h, q), Here())
    {
      h := FIRST_HANDLE;
      if queues != map[] {
        h := LastHandle();
        h := h + 1;
      }
      OpenJoin(View(), h, q);
      queues := queues[h := q];
    }

    method LastHandle() returns (last: nat)
      requires queues != map[]
      ensures last in queues && forall h :: h in queues ==> h <= last
    {
      last :| last in queues;
      var todo := queues.Keys;
      while todo != {}
        invariant todo <= queues.Keys && last in queues
        invariant forall h :: h in queues && h !in todo ==> h <= last
      {
        var h :| h in todo;
        if h > last {
          last := h;
        }
        todo := todo - {h};
      }
    }
  }

  // ---------- what the transaction methods did to the queues ----------

  /**
   After CommitTransaction or EndTransaction each queue shows what it showed before with the
   session's enqueues among it, in index order, and is without the messages it acknowledged.
   */
  lemma {:induction false} CommitShows(ws: seq<World>, sts: seq<Step>, session: nat, first: World, last: World, q: nat)
    requires SettleRun(ws, sts, session, CommitOne, first, last) && WorldInv(first) && q in first.queues
    requires forall k :: k in last.works && k.session == session ==> !Settles(last.works[k])
    ensures q in last.queues && Visible(last.queues[q]) == Committed(StateOf(first, q), session)
    ensures Nodes(last.queues[q].entries) == Nodes(first.queues[q].entries) - Retrieved(StateOf(first, q), session)
  {
    CommitExact(ws, sts, session, q);
  }

  /** After RollbackTransaction each queue's visible and held messages are as they were before. */
  lemma {:induction false} RollbackKeeps(ws: seq<World>, sts: seq<Step>, session: nat, first: World, last: World,
          q: nat)
    requires SettleRun(ws, sts, session, RollbackOne, first, last) && WorldInv(first) && q in first.queues
    ensures q in last.queues && Prospect(StateOf(last, q)) == Prospect(StateOf(first, q))
  {
    RunProspect(ws, sts, q);
  }
}
