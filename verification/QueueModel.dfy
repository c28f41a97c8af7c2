/**
 A message queue's index and its cursors as plain values.

 `entries` is the list that the server keeps by priority; a node number stands for
 a list iterator. A cursor is the pair (target, valid) plus `tied`: whether it still
 shares the position of the index's own begin cursor, which every `begin()` rewrites.
 RaPriorityQueue (RandPq.dfy) shows that positions shared by reference count refine
 this picture; QStorage (QStorage.dfy) runs its operations on top of it.
 */
module QueueModel {
  import opened Bytes

  type Handle = nat

  datatype QueueIndex = QueueIndex(
    priority: int,
    messageId: bytes,
    messageClass: int,
    receiptId: bytes,
    timestamp: int,
    ttl: int,
    fileId: nat,
    offset: nat,
    purged: bool)

  datatype Entry = Entry(node: nat, item: QueueIndex)

  datatype Iter = End | At(node: nat)

  datatype CursorVal = CursorVal(target: Iter, valid: bool, tied: bool)

  datatype Queue = Queue(entries: seq<Entry>, cursors: map<Handle, CursorVal>, nextNode: nat)

  datatype ErrorCode = NoError | DoesNotExist | NotOpen | CursorInvalidated | NoMoreMessages

  // ---------- the list ----------

  /** QueueIndex's operator<: a higher priority comes first. */
  predicate Less(a: QueueIndex, b: QueueIndex) {
    a.priority > b.priority
  }

  /** The position of a node, or -1. */
  function IndexOf(es: seq<Entry>, node: nat): (k: int)
    ensures -1 <= k < |es|
    ensures k >= 0 <==> node in Nodes(es)
    ensures k >= 0 ==> es[k].node == node
  {
    if es == [] then -1
    else if es[0].node == node then 0
    else var k := IndexOf(es[1..], node); if k == -1 then -1 else k + 1
  }

  function Nodes(es: seq<Entry>): set<nat> {
    set e | e in es :: e.node
  }

  predicate Has(es: seq<Entry>, node: nat) {
    node in Nodes(es)
  }

  function ItemAt(es: seq<Entry>, node: nat): QueueIndex
    requires Has(es, node)
  {
    es[IndexOf(es, node)].item
  }

  predicate IsHidden(es: seq<Entry>, node: nat) {
    Has(es, node) && ItemAt(es, node).purged
  }

  function First(es: seq<Entry>): Iter {
    if es == [] then End else At(es[0].node)
  }

  function Next(es: seq<Entry>, node: nat): Iter
    requires Has(es, node)
  {
    First(es[IndexOf(es, node) + 1..])
  }

  function Items(es: seq<Entry>): (xs: seq<QueueIndex>)
    ensures |xs| == |es| && forall i :: 0 <= i < |es| ==> xs[i] == es[i].item
  {
    seq(|es|, i requires 0 <= i < |es| => es[i].item)
  }

  /** Where an item goes: behind the last one that it does not precede. */
  function InsertPos(xs: seq<QueueIndex>, x: QueueIndex): (k: nat)
    ensures k <= |xs|
    ensures k > 0 ==> !Less(x, xs[k - 1])
    ensures forall j :: k <= j < |xs| ==> Less(x, xs[j])
  {
    if xs == [] then 0
    else if Less(x, xs[|xs| - 1]) then InsertPos(xs[..|xs| - 1], x)
    else |xs|
  }

  function Insert(es: seq<Entry>, e: Entry): seq<Entry> {
    var k := InsertPos(Items(es), e.item);
    es[..k] + [e] + es[k..]
  }

  function Remove(es: seq<Entry>, node: nat): seq<Entry> {
    var k := IndexOf(es, node);
    if k == -1 then es else es[..k] + es[k + 1..]
  }

  function SetPurged(es: seq<Entry>, node: nat, purged: bool): seq<Entry> {
    var k := IndexOf(es, node);
    if k == -1 then es else es[k := es[k].(item := es[k].item.(purged := purged))]
  }

  /** The first entry that is not hidden. */
  function FirstVisible(es: seq<Entry>): (it: Iter)
    ensures it.At? ==> Has(es, it.node)
  {
    if es == [] then End
    else if !es[0].item.purged then At(es[0].node)
    else FirstVisible(es[1..])
  }

  ghost predicate Unique(es: seq<Entry>) {
    forall i, j :: 0 <= i < j < |es| ==> es[i].node != es[j].node
  }

  /** Descending priority; among equals, arrival order (nodes are numbered as they arrive). */
  ghost predicate Ordered(es: seq<Entry>) {
    forall i, j :: 0 <= i < j < |es| ==>
      es[i].item.priority > es[j].item.priority
      || (es[i].item.priority == es[j].item.priority && es[i].node < es[j].node)
  }

  ghost predicate ListOk(es: seq<Entry>, nextNode: nat) {
    Ordered(es) && Unique(es) && forall n :: n in Nodes(es) ==> n < nextNode
  }

  // ---------- cursors ----------

  /** The effect of begin(): the cursors on its position all move to the front. */
  function Retarget<K>(cs: map<K, CursorVal>, first: Iter): (r: map<K, CursorVal>)
    ensures r.Keys == cs.Keys
  {
    map c | c in cs :: if cs[c].tied then CursorVal(first, true, true) else cs[c]
  }

  /** The effect of erasing a node: every valid cursor on it becomes invalid. */
  function Invalidate<K>(cs: map<K, CursorVal>, node: nat): (r: map<K, CursorVal>)
    ensures r.Keys == cs.Keys
  {
    map c | c in cs :: if cs[c].valid && cs[c].target == At(node) then cs[c].(valid := false) else cs[c]
  }

  // ---------- facts about the list ----------

  lemma {:induction false} IndexOfUnique(es: seq<Entry>, k: nat)
    requires Unique(es) && k < |es|
    ensures IndexOf(es, es[k].node) == k
  {
  }

  lemma {:induction false} NodesConcat(a: seq<Entry>, b: seq<Entry>)
    ensures Nodes(a + b) == Nodes(a) + Nodes(b)
  {
    forall n | n in Nodes(a) + Nodes(b) ensures n in Nodes(a + b) {
      var e :| (e in a || e in b) && e.node == n;
      assert e in a + b;
    }
  }

  lemma {:induction false} NodesSplice(es: seq<Entry>, k: nat, e: Entry)
    requires k <= |es|
    ensures Nodes(es[..k] + [e] + es[k..]) == Nodes(es) + {e.node}
  {
    assert es == es[..k] + es[k..];
    NodesConcat(es[..k], es[k..]);
    NodesConcat(es[..k], [e]);
    NodesConcat(es[..k] + [e], es[k..]);
    assert Nodes([e]) == {e.node} by {
      assert e in [e];
    }
  }

  lemma {:induction false} InsertNodes(es: seq<Entry>, e: Entry)
    ensures Nodes(Insert(es, e)) == Nodes(es) + {e.node}
  {
    NodesSplice(es, InsertPos(Items(es), e.item), e);
  }

  lemma {:induction false} RemoveNodes(es: seq<Entry>, node: nat)
    requires Unique(es)
    ensures Nodes(Remove(es, node)) == Nodes(es) - {node}
  {
    var k := IndexOf(es, node);
    if k != -1 {
      assert es == es[..k] + [es[k]] + es[k + 1..];
      NodesConcat(es[..k], [es[k]]);
      NodesConcat(es[..k] + [es[k]], es[k + 1..]);
      NodesConcat(es[..k], es[k + 1..]);
      assert node !in Nodes(es[..k]) && node !in Nodes(es[k + 1..]);
      assert Nodes([es[k]]) == {node} by {
        assert es[k] in [es[k]];
      }
    }
  }

  lemma {:induction false} InsertUnique(es: seq<Entry>, e: Entry)
    requires Unique(es) && e.node !in Nodes(es)
    ensures Unique(Insert(es, e))
  {
    assert forall j :: 0 <= j < |es| ==> es[j] in es;
  }

  lemma {:induction false} InsertOrdered(es: seq<Entry>, e: Entry)
    requires Ordered(es)
    requires forall i :: 0 <= i < |es| ==> es[i].node < e.node
    ensures Ordered(Insert(es, e))
  {
  }

  lemma {:induction false} InsertOrderedByNodes(es: seq<Entry>, e: Entry)
    requires Ordered(es) && forall n :: n in Nodes(es) ==> n < e.node
    ensures Ordered(Insert(es, e))
  {
    forall i | 0 <= i < |es| ensures es[i].node < e.node {
      assert es[i] in es;
      assert es[i].node in Nodes(es);
    }
    InsertOrdered(es, e);
  }

  lemma {:induction false} RemoveOrdered(es: seq<Entry>, node: nat)
    requires Ordered(es)
    ensures Ordered(Remove(es, node))
  {
  }

  lemma {:induction false} RemoveUnique(es: seq<Entry>, node: nat)
    requires Unique(es)
    ensures Unique(Remove(es, node))
  {
  }

  lemma {:induction false} InsertOk(es: seq<Entry>, e: Entry)
    requires ListOk(es, e.node)
    ensures ListOk(Insert(es, e), e.node + 1)
  {
    InsertUnique(es, e);
    InsertOrderedByNodes(es, e);
    InsertNodes(es, e);
  }

  lemma {:induction false} RemoveOk(es: seq<Entry>, nextNode: nat, node: nat)
    requires ListOk(es, nextNode)
    ensures ListOk(Remove(es, node), nextNode)
  {
    RemoveUnique(es, node);
    RemoveOrdered(es, node);
    RemoveNodes(es, node);
  }

  /** The entry behind a node stays in the list when that node goes. */
  lemma {:induction false} NextStays(es: seq<Entry>, node: nat)
    requires Has(es, node) && Unique(es)
    ensures Next(es, node).At? ==> Has(es, Next(es, node).node) && Next(es, node).node != node
  {
  }

  /** Hiding or showing an entry changes its flag alone. */
  lemma {:induction false} SetPurgedKeeps(es: seq<Entry>, node: nat, purged: bool)
    ensures var es' := SetPurged(es, node, purged);
      && |es'| == |es|
      && (forall i :: 0 <= i < |es| ==> es'[i].node == es[i].node)
      && (forall i :: 0 <= i < |es| && i != IndexOf(es, node) ==> es'[i] == es[i])
  {
  }

  lemma {:induction false} SetPurgedOk(es: seq<Entry>, node: nat, purged: bool)
    ensures Unique(es) ==> Unique(SetPurged(es, node, purged))
    ensures Ordered(es) ==> Ordered(SetPurged(es, node, purged))
  {
    SetPurgedKeeps(es, node, purged);
  }

  lemma {:induction false} SetPurgedNodes(es: seq<Entry>, node: nat, purged: bool)
    ensures Nodes(SetPurged(es, node, purged)) == Nodes(es)
  {
    var k := IndexOf(es, node);
    if k != -1 {
      var x' := SetPurged(es, node, purged)[k];
      assert es == es[..k] + [es[k]] + es[k + 1..];
      assert SetPurged(es, node, purged) == es[..k] + [x'] + es[k + 1..];
      assert Nodes([x']) == {node} == Nodes([es[k]]) by {
        assert x' in [x'] && es[k] in [es[k]];
      }
      NodesConcat(es[..k], [es[k]]);
      NodesConcat(es[..k] + [es[k]], es[k + 1..]);
      NodesConcat(es[..k], [x']);
      NodesConcat(es[..k] + [x'], es[k + 1..]);
    }
  }
}
