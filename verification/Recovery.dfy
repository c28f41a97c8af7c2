/**
 Why recovery from the log files rebuilds the index in memory.

 `Rebuild` enqueues items one by one, as recover() does with what it reads. Written to the
 last file and enqueued in memory, an item joins both sides alike; purged on disk and
 erased in memory, it leaves both alike, because stable insertion commutes with dropping.
 */
module Recovery {
  import opened Bytes
  import opened QueueModel
  import opened LogFormat
  import opened Messages

  // ---------- items without their nodes and purged flags ----------

  function Plain(es: seq<Entry>): (xs: seq<QueueIndex>)
    ensures |xs| == |es| && forall i :: 0 <= i < |es| ==> xs[i] == es[i].item.(purged := false)
  {
    seq(|es|, i requires 0 <= i < |es| => es[i].item.(purged := false))
  }

  function InsertItem(xs: seq<QueueIndex>, x: QueueIndex): seq<QueueIndex> {
    var k := InsertPos(xs, x);
    xs[..k] + [x] + xs[k..]
  }

  /** The index that recovery builds from items in the order read. */
  function Rebuild(items: seq<QueueIndex>): seq<QueueIndex> {
    if items == [] then [] else InsertItem(Rebuild(items[..|items| - 1]), items[|items| - 1])
  }

  predicate AtPlace(x: QueueIndex, fileId: nat, offset: nat) {
    x.fileId == fileId && x.offset == offset
  }

  function DropAt(xs: seq<QueueIndex>, fileId: nat, offset: nat): seq<QueueIndex> {
    if xs == [] then []
    else
      var x := xs[|xs| - 1];
      DropAt(xs[..|xs| - 1], fileId, offset) + (if AtPlace(x, fileId, offset) then [] else [x])
  }

  /** How many items lie in a file. */
  function Count(xs: seq<QueueIndex>, fileId: nat): nat {
    if xs == [] then 0
    else Count(xs[..|xs| - 1], fileId) + if xs[|xs| - 1].fileId == fileId then 1 else 0
  }

  ghost predicate Descending(xs: seq<QueueIndex>) {
    forall i, j :: 0 <= i < j < |xs| ==> xs[i].priority >= xs[j].priority
  }

  // ---------- insertion, dropping and counting ----------

  /** The insertion point is where the priorities fall below the item's. */
  lemma {:induction false} InsertPosAt(a: seq<QueueIndex>, b: seq<QueueIndex>, x: QueueIndex)
    requires a != [] ==> !Less(x, a[|a| - 1])
    requires forall y :: y in b ==> Less(x, y)
    ensures InsertPos(a + b, x) == |a|
  {
    if b == [] {
      assert a + b == a;
    } else {
      assert (a + b)[..|a + b| - 1] == a + b[..|b| - 1];
      assert b[|b| - 1] in b;
      InsertPosAt(a, b[..|b| - 1], x);
    }
  }

  lemma {:induction false} DropAtConcat(a: seq<QueueIndex>, b: seq<QueueIndex>, f: nat, o: nat)
    ensures DropAt(a + b, f, o) == DropAt(a, f, o) + DropAt(b, f, o)
  {
    if b == [] {
      assert a + b == a;
    } else {
      assert (a + b)[..|a + b| - 1] == a + b[..|b| - 1];
      DropAtConcat(a, b[..|b| - 1], f, o);
    }
  }

  lemma {:induction false} CountConcat(a: seq<QueueIndex>, b: seq<QueueIndex>, f: nat)
    ensures Count(a + b, f) == Count(a, f) + Count(b, f)
  {
    if b == [] {
      assert a + b == a;
    } else {
      assert (a + b)[..|a + b| - 1] == a + b[..|b| - 1];
      CountConcat(a, b[..|b| - 1], f);
    }
  }

  lemma {:induction false} DropAtMembers(xs: seq<QueueIndex>, f: nat, o: nat)
    ensures forall y :: y in DropAt(xs, f, o) <==> y in xs && !AtPlace(y, f, o)
  {
    if xs != [] {
      DropAtMembers(xs[..|xs| - 1], f, o);
      assert xs == xs[..|xs| - 1] + [xs[|xs| - 1]];
    }
  }

  lemma {:induction false} InsertDescending(xs: seq<QueueIndex>, x: QueueIndex)
    requires Descending(xs)
    ensures Descending(InsertItem(xs, x))
  {
  }

  lemma {:induction false} RebuildDescending(items: seq<QueueIndex>)
    ensures Descending(Rebuild(items))
  {
    if items != [] {
      RebuildDescending(items[..|items| - 1]);
      InsertDescending(Rebuild(items[..|items| - 1]), items[|items| - 1]);
    }
  }

  lemma {:induction false} DropSplice(a: seq<QueueIndex>, x: QueueIndex, b: seq<QueueIndex>, f: nat, o: nat)
    ensures DropAt(a + [x] + b, f, o) == DropAt(a, f, o) + (if AtPlace(x, f, o) then [] else [x]) + DropAt(b, f, o)
  {
    DropAtConcat(a + [x], b, f, o);
    assert (a + [x])[..|a|] == a;
  }

  lemma {:induction false} InsertBetween(a: seq<QueueIndex>, b: seq<QueueIndex>, x: QueueIndex)
    requires forall y :: y in a ==> !Less(x, y)
    requires forall y :: y in b ==> Less(x, y)
    ensures InsertItem(a + b, x) == a + [x] + b
  {
    if a != [] {
      assert a[|a| - 1] in a;
    }
    InsertPosAt(a, b, x);
    assert (a + b)[..|a|] == a && (a + b)[|a|..] == b;
  }

  lemma {:induction false} DropInserted(a: seq<QueueIndex>, b: seq<QueueIndex>, x: QueueIndex, f: nat, o: nat)
    requires forall y :: y in a ==> !Less(x, y)
    requires forall y :: y in b ==> Less(x, y)
    ensures DropAt(a + [x] + b, f, o) ==
      if AtPlace(x, f, o) then DropAt(a, f, o) + DropAt(b, f, o) else InsertItem(DropAt(a, f, o) + DropAt(b, f, o), x)
  {
    DropSplice(a, x, b, f, o);
    if AtPlace(x, f, o) {
      Regroup(DropAt(a, f, o), [], []);
    } else {
      DropAtMembers(a, f, o);
      DropAtMembers(b, f, o);
      InsertBetween(DropAt(a, f, o), DropAt(b, f, o), x);
    }
  }

  /** Dropping another item first does not change where an item goes. */
  lemma {:induction false} InsertDrop(xs: seq<QueueIndex>, x: QueueIndex, f: nat, o: nat)
    requires Descending(xs)
    ensures DropAt(InsertItem(xs, x), f, o) ==
      if AtPlace(x, f, o) then DropAt(xs, f, o) else InsertItem(DropAt(xs, f, o), x)
  {
    var k := InsertPos(xs, x);
    assert xs == xs[..k] + xs[k..];
    DropAtConcat(xs[..k], xs[k..], f, o);
    DropInserted(xs[..k], xs[k..], x, f, o);
  }

  /** Recovery without an item is recovery with that item dropped. */
  lemma {:induction false} RebuildDrop(items: seq<QueueIndex>, f: nat, o: nat)
    ensures Rebuild(DropAt(items, f, o)) == DropAt(Rebuild(items), f, o)
  {
    if items != [] {
      var rest, x := items[..|items| - 1], items[|items| - 1];
      RebuildDrop(rest, f, o);
      RebuildDescending(rest);
      InsertDrop(Rebuild(rest), x, f, o);
      if AtPlace(x, f, o) {
        assert DropAt(items, f, o) == DropAt(rest, f, o);
      } else {
        assert DropAt(items, f, o)[..|DropAt(items, f, o)| - 1] == DropAt(rest, f, o);
      }
    }
  }

  lemma {:induction false} InsertCount(xs: seq<QueueIndex>, x: QueueIndex, f: nat)
    ensures Count(InsertItem(xs, x), f) == Count(xs, f) + if x.fileId == f then 1 else 0
  {
    var k := InsertPos(xs, x);
    assert xs == xs[..k] + xs[k..];
    CountConcat(xs[..k], xs[k..], f);
    CountConcat(xs[..k], [x], f);
    CountConcat(xs[..k] + [x], xs[k..], f);
    assert Count([x], f) == if x.fileId == f then 1 else 0;
  }

  lemma {:induction false} InsertMembers(xs: seq<QueueIndex>, x: QueueIndex)
    ensures forall y :: y in InsertItem(xs, x) <==> y in xs || y == x
  {
    var k := InsertPos(xs, x);
    assert xs == xs[..k] + xs[k..];
  }

  lemma {:induction false} RebuildKeeps(items: seq<QueueIndex>, f: nat)
    ensures Count(Rebuild(items), f) == Count(items, f)
    ensures forall x :: x in Rebuild(items) <==> x in items
  {
    if items != [] {
      var rest, x := items[..|items| - 1], items[|items| - 1];
      RebuildKeeps(rest, f);
      InsertCount(Rebuild(rest), x, f);
      InsertMembers(Rebuild(rest), x);
      assert items == rest + [x];
    }
  }

  // ---------- one log ----------

  lemma {:induction false} LogAppend(rs: seq<Record>, r: Record, f: nat)
    ensures EncodeLog(rs + [r]) == EncodeLog(rs) + Encode(r)
    ensures LiveOf(rs + [r], f) == LiveOf(rs, f) + Item(r, f, |EncodeLog(rs)|)
  {
    assert Butlast(rs + [r]) == rs;
  }

  /** Every item found in a log is an unpurged record at its offset. */
  lemma {:induction false} LiveRecord(rs: seq<Record>, f: nat, x: QueueIndex) returns (k: nat)
    requires x in LiveOf(rs, f)
    ensures k < |rs| && rs[k].Record? && !rs[k].purged && x == ItemOf(rs[k].msg, f, Offset(rs, k), false)
    ensures Offset(rs, k) < |EncodeLog(rs)|
  {
    var n := |rs| - 1;
    assert rs[..n] == Butlast(rs);
    if x in LiveOf(Butlast(rs), f) {
      k := LiveRecord(Butlast(rs), f, x);
      assert rs[..k] == Butlast(rs)[..k];
    } else {
      k := n;
    }
  }

  function PurgeRecord(rs: seq<Record>, k: nat): seq<Record>
    requires k < |rs| && rs[k].Record?
  {
    rs[k := rs[k].(purged := true)]
  }

  lemma {:induction false} FlagByte(r: Record)
    requires r.Record?
    ensures |Encode(r)| >= HEADER_SIZE && Encode(r.(purged := true)) == Encode(r)[4 := 1]
  {
  }

  lemma {:induction false} UpdateParts(a: bytes, b: bytes, i: nat, x: byte)
    ensures i < |a| ==> a[i := x] + b == (a + b)[i := x]
    ensures i < |b| ==> a + b[i := x] == (a + b)[|a| + i := x]
  {
  }

  lemma {:induction false} FlagLast(rs: seq<Record>, r: Record)
    requires r.Record?
    ensures |EncodeLog(rs)| + HEADER_SIZE <= |EncodeLog(rs + [r])|
    ensures EncodeLog(rs + [r.(purged := true)]) == EncodeLog(rs + [r])[|EncodeLog(rs)| + 4 := 1]
  {
    LogAppend(rs, r, 0);
    LogAppend(rs, r.(purged := true), 0);
    FlagByte(r);
    UpdateParts(EncodeLog(rs), Encode(r), 4, 1);
  }

  lemma {:induction false} FlagEarlier(rs: seq<Record>, rs': seq<Record>, r: Record, i: nat)
    requires i < |EncodeLog(rs)| && EncodeLog(rs') == EncodeLog(rs)[i := 1]
    ensures |EncodeLog(rs)| <= |EncodeLog(rs + [r])|
    ensures EncodeLog(rs' + [r]) == EncodeLog(rs + [r])[i := 1]
  {
    LogAppend(rs, r, 0);
    LogAppend(rs', r, 0);
    UpdateParts(EncodeLog(rs), Encode(r), i, 1);
  }

  lemma {:induction false} PurgeSplit(rs: seq<Record>, k: nat)
    requires k < |rs| && rs[k].Record?
    ensures rs == Butlast(rs) + [rs[|rs| - 1]]
    ensures k == |rs| - 1 ==> rs[..k] == Butlast(rs) && PurgeRecord(rs, k) == Butlast(rs) + [rs[k].(purged := true)]
    ensures k < |rs| - 1 ==>
      Butlast(rs)[..k] == rs[..k] && PurgeRecord(rs, k) == PurgeRecord(Butlast(rs), k) + [rs[|rs| - 1]]
  {
  }

  /** Rewriting a record's flag in place changes that record and no boundary. */
  lemma {:induction false} FlagRewrite(rs: seq<Record>, k: nat)
    requires k < |rs| && rs[k].Record?
    ensures Offset(rs, k) + HEADER_SIZE <= |EncodeLog(rs)|
    ensures EncodeLog(PurgeRecord(rs, k)) == EncodeLog(rs)[Offset(rs, k) + 4 := 1]
  {
    PurgeSplit(rs, k);
    if k == |rs| - 1 {
      FlagLast(Butlast(rs), rs[k]);
    } else {
      FlagRewrite(Butlast(rs), k);
      FlagEarlier(Butlast(rs), PurgeRecord(Butlast(rs), k), rs[|rs| - 1], Offset(rs, k) + 4);
    }
  }

  lemma {:induction false} DropNothing(xs: seq<QueueIndex>, f: nat, o: nat)
    requires forall x :: x in xs ==> !AtPlace(x, f, o)
    ensures DropAt(xs, f, o) == xs
  {
    if xs != [] {
      var rest, x := xs[..|xs| - 1], xs[|xs| - 1];
      assert xs == rest + [x] && x in xs;
      DropNothing(rest, f, o);
    }
  }

  lemma {:induction false} DropBeyond(rs: seq<Record>, f: nat, o: nat)
    requires o >= |EncodeLog(rs)|
    ensures DropAt(LiveOf(rs, f), f, o) == LiveOf(rs, f)
  {
    forall x | x in LiveOf(rs, f) ensures !AtPlace(x, f, o) {
      var j := LiveRecord(rs, f, x);
    }
    DropNothing(LiveOf(rs, f), f, o);
  }

  lemma {:induction false} PurgeLast(rs: seq<Record>, r: Record, f: nat)
    requires r.Record?
    ensures LiveOf(rs + [r.(purged := true)], f) == DropAt(LiveOf(rs + [r], f), f, |EncodeLog(rs)|)
  {
    var o := |EncodeLog(rs)|;
    LogAppend(rs, r, f);
    LogAppend(rs, r.(purged := true), f);
    DropAtConcat(LiveOf(rs, f), Item(r, f, o), f, o);
    DropBeyond(rs, f, o);
    assert DropAt(Item(r, f, o), f, o) == [];
  }

  lemma {:induction false} PurgeEarlier(rs: seq<Record>, rs': seq<Record>, r: Record, f: nat, o: nat)
    requires |EncodeLog(rs')| == |EncodeLog(rs)| > o
    requires LiveOf(rs', f) == DropAt(LiveOf(rs, f), f, o)
    ensures LiveOf(rs' + [r], f) == DropAt(LiveOf(rs + [r], f), f, o)
  {
    LogAppend(rs, r, f);
    LogAppend(rs', r, f);
    DropAtConcat(LiveOf(rs, f), Item(r, f, |EncodeLog(rs)|), f, o);
    DropNothing(Item(r, f, |EncodeLog(rs)|), f, o);
  }

  /** On the side of recovery, a purged record is a dropped item. */
  lemma {:induction false} PurgeLive(rs: seq<Record>, k: nat, f: nat)
    requires k < |rs| && rs[k].Record?
    ensures LiveOf(PurgeRecord(rs, k), f) == DropAt(LiveOf(rs, f), f, Offset(rs, k))
  {
    var init, last := Butlast(rs), rs[|rs| - 1];
    PurgeSplit(rs, k);
    if k == |init| {
      PurgeLast(init, last, f);
    } else {
      PurgeLive(init, k, f);
      FlagRewrite(init, k);
      PurgeEarlier(init, PurgeRecord(init, k), last, f, Offset(rs, k));
    }
  }

  // ---------- all the files of a queue ----------

  type Files = map<nat, seq<QueueIndex>>

  /** What recovery finds in each file. */
  function FilesOf(logs: map<nat, seq<Record>>): Files {
    map f | f in logs :: LiveOf(logs[f], f)
  }

  function InFile(files: Files, f: nat): seq<QueueIndex> {
    if f in files then files[f] else []
  }

  /** What recover() reads from the files below n, in the order of their ids. */
  function LiveItems(files: Files, n: nat): seq<QueueIndex> {
    if n == 0 then [] else LiveItems(files, n - 1) + InFile(files, n - 1)
  }

  ghost predicate Located(files: Files) {
    forall f, x :: f in files && x in files[f] ==> x.fileId == f
  }

  lemma {:induction false} FilesLocated(logs: map<nat, seq<Record>>)
    ensures Located(FilesOf(logs))
  {
    forall f, x | f in logs && x in LiveOf(logs[f], f) ensures x.fileId == f {
      var k := LiveRecord(logs[f], f, x);
    }
  }

  lemma {:induction false} LiveItemsMember(files: Files, n: nat, x: QueueIndex)
    requires Located(files) && x in LiveItems(files, n)
    ensures x.fileId < n && x.fileId in files && x in files[x.fileId]
  {
    if x in LiveItems(files, n - 1) {
      LiveItemsMember(files, n - 1, x);
    }
  }

  lemma {:induction false} LiveItemsFrame(files: Files, f: nat, xs: seq<QueueIndex>, n: nat)
    requires n <= f
    ensures LiveItems(files[f := xs], n) == LiveItems(files, n)
  {
    if n > 0 {
      LiveItemsFrame(files, f, xs, n - 1);
    }
  }

  /** An append to the last file is read last. */
  lemma {:induction false} LiveItemsAppend(files: Files, f: nat, more: seq<QueueIndex>)
    ensures LiveItems(files[f := InFile(files, f) + more], f + 1) == LiveItems(files, f + 1) + more
  {
    LiveItemsFrame(files, f, InFile(files, f) + more, f);
    assert LiveItems(files, f) + (InFile(files, f) + more) == (LiveItems(files, f) + InFile(files, f)) + more;
  }

  lemma {:induction false} InFilePurge(files: Files, f: nat, o: nat)
    requires Located(files) && f in files
    ensures forall n :: InFile(files[f := DropAt(files[f], f, o)], n) == DropAt(InFile(files, n), f, o)
  {
    forall n | n != f && n in files ensures DropAt(files[n], f, o) == files[n] {
      DropNothing(files[n], f, o);
    }
  }

  lemma {:induction false} LiveItemsDrop(files: Files, files': Files, n: nat, f: nat, o: nat)
    requires forall m :: 0 <= m < n ==> InFile(files', m) == DropAt(InFile(files, m), f, o)
    ensures LiveItems(files', n) == DropAt(LiveItems(files, n), f, o)
  {
    if n > 0 {
      LiveItemsDrop(files, files', n - 1, f, o);
      DropAtConcat(LiveItems(files, n - 1), InFile(files, n - 1), f, o);
    }
  }

  lemma {:induction false} LiveItemsPurge(files: Files, n: nat, f: nat, o: nat)
    requires Located(files) && f in files
    ensures LiveItems(files[f := DropAt(files[f], f, o)], n) == DropAt(LiveItems(files, n), f, o)
  {
    InFilePurge(files, f, o);
    LiveItemsDrop(files, files[f := DropAt(files[f], f, o)], n, f, o);
  }

  lemma {:induction false} LiveItemsRemove(files: Files, n: nat, f: nat)
    requires InFile(files, f) == []
    ensures LiveItems(files - {f}, n) == LiveItems(files, n)
  {
    if n > 0 {
      LiveItemsRemove(files, n - 1, f);
    }
  }

  /** The items counted in a file are all the live records of that file. */
  lemma {:induction false} LiveItemsCount(files: Files, n: nat, f: nat)
    requires Located(files)
    ensures Count(LiveItems(files, n), f) == if f < n then |InFile(files, f)| else 0
  {
    if n > 0 {
      LiveItemsCount(files, n - 1, f);
      CountConcat(LiveItems(files, n - 1), InFile(files, n - 1), f);
      CountAll(InFile(files, n - 1), n - 1, f);
    }
  }

  lemma {:induction false} CountAll(xs: seq<QueueIndex>, g: nat, f: nat)
    requires forall x :: x in xs ==> x.fileId == g
    ensures Count(xs, f) == if f == g then |xs| else 0
  {
    if xs != [] {
      assert xs[|xs| - 1] in xs;
      CountAll(xs[..|xs| - 1], g, f);
    }
  }
}
