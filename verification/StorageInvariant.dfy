/**
 What ties a queue's index, its log files and its per-file counts together, and that
 appends and purges keep it. The index enters as its plain items: nodes and purged flags
 play no part on disk.
 */
module StorageInvariant {
  import opened Bytes
  import opened QueueModel
  import opened LogFormat
  import opened Messages
  import opened Recovery

  type Logs = map<nat, seq<Record>>

  /** Recovery rebuilds these items from what it finds in the files below n. */
  ghost predicate IsRecovered(xs: seq<QueueIndex>, files: Files, n: nat) {
    Rebuild(LiveItems(files, n)) == xs
  }

  /** The same; the quantifier only keeps the definitions folded where they are not needed. */
  ghost predicate RecoveredUpTo(xs: seq<QueueIndex>, files: Files, n: nat) {
    forall m {:trigger IsRecovered(xs, files, m)} :: m == n ==> IsRecovered(xs, files, m)
  }

  ghost predicate IsRecoveredFrom(xs: seq<QueueIndex>, logs: Logs, n: nat) {
    IsRecovered(xs, FilesOf(logs), n)
  }

  /** The same of what the logs hold. */
  ghost predicate RecoveredFrom(xs: seq<QueueIndex>, logs: Logs, n: nat) {
    forall m {:trigger IsRecoveredFrom(xs, logs, m)} :: m == n ==> IsRecoveredFrom(xs, logs, m)
  }

  ghost predicate Rebuilds(xs: seq<QueueIndex>, done: seq<QueueIndex>) {
    forall items {:trigger Rebuild(items)} :: items == done ==> Rebuild(items) == xs
  }

  ghost predicate Recoverable(xs: seq<QueueIndex>, logs: Logs, currentFile: nat) {
    RecoveredFrom(xs, logs, currentFile + 1) && forall f :: f in logs ==> f <= currentFile
  }

  /** The files hold exactly the logs. */
  ghost predicate OnDisk(disk: map<nat, bytes>, logs: Logs) {
    && disk.Keys == logs.Keys
    && forall f {:trigger EncodeLog(logs[f])} :: f in logs ==> disk[f] == EncodeLog(logs[f]) && WfLog(logs[f])
  }

  /** What the scans of recovery find in each file. */
  function Scanned(disk: map<nat, bytes>): (files: Files)
    ensures files.Keys == disk.Keys
  {
    map f | f in disk :: Scan(Turns(disk[f]), f, 0)
  }

  function Used(utilization: map<nat, int>, f: nat): int {
    if f in utilization then utilization[f] else 0
  }

  /** A file's utilization is the number of items in it. */
  ghost predicate Utilized(utilization: map<nat, int>, xs: seq<QueueIndex>) {
    forall f :: Used(utilization, f) == Count(xs, f)
  }

  /** No two items are at the same place on disk. */
  ghost predicate Placed(xs: seq<QueueIndex>) {
    forall i, j :: 0 <= i < j < |xs| ==> !AtPlace(xs[j], xs[i].fileId, xs[i].offset)
  }

  ghost predicate Agree(xs: seq<QueueIndex>, logs: Logs, currentFile: nat, utilization: map<nat, int>) {
    Recoverable(xs, logs, currentFile) && Utilized(utilization, xs) && Placed(xs)
  }

  function LogOf(logs: Logs, f: nat): seq<Record> {
    if f in logs then logs[f] else []
  }

  lemma {:induction false} FilesOfUpdate(logs: Logs, f: nat, rs: seq<Record>)
    ensures FilesOf(logs[f := rs]) == FilesOf(logs)[f := LiveOf(rs, f)]
    ensures InFile(FilesOf(logs), f) == LiveOf(LogOf(logs, f), f)
  {
  }

  /** What may follow a crash: recovery reads each log as what it is. */
  ghost predicate ReadableAt(logs: Logs, f: nat) {
    Readable(LogOf(logs, f))
  }

  ghost predicate AllReadable(logs: Logs) {
    forall f {:trigger ReadableAt(logs, f)} :: ReadableAt(logs, f)
  }

  lemma {:induction false} RecoveredIs(xs: seq<QueueIndex>, logs: Logs, n: nat, items: seq<QueueIndex>)
    requires items == LiveItems(FilesOf(logs), n)
    ensures RecoveredFrom(xs, logs, n) <==> Rebuilds(xs, items)
  {
    assert Rebuild(items) == xs <==> IsRecoveredFrom(xs, logs, n);
  }

  lemma {:induction false} FoundSame(xs: seq<QueueIndex>, logs: Logs, after: Logs, m: nat, n: nat)
    requires RecoveredFrom(xs, logs, m) && LiveItems(FilesOf(after), n) == LiveItems(FilesOf(logs), m)
    ensures RecoveredFrom(xs, after, n)
  {
    RecoveredIs(xs, logs, m, LiveItems(FilesOf(logs), m));
    RecoveredIs(xs, after, n, LiveItems(FilesOf(after), n));
  }

  lemma {:induction false} LiveItemsSkip(files: Files, n: nat, m: nat)
    requires n <= m && forall f :: f in files && n <= f ==> f >= m
    ensures LiveItems(files, m) == LiveItems(files, n)
  {
    if n < m {
      LiveItemsSkip(files, n, m - 1);
      assert LiveItems(files, m - 1) + [] == LiveItems(files, m - 1);
    }
  }

  lemma {:induction false} OnDiskUpdate(disk: map<nat, bytes>, logs: Logs, f: nat, rs: seq<Record>)
    requires OnDisk(disk, logs) && WfLog(rs)
    ensures OnDisk(disk[f := EncodeLog(rs)], logs[f := rs])
  {
    assert forall g :: g in logs && g != f ==> disk[g] == EncodeLog(logs[g]);
  }

  lemma {:induction false} OnDiskRemove(disk: map<nat, bytes>, logs: Logs, f: nat)
    requires OnDisk(disk, logs)
    ensures OnDisk(disk - {f}, logs - {f})
  {
    forall g | g in logs - {f} ensures (disk - {f})[g] == EncodeLog((logs - {f})[g]) && WfLog((logs - {f})[g]) {
      assert disk[g] == EncodeLog(logs[g]);
    }
  }

  // ---------- items and records ----------

  /** Every item's offset is the start of its own live record. */
  lemma {:induction false} ItemRecord(xs: seq<QueueIndex>, logs: Logs, currentFile: nat, x: QueueIndex) returns (k: nat)
    requires Recoverable(xs, logs, currentFile) && x in xs
    ensures x.fileId in logs && k < |logs[x.fileId]|
    ensures logs[x.fileId][k].Record? && !logs[x.fileId][k].purged
    ensures x == ItemOf(logs[x.fileId][k].msg, x.fileId, x.offset, false)
    ensures x.offset == Offset(logs[x.fileId], k) < |EncodeLog(logs[x.fileId])|
  {
    assert IsRecoveredFrom(xs, logs, currentFile + 1);
    RebuildKeeps(LiveItems(FilesOf(logs), currentFile + 1), 0);
    FilesLocated(logs);
    LiveItemsMember(FilesOf(logs), currentFile + 1, x);
    k := LiveRecord(logs[x.fileId], x.fileId, x);
  }

  lemma {:induction false} LiveMember(rs: seq<Record>, f: nat, k: nat)
    requires k < |rs| && rs[k].Record? && !rs[k].purged
    ensures ItemOf(rs[k].msg, f, Offset(rs, k), false) in LiveOf(rs, f)
  {
    if k == |rs| - 1 {
      assert rs[..k] == Butlast(rs);
    } else {
      LiveMember(Butlast(rs), f, k);
      assert Butlast(rs)[..k] == rs[..k];
    }
  }

  lemma {:induction false} LiveItemsHas(files: Files, n: nat, f: nat, x: QueueIndex)
    requires f < n && f in files && x in files[f]
    ensures x in LiveItems(files, n)
  {
    if f < n - 1 {
      LiveItemsHas(files, n - 1, f, x);
    }
  }

  /** Every live record of a message is in the index, with that message's priority, id and times, at its place. */
  lemma {:induction false} MessageIndexed(xs: seq<QueueIndex>, logs: Logs, currentFile: nat, f: nat, k: nat,
          m: QMessage)
    requires Recoverable(xs, logs, currentFile) && f in logs && k < |logs[f]| && WfMessage(m)
    requires logs[f][k].Record? && !logs[f][k].purged && logs[f][k].msg == Pack(m)
    ensures NewItem(m, f, Offset(logs[f], k), false) in xs
  {
    assert IsRecoveredFrom(xs, logs, currentFile + 1);
    LiveMember(logs[f], f, k);
    ImageItem(m, f, Offset(logs[f], k), false);
    LiveItemsHas(FilesOf(logs), currentFile + 1, f, NewItem(m, f, Offset(logs[f], k), false));
    RebuildKeeps(LiveItems(FilesOf(logs), currentFile + 1), 0);
  }

  // ---------- append ----------

  /** What recovery reads after an append is what it read before, and then the new record. */
  lemma {:induction false} AppendItems(logs: Logs, currentFile: nat, r: Record, x: QueueIndex)
    requires Item(r, currentFile, |EncodeLog(LogOf(logs, currentFile))|) == [x]
    ensures LiveItems(FilesOf(logs[currentFile := LogOf(logs, currentFile) + [r]]), currentFile + 1)
         == LiveItems(FilesOf(logs), currentFile + 1) + [x]
  {
    var rs := LogOf(logs, currentFile);
    LogAppend(rs, r, currentFile);
    FilesOfUpdate(logs, currentFile, rs + [r]);
    LiveItemsAppend(FilesOf(logs), currentFile, [x]);
  }

  lemma {:induction false} RebuildNext(items: seq<QueueIndex>, x: QueueIndex)
    ensures Rebuild(items + [x]) == InsertItem(Rebuild(items), x)
  {
    assert (items + [x])[..|items|] == items;
  }

  lemma {:induction false} RebuildsAppend(xs: seq<QueueIndex>, items: seq<QueueIndex>, x: QueueIndex)
    requires Rebuilds(xs, items)
    ensures Rebuilds(InsertItem(xs, x), items + [x])
  {
    RebuildNext(items, x);
  }

  lemma {:induction false} FoundMore(xs: seq<QueueIndex>, logs: Logs, after: Logs, n: nat, x: QueueIndex)
    requires RecoveredFrom(xs, logs, n)
    requires LiveItems(FilesOf(after), n) == LiveItems(FilesOf(logs), n) + [x]
    ensures RecoveredFrom(InsertItem(xs, x), after, n)
  {
    var items := LiveItems(FilesOf(logs), n);
    RecoveredIs(xs, logs, n, items);
    RebuildsAppend(xs, items, x);
    RecoveredIs(InsertItem(xs, x), after, n, items + [x]);
  }

  lemma {:induction false} MoreRecoverable(xs: seq<QueueIndex>, logs: Logs, after: Logs, currentFile: nat,
          x: QueueIndex)
    requires Recoverable(xs, logs, currentFile) && forall f :: f in after ==> f <= currentFile
    requires LiveItems(FilesOf(after), currentFile + 1) == LiveItems(FilesOf(logs), currentFile + 1) + [x]
    ensures Recoverable(InsertItem(xs, x), after, currentFile)
  {
    FoundMore(xs, logs, after, currentFile + 1, x);
  }

  lemma {:induction false} AppendRecoverable(xs: seq<QueueIndex>, logs: Logs, currentFile: nat, r: Record,
          x: QueueIndex)
    requires Recoverable(xs, logs, currentFile)
    requires Item(r, currentFile, |EncodeLog(LogOf(logs, currentFile))|) == [x]
    ensures Recoverable(InsertItem(xs, x), logs[currentFile := LogOf(logs, currentFile) + [r]], currentFile)
  {
    AppendItems(logs, currentFile, r, x);
    MoreRecoverable(xs, logs, logs[currentFile := LogOf(logs, currentFile) + [r]], currentFile, x);
  }

  lemma {:induction false} AppendUtilized(xs: seq<QueueIndex>, utilization: map<nat, int>, x: QueueIndex)
    requires Utilized(utilization, xs)
    ensures Utilized(utilization[x.fileId := Used(utilization, x.fileId) + 1], InsertItem(xs, x))
  {
    forall f ensures Count(InsertItem(xs, x), f) == Count(xs, f) + if x.fileId == f then 1 else 0 {
      InsertCount(xs, x, f);
    }
  }

  lemma {:induction false} AppendPlaced(xs: seq<QueueIndex>, logs: Logs, currentFile: nat, x: QueueIndex)
    requires Recoverable(xs, logs, currentFile) && Placed(xs)
    requires AtPlace(x, currentFile, |EncodeLog(LogOf(logs, currentFile))|)
    ensures Placed(InsertItem(xs, x))
  {
    forall i | 0 <= i < |xs| ensures !AtPlace(xs[i], x.fileId, x.offset) {
      var k := ItemRecord(xs, logs, currentFile, xs[i]);
    }
  }

  lemma {:induction false} AppendAgrees(xs: seq<QueueIndex>, logs: Logs, currentFile: nat, utilization: map<nat, int>,
          r: Record, x: QueueIndex)
    requires Agree(xs, logs, currentFile, utilization)
    requires Item(r, currentFile, |EncodeLog(LogOf(logs, currentFile))|) == [x]
    ensures Agree(
      InsertItem(xs, x), logs[currentFile := LogOf(logs, currentFile) + [r]], currentFile,
      utilization[currentFile := Used(utilization, currentFile) + 1])
  {
    AppendRecoverable(xs, logs, currentFile, r, x);
    AppendUtilized(xs, utilization, x);
    AppendPlaced(xs, logs, currentFile, x);
  }

  lemma {:induction false} AppendEntryAgrees(es: seq<Entry>, logs: Logs, currentFile: nat, utilization: map<nat, int>,
          r: Record, e: Entry)
    requires Agree(Plain(es), logs, currentFile, utilization)
    requires Item(r, currentFile, |EncodeLog(LogOf(logs, currentFile))|) == [e.item.(purged := false)]
    ensures Agree(
      Plain(Insert(es, e)), logs[currentFile := LogOf(logs, currentFile) + [r]], currentFile,
      utilization[currentFile := Used(utilization, currentFile) + 1])
  {
    AppendAgrees(Plain(es), logs, currentFile, utilization, r, e.item.(purged := false));
    PlainInsert(es, e);
  }

  lemma {:induction false} AppendOnDisk(disk: map<nat, bytes>, logs: Logs, f: nat, r: Record)
    requires OnDisk(disk, logs) && WfRecord(r)
    ensures var file := if f in disk then disk[f] else [];
      && file == EncodeLog(LogOf(logs, f))
      && OnDisk(disk[f := file + Encode(r)], logs[f := LogOf(logs, f) + [r]])
  {
    var rs := LogOf(logs, f);
    LogAppend(rs, r, f);
    assert EncodeLog(rs) == if f in disk then disk[f] else [];
    OnDiskUpdate(disk, logs, f, rs + [r]);
  }

  /** The next file id changes nothing that recovery reads. */
  lemma {:induction false} RotateAgrees(xs: seq<QueueIndex>, logs: Logs, currentFile: nat, utilization: map<nat, int>)
    requires Agree(xs, logs, currentFile, utilization)
    ensures Agree(xs, logs, currentFile + 1, utilization)
  {
    LiveItemsSkip(FilesOf(logs), currentFile + 1, currentFile + 2);
    FoundSame(xs, logs, logs, currentFile + 1, currentFile + 2);
  }

  // ---------- purge ----------

  /** What recovery reads after a purge is what it read before, without that record. */
  lemma {:induction false} PurgeItems(logs: Logs, n: nat, f: nat, k: nat)
    requires f in logs && k < |logs[f]| && logs[f][k].Record?
    ensures LiveItems(FilesOf(logs[f := PurgeRecord(logs[f], k)]), n) ==
      DropAt(LiveItems(FilesOf(logs), n), f, Offset(logs[f], k))
  {
    FilesLocated(logs);
    LiveItemsPurge(FilesOf(logs), n, f, Offset(logs[f], k));
    PurgeLive(logs[f], k, f);
    FilesOfUpdate(logs, f, PurgeRecord(logs[f], k));
  }

  lemma {:induction false} RebuildsDrop(xs: seq<QueueIndex>, items: seq<QueueIndex>, f: nat, o: nat)
    requires Rebuilds(xs, items)
    ensures Rebuilds(DropAt(xs, f, o), DropAt(items, f, o))
  {
    RebuildDrop(items, f, o);
  }

  lemma {:induction false} PurgeRecoverable(xs: seq<QueueIndex>, logs: Logs, currentFile: nat, f: nat, k: nat)
    requires Recoverable(xs, logs, currentFile) && f in logs && k < |logs[f]| && logs[f][k].Record?
    ensures Recoverable(DropAt(xs, f, Offset(logs[f], k)), logs[f := PurgeRecord(logs[f], k)], currentFile)
  {
    var items, o := LiveItems(FilesOf(logs), currentFile + 1), Offset(logs[f], k);
    RecoveredIs(xs, logs, currentFile + 1, items);
    RebuildsDrop(xs, items, f, o);
    PurgeItems(logs, currentFile + 1, f, k);
    RecoveredIs(DropAt(xs, f, o), logs[f := PurgeRecord(logs[f], k)], currentFile + 1, DropAt(items, f, o));
  }

  lemma {:induction false} EmptyFile(xs: seq<QueueIndex>, logs: Logs, currentFile: nat, f: nat)
    requires Recoverable(xs, logs, currentFile) && Count(xs, f) == 0
    ensures InFile(FilesOf(logs), f) == []
  {
    var files := FilesOf(logs);
    assert IsRecoveredFrom(xs, logs, currentFile + 1);
    RebuildKeeps(LiveItems(files, currentFile + 1), f);
    FilesLocated(logs);
    LiveItemsCount(files, currentFile + 1, f);
    assert f in logs ==> f < currentFile + 1;
  }

  lemma {:induction false} FilesOfRemove(logs: Logs, f: nat)
    ensures FilesOf(logs - {f}) == FilesOf(logs) - {f}
  {
  }

  /** When no item of a file is left, recovery finds nothing in it, and it can go. */
  lemma {:induction false} RemoveFileRecoverable(xs: seq<QueueIndex>, logs: Logs, currentFile: nat, f: nat)
    requires Recoverable(xs, logs, currentFile) && Count(xs, f) == 0
    ensures Recoverable(xs, logs - {f}, currentFile)
  {
    EmptyFile(xs, logs, currentFile, f);
    FilesOfRemove(logs, f);
    LiveItemsRemove(FilesOf(logs), currentFile + 1, f);
    FoundSame(xs, logs, logs - {f}, currentFile + 1, currentFile + 1);
  }

  lemma {:induction false} NothingAt(xs: seq<QueueIndex>, f: nat, o: nat)
    requires forall i :: 0 <= i < |xs| ==> !AtPlace(xs[i], f, o)
    ensures DropAt(xs, f, o) == xs
  {
    if xs != [] {
      NothingAt(xs[..|xs| - 1], f, o);
    }
  }

  lemma {:induction false} DropBetween(a: seq<QueueIndex>, x: QueueIndex, b: seq<QueueIndex>)
    requires forall i :: 0 <= i < |a| ==> !AtPlace(a[i], x.fileId, x.offset)
    requires forall i :: 0 <= i < |b| ==> !AtPlace(b[i], x.fileId, x.offset)
    ensures DropAt(a + [x] + b, x.fileId, x.offset) == a + b
  {
    DropSplice(a, x, b, x.fileId, x.offset);
    NothingAt(a, x.fileId, x.offset);
    NothingAt(b, x.fileId, x.offset);
    assert a + [] == a;
  }

  /** Dropping what is at an item's place drops that item alone. */
  lemma {:induction false} DropOne(xs: seq<QueueIndex>, k: nat)
    requires k < |xs| && Placed(xs)
    ensures DropAt(xs, xs[k].fileId, xs[k].offset) == xs[..k] + xs[k + 1..]
  {
    assert xs == xs[..k] + [xs[k]] + xs[k + 1..];
    DropBetween(xs[..k], xs[k], xs[k + 1..]);
  }

  lemma {:induction false} SpliceCount(a: seq<QueueIndex>, x: QueueIndex, b: seq<QueueIndex>, f: nat)
    ensures Count(a + [x] + b, f) == Count(a + b, f) + if x.fileId == f then 1 else 0
  {
    CountConcat(a, [x], f);
    CountConcat(a + [x], b, f);
    CountConcat(a, b, f);
    assert Count([x], f) == if x.fileId == f then 1 else 0;
  }

  lemma {:induction false} PurgeUtilized(xs: seq<QueueIndex>, utilization: map<nat, int>, k: nat)
    requires Utilized(utilization, xs) && k < |xs|
    ensures var f, xs' := xs[k].fileId, xs[..k] + xs[k + 1..];
      && f in utilization && utilization[f] - 1 == Count(xs', f)
      && Utilized(utilization[f := utilization[f] - 1], xs')
  {
    var f, xs' := xs[k].fileId, xs[..k] + xs[k + 1..];
    assert xs == xs[..k] + [xs[k]] + xs[k + 1..];
    SpliceCount(xs[..k], xs[k], xs[k + 1..], f);
    assert Used(utilization, f) == Count(xs, f);
    var after := utilization[f := utilization[f] - 1];
    forall g ensures Used(after, g) == Count(xs', g) {
      SpliceCount(xs[..k], xs[k], xs[k + 1..], g);
      assert Used(utilization, g) == Count(xs, g);
    }
  }

  function PurgedLogs(logs: Logs, f: nat, k: nat, gone: bool): Logs
    requires f in logs && k < |logs[f]| && logs[f][k].Record?
  {
    var purged := logs[f := PurgeRecord(logs[f], k)];
    if gone then purged - {f} else purged
  }

  /** Purging item i's record, counting it off and erasing it keeps the agreement; a file goes with its last item. */
  lemma {:induction false} PurgeAgrees(xs: seq<QueueIndex>, logs: Logs, currentFile: nat, utilization: map<nat, int>,
          i: nat, k: nat)
    requires Agree(xs, logs, currentFile, utilization) && i < |xs|
    requires xs[i].fileId in logs && k < |logs[xs[i].fileId]| && logs[xs[i].fileId][k].Record?
    requires Offset(logs[xs[i].fileId], k) == xs[i].offset
    ensures var f, xs' := xs[i].fileId, xs[..i] + xs[i + 1..];
      && f in utilization && utilization[f] - 1 == Count(xs', f)
      && Agree(xs', PurgedLogs(logs, f, k, utilization[f] - 1 <= 0), currentFile, utilization[f := utilization[f] - 1])
  {
    var f, xs' := xs[i].fileId, xs[..i] + xs[i + 1..];
    DropOne(xs, i);
    PurgeRecoverable(xs, logs, currentFile, f, k);
    PurgeUtilized(xs, utilization, i);
    if Count(xs', f) == 0 {
      RemoveFileRecoverable(xs', logs[f := PurgeRecord(logs[f], k)], currentFile, f);
    }
  }

  // ---------- the flag on disk ----------

  /** What statMessage writes over the header that it has read. */
  function SetFlag(file: bytes, o: nat): bytes
    requires o + HEADER_SIZE <= |file|
  {
    var hdr := file[o..o + HEADER_SIZE];
    file[..o] + hdr[4 := Flag(true)] + file[o + HEADER_SIZE..]
  }

  lemma {:induction false} HeaderOfRecord(r: Record, rest: bytes)
    requires r.Record?
    ensures |Encode(r) + rest| >= HEADER_SIZE && HeaderAt((Encode(r) + rest)[..HEADER_SIZE])
  {
    var file := Encode(r) + rest;
    MarkerBytes(r);
    LE32RoundTrip(MESSAGE_MARKER);
    assert file[..HEADER_SIZE][..4] == Encode(r)[..4];
  }

  lemma {:induction false} HeaderAtRecord(rs: seq<Record>, k: nat)
    requires k < |rs| && rs[k].Record?
    ensures var file, o := EncodeLog(rs), Offset(rs, k);
      o + HEADER_SIZE <= |file| && HeaderAt(file[o..o + HEADER_SIZE])
  {
    var file, o := EncodeLog(rs), Offset(rs, k);
    var rest := RecordAt(rs, [], k);
    Regroup(file, [], []);
    HeaderOfRecord(rs[k], rest);
    SliceOf(file, o, HEADER_SIZE);
  }

  lemma {:induction false} SliceOf(file: bytes, o: nat, n: nat)
    requires o <= |file|
    requires |file[o..]| >= n
    ensures file[o..o + n] == file[o..][..n]
  {
  }

  lemma {:induction false} LengthField(purged: bool, length: uint32, rest: bytes)
    ensures FromLE32((Header(purged, length) + rest)[5..9]) == length
  {
    LE32RoundTrip(length);
    assert (Header(purged, length) + rest)[5..9] == LE32(length);
  }

  lemma {:induction false} RecordParts(r: Record, rest: bytes)
    requires r.Record? && IsMsg(r.msg) && |r.body| < TWO_31
    ensures var file, n := Encode(r) + rest, HEADER_SIZE + MSG_SIZE;
      && FromLE32(file[5..9]) == MSG_SIZE + |r.body|
      && file[HEADER_SIZE..n] == r.msg && file[n..][..|r.body|] == r.body
  {
    var length := MSG_SIZE + |r.body|;
    EncodeSplit(r, rest);
    Parts(Header(r.purged, length), r.msg, r.body, rest);
    LengthField(r.purged, length, r.msg + r.body + rest);
  }

  /** The bytes from an item's offset on: its record's length, image and body. */
  lemma {:induction false} BodyAtRecord(rs: seq<Record>, k: nat)
    requires k < |rs| && rs[k].Record? && WfRecord(rs[k])
    ensures Offset(rs, k) <= |EncodeLog(rs)|
    ensures var file, n := EncodeLog(rs)[Offset(rs, k)..], HEADER_SIZE + MSG_SIZE;
      && n + |rs[k].body| <= |file| && FromLE32(file[5..9]) == MSG_SIZE + |rs[k].body|
      && file[HEADER_SIZE..n] == rs[k].msg && file[n..][..|rs[k].body|] == rs[k].body
  {
    var rest := RecordAt(rs, [], k);
    assert EncodeLog(rs) + [] == EncodeLog(rs);
    RecordParts(rs[k], rest);
  }

  lemma {:induction false} SetFlagIs(file: bytes, o: nat)
    requires o + HEADER_SIZE <= |file|
    ensures SetFlag(file, o) == file[o + 4 := 1]
  {
  }

  lemma {:induction false} SetFlagPurges(rs: seq<Record>, k: nat)
    requires k < |rs| && rs[k].Record?
    ensures Offset(rs, k) + HEADER_SIZE <= |EncodeLog(rs)|
    ensures SetFlag(EncodeLog(rs), Offset(rs, k)) == EncodeLog(PurgeRecord(rs, k))
    ensures WfLog(rs) ==> WfLog(PurgeRecord(rs, k))
  {
    FlagRewrite(rs, k);
    SetFlagIs(EncodeLog(rs), Offset(rs, k));
  }

  /** statMessage finds the record of any item, and its write purges exactly that record. */
  lemma {:induction false} StatSucceeds(xs: seq<QueueIndex>, logs: Logs, disk: map<nat, bytes>, currentFile: nat,
          x: QueueIndex) returns (k: nat)
    requires Recoverable(xs, logs, currentFile) && x in xs && OnDisk(disk, logs)
    ensures x.fileId in logs && k < |logs[x.fileId]| && Offset(logs[x.fileId], k) == x.offset
    ensures logs[x.fileId][k].Record?
    ensures x.fileId in disk && x.offset + HEADER_SIZE <= |disk[x.fileId]|
    ensures HeaderAt(disk[x.fileId][x.offset..x.offset + HEADER_SIZE])
    ensures OnDisk(
      disk[x.fileId := SetFlag(disk[x.fileId], x.offset)],
      logs[x.fileId := PurgeRecord(logs[x.fileId], k)])
  {
    k := ItemRecord(xs, logs, currentFile, x);
    HeaderAtRecord(logs[x.fileId], k);
    SetFlagPurges(logs[x.fileId], k);
    OnDiskUpdate(disk, logs, x.fileId, PurgeRecord(logs[x.fileId], k));
  }

  // ---------- the index ----------

  lemma {:induction false} InsertPosPlain(xs: seq<QueueIndex>, ys: seq<QueueIndex>, x: QueueIndex, y: QueueIndex)
    requires |xs| == |ys| && x.priority == y.priority
    requires forall i :: 0 <= i < |xs| ==> xs[i].priority == ys[i].priority
    ensures InsertPos(xs, x) == InsertPos(ys, y)
  {
    if xs != [] {
      InsertPosPlain(xs[..|xs| - 1], ys[..|ys| - 1], x, y);
    }
  }

  lemma {:induction false} PlainSplice(es: seq<Entry>, k: nat, e: Entry)
    requires k <= |es|
    ensures Plain(es[..k] + [e] + es[k..]) == Plain(es)[..k] + [e.item.(purged := false)] + Plain(es)[k..]
  {
  }

  lemma {:induction false} PlainInsert(es: seq<Entry>, e: Entry)
    ensures Plain(Insert(es, e)) == InsertItem(Plain(es), e.item.(purged := false))
  {
    InsertPosPlain(Items(es), Plain(es), e.item, e.item.(purged := false));
    PlainSplice(es, InsertPos(Items(es), e.item), e);
  }

  lemma {:induction false} PlainRemove(es: seq<Entry>, node: nat)
    requires Has(es, node)
    ensures var k := IndexOf(es, node); Plain(Remove(es, node)) == Plain(es)[..k] + Plain(es)[k + 1..]
  {
  }

  lemma {:induction false} PlainSetPurged(es: seq<Entry>, node: nat, purged: bool)
    ensures Plain(SetPurged(es, node, purged)) == Plain(es)
  {
  }

  // ---------- recovery ----------

  /** The ids below which the first k files of a listing lie. */
  function ReadUpTo(files: seq<nat>, k: nat): nat
    requires k <= |files|
  {
    if k == 0 then 0 else files[k - 1] + 1
  }

  /** f is the first file at or above n. */
  ghost predicate NextFile(ids: set<nat>, n: nat, f: nat) {
    n <= f && f in ids && forall g :: g in ids && n <= g ==> f <= g
  }

  ghost predicate Listed(files: seq<nat>, ids: set<nat>, k: nat)
    requires k < |files|
  {
    NextFile(ids, ReadUpTo(files, k), files[k])
  }

  /** The files of a directory sorted by id: each is the first behind those before it, and none is left over. */
  ghost predicate Listing(files: seq<nat>, ids: set<nat>) {
    && (forall k {:trigger Listed(files, ids, k)} :: 0 <= k < |files| ==> Listed(files, ids, k))
    && (forall f :: f in ids ==> f < ReadUpTo(files, |files|))
  }

  lemma {:induction false} ListingNext(files: seq<nat>, ids: set<nat>, k: nat)
    requires Listing(files, ids) && k < |files|
    ensures NextFile(ids, ReadUpTo(files, k), files[k]) && files[k] in ids && ReadUpTo(files, k + 1) == files[k] + 1
  {
    assert Listed(files, ids, k);
  }

  /** Recovery does not depend on where file ids have got to: it gives one result. */
  lemma {:induction false} RecoveryUnique(xs: seq<QueueIndex>, ys: seq<QueueIndex>, logs: Logs, m: nat, n: nat)
    requires Recoverable(xs, logs, m) && Recoverable(ys, logs, n)
    ensures xs == ys
  {
    if m <= n {
      LiveItemsSkip(FilesOf(logs), m + 1, n + 1);
      FoundSame(xs, logs, logs, m + 1, n + 1);
      FoundOne(xs, ys, logs, n + 1);
    } else {
      LiveItemsSkip(FilesOf(logs), n + 1, m + 1);
      FoundSame(ys, logs, logs, n + 1, m + 1);
      FoundOne(xs, ys, logs, m + 1);
    }
  }

  lemma {:induction false} FoundOne(xs: seq<QueueIndex>, ys: seq<QueueIndex>, logs: Logs, n: nat)
    requires RecoveredFrom(xs, logs, n) && RecoveredFrom(ys, logs, n)
    ensures xs == ys
  {
    assert IsRecoveredFrom(xs, logs, n) && IsRecoveredFrom(ys, logs, n);
  }

  /** Enqueueing the next item found. */
  lemma {:induction false} RebuildsNext(es: seq<Entry>, done: seq<QueueIndex>, e: Entry)
    requires Rebuilds(Plain(es), done) && !e.item.purged
    ensures Rebuilds(Plain(Insert(es, e)), done + [e.item])
  {
    PlainInsert(es, e);
    RebuildsAppend(Plain(es), done, e.item);
  }

  lemma {:induction false} RecoverStep(es: seq<Entry>, utilization: map<nat, int>, done: seq<QueueIndex>, e: Entry)
    requires Rebuilds(Plain(es), done) && Utilized(utilization, Plain(es)) && !e.item.purged
    ensures var f := e.item.fileId;
      && Rebuilds(Plain(Insert(es, e)), done + [e.item])
      && Utilized(utilization[f := Used(utilization, f) + 1], Plain(Insert(es, e)))
  {
    RebuildsNext(es, done, e);
    PlainInsert(es, e);
    AppendUtilized(Plain(es), utilization, e.item);
  }

  lemma {:induction false} RecoveredItems(xs: seq<QueueIndex>, files: Files, n: nat)
    requires RecoveredUpTo(xs, files, n)
    ensures Rebuilds(xs, LiveItems(files, n))
  {
    assert IsRecovered(xs, files, n);
  }

  lemma {:induction false} RecoveredNone(files: Files)
    ensures RecoveredUpTo([], files, 0)
  {
  }

  lemma {:induction false} ScanShown(sts: seq<Step>, f: nat, o: nat)
    ensures forall i :: 0 <= i < |Scan(sts, f, o)| ==> !Scan(sts, f, o)[i].purged
    decreases |sts| - o
  {
    if o < |sts| && sts[o].Skip? {
      ScanShown(sts, f, o + sts[o].size);
    }
  }

  /** Reading file f after the files below n. */
  lemma {:induction false} RecoveredNext(xs: seq<QueueIndex>, files: Files, n: nat, f: nat)
    requires NextFile(files.Keys, n, f) && Rebuilds(xs, LiveItems(files, n) + files[f])
    ensures RecoveredUpTo(xs, files, f + 1)
  {
    LiveItemsSkip(files, n, f);
    assert LiveItems(files, f + 1) == LiveItems(files, n) + files[f];
    assert IsRecovered(xs, files, f + 1);
  }

  /** Behind the last file there is nothing left to read. */
  lemma {:induction false} RecoveredEnd(xs: seq<QueueIndex>, files: Files, n: nat, m: nat)
    requires RecoveredUpTo(xs, files, n) && n <= m && forall g :: g in files ==> g < n
    ensures RecoveredUpTo(xs, files, m)
  {
    LiveItemsSkip(files, n, m);
    assert IsRecovered(xs, files, n);
  }

  /** Readable logs are found as what they are. */
  lemma {:induction false} ScannedLogs(disk: map<nat, bytes>, logs: Logs)
    requires OnDisk(disk, logs) && AllReadable(logs)
    ensures Scanned(disk) == FilesOf(logs)
  {
    forall f | f in logs ensures Scan(Turns(disk[f]), f, 0) == LiveOf(logs[f], f) {
      assert ReadableAt(logs, f);
      assert disk[f] == EncodeLog(logs[f]);
      ScanReadable(logs[f], f);
    }
  }

  lemma {:induction false} RecoveredFiles(xs: seq<QueueIndex>, logs: Logs, files: Files, n: nat)
    requires RecoveredUpTo(xs, files, n) && files == FilesOf(logs)
    ensures RecoveredFrom(xs, logs, n)
  {
    assert IsRecovered(xs, files, n);
  }

  /** What recovery has found in readable logs agrees with them. */
  lemma {:induction false} RecoveredAgrees(xs: seq<QueueIndex>, disk: map<nat, bytes>, logs: Logs, currentFile: nat,
      utilization: map<nat, int>)
    requires RecoveredUpTo(xs, Scanned(disk), currentFile + 1) && Utilized(utilization, xs)
    requires forall f :: f in disk ==> f <= currentFile
    requires OnDisk(disk, logs) && AllReadable(logs)
    ensures Agree(xs, logs, currentFile, utilization)
  {
    ScannedLogs(disk, logs);
    RecoveredFiles(xs, logs, Scanned(disk), currentFile + 1);
    RecoveredPlaced(xs, logs, currentFile);
  }

  lemma {:induction false} LiveOfPlaced(rs: seq<Record>, f: nat)
    ensures Placed(LiveOf(rs, f))
  {
    if rs != [] {
      var xs, n := LiveOf(Butlast(rs), f), |EncodeLog(Butlast(rs))|;
      LiveOfPlaced(Butlast(rs), f);
      forall i | 0 <= i < |xs| ensures xs[i].offset < n {
        var k := LiveRecord(Butlast(rs), f, xs[i]);
      }
    }
  }

  lemma {:induction false} PlacedConcat(a: seq<QueueIndex>, b: seq<QueueIndex>, f: nat)
    requires Placed(a) && Placed(b)
    requires (forall i :: 0 <= i < |a| ==> a[i].fileId < f) && (forall i :: 0 <= i < |b| ==> b[i].fileId == f)
    ensures Placed(a + b)
  {
  }

  lemma {:induction false} LiveItemsPlaced(logs: Logs, n: nat)
    ensures Placed(LiveItems(FilesOf(logs), n))
  {
    if n > 0 {
      var a, b := LiveItems(FilesOf(logs), n - 1), InFile(FilesOf(logs), n - 1);
      LiveItemsPlaced(logs, n - 1);
      FilesLocated(logs);
      LiveOfPlaced(LogOf(logs, n - 1), n - 1);
      forall i | 0 <= i < |a| ensures a[i].fileId < n - 1 {
        LiveItemsMember(FilesOf(logs), n - 1, a[i]);
      }
      assert forall i :: 0 <= i < |b| ==> b[i] in b && b[i].fileId == n - 1;
      PlacedConcat(a, b, n - 1);
    }
  }

  lemma {:induction false} InsertPlaced(xs: seq<QueueIndex>, x: QueueIndex)
    requires Placed(xs) && forall y :: y in xs ==> !AtPlace(y, x.fileId, x.offset)
    ensures Placed(InsertItem(xs, x))
  {
    assert forall i :: 0 <= i < |xs| ==> xs[i] in xs;
  }

  lemma {:induction false} RebuildPlaced(items: seq<QueueIndex>)
    requires Placed(items)
    ensures Placed(Rebuild(items))
  {
    if items != [] {
      var rest, x := items[..|items| - 1], items[|items| - 1];
      RebuildPlaced(rest);
      RebuildKeeps(rest, 0);
      forall y | y in rest ensures !AtPlace(y, x.fileId, x.offset) {
        var i :| 0 <= i < |rest| && rest[i] == y;
        assert items[i] == y;
      }
      InsertPlaced(Rebuild(rest), x);
    }
  }

  lemma {:induction false} RecoveredPlaced(xs: seq<QueueIndex>, logs: Logs, currentFile: nat)
    requires Recoverable(xs, logs, currentFile)
    ensures Placed(xs)
  {
    assert IsRecoveredFrom(xs, logs, currentFile + 1);
    LiveItemsPlaced(logs, currentFile + 1);
    RebuildPlaced(LiveItems(FilesOf(logs), currentFile + 1));
  }

  // ---------- crashes ----------

  /** A crash leaves a log as it is, or the beginning of one more record behind it. */
  ghost predicate CrashedAt(logs: Logs, after: Logs, f: nat) {
    LogOf(after, f) == LogOf(logs, f) || exists rest :: LogOf(after, f) == LogOf(logs, f) + [Torn(rest)]
  }

  ghost predicate Crashed(logs: Logs, after: Logs) {
    forall f {:trigger CrashedAt(logs, after, f)} :: CrashedAt(logs, after, f)
  }

  lemma {:induction false} CrashedFile(logs: Logs, after: Logs, f: nat)
    requires CrashedAt(logs, after, f)
    ensures InFile(FilesOf(after), f) == InFile(FilesOf(logs), f)
  {
    if LogOf(after, f) != LogOf(logs, f) {
      var rest :| LogOf(after, f) == LogOf(logs, f) + [Torn(rest)];
      LogAppend(LogOf(logs, f), Torn(rest), f);
    }
  }

  lemma {:induction false} LiveItemsSame(files: Files, files': Files, n: nat)
    requires forall f :: InFile(files, f) == InFile(files', f)
    ensures LiveItems(files, n) == LiveItems(files', n)
  {
    if n > 0 {
      LiveItemsSame(files, files', n - 1);
    }
  }

  lemma {:induction false} CrashedItems(logs: Logs, after: Logs, m: nat, n: nat)
    requires Crashed(logs, after) && m <= n && forall f :: f in logs ==> f < m
    ensures LiveItems(FilesOf(after), n) == LiveItems(FilesOf(logs), m)
  {
    forall f ensures InFile(FilesOf(after), f) == InFile(FilesOf(logs), f) {
      assert CrashedAt(logs, after, f);
      CrashedFile(logs, after, f);
    }
    LiveItemsSkip(FilesOf(logs), m, n);
    LiveItemsSame(FilesOf(after), FilesOf(logs), n);
  }

  /** A crash changes nothing that recovery reads. */
  lemma {:induction false} CrashKeeps(xs: seq<QueueIndex>, logs: Logs, after: Logs, m: nat, n: nat)
    requires Recoverable(xs, logs, m) && Crashed(logs, after) && m <= n && forall f :: f in after ==> f <= n
    ensures Recoverable(xs, after, n)
  {
    assert RecoveredFrom(xs, after, n + 1) by {
      CrashedItems(logs, after, m + 1, n + 1);
      FoundSame(xs, logs, after, m + 1, n + 1);
    }
  }

  /** So recovery before and after a crash gives the same items. */
  lemma {:induction false} SameAfterCrash(xs: seq<QueueIndex>, ys: seq<QueueIndex>, logs: Logs, after: Logs,
      m: nat, n: nat)
    requires Recoverable(xs, logs, m) && Recoverable(ys, after, n) && Crashed(logs, after)
    ensures xs == ys
  {
    var k := if m <= n then n else m;
    CrashKeeps(xs, logs, after, m, k);
    RecoveryUnique(xs, ys, after, k, n);
  }

  lemma {:induction false} AppendReadable(logs: Logs, f: nat, r: Record)
    requires AllReadable(logs) && r.Record? && WfRecord(r)
    ensures AllReadable(logs[f := LogOf(logs, f) + [r]]) <==> WholeLog(LogOf(logs, f))
  {
    var after := logs[f := LogOf(logs, f) + [r]];
    assert Butlast(LogOf(logs, f) + [r]) == LogOf(logs, f);
    assert ReadableAt(after, f) <==> WholeLog(LogOf(logs, f));
    forall g | g != f ensures ReadableAt(after, g) {
      assert ReadableAt(logs, g);
    }
  }

  lemma {:induction false} PurgeReadable(logs: Logs, f: nat, k: nat)
    requires AllReadable(logs) && f in logs && k < |logs[f]| && logs[f][k].Record?
    ensures AllReadable(logs[f := PurgeRecord(logs[f], k)])
  {
    var after := logs[f := PurgeRecord(logs[f], k)];
    forall g ensures ReadableAt(after, g) {
      assert ReadableAt(logs, g);
    }
  }

  lemma {:induction false} RemoveReadable(logs: Logs, f: nat)
    requires AllReadable(logs)
    ensures AllReadable(logs - {f})
  {
    forall g ensures ReadableAt(logs - {f}, g) {
      assert ReadableAt(logs, g);
    }
  }
}
