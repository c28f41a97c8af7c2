/**
 One message queue: the index in memory, the handles on it, and the log files on disk
 (QStorage.cpp).

 `Valid` says, among other things, that the unpurged records in the files rebuild the index;
 every public method keeps it, so it holds after any run of operations. `Restartable` says
 that recovery reads the files as just those records; only an append behind a record that a
 crash has torn ends that. What a method does to the index and the handles is stated with the
 functions of QueueOps.
 */
module Storage {
  import opened Bytes
  import opened QueueModel
  import opened QueueOps
  import opened LogFormat
  import opened Messages
  import opened Recovery
  import opened StorageInvariant

  class QStorage {
    var index: seq<Entry>
    var nextNode: nat
    var cursors: map<Handle, CursorVal>
    var fileUtilization: map<nat, int>
    var currentFileId: nat
    const maxFileSize: nat
    var hasTTL: bool
    var disk: map<nat, bytes>
    ghost var logs: Logs

    ghost function Abs(): Queue
      reads this`index, this`cursors, this`nextNode
    {
      Queue(index, cursors, nextNode)
    }

    /** Files, index and counts agree. */
    ghost predicate Stored()
      reads this`index, this`logs, this`currentFileId, this`fileUtilization, this`disk
    {
      Agree(Plain(index), logs, currentFileId, fileUtilization) && OnDisk(disk, logs)
    }

    ghost predicate Valid()
      reads this
    {
      Wf(Abs()) && Stored()
    }

    /** What recovery makes of the files is what the logs hold. */
    ghost predicate Restartable()
      reads this`logs
    {
      AllReadable(logs)
    }

    // ---------- recovery ----------

    /** While recovering, the index is visible, and what is in it is counted. */
    ghost predicate Loading()
      reads this`index, this`nextNode, this`fileUtilization, this`hasTTL
    {
      Loaded(index, nextNode, hasTTL) && Utilized(fileUtilization, Plain(index))
    }

    /** The part of recover_file for one message found. */
    method AddRecovered(x: QueueIndex, ghost done: seq<QueueIndex>)
      requires Loading() && Rebuilds(Plain(index), done) && !x.purged
      modifies this`index, this`nextNode, this`fileUtilization, this`hasTTL
      ensures Loading() && Rebuilds(Plain(index), done + [x])
    {
      var e := Entry(nextNode, x);
      LoadedNext(index, nextNode, hasTTL, x);
      RecoverStep(index, fileUtilization, done, e);
      hasTTL := hasTTL || x.ttl > 0;
      index := Insert(index, e);
      nextNode := nextNode + 1;
      fileUtilization := fileUtilization[x.fileId := Used(fileUtilization, x.fileId) + 1];
    }

    method AddAll(items: seq<QueueIndex>, ghost done: seq<QueueIndex>)
      requires Loading() && Rebuilds(Plain(index), done)
      requires forall i :: 0 <= i < |items| ==> !items[i].purged
      modifies this`index, this`nextNode, this`fileUtilization, this`hasTTL
      ensures Loading() && Rebuilds(Plain(index), done + items)
    {
      assert done + items[..0] == done;
      for j := 0 to |items|
        invariant Loading() && Rebuilds(Plain(index), done + items[..j])
      {
        assert (done + items[..j]) + [items[j]] == done + items[..j + 1];
        AddRecovered(items[j], done + items[..j]);
      }
      assert items[..|items|] == items;
    }

    /** recover_file, after the files below n. */
    method RecoverFile(f: nat, ghost n: nat)
      requires Loading() && f in disk
      requires RecoveredUpTo(Plain(index), Scanned(disk), n) && NextFile(disk.Keys, n, f)
      modifies this`index, this`nextNode, this`fileUtilization, this`hasTTL
      ensures Loading() && RecoveredUpTo(Plain(index), Scanned(disk), f + 1)
    {
      ghost var files := Scanned(disk);
      var items := ScanFile(disk[f], f);
      ScanShown(Turns(disk[f]), f, 0);
      RecoveredItems(Plain(index), files, n);
      AddAll(items, LiveItems(files, n));
      RecoveredNext(Plain(index), files, n, f);
    }

    /** The files below n have been read. */
    ghost predicate Reading(n: nat)
      reads this`index, this`nextNode, this`fileUtilization, this`hasTTL, this`disk, this`currentFileId
    {
      Loading() && RecoveredUpTo(Plain(index), Scanned(disk), n) && n <= currentFileId + 1
    }

    /** The next file, which becomes the current one. */
    method RecoverNext(files: seq<nat>, k: nat)
      requires Listing(files, disk.Keys) && k < |files| && Reading(ReadUpTo(files, k))
      modifies this`index, this`nextNode, this`fileUtilization, this`hasTTL, this`currentFileId
      ensures Reading(ReadUpTo(files, k + 1)) && currentFileId == files[k]
    {
      ListingNext(files, disk.Keys, k);
      currentFileId := files[k];
      RecoverFile(currentFileId, ReadUpTo(files, k));
    }

    /** The files of the directory listing, one after another. */
    method RecoverFiles(files: seq<nat>)
      requires Reading(0) && Listing(files, disk.Keys)
      modifies this`index, this`nextNode, this`fileUtilization, this`hasTTL, this`currentFileId
      ensures Reading(ReadUpTo(files, |files|))
      ensures currentFileId == if files == [] then old(currentFileId) else files[|files| - 1]
    {
      for k := 0 to |files|
        invariant Reading(ReadUpTo(files, k))
        invariant currentFileId == if k == 0 then old(currentFileId) else files[k - 1]
      {
        RecoverNext(files, k);
      }
    }

    /**
     recover() when a queue is opened on a directory, whatever bytes its files hold: the index
     and the counts are those of what the scans find, and all of it is visible. Files that
     hold readable logs, at most the last record of each torn, make a valid queue.
     */
    constructor Recover(disk: map<nat, bytes>, files: seq<nat>, maxFileSize: nat, ghost logs: Logs)
      requires Listing(files, disk.Keys)
      ensures Wf(Abs()) && RecoveredUpTo(Plain(index), Scanned(disk), currentFileId + 1)
      ensures Utilized(fileUtilization, Plain(index)) && forall f :: f in disk ==> f <= currentFileId
      ensures this.disk == disk && this.logs == logs && this.maxFileSize == maxFileSize && this.cursors == map[]
      ensures currentFileId == if files == [] then 0 else files[|files| - 1]
      ensures forall e :: e in index ==> !e.item.purged
      ensures hasTTL <==> exists e :: e in index && e.item.ttl > 0
      ensures OnDisk(disk, logs) && AllReadable(logs) <==> Valid() && Restartable()
    {
      index, nextNode, cursors, fileUtilization := [], 0, map[], map[];
      currentFileId, hasTTL := 0, false;
      this.maxFileSize, this.disk, this.logs := maxFileSize, disk, logs;
      new;
      RecoveredNone(Scanned(disk));
      RecoverFiles(files);
      RecoveredEnd(Plain(index), Scanned(disk), ReadUpTo(files, |files|), currentFileId + 1);
      LoadedWf(index, nextNode, hasTTL);
      if OnDisk(disk, logs) && AllReadable(logs) {
        RecoveredAgrees(Plain(index), disk, logs, currentFileId, fileUtilization);
      }
    }

    // ---------- the disk ----------

    /** statMessage(…, true): rewrites the header of the entry's record with the purged flag set. */
    method StatMessage(i: nat) returns (code: ErrorCode, ghost k: nat)
      requires Recoverable(Plain(index), logs, currentFileId) && i < |index| && OnDisk(disk, logs)
      modifies this`disk, this`logs
      ensures code == NoError && OnDisk(disk, logs)
      ensures var x := index[i].item;
        && x.fileId in old(logs) && k < |old(logs)[x.fileId]| && Offset(old(logs)[x.fileId], k) == x.offset
        && old(logs)[x.fileId][k].Record?
        && logs == old(logs)[x.fileId := PurgeRecord(old(logs)[x.fileId], k)]
      ensures old(Restartable()) ==> Restartable()
    {
      var f, o := index[i].item.fileId, index[i].item.offset;
      k := StatSucceeds(Plain(index), logs, disk, currentFileId, Plain(index)[i]);
      if Restartable() {
        PurgeReadable(logs, f, k);
      }
      code := DoesNotExist;
      if f in disk && o + HEADER_SIZE <= |disk[f]| {
        if HeaderAt(disk[f][o..o + HEADER_SIZE]) {
          disk := disk[f := SetFlag(disk[f], o)];
          logs := logs[f := PurgeRecord(logs[f], k)];
          code := NoError;
        }
      }
    }

    /** One entry less in a file; the file goes with its last entry. */
    method ReleaseFile(f: nat)
      requires OnDisk(disk, logs)
      modifies this`fileUtilization, this`disk, this`logs
      ensures OnDisk(disk, logs)
      ensures f !in old(fileUtilization) ==>
        fileUtilization == old(fileUtilization) && disk == old(disk) && logs == old(logs)
      ensures f in old(fileUtilization) ==>
        var n := old(fileUtilization)[f] - 1;
        && fileUtilization == old(fileUtilization)[f := n]
        && disk == (if n <= 0 then old(disk) - {f} else old(disk))
        && logs == (if n <= 0 then old(logs) - {f} else old(logs))
      ensures old(Restartable()) ==> Restartable()
    {
      if Restartable() {
        RemoveReadable(logs, f);
      }
      OnDiskRemove(disk, logs, f);
      if f in fileUtilization {
        fileUtilization := fileUtilization[f := fileUtilization[f] - 1];
        if fileUtilization[f] <= 0 {
          disk := disk - {f};
          logs := logs - {f};
        }
      }
    }

    /** Purges an entry's record on disk and counts it off; the file is deleted exactly when that was its last entry. */
    method PurgeStored(i: nat, ghost left: seq<QueueIndex>)
      requires Agree(Plain(index), logs, currentFileId, fileUtilization) && OnDisk(disk, logs) && i < |index|
      requires left == Plain(index)[..i] + Plain(index)[i + 1..]
      modifies this`disk, this`logs, this`fileUtilization
      ensures Agree(left, logs, currentFileId, fileUtilization) && OnDisk(disk, logs)
      ensures var f := index[i].item.fileId;
        disk.Keys == if Count(left, f) == 0 then old(disk.Keys) - {f} else old(disk.Keys)
      ensures old(Restartable()) ==> Restartable()
    {
      var f := index[i].item.fileId;
      var code, k := StatMessage(i);
      PurgeAgrees(Plain(index), old(logs), currentFileId, fileUtilization, i, k);
      if code == NoError {
        ReleaseFile(f);
      }
    }

    /** Purges an entry on disk and erases it from the index. */
    method PurgeEntry(node: nat)
      requires Stored() && Has(index, node)
      modifies this`disk, this`logs, this`fileUtilization, this`index, this`cursors
      ensures Stored()
      ensures index == Remove(old(index), node) && cursors == Invalidate(old(cursors), node)
      ensures var f := ItemAt(old(index), node).fileId;
        disk.Keys == if Count(Plain(index), f) == 0 then old(disk.Keys) - {f} else old(disk.Keys)
      ensures old(Restartable()) ==> Restartable()
    {
      PlainRemove(index, node);
      PurgeStored(IndexOf(index, node), Plain(Remove(index, node)));
      index := Remove(index, node);
      cursors := Invalidate(cursors, node);
    }

    // ---------- handles ----------

    /** One more than the last key of the handle map, or 0. */
    method NextCursorId() returns (h: Handle)
      ensures h == NextHandle(cursors.Keys)
    {
      h := 0;
      var rest := cursors.Keys;
      while rest != {}
        invariant rest <= cursors.Keys
        invariant forall x :: x in cursors && x !in rest ==> x < h
        invariant if h == 0 then rest == cursors.Keys else h - 1 in cursors
      {
        var x :| x in rest;
        if x >= h {
          h := x + 1;
        }
        rest := rest - {x};
      }
    }

    method TestCursor(h: Handle) returns (code: ErrorCode)
      ensures code == QueueOps.TestCursor(Abs(), h)
    {
      if h in cursors {
        if cursors[h].valid {
          code := if cursors[h].target != End then NoError else NoMoreMessages;
        } else {
          code := CursorInvalidated;
        }
      } else {
        code := NotOpen;
      }
    }

    method CloseCursor(h: Handle) returns (code: ErrorCode)
      requires Valid()
      modifies this`cursors
      ensures Valid() && Abs() == Close(old(Abs()), h)
      ensures code == if h in old(cursors) then NoError else NotOpen
    {
      code := if h in cursors then NoError else NotOpen;
      cursors := cursors - {h};
    }

    /** begin(), and then past the hidden entries. */
    method OpenCursor() returns (h: Handle)
      requires Valid()
      modifies this`cursors
      ensures Valid() && Abs() == QueueOps.OpenCursor(old(Abs())) && h == NextHandle(old(cursors).Keys)
    {
      OpenCursorWf(Abs());
      cursors := Retarget(cursors, First(index));
      var it, tied := SkipHidden(index);
      h := NextCursorId();
      cursors := cursors[h := CursorVal(it, true, tied)];
    }

    method AdvanceCursor(h: Handle) returns (code: ErrorCode)
      requires Valid()
      modifies this`cursors
      ensures Valid() && code == QueueOps.TestCursor(old(Abs()), h) && Abs() == QueueOps.AdvanceCursor(old(Abs()), h)
    {
      AdvanceWf(Abs(), h);
      code := TestCursor(h);
      if code == NoError {
        var node := cursors[h].target.node;
        cursors := cursors[h := CursorVal(Next(index, node), true, false)];
      }
    }

    /** Assigns one handle's cursor to another; assigned to itself it is left on no queue. */
    method CursorCopy(dst: Handle, src: Handle) returns (code: ErrorCode)
      requires Valid()
      modifies this`cursors
      ensures Valid() && (Abs(), code) == CopyCursor(old(Abs()), dst, src)
    {
      code := TestCursor(src);
      if code == NoError {
        code := TestCursor(dst);
        if code == NoError || code == NoMoreMessages {
          code := NoError;
          cursors := cursors[dst := if dst == src then CursorVal(End, false, false) else cursors[src]];
        }
      }
    }

    method SeekID(id: bytes, h: Handle) returns (code: ErrorCode)
      requires Valid()
      modifies this`cursors
      ensures Valid() && (Abs(), code) == QueueOps.SeekID(old(Abs()), id, h)
    {
      code := TestCursor(h);
      if code == NoError {
        var c := cursors[h];
        var it := SeekForward(index, c.target.node, id);
        if it == End {
          code := NoMoreMessages;
        } else {
          cursors := cursors[h := CursorVal(it, true, c.tied && it == c.target)];
        }
      }
    }

    // ---------- messages ----------

    /** Writes a record at the end of a file, creating it if need be, and counts it. */
    method AppendRecord(f: nat, r: Record) returns (offset: nat)
      requires OnDisk(disk, logs) && WfRecord(r)
      modifies this`disk, this`logs, this`fileUtilization
      ensures OnDisk(disk, logs) && disk.Keys == old(disk).Keys + {f}
      ensures offset == |EncodeLog(LogOf(old(logs), f))|
      ensures logs == old(logs)[f := LogOf(old(logs), f) + [r]]
      ensures fileUtilization == old(fileUtilization)[f := Used(old(fileUtilization), f) + 1]
    {
      var file := if f in disk then disk[f] else [];
      AppendOnDisk(disk, logs, f, r);
      offset := |file|;
      disk, logs := disk[f := file + Encode(r)], logs[f := LogOf(logs, f) + [r]];
      assert OnDisk(disk, logs);
      fileUtilization := fileUtilization[f := Used(fileUtilization, f) + 1];
    }

    /** The part of Enqueue in memory. */
    method AddEntry(item: QueueIndex) returns (h: Handle)
      requires Wf(Abs()) && item.purged
      modifies this`index, this`cursors, this`nextNode
      ensures Wf(Abs()) && Abs() == QueueOps.Enqueue(old(Abs()), item) && h == NextHandle(old(cursors).Keys)
    {
      EnqueueWf(Abs(), item);
      h := NextCursorId();
      index := Insert(index, Entry(nextNode, item));
      cursors := cursors[h := CursorVal(At(nextNode), true, false)];
      nextNode := nextNode + 1;
    }

    /** The part of Enqueue on disk: the record goes behind the last one of the current file. */
    method AppendMessage(m: QMessage, body: bytes) returns (item: QueueIndex)
      requires Stored() && WfMessage(m) && |body| < TWO_31
      modifies this`disk, this`logs, this`fileUtilization
      ensures Agree(Plain(Insert(index, Entry(nextNode, item))), logs, currentFileId, fileUtilization)
      ensures OnDisk(disk, logs)
      ensures var r, log := RecordOf(m, body), LogOf(old(logs), currentFileId);
        && item == NewItem(m, currentFileId, |EncodeLog(log)|, true)
        && logs == old(logs)[currentFileId := log + [r]]
        && disk.Keys == old(disk).Keys + {currentFileId}
    {
      var r := RecordOf(m, body);
      RecordOfWf(m, body);
      var offset := AppendRecord(currentFileId, r);
      item := NewItem(m, currentFileId, offset, true);
      AppendEntryAgrees(index, old(logs), currentFileId, old(fileUtilization), r, Entry(nextNode, item));
    }

    /** A file that has grown too large is followed by a new one. */
    method Rotate()
      requires Agree(Plain(index), logs, currentFileId, fileUtilization)
      modifies this`currentFileId
      ensures Agree(Plain(index), logs, currentFileId, fileUtilization)
      ensures currentFileId ==
        old(currentFileId) + if old(currentFileId) in disk && |disk[old(currentFileId)]| > maxFileSize then 1 else 0
    {
      if currentFileId in disk && |disk[currentFileId]| > maxFileSize {
        RotateAgrees(Plain(index), logs, currentFileId, fileUtilization);
        currentFileId := currentFileId + 1;
      }
    }

    /**
     Appends a message, and hides it in the index until its enqueue is final. What is appended
     can be recovered if and only if the current file does not end with a torn record.
     */
    method Enqueue(m: QMessage, body: bytes) returns (h: Handle)
      requires Valid() && WfMessage(m) && |body| < TWO_31
      modifies this
      ensures Valid() && h == NextHandle(old(cursors).Keys)
      ensures var r, log := RecordOf(m, body), LogOf(old(logs), old(currentFileId));
        var item := NewItem(m, old(currentFileId), |EncodeLog(log)|, true);
        && Abs() == QueueOps.Enqueue(old(Abs()), item)
        && logs == old(logs)[old(currentFileId) := log + [r]]
        && disk.Keys == old(disk).Keys + {old(currentFileId)}
        && hasTTL == (old(hasTTL) || m.ttl > 0)
      ensures old(currentFileId) in disk
      ensures currentFileId == old(currentFileId) + if |disk[old(currentFileId)]| > maxFileSize then 1 else 0
      ensures old(Restartable()) ==>
        (Restartable() <==> WholeLog(LogOf(old(logs), old(currentFileId))))
    {
      EnqueueReadable(m, body);
      var item;
      h, item := AddMessage(m, body);
      hasTTL := hasTTL || item.ttl > 0;
      Rotate();
    }

    lemma {:induction false} EnqueueReadable(m: QMessage, body: bytes)
      requires WfMessage(m) && |body| < TWO_31
      ensures Restartable() ==>
        var log := LogOf(logs, currentFileId);
        AllReadable(logs[currentFileId := log + [RecordOf(m, body)]]) <==> WholeLog(log)
    {
      RecordOfWf(m, body);
      if Restartable() {
        AppendReadable(logs, currentFileId, RecordOf(m, body));
      }
    }

    method AddMessage(m: QMessage, body: bytes) returns (h: Handle, item: QueueIndex)
      requires Valid() && WfMessage(m) && |body| < TWO_31
      modifies this`disk, this`logs, this`fileUtilization, this`index, this`cursors, this`nextNode
      ensures Valid() && h == NextHandle(old(cursors).Keys) && Abs() == QueueOps.Enqueue(old(Abs()), item)
      ensures var r, log := RecordOf(m, body), LogOf(old(logs), currentFileId);
        && item == NewItem(m, currentFileId, |EncodeLog(log)|, true)
        && logs == old(logs)[currentFileId := log + [r]]
        && disk.Keys == old(disk).Keys + {currentFileId}
    {
      item := AppendMessage(m, body);
      h := AddEntry(item);
    }

    method SetHidden(node: nat, purged: bool)
      requires Stored()
      modifies this`index
      ensures Stored() && index == SetPurged(old(index), node, purged)
    {
      PlainSetPurged(index, node, purged);
      index := SetPurged(index, node, purged);
    }

    /** FinalizeEnqueue and CancelRetrieve alike. */
    method Show(h: Handle) returns (code: ErrorCode)
      requires Valid()
      modifies this`index, this`cursors
      ensures Valid() && Abs() == Unhide(old(Abs()), h)
      ensures code == if h in old(cursors) && old(cursors)[h].valid then NoError else DoesNotExist
    {
      UnhideWf(Abs(), h);
      if h in cursors && cursors[h].valid {
        code := NoError;
        if cursors[h].target != End {
          SetHidden(cursors[h].target.node, false);
        }
        cursors := cursors - {h};
      } else {
        code := DoesNotExist;
      }
    }

    /** CancelEnqueue and FinalizeRetrieve alike: through a handle that is not on an entry nothing happens. */
    method Delete(h: Handle)
      requires Valid()
      modifies this`disk, this`logs, this`fileUtilization, this`index, this`cursors
      ensures Valid() && Abs() == Discard(old(Abs()), h)
      ensures old(Restartable()) ==> Restartable()
    {
      DiscardWf(Abs(), h);
      var code := TestCursor(h);
      if code == NoError {
        var node := cursors[h].target.node;
        PurgeEntry(node);
        cursors := cursors - {h};
      }
    }

    /** FinalizeRetrieveCursor: like Delete, but the handle stays open on the entry behind. */
    method DeleteAndAdvance(h: Handle)
      requires Valid()
      modifies this`disk, this`logs, this`fileUtilization, this`index, this`cursors
      ensures Valid() && Abs() == DiscardAndAdvance(old(Abs()), h)
      ensures old(Restartable()) ==> Restartable()
    {
      var code := TestCursor(h);
      if code == NoError {
        var node := cursors[h].target.node;
        var next := Next(index, node);
        DiscardAndAdvanceWf(Abs(), h);
        PurgeEntry(node);
        cursors := cursors[h := CursorVal(next, true, false)];
      }
    }

    /**
     peekCursor: reads the message under a handle. What it delivers is the message and body of
     the entry's own record, and the message is what the entry was made of.
     */
    method PeekCursor(h: Handle) returns (code: ErrorCode, m: QMessage, body: bytes, ghost k: nat)
      requires Valid()
      ensures code == PeekCode(Abs(), h)
      ensures code == NoError ==>
        var x := ItemAt(index, cursors[h].target.node);
        && x.fileId in logs && k < |logs[x.fileId]| && Offset(logs[x.fileId], k) == x.offset
        && WfMessage(m) && logs[x.fileId][k] == Record(false, Pack(m), body) && m.bodySize == |body|
        && x == NewItem(m, x.fileId, x.offset, false)
    {
      m, body, k := BLANK, [], 0;
      code := TestCursor(h);
      if code == NoError {
        var x := ItemAt(index, cursors[h].target.node);
        if x.purged {
          code := CursorInvalidated;
        } else {
          assert Plain(index)[IndexOf(index, cursors[h].target.node)] == x;
          k := ItemRecord(Plain(index), logs, currentFileId, x);
          BodyAtRecord(logs[x.fileId], k);
          Delivered(logs[x.fileId][k], x.fileId, x.offset);
          var file := disk[x.fileId][x.offset..];
          var length := FromLE32(file[5..9]);
          if length >= MSG_SIZE {
            m := Unpack(file[HEADER_SIZE..HEADER_SIZE + MSG_SIZE]);
            body := file[HEADER_SIZE + MSG_SIZE..][..m.bodySize];
          } else {
            code := DoesNotExist;
          }
        }
      }
    }

    method BeginRetrieve() returns (code: ErrorCode, h: Handle)
      requires Valid()
      modifies this`index, this`cursors
      ensures Valid() && (Abs(), code) == QueueOps.BeginRetrieve(old(Abs())) && h == NextHandle(old(cursors).Keys)
    {
      FirstVisibleShows(index);
      h := OpenCursor();
      code := StartRetrieve(h);
      if code != NoError {
        var closed := CloseCursor(h);
      }
    }

    /** BeginRetrieveCursor, and the second half of the other begins: hides the entry if it can be read. */
    method StartRetrieve(h: Handle) returns (code: ErrorCode)
      requires Valid()
      modifies this`index
      ensures Valid() && (Abs(), code) == BeginRetrieveCursor(old(Abs()), h)
    {
      var m, body;
      ghost var k;
      BeginRetrieveCursorWf(Abs(), h);
      code, m, body, k := PeekCursor(h);
      if code == NoError {
        SetHidden(cursors[h].target.node, true);
      }
    }

    /** As in the code, the handle stays open when the match turns out to be hidden. */
    method BeginRetrieveID(id: bytes) returns (code: ErrorCode, h: Handle)
      requires Valid()
      modifies this`index, this`cursors
      ensures Valid() && OnEntry(QueueOps.OpenCursor(old(Abs())), NextHandle(old(cursors).Keys))
      ensures (Abs(), code) == QueueOps.BeginRetrieveID(old(Abs()), id) && h == NextHandle(old(cursors).Keys)
    {
      h := OpenCursor();
      code := SeekID(id, h);
      if code == NoError {
        code := StartRetrieve(h);
      } else {
        var closed := CloseCursor(h);
      }
    }

    // ---------- expiry ----------

    /** The purge's loop body: erases the entry under the cursor or leaves it, and moves on. */
    method PassStep(it: Iter, now: int, ghost es: seq<Entry>, ghost cs: map<Handle, CursorVal>, ghost k: nat)
      returns (next: Iter)
      requires Stored() && k < |es| && it == First(es[k..]) && PassInvariant(es, cs, k, now, index, cursors, hasTTL)
      modifies this`disk, this`logs, this`fileUtilization, this`index, this`cursors, this`hasTTL
      ensures Stored() && next == First(es[k + 1..]) && PassInvariant(es, cs, k + 1, now, index, cursors, hasTTL)
      ensures old(Restartable()) ==> Restartable()
    {
      PassAt(es, cs, k, now, index, cursors, hasTTL);
      var node := it.node;
      var x := ItemAt(index, node);
      next := Next(index, node);
      if !x.purged && x.ttl > 0 {
        if now - x.timestamp >= x.ttl {
          PurgeEntry(node);
        } else {
          hasTTL := true;
        }
      }
    }

    /** One pass over the index with a cursor that moves on, or is taken past an entry as it is erased. */
    method PurgePass(now: int)
      requires Stored() && Unique(index)
      modifies this`disk, this`logs, this`fileUtilization, this`index, this`cursors, this`hasTTL
      ensures Stored() && index == Unexpired(old(index), now) && hasTTL == TTLPending(index)
      ensures cursors == InvalidateSet(Retarget(old(cursors), First(old(index))), ExpiredNodes(old(index), now))
      ensures old(Restartable()) ==> Restartable()
    {
      ghost var es, cs, k := index, Retarget(cursors, First(index)), 0;
      PurgeStart(es, cs, now);
      hasTTL := false;
      cursors := Retarget(cursors, First(index));
      var it := First(index);
      while it != End
        invariant k <= |es| && it == First(es[k..]) && PassInvariant(es, cs, k, now, index, cursors, hasTTL)
        invariant Stored() && (old(Restartable()) ==> Restartable())
        decreases |es| - k
      {
        it := PassStep(it, now, es, cs, k);
        k := k + 1;
      }
      PassEnd(es, cs, k, now, index, cursors, hasTTL);
    }

    /**
     The purge of expired messages; `hasTTL` afterwards says whether a visible message may
     still expire. Without `hasTTL` the pass is skipped.
     */
    method TTLPurge(now: int)
      requires Valid()
      modifies this`disk, this`logs, this`fileUtilization, this`index, this`cursors, this`hasTTL
      ensures Valid()
      ensures if old(hasTTL) then Abs() == QueueOps.TTLPurge(old(Abs()), now) && hasTTL == TTLPending(index)
        else Abs() == old(Abs()) && !hasTTL
      ensures old(hasTTL) ==> forall e :: e in index <==>
        e in old(index) && (e.item.purged || e.item.ttl <= 0 || now - e.item.timestamp < e.item.ttl)
      ensures old(hasTTL) ==> (hasTTL <==> exists e :: e in index && !e.item.purged && e.item.ttl > 0)
      ensures old(Restartable()) ==> Restartable()
    {
      TTLPurgeWf(Abs(), now);
      UnexpiredMembers(index, now);
      if hasTTL {
        PurgePass(now);
      }
    }
  }

  /**
   Crash recovery refines memory: a queue opened on what a crash has left of the files of any
   valid queue, whatever operations led to it, has the same entries in the same order, all of
   them visible, and is valid again, as long as each file holds at most one torn record, its
   last.
   */
  method Restart(q: QStorage, disk: map<nat, bytes>, files: seq<nat>, ghost logs: Logs) returns (r: QStorage)
    requires q.Valid() && Crashed(q.logs, logs)
    requires OnDisk(disk, logs) && AllReadable(logs) && Listing(files, disk.Keys)
    ensures fresh(r) && r.disk == disk && r.logs == logs && r.cursors == map[]
    ensures Plain(r.index) == Plain(q.index) && forall e :: e in r.index ==> !e.item.purged
    ensures r.Valid() && r.Restartable()
  {
    r := new QStorage.Recover(disk, files, q.maxFileSize, logs);
    SameAfterCrash(Plain(q.index), Plain(r.index), q.logs, logs, q.currentFileId, r.currentFileId);
  }

  /** Moves a copy of the begin cursor past the hidden entries; the first step splits it off. */
  method SkipHidden(es: seq<Entry>) returns (it: Iter, tied: bool)
    requires Unique(es)
    ensures it == FirstVisible(es) && tied == (it == First(es))
  {
    it, tied := First(es), true;
    ghost var k := 0;
    assert es[k..] == es;
    while it != End && IsHidden(es, it.node)
      invariant k <= |es| && it == First(es[k..]) && (it.At? ==> Has(es, it.node))
      invariant FirstVisible(es[k..]) == FirstVisible(es)
      invariant tied <==> k == 0
      decreases |es| - k
    {
      NextAt(es, k);
      it, tied := Next(es, it.node), false;
      k := k + 1;
    }
    FirstVisibleAt(es, k);
  }

  /** Moves on from a node to the first entry with the given receipt id. */
  method SeekForward(es: seq<Entry>, node: nat, id: bytes) returns (it: Iter)
    requires Unique(es) && Has(es, node)
    ensures it == SeekFromNode(es, node, id)
  {
    it := At(node);
    ghost var k := IndexOf(es, node);
    while it != End && ItemAt(es, it.node).receiptId != id
      invariant k <= |es| && (it.At? ==> Has(es, it.node)) && it == First(es[k..])
      invariant SeekFrom(es, k, id) == SeekFromNode(es, node, id)
      decreases |es| - k
    {
      NextAt(es, k);
      it := Next(es, it.node);
      k := k + 1;
    }
    if k < |es| {
      NextAt(es, k);
    }
  }
}
