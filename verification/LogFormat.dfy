/**
 The queue's log files, byte for byte (QStorage.h:134-150, QStorage.cpp:92-142, 194-228,
 467-498).

 A file is a sequence of records: a packed header (marker, purged flag, length), a QMessage
 image of 1328 bytes, and the body. Records are only appended; afterwards only a record's
 purged flag changes. A crash in the middle of an append leaves the beginning of a record.
 `Scan` is what recovery reads back from a file, whatever bytes it holds.
 */
module LogFormat {
  import opened Bytes
  import opened Messages
  import opened QueueModel

  const MESSAGE_MARKER: int := 0x51_4D_73_67 // 'QMsg'
  const HEADER_SIZE := 9

  // ---------- records ----------

  /** A record, or what a crash in the middle of an append has left of one. */
  datatype Record = Record(purged: bool, msg: bytes, body: bytes) | Torn(rest: bytes)

  predicate WfRecord(r: Record) {
    r.Record? ==> IsMsg(r.msg) && |r.body| < TWO_31 && BodySize(r.msg) == |r.body|
  }

  predicate WfLog(rs: seq<Record>) {
    forall i :: 0 <= i < |rs| ==> WfRecord(rs[i])
  }

  /** What Enqueue writes of a message: its image with the length of the body, and the body. */
  function RecordOf(m: QMessage, body: bytes): Record
    requires WfMessage(m) && |body| < TWO_31
  {
    Record(false, Pack(m.(bodySize := |body|)), body)
  }

  lemma {:induction false} RecordOfWf(m: QMessage, body: bytes)
    requires WfMessage(m) && |body| < TWO_31
    ensures var r := RecordOf(m, body);
      WfRecord(r) && !r.purged && r.body == body && Unpack(r.msg) == m.(bodySize := |body|)
    ensures forall f, o, purged :: ItemOf(RecordOf(m, body).msg, f, o, purged) == NewItem(m, f, o, purged)
  {
    forall f, o, purged ensures ItemOf(RecordOf(m, body).msg, f, o, purged) == NewItem(m, f, o, purged) {
      ImageItem(m.(bodySize := |body|), f, o, purged);
    }
    ImageItem(m.(bodySize := |body|), 0, 0, false);
    Unpacks(m.(bodySize := |body|));
    ImageItem(m.(bodySize := |body|), 0, 0, false);
  }

  /** A record's image is that of one message, which the index entry describes. */
  lemma {:induction false} Delivered(r: Record, fileId: nat, offset: nat)
    requires r.Record? && WfRecord(r)
    ensures var m := Unpack(r.msg);
      && WfMessage(m) && Pack(m) == r.msg && m.bodySize == |r.body|
      && ItemOf(r.msg, fileId, offset, false) == NewItem(m, fileId, offset, false)
  {
    Packs(r.msg);
    ImageItem(Unpack(r.msg), fileId, offset, false);
  }

  /** No crash has left anything in the log. */
  predicate WholeLog(rs: seq<Record>) {
    forall i :: 0 <= i < |rs| ==> rs[i].Record? && WfRecord(rs[i])
  }

  function Flag(purged: bool): byte {
    if purged then 1 else 0
  }

  function Header(purged: bool, length: uint32): (h: bytes)
    ensures |h| == HEADER_SIZE
  {
    LE32(MESSAGE_MARKER) + [Flag(purged)] + LE32(length)
  }

  function EncodeParts(purged: bool, msg: bytes, body: bytes): bytes {
    Header(purged, Wrap32(MSG_SIZE + |body|)) + msg + body
  }

  function Encode(r: Record): bytes {
    if r.Torn? then r.rest else EncodeParts(r.purged, r.msg, r.body)
  }

  function Butlast(rs: seq<Record>): seq<Record>
    requires rs != []
  {
    rs[..|rs| - 1]
  }

  function EncodeLog(rs: seq<Record>): bytes {
    if rs == [] then [] else EncodeLog(Butlast(rs)) + Encode(rs[|rs| - 1])
  }

  /** Where record k of a log starts. */
  function Offset(rs: seq<Record>, k: nat): nat
    requires k <= |rs|
  {
    |EncodeLog(rs[..k])|
  }

  function Item(r: Record, fileId: nat, offset: nat): seq<QueueIndex> {
    if r.Torn? || r.purged then [] else [ItemOf(r.msg, fileId, offset, false)]
  }

  /** The unpurged records of a log, as index entries with their true offsets. */
  function LiveOf(rs: seq<Record>, fileId: nat): seq<QueueIndex> {
    if rs == [] then []
    else LiveOf(Butlast(rs), fileId) + Item(rs[|rs| - 1], fileId, |EncodeLog(Butlast(rs))|)
  }

  // ---------- reading ----------

  predicate HeaderAt(b: bytes) {
    |b| >= HEADER_SIZE && FromLE32(b[..4]) == MESSAGE_MARKER
  }

  function Drop(b: bytes, n: nat): bytes {
    if n <= |b| then b[n..] else []
  }

  /** What recover_file makes of the bytes at one offset; `size` is how far it moves on. */
  datatype Step = Stop | Skip(purged: bool, msg: bytes, size: Size)

  type Size = n: int | n > 0 witness 1

  /**
   A failed read ends the scan, and so does a wrong marker. An image with a negative body
   size is the last one read: no append writes one.
   */
  function Read(b: bytes): (s: Step)
    ensures s.Skip? ==> b != [] && (!s.purged ==> IsMsg(s.msg))
  {
    if !HeaderAt(b) then Stop
    else if b[4] != 0 then Skip(true, [], HEADER_SIZE + FromLE32(b[5..9]))
    else if |b| < HEADER_SIZE + MSG_SIZE then Stop
    else
      var msg := b[HEADER_SIZE..HEADER_SIZE + MSG_SIZE];
      Skip(false, msg, if BodySize(msg) < 0 then |b| else HEADER_SIZE + MSG_SIZE + BodySize(msg))
  }

  /** The first bytes of a record, which end inside its header or its message image. */
  ghost predicate CutOff(r: Record, tail: bytes) {
    && r.Record? && WfRecord(r)
    && |tail| < HEADER_SIZE + MSG_SIZE && |tail| <= |Encode(r)| && tail == Encode(r)[..|tail|]
  }

  /** A record that was cut off inside its header or its message image. */
  ghost predicate Cut(tail: bytes) {
    tail == [] || (exists r: Record :: CutOff(r, tail))
  }

  lemma {:induction false} HeaderReads(purged: bool, length: uint32, rest: bytes)
    ensures var b := Header(purged, length) + rest;
      HeaderAt(b) && b[4] == Flag(purged) && FromLE32(b[5..9]) == length
  {
    var b := Header(purged, length) + rest;
    LE32RoundTrip(MESSAGE_MARKER);
    LE32RoundTrip(length);
    assert b[..4] == LE32(MESSAGE_MARKER);
    assert b[5..9] == LE32(length);
  }

  lemma {:induction false} Parts(a: bytes, b: bytes, c: bytes, d: bytes)
    ensures var s := a + b + c + d;
      && s[..|a|] == a && s[|a|..|a| + |b|] == b && s[|a| + |b|..][..|c|] == c
  {
  }

  lemma {:induction false} EncodeSplit(r: Record, rest: bytes)
    requires r.Record? && IsMsg(r.msg) && |r.body| < TWO_31
    ensures Encode(r) + rest == Header(r.purged, MSG_SIZE + |r.body|) + r.msg + r.body + rest
    ensures Encode(r) + rest == Header(r.purged, MSG_SIZE + |r.body|) + (r.msg + r.body + rest)
  {
    assert Wrap32(MSG_SIZE + |r.body|) == MSG_SIZE + |r.body|;
    Associate(Header(r.purged, MSG_SIZE + |r.body|), r.msg, r.body, rest);
  }

  lemma {:induction false} Associate(a: bytes, b: bytes, c: bytes, d: bytes)
    ensures a + b + c + d == a + (b + c + d)
  {
  }

  lemma {:induction false} ReadRecord(r: Record, rest: bytes)
    requires r.Record? && WfRecord(r)
    ensures Read(Encode(r) + rest) == Skip(r.purged, if r.purged then [] else r.msg, |Encode(r)|)
    ensures Drop(Encode(r) + rest, |Encode(r)|) == rest
  {
    var length := MSG_SIZE + |r.body|;
    EncodeSplit(r, rest);
    HeaderReads(r.purged, length, r.msg + r.body + rest);
    Parts(Header(r.purged, length), r.msg, r.body, rest);
  }

  lemma {:induction false} PrefixSplit(a: bytes, rest: bytes, tail: bytes)
    requires |a| <= |tail| <= |a + rest| && tail == (a + rest)[..|tail|]
    ensures tail == a + tail[|a|..]
  {
  }

  lemma {:induction false} HeaderFirst(r: Record, tail: bytes)
    requires r.Record? && WfRecord(r) && HEADER_SIZE <= |tail| <= |Encode(r)| && tail == Encode(r)[..|tail|]
    ensures tail == Header(r.purged, MSG_SIZE + |r.body|) + tail[HEADER_SIZE..]
  {
    EncodeSplit(r, []);
    Regroup(Encode(r), [], []);
    PrefixSplit(Header(r.purged, MSG_SIZE + |r.body|), r.msg + r.body + [], tail);
  }

  lemma {:induction false} ReadCut(r: Record, tail: bytes)
    requires r.Record? && WfRecord(r) && HeaderAt(tail)
    requires |tail| < HEADER_SIZE + MSG_SIZE && tail == Encode(r)[..|tail|]
    ensures Read(tail) == if r.purged then Skip(true, [], |Encode(r)|) else Stop
  {
    HeaderFirst(r, tail);
    HeaderReads(r.purged, MSG_SIZE + |r.body|, tail[HEADER_SIZE..]);
  }

  lemma {:induction false} Regroup<T>(a: seq<T>, b: seq<T>, c: seq<T>)
    ensures a + (b + c) == (a + b) + c && a + [] == a
  {
  }

  lemma {:induction false} DropFirst(a: bytes, b: bytes)
    ensures (a + b)[|a|..] == b
  {
  }

  lemma {:induction false} LastRecord(rs: seq<Record>, tail: bytes)
    requires rs != []
    ensures |EncodeLog(rs)| == |EncodeLog(Butlast(rs))| + |Encode(rs[|rs| - 1])|
    ensures EncodeLog(rs) + tail == EncodeLog(Butlast(rs)) + (Encode(rs[|rs| - 1]) + tail)
    ensures (EncodeLog(rs) + tail)[|EncodeLog(Butlast(rs))|..] == Encode(rs[|rs| - 1]) + tail
  {
    Regroup(EncodeLog(Butlast(rs)), Encode(rs[|rs| - 1]), tail);
    DropFirst(EncodeLog(Butlast(rs)), Encode(rs[|rs| - 1]) + tail);
  }

  lemma {:induction false} OffsetNext(rs: seq<Record>, k: nat)
    requires k < |rs|
    ensures Offset(rs, k + 1) == Offset(rs, k) + |Encode(rs[k])|
    ensures k < |rs| - 1 ==> Offset(Butlast(rs), k) == Offset(rs, k)
  {
    assert Butlast(rs[..k + 1]) == rs[..k];
    LastRecord(rs[..k + 1], []);
    if k < |rs| - 1 {
      assert Butlast(rs)[..k] == rs[..k];
    }
  }

  /** From the start of record k on, a file reads as that record and some rest. */
  lemma {:induction false} RecordAt(rs: seq<Record>, tail: bytes, k: nat) returns (rest: bytes)
    requires k < |rs|
    ensures |EncodeLog(rs)| >= Offset(rs, k) + |Encode(rs[k])|
    ensures (EncodeLog(rs) + tail)[Offset(rs, k)..] == Encode(rs[k]) + rest
    ensures Offset(rs, k + 1) == Offset(rs, k) + |Encode(rs[k])|
  {
    LastRecord(rs, tail);
    OffsetNext(rs, k);
    if k == |rs| - 1 {
      rest := tail;
    } else {
      rest := RecordAt(Butlast(rs), Encode(rs[|rs| - 1]) + tail, k);
    }
  }

  lemma {:induction false} ReadAt(rs: seq<Record>, tail: bytes, k: nat, fileId: nat)
    requires WholeLog(rs) && k < |rs|
    ensures var r := rs[k];
      && Read(Drop(EncodeLog(rs) + tail, Offset(rs, k))) == Skip(r.purged, if r.purged then [] else r.msg, |Encode(r)|)
      && Offset(rs, k + 1) == Offset(rs, k) + |Encode(r)|
  {
    var rest := RecordAt(rs, tail, k);
    ReadRecord(rs[k], rest);
  }

  lemma {:induction false} LiveOfNext(rs: seq<Record>, k: nat, fileId: nat)
    requires k < |rs|
    ensures LiveOf(rs[..k + 1], fileId) == LiveOf(rs[..k], fileId) + Item(rs[k], fileId, Offset(rs, k))
  {
    assert Butlast(rs[..k + 1]) == rs[..k];
  }

  /** Nothing is found behind the last whole record. */
  lemma {:induction false} ReadTail(rs: seq<Record>, tail: bytes)
    requires Cut(tail)
    ensures Drop(EncodeLog(rs) + tail, Offset(rs, |rs|)) == tail
    ensures Read(tail).Stop? || (Read(tail).purged && Read(tail).size >= |tail|)
  {
    assert rs[..|rs|] == rs;
    if HeaderAt(tail) {
      var r: Record :| CutOff(r, tail);
      ReadCut(r, tail);
    }
  }

  // ---------- scanning ----------

  /** What one turn of the loop adds to the index. */
  function FoundBy(st: Step, fileId: nat, offset: nat): seq<QueueIndex> {
    if st.Skip? && !st.purged then [ItemOf(st.msg, fileId, offset, false)] else []
  }

  /** What the loop would make of each offset. */
  function Turns(file: bytes): (sts: seq<Step>)
    ensures |sts| == |file|
  {
    seq(|file|, o requires 0 <= o < |file| => Read(Drop(file, o)))
  }

  /** The same as a relation; the quantifier only keeps the definition of Turns folded. */
  ghost predicate TurnsOf(file: bytes, sts: seq<Step>) {
    |sts| == |file| && forall b {:trigger Turns(b)} :: b == file ==> Turns(b) == sts
  }

  /** What recover_file finds from an offset on. */
  function Scan(sts: seq<Step>, fileId: nat, offset: nat): seq<QueueIndex>
    decreases |sts| - offset
  {
    if offset >= |sts| || sts[offset].Stop? then []
    else FoundBy(sts[offset], fileId, offset) + Scan(sts, fileId, offset + sts[offset].size)
  }

  /** The scan has come to this offset, and found these. */
  ghost predicate IsBehind(sts: seq<Step>, fileId: nat, offset: nat, items: seq<QueueIndex>) {
    items + Scan(sts, fileId, offset) == Scan(sts, fileId, 0)
  }

  ghost predicate Behind(sts: seq<Step>, fileId: nat, offset: nat, items: seq<QueueIndex>) {
    forall o {:trigger IsBehind(sts, fileId, o, items)} :: o == offset ==> IsBehind(sts, fileId, o, items)
  }

  lemma {:induction false} BehindNone(sts: seq<Step>, fileId: nat)
    ensures Behind(sts, fileId, 0, [])
  {
  }

  lemma {:induction false} BehindIs(sts: seq<Step>, fileId: nat, offset: nat, items: seq<QueueIndex>)
    requires items + Scan(sts, fileId, offset) == Scan(sts, fileId, 0)
    ensures Behind(sts, fileId, offset, items)
  {
  }

  lemma {:induction false} BehindHas(sts: seq<Step>, fileId: nat, offset: nat, items: seq<QueueIndex>)
    requires Behind(sts, fileId, offset, items)
    ensures items + Scan(sts, fileId, offset) == Scan(sts, fileId, 0)
  {
    assert IsBehind(sts, fileId, offset, items);
  }

  /** The turn at a place finds these and goes on there. */
  ghost predicate Turned(sts: seq<Step>, fileId: nat, o: nat, found: seq<QueueIndex>, next: nat) {
    o < |sts| && sts[o].Skip? && FoundBy(sts[o], fileId, o) == found && o + sts[o].size == next
  }

  lemma {:induction false} ScanTurned(sts: seq<Step>, fileId: nat, offset: nat, found: seq<QueueIndex>, next: nat)
    requires Turned(sts, fileId, offset, found, next)
    ensures Scan(sts, fileId, offset) == found + Scan(sts, fileId, next)
  {
  }

  lemma {:induction false} BehindStep(sts: seq<Step>, fileId: nat, offset: nat, items: seq<QueueIndex>,
      found: seq<QueueIndex>, next: nat)
    requires Behind(sts, fileId, offset, items) && Turned(sts, fileId, offset, found, next)
    ensures Behind(sts, fileId, next, items + found)
  {
    BehindHas(sts, fileId, offset, items);
    ScanTurned(sts, fileId, offset, found, next);
    Regroup(items, found, Scan(sts, fileId, next));
    BehindIs(sts, fileId, next, items + found);
  }

  lemma {:induction false} BehindNext(sts: seq<Step>, fileId: nat, offset: nat, items: seq<QueueIndex>)
    requires Behind(sts, fileId, offset, items) && offset < |sts| && sts[offset].Skip?
    ensures Behind(sts, fileId, offset + sts[offset].size, items + FoundBy(sts[offset], fileId, offset))
  {
    BehindStep(
      sts, fileId, offset, items, FoundBy(sts[offset], fileId, offset), offset + sts[offset].size);
  }

  lemma {:induction false} BehindAll(sts: seq<Step>, fileId: nat, offset: nat, items: seq<QueueIndex>)
    requires Behind(sts, fileId, offset, items) && (offset < |sts| ==> sts[offset].Stop?)
    ensures items == Scan(sts, fileId, 0)
  {
    assert IsBehind(sts, fileId, offset, items);
    assert Scan(sts, fileId, offset) == [];
  }

  /** The reads of one turn. */
  method ReadTurn(file: bytes, offset: nat, ghost sts: seq<Step>) returns (st: Step)
    requires TurnsOf(file, sts) && offset < |file|
    ensures st == sts[offset]
  {
    st := Read(Drop(file, offset));
    assert Turns(file)[offset] == st;
  }

  method ScanTurns(file: bytes, fileId: nat, ghost sts: seq<Step>) returns (items: seq<QueueIndex>)
    requires TurnsOf(file, sts)
    ensures items == Scan(sts, fileId, 0)
  {
    items := [];
    var offset := 0;
    BehindNone(sts, fileId);
    while offset < |file|
      invariant Behind(sts, fileId, offset, items)
      decreases |file| - offset
    {
      var st := ReadTurn(file, offset, sts);
      if st.Stop? {
        break;
      }
      BehindNext(sts, fileId, offset, items);
      items := items + FoundBy(st, fileId, offset);
      offset := offset + st.size;
    }
    BehindAll(sts, fileId, offset, items);
  }

  /** recover_file, on whatever bytes the file holds. */
  method ScanFile(file: bytes, fileId: nat) returns (items: seq<QueueIndex>)
    ensures items == Scan(Turns(file), fileId, 0)
  {
    items := ScanTurns(file, fileId, Turns(file));
  }

  lemma {:induction false} TurnAt(file: bytes, sts: seq<Step>, o: nat)
    requires TurnsOf(file, sts) && o < |file|
    ensures sts[o] == Read(Drop(file, o))
  {
    assert Turns(file)[o] == Read(Drop(file, o));
  }

  lemma {:induction false} FoundRecord(r: Record, fileId: nat, o: nat, n: Size)
    requires r.Record?
    ensures FoundBy(Skip(r.purged, if r.purged then [] else r.msg, n), fileId, o) == Item(r, fileId, o)
  {
  }

  /** Record k of a log is read by one turn. */
  ghost predicate TurnedAt(rs: seq<Record>, sts: seq<Step>, fileId: nat, k: nat)
    requires k < |rs|
  {
    Turned(sts, fileId, Offset(rs, k), Item(rs[k], fileId, Offset(rs, k)), Offset(rs, k + 1))
  }

  lemma {:induction false} FoundAt(rs: seq<Record>, rest: bytes, sts: seq<Step>, fileId: nat, k: nat)
    requires WholeLog(rs) && k < |rs| && TurnsOf(EncodeLog(rs) + rest, sts)
    ensures TurnedAt(rs, sts, fileId, k)
  {
    ReadAt(rs, rest, k, fileId);
    var more := RecordAt(rs, rest, k);
    TurnAt(EncodeLog(rs) + rest, sts, Offset(rs, k));
    FoundRecord(rs[k], fileId, Offset(rs, k), |Encode(rs[k])|);
  }

  /** Behind k records of a log the scan has found the unpurged ones, whatever comes after the log. */
  lemma {:induction false} ScanBehind(rs: seq<Record>, sts: seq<Step>, fileId: nat, k: nat)
    requires k <= |rs| && forall j :: 0 <= j < k ==> TurnedAt(rs, sts, fileId, j)
    ensures Behind(sts, fileId, Offset(rs, k), LiveOf(rs[..k], fileId))
  {
    if k == 0 {
      assert rs[..0] == [];
      BehindNone(sts, fileId);
    } else {
      ScanBehind(rs, sts, fileId, k - 1);
      assert TurnedAt(rs, sts, fileId, k - 1);
      BehindStep(sts, fileId, Offset(rs, k - 1), LiveOf(rs[..k - 1], fileId),
        Item(rs[k - 1], fileId, Offset(rs, k - 1)), Offset(rs, k));
      LiveOfNext(rs, k - 1, fileId);
    }
  }

  /** A log is read first, whatever follows it. */
  lemma {:induction false} LogBehind(rs: seq<Record>, rest: bytes, fileId: nat)
    requires WholeLog(rs)
    ensures Behind(Turns(EncodeLog(rs) + rest), fileId, |EncodeLog(rs)|, LiveOf(rs, fileId))
  {
    var sts := Turns(EncodeLog(rs) + rest);
    forall k | 0 <= k < |rs|
      ensures TurnedAt(rs, sts, fileId, k)
    {
      FoundAt(rs, rest, sts, fileId, k);
    }
    ScanBehind(rs, sts, fileId, |rs|);
    assert rs[..|rs|] == rs;
  }

  /**
   recover_file undoes the appends: on the bytes of a log, possibly cut inside its last
   record, it finds exactly the unpurged records with their true offsets.
   */
  lemma {:induction false} ScanLog(rs: seq<Record>, tail: bytes, fileId: nat)
    requires WholeLog(rs) && Cut(tail)
    ensures Scan(Turns(EncodeLog(rs) + tail), fileId, 0) == LiveOf(rs, fileId)
  {
    var sts, o, items := Turns(EncodeLog(rs) + tail), |EncodeLog(rs)|, LiveOf(rs, fileId);
    LogBehind(rs, tail, fileId);
    ReadTail(rs, tail);
    if tail == [] || Read(tail).Stop? {
      BehindAll(sts, fileId, o, items);
    } else {
      BehindNext(sts, fileId, o, items);
      Regroup(items, [], []);
      BehindAll(sts, fileId, o + Read(tail).size, items);
    }
  }

  /** At most the last record is torn, inside its header or its image. */
  ghost predicate Readable(rs: seq<Record>) {
    rs != [] ==> WholeLog(Butlast(rs)) && (rs[|rs| - 1].Torn? ==> Cut(rs[|rs| - 1].rest))
  }

  /** A log that is readable is read as what it is. */
  lemma {:induction false} ScanReadable(rs: seq<Record>, fileId: nat)
    requires WfLog(rs) && Readable(rs)
    ensures Scan(Turns(EncodeLog(rs)), fileId, 0) == LiveOf(rs, fileId)
  {
    if rs != [] && rs[|rs| - 1].Torn? {
      ScanLog(Butlast(rs), rs[|rs| - 1].rest, fileId);
      Regroup(LiveOf(Butlast(rs), fileId), [], []);
    } else {
      ScanLog(rs, [], fileId);
      Regroup(EncodeLog(rs), [], []);
    }
  }

  // ---------- appending behind a tail ----------

  lemma {:induction false} ScanOffsets(sts: seq<Step>, fileId: nat, offset: nat)
    ensures forall x :: x in Scan(sts, fileId, offset) ==> x.offset >= offset
    decreases |sts| - offset
  {
    if offset < |sts| && sts[offset].Skip? {
      ScanOffsets(sts, fileId, offset + sts[offset].size);
    }
  }

  lemma {:induction false} LiveOffsets(rs: seq<Record>, fileId: nat)
    ensures forall x :: x in LiveOf(rs, fileId) ==> x.offset < |EncodeLog(rs)|
  {
    if rs != [] {
      LiveOffsets(Butlast(rs), fileId);
    }
  }

  /** The first bytes of a marker do not start it anew. */
  lemma {:induction false} MarkerTorn(r: Record, tail: bytes, r2: Record)
    requires r.Record? && r2.Record? && 0 < |tail| < 4 && tail == Encode(r)[..|tail|]
    ensures Read(tail + Encode(r2)).Stop?
  {
    MarkerBytes(r);
    MarkerBytes(r2);
    var four := (tail + Encode(r2))[..4];
    assert four[3] == Encode(r2)[..4][3 - |tail|] < 0x51 || four[3] > 0x51;
    assert FromLE32(four) != MESSAGE_MARKER;
  }

  lemma {:induction false} MarkerBytes(r: Record)
    requires r.Record?
    ensures |Encode(r)| >= HEADER_SIZE && Encode(r)[..4] == LE32(MESSAGE_MARKER) == [0x67, 0x73, 0x4D, 0x51]
  {
  }

  lemma {:induction false} TornHeader(r: Record, tail: bytes, rest: bytes)
    requires CutOff(r, tail) && |tail| >= HEADER_SIZE
    ensures var b := tail + rest;
      HeaderAt(b) && b[4] == Flag(r.purged) && FromLE32(b[5..9]) == MSG_SIZE + |r.body|
  {
    var h := Header(r.purged, MSG_SIZE + |r.body|);
    HeaderFirst(r, tail);
    Regroup(h, tail[HEADER_SIZE..], rest);
    HeaderReads(r.purged, MSG_SIZE + |r.body|, tail[HEADER_SIZE..] + rest);
  }

  /** A torn record takes the bytes of the next append for its own: the scan goes on behind their start, if at all. */
  lemma {:induction false} TornReads(tail: bytes, r2: Record)
    requires Cut(tail) && tail != [] && r2.Record? && WfRecord(r2)
    ensures Read(tail + Encode(r2)).Skip? ==> Read(tail + Encode(r2)).size > |tail|
  {
    var r: Record :| CutOff(r, tail);
    if |tail| < 4 {
      MarkerTorn(r, tail, r2);
    } else if |tail| >= HEADER_SIZE {
      TornHeader(r, tail, Encode(r2));
      StepPasses(tail + Encode(r2), |tail|);
    } else {
      StepPasses(tail + Encode(r2), |tail|);
    }
  }

  lemma {:induction false} StepPasses(b: bytes, n: nat)
    requires n < |b| && (n < HEADER_SIZE || (n < HEADER_SIZE + MSG_SIZE && |b| > n && FromLE32(b[5..9]) >= MSG_SIZE))
    ensures Read(b).Skip? ==> Read(b).size > n
  {
  }

  lemma {:induction false} FoundWhole(rs: seq<Record>, r2: Record, fileId: nat)
    requires WholeLog(rs) && r2.Record? && WfRecord(r2) && !r2.purged
    ensures ItemOf(r2.msg, fileId, |EncodeLog(rs)|, false) in Scan(Turns(EncodeLog(rs) + Encode(r2)), fileId, 0)
  {
    assert Butlast(rs + [r2]) == rs;
    Regroup(EncodeLog(rs + [r2]), [], []);
    ScanLog(rs + [r2], [], fileId);
  }

  /** A scan that goes past a place finds nothing there. */
  lemma {:induction false} LostBehind(sts: seq<Step>, fileId: nat, o: nat, n: nat)
    requires o < |sts| && n > 0 && (sts[o].Skip? ==> sts[o].size > n)
    ensures forall x :: x in Scan(sts, fileId, o) ==> x.offset != o + n
  {
    if sts[o].Skip? {
      ScanOffsets(sts, fileId, o + sts[o].size);
    }
  }

  /**
   An append behind a torn record is lost: recovery finds the message at its place if and
   only if nothing was torn.
   */
  lemma {:induction false} AppendFound(rs: seq<Record>, tail: bytes, r2: Record, fileId: nat)
    requires WholeLog(rs) && Cut(tail) && r2.Record? && WfRecord(r2) && !r2.purged
    ensures var file := EncodeLog(rs) + tail;
      (exists x :: x in Scan(Turns(file + Encode(r2)), fileId, 0) && x.offset == |file|) <==> tail == []
  {
    var o, rest := |EncodeLog(rs)|, tail + Encode(r2);
    var file := EncodeLog(rs) + rest;
    Regroup(EncodeLog(rs), tail, Encode(r2));
    if tail == [] {
      FoundWhole(rs, r2, fileId);
      assert rest == Encode(r2);
      assert ItemOf(r2.msg, fileId, o, false).offset == o;
    } else {
      LogBehind(rs, rest, fileId);
      assert IsBehind(Turns(file), fileId, o, LiveOf(rs, fileId));
      LiveOffsets(rs, fileId);
      TornReads(tail, r2);
      LostBehind(Turns(file), fileId, o, |tail|);
    }
  }

  /** With enough of a torn record that is not purged, one turn makes a message of its bytes and of the append. */
  lemma {:induction false} TornFinds(tail: bytes, r2: Record)
    requires Cut(tail) && tail != [] && r2.Record? && WfRecord(r2)
    ensures var st := Read(tail + Encode(r2)); st.Skip? && !st.purged <==> |tail| >= 5 && tail[4] == 0
  {
    var r: Record :| CutOff(r, tail);
    var b := tail + Encode(r2);
    assert |b| >= HEADER_SIZE + MSG_SIZE;
    MarkerBytes(r);
    MarkerBytes(r2);
    if |tail| < 4 {
      MarkerTorn(r, tail, r2);
    } else {
      assert b[..4] == tail[..4] == Encode(r)[..4];
      LE32RoundTrip(MESSAGE_MARKER);
      assert b[4] == if |tail| == 4 then Encode(r2)[..4][0] else tail[4];
    }
  }

  /** What a scan finds at its first place. */
  lemma {:induction false} FoundFirst(sts: seq<Step>, fileId: nat, o: nat)
    requires o < |sts|
    ensures (exists x :: x in Scan(sts, fileId, o) && x.offset == o) <==> sts[o].Skip? && !sts[o].purged
  {
    if sts[o].Skip? {
      var more := Scan(sts, fileId, o + sts[o].size);
      ScanOffsets(sts, fileId, o + sts[o].size);
      assert Scan(sts, fileId, o) == FoundBy(sts[o], fileId, o) + more;
      if !sts[o].purged {
        assert (FoundBy(sts[o], fileId, o) + more)[0].offset == o;
      }
    }
  }

  /**
   The append is not only lost: the next recovery finds a message that was never put, at the
   place of the torn record, if and only if the crash left the flag byte of that record, and
   that says that it is not purged.
   */
  lemma {:induction false} EntryMadeUp(rs: seq<Record>, tail: bytes, r2: Record, fileId: nat)
    requires WholeLog(rs) && Cut(tail) && tail != [] && r2.Record? && WfRecord(r2)
    ensures (exists x :: x in Scan(Turns(EncodeLog(rs) + tail + Encode(r2)), fileId, 0) && x.offset == |EncodeLog(rs)|)
      <==> |tail| >= 5 && tail[4] == 0
  {
    var o, rest := |EncodeLog(rs)|, tail + Encode(r2);
    var sts := Turns(EncodeLog(rs) + rest);
    Regroup(EncodeLog(rs), tail, Encode(r2));
    LogBehind(rs, rest, fileId);
    assert IsBehind(sts, fileId, o, LiveOf(rs, fileId));
    LiveOffsets(rs, fileId);
    TornFinds(tail, r2);
    FoundFirst(sts, fileId, o);
    assert sts[o] == Read(rest);
  }
}
