/**
 A message as the server's struct holds it, and its packed image, which is what the log files
 hold (safmq.h:203-223). What the index keeps of a message is read off the image; `ImageItem`
 says that it is what the struct has, and `Packs`, `Unpacks` that the image is no more and no
 less than the struct.
 */
module Messages {
  import opened Bytes
  import opened QueueModel

  const ID_SIZE := 16
  const LABEL_SIZE := 256
  const NAME_SIZE := 1024
  const MSG_SIZE := 1328

  datatype QMessage = QMessage(
    messageId: bytes,
    messageClass: int,
    priority: int,
    labelText: bytes,
    timestamp: int,
    ttl: int,
    ttlErrorWanted: byte,
    responseQueue: bytes,
    receiptId: bytes,
    bodyType: byte,
    bodySize: int)

  /** What a caller has before a message is read. */
  const BLANK := QMessage([], 0, 0, [], 0, -1, 0, [], [], 0, -1)

  predicate IsChar(n: int) {
    -128 <= n < 128
  }

  predicate IsInt32(n: int) {
    -TWO_31 <= n < TWO_31
  }

  /** Every field has a value that its type can hold. */
  predicate WfMessage(m: QMessage) {
    && |m.messageId| == ID_SIZE && IsChar(m.messageClass) && IsChar(m.priority) && |m.labelText| == LABEL_SIZE
    && IsInt32(m.timestamp) && IsInt32(m.ttl) && |m.responseQueue| == NAME_SIZE && |m.receiptId| == ID_SIZE
    && IsInt32(m.bodySize)
  }

  function CharByte(n: int): byte
    requires IsChar(n)
  {
    if n < 0 then n + 256 else n
  }

  function Int32Bytes(n: int): (b: bytes)
    ensures |b| == 4
  {
    LE32(Wrap32(n))
  }

  // ---------- the packed struct ----------

  /** The id, the class and the priority. */
  function Front(m: QMessage): bytes
    requires WfMessage(m)
  {
    m.messageId + [CharByte(m.messageClass), CharByte(m.priority)]
  }

  function Times(m: QMessage): (b: bytes)
    ensures |b| == 8
  {
    Int32Bytes(m.timestamp) + Int32Bytes(m.ttl)
  }

  function Back(m: QMessage): bytes {
    m.receiptId + [m.bodyType] + Int32Bytes(m.bodySize)
  }

  /** Field after field in the struct's order, without gaps. */
  function Pack(m: QMessage): (b: bytes)
    requires WfMessage(m)
    ensures IsMsg(b)
  {
    Front(m) + m.labelText + Times(m) + [m.ttlErrorWanted] + m.responseQueue + Back(m)
  }

  // ---------- fields of an image ----------

  predicate IsMsg(msg: bytes) {
    |msg| == MSG_SIZE
  }

  function Slice(b: bytes, lo: nat, hi: nat): bytes {
    if lo <= hi <= |b| then b[lo..hi] else []
  }

  function ByteAt(b: bytes, at: nat): int {
    if at < |b| then SignedByte(b[at]) else 0
  }

  function Int32At(b: bytes, at: nat): int {
    if at + 4 <= |b| then Signed32(FromLE32(b[at..at + 4])) else 0
  }

  function BodySize(msg: bytes): int {
    Int32At(msg, 1324)
  }

  /** The index entry of a message at a place in the files. */
  function ItemOf(msg: bytes, fileId: nat, offset: nat, purged: bool): QueueIndex {
    QueueIndex(
      ByteAt(msg, 17), Slice(msg, 0, 16), ByteAt(msg, 16), Slice(msg, 1307, 1323),
      Int32At(msg, 274), Int32At(msg, 278), fileId, offset, purged)
  }

  function Unpack(b: bytes): (m: QMessage)
    requires IsMsg(b)
    ensures WfMessage(m)
  {
    QMessage(
      b[..16], SignedByte(b[16]), SignedByte(b[17]), b[18..274], Int32At(b, 274), Int32At(b, 278), b[282],
      b[283..1307], b[1307..1323], b[1323], BodySize(b))
  }

  // ---------- the image is the struct ----------

  /** The index entry that Enqueue makes of a message, field by field. */
  function NewItem(m: QMessage, fileId: nat, offset: nat, purged: bool): QueueIndex {
    QueueIndex(
      priority := m.priority,
      messageId := m.messageId,
      messageClass := m.messageClass,
      receiptId := m.receiptId,
      timestamp := m.timestamp,
      ttl := m.ttl,
      fileId := fileId,
      offset := offset,
      purged := purged)
  }

  /** A part of a sequence, in place. */
  lemma {:induction false} Piece(a: bytes, x: bytes, b: bytes)
    ensures (a + x + b)[|a|..|a| + |x|] == x
  {
  }

  lemma {:induction false} Int32Reads(n: int)
    requires IsInt32(n)
    ensures Signed32(FromLE32(Int32Bytes(n))) == n
  {
    LE32RoundTrip(Wrap32(n));
  }

  lemma {:induction false} Int32Writes(b: bytes)
    requires |b| == 4
    ensures Int32Bytes(Signed32(FromLE32(b))) == b
  {
    LE32Back(b);
    assert Wrap32(Signed32(FromLE32(b))) == FromLE32(b);
  }

  lemma {:induction false} FrontAt(m: QMessage)
    requires WfMessage(m)
    ensures var b := Pack(m);
      b[..16] == m.messageId && SignedByte(b[16]) == m.messageClass && SignedByte(b[17]) == m.priority
  {
    var rest := m.labelText + Times(m) + [m.ttlErrorWanted] + m.responseQueue + Back(m);
    assert Pack(m) == Front(m) + rest;
    Piece([], m.messageId, [CharByte(m.messageClass), CharByte(m.priority)] + rest);
  }

  lemma {:induction false} TimesAt(m: QMessage)
    requires WfMessage(m)
    ensures var b := Pack(m);
      && b[18..274] == m.labelText
      && b[274..278] == Int32Bytes(m.timestamp) && b[278..282] == Int32Bytes(m.ttl)
  {
    var rest := [m.ttlErrorWanted] + m.responseQueue + Back(m);
    var first, second := Int32Bytes(m.timestamp), Int32Bytes(m.ttl);
    assert Pack(m) == Front(m) + m.labelText + (Times(m) + rest);
    Piece(Front(m), m.labelText, Times(m) + rest);
    assert Pack(m) == Front(m) + m.labelText + first + (second + rest);
    Piece(Front(m) + m.labelText, first, second + rest);
    assert Pack(m) == Front(m) + m.labelText + first + second + rest;
    Piece(Front(m) + m.labelText + first, second, rest);
  }

  lemma {:induction false} BackAt(m: QMessage)
    requires WfMessage(m)
    ensures var b := Pack(m);
      && b[282] == m.ttlErrorWanted && b[283..1307] == m.responseQueue && b[1307..1323] == m.receiptId
      && b[1323] == m.bodyType && b[1324..1328] == Int32Bytes(m.bodySize)
  {
    var front := Front(m) + m.labelText + Times(m) + [m.ttlErrorWanted];
    var size := Int32Bytes(m.bodySize);
    assert Pack(m) == front + m.responseQueue + Back(m);
    Piece(front, m.responseQueue, Back(m));
    assert Pack(m) == front + m.responseQueue + m.receiptId + ([m.bodyType] + size);
    Piece(front + m.responseQueue, m.receiptId, [m.bodyType] + size);
    assert Pack(m) == front + m.responseQueue + m.receiptId + [m.bodyType] + size + [];
    Piece(front + m.responseQueue + m.receiptId + [m.bodyType], size, []);
  }

  /** An image gives back the struct that was packed. */
  lemma {:induction false} Unpacks(m: QMessage)
    requires WfMessage(m)
    ensures Unpack(Pack(m)) == m
  {
    FrontAt(m);
    TimesAt(m);
    BackAt(m);
    Int32Reads(m.timestamp);
    Int32Reads(m.ttl);
    Int32Reads(m.bodySize);
  }

  /** What the index keeps of an image: each field is that of the struct, so it is what Enqueue makes of the message. */
  lemma {:induction false} ImageItem(m: QMessage, fileId: nat, offset: nat, purged: bool)
    requires WfMessage(m)
    ensures var x := ItemOf(Pack(m), fileId, offset, purged);
      && x.priority == m.priority && x.messageId == m.messageId && x.messageClass == m.messageClass
      && x.receiptId == m.receiptId && x.timestamp == m.timestamp && x.ttl == m.ttl
      && x.fileId == fileId && x.offset == offset && x.purged == purged
      && x == NewItem(m, fileId, offset, purged)
    ensures BodySize(Pack(m)) == m.bodySize
  {
    FrontAt(m);
    TimesAt(m);
    BackAt(m);
    Int32Reads(m.timestamp);
    Int32Reads(m.ttl);
    Int32Reads(m.bodySize);
  }

  lemma {:induction false} FivePieces(b: bytes)
    requires IsMsg(b)
    ensures b == b[..18] + b[18..274] + b[274..282] + [b[282]] + b[283..1307] + b[1307..]
    ensures b[..18] == b[..16] + [b[16], b[17]] && b[274..282] == b[274..278] + b[278..282]
    ensures b[1307..] == b[1307..1323] + [b[1323]] + b[1324..1328]
  {
  }

  /** And every image of the right length is the image of a struct. */
  lemma {:induction false} Packs(b: bytes)
    requires IsMsg(b)
    ensures Pack(Unpack(b)) == b
  {
    FivePieces(b);
    Int32Writes(b[274..278]);
    Int32Writes(b[278..282]);
    Int32Writes(b[1324..1328]);
  }
}
