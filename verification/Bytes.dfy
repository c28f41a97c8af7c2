/** Bytes, and the 32-bit integers of the disk and wire formats. */
module Bytes {
  type byte = b: int | 0 <= b < 256
  type bytes = seq<byte>

  const TWO_31 := 0x8000_0000
  const TWO_32 := 0x1_0000_0000

  /** A number between 0 and 2^32: what a 32-bit unsigned variable holds. */
  type uint32 = n: int | 0 <= n < TWO_32

  /** Conversion to an unsigned variable. */
  function Wrap32(n: int): uint32 {
    n % TWO_32
  }

  /** Conversion to a signed variable. */
  function Signed32(u: uint32): (i: int)
    ensures -TWO_31 <= i < TWO_31
  {
    if u < TWO_31 then u else u - TWO_32
  }

  /** Network order, as htonl and ntohl leave it. */
  function BE32(u: uint32): (b: bytes)
    ensures |b| == 4
  {
    var b := LE32(u);
    [b[3], b[2], b[1], b[0]]
  }

  function FromBE32(b: bytes): uint32
    requires |b| == 4
  {
    FromLE32([b[3], b[2], b[1], b[0]])
  }

  /** The server's own order on disk (a memory image on a little-endian machine). */
  function LE32(u: uint32): (b: bytes)
    ensures |b| == 4
  {
    var n1 := u / 256;
    var n2 := n1 / 256;
    var n3 := n2 / 256;
    [u % 256, n1 % 256, n2 % 256, n3]
  }

  function FromLE32(b: bytes): uint32
    requires |b| == 4
  {
    0x100_0000 * (b[3] as int) + 0x1_0000 * (b[2] as int) + 0x100 * (b[1] as int) + b[0]
  }

  function SignedByte(b: byte): int {
    if b < 128 then b else b - 256
  }

  lemma {:induction false} BE32RoundTrip(u: uint32)
    ensures FromBE32(BE32(u)) == u
  {
    LE32RoundTrip(u);
    assert [LE32(u)[0], LE32(u)[1], LE32(u)[2], LE32(u)[3]] == LE32(u);
  }

  lemma {:induction false} LE32RoundTrip(u: uint32)
    ensures FromLE32(LE32(u)) == u
  {
  }

  /** In memory the least significant byte comes first, on the wire the most significant one. */
  lemma {:induction false} ByteOrder(u: uint32)
    ensures var a, b := LE32(u), BE32(u);
      && u == a[0] + 0x100 * (a[1] as int) + 0x1_0000 * (a[2] as int) + 0x100_0000 * (a[3] as int)
      && u == b[3] + 0x100 * (b[2] as int) + 0x1_0000 * (b[1] as int) + 0x100_0000 * (b[0] as int)
  {
    LE32RoundTrip(u);
  }

  lemma {:induction false} Digit(n: nat, x: byte)
    ensures (256 * n + x) / 256 == n && (256 * n + x) % 256 == x
  {
  }

  lemma {:induction false} LE32Back(b: bytes)
    requires |b| == 4
    ensures LE32(FromLE32(b)) == b
  {
    var n3: nat := b[3];
    var n2: nat := 256 * n3 + b[2];
    var n1: nat := 256 * n2 + b[1];
    assert FromLE32(b) == 256 * n1 + b[0];
    Digit(n1, b[0]);
    Digit(n2, b[1]);
    Digit(n3, b[2]);
  }
}
