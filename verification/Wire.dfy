/**
 The length-prefixed parts of the protocol: what the client writes and the server reads
 (lib/client_operators.h, server_operators.h), and the other way round.

 Numbers are signed 32-bit in network order. A decoder of a byte sequence either gets a
 value and leaves the rest, or finds the input cut short, or refuses its declared size.
 */
module Wire {
  import opened Bytes

  datatype Parsed<T> = Got(value: T, rest: bytes) | Cut | Refused(expected: int, size: int) | BadLength

  datatype Option<T> = None | Some(value: T)

  datatype Identity = Identity(subjectDN: bytes, issuerDN: bytes)

  /** The reply to a request for a temporary queue: error codes other than 0 come alone. */
  datatype TempReply = Made(queueID: int, name: bytes) | Failed(code: int)

  const NO_ERROR := 0

  // ---------- numbers and strings ----------

  /** What a signed 32-bit variable holds of a number. */
  function Int32(n: int): (i: int)
    ensures -TWO_31 <= i < TWO_31
  {
    Signed32(Wrap32(n))
  }

  function PutLong(n: int): (b: bytes)
    ensures |b| == 4
  {
    BE32(Wrap32(n))
  }

  function GetLong(s: bytes): Parsed<int> {
    if |s| < 4 then Cut else Got(Signed32(FromBE32(s[..4])), s[4..])
  }

  /** A negative length cannot be reserved. */
  function GetString(s: bytes, length: int): Parsed<bytes> {
    if length < 0 then BadLength
    else if |s| < length then Cut
    else Got(s[..length], s[length..])
  }

  lemma {:induction false} LongRoundTrip(n: int, rest: bytes)
    ensures GetLong(PutLong(n) + rest) == Got(Int32(n), rest)
  {
    BE32RoundTrip(Wrap32(n));
    assert (PutLong(n) + rest)[..4] == PutLong(n) && (PutLong(n) + rest)[4..] == rest;
  }

  lemma {:induction false} Int32Keeps(n: int)
    requires -TWO_31 <= n < TWO_31
    ensures Int32(n) == n
  {
  }

  lemma {:induction false} StringRoundTrip(b: bytes, rest: bytes)
    ensures GetString(b + rest, |b|) == Got(b, rest)
  {
    assert (b + rest)[..|b|] == b && (b + rest)[|b|..] == rest;
  }

  // ---------- requests made of strings: size, lengths, strings ----------

  function Lengths(fields: seq<bytes>): (ns: seq<int>)
    ensures |ns| == |fields|
  {
    seq(|fields|, i requires 0 <= i < |fields| => |fields[i]|)
  }

  function Sum(ns: seq<int>): int {
    if ns == [] then 0 else ns[0] + Sum(ns[1..])
  }

  function PutLongs(ns: seq<int>): bytes {
    if ns == [] then [] else PutLong(ns[0]) + PutLongs(ns[1..])
  }

  function Concat(fields: seq<bytes>): bytes {
    if fields == [] then [] else fields[0] + Concat(fields[1..])
  }

  function Prepend<T>(vs: seq<T>, p: Parsed<seq<T>>): Parsed<seq<T>> {
    match p
    case Got(ws, r) => Got(vs + ws, r)
    case Cut => Cut
    case BadLength => BadLength
    case Refused(e, z) => Refused(e, z)
  }

  function GetLongs(s: bytes, n: nat): (p: Parsed<seq<int>>)
    ensures p.Got? ==> |p.value| == n
  {
    if n == 0 then Got([], s)
    else
      match GetLong(s)
      case Got(v, r) => Prepend([v], GetLongs(r, n - 1))
      case _ => Cut
  }

  function GetStrings(s: bytes, ns: seq<int>): (p: Parsed<seq<bytes>>)
    ensures p.Got? ==> |p.value| == |ns|
  {
    if ns == [] then Got([], s)
    else
      match GetString(s, ns[0])
      case Got(v, r) => Prepend([v], GetStrings(r, ns[1..]))
      case BadLength => BadLength
      case _ => Cut
  }

  function Size(fields: seq<bytes>): int {
    4 * |fields| + Sum(Lengths(fields))
  }

  function EncodeFields(fields: seq<bytes>): bytes {
    PutLong(Size(fields)) + PutLongs(Lengths(fields)) + Concat(fields)
  }

  /** The server's decoder: the declared size must be at least the lengths', and be the sum it computes in 32 bits. */
  function DecodeFields(s: bytes, n: nat): (p: Parsed<seq<bytes>>)
    ensures p.Got? ==> |p.value| == n
  {
    match GetLong(s)
    case Got(size, s1) =>
      if size < 4 * n then Refused(4 * n, size)
      else
        (match GetLongs(s1, n)
         case Got(ns, s2) =>
           var expected := Int32(Sum(ns) + 4 * n);
           if size != expected then Refused(expected, size) else GetStrings(s2, ns)
         case _ => Cut)
    case _ => Cut
  }

  lemma {:induction false} PrependNone<T>(vs: seq<T>, p: Parsed<seq<T>>, rest: bytes)
    ensures Prepend([], p) == p && Prepend(vs, Got([], rest)) == Got(vs, rest)
  {
    if p.Got? {
      assert [] + p.value == p.value;
    }
    assert vs + [] == vs;
  }

  lemma {:induction false} PrependTwice<T>(a: seq<T>, b: seq<T>, p: Parsed<seq<T>>)
    ensures Prepend(a, Prepend(b, p)) == Prepend(a + b, p)
  {
    if p.Got? {
      assert a + (b + p.value) == a + b + p.value;
    }
  }

  lemma {:induction false} LongsStep(s: bytes, n: nat)
    requires n > 0
    ensures GetLongs(s, n) == if GetLong(s).Got? then Prepend([GetLong(s).value], GetLongs(GetLong(s).rest, n - 1))
      else Cut
  {
  }

  lemma {:induction false} StringsStep(s: bytes, n: int, ns: seq<int>)
    ensures GetStrings(s, [n] + ns) ==
      match GetString(s, n)
      case Got(v, r) => Prepend([v], GetStrings(r, ns))
      case BadLength => BadLength
      case _ => Cut
  {
    assert ([n] + ns)[1..] == ns;
  }

  lemma {:induction false} Regroup(a: bytes, b: bytes, c: bytes)
    ensures a + (b + c) == a + b + c
  {
  }

  lemma {:induction false} LongsRoundTrip(ns: seq<int>, rest: bytes)
    requires forall n :: n in ns ==> -TWO_31 <= n < TWO_31
    ensures GetLongs(PutLongs(ns) + rest, |ns|) == Got(ns, rest)
  {
    if ns == [] {
      assert [] + rest == rest;
    } else {
      var n, more := ns[0], ns[1..];
      assert ns == [n] + more && n in ns && forall m :: m in more ==> m in ns;
      LongRoundTrip(n, PutLongs(more) + rest);
      Int32Keeps(n);
      Regroup(PutLong(n), PutLongs(more), rest);
      LongsRoundTrip(more, rest);
      LongsStep(PutLongs(ns) + rest, |ns|);
    }
  }

  lemma {:induction false} StringsRoundTrip(fields: seq<bytes>, rest: bytes)
    ensures GetStrings(Concat(fields) + rest, Lengths(fields)) == Got(fields, rest)
  {
    if fields == [] {
      assert [] + rest == rest;
    } else {
      StringRoundTrip(fields[0], Concat(fields[1..]) + rest);
      assert Concat(fields) + rest == fields[0] + (Concat(fields[1..]) + rest);
      assert Lengths(fields)[1..] == Lengths(fields[1..]);
      StringsRoundTrip(fields[1..], rest);
      assert fields == [fields[0]] + fields[1..];
    }
  }

  /**
   Decoding a request, whatever follows it: the strings come back, with exactly what
   follows, if and only if the size, taken as a signed 32-bit number, is at least that of
   the lengths; otherwise the request is refused.
   */
  lemma {:induction false} FieldsRoundTrip(fields: seq<bytes>, rest: bytes)
    requires forall f :: f in fields ==> |f| < TWO_31
    ensures DecodeFields(EncodeFields(fields) + rest, |fields|) ==
      if Int32(Size(fields)) >= 4 * |fields| then Got(fields, rest) else Refused(4 * |fields|, Int32(Size(fields)))
  {
    var ns := Lengths(fields);
    var s1 := PutLongs(ns) + (Concat(fields) + rest);
    assert EncodeFields(fields) + rest == PutLong(Size(fields)) + s1;
    LongRoundTrip(Size(fields), s1);
    forall n | n in ns ensures 0 <= n < TWO_31 {
      var i :| 0 <= i < |ns| && ns[i] == n;
      assert fields[i] in fields;
    }
    LongsRoundTrip(ns, Concat(fields) + rest);
    StringsRoundTrip(fields, rest);
  }

  /** Requests whose size is less than 2^31 always come back. */
  lemma {:induction false} FieldsFit(fields: seq<bytes>, rest: bytes)
    requires Size(fields) < TWO_31
    ensures DecodeFields(EncodeFields(fields) + rest, |fields|) == Got(fields, rest)
  {
    FieldsInSize(fields);
    FieldsRoundTrip(fields, rest);
    Int32Keeps(Size(fields));
  }

  lemma {:induction false} FieldsInSize(fields: seq<bytes>)
    ensures Sum(Lengths(fields)) >= 0 && forall f :: f in fields ==> |f| <= Sum(Lengths(fields))
  {
    if fields != [] {
      assert Lengths(fields)[1..] == Lengths(fields[1..]);
      FieldsInSize(fields[1..]);
      assert fields == [fields[0]] + fields[1..];
    }
  }

  lemma {:induction false} LongInverse(s: bytes)
    requires |s| >= 4
    ensures GetLong(s).Got? && PutLong(GetLong(s).value) == s[..4] && s == PutLong(GetLong(s).value) + GetLong(s).rest
    ensures -TWO_31 <= GetLong(s).value < TWO_31
  {
    var b := s[..4];
    LE32Back([b[3], b[2], b[1], b[0]]);
    assert Wrap32(GetLong(s).value) == FromBE32(b);
    assert [b[0], b[1], b[2], b[3]] == b;
  }

  lemma {:induction false} LongsInverse(s: bytes, n: nat)
    requires GetLongs(s, n).Got?
    ensures s == PutLongs(GetLongs(s, n).value) + GetLongs(s, n).rest
  {
    if n > 0 {
      LongsStep(s, n);
      LongInverse(s);
      var v, r := GetLong(s).value, GetLong(s).rest;
      LongsInverse(r, n - 1);
      var vs, rest := GetLongs(r, n - 1).value, GetLongs(r, n - 1).rest;
      OneMoreLength(v, vs);
      Regroup(PutLong(v), PutLongs(vs), rest);
    }
  }

  lemma {:induction false} StringsInverse(s: bytes, ns: seq<int>)
    requires GetStrings(s, ns).Got?
    ensures s == Concat(GetStrings(s, ns).value) + GetStrings(s, ns).rest && Lengths(GetStrings(s, ns).value) == ns
  {
    if ns != [] {
      assert ns == [ns[0]] + ns[1..];
      StringsStep(s, ns[0], ns[1..]);
      var f, r := GetString(s, ns[0]).value, GetString(s, ns[0]).rest;
      StringsInverse(r, ns[1..]);
      var fs, rest := GetStrings(r, ns[1..]).value, GetStrings(r, ns[1..]).rest;
      OneMoreField(f, fs);
      Regroup(f, Concat(fs), rest);
    }
  }

  /** The server accepts nothing else: what it decodes is the encoding of what it gets out of it. */
  lemma {:induction false} FieldsInverse(s: bytes, n: nat)
    requires DecodeFields(s, n).Got?
    ensures var p := DecodeFields(s, n); s == EncodeFields(p.value) + p.rest && |p.value| == n
  {
    LongInverse(s);
    var s1 := GetLong(s).rest;
    LongsInverse(s1, n);
    var ns, s2 := GetLongs(s1, n).value, GetLongs(s1, n).rest;
    StringsInverse(s2, ns);
    var fields, rest := GetStrings(s2, ns).value, GetStrings(s2, ns).rest;
    assert PutLong(GetLong(s).value) == PutLong(Size(fields));
    Regroup(PutLongs(ns), Concat(fields), rest);
    Regroup(PutLong(Size(fields)), PutLongs(ns) + Concat(fields), rest);
    Regroup(PutLong(Size(fields)), PutLongs(ns), Concat(fields));
  }

  lemma {:induction false} OneMoreLength(n: int, ns: seq<int>)
    ensures Sum([n] + ns) == n + Sum(ns) && PutLongs([n] + ns) == PutLong(n) + PutLongs(ns)
  {
    assert ([n] + ns)[1..] == ns;
  }

  lemma {:induction false} OneMoreField(f: bytes, fields: seq<bytes>)
    ensures Concat([f] + fields) == f + Concat(fields) && Lengths([f] + fields) == [|f|] + Lengths(fields)
  {
    assert ([f] + fields)[1..] == fields;
  }

  lemma {:induction false} ThreeStrings(a: bytes, b: bytes, c: bytes)
    ensures Concat([a, b, c]) == a + (b + (c + [])) && Lengths([a, b, c]) == [|a|, |b|, |c|]
  {
    assert [a, b, c] == [a] + ([b] + ([c] + []));
    OneMoreField(c, []);
    OneMoreField(b, [c] + []);
    OneMoreField(a, [b] + ([c] + []));
  }

  lemma {:induction false} ThreeLongs(a: int, b: int, c: int)
    ensures Sum([a, b, c]) == a + b + c && PutLongs([a, b, c]) == PutLong(a) + (PutLong(b) + (PutLong(c) + []))
  {
    assert [a, b, c] == [a] + ([b] + ([c] + []));
    OneMoreLength(c, []);
    OneMoreLength(b, [c] + []);
    OneMoreLength(a, [b] + ([c] + []));
  }

  lemma {:induction false} Flatten(x: bytes, a: bytes, b: bytes, c: bytes)
    ensures a + (b + (c + [])) == a + b + c
    ensures x + (a + b + c) == x + a + b + c
  {
  }

  /** The bytes of a request to add an identity: its size, the three lengths, then the three strings. */
  lemma {:induction false} RequestBytes(subject: bytes, issuer: bytes, user: bytes)
    requires 12 + |subject| + |issuer| + |user| < TWO_31
    ensures EncodeFields([subject, issuer, user]) ==
      PutLong(12 + |subject| + |issuer| + |user|) + PutLong(|subject|) + PutLong(|issuer|) + PutLong(|user|)
      + (subject + issuer + user)
  {
    ThreeStrings(subject, issuer, user);
    ThreeLongs(|subject|, |issuer|, |user|);
    Flatten([], subject, issuer, user);
    Flatten(PutLong(12 + |subject| + |issuer| + |user|), PutLong(|subject|), PutLong(|issuer|), PutLong(|user|));
  }

  /** A number goes out in four bytes, the most significant first, in two's complement. */
  lemma {:induction false} LongBytes(n: int)
    requires -TWO_31 <= n < TWO_31
    ensures var b := PutLong(n);
      |b| == 4 && 0x100_0000 * (b[0] as int) + 0x1_0000 * (b[1] as int) + 0x100 * (b[2] as int) + b[3]
        == if n < 0 then n + TWO_32 else n
  {
    ByteOrder(Wrap32(n));
  }

  // ---------- a list of identities ----------

  function EncodeIdentity(id: Identity): bytes {
    PutLong(|id.subjectDN|) + id.subjectDN + (PutLong(|id.issuerDN|) + id.issuerDN)
  }

  function EncodeEach(ids: seq<Identity>): bytes {
    if ids == [] then [] else EncodeIdentity(ids[0]) + EncodeEach(ids[1..])
  }

  function EncodeIdentities(ids: seq<Identity>): bytes {
    PutLong(|ids|) + EncodeEach(ids)
  }

  function GetCounted(s: bytes): Parsed<bytes> {
    match GetLong(s)
    case Got(n, r) => GetString(r, n)
    case _ => Cut
  }

  function GetIdentity(s: bytes): Parsed<Identity> {
    match GetCounted(s)
    case Got(subject, r) =>
      (match GetCounted(r)
       case Got(issuer, r') => Got(Identity(subject, issuer), r')
       case BadLength => BadLength
       case _ => Cut)
    case BadLength => BadLength
    case _ => Cut
  }

  function GetIdentities(s: bytes, count: int): Parsed<seq<Identity>>
    decreases if count < 0 then 0 else count
  {
    if count <= 0 then Got([], s)
    else
      match GetIdentity(s)
      case Got(id, r) => Prepend([id], GetIdentities(r, count - 1))
      case BadLength => BadLength
      case _ => Cut
  }

  function DecodeIdentities(s: bytes): Parsed<seq<Identity>> {
    match GetLong(s)
    case Got(count, r) => GetIdentities(r, count)
    case _ => Cut
  }

  lemma {:induction false} CountedRoundTrip(b: bytes, rest: bytes)
    requires |b| < TWO_31
    ensures GetCounted(PutLong(|b|) + b + rest) == Got(b, rest)
  {
    assert PutLong(|b|) + b + rest == PutLong(|b|) + (b + rest);
    LongRoundTrip(|b|, b + rest);
    Int32Keeps(|b|);
    StringRoundTrip(b, rest);
  }

  predicate Fits(id: Identity) {
    |id.subjectDN| < TWO_31 && |id.issuerDN| < TWO_31
  }

  lemma {:induction false} IdentityRoundTrip(id: Identity, rest: bytes)
    requires Fits(id)
    ensures GetIdentity(EncodeIdentity(id) + rest) == Got(id, rest)
  {
    var second := PutLong(|id.issuerDN|) + id.issuerDN + rest;
    assert EncodeIdentity(id) + rest == PutLong(|id.subjectDN|) + id.subjectDN + second;
    CountedRoundTrip(id.subjectDN, second);
    CountedRoundTrip(id.issuerDN, rest);
  }

  lemma {:induction false} IdentitiesNext(s: bytes, count: int)
    requires count > 0
    ensures GetIdentities(s, count) ==
      match GetIdentity(s)
      case Got(id, r) => Prepend([id], GetIdentities(r, count - 1))
      case BadLength => BadLength
      case _ => Cut
  {
  }

  lemma {:induction false} EncodeEachSplit(ids: seq<Identity>, rest: bytes)
    requires ids != []
    ensures EncodeEach(ids) + rest == EncodeIdentity(ids[0]) + (EncodeEach(ids[1..]) + rest)
  {
  }

  lemma {:induction false} EachNext(s: bytes, id: Identity, tail: bytes, ids: seq<Identity>, rest: bytes, count: int)
    requires count > 0 && GetIdentity(s) == Got(id, tail) && GetIdentities(tail, count - 1) == Got(ids, rest)
    ensures GetIdentities(s, count) == Got([id] + ids, rest)
  {
  }

  lemma {:induction false} EachRoundTrip(ids: seq<Identity>, rest: bytes)
    requires forall i :: 0 <= i < |ids| ==> Fits(ids[i])
    ensures GetIdentities(EncodeEach(ids) + rest, |ids|) == Got(ids, rest)
  {
    if ids == [] {
      assert [] + rest == rest;
    } else {
      var s, tail := EncodeEach(ids) + rest, EncodeEach(ids[1..]) + rest;
      EncodeEachSplit(ids, rest);
      IdentityRoundTrip(ids[0], tail);
      EachRoundTrip(ids[1..], rest);
      EachNext(s, ids[0], tail, ids[1..], rest, |ids|);
      assert ids == [ids[0]] + ids[1..];
    }
  }

  /** A list of identities comes back with exactly what follows it. */
  lemma {:induction false} IdentitiesRoundTrip(ids: seq<Identity>, rest: bytes)
    requires |ids| < TWO_31 && forall i :: 0 <= i < |ids| ==> Fits(ids[i])
    ensures DecodeIdentities(EncodeIdentities(ids) + rest) == Got(ids, rest)
  {
    assert EncodeIdentities(ids) + rest == PutLong(|ids|) + (EncodeEach(ids) + rest);
    LongRoundTrip(|ids|, EncodeEach(ids) + rest);
    Int32Keeps(|ids|);
    EachRoundTrip(ids, rest);
  }

  lemma {:induction false} CountedInverse(s: bytes)
    requires GetCounted(s).Got?
    ensures var b := GetCounted(s).value; s == PutLong(|b|) + b + GetCounted(s).rest && |b| < TWO_31
  {
    LongInverse(s);
    Regroup(PutLong(GetLong(s).value), GetCounted(s).value, GetCounted(s).rest);
  }

  lemma {:induction false} IdentityInverse(s: bytes)
    requires GetIdentity(s).Got?
    ensures s == EncodeIdentity(GetIdentity(s).value) + GetIdentity(s).rest && Fits(GetIdentity(s).value)
  {
    CountedInverse(s);
    var a, r := GetCounted(s).value, GetCounted(s).rest;
    CountedInverse(r);
    var b, r' := GetCounted(r).value, GetCounted(r).rest;
    Regroup(PutLong(|a|) + a, PutLong(|b|) + b, r');
  }

  lemma {:induction false} EachOn(id: Identity, ids: seq<Identity>, rest: bytes)
    ensures EncodeIdentity(id) + (EncodeEach(ids) + rest) == EncodeEach([id] + ids) + rest
  {
    EncodeEachSplit([id] + ids, rest);
    assert ([id] + ids)[1..] == ids;
  }

  /** What is read of n identities; the quantifier only keeps the definition folded. */
  ghost predicate Lists(s: bytes, n: nat, all: seq<Identity>, rest: bytes) {
    forall t {:trigger GetIdentities(t, n)} :: t == s ==> GetIdentities(t, n) == Got(all, rest)
  }

  lemma {:induction false} EachParts(s: bytes, n: nat, all: seq<Identity>, rest: bytes)
    returns (id: Identity, tail: bytes, ids: seq<Identity>)
    requires n > 0 && Lists(s, n, all, rest)
    ensures Lists(tail, n - 1, ids, rest) && all == [id] + ids && s == EncodeIdentity(id) + tail
  {
    IdentitiesNext(s, n);
    IdentityInverse(s);
    id, tail := GetIdentity(s).value, GetIdentity(s).rest;
    ids := GetIdentities(tail, n - 1).value;
  }

  lemma {:induction false} EachNone(s: bytes, count: int, all: seq<Identity>, rest: bytes)
    requires count <= 0 && GetIdentities(s, count) == Got(all, rest)
    ensures all == [] && s == EncodeEach(all) + rest
  {
    assert [] + rest == rest;
  }

  /** The bytes are those of the list, and then the rest. */
  ghost predicate IsEach(s: bytes, all: seq<Identity>, rest: bytes) {
    s == EncodeEach(all) + rest
  }

  lemma {:induction false} EachPrepend(s: bytes, id: Identity, tail: bytes, ids: seq<Identity>, rest: bytes)
    requires s == EncodeIdentity(id) + tail && IsEach(tail, ids, rest)
    ensures IsEach(s, [id] + ids, rest)
  {
    EachOn(id, ids, rest);
  }

  lemma {:induction false} EachInverse(s: bytes, n: nat, all: seq<Identity>, rest: bytes)
    requires Lists(s, n, all, rest)
    ensures IsEach(s, all, rest) && |all| == n
    decreases n
  {
    if n == 0 {
      assert GetIdentities(s, 0) == Got(all, rest);
      EachNone(s, 0, all, rest);
    } else {
      var id, tail, ids := EachParts(s, n, all, rest);
      EachInverse(tail, n - 1, ids, rest);
      EachPrepend(s, id, tail, ids, rest);
    }
  }

  /** What is decoded as a list is the encoding of that list, but that a negative count stands for none, too. */
  lemma {:induction false} IdentitiesInverse(s: bytes)
    requires DecodeIdentities(s).Got?
    ensures var p, count := DecodeIdentities(s), GetLong(s).value;
      && s == PutLong(count) + (EncodeEach(p.value) + p.rest)
      && |p.value| == if count > 0 then count else 0
  {
    LongInverse(s);
    var count, s1, ids, rest := GetLong(s).value, GetLong(s).rest, DecodeIdentities(s).value, DecodeIdentities(s).rest;
    if count <= 0 {
      EachNone(s1, count, ids, rest);
    } else {
      EachInverse(s1, count, ids, rest);
    }
  }

  /** The bytes of a list of one identity: the count, and each name behind its length, the subject's first. */
  lemma {:induction false} IdentityBytes(id: Identity)
    requires Fits(id)
    ensures EncodeIdentities([id]) ==
      PutLong(1) + (PutLong(|id.subjectDN|) + id.subjectDN + (PutLong(|id.issuerDN|) + id.issuerDN))
  {
    EncodeEachSplit([id], []);
    assert [id][1..] == [];
  }

  // ---------- the reply that names a temporary queue ----------

  function EncodeReply(r: TempReply): bytes {
    match r
    case Made(queueID, name) => PutLong(NO_ERROR) + PutLong(queueID) + PutLong(|name|) + name
    case Failed(code) => PutLong(code)
  }

  function DecodeReply(s: bytes): Parsed<TempReply> {
    match GetLong(s)
    case Got(code, r) =>
      if code != NO_ERROR then Got(Failed(code), r)
      else
        (match GetLong(r)
         case Got(queueID, r') =>
           (match GetCounted(r')
            case Got(name, r'') => Got(Made(queueID, name), r'')
            case BadLength => BadLength
            case _ => Cut)
         case _ => Cut)
    case _ => Cut
  }

  lemma {:induction false} ReplyRoundTrip(r: TempReply, rest: bytes)
    requires match r
      case Made(queueID, name) => -TWO_31 <= queueID < TWO_31 && |name| < TWO_31
      case Failed(code) => -TWO_31 <= code < TWO_31 && code != NO_ERROR
    ensures DecodeReply(EncodeReply(r) + rest) == Got(r, rest)
  {
    match r
    case Failed(code) =>
      LongRoundTrip(code, rest);
      Int32Keeps(code);
    case Made(queueID, name) =>
      var tail := PutLong(|name|) + name + rest;
      assert EncodeReply(r) + rest == PutLong(NO_ERROR) + (PutLong(queueID) + tail);
      LongRoundTrip(NO_ERROR, PutLong(queueID) + tail);
      LongRoundTrip(queueID, tail);
      Int32Keeps(queueID);
      CountedRoundTrip(name, rest);
  }

  /** What is decoded as a reply is the encoding of that reply. */
  lemma {:induction false} ReplyInverse(s: bytes)
    requires DecodeReply(s).Got?
    ensures s == EncodeReply(DecodeReply(s).value) + DecodeReply(s).rest
  {
    LongInverse(s);
    var r := GetLong(s).rest;
    if GetLong(s).value == NO_ERROR {
      LongInverse(r);
      CountedInverse(GetLong(r).rest);
      var id, name := PutLong(GetLong(r).value), GetCounted(GetLong(r).rest).value;
      var rest := DecodeReply(s).rest;
      Regroup(id, PutLong(|name|) + name, rest);
      Regroup(PutLong(NO_ERROR), id + (PutLong(|name|) + name), rest);
      Regroup(PutLong(NO_ERROR), id, PutLong(|name|) + name);
      Regroup(PutLong(NO_ERROR) + id, PutLong(|name|), name);
    }
  }

  // ---------- the same on streams ----------

  /** Some of the identities have been read; the others are still to come. */
  ghost predicate Reading(from: bytes, count: int, ids: seq<Identity>, data: bytes, left: int) {
    GetIdentities(from, count) == Prepend(ids, GetIdentities(data, left))
  }

  lemma {:induction false} ReadingStarts(from: bytes, count: int)
    ensures Reading(from, count, [], from, count)
  {
    PrependNone([], GetIdentities(from, count), []);
  }

  lemma {:induction false} ReadingEnds(from: bytes, count: int, ids: seq<Identity>, data: bytes, left: int)
    requires left <= 0 && Reading(from, count, ids, data, left)
    ensures GetIdentities(from, count) == Got(ids, data)
  {
    PrependNone(ids, Cut, data);
  }

  /** An input stream: what is still to be read, and whether reading has failed. */
  class Input {
    var data: bytes
    var good: bool

    method ReadLong() returns (n: int)
      modifies this
      ensures match GetLong(old(data))
        case Got(v, r) => n == v && data == r && good == old(good)
        case _ => !good
    {
      if |data| < 4 {
        n, data, good := 0, [], false;
      } else {
        n, data := Signed32(FromBE32(data[..4])), data[4..];
      }
    }

    /** readstring: reserves the length, then takes one byte at a time. */
    method ReadString(length: int) returns (bad: bool, b: bytes)
      requires good
      modifies this
      ensures match GetString(old(data), length)
        case Got(v, r) => !bad && good && b == v && data == r
        case BadLength => bad
        case _ => !bad && !good
    {
      bad, b := length < 0, [];
      var left := length;
      while left > 0 && good
        invariant if length >= 0 then left >= 0 && left + |b| == length && |b| <= |old(data)| else left == length
        invariant length >= 0 ==> b == old(data)[..|b|] && data == old(data)[|b|..]
        invariant good
        decreases left
      {
        if data == [] {
          good := false;
          return;
        }
        b, data := b + [data[0]], data[1..];
        left := left - 1;
      }
    }

    method ReadLengths(n: nat) returns (ns: seq<int>)
      requires good
      modifies this
      ensures if good then GetLongs(old(data), n) == Got(ns, data) else GetLongs(old(data), n).Cut?
    {
      ns := [];
      PrependNone([], GetLongs(data, n), []);
      while |ns| < n && good
        invariant |ns| <= n
        invariant good ==> GetLongs(old(data), n) == Prepend(ns, GetLongs(data, n - |ns|))
        invariant !good ==> GetLongs(old(data), n).Cut?
        decreases n - |ns|, good
      {
        LongsStep(data, n - |ns|);
        ghost var s := data;
        var v := ReadLong();
        if good {
          PrependTwice(ns, [v], GetLongs(data, n - |ns| - 1));
          ns := ns + [v];
        }
      }
      PrependNone(ns, Cut, data);
    }

    method ReadStrings(ns: seq<int>) returns (p: Parsed<seq<bytes>>)
      requires good
      modifies this
      ensures p == GetStrings(old(data), ns) && (p.Got? ==> good && data == p.rest)
    {
      var fields: seq<bytes> := [];
      assert ns[0..] == ns;
      PrependNone([], GetStrings(data, ns), []);
      for i := 0 to |ns|
        invariant good && |fields| == i && GetStrings(old(data), ns) == Prepend(fields, GetStrings(data, ns[i..]))
      {
        assert ns[i..] == [ns[i]] + ns[i + 1..];
        StringsStep(data, ns[i], ns[i + 1..]);
        ghost var s := data;
        var bad, f := ReadString(ns[i]);
        if bad {
          return BadLength;
        }
        if !good {
          return Cut;
        }
        PrependTwice(fields, [f], GetStrings(data, ns[i + 1..]));
        fields := fields + [f];
      }
      assert ns[|ns|..] == [];
      PrependNone(fields, Cut, data);
      p := Got(fields, data);
    }

    /** The decoders of the requests to add, remove and enumerate identities, of 3, 2 and 1 strings. */
    method ReadRequest(n: nat) returns (p: Parsed<seq<bytes>>)
      requires good
      modifies this
      ensures p == DecodeFields(old(data), n) && (p.Got? ==> good && data == p.rest)
    {
      var headerSize := 4 * n;
      var size := ReadLong();
      if !good {
        return Cut;
      }
      if size < headerSize {
        return Refused(headerSize, size);
      }
      var ns := ReadLengths(n);
      if !good {
        return Cut;
      }
      var expectedSize := Int32(Sum(ns) + headerSize);
      if size != expectedSize {
        return Refused(expectedSize, size);
      }
      p := ReadStrings(ns);
    }

    method ReadCounted() returns (p: Parsed<bytes>)
      requires good
      modifies this
      ensures p == GetCounted(old(data)) && (p.Got? ==> good && data == p.rest)
    {
      var length := ReadLong();
      if !good {
        return Cut;
      }
      var bad, b := ReadString(length);
      p := if bad then BadLength else if good then Got(b, data) else Cut;
    }

    method ReadIdentities() returns (p: Parsed<seq<Identity>>)
      requires good
      modifies this
      ensures p == DecodeIdentities(old(data)) && (p.Got? ==> good && data == p.rest)
    {
      var count := ReadLong();
      if !good {
        return Cut;
      }
      p := ReadList(count);
    }

    method ReadList(count: int) returns (p: Parsed<seq<Identity>>)
      requires good
      modifies this
      ensures p == GetIdentities(old(data), count) && (p.Got? ==> good && data == p.rest)
    {
      var ids: seq<Identity> := [];
      var left := count;
      ghost var from := data;
      ReadingStarts(data, count);
      while left > 0
        invariant good && Reading(from, count, ids, data, left)
        decreases left
      {
        var stop;
        stop, ids := ReadNextIdentity(ids, left, from, count);
        if stop.Some? {
          return stop.value;
        }
        left := left - 1;
      }
      ReadingEnds(from, count, ids, data, left);
      p := Got(ids, data);
    }

    /** One turn of the loop: another identity, or the end of it all. */
    method ReadNextIdentity(ids: seq<Identity>, left: int, ghost from: bytes, ghost count: int)
      returns (stop: Option<Parsed<seq<Identity>>>, ids': seq<Identity>)
      requires good && left > 0 && Reading(from, count, ids, data, left)
      modifies this
      ensures stop.Some? ==> !stop.value.Got? && stop.value == GetIdentities(from, count)
      ensures stop.None? ==> good && Reading(from, count, ids', data, left - 1)
    {
      IdentitiesNext(data, left);
      var id := ReadIdentity();
      if id.Got? {
        PrependTwice(ids, [id.value], GetIdentities(data, left - 1));
        return None, ids + [id.value];
      }
      return Some(if id.BadLength? then BadLength else Cut), ids;
    }

    method ReadIdentity() returns (p: Parsed<Identity>)
      requires good
      modifies this
      ensures p == GetIdentity(old(data)) && (p.Got? ==> good && data == p.rest)
    {
      var subject := ReadCounted();
      if !subject.Got? {
        return if subject.BadLength? then BadLength else Cut;
      }
      var issuer := ReadCounted();
      if !issuer.Got? {
        return if issuer.BadLength? then BadLength else Cut;
      }
      p := Got(Identity(subject.value, issuer.value), data);
    }

    method ReadReply() returns (p: Parsed<TempReply>)
      requires good
      modifies this
      ensures p == DecodeReply(old(data)) && (p.Got? ==> good && data == p.rest)
    {
      var code := ReadLong();
      if !good {
        return Cut;
      }
      if code != NO_ERROR {
        return Got(Failed(code), data);
      }
      var queueID := ReadLong();
      if !good {
        return Cut;
      }
      var name := ReadCounted();
      match name
      case Got(b, r) => p := Got(Made(queueID, b), data);
      case BadLength => p := BadLength;
      case _ => p := Cut;
    }
  }

  /** An output stream that does not fail. */
  class Output {
    var written: bytes

    method WriteLong(n: int)
      modifies this
      ensures written == old(written) + PutLong(n)
    {
      written := written + PutLong(n);
    }

    method Write(b: bytes)
      modifies this
      ensures written == old(written) + b
    {
      written := written + b;
    }

    method WriteLongs(ns: seq<int>)
      modifies this
      ensures written == old(written) + PutLongs(ns)
    {
      assert ns[0..] == ns;
      for i := 0 to |ns|
        invariant written + PutLongs(ns[i..]) == old(written) + PutLongs(ns)
      {
        assert PutLongs(ns[i..]) == PutLong(ns[i]) + PutLongs(ns[i + 1..]) by {
          assert ns[i..][1..] == ns[i + 1..];
        }
        WriteLong(ns[i]);
      }
    }

    method WriteStrings(fields: seq<bytes>)
      modifies this
      ensures written == old(written) + Concat(fields)
    {
      assert fields[0..] == fields;
      for i := 0 to |fields|
        invariant written + Concat(fields[i..]) == old(written) + Concat(fields)
      {
        assert Concat(fields[i..]) == fields[i] + Concat(fields[i + 1..]) by {
          assert fields[i..][1..] == fields[i + 1..];
        }
        Write(fields[i]);
      }
    }

    /** The encoders of the same requests. */
    method WriteRequest(fields: seq<bytes>)
      modifies this
      ensures written == old(written) + EncodeFields(fields)
    {
      var ns := Lengths(fields);
      WriteLong(4 * |fields| + Sum(ns));
      WriteLongs(ns);
      WriteStrings(fields);
    }

    method WriteIdentity(id: Identity)
      modifies this
      ensures written == old(written) + EncodeIdentity(id)
    {
      WriteLong(|id.subjectDN|);
      Write(id.subjectDN);
      WriteLong(|id.issuerDN|);
      Write(id.issuerDN);
    }

    method WriteIdentities(ids: seq<Identity>)
      modifies this
      ensures written == old(written) + EncodeIdentities(ids)
    {
      WriteLong(|ids|);
      assert ids[0..] == ids;
      for i := 0 to |ids|
        invariant written + EncodeEach(ids[i..]) == old(written) + EncodeIdentities(ids)
      {
        assert EncodeEach(ids[i..]) == EncodeIdentity(ids[i]) + EncodeEach(ids[i + 1..]) by {
          assert ids[i..][1..] == ids[i + 1..];
        }
        WriteIdentity(ids[i]);
      }
    }

    method WriteReply(r: TempReply)
      modifies this
      ensures written == old(written) + EncodeReply(r)
    {
      match r
      case Made(queueID, name) =>
        WriteLong(NO_ERROR);
        WriteLong(queueID);
        WriteLong(|name|);
        Write(name);
      case Failed(code) =>
        WriteLong(code);
    }
  }
}
