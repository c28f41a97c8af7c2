/**
 The cache of open file streams (StreamCache.h): an array of entries in which a hit moves
 one place forward and a miss takes the last place.

 Streams are numbered as they are opened. The ghost ledger records which were opened, how
 often each was closed, and how many loans of each are out. An entry can only tell that its
 stream is lent, not how often. `Valid` therefore asks for single loans, and stays true if
 and only if no file is fetched again while its cached stream is lent (`RunExact`); as long
 as it does, no lent stream is closed, and every stream is closed exactly once by the time
 the cache is destroyed. `TwoBorrowers` is a run in which a stream is closed under its second
 borrower, and then again.
 */
module StreamCache {
  import opened Bytes

  datatype Mode = Mode(input: bool, output: bool, app: bool, ate: bool, trunc: bool, binary: bool)

  datatype Entry = Entry(filename: string, stream: nat, inuse: bool, mode: Mode)

  datatype Ledger = Ledger(openings: set<nat>, closes: multiset<nat>, loans: multiset<nat>)

  /** `next` numbers the next stream to be opened. */
  datatype State = State(entries: seq<Entry>, next: nat, ledger: Ledger)

  /** The stream can do all the input and output that is asked for. */
  predicate Covers(have: Mode, want: Mode) {
    (want.input ==> have.input) && (want.output ==> have.output)
  }

  /** A stream that is opened again can do both, and is not positioned at the end. */
  function Reopened(mode: Mode): Mode {
    mode.(input := true, output := true, app := false, ate := false)
  }

  function Count(n: uint32): uint32 {
    var m: int := n;
    Wrap32(m + 1)
  }

  // ---------- what the operations do to the entries ----------

  /** The first entry for a file, or the number of entries. */
  function Find(es: seq<Entry>, name: string): (x: nat)
    ensures x <= |es| && (x < |es| ==> es[x].filename == name)
    ensures forall i :: 0 <= i < x ==> es[i].filename != name
  {
    if es == [] then 0
    else if es[0].filename == name then 0
    else 1 + Find(es[1..], name)
  }

  function Forward(es: seq<Entry>, x: nat): seq<Entry>
    requires x < |es|
  {
    if x == 0 then es else es[x := es[x - 1]][x - 1 := es[x]]
  }

  function Place(x: nat): nat {
    if x == 0 then 0 else x - 1
  }

  /** A stream that is opened in the place of one that cannot do what is asked. */
  function Renewed(e: Entry, mode: Mode, next: nat): Entry {
    Entry(e.filename, next, true, Reopened(mode))
  }

  function Reused(e: Entry, mode: Mode, next: nat): Entry {
    if Covers(e.mode, mode) then e.(inuse := true) else Renewed(e, mode, next)
  }

  function Lent(l: Ledger, f: nat): Ledger {
    l.(loans := l.loans + multiset{f})
  }

  function Returned(l: Ledger, f: nat): Ledger {
    l.(loans := l.loans - multiset{f})
  }

  function Opening(l: Ledger, f: nat): Ledger {
    l.(openings := l.openings + {f})
  }

  function Closing(l: Ledger, f: nat): Ledger {
    l.(closes := l.closes + multiset{f})
  }

  /** An entry that gives way: its stream is closed, unless somebody still has it. */
  function Ousted(l: Ledger, e: Entry): Ledger {
    if e.inuse then l else Closing(l, e.stream)
  }

  /** The file is cached at place x: its stream is lent, or closed and opened again if it will not do. */
  function FetchAt(s: State, x: nat, mode: Mode): State
    requires x < |s.entries|
  {
    var e, es := s.entries[x], Forward(s.entries, x)[Place(x) := Reused(s.entries[x], mode, s.next)];
    if Covers(e.mode, mode) then State(es, s.next, Lent(s.ledger, e.stream))
    else State(es, s.next + 1, Lent(Opening(Closing(s.ledger, e.stream), s.next), s.next))
  }

  /** The file is not cached: a new stream takes a free place, or the last one. */
  function FetchNew(s: State, size: nat, e: Entry): State
    requires |s.entries| <= size && size >= 1
  {
    if |s.entries| < size then State(s.entries + [e], s.next + 1, Lent(Opening(s.ledger, s.next), s.next))
    else
      var y := |s.entries| - 1;
      State(s.entries[y := e], s.next + 1, Lent(Opening(Ousted(s.ledger, s.entries[y]), s.next), s.next))
  }

  function Fetched(s: State, size: nat, name: string, mode: Mode): State
    requires |s.entries| <= size && size >= 1
  {
    var x := Find(s.entries, name);
    if x < |s.entries| then FetchAt(s, x, mode) else FetchNew(s, size, Entry(name, s.next, true, mode))
  }

  /** The stream that a fetch returns. */
  function StreamOf(s: State, name: string, mode: Mode): nat {
    var x := Find(s.entries, name);
    if x < |s.entries| && Covers(s.entries[x].mode, mode) then s.entries[x].stream else s.next
  }

  /** The first entry for a stream, or the number of entries. */
  function FindStream(es: seq<Entry>, f: nat): (x: nat)
    ensures x <= |es| && (x < |es| ==> es[x].stream == f)
    ensures forall i :: 0 <= i < x ==> es[i].stream != f
  {
    if es == [] then 0
    else if es[0].stream == f then 0
    else 1 + FindStream(es[1..], f)
  }

  /** A stream that comes back stays open if it is cached. */
  function Given(s: State, f: nat): State {
    var x := FindStream(s.entries, f);
    if x < |s.entries| then
      State(s.entries[x := s.entries[x].(inuse := false)], s.next, Returned(s.ledger, f))
    else
      State(s.entries, s.next, Closing(Returned(s.ledger, f), f))
  }

  /** The file's stream is lent. */
  predicate Held(es: seq<Entry>, name: string) {
    var x := Find(es, name);
    x < |es| && es[x].inuse
  }

  /** The file's stream is lent, and cannot do what is asked for now. */
  predicate Spoils(es: seq<Entry>, name: string, mode: Mode) {
    Held(es, name) && !Covers(es[Find(es, name)].mode, mode)
  }

  function Without(es: seq<Entry>, name: string): seq<Entry> {
    var x := Find(es, name);
    if x < |es| then es[..x] + es[x + 1..] else es
  }

  function Removed(s: State, name: string): State {
    var x := Find(s.entries, name);
    if x < |s.entries| then State(Without(s.entries, name), s.next, Ousted(s.ledger, s.entries[x])) else s
  }

  // ---------- the invariant ----------

  ghost function Streams(es: seq<Entry>): set<nat> {
    set e | e in es :: e.stream
  }

  ghost predicate Apart(es: seq<Entry>) {
    forall i, j :: 0 <= i < j < |es| ==> es[i].filename != es[j].filename && es[i].stream != es[j].stream
  }

  ghost predicate Tracked(e: Entry, l: Ledger) {
    e.stream in l.openings && l.closes[e.stream] == 0 && (e.inuse <==> e.stream in l.loans)
  }

  /** Lent streams are open; closed streams were closed once; open ones are cached or lent. */
  ghost predicate Balanced(streams: set<nat>, next: nat, l: Ledger) {
    && (forall f :: f in l.loans ==> f in l.openings && l.closes[f] == 0)
    && (forall f :: f in l.openings ==> f < next && l.closes[f] <= 1)
    && (forall f :: f in l.openings && l.closes[f] == 0 ==> f in l.loans || f in streams)
    && (forall f :: f in l.closes ==> f in l.openings)
  }

  ghost predicate Inv(es: seq<Entry>, size: nat, next: nat, l: Ledger) {
    && |es| <= size && Apart(es)
    && (forall e :: e in es ==> Tracked(e, l))
    && Balanced(Streams(es), next, l)
  }

  ghost predicate InOrder(s: State, size: nat) {
    Inv(s.entries, size, s.next, s.ledger)
  }

  /** Nothing is lent to two borrowers. */
  ghost predicate Single(l: Ledger) {
    forall f :: l.loans[f] <= 1
  }

  // ---------- what keeps it ----------

  lemma {:induction false} StreamsReplace(es: seq<Entry>, y: nat, e: Entry)
    requires Apart(es) && y < |es|
    ensures Streams(es[y := e]) == Streams(es) - {es[y].stream} + {e.stream}
  {
    var es' := es[y := e];
    forall f | f in Streams(es') ensures f == e.stream || (f in Streams(es) && f != es[y].stream) {
      var i :| 0 <= i < |es'| && es'[i].stream == f;
      assert i != y ==> es[i] in es;
    }
    forall f | f in Streams(es) && f != es[y].stream ensures f in Streams(es') {
      var i :| 0 <= i < |es| && es[i].stream == f;
      assert es'[i] in es';
    }
    assert es'[y] in es';
  }

  lemma {:induction false} TrackedAll(es: seq<Entry>, size: nat, next: nat, l: Ledger)
    requires Inv(es, size, next, l)
    ensures forall i :: 0 <= i < |es| ==> Tracked(es[i], l) && es[i].stream in Streams(es) && es[i].stream < next
  {
    forall i | 0 <= i < |es| ensures Tracked(es[i], l) && es[i].stream in Streams(es) {
      assert es[i] in es;
    }
  }

  lemma {:induction false} LendInv(es: seq<Entry>, size: nat, next: nat, l: Ledger, y: nat)
    requires Inv(es, size, next, l) && y < |es|
    ensures Inv(es[y := es[y].(inuse := true)], size, next, Lent(l, es[y].stream))
  {
    TrackedAll(es, size, next, l);
    StreamsReplace(es, y, es[y].(inuse := true));
  }

  /** A cached stream comes back: in order if and only if that was the only loan of it. */
  lemma {:induction false} ReleaseExact(es: seq<Entry>, size: nat, next: nat, l: Ledger, y: nat)
    requires Inv(es, size, next, l) && y < |es| && es[y].stream in l.loans
    ensures Inv(es[y := es[y].(inuse := false)], size, next, Returned(l, es[y].stream)) <==> l.loans[es[y].stream] == 1
  {
    var es', l' := es[y := es[y].(inuse := false)], Returned(l, es[y].stream);
    TrackedAll(es, size, next, l);
    StreamsReplace(es, y, es[y].(inuse := false));
    if l.loans[es[y].stream] > 1 {
      assert es'[y] in es' && !Tracked(es'[y], l');
    }
  }

  /** One that is not cached any more is closed: in order if and only if that was the only loan of it. */
  lemma {:induction false} ReleaseClosedExact(es: seq<Entry>, size: nat, next: nat, l: Ledger, f: nat)
    requires Inv(es, size, next, l) && f in l.loans && f !in Streams(es)
    ensures Inv(es, size, next, Closing(Returned(l, f), f)) <==> l.loans[f] == 1
  {
    TrackedAll(es, size, next, l);
    var l' := Closing(Returned(l, f), f);
    if l.loans[f] > 1 {
      assert f in l'.loans && l'.closes[f] == 1;
    }
  }

  /** A new stream in the place of an old one. */
  lemma {:induction false} ReplaceInv(es: seq<Entry>, size: nat, next: nat, l: Ledger, y: nat, e: Entry)
    requires Inv(es, size, next, l) && y < |es| && e.stream == next && e.inuse
    requires forall i :: 0 <= i < |es| && i != y ==> es[i].filename != e.filename
    ensures Inv(es[y := e], size, next + 1, Lent(Opening(Ousted(l, es[y]), next), next))
  {
    TrackedAll(es, size, next, l);
    StreamsReplace(es, y, e);
  }

  lemma {:induction false} AppendInv(es: seq<Entry>, size: nat, next: nat, l: Ledger, e: Entry)
    requires Inv(es, size, next, l) && |es| < size && e.stream == next && e.inuse
    requires forall i :: 0 <= i < |es| ==> es[i].filename != e.filename
    ensures Inv(es + [e], size, next + 1, Lent(Opening(l, next), next))
  {
    TrackedAll(es, size, next, l);
    assert Streams(es + [e]) == Streams(es) + {next} by {
      assert e in es + [e];
      assert forall x :: x in es ==> x in es + [e];
    }
  }

  lemma {:induction false} RemoveInv(es: seq<Entry>, size: nat, next: nat, l: Ledger, x: nat)
    requires Inv(es, size, next, l) && x < |es|
    ensures Inv(es[..x] + es[x + 1..], size, next, Ousted(l, es[x]))
  {
    TrackedAll(es, size, next, l);
    StreamsRemove(es, x);
  }

  lemma {:induction false} StreamsRemove(es: seq<Entry>, x: nat)
    requires Apart(es) && x < |es|
    ensures Streams(es[..x] + es[x + 1..]) == Streams(es) - {es[x].stream}
  {
    var es' := es[..x] + es[x + 1..];
    forall f | f in Streams(es) && f != es[x].stream ensures f in Streams(es') {
      var i :| 0 <= i < |es| && es[i].stream == f;
      assert es[i] in es';
    }
    forall f | f in Streams(es') ensures f in Streams(es) && f != es[x].stream {
      var i :| 0 <= i < |es'| && es'[i].stream == f;
      assert es'[i] == es[if i < x then i else i + 1];
    }
  }

  lemma {:induction false} ForwardInv(es: seq<Entry>, size: nat, next: nat, l: Ledger, x: nat)
    requires Inv(es, size, next, l) && x < |es|
    ensures Inv(Forward(es, x), size, next, l) && Forward(es, x)[Place(x)] == es[x]
  {
    var es' := Forward(es, x);
    forall e ensures e in es' <==> e in es {
      if e in es {
        var i :| 0 <= i < |es| && es[i] == e;
        assert es'[if i == x then Place(x) else if i == Place(x) then x else i] == e;
      }
    }
    assert Streams(es') == Streams(es);
  }

  /** A stream that gives way to a new one is closed, whether it is lent or not. */
  lemma {:induction false} ReopenExact(es: seq<Entry>, size: nat, next: nat, l: Ledger, y: nat, e: Entry)
    requires Inv(es, size, next, l) && y < |es| && e.stream == next && e.inuse && e.filename == es[y].filename
    ensures Inv(es[y := e], size, next + 1, Lent(Opening(Closing(l, es[y].stream), next), next)) <==>
      !es[y].inuse
  {
    TrackedAll(es, size, next, l);
    if es[y].inuse {
      var l' := Lent(Opening(Closing(l, es[y].stream), next), next);
      assert es[y].stream in l'.loans && l'.closes[es[y].stream] == 1;
    } else {
      ReplaceInv(es, size, next, l, y, e);
    }
  }

  // ---------- the operations ----------

  lemma {:induction false} NextUnused(es: seq<Entry>, size: nat, next: nat, l: Ledger)
    requires Inv(es, size, next, l)
    ensures next !in l.loans && forall i :: 0 <= i < |es| ==> es[i].stream != next
  {
    TrackedAll(es, size, next, l);
  }

  lemma {:induction false} FetchAtExact(s: State, size: nat, x: nat, mode: Mode)
    requires InOrder(s, size) && x < |s.entries|
    ensures InOrder(FetchAt(s, x, mode), size) <==> Covers(s.entries[x].mode, mode) || !s.entries[x].inuse
  {
    var es := Forward(s.entries, x);
    ForwardInv(s.entries, size, s.next, s.ledger, x);
    if Covers(s.entries[x].mode, mode) {
      LendInv(es, size, s.next, s.ledger, Place(x));
    } else {
      ReopenExact(es, size, s.next, s.ledger, Place(x), Renewed(s.entries[x], mode, s.next));
    }
  }

  lemma {:induction false} FetchNewInv(s: State, size: nat, e: Entry)
    requires InOrder(s, size) && size >= 1 && Find(s.entries, e.filename) == |s.entries| && e.stream == s.next
    requires e.inuse
    ensures InOrder(FetchNew(s, size, e), size)
  {
    if |s.entries| < size {
      AppendInv(s.entries, size, s.next, s.ledger, e);
    } else {
      FetchLastInv(s, size, e);
    }
  }

  lemma {:induction false} FetchLastInv(s: State, size: nat, e: Entry)
    requires InOrder(s, size) && size >= 1 && Find(s.entries, e.filename) == |s.entries| && e.stream == s.next
    requires e.inuse
    requires |s.entries| == size
    ensures InOrder(FetchNew(s, size, e), size)
  {
    ReplaceInv(s.entries, size, s.next, s.ledger, |s.entries| - 1, e);
  }

  /** A fetch leaves the cache in order if and only if it does not reopen a stream that is lent. */
  lemma {:induction false} FetchExact(s: State, size: nat, name: string, mode: Mode)
    requires InOrder(s, size) && size >= 1
    ensures InOrder(Fetched(s, size, name, mode), size) <==> !Spoils(s.entries, name, mode)
  {
    var x := Find(s.entries, name);
    if x < |s.entries| {
      FetchAtExact(s, size, x, mode);
    } else {
      FetchNewInv(s, size, Entry(name, s.next, true, mode));
    }
  }

  /** The stream is cached for the file, is lent, and can be read and written as asked. */
  ghost predicate Serves(es: seq<Entry>, f: nat, name: string, input: bool, output: bool) {
    exists i :: 0 <= i < |es| && IsServing(es[i], f, name, input, output)
  }

  predicate IsServing(e: Entry, f: nat, name: string, input: bool, output: bool) {
    && e.stream == f && e.filename == name && e.inuse
    && (input ==> e.mode.input) && (output ==> e.mode.output)
  }

  lemma {:induction false} FetchServes(s: State, size: nat, name: string, mode: Mode)
    requires |s.entries| <= size && size >= 1
    ensures Serves(Fetched(s, size, name, mode).entries, StreamOf(s, name, mode), name, mode.input, mode.output)
  {
    var x, es, f := Find(s.entries, name), Fetched(s, size, name, mode).entries, StreamOf(s, name, mode);
    var y := if x < |s.entries| then Place(x) else |es| - 1;
    assert IsServing(es[y], f, name, mode.input, mode.output);
  }

  /**
   A stream that is opened again can be read and written and is not at the end; one that will
   do keeps its mode. Either way the entry has moved one place forward.
   */
  lemma {:induction false} HitMode(s: State, x: nat, mode: Mode)
    requires x < |s.entries|
    ensures var e, e' := s.entries[x], FetchAt(s, x, mode).entries[if x == 0 then 0 else x - 1];
      && e'.filename == e.filename && e'.inuse
      && if (mode.input ==> e.mode.input) && (mode.output ==> e.mode.output) then
           e'.stream == e.stream && e'.mode == e.mode
         else
           e'.stream == s.next && e'.mode == Mode(true, true, false, false, mode.trunc, mode.binary)
  {
  }

  /** A file that is not cached comes behind the others, or in the place of the last one when the cache is full. */
  lemma {:induction false} MissPlaced(s: State, size: nat, name: string, mode: Mode)
    requires |s.entries| <= size && size >= 1
    requires forall i :: 0 <= i < |s.entries| ==> s.entries[i].filename != name
    ensures Fetched(s, size, name, mode).entries ==
      (if |s.entries| < size then s.entries else s.entries[..size - 1]) + [Entry(name, s.next, true, mode)]
  {
    assert |s.entries| == size ==> s.entries == s.entries[..size - 1] + [s.entries[size - 1]];
  }

  lemma {:induction false} FetchLoans(s: State, size: nat, name: string, mode: Mode)
    requires |s.entries| <= size && size >= 1
    ensures Fetched(s, size, name, mode).ledger.loans == s.ledger.loans + multiset{StreamOf(s, name, mode)}
  {
  }

  /** In order and with single loans, it stays so if and only if the file's cached stream is not lent. */
  lemma {:induction false} FetchSingle(s: State, size: nat, name: string, mode: Mode)
    requires InOrder(s, size) && Single(s.ledger) && size >= 1
    ensures var s' := Fetched(s, size, name, mode); InOrder(s', size) && Single(s'.ledger) <==> !Held(s.entries, name)
  {
    var x, f, s' := Find(s.entries, name), StreamOf(s, name, mode), Fetched(s, size, name, mode);
    FetchExact(s, size, name, mode);
    FetchLoans(s, size, name, mode);
    NextUnused(s.entries, size, s.next, s.ledger);
    TrackedAll(s.entries, size, s.next, s.ledger);
    if Held(s.entries, name) {
      if Covers(s.entries[x].mode, mode) {
        assert s'.ledger.loans[f] == 2;
      }
    } else {
      assert f !in s.ledger.loans;
    }
  }

  lemma {:induction false} NotCached(es: seq<Entry>, f: nat)
    ensures FindStream(es, f) == |es| <==> f !in Streams(es)
  {
    if x :| x in es && x.stream == f {
      var i :| 0 <= i < |es| && es[i] == x;
    }
    if FindStream(es, f) < |es| {
      assert es[FindStream(es, f)] in es;
    }
  }

  /** A stream that comes back leaves the cache in order if and only if no other loan of it is out. */
  lemma {:induction false} GiveExact(s: State, size: nat, f: nat)
    requires InOrder(s, size) && f in s.ledger.loans
    ensures InOrder(Given(s, f), size) <==> s.ledger.loans[f] == 1
    ensures Single(s.ledger) ==> InOrder(Given(s, f), size) && Single(Given(s, f).ledger)
  {
    var x := FindStream(s.entries, f);
    NotCached(s.entries, f);
    if x < |s.entries| {
      ReleaseExact(s.entries, size, s.next, s.ledger, x);
    } else {
      ReleaseClosedExact(s.entries, size, s.next, s.ledger, f);
    }
  }

  lemma {:induction false} RemovedInv(s: State, size: nat, name: string)
    requires InOrder(s, size)
    ensures InOrder(Removed(s, name), size) && Removed(s, name).ledger.loans == s.ledger.loans
  {
    if Find(s.entries, name) < |s.entries| {
      RemoveInv(s.entries, size, s.next, s.ledger, Find(s.entries, name));
    }
  }

  /**
   The second fetch of a lent stream takes it out of the cache, and closes it, exactly when it
   cannot do what is asked now.
   */
  lemma {:induction false} RefetchExact(s: State, size: nat, name: string, mode: Mode)
    requires InOrder(s, size) && size >= 1 && Find(s.entries, name) < |s.entries|
    ensures var e := s.entries[Find(s.entries, name)];
      e.stream in Streams(Fetched(s, size, name, mode).entries) <==> Covers(e.mode, mode)
  {
    var x := Find(s.entries, name);
    TrackedAll(s.entries, size, s.next, s.ledger);
    ForwardInv(s.entries, size, s.next, s.ledger, x);
    StreamsReplace(Forward(s.entries, x), Place(x), Reused(s.entries[x], mode, s.next));
  }

  // ---------- runs ----------

  datatype Op = Fetch(name: string, mode: Mode) | Give(stream: nat) | Remove(name: string)

  /** A borrower gives back what it has. */
  predicate Enabled(s: State, op: Op) {
    op.Give? ==> op.stream in s.ledger.loans
  }

  function After(s: State, size: nat, op: Op): State
    requires |s.entries| <= size && size >= 1
  {
    match op
    case Fetch(name, mode) => Fetched(s, size, name, mode)
    case Give(f) => Given(s, f)
    case Remove(name) => Removed(s, name)
  }

  ghost predicate Sound(s: State, size: nat) {
    InOrder(s, size) && Single(s.ledger)
  }

  /** The condition on the callers: no file is fetched while its cached stream is lent. */
  predicate Fair(s: State, op: Op) {
    op.Fetch? ==> !Held(s.entries, op.name)
  }

  lemma {:induction false} StepExact(s: State, size: nat, op: Op)
    requires Sound(s, size) && size >= 1 && Enabled(s, op)
    ensures Sound(After(s, size, op), size) <==> Fair(s, op)
  {
    match op
    case Fetch(name, mode) => FetchSingle(s, size, name, mode);
    case Give(f) => GiveExact(s, size, f);
    case Remove(name) => RemovedInv(s, size, name);
  }

  ghost predicate Run(ss: seq<State>, ops: seq<Op>, size: nat) {
    && size >= 1 && |ss| == |ops| + 1 && (forall i :: 0 <= i < |ss| ==> |ss[i].entries| <= size)
    && (forall i, j :: 0 <= i < |ops| && j == i + 1 ==> Enabled(ss[i], ops[i]) && ss[j] == After(ss[i], size, ops[i]))
  }

  lemma {:induction false} SoundUntil(ss: seq<State>, ops: seq<Op>, size: nat, n: nat)
    requires Run(ss, ops, size) && Sound(ss[0], size) && n <= |ops| && forall i :: 0 <= i < n ==> Fair(ss[i], ops[i])
    ensures Sound(ss[n], size)
  {
    if n > 0 {
      var m := n - 1;
      SoundUntil(ss, ops, size, m);
      assert ss[n] == After(ss[m], size, ops[m]);
      StepExact(ss[m], size, ops[m]);
    }
  }

  /**
   Over any run of fetches, releases and removals: every lent stream is open and lent once, and
   none is closed twice, all along the run, if and only if no file is ever fetched while its
   cached stream is lent.
   */
  lemma {:induction false} RunExact(ss: seq<State>, ops: seq<Op>, size: nat)
    requires Run(ss, ops, size) && Sound(ss[0], size)
    ensures (forall i :: 0 <= i < |ss| ==> Sound(ss[i], size)) <==> (forall i :: 0 <= i < |ops| ==> Fair(ss[i], ops[i]))
  {
    if forall i :: 0 <= i < |ops| ==> Fair(ss[i], ops[i]) {
      forall i | 0 <= i < |ss| ensures Sound(ss[i], size) {
        SoundUntil(ss, ops, size, i);
      }
    } else if forall i :: 0 <= i < |ss| ==> Sound(ss[i], size) {
      forall i | 0 <= i < |ops| ensures Fair(ss[i], ops[i]) {
        var j := i + 1;
        assert ss[j] == After(ss[i], size, ops[i]);
        StepExact(ss[i], size, ops[i]);
      }
    }
  }

  const EMPTY := State([], 0, Ledger({}, multiset{}, multiset{}))

  /**
   With one place: a file is fetched twice, for the same, so its stream has two borrowers. The
   first release marks it unused; a fetch of another file closes it under the second
   borrower, whose release closes it again.
   */
  lemma {:induction false} TwoBorrowers(f: string, g: string, mode: Mode)
    requires f != g
    ensures var s2 := Fetched(Fetched(EMPTY, 1, f, mode), 1, f, mode);
      var s3 := Given(s2, 0);
      var s4 := Fetched(s3, 1, g, mode);
      && InOrder(s2, 1) && s2.ledger.loans[0] == 2 && !InOrder(s3, 1)
      && s4.ledger.loans[0] == 1 && s4.ledger.closes[0] == 1 && Given(s4, 0).ledger.closes[0] == 2
  {
    TwoLoans(f, mode);
    OneBack(f, mode);
    ThenAnother(f, g, mode);
  }

  lemma {:induction false} TwoLoans(f: string, mode: Mode)
    ensures var s1 := Fetched(EMPTY, 1, f, mode);
      && InOrder(Fetched(s1, 1, f, mode), 1)
      && Fetched(s1, 1, f, mode) == State([Entry(f, 0, true, mode)], 1, Ledger({0}, multiset{}, multiset{0, 0}))
  {
    var e, s1 := Entry(f, 0, true, mode), Fetched(EMPTY, 1, f, mode);
    assert s1 == State([e], 1, Ledger({0}, multiset{}, multiset{0}));
    FetchExact(EMPTY, 1, f, mode);
    FetchExact(s1, 1, f, mode);
    assert [e][0 := e] == [e];
  }

  lemma {:induction false} OneBack(f: string, mode: Mode)
    requires InOrder(State([Entry(f, 0, true, mode)], 1, Ledger({0}, multiset{}, multiset{0, 0})), 1)
    ensures var s3 := Given(State([Entry(f, 0, true, mode)], 1, Ledger({0}, multiset{}, multiset{0, 0})), 0);
      s3 == State([Entry(f, 0, false, mode)], 1, Ledger({0}, multiset{}, multiset{0})) && !InOrder(s3, 1)
  {
    GiveExact(State([Entry(f, 0, true, mode)], 1, Ledger({0}, multiset{}, multiset{0, 0})), 1, 0);
  }

  lemma {:induction false} ThenAnother(f: string, g: string, mode: Mode)
    requires f != g
    ensures var s4 := Fetched(State([Entry(f, 0, false, mode)], 1, Ledger({0}, multiset{}, multiset{0})), 1, g, mode);
      s4.ledger.loans[0] == 1 && s4.ledger.closes[0] == 1 && Given(s4, 0).ledger.closes[0] == 2
  {
    var s3 := State([Entry(f, 0, false, mode)], 1, Ledger({0}, multiset{}, multiset{0}));
    assert Fetched(s3, 1, g, mode).entries == [Entry(g, 1, true, mode)];
  }

  // ---------- the object ----------

  class StreamCache {
    const cacheSize: nat
    const entries: array<Entry>
    var entryCount: nat
    var accessCount: uint32
    var hitCount: uint32
    var reopenCount: uint32
    var next: nat
    ghost var ledger: Ledger

    ghost function Contents(): seq<Entry>
      requires entryCount <= entries.Length
      reads this`entryCount, entries
    {
      entries[..entryCount]
    }

    /** The array has the places it should have. */
    ghost predicate Shape()
      reads this`entryCount
    {
      entries.Length == cacheSize && entryCount <= cacheSize
    }

    ghost function Now(): State
      requires Shape()
      reads this`entryCount, this`next, this`ledger, entries
    {
      State(Contents(), next, ledger)
    }

    ghost predicate Valid()
      reads this, entries
    {
      Shape() && Sound(Now(), cacheSize)
    }

    constructor (cacheSize: nat)
      ensures Valid() && this.cacheSize == cacheSize && fresh(entries) && Now() == EMPTY
      ensures accessCount == hitCount == reopenCount == 0
    {
      this.cacheSize := cacheSize;
      entryCount, accessCount, hitCount, reopenCount, next := 0, 0, 0, 0, 0;
      var none := Entry("", 0, false, Mode(false, false, false, false, false, false));
      entries := new Entry[cacheSize](_ => none);
      ledger := Ledger({}, multiset{}, multiset{});
    }

    method FindEntry(name: string) returns (x: nat)
      requires entryCount <= entries.Length
      ensures x == Find(Contents(), name)
    {
      x := 0;
      assert Contents()[0..] == Contents();
      while x < entryCount && entries[x].filename != name
        invariant x <= entryCount && Find(Contents(), name) == x + Find(Contents()[x..], name)
      {
        assert Contents()[x..][1..] == Contents()[x + 1..];
        x := x + 1;
      }
    }

    /** A hit moves the entry one place forward. */
    method MoveForward(x: nat) returns (y: nat)
      requires Shape() && x < entryCount
      modifies entries
      ensures y == Place(x) && Contents() == Forward(old(Contents()), x)
      ensures y == (if x == 0 then 0 else x - 1)
      ensures Contents()[y] == old(Contents())[x] && Contents()[x] == old(Contents())[y]
      ensures forall i :: 0 <= i < entryCount && i != x && i != y ==> Contents()[i] == old(Contents())[i]
    {
      y := x;
      if x > 0 {
        entries[x], entries[x - 1] := entries[x - 1], entries[x];
        y := x - 1;
      }
      assert Contents() == Forward(old(Contents()), x);
    }

    /** The stream is closed and opened again if it cannot do what is asked, even while it is lent. */
    method Refresh(y: nat, mode: Mode)
      requires Shape() && y < entryCount
      modifies this`reopenCount, this`next, this`ledger, entries
      ensures Contents() == old(Contents())[y := Reused(old(Contents())[y], mode, old(next))]
      ensures var e := old(Contents())[y];
        if Covers(e.mode, mode) then
          next == old(next) && ledger == Lent(old(ledger), e.stream) && reopenCount == old(reopenCount)
        else
          && next == old(next) + 1 && reopenCount == Count(old(reopenCount))
          && ledger == Lent(Opening(Closing(old(ledger), e.stream), old(next)), old(next))
    {
      var e := entries[y];
      if !Covers(e.mode, mode) {
        reopenCount := Count(reopenCount);
        ledger := Lent(Opening(Closing(ledger, e.stream), next), next);
        entries[y] := Renewed(e, mode, next);
        next := next + 1;
      } else {
        ledger := Lent(ledger, e.stream);
        entries[y] := e.(inuse := true);
      }
      assert Contents() == old(Contents())[y := entries[y]];
    }

    /** The file is not cached: it takes a free place, or the last one, whose stream is closed unless it is lent. */
    method FetchMiss(name: string, mode: Mode) returns (y: nat)
      requires Shape() && Find(Contents(), name) == entryCount && cacheSize >= 1
      modifies this`entryCount, this`next, this`ledger, entries
      ensures Shape() && Now() == Fetched(old(Now()), cacheSize, name, mode)
      ensures y < entryCount && entries[y] == Entry(name, old(next), true, mode)
    {
      if entryCount < cacheSize {
        entries[entryCount] := Entry(name, next, true, mode);
        entryCount := entryCount + 1;
        assert Contents() == old(Contents()) + [Entry(name, next, true, mode)];
      } else {
        ledger := Ousted(ledger, entries[entryCount - 1]);
        entries[entryCount - 1] := Entry(name, next, true, mode);
        assert Contents() == old(Contents())[entryCount - 1 := Entry(name, next, true, mode)];
      }
      y := entryCount - 1;
      ledger := Lent(Opening(ledger, next), next);
      next := next + 1;
    }

    /** The file is cached. */
    method FetchHit(x: nat, mode: Mode) returns (y: nat)
      requires Shape() && x < entryCount
      modifies this`reopenCount, this`next, this`ledger, entries
      ensures Now() == FetchAt(old(Now()), x, mode) && y < entryCount
      ensures entries[y] == Reused(old(entries[x]), mode, old(next))
    {
      y := MoveForward(x);
      Refresh(y, mode);
      assert Contents()[y] == entries[y];
    }

    /**
     A stream for the file that can do what is asked, whoever has it already. The cache stays
     in order if and only if the file's cached stream is not lent, or will do; and its streams
     stay with one borrower each if and only if that stream is not lent.
     */
    method Get(name: string, mode: Mode) returns (f: nat)
      requires Shape() && cacheSize >= 1
      modifies this, entries
      ensures Shape() && Now() == Fetched(old(Now()), cacheSize, name, mode) && f == StreamOf(old(Now()), name, mode)
      ensures Serves(Contents(), f, name, mode.input, mode.output)
      ensures old(InOrder(Now(), cacheSize)) ==> (InOrder(Now(), cacheSize) <==> !Spoils(old(Contents()), name, mode))
      ensures old(Valid()) ==> (Valid() <==> !Held(old(Contents()), name))
      ensures accessCount == Count(old(accessCount))
      ensures hitCount == if Find(old(Contents()), name) < old(entryCount) then Count(old(hitCount)) else old(hitCount)
    {
      GetExact(name, mode);
      FetchServes(Now(), cacheSize, name, mode);
      accessCount := Count(accessCount);
      var x := FindEntry(name);
      var y;
      if x < entryCount {
        hitCount := Count(hitCount);
        y := FetchHit(x, mode);
      } else {
        y := FetchMiss(name, mode);
      }
      f := entries[y].stream;
    }

    lemma {:induction false} GetExact(name: string, mode: Mode)
      requires Shape() && cacheSize >= 1
      ensures var s' := Fetched(Now(), cacheSize, name, mode);
        && (InOrder(Now(), cacheSize) ==> (InOrder(s', cacheSize) <==> !Spoils(Contents(), name, mode)))
        && (Valid() ==> (Sound(s', cacheSize) <==> !Held(Contents(), name)))
    {
      if InOrder(Now(), cacheSize) {
        FetchExact(Now(), cacheSize, name, mode);
        if Single(ledger) {
          FetchSingle(Now(), cacheSize, name, mode);
        }
      }
    }

    /**
     A borrower gives a stream back: it stays open if it is still cached. The cache stays in
     order if and only if no other loan of the stream is out.
     */
    method Release(f: nat)
      requires Shape() && f in ledger.loans
      modifies this`ledger, entries
      ensures Now() == Given(old(Now()), f)
      ensures old(InOrder(Now(), cacheSize)) ==> (InOrder(Now(), cacheSize) <==> old(ledger).loans[f] == 1)
      ensures old(Valid()) ==> Valid()
    {
      ReleaseIsExact(f);
      ghost var es := Contents();
      for x := 0 to entryCount
        invariant Contents() == es && ledger == old(ledger)
        invariant forall i :: 0 <= i < x ==> es[i].stream != f
      {
        if entries[x].stream == f {
          entries[x] := entries[x].(inuse := false);
          ledger := Returned(ledger, f);
          assert Contents() == es[x := es[x].(inuse := false)];
          return;
        }
      }
      ledger := Closing(Returned(ledger, f), f);
    }

    lemma {:induction false} ReleaseIsExact(f: nat)
      requires Shape() && f in ledger.loans
      ensures InOrder(Now(), cacheSize) ==> (InOrder(Given(Now(), f), cacheSize) <==> ledger.loans[f] == 1)
      ensures Valid() ==> Sound(Given(Now(), f), cacheSize)
    {
      if InOrder(Now(), cacheSize) {
        GiveExact(Now(), cacheSize, f);
      }
    }

    /** A file goes from the cache; a stream that is lent stays open until it is released. */
    method Remove(name: string)
      requires Shape()
      modifies this`entryCount, this`ledger, entries
      ensures Shape() && Now() == Removed(old(Now()), name)
      ensures old(InOrder(Now(), cacheSize)) ==> InOrder(Now(), cacheSize)
      ensures old(Valid()) ==> Valid()
    {
      ghost var before := Now();
      var x := FindEntry(name);
      if x < entryCount {
        ledger := Ousted(ledger, entries[x]);
        ShiftDown(x);
      }
      if InOrder(before, cacheSize) {
        RemovedInv(before, cacheSize, name);
      }
    }

    method ShiftDown(x: nat)
      requires entryCount <= entries.Length && x < entryCount
      modifies this`entryCount, entries
      ensures entryCount == old(entryCount) - 1
      ensures Contents() == old(Contents())[..x] + old(Contents())[x + 1..]
    {
      ghost var es := Contents();
      for y := x + 1 to entryCount
        invariant entryCount == |es|
        invariant forall i :: 0 <= i < x || y - 1 <= i < |es| ==> entries[i] == es[i]
        invariant forall i :: x <= i < y - 1 ==> entries[i] == es[x + 1..][i - x]
      {
        entries[y - 1] := entries[y];
      }
      entryCount := entryCount - 1;
    }

    /** The destructor, when every stream has come back: all streams ever opened have been closed exactly once. */
    method Destroy()
      requires Shape() && InOrder(Now(), cacheSize) && ledger.loans == multiset{}
      modifies this`ledger
      ensures ledger.openings == old(ledger.openings)
      ensures forall f :: ledger.closes[f] == if f in ledger.openings then 1 else 0
    {
      ghost var es := Contents();
      TrackedAll(es, cacheSize, next, ledger);
      for x := 0 to entryCount
        invariant ledger.openings == old(ledger.openings)
        invariant forall f :: ledger.closes[f] == old(ledger).closes[f] + if f in Streams(es[..x]) then 1 else 0
      {
        assert es[..x + 1] == es[..x] + [es[x]];
        StreamsSnoc(es, x);
        ledger := Closing(ledger, entries[x].stream);
      }
      assert es[..entryCount] == es;
    }
  }

  lemma {:induction false} StreamsSnoc(es: seq<Entry>, x: nat)
    requires Apart(es) && x < |es|
    ensures Streams(es[..x + 1]) == Streams(es[..x]) + {es[x].stream} && es[x].stream !in Streams(es[..x])
  {
    assert es[..x + 1] == es[..x] + [es[x]];
    assert es[x] in es[..x + 1] && forall e :: e in es[..x] ==> e in es[..x + 1];
  }
}
