/**
 A run that loses a message although no queue is closed: between the two locks of one
 retrieve through a cursor, another session retrieves and acknowledges the message that the
 new handle stands on.
 */
module LostCopy {
  import opened Bytes
  import opened QueueModel
  import opened QueueOps
  import opened Claims
  import opened Outlooks
  import opened Lifecycle
  import opened Prospects
  import opened Overtaking

  const NEXT := LOW.(messageId := [2])
  const FIRST := WorkKey(1, 0, [1])
  const OTHER := WorkKey(2, 0, [2])

  const SHOWN := [Entry(0, LOW), Entry(1, NEXT)]
  const HALF := [Entry(0, LOW.(purged := true)), Entry(1, NEXT)]
  const HIDDEN := [Entry(0, LOW.(purged := true)), Entry(1, NEXT.(purged := true))]
  const LEFT := [Entry(0, LOW.(purged := true))]
  const ON_FIRST := CursorVal(At(0), true, false)
  const ON_NEXT := CursorVal(At(1), true, false)
  const ERASED := CursorVal(At(1), false, false)

  /** Two visible messages, and a client's cursor on the first. */
  ghost function Before(): State {
    State(Queue(SHOWN, map[0 := ON_FIRST], 2), map[])
  }

  /** Retrieved through the cursor; the reply is sent. */
  ghost function Delivered(): State {
    State(Queue(HALF, map[0 := ON_FIRST], 2), map[FIRST := Pending(0, Retrieving)])
  }

  /** The command has opened the handle that is to take the retrieve over: it stands on the second message. */
  ghost function Opened(): State {
    State(Queue(HALF, map[0 := ON_FIRST, 1 := ON_NEXT], 2), Delivered().claims)
  }

  /** Another session retrieves that message, */
  ghost function BothTaken(): State {
    State(
      Queue(HIDDEN, map[0 := ON_FIRST, 1 := ON_NEXT, 2 := ON_NEXT], 2),
      map[FIRST := Pending(0, Retrieving), OTHER := Pending(2, Retrieving)])
  }

  ghost function BothSent(): State {
    State(BothTaken().queue, BothTaken().claims[OTHER := Work(2, Retrieving, false, true)])
  }

  /** and acknowledges it. */
  ghost function OtherGone(): State {
    State(Queue(LEFT, map[0 := ON_FIRST, 1 := ERASED], 2), Delivered().claims)
  }

  /** The copy is refused, and the command ends. */
  ghost function LostNow(): State {
    State(OtherGone().queue, map[])
  }

  /** A clean step from one state to the other. */
  ghost predicate IsNext(s: State, a: Act, s': State) {
    Wf(s.queue) && Legal(s, a) && Clean(s, a) && Do(s, a) == s'
  }

  /** The same; the quantifier only keeps the definition folded where it is not needed. */
  ghost predicate Follows(s: State, a: Act, s': State) {
    forall r {:trigger IsNext(r, a, s')} :: r == s ==> IsNext(r, a, s')
  }

  /** All pending work is sound, and nothing is lost. */
  ghost predicate IsFine(s: State) {
    Inv(s) && Lost(s) == {}
  }

  ghost predicate Fine(s: State) {
    forall r {:trigger IsFine(r)} :: r == s ==> IsFine(r)
  }

  lemma {:induction false} BeforeWf()
    ensures Wf(Before().queue)
  {
    TwoEntries(SHOWN[0], SHOWN[1]);
  }

  lemma {:induction false} ShownNames()
    ensures Names(SHOWN) == {(0, [1]), (1, [2])} == Names(HALF)
  {
    assert SHOWN[0] in SHOWN && SHOWN[1] in SHOWN;
    assert HALF[0] in HALF && HALF[1] in HALF;
  }

  lemma {:induction false} HiddenNames()
    ensures Names(HIDDEN) == {(0, [1]), (1, [2])}
  {
    assert HIDDEN[0] in HIDDEN && HIDDEN[1] in HIDDEN;
  }

  lemma {:induction false} BeforeInv()
    ensures Fine(Before())
  {
    BeforeWf();
    ShownNames();
  }

  lemma {:induction false} FineWf(s: State)
    requires Fine(s)
    ensures Wf(s.queue)
  {
    assert IsFine(s);
  }

  lemma {:induction false} Delivering()
    ensures Follows(Before(), TakeCursor(FIRST, 0), Delivered())
  {
    BeforeWf();
    ShownNames();
    TwoEntries(SHOWN[0], SHOWN[1]);
    TwoSet(SHOWN[0], SHOWN[1], true);
  }

  lemma {:induction false} Opening()
    requires Fine(Delivered())
    ensures Follows(Delivered(), Open, Opened())
  {
    FineWf(Delivered());
    TwoEntries(HALF[0], HALF[1]);
    OneEntry(HALF[1]);
    assert NextHandle({0}) == 1;
  }

  lemma {:induction false} SecondOpened()
    ensures OpenCursor(Opened().queue) == Opened().queue.(cursors := BothTaken().queue.cursors)
  {
    TwoEntries(HALF[0], HALF[1]);
    OneEntry(HALF[1]);
    assert NextHandle({0, 1}) == 2;
  }

  lemma {:induction false} Taking()
    requires Fine(Opened())
    ensures Follows(Opened(), Take(OTHER), BothTaken())
  {
    FineWf(Opened());
    OtherHidden();
    HiddenNames();
    assert NextHandle({0, 1}) == 2;
  }

  lemma {:induction false} OtherHidden()
    ensures BeginRetrieve(Opened().queue) == (BothTaken().queue, NoError)
  {
    SecondOpened();
    TwoEntries(HALF[0], HALF[1]);
    OneEntry(HALF[1]);
    TwoSet(HALF[0], HALF[1], true);
  }

  lemma {:induction false} Sending()
    requires Fine(BothTaken())
    ensures Follows(BothTaken(), Register(OTHER), BothSent())
  {
    FineWf(BothTaken());
  }

  lemma {:induction false} Acknowledging()
    requires Fine(BothSent())
    ensures Follows(BothSent(), Drop(OTHER), OtherGone())
  {
    FineWf(BothSent());
    OtherErased();
    assert BothSent().claims - {OTHER} == Delivered().claims;
  }

  lemma {:induction false} OtherErased()
    ensures Discard(BothSent().queue, 2) == OtherGone().queue
  {
    TwoEntries(HIDDEN[0], HIDDEN[1]);
    assert Remove(HIDDEN, 1) == LEFT;
  }

  lemma {:induction false} Refusing()
    requires Fine(OtherGone())
    ensures Refuses(OtherGone(), FIRST, 1) && Follows(OtherGone(), Rebind(FIRST, 1), LostNow())
  {
    FineWf(OtherGone());
  }

  lemma {:induction false} GoesOn(s: State, a: Act, s': State)
    requires Fine(s) && Follows(s, a, s') && !a.Forget? && !a.Rebind?
    ensures Fine(s')
  {
    assert IsFine(s) && IsNext(s, a, s');
    DoExact(s, a);
    DoLoses(s, a);
  }

  lemma {:induction false} Loss(s: State, k: WorkKey, h: Handle, s': State)
    requires Fine(s) && Refuses(s, k, h) && Follows(s, Rebind(k, h), s')
    ensures Inv(s) && Inv(s') && Lost(s') == {NodeOf(s.queue, s.claims[k])}
  {
    assert IsFine(s) && IsNext(s, Rebind(k, h), s');
    DoExact(s, Rebind(k, h));
    DoLoses(s, Rebind(k, h));
  }

  /**
   Every step is clean and all pending work stays sound, and yet the message that was
   delivered is hidden in the end with nothing pending that could show it.
   */
  lemma {:induction false} CopyLoses()
    ensures Fine(Before())
    ensures Follows(Before(), TakeCursor(FIRST, 0), Delivered()) && Follows(Delivered(), Open, Opened())
    ensures Follows(Opened(), Take(OTHER), BothTaken()) && Follows(BothTaken(), Register(OTHER), BothSent())
    ensures Follows(BothSent(), Drop(OTHER), OtherGone()) && Fine(OtherGone())
    ensures Refuses(OtherGone(), FIRST, 1) && Follows(OtherGone(), Rebind(FIRST, 1), LostNow())
    ensures Inv(LostNow()) && LostNow().claims == map[] && Lost(LostNow()) == {0}
  {
    BeforeInv();
    Delivering();
    GoesOn(Before(), TakeCursor(FIRST, 0), Delivered());
    Opening();
    GoesOn(Delivered(), Open, Opened());
    Taking();
    GoesOn(Opened(), Take(OTHER), BothTaken());
    Sending();
    GoesOn(BothTaken(), Register(OTHER), BothSent());
    Acknowledging();
    GoesOn(BothSent(), Drop(OTHER), OtherGone());
    Refusing();
    Loss(OtherGone(), FIRST, 1, LostNow());
  }
}
