/**
 Message statistics (Stats.cpp): rings of 512 per-second counters from which the counts of
 the last 10, 60 and 300 seconds are read.

 The ghost histories hold the time of every event. Under a clock that does not go back, a
 ring's slot `cur - k` counts the events of second `lastSample - k`, so each result is the
 number of events in its window (as far as 32 bits hold it).
 */
module Statistics {
  import opened Bytes

  const SLOTS := 512

  datatype Counts = Counts(last10: uint32, last60: uint32, last300: uint32)

  /** `& 0x01FF`, which is the remainder for negative numbers too. */
  function Slot(i: int): (j: nat)
    ensures j < SLOTS
  {
    i % SLOTS
  }

  /** The number of events after `lo` and not after `hi`. */
  ghost function Within(history: seq<int>, lo: int, hi: int): nat {
    if history == [] then 0
    else (if lo < history[0] <= hi then 1 else 0) + Within(history[1..], lo, hi)
  }

  ghost function InSecond(history: seq<int>, second: int): nat {
    Within(history, second - 1, second)
  }

  function Behind(slots: seq<uint32>, cur: int, k: int): uint32
    requires |slots| == SLOTS
  {
    slots[Slot(cur - k)]
  }

  function Increment(u: uint32): uint32 {
    var n: int := u;
    Wrap32(n + 1)
  }

  ghost predicate Ring(slots: seq<uint32>, cur: int, last: int, history: seq<int>) {
    && |slots| == SLOTS && 0 <= cur < SLOTS
    && (forall t :: t in history ==> t <= last)
    && (forall k :: 0 <= k < SLOTS ==> Behind(slots, cur, k) == Wrap32(InSecond(history, last - k)))
  }

  // ---------- counting ----------

  lemma {:induction false} WithinSplit(history: seq<int>, lo: int, mid: int, hi: int)
    requires lo <= mid <= hi
    ensures Within(history, lo, hi) == Within(history, lo, mid) + Within(history, mid, hi)
  {
    if history != [] {
      WithinSplit(history[1..], lo, mid, hi);
    }
  }

  lemma {:induction false} WithinNone(history: seq<int>, lo: int, hi: int)
    requires forall t :: t in history ==> t <= lo
    ensures Within(history, lo, hi) == 0
  {
    if history != [] {
      assert history[0] in history && forall t :: t in history[1..] ==> t in history;
      WithinNone(history[1..], lo, hi);
    }
  }

  lemma {:induction false} WithinSnoc(history: seq<int>, t: int, lo: int, hi: int)
    ensures Within(history + [t], lo, hi) == Within(history, lo, hi) + if lo < t <= hi then 1 else 0
  {
    if history == [] {
      assert [] + [t] == [t];
    } else {
      assert (history + [t])[1..] == history[1..] + [t];
      WithinSnoc(history[1..], t, lo, hi);
    }
  }

  // ---------- rotation ----------

  /** The ring with the d slots behind `cur` set to zero. */
  ghost function Cleared(slots: seq<uint32>, cur: int, d: nat): (r: seq<uint32>)
    requires |slots| == SLOTS
    ensures |r| == SLOTS && forall j :: 0 <= j < SLOTS ==> r[j] == if Slot(j - cur - 1) < d then 0 else slots[j]
  {
    seq(SLOTS, j requires 0 <= j < SLOTS => if Slot(j - cur - 1) < d then 0 else slots[j])
  }

  lemma {:induction false} ClearNext(slots: seq<uint32>, cur: int, d: nat)
    requires |slots| == SLOTS && d < SLOTS
    ensures Cleared(slots, cur, d)[Slot(cur + d + 1) := 0] == Cleared(slots, cur, d + 1)
  {
    var r, r' := Cleared(slots, cur, d)[Slot(cur + d + 1) := 0], Cleared(slots, cur, d + 1);
    forall j | 0 <= j < SLOTS ensures r[j] == r'[j] {
      assert Slot(j - cur - 1) == d <==> j == Slot(cur + d + 1);
    }
  }

  lemma {:induction false} ClearNone(slots: seq<uint32>, cur: int)
    requires |slots| == SLOTS
    ensures Cleared(slots, cur, 0) == slots
  {
  }

  function Gap(last: int, now: int): int {
    if now - last > SLOTS then SLOTS else now - last
  }

  /** Rotation keeps the ring exact, also when the gap is capped. */
  lemma {:induction false} RingRotates(slots: seq<uint32>, cur: int, last: int, now: int, history: seq<int>)
    requires Ring(slots, cur, last, history) && now > last
    ensures Ring(Cleared(slots, cur, Gap(last, now)), Slot(cur + Gap(last, now)), now, history)
  {
    var d := Gap(last, now);
    var r, cur' := Cleared(slots, cur, d), Slot(cur + d);
    forall k | 0 <= k < SLOTS ensures Behind(r, cur', k) == Wrap32(InSecond(history, now - k)) {
      RotatedSlot(cur, d, k);
      if k < d {
        WithinNone(history, now - k - 1, now - k);
      } else {
        assert Behind(slots, cur, k - d) == Wrap32(InSecond(history, last - (k - d)));
      }
    }
  }

  lemma {:induction false} RotatedSlot(cur: int, d: int, k: int)
    requires 0 <= cur < SLOTS && 0 < d <= SLOTS && 0 <= k < SLOTS
    ensures var j := Slot(Slot(cur + d) - k);
      if k < d then Slot(j - cur - 1) < d else Slot(j - cur - 1) >= d && j == Slot(cur - (k - d))
  {
  }

  /** The first rotation of all clears every slot. */
  lemma {:induction false} RingStarts(slots: seq<uint32>, now: int)
    requires |slots| == SLOTS && now >= SLOTS
    ensures Gap(0, now) == SLOTS && Ring(Cleared(slots, 0, SLOTS), Slot(SLOTS), now, [])
  {
  }

  lemma {:induction false} RingCounts(slots: seq<uint32>, cur: int, last: int, history: seq<int>)
    requires Ring(slots, cur, last, history)
    ensures Ring(slots[cur := Increment(slots[cur])], cur, last, history + [last])
  {
    var r, history' := slots[cur := Increment(slots[cur])], history + [last];
    forall k | 0 <= k < SLOTS ensures Behind(r, cur, k) == Wrap32(InSecond(history', last - k)) {
      assert Behind(slots, cur, k) == Wrap32(InSecond(history, last - k));
      WithinSnoc(history, last, last - k - 1, last - k);
      CurrentSlot(cur, k);
    }
  }

  lemma {:induction false} CurrentSlot(cur: int, k: int)
    requires 0 <= cur < SLOTS && 0 <= k < SLOTS
    ensures Slot(cur - k) == cur <==> k == 0
  {
  }

  /** Unsigned addition. */
  function Add32(a: uint32, b: uint32): uint32 {
    var m: int, n: int := a, b;
    Wrap32(m + n)
  }

  /** One more slot makes the window one second longer. */
  lemma {:induction false} WindowGrows(slots: seq<uint32>, cur: int, last: int, history: seq<int>, x: nat,
          total: uint32)
    requires Ring(slots, cur, last, history) && x < SLOTS && total == Wrap32(Within(history, last - x, last))
    ensures Add32(total, Behind(slots, cur, x)) == Wrap32(Within(history, last - (x + 1), last))
  {
    WithinSplit(history, last - x - 1, last - x, last);
    assert Behind(slots, cur, x) == Wrap32(InSecond(history, last - x));
    AddWraps(Within(history, last - x, last), InSecond(history, last - x));
  }

  lemma {:induction false} AddWraps(a: nat, b: nat)
    ensures Add32(Wrap32(a), Wrap32(b)) == Wrap32(a + b)
  {
    var c, d := a / TWO_32, b / TWO_32;
    assert a + b == TWO_32 * (c + d) + (a % TWO_32 + b % TWO_32);
  }

  lemma {:induction false} WindowEmpty(history: seq<int>, last: int)
    ensures Within(history, last, last) == 0
  {
    if history != [] {
      WindowEmpty(history[1..], last);
    }
  }

  /** The number of events in the last 10, 60 and 300 seconds, the current one among them. */
  ghost function TrueCounts(history: seq<int>, now: int): Counts {
    Counts(
      Wrap32(Within(history, now - 10, now)),
      Wrap32(Within(history, now - 60, now)),
      Wrap32(Within(history, now - 300, now)))
  }

  class Stats {
    var lastSample: int
    var curSample: int
    const enqueued: array<uint32>
    const dequeued: array<uint32>
    const peeked: array<uint32>
    ghost var enqueuedAt: seq<int>
    ghost var dequeuedAt: seq<int>
    ghost var peekedAt: seq<int>

    ghost predicate Valid()
      reads this, enqueued, dequeued, peeked
    {
      && enqueued != dequeued && dequeued != peeked && peeked != enqueued
      && enqueued.Length == dequeued.Length == peeked.Length == SLOTS
      && if lastSample == 0 then curSample == 0 && enqueuedAt == dequeuedAt == peekedAt == []
         else
           && Ring(enqueued[..], curSample, lastSample, enqueuedAt)
           && Ring(dequeued[..], curSample, lastSample, dequeuedAt)
           && Ring(peeked[..], curSample, lastSample, peekedAt)
    }

    /** Whatever the arrays hold at first, the first rotation clears it. */
    constructor ()
      ensures Valid() && fresh(enqueued) && fresh(dequeued) && fresh(peeked)
      ensures enqueuedAt == dequeuedAt == peekedAt == []
    {
      lastSample, curSample := 0, 0;
      enqueued, dequeued, peeked := new uint32[SLOTS], new uint32[SLOTS], new uint32[SLOTS];
      enqueuedAt, dequeuedAt, peekedAt := [], [], [];
    }

    /** Sets the d slots behind the current one to zero, in all three rings. */
    method ClearSlots(d: nat)
      requires d <= SLOTS && enqueued != dequeued && dequeued != peeked && peeked != enqueued
      requires enqueued.Length == dequeued.Length == peeked.Length == SLOTS
      modifies enqueued, dequeued, peeked
      ensures enqueued[..] == Cleared(old(enqueued[..]), curSample, d)
      ensures dequeued[..] == Cleared(old(dequeued[..]), curSample, d)
      ensures peeked[..] == Cleared(old(peeked[..]), curSample, d)
    {
      ClearNone(enqueued[..], curSample);
      ClearNone(dequeued[..], curSample);
      ClearNone(peeked[..], curSample);
      for x := 0 to d
        invariant enqueued[..] == Cleared(old(enqueued[..]), curSample, x)
        invariant dequeued[..] == Cleared(old(dequeued[..]), curSample, x)
        invariant peeked[..] == Cleared(old(peeked[..]), curSample, x)
      {
        ClearNext(old(enqueued[..]), curSample, x);
        ClearNext(old(dequeued[..]), curSample, x);
        ClearNext(old(peeked[..]), curSample, x);
        var i := Slot(curSample + x + 1);
        enqueued[i] := 0;
        dequeued[i] := 0;
        peeked[i] := 0;
      }
    }

    method RotateSamples(now: int)
      requires Valid() && now >= lastSample && now >= SLOTS
      modifies this`lastSample, this`curSample, enqueued, dequeued, peeked
      ensures Valid() && lastSample == now
    {
      var timeDiff := Gap(lastSample, now);
      if timeDiff > 0 {
        if lastSample == 0 {
          RingStarts(enqueued[..], now);
          RingStarts(dequeued[..], now);
          RingStarts(peeked[..], now);
        } else {
          RingRotates(enqueued[..], curSample, lastSample, now, enqueuedAt);
          RingRotates(dequeued[..], curSample, lastSample, now, dequeuedAt);
          RingRotates(peeked[..], curSample, lastSample, now, peekedAt);
        }
        ClearSlots(timeDiff);
        curSample := Slot(curSample + timeDiff);
        lastSample := now;
      }
    }

    method MessageEnqueued(now: int)
      requires Valid() && now >= lastSample && now >= SLOTS
      modifies this, enqueued, dequeued, peeked
      ensures Valid() && lastSample == now
      ensures enqueuedAt == old(enqueuedAt) + [now] && dequeuedAt == old(dequeuedAt) && peekedAt == old(peekedAt)
    {
      RotateSamples(now);
      RingCounts(enqueued[..], curSample, lastSample, enqueuedAt);
      enqueued[curSample] := Increment(enqueued[curSample]);
      enqueuedAt := enqueuedAt + [now];
    }

    method MessageDequeued(now: int)
      requires Valid() && now >= lastSample && now >= SLOTS
      modifies this, enqueued, dequeued, peeked
      ensures Valid() && lastSample == now
      ensures enqueuedAt == old(enqueuedAt) && dequeuedAt == old(dequeuedAt) + [now] && peekedAt == old(peekedAt)
    {
      RotateSamples(now);
      RingCounts(dequeued[..], curSample, lastSample, dequeuedAt);
      dequeued[curSample] := Increment(dequeued[curSample]);
      dequeuedAt := dequeuedAt + [now];
    }

    method MessagePeeked(now: int)
      requires Valid() && now >= lastSample && now >= SLOTS
      modifies this, enqueued, dequeued, peeked
      ensures Valid() && lastSample == now
      ensures enqueuedAt == old(enqueuedAt) && dequeuedAt == old(dequeuedAt) && peekedAt == old(peekedAt) + [now]
    {
      RotateSamples(now);
      RingCounts(peeked[..], curSample, lastSample, peekedAt);
      peeked[curSample] := Increment(peeked[curSample]);
      peekedAt := peekedAt + [now];
    }

    method EnqueueCounts(now: int) returns (r: Counts)
      requires Valid() && now >= lastSample && now >= SLOTS
      modifies this`lastSample, this`curSample, enqueued, dequeued, peeked
      ensures Valid() && lastSample == now && r == TrueCounts(enqueuedAt, now)
    {
      RotateSamples(now);
      r := WindowCounts(enqueued, curSample, lastSample, enqueuedAt);
    }

    method DequeueCounts(now: int) returns (r: Counts)
      requires Valid() && now >= lastSample && now >= SLOTS
      modifies this`lastSample, this`curSample, enqueued, dequeued, peeked
      ensures Valid() && lastSample == now && r == TrueCounts(dequeuedAt, now)
    {
      RotateSamples(now);
      r := WindowCounts(dequeued, curSample, lastSample, dequeuedAt);
    }

    method PeekCounts(now: int) returns (r: Counts)
      requires Valid() && now >= lastSample && now >= SLOTS
      modifies this`lastSample, this`curSample, enqueued, dequeued, peeked
      ensures Valid() && lastSample == now && r == TrueCounts(peekedAt, now)
    {
      RotateSamples(now);
      r := WindowCounts(peeked, curSample, lastSample, peekedAt);
    }
  }

  /** Sums a ring's slots from the current one back. */
  method WindowCounts(slots: array<uint32>, cur: int, ghost last: int, ghost history: seq<int>) returns (r: Counts)
    requires Ring(slots[..], cur, last, history)
    ensures r == TrueCounts(history, last)
  {
    WindowEmpty(history, last);
    var last10 := SumSlots(slots, cur, 0, 10, 0, last, history);
    var last60 := SumSlots(slots, cur, 10, 60, last10, last, history);
    var last300 := SumSlots(slots, cur, 60, 300, last60, last, history);
    r := Counts(last10, last60, last300);
  }

  method SumSlots(slots: array<uint32>, cur: int, from: nat, to: nat, start: uint32, ghost last: int,
          ghost history: seq<int>) returns (total: uint32)
    requires Ring(slots[..], cur, last, history) && from <= to <= SLOTS
    requires start == Wrap32(Within(history, last - from, last))
    ensures total == Wrap32(Within(history, last - to, last))
  {
    total := start;
    for x := from to to
      invariant total == Wrap32(Within(history, last - x, last))
    {
      WindowGrows(slots[..], cur, last, history, x, total);
      total := Add32(total, slots[Slot(cur - x)]);
    }
  }
}
