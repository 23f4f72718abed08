/**
 How exact the request counter is, and what the limiter guarantees in real time.
 */
module RateLaws {
  import opened Basics
  import opened RateLimit

  // ---------------------------------------------------------------- exactness

  /** A request clears position `p`: it is counted one position before it, or it
      starts an era and `p` is the first position. */
  ghost predicate Clears(m: Mark, p: nat) {
    (m.newEra && p == 0) || (m.pos + 1) % RATE_SECONDS == p
  }

  /** Requests counted at a position since it was last cleared, among the first `n`. */
  ghost function SinceClear(marks: seq<Mark>, n: nat, p: nat): nat
    requires n <= |marks|
  {
    if n == 0 then 0
    else
      (if Clears(marks[n - 1], p) then 0 else SinceClear(marks, n - 1, p)) + if marks[n - 1].pos == p then 1 else 0
  }

  lemma {:induction false} CountAt(samples: seq<nat>, m: Mark, p: nat)
    requires |samples| == RATE_SECONDS && m.pos < RATE_SECONDS && p < RATE_SECONDS
    ensures Count(samples, m)[p] ==
      var kept := if Clears(m, p) then 0 else samples[p];
      if m.pos == p then Min(kept + 1, U16_MAX) else kept
  {
  }

  /** In a new session, each counter is the number of requests at its position since
      it was last cleared, up to the maximum. */
  lemma {:induction false} CounterIsSinceClear(start: nat, cs: seq<Clock>, n: nat, p: nat)
    requires Chronological(FreshRate(start), cs) && n <= |cs| && p < RATE_SECONDS
    ensures Chronological(FreshRate(start), cs[..n])
    ensures RateAfter(FreshRate(start), cs[..n]).samples[p] ==
      Min(SinceClear(Marks(FreshRate(start), cs), n, p), U16_MAX)
  {
    var r := FreshRate(start);
    ChronologicalPrefix(r, cs, n);
    if n > 0 {
      CounterIsSinceClear(start, cs, n - 1, p);
      RateAfterNext(r, cs, n - 1);
      CountAt(RateBefore(r, cs, n - 1).samples, MarkAt(r, cs, n - 1), p);
    }
  }

  /** What an earlier slot left at the position of request `i`'s slot. */
  ghost function Leftover(slots: seq<Slot>, marks: seq<Mark>, i: nat): nat
    requires i < |slots| == |marks|
  {
    if i > 0 && slots[i - 1] == slots[i] then Leftover(slots, marks, i - 1)
    else if Clears(marks[i], marks[i].pos) then 0
    else SinceClear(marks, i, marks[i].pos)
  }

  /** Requests of one slot are counted at one position and start no era. */
  ghost predicate Coherent(slots: seq<Slot>, marks: seq<Mark>) {
    && |slots| == |marks|
    && (forall i :: 0 <= i < |marks| ==> marks[i].pos < RATE_SECONDS)
    && forall i :: 0 < i < |marks| && slots[i - 1] == slots[i] ==> !marks[i].newEra && marks[i].pos == marks[i - 1].pos
  }

  lemma {:induction false} RunIsCoherent(r: Rate, cs: seq<Clock>)
    requires ValidRate(r) && Chronological(r, cs)
    ensures Coherent(Slots(r, cs), Marks(r, cs))
  {
    var slots, marks := Slots(r, cs), Marks(r, cs);
    forall i | 0 < i < |cs| && slots[i - 1] == slots[i]
      ensures !marks[i].newEra && marks[i].pos == marks[i - 1].pos
    {
      SameSlotCountsUp(r, cs, i);
    }
  }

  lemma {:induction false} SinceClearSplits(slots: seq<Slot>, marks: seq<Mark>, cs: seq<Clock>, i: nat)
    requires Trace(slots, cs) && Coherent(slots, marks) && i < |cs|
    ensures SinceClear(marks, i + 1, marks[i].pos) == InSlot(slots, i + 1, slots[i]) + Leftover(slots, marks, i)
  {
    if i > 0 && slots[i - 1] == slots[i] {
      SinceClearSplits(slots, marks, cs, i - 1);
    } else {
      FirstOfSlot(slots, cs, i);
    }
  }

  /** Nothing is left at a position iff every earlier request there was followed by
      one that cleared it. */
  lemma {:induction false} NothingLeftIff(marks: seq<Mark>, n: nat, p: nat)
    requires n <= |marks| && p < RATE_SECONDS && forall i :: 0 <= i < |marks| ==> marks[i].pos < RATE_SECONDS
    ensures SinceClear(marks, n, p) == 0 <==>
      forall k :: 0 <= k < n && marks[k].pos == p ==> exists m :: k < m < n && Clears(marks[m], p)
  {
    if n > 0 {
      NothingLeftIff(marks, n - 1, p);
    }
  }

  /** The first request of the slot of request `i`. */
  ghost function FirstIn(slots: seq<Slot>, i: nat): (first: nat)
    requires i < |slots|
    ensures first <= i && slots[first] == slots[i]
  {
    if i > 0 && slots[i - 1] == slots[i] then FirstIn(slots, i - 1) else i
  }

  /** When the slot of request `i` began, its position still held requests of an earlier
      slot: neither the slot's first request cleared the position, nor any request
      since one that was counted there. */
  ghost predicate Stale(slots: seq<Slot>, marks: seq<Mark>, i: nat)
    requires i < |slots| == |marks|
  {
    var first := FirstIn(slots, i);
    var p := marks[first].pos;
    && !Clears(marks[first], p)
    && exists k :: 0 <= k < first && marks[k].pos == p && forall m :: k < m < first ==> !Clears(marks[m], p)
  }

  lemma {:induction false} LeftoverIffStale(slots: seq<Slot>, marks: seq<Mark>, i: nat)
    requires i < |slots| && Coherent(slots, marks)
    ensures Leftover(slots, marks, i) == 0 <==> !Stale(slots, marks, i)
  {
    if i > 0 && slots[i - 1] == slots[i] {
      LeftoverIffStale(slots, marks, i - 1);
    } else {
      NothingLeftIff(marks, i, marks[i].pos);
    }
  }

  /** The answer is the number of requests in the current second iff the position of
      the slot was not stale when the slot began, or the counter is at its maximum. */
  lemma {:induction false} AnswerIsExactIff(start: nat, cs: seq<Clock>, i: nat)
    requires Chronological(FreshRate(start), cs) && i < |cs|
    ensures var r := FreshRate(start); var k := InSlot(Slots(r, cs), i + 1, Slots(r, cs)[i]);
      Answers(r, cs)[i] == Min(k, U16_MAX) <==> !Stale(Slots(r, cs), Marks(r, cs), i) || k >= U16_MAX
  {
    AnswerSplits(start, cs, i);
    RunIsCoherent(FreshRate(start), cs);
    ExactIffFresh(Slots(FreshRate(start), cs), Marks(FreshRate(start), cs), Answers(FreshRate(start), cs)[i], i);
  }

  lemma {:induction false} ExactIffFresh(slots: seq<Slot>, marks: seq<Mark>, answer: nat, i: nat)
    requires i < |slots| && Coherent(slots, marks)
    requires answer == Min(InSlot(slots, i + 1, slots[i]) + Leftover(slots, marks, i), U16_MAX)
    ensures var k := InSlot(slots, i + 1, slots[i]);
      answer == Min(k, U16_MAX) <==> !Stale(slots, marks, i) || k >= U16_MAX
  {
    LeftoverIffStale(slots, marks, i);
  }

  lemma {:induction false} AnswerSplits(start: nat, cs: seq<Clock>, i: nat)
    requires Chronological(FreshRate(start), cs) && i < |cs|
    ensures var r := FreshRate(start);
      Answers(r, cs)[i] ==
        Min(InSlot(Slots(r, cs), i + 1, Slots(r, cs)[i]) + Leftover(Slots(r, cs), Marks(r, cs), i), U16_MAX)
  {
    var r := FreshRate(start);
    AnswerIsSinceClear(start, cs, i);
    SlotsFormTrace(r, cs);
    RunIsCoherent(r, cs);
    SinceClearSplits(Slots(r, cs), Marks(r, cs), cs, i);
  }

  lemma {:induction false} AnswerIsSinceClear(start: nat, cs: seq<Clock>, i: nat)
    requires Chronological(FreshRate(start), cs) && i < |cs|
    ensures var marks := Marks(FreshRate(start), cs);
      Answers(FreshRate(start), cs)[i] == Min(SinceClear(marks, i + 1, marks[i].pos), U16_MAX)
  {
    var r := FreshRate(start);
    RateAfterNext(r, cs, i);
    CounterIsSinceClear(start, cs, i + 1, MarkAt(r, cs, i).pos);
  }

  lemma {:induction false} MarkWithinEra(r: Rate, c: Clock)
    requires InOrder(r, c) && c.now - r.era < RATE_SECONDS * SECOND
    ensures MarkOf(r, c) == Mark(false, (c.now - r.era) / SECOND)
    ensures SlotOf(r, c) == Slot(r.era, (c.now - r.era) / SECOND)
  {
    assert (c.check - r.era) / SECOND < RATE_SECONDS;
    assert (c.now - r.era) / SECOND < RATE_SECONDS;
  }

  lemma {:induction false} FirstEraMarks(start: nat, cs: seq<Clock>, i: nat)
    requires Chronological(FreshRate(start), cs) && i < |cs| && cs[i].now - start < RATE_SECONDS * SECOND
    ensures var r := FreshRate(start);
      && RateBefore(r, cs, i).era == start
      && MarkAt(r, cs, i) == Mark(false, (cs[i].now - start) / SECOND)
      && SlotAt(r, cs, i) == Slot(start, (cs[i].now - start) / SECOND)
  {
    var r := FreshRate(start);
    if i > 0 {
      assert cs[i - 1].now <= cs[i].check;
      FirstEraMarks(start, cs, i - 1);
      RateAfterNext(r, cs, i - 1);
    }
    MarkWithinEra(RateBefore(r, cs, i), cs[i]);
  }

  lemma {:induction false} FirstEraLeavesNothing(start: nat, cs: seq<Clock>, i: nat)
    requires Chronological(FreshRate(start), cs) && i < |cs| && cs[i].now - start < RATE_SECONDS * SECOND
    ensures Leftover(Slots(FreshRate(start), cs), Marks(FreshRate(start), cs), i) == 0
  {
    var r := FreshRate(start);
    var slots, marks := Slots(r, cs), Marks(r, cs);
    forall k | 0 <= k <= i ensures slots[k] == Slot(start, marks[k].pos) {
      assert k < i ==> cs[k].now <= cs[i].check;
      FirstEraMarks(start, cs, k);
    }
    SlotsFormTrace(r, cs);
    NothingLeftInFirstEra(slots, marks, cs, start, i);
  }

  /** In the first ten seconds of a session the answer is exact. */
  lemma {:induction false} ExactInFirstTenSeconds(start: nat, cs: seq<Clock>, i: nat)
    requires Chronological(FreshRate(start), cs) && i < |cs| && cs[i].now - start < RATE_SECONDS * SECOND
    ensures var r := FreshRate(start);
      Answers(r, cs)[i] == Min(InSlot(Slots(r, cs), i + 1, Slots(r, cs)[i]), U16_MAX)
  {
    FirstEraLeavesNothing(start, cs, i);
    AnswerSplits(start, cs, i);
  }

  lemma {:induction false} NoneAtPosition(marks: seq<Mark>, n: nat, p: nat)
    requires n <= |marks| && forall k :: 0 <= k < n ==> marks[k].pos != p
    ensures SinceClear(marks, n, p) == 0
  {
    if n > 0 {
      NoneAtPosition(marks, n - 1, p);
    }
  }

  lemma {:induction false} NothingLeftInFirstEra(slots: seq<Slot>, marks: seq<Mark>, cs: seq<Clock>, start: nat, i: nat)
    requires Trace(slots, cs) && i < |cs| == |marks|
    requires forall k :: 0 <= k <= i ==> slots[k] == Slot(start, marks[k].pos)
    ensures Leftover(slots, marks, i) == 0
  {
    if i > 0 && slots[i - 1] == slots[i] {
      NothingLeftInFirstEra(slots, marks, cs, start, i - 1);
    } else {
      forall k | 0 <= k < i ensures marks[k].pos != marks[i].pos {
        SlotsAreOrdered(slots, cs, k, i - 1);
        SlotsAreOrdered(slots, cs, i - 1, i);
      }
      NoneAtPosition(marks, i, marks[i].pos);
    }
  }

  function At(seconds: nat): Clock {
    Clock(seconds * SECOND, seconds * SECOND, seconds * SECOND)
  }

  lemma {:induction false} StaleMarks(cs: seq<Clock>)
    requires cs == [At(5), At(10), At(15)]
    ensures Chronological(FreshRate(0), cs)
    ensures var r := FreshRate(0);
      && MarkAt(r, cs, 0) == Mark(false, 5) && SlotAt(r, cs, 0) == Slot(0, 5)
      && MarkAt(r, cs, 1) == Mark(true, 0) && SlotAt(r, cs, 1) == Slot(10 * SECOND, 0)
      && MarkAt(r, cs, 2) == Mark(false, 5) && SlotAt(r, cs, 2) == Slot(10 * SECOND, 5)
  {
    var r := FreshRate(0);
    MarkWithinEra(RateBefore(r, cs, 0), cs[0]);
    RateAfterNext(r, cs, 0);
    assert RateBefore(r, cs, 1).era == 0;
    RateAfterNext(r, cs, 1);
    assert RateBefore(r, cs, 2).era == 10 * SECOND;
    MarkWithinEra(RateBefore(r, cs, 2), cs[2]);
  }

  /** The documented answer, the number of requests in the current second, is not
      always given: with requests at 5, 10 and 15 seconds, the third is alone in its
      second and is answered with 2. */
  lemma {:induction false} StaleSlotOvercounts()
    ensures var r, cs := FreshRate(0), [At(5), At(10), At(15)];
      && Chronological(r, cs)
      && InSlot(Slots(r, cs), 3, Slots(r, cs)[2]) == 1
      && Answers(r, cs)[2] == 2
  {
    var r, cs := FreshRate(0), [At(5), At(10), At(15)];
    StaleMarks(cs);
    var marks, slots := Marks(r, cs), Slots(r, cs);
    assert SinceClear(marks, 1, 5) == 1;
    assert SinceClear(marks, 2, 5) == 1;
    assert SinceClear(marks, 3, 5) == 2;
    AnswerIsSinceClear(0, cs, 2);
    assert InSlot(slots, 1, slots[2]) == 0 && InSlot(slots, 2, slots[2]) == 0;
  }

  // ------------------------------------------------------- real-time windows

  lemma {:induction false} TraceErasGrow(slots: seq<Slot>, cs: seq<Clock>, i: nat, j: nat)
    requires Trace(slots, cs) && i <= j < |cs|
    ensures slots[i].era <= slots[j].era
    ensures slots[i].era != slots[j].era ==>
      slots[j].era >= cs[i].now && slots[j].era >= slots[i].era + RATE_SECONDS * SECOND
    decreases j
  {
    if i < j {
      TraceErasGrow(slots, cs, i, j - 1);
      assert Follows(slots[j - 1], slots[j], cs[j]);
      assert cs[i].now <= cs[j].check;
    }
  }

  /** A last request of an era, followed by one that starts the next. */
  ghost predicate LastOfEra(slots: seq<Slot>, k: nat, era: nat) {
    k + 1 < |slots| && slots[k].era == era && slots[k + 1].era != era
  }

  lemma {:induction false} OneLastOfEra(slots: seq<Slot>, cs: seq<Clock>, k: nat, m: nat, era: nat)
    requires Trace(slots, cs) && LastOfEra(slots, k, era) && LastOfEra(slots, m, era)
    ensures k == m
  {
    if k < m {
      TraceErasGrow(slots, cs, k, k + 1);
      TraceErasGrow(slots, cs, k + 1, m);
    } else if m < k {
      TraceErasGrow(slots, cs, m, m + 1);
      TraceErasGrow(slots, cs, m + 1, k);
    }
  }

  /** Within less than a second, every request shares its slot with the first or the
      last one, except for at most one that ends an era. */
  lemma {:induction false} WindowSlots(slots: seq<Slot>, cs: seq<Clock>, lo: nat, k: nat, hi: nat)
    requires Trace(slots, cs) && lo < k < hi < |cs| && cs[hi].now < cs[lo].now + SECOND
    ensures slots[k] == slots[lo] || slots[k] == slots[hi] || LastOfEra(slots, k, slots[lo].era)
  {
    var a, b, s := slots[lo], slots[hi], slots[k];
    TraceErasGrow(slots, cs, lo, k);
    TraceErasGrow(slots, cs, k, hi);
    TraceErasGrow(slots, cs, lo, hi);
    assert cs[lo].now <= cs[k].now <= cs[hi].now by {
      assert cs[lo].now <= cs[k].check && cs[k].now <= cs[hi].check;
    }
    if s.era == b.era {
      SecondsGrow(cs[k].now - s.era, cs[hi].now - s.era);
      if a.era == b.era {
        SecondsGrow(cs[lo].now - a.era, cs[k].now - a.era);
        SecondsGrow(cs[lo].now - a.era, cs[hi].now - a.era);
      }
    } else if s.era == a.era && s != a {
      SecondsGrow(cs[lo].now - a.era, cs[k].now - a.era);
      assert cs[k].now <= cs[k + 1].check && Follows(s, slots[k + 1], cs[k + 1]);
    }
  }

  /** Requests `lo` to `n` (excluded) that are forwarded. */
  ghost function ForwardedIn(answers: seq<nat>, lo: nat, n: nat, maxPerSecond: nat): nat
    requires lo <= n <= |answers|
  {
    if n == lo then 0
    else ForwardedIn(answers, lo, n - 1, maxPerSecond) + if answers[n - 1] <= maxPerSecond then 1 else 0
  }

  lemma {:induction false} ForwardedBySlots(
      slots: seq<Slot>, answers: seq<nat>, lo: nat, n: nat, a: Slot, b: Slot, odd: int, maxPerSecond: nat)
    requires lo <= n <= |slots| == |answers|
    requires forall k :: lo <= k < n ==> slots[k] == a || slots[k] == b || k == odd
    ensures ForwardedIn(answers, lo, n, maxPerSecond) <=
      Forwarded(slots, answers, n, a, maxPerSecond) + Forwarded(slots, answers, n, b, maxPerSecond)
      + if lo <= odd < n then 1 else 0
    decreases n
  {
    if n > lo {
      ForwardedBySlots(slots, answers, lo, n - 1, a, b, odd, maxPerSecond);
    }
  }

  /** In any stretch of less than one second a session gets at most twice the limit
      and one more request through, whatever happened before. */
  lemma {:induction false} WindowBound(r: Rate, cs: seq<Clock>, lo: nat, hi: nat, maxPerSecond: nat)
    requires ValidRate(r) && Chronological(r, cs) && lo <= hi < |cs| && maxPerSecond < U16_MAX
    requires cs[hi].now < cs[lo].now + SECOND
    ensures ForwardedIn(Answers(r, cs), lo, hi + 1, maxPerSecond) <= 2 * maxPerSecond + 1
  {
    SlotsFormTrace(r, cs);
    AnswersCountUp(r, cs);
    WindowOfTrace(Slots(r, cs), Answers(r, cs), cs, lo, hi, maxPerSecond);
  }

  lemma {:induction false} WindowOfTrace(
      slots: seq<Slot>, answers: seq<nat>, cs: seq<Clock>, lo: nat, hi: nat, maxPerSecond: nat)
    requires Trace(slots, cs) && CountsUp(slots, answers) && lo <= hi < |cs| && maxPerSecond < U16_MAX
    requires cs[hi].now < cs[lo].now + SECOND
    ensures ForwardedIn(answers, lo, hi + 1, maxPerSecond) <= 2 * maxPerSecond + 1
  {
    var odd := OddOneOut(slots, cs, lo, hi);
    ForwardedBySlots(slots, answers, lo, hi + 1, slots[lo], slots[hi], odd, maxPerSecond);
    ForwardedBound(slots, answers, cs, hi + 1, slots[lo], maxPerSecond);
    ForwardedBound(slots, answers, cs, hi + 1, slots[hi], maxPerSecond);
  }

  lemma {:induction false} OddOneOut(slots: seq<Slot>, cs: seq<Clock>, lo: nat, hi: nat) returns (odd: int)
    requires Trace(slots, cs) && lo <= hi < |cs| && cs[hi].now < cs[lo].now + SECOND
    ensures forall k :: lo <= k <= hi ==> slots[k] == slots[lo] || slots[k] == slots[hi] || k == odd
  {
    var era := slots[lo].era;
    odd := -1;
    if m: nat :| LastOfEra(slots, m, era) {
      odd := m;
    }
    forall k | lo < k < hi ensures slots[k] == slots[lo] || slots[k] == slots[hi] || k == odd {
      WindowSlots(slots, cs, lo, k, hi);
      if LastOfEra(slots, k, era) {
        OneLastOfEra(slots, cs, k, odd, era);
      }
    }
  }
}
