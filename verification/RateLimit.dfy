/**
 The request counter of a WebSocket session and the limiter that consumes it.

 Clock readings are parameters.  A tick reads the clock up to three times: for the
 era check, for the new era, and for the position; the readings never decrease.
 */
module RateLimit {
  import opened Basics

  const RATE_SECONDS: nat := 10
  const U16_MAX: nat := 65535
  const SECOND: nat := 1_000_000_000

  datatype Clock = Clock(check: nat, reset: nat, now: nat)

  datatype Rate = Rate(era: nat, samples: seq<nat>)

  ghost predicate ValidRate(r: Rate) {
    |r.samples| == RATE_SECONDS && forall i :: 0 <= i < RATE_SECONDS ==> r.samples[i] <= U16_MAX
  }

  function FreshRate(now: nat): Rate {
    Rate(now, seq(RATE_SECONDS, _ => 0))
  }

  /** Readings in order, none before the era. */
  ghost predicate InOrder(r: Rate, c: Clock) {
    r.era <= c.check <= c.reset <= c.now
  }

  /** What one tick does to the counters: whether it starts an era, and where it counts. */
  datatype Mark = Mark(newEra: bool, pos: nat)

  function Era(r: Rate, c: Clock): nat
    requires InOrder(r, c)
  {
    if (c.check - r.era) / SECOND >= RATE_SECONDS then c.reset else r.era
  }

  function MarkOf(r: Rate, c: Clock): (m: Mark)
    requires InOrder(r, c)
    ensures m.pos < RATE_SECONDS
  {
    Mark((c.check - r.era) / SECOND >= RATE_SECONDS, (c.now - Era(r, c)) / SECOND % RATE_SECONDS)
  }

  /** The second of its era a tick falls in. */
  datatype Slot = Slot(era: nat, second: nat)

  function SlotOf(r: Rate, c: Clock): Slot
    requires InOrder(r, c)
  {
    Slot(Era(r, c), (c.now - Era(r, c)) / SECOND)
  }

  function Count(samples: seq<nat>, m: Mark): (s: seq<nat>)
    requires |samples| == RATE_SECONDS && m.pos < RATE_SECONDS
    ensures |s| == RATE_SECONDS
  {
    var cleared := if m.newEra then samples[0 := 0] else samples;
    var ahead := cleared[(m.pos + 1) % RATE_SECONDS := 0];
    ahead[m.pos := Min(ahead[m.pos] + 1, U16_MAX)]
  }

  function TickStep(r: Rate, c: Clock): (s: Rate)
    requires ValidRate(r) && InOrder(r, c)
    ensures ValidRate(s) && s.era <= c.now
  {
    Rate(Era(r, c), Count(r.samples, MarkOf(r, c)))
  }

  /** The number a tick answers. */
  function TickCount(r: Rate, c: Clock): nat
    requires ValidRate(r) && InOrder(r, c)
  {
    TickStep(r, c).samples[MarkOf(r, c).pos]
  }

  // -------------------------------------------------------------- the objects

  class RateCalculator {
    var era: nat
    const samples: array<nat>

    ghost predicate Valid()
      reads this, samples
    {
      samples.Length == RATE_SECONDS && ValidRate(Rate(era, samples[..]))
    }

    ghost function View(): Rate
      reads this, samples
    {
      Rate(era, samples[..])
    }

    constructor (now: nat)
      ensures Valid() && fresh(samples) && View() == FreshRate(now)
    {
      era := now;
      samples := new nat[RATE_SECONDS](_ => 0);
      new;
      assert samples[..] == FreshRate(now).samples;
    }

    method Tick(c: Clock) returns (count: nat)
      requires Valid() && InOrder(View(), c)
      modifies this`era, samples
      ensures Valid()
      ensures View() == TickStep(old(View()), c) && count == TickCount(old(View()), c)
    {
      if (c.check - era) / SECOND >= RATE_SECONDS {
        era := c.reset;
        samples[0] := 0;
      }
      var pos := (c.now - era) / SECOND % RATE_SECONDS;
      var next := (pos + 1) % RATE_SECONDS;
      samples[next] := 0;
      samples[pos] := if samples[pos] < U16_MAX then samples[pos] + 1 else U16_MAX;
      count := samples[pos];
      assert samples[..] == TickStep(old(View()), c).samples;
    }
  }

  datatype Origin = Ws(session: nat) | Other

  class RpcStats {
    var sessions: map<nat, RateCalculator>

    /** The calculators of all sessions and their arrays. */
    ghost function Repr(): set<object>
      reads this
    {
      (set id | id in sessions :: sessions[id] as object) + set id | id in sessions :: sessions[id].samples as object
    }

    /** No two sessions share a calculator or an array. */
    ghost predicate Valid()
      reads this, Repr()
    {
      && (forall id :: id in sessions ==> sessions[id].Valid())
      && forall id, other :: id in sessions && other in sessions && id != other ==>
           sessions[id] != sessions[other] && sessions[id].samples != sessions[other].samples
    }

    ghost function View(): map<nat, Rate>
      reads this, Repr()
    {
      map id | id in sessions :: sessions[id].View()
    }

    constructor ()
      ensures Valid() && View() == map[]
    {
      sessions := map[];
    }

    method OpenSession(id: nat, now: nat)
      requires Valid()
      modifies this
      ensures Valid()
      ensures View() == old(View())[id := FreshRate(now)]
      ensures fresh(Repr() - old(Repr()))
    {
      var calculator := new RateCalculator(now);
      sessions := sessions[id := calculator];
    }

    method CloseSession(id: nat)
      requires Valid()
      modifies this
      ensures Valid() && Repr() <= old(Repr()) && View() == old(View()) - {id}
    {
      sessions := sessions - {id};
    }

    /** Counts a request of a session; an unknown session counts as 0. */
    method CountRequest(id: nat, c: Clock) returns (count: nat)
      requires Valid() && (id in View() ==> InOrder(View()[id], c))
      modifies Repr()
      ensures Valid() && Repr() == old(Repr())
      ensures id in old(View()) ==>
        && count == TickCount(old(View())[id], c)
        && View() == old(View())[id := TickStep(old(View())[id], c)]
      ensures id !in old(View()) ==> count == 0 && View() == old(View())
    {
      if id !in sessions {
        return 0;
      }
      count := sessions[id].Tick(c);
    }

    /** The dispatcher's decision: forwarded, or answered with the rate-limit error. */
    method OnRequest(maxPerSecond: nat, origin: Origin, c: Clock) returns (forwarded: bool)
      requires Valid() && (origin.Ws? && origin.session in View() ==> InOrder(View()[origin.session], c))
      modifies Repr()
      ensures Valid() && Repr() == old(Repr())
      ensures origin.Ws? && origin.session in old(View()) ==>
        && forwarded == (TickCount(old(View())[origin.session], c) <= maxPerSecond)
        && View() == old(View())[origin.session := TickStep(old(View())[origin.session], c)]
      ensures !(origin.Ws? && origin.session in old(View())) ==> forwarded && View() == old(View())
    {
      if origin.Ws? {
        var count := CountRequest(origin.session, c);
        if count > maxPerSecond {
          return false;
        }
      }
      forwarded := true;
    }
  }

  // --------------------------------------------------------------------- runs

  /** The requests of one session, in order, from the state it was opened in. */
  ghost predicate Chronological(r: Rate, cs: seq<Clock>) {
    && (forall i :: 0 <= i < |cs| ==> r.era <= cs[i].check <= cs[i].reset <= cs[i].now)
    && forall i, j :: 0 <= i < j < |cs| ==> cs[i].now <= cs[j].check
  }

  lemma {:induction false} ChronologicalPrefix(r: Rate, cs: seq<Clock>, n: nat)
    requires Chronological(r, cs) && n <= |cs|
    ensures Chronological(r, cs[..n])
  {
  }

  ghost function RateAfter(r: Rate, cs: seq<Clock>): (s: Rate)
    requires ValidRate(r) && Chronological(r, cs)
    ensures ValidRate(s) && r.era <= s.era
    ensures if cs == [] then s == r else s.era <= cs[|cs| - 1].now
  {
    if cs == [] then r
    else
      var n := |cs| - 1;
      ChronologicalPrefix(r, cs, n);
      var before := RateAfter(r, cs[..n]);
      assert n > 0 ==> cs[..n][n - 1].now <= cs[n].check;
      TickStep(before, cs[n])
  }

  /** The state before request `i`, in order with its readings. */
  ghost function RateBefore(r: Rate, cs: seq<Clock>, i: nat): (s: Rate)
    requires ValidRate(r) && Chronological(r, cs) && i < |cs|
    ensures ValidRate(s) && InOrder(s, cs[i])
  {
    ChronologicalPrefix(r, cs, i);
    assert i > 0 ==> cs[..i][i - 1].now <= cs[i].check;
    RateAfter(r, cs[..i])
  }

  ghost function SlotAt(r: Rate, cs: seq<Clock>, i: nat): Slot
    requires ValidRate(r) && Chronological(r, cs) && i < |cs|
  {
    SlotOf(RateBefore(r, cs, i), cs[i])
  }

  ghost function AnswerAt(r: Rate, cs: seq<Clock>, i: nat): nat
    requires ValidRate(r) && Chronological(r, cs) && i < |cs|
  {
    TickCount(RateBefore(r, cs, i), cs[i])
  }

  lemma {:induction false} RateAfterNext(r: Rate, cs: seq<Clock>, i: nat)
    requires ValidRate(r) && Chronological(r, cs) && i < |cs|
    ensures Chronological(r, cs[..i + 1])
    ensures RateAfter(r, cs[..i + 1]) == TickStep(RateBefore(r, cs, i), cs[i])
  {
    ChronologicalPrefix(r, cs, i + 1);
    assert cs[..i + 1][..i] == cs[..i];
  }

  /** The slot of every request. */
  ghost function Slots(r: Rate, cs: seq<Clock>): (s: seq<Slot>)
    requires ValidRate(r) && Chronological(r, cs)
    ensures |s| == |cs| && forall i :: 0 <= i < |cs| ==> s[i] == SlotAt(r, cs, i)
  {
    seq(|cs|, i requires 0 <= i < |cs| => SlotAt(r, cs, i))
  }

  /** The number every request is answered with. */
  ghost function Answers(r: Rate, cs: seq<Clock>): (a: seq<nat>)
    requires ValidRate(r) && Chronological(r, cs)
    ensures |a| == |cs| && forall i :: 0 <= i < |cs| ==> a[i] == AnswerAt(r, cs, i)
  {
    seq(|cs|, i requires 0 <= i < |cs| => AnswerAt(r, cs, i))
  }

  ghost function MarkAt(r: Rate, cs: seq<Clock>, i: nat): Mark
    requires ValidRate(r) && Chronological(r, cs) && i < |cs|
  {
    MarkOf(RateBefore(r, cs, i), cs[i])
  }

  /** What every request does to the counters. */
  ghost function Marks(r: Rate, cs: seq<Clock>): (m: seq<Mark>)
    requires ValidRate(r) && Chronological(r, cs)
    ensures |m| == |cs| && forall i :: 0 <= i < |cs| ==> m[i] == MarkAt(r, cs, i)
  {
    seq(|cs|, i requires 0 <= i < |cs| => MarkAt(r, cs, i))
  }

  /** How many of the first `n` requests fall in a slot. */
  ghost function InSlot(slots: seq<Slot>, n: nat, s: Slot): nat
    requires n <= |slots|
  {
    if n == 0 then 0 else InSlot(slots, n - 1, s) + if slots[n - 1] == s then 1 else 0
  }

  // ------------------------------------------------- runs as plain sequences

  ghost predicate Follows(a: Slot, b: Slot, c: Clock) {
    if c.check >= a.era + RATE_SECONDS * SECOND then b.era == c.reset else b.era == a.era
  }

  /** The slots of a chronological run. */
  ghost predicate Trace(slots: seq<Slot>, cs: seq<Clock>) {
    && |slots| == |cs|
    && (forall i :: 0 <= i < |cs| ==>
          && cs[i].check <= cs[i].reset <= cs[i].now
          && slots[i].era <= cs[i].now
          && slots[i].second == (cs[i].now - slots[i].era) / SECOND)
    && (forall i, j :: 0 <= i < j < |cs| ==> cs[i].now <= cs[j].check)
    && forall i :: 0 < i < |cs| ==> Follows(slots[i - 1], slots[i], cs[i])
  }

  lemma {:induction false} SlotsFollow(r: Rate, cs: seq<Clock>, i: nat)
    requires ValidRate(r) && Chronological(r, cs) && 0 < i < |cs|
    ensures Follows(SlotAt(r, cs, i - 1), SlotAt(r, cs, i), cs[i])
    ensures MarkAt(r, cs, i).newEra <==> cs[i].check >= SlotAt(r, cs, i - 1).era + RATE_SECONDS * SECOND
  {
    RateAfterNext(r, cs, i - 1);
    assert RateBefore(r, cs, i).era == SlotAt(r, cs, i - 1).era;
  }

  lemma {:induction false} SlotsFormTrace(r: Rate, cs: seq<Clock>)
    requires ValidRate(r) && Chronological(r, cs)
    ensures Trace(Slots(r, cs), cs)
  {
    forall i | 0 < i < |cs| ensures Follows(Slots(r, cs)[i - 1], Slots(r, cs)[i], cs[i]) {
      SlotsFollow(r, cs, i);
    }
  }

  ghost predicate Later(a: Slot, b: Slot) {
    a.era < b.era || (a.era == b.era && a.second < b.second)
  }

  lemma {:induction false} SecondsGrow(x: nat, y: nat)
    requires x <= y
    ensures x / SECOND <= y / SECOND
    ensures y < x + SECOND ==> y / SECOND <= x / SECOND + 1
    ensures x > 9 * SECOND && x / SECOND != y / SECOND ==> y >= 10 * SECOND
    ensures y < SECOND ==> x / SECOND == y / SECOND == 0
  {
  }

  /** Slots only move forward. */
  lemma {:induction false} SlotsAreOrdered(slots: seq<Slot>, cs: seq<Clock>, i: nat, j: nat)
    requires Trace(slots, cs) && i <= j < |cs|
    ensures slots[i] == slots[j] || Later(slots[i], slots[j])
    decreases j
  {
    if i < j {
      SlotsAreOrdered(slots, cs, i, j - 1);
      assert Follows(slots[j - 1], slots[j], cs[j]);
      assert cs[j - 1].now <= cs[j].check;
      if slots[j - 1].era == slots[j].era {
        SecondsGrow(cs[j - 1].now - slots[j].era, cs[j].now - slots[j].era);
      }
    }
  }

  lemma {:induction false} NewSlotIsEmpty(slots: seq<Slot>, n: nat, s: Slot)
    requires n <= |slots| && forall i :: 0 <= i < n ==> slots[i] != s
    ensures InSlot(slots, n, s) == 0
  {
    if n > 0 {
      NewSlotIsEmpty(slots, n - 1, s);
    }
  }

  lemma {:induction false} FirstOfSlot(slots: seq<Slot>, cs: seq<Clock>, i: nat)
    requires Trace(slots, cs) && i < |cs|
    requires i > 0 ==> slots[i - 1] != slots[i]
    ensures InSlot(slots, i, slots[i]) == 0
  {
    forall k | 0 <= k < i ensures slots[k] != slots[i] {
      SlotsAreOrdered(slots, cs, k, i - 1);
      SlotsAreOrdered(slots, cs, i - 1, i);
    }
    NewSlotIsEmpty(slots, i, slots[i]);
  }

  /** Answers start at one and grow by one within a slot, up to the maximum. */
  ghost predicate CountsUp(slots: seq<Slot>, answers: seq<nat>) {
    && |slots| == |answers|
    && (forall i :: 0 <= i < |answers| ==> 1 <= answers[i] <= U16_MAX)
    && forall i :: 0 < i < |answers| && slots[i - 1] == slots[i] ==> answers[i] == Min(answers[i - 1] + 1, U16_MAX)
  }

  lemma {:induction false} AnswerStep(r: Rate, c: Clock)
    requires ValidRate(r) && InOrder(r, c)
    ensures var m := MarkOf(r, c);
      TickCount(r, c) == Min(1 + (if m.newEra && m.pos == 0 then 0 else r.samples[m.pos]), U16_MAX)
  {
  }

  lemma {:induction false} SameSlotMarks(r: Rate, c: Clock, d: Clock)
    requires ValidRate(r) && InOrder(r, c) && InOrder(TickStep(r, c), d)
    requires SlotOf(r, c) == SlotOf(TickStep(r, c), d)
    ensures !MarkOf(TickStep(r, c), d).newEra && MarkOf(TickStep(r, c), d).pos == MarkOf(r, c).pos
  {
    var era := Era(r, c);
    assert TickStep(r, c).era == era == Era(TickStep(r, c), d);
    if (d.check - era) / SECOND >= RATE_SECONDS {
      assert d.check >= era + SECOND;
    }
  }

  lemma {:induction false} SameSlotCountsUp(r: Rate, cs: seq<Clock>, i: nat)
    requires ValidRate(r) && Chronological(r, cs) && 0 < i < |cs|
    requires SlotAt(r, cs, i - 1) == SlotAt(r, cs, i)
    ensures AnswerAt(r, cs, i) == Min(AnswerAt(r, cs, i - 1) + 1, U16_MAX)
    ensures !MarkAt(r, cs, i).newEra && MarkAt(r, cs, i).pos == MarkAt(r, cs, i - 1).pos
  {
    RateAfterNext(r, cs, i - 1);
    SameSlotMarks(RateBefore(r, cs, i - 1), cs[i - 1], cs[i]);
    AnswerStep(RateBefore(r, cs, i), cs[i]);
  }

  lemma {:induction false} AnswersCountUp(r: Rate, cs: seq<Clock>)
    requires ValidRate(r) && Chronological(r, cs)
    ensures CountsUp(Slots(r, cs), Answers(r, cs))
  {
    var slots, answers := Slots(r, cs), Answers(r, cs);
    forall i | 0 <= i < |cs| ensures 1 <= answers[i] <= U16_MAX {
      AnswerStep(RateBefore(r, cs, i), cs[i]);
    }
    forall i | 0 < i < |cs| && slots[i - 1] == slots[i] ensures answers[i] == Min(answers[i - 1] + 1, U16_MAX) {
      SameSlotCountsUp(r, cs, i);
    }
  }

  lemma {:induction false} CountedInSlot(slots: seq<Slot>, answers: seq<nat>, cs: seq<Clock>, i: nat)
    requires Trace(slots, cs) && CountsUp(slots, answers) && i < |cs|
    ensures answers[i] >= Min(InSlot(slots, i + 1, slots[i]), U16_MAX)
  {
    if i > 0 && slots[i - 1] == slots[i] {
      CountedInSlot(slots, answers, cs, i - 1);
    } else {
      FirstOfSlot(slots, cs, i);
    }
  }

  /** The counter never undercounts: the k-th request of a slot is answered with at
      least k, up to the counter's maximum. */
  lemma {:induction false} NeverUndercounts(r: Rate, cs: seq<Clock>, i: nat)
    requires ValidRate(r) && Chronological(r, cs) && i < |cs|
    ensures Answers(r, cs)[i] >= Min(InSlot(Slots(r, cs), i + 1, Slots(r, cs)[i]), U16_MAX)
  {
    SlotsFormTrace(r, cs);
    AnswersCountUp(r, cs);
    CountedInSlot(Slots(r, cs), Answers(r, cs), cs, i);
  }

  // ----------------------------------------------------------------- limiting

  /** How many of the first `n` requests are in a slot and forwarded. */
  ghost function Forwarded(slots: seq<Slot>, answers: seq<nat>, n: nat, s: Slot, maxPerSecond: nat): nat
    requires n <= |slots| == |answers|
  {
    if n == 0 then 0
    else Forwarded(slots, answers, n - 1, s, maxPerSecond)
         + if slots[n - 1] == s && answers[n - 1] <= maxPerSecond then 1 else 0
  }

  lemma {:induction false} ForwardedBound(
      slots: seq<Slot>, answers: seq<nat>, cs: seq<Clock>, n: nat, s: Slot, maxPerSecond: nat)
    requires Trace(slots, cs) && CountsUp(slots, answers) && n <= |slots| && maxPerSecond < U16_MAX
    ensures Forwarded(slots, answers, n, s, maxPerSecond) <= Min(InSlot(slots, n, s), maxPerSecond)
  {
    if n > 0 {
      ForwardedBound(slots, answers, cs, n - 1, s, maxPerSecond);
      CountedInSlot(slots, answers, cs, n - 1);
    }
  }

  /** The limiter keeps every slot of a session within a limit below the counter's maximum. */
  lemma {:induction false} SlotLimit(r: Rate, cs: seq<Clock>, s: Slot, maxPerSecond: nat)
    requires ValidRate(r) && Chronological(r, cs) && maxPerSecond < U16_MAX
    ensures Forwarded(Slots(r, cs), Answers(r, cs), |cs|, s, maxPerSecond) <= maxPerSecond
  {
    SlotsFormTrace(r, cs);
    AnswersCountUp(r, cs);
    ForwardedBound(Slots(r, cs), Answers(r, cs), cs, |cs|, s, maxPerSecond);
  }

  function Burst(n: nat): (cs: seq<Clock>)
    ensures |cs| == n
  {
    seq(n, _ => Clock(0, 0, 0))
  }

  lemma {:induction false} BurstSlots(n: nat, k: nat)
    requires k < n
    ensures Chronological(FreshRate(0), Burst(n))
    ensures RateBefore(FreshRate(0), Burst(n), k).era == 0
    ensures SlotAt(FreshRate(0), Burst(n), k) == Slot(0, 0)
    ensures AnswerAt(FreshRate(0), Burst(n), k) <= U16_MAX
  {
    if k > 0 {
      BurstSlots(n, k - 1);
      RateAfterNext(FreshRate(0), Burst(n), k - 1);
    }
  }

  lemma {:induction false} AllForwarded(slots: seq<Slot>, answers: seq<nat>, n: nat, s: Slot, maxPerSecond: nat)
    requires n <= |slots| == |answers|
    requires forall i :: 0 <= i < n ==> slots[i] == s && answers[i] <= maxPerSecond
    ensures Forwarded(slots, answers, n, s, maxPerSecond) == n
  {
    if n > 0 {
      AllForwarded(slots, answers, n - 1, s, maxPerSecond);
    }
  }

  /** The limiter keeps every slot of every session within its limit iff the limit
      is below the counter's maximum; from there on it limits nothing. */
  lemma {:induction false} LimitHoldsIff(maxPerSecond: nat)
    ensures maxPerSecond < 65535 <==>
      forall r: Rate, cs: seq<Clock>, s: Slot :: ValidRate(r) && Chronological(r, cs) ==>
        Forwarded(Slots(r, cs), Answers(r, cs), |cs|, s, maxPerSecond) <= maxPerSecond
  {
    if maxPerSecond < U16_MAX {
      forall r: Rate, cs: seq<Clock>, s: Slot | ValidRate(r) && Chronological(r, cs)
        ensures Forwarded(Slots(r, cs), Answers(r, cs), |cs|, s, maxPerSecond) <= maxPerSecond
      {
        SlotLimit(r, cs, s, maxPerSecond);
      }
    } else {
      var r, cs := FreshRate(0), Burst(maxPerSecond + 1);
      BurstSlots(|cs|, 0);
      forall i | 0 <= i < |cs| ensures Slots(r, cs)[i] == Slot(0, 0) && Answers(r, cs)[i] <= maxPerSecond {
        BurstSlots(|cs|, i);
      }
      AllForwarded(Slots(r, cs), Answers(r, cs), |cs|, Slot(0, 0), maxPerSecond);
    }
  }
}
