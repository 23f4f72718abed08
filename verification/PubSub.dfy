/**
 Block notification: the broker's ticks, the ranges each listener and each of its
 subscribers is sent, and what the subscribers finally receive.

 A listener is held weakly by the broker, so it may be gone at any tick.  The
 latest block is a parameter of each tick.
 */
module PubSub {
  import opened Basics
  import opened LogIndex
  import opened IndexLaws

  datatype Range = Range(from: nat, to: nat)

  /** A log subscription and the ranges queried for it, oldest first. */
  datatype Subscriber = Subscriber(filter: LogFilter, ranges: seq<Range>)

  /** A notification handler: the ranges it was notified of, its log subscribers, and
      the subscriptions to block headers and to completed transactions. */
  datatype Listener = Listener(
    alive: bool, inbox: seq<Range>, subscribers: map<nat, Subscriber>, heads: set<nat>, completions: set<nat>)

  const NEW_LISTENER: Listener := Listener(true, [], map[], {}, {})

  datatype BrokerState = BrokerState(lastNotified: nat, listeners: seq<Listener>)

  datatype Event =
    | Tick(latest: nat)
    | AddListener
    | DropListener(listener: nat)
    | Subscribe(listener: nat, id: nat, filter: LogFilter)
    | SubscribeHeads(listener: nat, id: nat)
    | SubscribeCompletions(listener: nat, id: nat)
    | Unsubscribe(listener: nat, id: nat)

  /** One range queried for every current subscriber. */
  function NotifyLogs(subscribers: map<nat, Subscriber>, r: Range): map<nat, Subscriber> {
    map id | id in subscribers :: subscribers[id].(ranges := subscribers[id].ranges + [r])
  }

  function Notify(l: Listener, r: Range): Listener {
    if l.alive then l.(inbox := l.inbox + [r], subscribers := NotifyLogs(l.subscribers, r)) else l
  }

  function NotifyAll(ls: seq<Listener>, r: Range): (t: seq<Listener>)
    ensures |t| == |ls| && forall i :: 0 <= i < |ls| ==> t[i] == Notify(ls[i], r)
  {
    seq(|ls|, i requires 0 <= i < |ls| => Notify(ls[i], r))
  }

  /** Cancelling an identifier cancels it in all three tables. */
  function Cancel(l: Listener, id: nat): Listener {
    l.(subscribers := l.subscribers - {id}, heads := l.heads - {id}, completions := l.completions - {id})
  }

  predicate Knows(l: Listener, id: nat) {
    id in l.subscribers || id in l.heads || id in l.completions
  }

  /** What an event does to the listener it is about. */
  function Update(l: Listener, e: Event): Listener {
    match e
    case DropListener(_) => l.(alive := false)
    case Subscribe(_, id, f) => l.(subscribers := l.subscribers[id := Subscriber(f, [])])
    case SubscribeHeads(_, id) => l.(heads := l.heads + {id})
    case SubscribeCompletions(_, id) => l.(completions := l.completions + {id})
    case Unsubscribe(_, id) => Cancel(l, id)
    case _ => l
  }

  function OnEvent(s: BrokerState, e: Event): BrokerState {
    match e
    case Tick(latest) =>
      if latest <= s.lastNotified then s
      else BrokerState(latest, NotifyAll(s.listeners, Range(s.lastNotified + 1, latest)))
    case AddListener => s.(listeners := s.listeners + [NEW_LISTENER])
    case _ =>
      if e.listener < |s.listeners| then
        s.(listeners := s.listeners[e.listener := Update(s.listeners[e.listener], e)])
      else s
  }

  function RunEvents(s: BrokerState, events: seq<Event>): BrokerState
    decreases |events|
  {
    if events == [] then s else RunEvents(OnEvent(s, events[0]), events[1..])
  }

  // ---------------------------------------------------------- the live broker

  class Broker {
    var lastNotified: nat
    var listeners: seq<Listener>

    ghost function View(): BrokerState
      reads this
    {
      BrokerState(lastNotified, listeners)
    }

    constructor ()
      ensures View() == BrokerState(0, [])
    {
      lastNotified := 0;
      listeners := [];
    }

    method Register()
      modifies this
      ensures View() == OnEvent(old(View()), AddListener)
    {
      listeners := listeners + [NEW_LISTENER];
    }

    method SubscribeLogs(listener: nat, id: nat, filter: LogFilter)
      requires listener < |listeners|
      modifies this
      ensures View() == OnEvent(old(View()), Subscribe(listener, id, filter))
    {
      var l := listeners[listener];
      listeners := listeners[listener := l.(subscribers := l.subscribers[id := Subscriber(filter, [])])];
    }

    method SubscribeToHeads(listener: nat, id: nat)
      requires listener < |listeners|
      modifies this
      ensures View() == OnEvent(old(View()), SubscribeHeads(listener, id))
    {
      var l := listeners[listener];
      listeners := listeners[listener := l.(heads := l.heads + {id})];
    }

    method SubscribeToCompletions(listener: nat, id: nat)
      requires listener < |listeners|
      modifies this
      ensures View() == OnEvent(old(View()), SubscribeCompletions(listener, id))
    {
      var l := listeners[listener];
      listeners := listeners[listener := l.(completions := l.completions + {id})];
    }

    /** Cancels a subscription of any kind; the answer says whether there was one. */
    method CancelSubscription(listener: nat, id: nat) returns (found: bool)
      requires listener < |listeners|
      modifies this
      ensures View() == OnEvent(old(View()), Unsubscribe(listener, id))
      ensures found <==> Knows(old(listeners)[listener], id)
      ensures !Knows(listeners[listener], id)
    {
      var l := listeners[listener];
      var inHeads := id in l.heads;
      var inLogs := id in l.subscribers;
      var inCompletions := id in l.completions;
      listeners := listeners[listener := l.(heads := l.heads - {id})];
      listeners := listeners[listener := listeners[listener].(subscribers := l.subscribers - {id})];
      listeners := listeners[listener := listeners[listener].(completions := l.completions - {id})];
      found := inHeads || inLogs || inCompletions;
    }

    /** One firing of the interval timer, with the latest block it read. */
    method OnTick(latest: nat)
      modifies this
      ensures View() == OnEvent(old(View()), Tick(latest))
    {
      if latest <= lastNotified {
        return;
      }
      var r := Range(lastNotified + 1, latest);
      var i := 0;
      while i < |listeners|
        invariant 0 <= i <= |listeners| == |old(listeners)|
        invariant lastNotified == old(lastNotified)
        invariant forall k :: 0 <= k < |listeners| ==>
          listeners[k] == if k < i then Notify(old(listeners)[k], r) else old(listeners)[k]
      {
        if listeners[i].alive {
          var subscribers := NotifySubscribers(listeners[i].subscribers, r);
          listeners := listeners[i := listeners[i].(inbox := listeners[i].inbox + [r], subscribers := subscribers)];
        }
        i := i + 1;
      }
      lastNotified := latest;
      assert listeners == NotifyAll(old(listeners), r);
    }
  }

  /** The handler's loop over its subscriber table. */
  method NotifySubscribers(subscribers: map<nat, Subscriber>, r: Range) returns (updated: map<nat, Subscriber>)
    ensures updated == NotifyLogs(subscribers, r)
  {
    updated := subscribers;
    var pending := subscribers.Keys;
    while pending != {}
      invariant updated.Keys == subscribers.Keys && pending <= subscribers.Keys
      invariant forall id :: id in subscribers ==>
        updated[id] ==
          if id in pending then subscribers[id] else subscribers[id].(ranges := subscribers[id].ranges + [r])
      decreases pending
    {
      var id :| id in pending;
      updated := updated[id := updated[id].(ranges := updated[id].ranges + [r])];
      pending := pending - {id};
    }
  }

  // ------------------------------------------------------- exactly-once ranges

  /** The blocks of an interval, both ends included. */
  function Interval(from: nat, to: nat): (s: seq<nat>)
    ensures |s| == if from <= to then to + 1 - from else 0
    ensures forall i :: 0 <= i < |s| ==> s[i] == from + i
  {
    if from <= to then seq(to + 1 - from, i requires 0 <= i => from + i) else []
  }

  function RangeBlocks(): Range -> seq<nat> {
    (r: Range) => Interval(r.from, r.to)
  }

  /** All blocks of a list of ranges, in the order they were sent. */
  function Blocks(ranges: seq<Range>): seq<nat> {
    FlatMap(RangeBlocks(), ranges)
  }

  ghost predicate AllNonEmpty(ranges: seq<Range>) {
    forall r :: r in ranges ==> r.from <= r.to
  }

  /** Each range starts one past the end of the range before it. */
  ghost predicate Contiguous(ranges: seq<Range>) {
    forall j, k :: 0 <= j < k < |ranges| && k == j + 1 ==> ranges[k].from == ranges[j].to + 1
  }

  ghost predicate Spans(ranges: seq<Range>, join: nat, last: nat) {
    && AllNonEmpty(ranges)
    && Contiguous(ranges)
    && if ranges == [] then join == last else ranges[0].from == join + 1 && ranges[|ranges| - 1].to == last
  }

  /** Non-empty contiguous ranges that list exactly the blocks after `join` up to `last`. */
  ghost predicate Tiles(ranges: seq<Range>, join: nat, last: nat) {
    join <= last && Spans(ranges, join, last) && Blocks(ranges) == Interval(join + 1, last)
  }

  lemma {:induction false} BlocksSnoc(ranges: seq<Range>, r: Range)
    ensures Blocks(ranges + [r]) == Blocks(ranges) + Interval(r.from, r.to)
  {
    var all := ranges + [r];
    FlatMapSnoc(RangeBlocks(), all, |ranges|);
    assert all[..|ranges|] == ranges && all[..|ranges| + 1] == all;
  }

  lemma {:induction false} TilesExtend(ranges: seq<Range>, join: nat, last: nat, latest: nat)
    requires Tiles(ranges, join, last) && last < latest
    ensures Tiles(ranges + [Range(last + 1, latest)], join, latest)
  {
    var r := Range(last + 1, latest);
    BlocksSnoc(ranges, r);
    assert Interval(join + 1, last) + Interval(last + 1, latest) == Interval(join + 1, latest);
    var all := ranges + [r];
    forall j, k | 0 <= j < k < |all| && k == j + 1 ensures all[k].from == all[j].to + 1 {
      if k < |ranges| {
        assert ranges[k].from == ranges[j].to + 1;
      }
    }
  }

  ghost predicate News(s: BrokerState, e: Event) {
    e.Tick? && e.latest > s.lastNotified
  }

  /** Ranges and cursor after an event: one more range if it brings new blocks. */
  ghost predicate Extended(s: BrokerState, e: Event, before: seq<Range>, after: seq<Range>, last: nat) {
    && after == (if News(s, e) then before + [Range(s.lastNotified + 1, e.latest)] else before)
    && last == if News(s, e) then e.latest else s.lastNotified
  }

  lemma {:induction false} TilesStep(
      s: BrokerState, e: Event, before: seq<Range>, after: seq<Range>, last: nat, join: nat)
    requires Tiles(before, join, s.lastNotified) && Extended(s, e, before, after, last)
    ensures Tiles(after, join, last)
  {
    if News(s, e) {
      TilesExtend(before, join, s.lastNotified, e.latest);
      assert after == before + [Range(s.lastNotified + 1, e.latest)] && last == e.latest;
    } else {
      assert after == before && last == s.lastNotified;
    }
  }

  ghost predicate Alive(s: BrokerState, i: nat) {
    i < |s.listeners| && s.listeners[i].alive
  }

  ghost predicate Subscribed(s: BrokerState, i: nat, id: nat) {
    Alive(s, i) && id in s.listeners[i].subscribers
  }

  /** The listener stays alive through the events. */
  ghost predicate KeepsListener(events: seq<Event>, i: nat) {
    forall e :: e in events ==> e != DropListener(i)
  }

  ghost predicate Disturbs(e: Event, i: nat, id: nat) {
    || e == DropListener(i)
    || e == Unsubscribe(i, id)
    || (e.Subscribe? && e.listener == i && e.id == id)
  }

  /** The listener stays alive and the subscription is neither cancelled nor replaced. */
  ghost predicate KeepsSubscriber(events: seq<Event>, i: nat, id: nat) {
    forall e :: e in events ==> !Disturbs(e, i, id)
  }

  lemma {:induction false} ListenerAfter(s: BrokerState, e: Event, i: nat)
    requires Alive(s, i) && e != DropListener(i)
    ensures var t := OnEvent(s, e);
      Alive(t, i) && Extended(s, e, s.listeners[i].inbox, t.listeners[i].inbox, t.lastNotified)
  {
  }

  lemma {:induction false} ListenerStep(s: BrokerState, e: Event, i: nat, join: nat)
    requires Alive(s, i) && e != DropListener(i)
    requires Tiles(s.listeners[i].inbox, join, s.lastNotified)
    ensures var t := OnEvent(s, e); Alive(t, i) && Tiles(t.listeners[i].inbox, join, t.lastNotified)
  {
    ListenerAfter(s, e, i);
    var t := OnEvent(s, e);
    TilesStep(s, e, s.listeners[i].inbox, t.listeners[i].inbox, t.lastNotified, join);
  }

  /** A listener that stays alive is sent every block from its first tick on
      exactly once and in order, whatever else happens in the run. */
  lemma {:induction false} ListenerGetsEachBlockOnce(s: BrokerState, events: seq<Event>, i: nat, join: nat)
    requires Alive(s, i) && KeepsListener(events, i)
    requires Tiles(s.listeners[i].inbox, join, s.lastNotified)
    ensures var t := RunEvents(s, events);
      Alive(t, i) && Tiles(t.listeners[i].inbox, join, t.lastNotified)
    decreases |events|
  {
    if events != [] {
      assert events[0] in events && forall e :: e in events[1..] ==> e in events;
      ListenerStep(s, events[0], i, join);
      ListenerGetsEachBlockOnce(OnEvent(s, events[0]), events[1..], i, join);
    }
  }

  lemma {:induction false} SubscriberAfter(s: BrokerState, e: Event, i: nat, id: nat)
    requires Subscribed(s, i, id) && !Disturbs(e, i, id)
    ensures var t := OnEvent(s, e); var sub := s.listeners[i].subscribers[id];
      && Subscribed(t, i, id)
      && t.listeners[i].subscribers[id].filter == sub.filter
      && Extended(s, e, sub.ranges, t.listeners[i].subscribers[id].ranges, t.lastNotified)
  {
  }

  lemma {:induction false} SubscriberStep(s: BrokerState, e: Event, i: nat, id: nat, join: nat)
    requires Subscribed(s, i, id) && !Disturbs(e, i, id)
    requires Tiles(s.listeners[i].subscribers[id].ranges, join, s.lastNotified)
    ensures var t := OnEvent(s, e);
      && Subscribed(t, i, id)
      && t.listeners[i].subscribers[id].filter == s.listeners[i].subscribers[id].filter
      && Tiles(t.listeners[i].subscribers[id].ranges, join, t.lastNotified)
  {
    SubscriberAfter(s, e, i, id);
    var t := OnEvent(s, e);
    TilesStep(s, e, s.listeners[i].subscribers[id].ranges, t.listeners[i].subscribers[id].ranges, t.lastNotified, join);
  }

  /** The same for one subscription of a listener, from the block last notified
      when it subscribed. */
  lemma {:induction false} SubscriberGetsEachBlockOnce(s: BrokerState, events: seq<Event>, i: nat, id: nat, join: nat)
    requires Subscribed(s, i, id) && KeepsSubscriber(events, i, id)
    requires Tiles(s.listeners[i].subscribers[id].ranges, join, s.lastNotified)
    ensures var t := RunEvents(s, events);
      && Subscribed(t, i, id)
      && t.listeners[i].subscribers[id].filter == s.listeners[i].subscribers[id].filter
      && Tiles(t.listeners[i].subscribers[id].ranges, join, t.lastNotified)
    decreases |events|
  {
    if events != [] {
      assert events[0] in events && forall e :: e in events[1..] ==> e in events;
      SubscriberStep(s, events[0], i, id, join);
      SubscriberGetsEachBlockOnce(OnEvent(s, events[0]), events[1..], i, id, join);
    }
  }

  /** From the start of the broker: a listener added before the first tick is sent
      exactly blocks 1 to the last one notified; one added later, a suffix. */
  lemma {:induction false} BrokerDeliversEachBlockOnce(before: seq<Event>, after: seq<Event>)
    requires var s := RunEvents(BrokerState(0, []), before);
      KeepsListener(after, |s.listeners|)
    ensures var s := RunEvents(BrokerState(0, []), before);
      var t := RunEvents(OnEvent(s, AddListener), after);
      && Alive(t, |s.listeners|)
      && Tiles(t.listeners[|s.listeners|].inbox, s.lastNotified, t.lastNotified)
      && ((forall e :: e in before ==> !e.Tick?) ==>
            Blocks(t.listeners[|s.listeners|].inbox) == Interval(1, t.lastNotified))
  {
    var s := RunEvents(BrokerState(0, []), before);
    ListenerGetsEachBlockOnce(OnEvent(s, AddListener), after, |s.listeners|, s.lastNotified);
    if forall e :: e in before ==> !e.Tick? {
      NoTickNoProgress(BrokerState(0, []), before);
    }
  }

  lemma {:induction false} NoTickNoProgress(s: BrokerState, events: seq<Event>)
    requires forall e :: e in events ==> !e.Tick?
    ensures RunEvents(s, events).lastNotified == s.lastNotified
    decreases |events|
  {
    if events != [] {
      assert events[0] in events;
      NoTickNoProgress(OnEvent(s, events[0]), events[1..]);
    }
  }

  /** The broker's cursor is the highest block any tick has read. */
  lemma {:induction false} CursorIsHighestSeen(s: BrokerState, events: seq<Event>)
    ensures var t := RunEvents(s, events);
      && t.lastNotified >= s.lastNotified
      && (forall e :: e in events && e.Tick? ==> e.latest <= t.lastNotified)
      && (t.lastNotified == s.lastNotified || Tick(t.lastNotified) in events)
    decreases |events|
  {
    if events != [] {
      var s' := OnEvent(s, events[0]);
      CursorIsHighestSeen(s', events[1..]);
      assert events == [events[0]] + events[1..];
      var last := RunEvents(s, events).lastNotified;
      assert last == s'.lastNotified || Tick(last) in events[1..];
      assert s'.lastNotified == s.lastNotified || events[0] == Tick(s'.lastNotified);
    }
  }

  // ---------------------------------------------------- who is subscribed

  datatype Kind = LogKind | HeadKind | CompletionKind

  predicate InTable(l: Listener, kind: Kind, id: nat) {
    match kind
    case LogKind => id in l.subscribers
    case HeadKind => id in l.heads
    case CompletionKind => id in l.completions
  }

  predicate Joins(e: Event, i: nat, kind: Kind, id: nat) {
    match kind
    case LogKind => e.Subscribe? && e.listener == i && e.id == id
    case HeadKind => e == SubscribeHeads(i, id)
    case CompletionKind => e == SubscribeCompletions(i, id)
  }

  lemma {:induction false} TableStep(s: BrokerState, e: Event, i: nat, kind: Kind, id: nat)
    requires i < |s.listeners|
    ensures var t := OnEvent(s, e);
      && i < |t.listeners|
      && (InTable(t.listeners[i], kind, id) <==>
            Joins(e, i, kind, id) || (InTable(s.listeners[i], kind, id) && e != Unsubscribe(i, id)))
  {
  }

  /** Over any events, an identifier is in a table of a handler iff it was subscribed there
      and not cancelled since: no event about another handler, table or identifier matters. */
  lemma {:induction false} SubscribedIffNotCancelled(s: BrokerState, events: seq<Event>, i: nat, kind: Kind, id: nat)
    requires i < |s.listeners|
    ensures var t := RunEvents(s, events);
      && i < |t.listeners|
      && (InTable(t.listeners[i], kind, id) <==>
            || (InTable(s.listeners[i], kind, id) && NoCancel(events, 0, i, id))
            || exists k :: 0 <= k < |events| && Joins(events[k], i, kind, id) && NoCancel(events, k + 1, i, id))
    decreases |events|
  {
    if events != [] {
      var rest := events[1..];
      TableStep(s, events[0], i, kind, id);
      SubscribedIffNotCancelled(OnEvent(s, events[0]), rest, i, kind, id);
      NoCancelShift(events, i, id);
      if k :| 0 <= k < |rest| && Joins(rest[k], i, kind, id) && NoCancel(rest, k + 1, i, id) {
        assert Joins(events[k + 1], i, kind, id) && NoCancel(events, k + 1 + 1, i, id);
      }
      if k :| 0 <= k < |events| && Joins(events[k], i, kind, id) && NoCancel(events, k + 1, i, id) {
        if k > 0 {
          assert Joins(rest[k - 1], i, kind, id) && NoCancel(rest, k - 1 + 1, i, id);
        }
      }
    }
  }

  ghost predicate NoCancel(events: seq<Event>, from: nat, i: nat, id: nat) {
    forall m :: from <= m < |events| ==> events[m] != Unsubscribe(i, id)
  }

  lemma {:induction false} NoCancelShift(events: seq<Event>, i: nat, id: nat)
    requires events != []
    ensures forall m: nat :: NoCancel(events[1..], m, i, id) <==> NoCancel(events, m + 1, i, id)
    ensures NoCancel(events, 0, i, id) <==> events[0] != Unsubscribe(i, id) && NoCancel(events, 1, i, id)
  {
    var rest := events[1..];
    forall m: nat ensures NoCancel(rest, m, i, id) <==> NoCancel(events, m + 1, i, id) {
      if NoCancel(rest, m, i, id) {
        forall n | m + 1 <= n < |events| ensures events[n] != Unsubscribe(i, id) {
          assert events[n] == rest[n - 1];
        }
      }
    }
  }

  /** A handler that is gone is sent nothing more, whatever happens. */
  lemma {:induction false} DroppedListenerGetsNothing(s: BrokerState, events: seq<Event>, i: nat)
    requires i < |s.listeners|
    ensures var t := RunEvents(OnEvent(s, DropListener(i)), events);
      i < |t.listeners| && !t.listeners[i].alive && t.listeners[i].inbox == s.listeners[i].inbox
  {
    GoneStaysGone(OnEvent(s, DropListener(i)), events, i);
  }

  lemma {:induction false} GoneStaysGone(s: BrokerState, events: seq<Event>, i: nat)
    requires i < |s.listeners| && !s.listeners[i].alive
    ensures var t := RunEvents(s, events);
      i < |t.listeners| && !t.listeners[i].alive && t.listeners[i].inbox == s.listeners[i].inbox
    decreases |events|
  {
    if events != [] {
      GoneStaysGone(OnEvent(s, events[0]), events[1..], i);
    }
  }

  // ------------------------------------------------------ what is delivered

  ghost function ScanOf(c: Chain, f: LogFilter): Range -> seq<LocalizedLog> {
    RangeConcat(BlockScan(c, f))
  }

  ghost function RangeConcat<T>(g: nat -> seq<T>): Range -> seq<T> {
    (r: Range) => Concat(g, r.from, r.to + 1)
  }

  lemma {:induction false} SpansTail(ranges: seq<Range>, join: nat, last: nat)
    requires Spans(ranges, join, last) && ranges != []
    ensures Spans(ranges[1..], ranges[0].to, last)
  {
    assert forall x :: x in ranges[1..] ==> x in ranges;
    forall j, k | 0 <= j < k < |ranges[1..]| && k == j + 1 ensures ranges[1..][k].from == ranges[1..][j].to + 1 {
      assert ranges[k + 1].from == ranges[j + 1].to + 1;
    }
    assert |ranges| > 1 ==> ranges[1].from == ranges[0].to + 1;
  }

  lemma {:induction false} RangeStep<T>(g: nat -> seq<T>, ranges: seq<Range>, last: nat)
    requires ranges != [] && ranges[0].from <= ranges[0].to <= last
    requires FlatMap(RangeConcat(g), ranges[1..]) == Concat(g, ranges[0].to + 1, last + 1)
    ensures FlatMap(RangeConcat(g), ranges) == Concat(g, ranges[0].from, last + 1)
  {
    var r := ranges[0];
    ConcatSplit(g, r.from, r.to + 1, last + 1);
    assert RangeConcat(g)(r) == Concat(g, r.from, r.to + 1);
  }

  lemma {:induction false} TiledConcat<T>(g: nat -> seq<T>, ranges: seq<Range>, join: nat, last: nat)
    requires Spans(ranges, join, last)
    ensures join <= last
    ensures FlatMap(RangeConcat(g), ranges) == Concat(g, join + 1, last + 1)
    decreases |ranges|
  {
    if ranges != [] {
      assert ranges[0] in ranges;
      SpansTail(ranges, join, last);
      TiledConcat(g, ranges[1..], ranges[0].to, last);
      RangeStep(g, ranges, last);
    }
  }

  /** What one log query of a subscription sees: the blocks known when its first end
      is resolved, the chain when its last end is, and the index it asks. */
  datatype Query = Query(from: seq<Block>, chain: Chain, index: Index)

  /** A query at or after the notification of `r`, on a chain that grows to `c`. */
  ghost predicate SeesRange(c: Chain, r: Range, q: Query) {
    && r.from < |q.from| && r.to < |q.chain.blocks|
    && Extends(q.chain, c)
    && LawfulIndex(q.chain, q.index)
  }

  ghost predicate SeeRanges(c: Chain, ranges: seq<Range>, queries: seq<Query>) {
    |ranges| == |queries| && forall k :: 0 <= k < |ranges| ==> SeesRange(c, ranges[k], queries[k])
  }

  /** The filter of a subscription, limited to a range. */
  function InRange(f: LogFilter, r: Range): LogFilter {
    f.(fromBlock := Number(r.from), toBlock := Number(r.to))
  }

  /** What the query of a range sends to the subscriber; nothing if it fails. */
  function Sent(f: LogFilter, r: Range, q: Query): seq<LocalizedLog> {
    match LogsAt(q.from, q.chain, InRange(f, r), q.index)
    case Ok(logs) => logs
    case Err(_) => []
  }

  function Delivered(f: LogFilter, ranges: seq<Range>, queries: seq<Query>): seq<LocalizedLog>
    requires |ranges| == |queries|
    decreases |ranges|
  {
    if ranges == [] then [] else Sent(f, ranges[0], queries[0]) + Delivered(f, ranges[1..], queries[1..])
  }

  lemma {:induction false} ValidPrefix(c: Chain, d: Chain)
    requires Valid(c) && Extends(d, c)
    ensures Valid(d)
  {
    forall r | 0 <= r < |d.blocks| ensures BlockOk(d, r) {
      assert BlockOk(c, r);
      assert Execution(c, c.blocks[r]) == Execution(d, d.blocks[r]);
      assert r > 0 ==> Execution(c, c.blocks[r - 1]) == Execution(d, d.blocks[r - 1]);
    }
  }

  lemma {:induction false} SameConditions(f: LogFilter, g: LogFilter)
    requires SameMatcher(f, g)
    ensures IndexedListsNonEmpty(f) <==> IndexedListsNonEmpty(g)
  {
    forall x ensures ConditionOf(f, x) <==> ConditionOf(g, x) {
    }
  }

  /** A query on an early chain gives the logs the grown chain has in that range. */
  lemma {:induction false} EarlyQueryIsScan(
      c: Chain, d: Chain, index: Index, f: LogFilter, g: LogFilter, lo: nat, hi: nat)
    requires Valid(c) && Extends(d, c) && LawfulIndex(d, index) && hi < |d.blocks|
    requires SameMatcher(f, g) && LimitOf(f) == LimitOf(g)
    ensures forall l :: l in QueryLogs(d.codec, g, index, lo, hi) ==> l in Scan(c, f, lo, hi)
    ensures Unlimited(f) && IndexedListsNonEmpty(f) ==>
      QueryLogs(d.codec, g, index, lo, hi) == Scan(c, f, lo, hi)
  {
    ValidPrefix(c, d);
    ScanIsStable(d, c, f, lo, hi);
    ScanIgnoresEnds(d, f, g, lo, hi);
    QueryIsSound(d, g, index, lo, hi);
    SameConditions(f, g);
    if Unlimited(f) && IndexedListsNonEmpty(f) {
      QueryIsExact(d, g, index, lo, hi);
    }
  }

  lemma {:induction false} SentIsQuery(f: LogFilter, r: Range, q: Query)
    requires r.from < |q.from| && r.to < |q.chain.blocks|
    ensures Sent(f, r, q) == QueryLogs(q.chain.codec, InRange(f, r), q.index, r.from, r.to)
  {
  }

  lemma {:induction false} SentIsScan(c: Chain, f: LogFilter, r: Range, q: Query)
    requires Valid(c) && Unlimited(f) && IndexedListsNonEmpty(f) && SeesRange(c, r, q)
    ensures Sent(f, r, q) == Scan(c, f, r.from, r.to)
  {
    SentIsQuery(f, r, q);
    EarlyQueryIsScan(c, q.chain, q.index, f, InRange(f, r), r.from, r.to);
  }

  /** What a query sends, whatever the filter: nothing that is not a matching log of its
      range, and with a limit nothing from more transactions than that. */
  lemma {:induction false} SentIsSound(c: Chain, f: LogFilter, r: Range, q: Query)
    requires Valid(c) && SeesRange(c, r, q)
    ensures forall l :: l in Sent(f, r, q) ==> l in Scan(c, f, r.from, r.to)
    ensures f.limit.Some? && f.limit.value > 0 ==> |Origins(Sent(f, r, q))| <= f.limit.value
  {
    SentIsQuery(f, r, q);
    EarlyQueryIsScan(c, q.chain, q.index, f, InRange(f, r), r.from, r.to);
    if f.limit.Some? && f.limit.value > 0 {
      LimitBoundsTransactions(q.chain, InRange(f, r), q.index, r.from, r.to);
    }
  }

  lemma {:induction false} DeliveredIsScans(c: Chain, f: LogFilter, ranges: seq<Range>, queries: seq<Query>)
    requires Valid(c) && Unlimited(f) && IndexedListsNonEmpty(f)
    requires SeeRanges(c, ranges, queries)
    ensures Delivered(f, ranges, queries) == FlatMap(ScanOf(c, f), ranges)
    decreases |ranges|
  {
    if ranges != [] {
      SentIsScan(c, f, ranges[0], queries[0]);
      assert ScanOf(c, f)(ranges[0]) == Scan(c, f, ranges[0].from, ranges[0].to);
      forall k | 0 <= k < |ranges[1..]| ensures SeesRange(c, ranges[1..][k], queries[1..][k]) {
        assert SeesRange(c, ranges[k + 1], queries[k + 1]);
      }
      DeliveredIsScans(c, f, ranges[1..], queries[1..]);
    }
  }

  /** End to end: executing batches, tagging, indexing, querying and broker ticks
      together send a log subscriber exactly the matching logs of all blocks after
      it subscribed, each once and in chain order. */
  lemma {:induction false} SubscriberReceivesTheScan(
      c: Chain, s: BrokerState, events: seq<Event>, i: nat, id: nat, f: LogFilter, queries: seq<Query>)
    requires Valid(c) && Unlimited(f) && IndexedListsNonEmpty(f)
    requires Alive(s, i) && KeepsSubscriber(events, i, id)
    requires var t := RunEvents(OnEvent(s, Subscribe(i, id, f)), events);
      && Subscribed(t, i, id)
      && t.lastNotified < |c.blocks|
      && SeeRanges(c, t.listeners[i].subscribers[id].ranges, queries)
    ensures var t := RunEvents(OnEvent(s, Subscribe(i, id, f)), events);
      var ranges := t.listeners[i].subscribers[id].ranges;
      Delivered(f, ranges, queries) == Scan(c, f, s.lastNotified + 1, t.lastNotified)
  {
    var s' := OnEvent(s, Subscribe(i, id, f));
    var t := RunEvents(s', events);
    NewSubscriberTiles(s, i, id, f);
    SubscriberGetsEachBlockOnce(s', events, i, id, s.lastNotified);
    TiledDelivery(c, f, t.listeners[i].subscribers[id].ranges, queries, s.lastNotified, t.lastNotified);
  }

  lemma {:induction false} NewSubscriberTiles(s: BrokerState, i: nat, id: nat, f: LogFilter)
    requires Alive(s, i)
    ensures var t := OnEvent(s, Subscribe(i, id, f));
      && Subscribed(t, i, id)
      && t.lastNotified == s.lastNotified
      && Tiles(t.listeners[i].subscribers[id].ranges, s.lastNotified, t.lastNotified)
  {
  }

  lemma {:induction false} TiledDelivery(
      c: Chain, f: LogFilter, ranges: seq<Range>, queries: seq<Query>, join: nat, last: nat)
    requires Valid(c) && Unlimited(f) && IndexedListsNonEmpty(f) && last < |c.blocks|
    requires Tiles(ranges, join, last) && SeeRanges(c, ranges, queries)
    ensures Delivered(f, ranges, queries) == Scan(c, f, join + 1, last)
  {
    DeliveredIsScans(c, f, ranges, queries);
    TiledConcat(BlockScan(c, f), ranges, join, last);
  }
}
