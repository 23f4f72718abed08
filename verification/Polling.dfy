/**
 Filter polling: the cursors of installed filters, what each poll answers, and
 clients that install, poll and uninstall many filters in any order.

 What a poll sees of the growing chain is a parameter: the latest block it reads
 first, the blocks known when its query resolves the first end, and the chain and
 the index when it resolves the last one.
 */
module Polling {
  import opened Basics
  import opened LogIndex
  import opened IndexLaws
  import opened PubSub

  datatype Poll = BlockPoll(cursor: nat) | PendingPoll | LogPoll(cursor: nat, filter: LogFilter)

  datatype Seen = Seen(latest: nat, from: seq<Block>, chain: Chain, index: Index)

  datatype Changes =
    | FilterNotFound
    | BlockHashes(blocks: seq<nat>)
    | LogEntries(logs: seq<LocalizedLog>)
    | NoSuchBlock

  /** The library's cut of a list of logs to a limit: no more than the limit, and all of
      them if there are no more or there is no limit. */
  type Cap = (seq<LocalizedLog>, Option<nat>) -> seq<LocalizedLog>

  ghost predicate LawfulCap(cap: Cap) {
    && (forall logs :: cap(logs, None) == logs)
    && (forall logs, n :: |cap(logs, Some(n))| <= n)
    && (forall logs, n :: |logs| <= n ==> cap(logs, Some(n)) == logs)
    && forall logs, limit, l :: l in cap(logs, limit) ==> l in logs
  }

  /** The filter of a poll: from its cursor to the latest block. */
  function Since(f: LogFilter, cursor: nat): LogFilter {
    f.(fromBlock := Number(cursor), toBlock := Latest)
  }

  function LogChanges(cap: Cap, cursor: nat, f: LogFilter, s: Seen): Changes {
    match LogsAt(s.from, s.chain, Since(f, cursor), s.index)
    case Err(_) => NoSuchBlock
    case Ok(logs) => LogEntries(cap(logs, f.limit))
  }

  /** The answer to a poll of an installed filter. */
  function ChangesOf(cap: Cap, p: Poll, s: Seen): Changes {
    match p
    case BlockPoll(cursor) => BlockHashes(Interval(cursor, s.latest))
    case PendingPoll => BlockHashes([])
    case LogPoll(cursor, f) => LogChanges(cap, cursor, f, s)
  }

  /** How an installed filter answers what a poll sees. */
  type Responder = (Poll, Seen) -> Changes

  function Respond(cap: Cap): Responder {
    (p: Poll, s: Seen) => ChangesOf(cap, p, s)
  }

  /** The filter after a poll that read `latest`. */
  function Moved(p: Poll, latest: nat): Poll {
    match p
    case BlockPoll(_) => BlockPoll(latest)
    case PendingPoll => PendingPoll
    case LogPoll(_, f) => LogPoll(latest + 1, f)
  }

  // -------------------------------------------------------------- the client

  datatype Client = Client(polls: map<nat, Poll>, nextId: nat)

  datatype Request =
    | InstallLogs(latest: nat, filter: LogFilter)
    | InstallBlocks(latest: nat)
    | InstallPending
    | Ask(id: nat, seen: Seen)
    | Uninstall(id: nat)

  function Install(s: Client, p: Poll): Client {
    Client(s.polls[s.nextId := p], s.nextId + 1)
  }

  function Serve(s: Client, q: Request): Client {
    match q
    case InstallLogs(latest, f) => Install(s, LogPoll(latest, f))
    case InstallBlocks(latest) => Install(s, BlockPoll(latest + 1))
    case InstallPending => Install(s, PendingPoll)
    case Ask(id, seen) => if id in s.polls then s.(polls := s.polls[id := Moved(s.polls[id], seen.latest)]) else s
    case Uninstall(id) => s.(polls := s.polls - {id})
  }

  function Changed(g: Responder, s: Client, id: nat, seen: Seen): Changes {
    if id in s.polls then g(s.polls[id], seen) else FilterNotFound
  }

  class FilterClient {
    const cap: Cap
    var polls: map<nat, Poll>
    var nextId: nat

    ghost function View(): Client
      reads this
    {
      Client(polls, nextId)
    }

    constructor (cap: Cap)
      ensures this.cap == cap && View() == Client(map[], 0)
    {
      this.cap := cap;
      polls := map[];
      nextId := 0;
    }

    method CreatePoll(p: Poll) returns (id: nat)
      modifies this
      ensures id == old(nextId) && View() == Install(old(View()), p)
    {
      id := nextId;
      polls := polls[id := p];
      nextId := nextId + 1;
    }

    method NewFilter(latest: nat, filter: LogFilter) returns (id: nat)
      modifies this
      ensures id == old(nextId) && View() == Serve(old(View()), InstallLogs(latest, filter))
    {
      id := CreatePoll(LogPoll(latest, filter));
    }

    method NewBlockFilter(latest: nat) returns (id: nat)
      modifies this
      ensures id == old(nextId) && View() == Serve(old(View()), InstallBlocks(latest))
    {
      id := CreatePoll(BlockPoll(latest + 1));
    }

    method NewPendingTransactionFilter() returns (id: nat)
      modifies this
      ensures id == old(nextId) && View() == Serve(old(View()), InstallPending)
    {
      id := CreatePoll(PendingPoll);
    }

    method FilterChanges(id: nat, seen: Seen) returns (changes: Changes)
      modifies this`polls
      ensures changes == Changed(Respond(cap), old(View()), id, seen)
      ensures View() == Serve(old(View()), Ask(id, seen))
    {
      if id !in polls {
        return FilterNotFound;
      }
      match polls[id]
      case BlockPoll(cursor) =>
        var blocks := ListBlocks(cursor, seen.latest);
        changes := BlockHashes(blocks);
        polls := polls[id := BlockPoll(seen.latest)];
      case PendingPoll =>
        changes := BlockHashes([]);
        assert polls[id := PendingPoll] == polls;
      case LogPoll(cursor, f) =>
        polls := polls[id := LogPoll(seen.latest + 1, f)];
        var logs := Logs(seen.from, seen.chain, Since(f, cursor), seen.index);
        match logs {
          case Err(_) => changes := NoSuchBlock;
          case Ok(entries) => changes := LogEntries(cap(entries, f.limit));
        }
    }

    method UninstallFilter(id: nat) returns (found: bool)
      modifies this`polls
      ensures found <==> id in old(polls)
      ensures View() == Serve(old(View()), Uninstall(id))
    {
      found := id in polls;
      polls := polls - {id};
    }
  }

  /** The blocks fetched one by one for a block filter. */
  method ListBlocks(from: nat, to: nat) returns (blocks: seq<nat>)
    ensures blocks == Interval(from, to)
  {
    blocks := [];
    var round := from;
    while round <= to
      invariant from <= round && (round <= to + 1 || round == from)
      invariant |blocks| == round - from
      invariant forall i :: 0 <= i < |blocks| ==> blocks[i] == from + i
    {
      blocks := blocks + [round];
      round := round + 1;
    }
  }

  // ------------------------------------------------- one filter among others

  function ServeAll(s: Client, qs: seq<Request>): Client
    decreases |qs|
  {
    if qs == [] then s else ServeAll(Serve(s, qs[0]), qs[1..])
  }

  /** What the polls of one filter are answered along a run of requests. */
  function AnswersTo(g: Responder, s: Client, qs: seq<Request>, id: nat): seq<Changes>
    decreases |qs|
  {
    if qs == [] then []
    else
      (if qs[0].Ask? && qs[0].id == id then [Changed(g, s, id, qs[0].seen)] else [])
      + AnswersTo(g, Serve(s, qs[0]), qs[1..], id)
  }

  /** What those polls see. */
  function Asked(qs: seq<Request>, id: nat): seq<Seen>
    decreases |qs|
  {
    if qs == [] then []
    else (if qs[0].Ask? && qs[0].id == id then [qs[0].seen] else []) + Asked(qs[1..], id)
  }

  /** The answers of one filter polled on its own. */
  function PollRun(g: Responder, p: Poll, ss: seq<Seen>): (r: seq<Changes>)
    ensures |r| == |ss|
    decreases |ss|
  {
    if ss == [] then [] else [g(p, ss[0])] + PollRun(g, Moved(p, ss[0].latest), ss[1..])
  }

  lemma {:induction false} PollRunCons(g: Responder, p: Poll, s: Seen, rest: seq<Seen>)
    ensures PollRun(g, p, [s] + rest) == [g(p, s)] + PollRun(g, Moved(p, s.latest), rest)
  {
    assert ([s] + rest)[1..] == rest;
  }

  lemma {:induction false} PollRunAt(g: Responder, p: Poll, ss: seq<Seen>, i: nat)
    requires i < |ss|
    ensures PollRun(g, p, ss)[i] == g(if i == 0 then p else Moved(p, ss[i - 1].latest), ss[i])
    decreases i
  {
    if i > 0 {
      PollRunAt(g, Moved(p, ss[0].latest), ss[1..], i - 1);
    }
  }

  ghost predicate NeverUninstalled(qs: seq<Request>, id: nat) {
    forall i :: 0 <= i < |qs| ==> qs[i] != Uninstall(id)
  }

  lemma {:induction false} ServeKeepsPoll(s: Client, q: Request, id: nat)
    requires id in s.polls && id < s.nextId && q != Uninstall(id)
    ensures var t := Serve(s, q);
      && id in t.polls && id < t.nextId
      && t.polls[id] == if q.Ask? && q.id == id then Moved(s.polls[id], q.seen.latest) else s.polls[id]
  {
  }

  lemma {:induction false} PollsAreIndependent(g: Responder, s: Client, qs: seq<Request>, id: nat)
    requires id in s.polls && id < s.nextId && NeverUninstalled(qs, id)
    ensures AnswersTo(g, s, qs, id) == PollRun(g, s.polls[id], Asked(qs, id))
    decreases |qs|
  {
    if qs != [] {
      ServeKeepsPoll(s, qs[0], id);
      forall i | 0 <= i < |qs[1..]| ensures qs[1..][i] != Uninstall(id) {
        assert qs[i + 1] != Uninstall(id);
      }
      PollsAreIndependent(g, Serve(s, qs[0]), qs[1..], id);
      if qs[0].Ask? && qs[0].id == id {
        PollRunCons(g, s.polls[id], qs[0].seen, Asked(qs[1..], id));
      } else {
        assert Asked(qs, id) == Asked(qs[1..], id);
      }
    }
  }

  lemma {:induction false} AbsentIsNeverFound(g: Responder, s: Client, qs: seq<Request>, id: nat, i: nat)
    requires id !in s.polls && id < s.nextId && i < |AnswersTo(g, s, qs, id)|
    ensures AnswersTo(g, s, qs, id)[i] == FilterNotFound
    decreases |qs|
  {
    var own := if qs[0].Ask? && qs[0].id == id then 1 else 0;
    if i >= own {
      AbsentIsNeverFound(g, Serve(s, qs[0]), qs[1..], id, i - own);
    }
  }

  /** Uninstalling removes a filter for good: identifiers are not used twice, so no later
      poll finds it, whatever is installed afterwards. */
  lemma {:induction false} UninstalledIsNeverFound(
      g: Responder, before: seq<Request>, id: nat, after: seq<Request>, i: nat)
    requires id < ServeAll(Client(map[], 0), before).nextId
    requires var s := Serve(ServeAll(Client(map[], 0), before), Uninstall(id)); i < |AnswersTo(g, s, after, id)|
    ensures var s := Serve(ServeAll(Client(map[], 0), before), Uninstall(id));
      AnswersTo(g, s, after, id)[i] == FilterNotFound
  {
    AbsentIsNeverFound(g, Serve(ServeAll(Client(map[], 0), before), Uninstall(id)), after, id, i);
  }

  function InitialPoll(install: Request): Poll
    requires install.InstallLogs? || install.InstallBlocks? || install.InstallPending?
  {
    match install
    case InstallLogs(latest, f) => LogPoll(latest, f)
    case InstallBlocks(latest) => BlockPoll(latest + 1)
    case InstallPending => PendingPoll
  }

  /** A filter installed after any requests and not uninstalled answers its polls as
      if it were alone, whatever other filters are installed, polled or removed. */
  lemma {:induction false} FilterIsUndisturbed(
      g: Responder, before: seq<Request>, install: Request, after: seq<Request>)
    requires install.InstallLogs? || install.InstallBlocks? || install.InstallPending?
    requires NeverUninstalled(after, ServeAll(Client(map[], 0), before).nextId)
    ensures var s := ServeAll(Client(map[], 0), before);
      AnswersTo(g, Serve(s, install), after, s.nextId) == PollRun(g, InitialPoll(install), Asked(after, s.nextId))
  {
    var s := ServeAll(Client(map[], 0), before);
    PollsAreIndependent(g, Serve(s, install), after, s.nextId);
  }

  // ------------------------------------------------------------- log filters

  /** The heights one poll of a log filter reads: the latest block first, then those
      at which the two ends of its query are resolved. */
  datatype Heights = Heights(latest: nat, atFrom: nat, atTo: nat)

  ghost predicate ValidHeights(h: Heights) {
    h.latest <= h.atFrom && h.latest <= h.atTo
  }

  /** Heights only grow: during a poll and from one poll to the next. */
  ghost predicate Growing(created: nat, hs: seq<Heights>) {
    && (forall i :: 0 <= i < |hs| ==> ValidHeights(hs[i]) && created <= hs[i].latest)
    && forall i, j :: 0 <= i < j < |hs| ==> hs[i].atFrom <= hs[j].latest && hs[i].atTo <= hs[j].latest
  }

  /** The range a poll queries; none if its first block does not exist yet. */
  function PolledRange(cursor: nat, h: Heights): Option<Range> {
    if cursor <= h.atFrom then Some(Range(cursor, h.atTo)) else None
  }

  function LogCursor(created: nat, hs: seq<Heights>, i: nat): nat
    requires i < |hs|
  {
    if i == 0 then created else hs[i - 1].latest + 1
  }

  /** The range of the i-th poll of a log filter. */
  function RangeAt(created: nat, hs: seq<Heights>, i: nat): Option<Range>
    requires i < |hs|
  {
    PolledRange(LogCursor(created, hs, i), hs[i])
  }

  ghost predicate Covers(r: Option<Range>, b: nat) {
    r.Some? && r.value.from <= b <= r.value.to
  }

  /** Every block from the one current at creation up to the latest of any poll is
      in the range of that poll or an earlier one. */
  lemma {:induction false} LogPollingLeavesNoGap(created: nat, hs: seq<Heights>, j: nat, b: nat)
    requires Growing(created, hs) && j < |hs| && created <= b <= hs[j].latest
    ensures exists i :: 0 <= i <= j && Covers(RangeAt(created, hs, i), b)
  {
    if j > 0 && b <= hs[j - 1].latest {
      LogPollingLeavesNoGap(created, hs, j - 1, b);
    } else {
      assert ValidHeights(hs[j]);
      assert Covers(RangeAt(created, hs, j), b);
    }
  }

  /** A block a poll has returned is returned again by a later poll iff it appeared
      after that poll read the latest block. */
  lemma {:induction false} LogPollOverlapIff(created: nat, hs: seq<Heights>, i: nat, b: nat)
    requires Growing(created, hs) && i + 1 < |hs|
    requires Covers(RangeAt(created, hs, i), b)
    ensures (exists j :: i < j < |hs| && Covers(RangeAt(created, hs, j), b)) <==> hs[i].latest < b
  {
    assert ValidHeights(hs[i]) && forall k :: i < k < |hs| ==> hs[i].atTo <= hs[k].latest;
    if j :| i < j < |hs| && Covers(RangeAt(created, hs, j), b) {
      assert j == i + 1;
    }
    if hs[i].latest < b {
      assert hs[i].atTo <= hs[i + 1].latest && ValidHeights(hs[i + 1]);
      assert Covers(RangeAt(created, hs, i + 1), b);
    }
  }

  /** A poll that finds no new block has no range, and that is the only way it can
      have none. */
  lemma {:induction false} LogPollFailsIffNothingNew(created: nat, hs: seq<Heights>, i: nat)
    requires Growing(created, hs) && i < |hs|
    ensures RangeAt(created, hs, i) == None <==> i > 0 && hs[i].atFrom == hs[i - 1].latest
  {
    assert ValidHeights(hs[i]);
    if i > 0 {
      assert ValidHeights(hs[i - 1]) && hs[i - 1].atFrom <= hs[i].latest;
    }
  }

  // ------------------------------------------------ the logs that are returned

  /** What a poll sees is a part of a chain that grows to `c`. */
  ghost predicate SeenOf(c: Chain, s: Seen) {
    && s.from != [] && s.chain.blocks != []
    && Extends(s.chain, c)
    && LawfulIndex(s.chain, s.index)
  }

  function HeightsOf(s: Seen): Heights
    requires s.from != [] && s.chain.blocks != []
  {
    Heights(s.latest, |s.from| - 1, |s.chain.blocks| - 1)
  }

  /** The cursor of the i-th poll of a log filter. */
  function CursorAt(created: nat, ss: seq<Seen>, i: nat): nat
    requires i < |ss|
  {
    if i == 0 then created else ss[i - 1].latest + 1
  }

  ghost predicate AllSeenOf(c: Chain, ss: seq<Seen>) {
    forall i :: 0 <= i < |ss| ==> SeenOf(c, ss[i])
  }

  ghost function AllHeights(c: Chain, ss: seq<Seen>): (hs: seq<Heights>)
    requires AllSeenOf(c, ss)
    ensures |hs| == |ss| && forall i :: 0 <= i < |ss| ==> hs[i] == HeightsOf(ss[i])
  {
    seq(|ss|, i requires 0 <= i < |ss| => HeightsOf(ss[i]))
  }

  lemma {:induction false} PollQuery(cap: Cap, cursor: nat, f: LogFilter, s: Seen)
    requires s.from != [] && s.chain.blocks != []
    ensures LogChanges(cap, cursor, f, s) ==
      match PolledRange(cursor, HeightsOf(s))
      case None => NoSuchBlock
      case Some(r) => LogEntries(cap(QueryLogs(s.chain.codec, Since(f, cursor), s.index, r.from, r.to), f.limit))
  {
  }

  /** One poll: it fails iff it has no range, it returns only matching logs of its range and
      no more than the limit, and all of them when the filter has no limit and no empty
      list. */
  lemma {:induction false} PollReturnsItsRange(c: Chain, cap: Cap, cursor: nat, f: LogFilter, s: Seen)
    requires Valid(c) && LawfulCap(cap) && SeenOf(c, s)
    ensures match PolledRange(cursor, HeightsOf(s))
      case None => LogChanges(cap, cursor, f, s) == NoSuchBlock
      case Some(r) =>
        && LogChanges(cap, cursor, f, s).LogEntries?
        && (forall l :: l in LogChanges(cap, cursor, f, s).logs ==> l in Scan(c, f, r.from, r.to))
        && (f.limit.Some? ==> |LogChanges(cap, cursor, f, s).logs| <= f.limit.value)
        && (f.limit == None && IndexedListsNonEmpty(f) ==>
              LogChanges(cap, cursor, f, s).logs == Scan(c, f, r.from, r.to))
  {
    PollQuery(cap, cursor, f, s);
    var r := PolledRange(cursor, HeightsOf(s));
    if r.Some? {
      EarlyQueryIsScan(c, s.chain, s.index, f, Since(f, cursor), r.value.from, r.value.to);
    }
  }

  function Entries(x: Changes): seq<LocalizedLog> {
    if x.LogEntries? then x.logs else []
  }

  lemma {:induction false} CoveredLogIsReturned(
      c: Chain, cap: Cap, cursor: nat, f: LogFilter, s: Seen, b: nat, l: LocalizedLog)
    requires Valid(c) && LawfulCap(cap) && f.limit == None && IndexedListsNonEmpty(f) && SeenOf(c, s)
    requires Covers(PolledRange(cursor, HeightsOf(s)), b) && l in BlockScan(c, f)(b)
    ensures l in Entries(LogChanges(cap, cursor, f, s))
  {
    var r := PolledRange(cursor, HeightsOf(s)).value;
    PollReturnsItsRange(c, cap, cursor, f, s);
    ScannedInBlock(c, f, r.from, r.to, b, l);
  }

  lemma {:induction false} LogAnswerAt(cap: Cap, created: nat, f: LogFilter, ss: seq<Seen>, i: nat)
    requires i < |ss|
    ensures PollRun(Respond(cap), LogPoll(created, f), ss)[i] == LogChanges(cap, CursorAt(created, ss, i), f, ss[i])
  {
    PollRunAt(Respond(cap), LogPoll(created, f), ss, i);
  }

  lemma {:induction false} CoveringPoll(c: Chain, created: nat, ss: seq<Seen>, j: nat, b: nat) returns (i: nat)
    requires AllSeenOf(c, ss) && Growing(created, AllHeights(c, ss)) && j < |ss| && created <= b <= ss[j].latest
    ensures i <= j && SeenOf(c, ss[i]) && Covers(PolledRange(CursorAt(created, ss, i), HeightsOf(ss[i])), b)
  {
    var hs := AllHeights(c, ss);
    LogPollingLeavesNoGap(created, hs, j, b);
    i :| 0 <= i <= j && Covers(RangeAt(created, hs, i), b);
  }

  /** No log is missed: without a limit or an empty list, every matching log from the
      block current at creation to the latest block of a poll is returned by that poll
      or an earlier one, even when blocks appear while a poll is under way. */
  lemma {:induction false} NoLogIsMissed(
      c: Chain, cap: Cap, created: nat, f: LogFilter, ss: seq<Seen>, j: nat, l: LocalizedLog)
    requires Valid(c) && LawfulCap(cap) && f.limit == None && IndexedListsNonEmpty(f)
    requires AllSeenOf(c, ss) && Growing(created, AllHeights(c, ss)) && j < |ss|
    requires l in Scan(c, f, created, ss[j].latest)
    ensures exists i :: 0 <= i <= j && l in Entries(PollRun(Respond(cap), LogPoll(created, f), ss)[i])
  {
    var b := BlockOfScanned(c, f, created, ss[j].latest, l);
    var i := CoveringPoll(c, created, ss, j, b);
    LogAnswerAt(cap, created, f, ss, i);
    CoveredLogIsReturned(c, cap, CursorAt(created, ss, i), f, ss[i], b, l);
  }

  lemma {:induction false} BlockOfScanned(c: Chain, f: LogFilter, lo: nat, hi: nat, l: LocalizedLog) returns (b: nat)
    requires l in Scan(c, f, lo, hi)
    ensures lo <= b <= hi && l in BlockScan(c, f)(b)
  {
    ConcatMember(BlockScan(c, f), lo, hi + 1, l);
    b :| lo <= b < hi + 1 && l in BlockScan(c, f)(b);
  }

  lemma {:induction false} ScannedInBlock(c: Chain, f: LogFilter, lo: nat, hi: nat, b: nat, l: LocalizedLog)
    requires lo <= b <= hi && l in BlockScan(c, f)(b)
    ensures l in Scan(c, f, lo, hi)
  {
    ConcatMember(BlockScan(c, f), lo, hi + 1, l);
  }

  /** All logs the answers hold, in the order they were returned. */
  function Returned(answers: seq<Changes>): seq<LocalizedLog> {
    FlatMap(Entries, answers)
  }

  ghost predicate Rising(ss: seq<Seen>) {
    forall i, j :: 0 <= i < j < |ss| ==> ss[i].latest <= ss[j].latest
  }

  /** A poll returns the pieces of `h` from its cursor to the latest block. */
  ghost predicate ListsFrom(g: Responder, h: nat -> seq<LocalizedLog>, f: LogFilter, cursor: nat, s: Seen) {
    Entries(g(LogPoll(cursor, f), s)) == Concat(h, cursor, s.latest + 1)
  }

  /** So do all polls with a view that is `ok`. */
  ghost predicate Lists(g: Responder, ok: Seen -> bool, h: nat -> seq<LocalizedLog>, f: LogFilter) {
    forall cursor: nat, s :: ok(s) && cursor <= s.latest + 1 ==> ListsFrom(g, h, f, cursor, s)
  }

  /** The cursors a log filter is polled with. */
  function Cursors(created: nat, ss: seq<Seen>): (r: seq<nat>)
    ensures |r| == |ss| && (ss != [] ==> r[0] == created)
    ensures forall j, k :: 0 <= j < k < |r| && k == j + 1 ==> r[k] == ss[j].latest + 1
  {
    if ss == [] then [] else [created] + seq(|ss| - 1, i requires 0 <= i < |ss| - 1 => ss[i].latest + 1)
  }

  lemma {:induction false} CursorsAdjoin(created: nat, ss: seq<Seen>)
    requires Rising(ss) && (ss != [] ==> created <= ss[0].latest + 1)
    ensures Adjoining(Cursors(created, ss), Latests(ss))
  {
    var r := Cursors(created, ss);
    forall i | 0 <= i < |ss| ensures r[i] <= ss[i].latest + 1 {
      if i > 0 {
        var j := i - 1;
        assert r[i] == ss[j].latest + 1;
      }
    }
  }

  lemma {:induction false} LogRunAt(g: Responder, cursor: nat, f: LogFilter, ss: seq<Seen>, i: nat)
    requires i < |ss|
    ensures PollRun(g, LogPoll(cursor, f), ss)[i] == g(LogPoll(Cursors(cursor, ss)[i], f), ss[i])
  {
    PollRunAt(g, LogPoll(cursor, f), ss, i);
    if i > 0 {
      var j := i - 1;
      assert Cursors(cursor, ss)[i] == ss[j].latest + 1;
    }
  }

  /** The answers of polls of a log filter, each with its own cursor. */
  ghost predicate RunOf(g: Responder, f: LogFilter, starts: seq<nat>, ss: seq<Seen>, answers: seq<Changes>) {
    && |answers| == |ss| == |starts|
    && forall i :: 0 <= i < |answers| ==> answers[i] == g(LogPoll(starts[i], f), ss[i])
  }

  lemma {:induction false} PollRunIsRunOf(g: Responder, cursor: nat, f: LogFilter, ss: seq<Seen>)
    ensures RunOf(g, f, Cursors(cursor, ss), ss, PollRun(g, LogPoll(cursor, f), ss))
  {
    forall i | 0 <= i < |ss|
      ensures PollRun(g, LogPoll(cursor, f), ss)[i] == g(LogPoll(Cursors(cursor, ss)[i], f), ss[i])
    {
      LogRunAt(g, cursor, f, ss, i);
    }
  }

  lemma {:induction false} AnswersJoin(
      g: Responder, ok: Seen -> bool, h: nat -> seq<LocalizedLog>, f: LogFilter,
      starts: seq<nat>, ss: seq<Seen>, answers: seq<Changes>)
    requires Lists(g, ok, h, f) && forall i :: 0 <= i < |ss| ==> ok(ss[i])
    requires RunOf(g, f, starts, ss, answers) && Adjoining(starts, Latests(ss)) && ss != []
    ensures Returned(answers) == Concat(h, starts[0], ss[|ss| - 1].latest + 1)
  {
    var ends := Latests(ss);
    forall i | 0 <= i < |answers| ensures Entries(answers[i]) == Concat(h, starts[i], ends[i] + 1) {
      assert ok(ss[i]) && ListsFrom(g, h, f, starts[i], ss[i]);
    }
    PiecesJoin(Entries, answers, h, starts, ends, |answers|);
    assert answers[..|answers|] == answers;
  }

  /** Polls of such a filter make up the whole of `h`. */
  lemma {:induction false} PollsJoinUp(
      g: Responder, ok: Seen -> bool, h: nat -> seq<LocalizedLog>, f: LogFilter, cursor: nat, ss: seq<Seen>)
    requires Lists(g, ok, h, f) && ss != [] && Rising(ss) && cursor <= ss[0].latest + 1
    requires forall i :: 0 <= i < |ss| ==> ok(ss[i])
    ensures Returned(PollRun(g, LogPoll(cursor, f), ss)) == Concat(h, cursor, ss[|ss| - 1].latest + 1)
  {
    CursorsAdjoin(cursor, ss);
    PollRunIsRunOf(g, cursor, f, ss);
    AnswersJoin(g, ok, h, f, Cursors(cursor, ss), ss, PollRun(g, LogPoll(cursor, f), ss));
  }

  /** No block appears while the poll is under way. */
  ghost predicate Quiet(c: Chain, s: Seen) {
    SeenOf(c, s) && HeightsOf(s) == Heights(s.latest, s.latest, s.latest)
  }

  ghost function IsQuiet(c: Chain): Seen -> bool {
    (s: Seen) => Quiet(c, s)
  }

  ghost predicate QuietRun(c: Chain, ss: seq<Seen>) {
    Rising(ss) && forall i :: 0 <= i < |ss| ==> IsQuiet(c)(ss[i])
  }

  lemma {:induction false} QuietPoll(c: Chain, cap: Cap, cursor: nat, f: LogFilter, s: Seen)
    requires Valid(c) && LawfulCap(cap) && f.limit == None && IndexedListsNonEmpty(f)
    requires Quiet(c, s) && cursor <= s.latest + 1
    ensures Entries(LogChanges(cap, cursor, f, s)) == Scan(c, f, cursor, s.latest)
  {
    PollReturnsItsRange(c, cap, cursor, f, s);
    if cursor == s.latest + 1 {
      assert PolledRange(cursor, HeightsOf(s)) == None;
    } else {
      assert PolledRange(cursor, HeightsOf(s)) == Some(Range(cursor, s.latest));
    }
  }

  lemma {:induction false} RespondIsChanges(cap: Cap, cursor: nat, f: LogFilter, s: Seen)
    ensures Respond(cap)(LogPoll(cursor, f), s) == LogChanges(cap, cursor, f, s)
  {
  }

  lemma {:induction false} ChangesAreListed(
      g: Responder, h: nat -> seq<LocalizedLog>, f: LogFilter, cursor: nat, s: Seen, x: Changes)
    requires g(LogPoll(cursor, f), s) == x && Entries(x) == Concat(h, cursor, s.latest + 1)
    ensures ListsFrom(g, h, f, cursor, s)
  {
  }

  lemma {:induction false} ScanIsListed(c: Chain, cap: Cap, cursor: nat, f: LogFilter, s: Seen)
    requires Entries(LogChanges(cap, cursor, f, s)) == Scan(c, f, cursor, s.latest)
    ensures ListsFrom(Respond(cap), BlockScan(c, f), f, cursor, s)
  {
    RespondIsChanges(cap, cursor, f, s);
    ChangesAreListed(Respond(cap), BlockScan(c, f), f, cursor, s, LogChanges(cap, cursor, f, s));
  }

  lemma {:induction false} QuietPollsListTheScan(c: Chain, cap: Cap, f: LogFilter)
    requires Valid(c) && LawfulCap(cap) && f.limit == None && IndexedListsNonEmpty(f)
    ensures Lists(Respond(cap), IsQuiet(c), BlockScan(c, f), f)
  {
    forall cursor: nat, s | IsQuiet(c)(s) && cursor <= s.latest + 1
      ensures ListsFrom(Respond(cap), BlockScan(c, f), f, cursor, s)
    {
      QuietPoll(c, cap, cursor, f, s);
      ScanIsListed(c, cap, cursor, f, s);
    }
  }

  /** When no block appears during a poll, the polls together return exactly the
      matching logs since creation, each once and in order; the polls that fail lose
      nothing. */
  lemma {:induction false} QuietPollsReturnTheScan(c: Chain, cap: Cap, cursor: nat, f: LogFilter, ss: seq<Seen>)
    requires Valid(c) && LawfulCap(cap) && f.limit == None && IndexedListsNonEmpty(f)
    requires ss != [] && QuietRun(c, ss) && cursor <= ss[0].latest + 1
    ensures Returned(PollRun(Respond(cap), LogPoll(cursor, f), ss)) == Scan(c, f, cursor, ss[|ss| - 1].latest)
  {
    QuietPollsListTheScan(c, cap, f);
    PollsJoinUp(Respond(cap), IsQuiet(c), BlockScan(c, f), f, cursor, ss);
  }

  /** End to end: a log filter of a client that also serves any other filters returns
      the matching logs since its creation, each once and in chain order. */
  lemma {:induction false} InstalledFilterReturnsTheScan(
      c: Chain, cap: Cap, before: seq<Request>, latest: nat, f: LogFilter, after: seq<Request>)
    requires Valid(c) && LawfulCap(cap) && f.limit == None && IndexedListsNonEmpty(f)
    requires var id := ServeAll(Client(map[], 0), before).nextId;
      && NeverUninstalled(after, id)
      && Asked(after, id) != [] && QuietRun(c, Asked(after, id)) && latest <= Asked(after, id)[0].latest
    ensures var s := ServeAll(Client(map[], 0), before); var ss := Asked(after, s.nextId);
      Returned(AnswersTo(Respond(cap), Serve(s, InstallLogs(latest, f)), after, s.nextId)) ==
        Scan(c, f, latest, ss[|ss| - 1].latest)
  {
    FilterIsUndisturbed(Respond(cap), before, InstallLogs(latest, f), after);
    var id := ServeAll(Client(map[], 0), before).nextId;
    QuietPollsReturnTheScan(c, cap, latest, f, Asked(after, id));
  }

  // ----------------------------------------------------------- block filters

  ghost predicate Nondecreasing(created: nat, ls: seq<nat>) {
    && (forall i :: 0 <= i < |ls| ==> created <= ls[i])
    && forall i, j :: 0 <= i < j < |ls| ==> ls[i] <= ls[j]
  }

  /** The blocks successive polls of one block filter return. */
  function BlockRun(cursor: nat, ls: seq<nat>): (r: seq<seq<nat>>)
    ensures |r| == |ls|
    decreases |ls|
  {
    if ls == [] then [] else [Interval(cursor, ls[0])] + BlockRun(ls[0], ls[1..])
  }

  function Latests(ss: seq<Seen>): (ls: seq<nat>)
    ensures |ls| == |ss| && forall i :: 0 <= i < |ss| ==> ls[i] == ss[i].latest
  {
    seq(|ss|, i requires 0 <= i < |ss| => ss[i].latest)
  }

  /** A block filter answers with those blocks, for whatever its polls see. */
  lemma {:induction false} BlockPollsAnswerBlockRun(cap: Cap, cursor: nat, ss: seq<Seen>, i: nat)
    requires i < |ss|
    ensures PollRun(Respond(cap), BlockPoll(cursor), ss)[i] == BlockHashes(BlockRun(cursor, Latests(ss))[i])
  {
    PollRunAt(Respond(cap), BlockPoll(cursor), ss, i);
    BlockRunAt(cursor, Latests(ss), i);
  }

  function BlockCursor(created: nat, ls: seq<nat>, i: nat): nat
    requires i < |ls|
  {
    if i == 0 then created + 1 else ls[i - 1]
  }

  lemma {:induction false} BlockRunAt(cursor: nat, ls: seq<nat>, i: nat)
    requires i < |ls|
    ensures BlockRun(cursor, ls)[i] == Interval(if i == 0 then cursor else ls[i - 1], ls[i])
    decreases i
  {
    if i > 0 {
      BlockRunAt(ls[0], ls[1..], i - 1);
    }
  }

  lemma {:induction false} IntervalMember(from: nat, to: nat, b: nat)
    ensures b in Interval(from, to) <==> from <= b <= to
  {
    if from <= b <= to {
      assert Interval(from, to)[b - from] == b;
    }
  }

  lemma {:induction false} BlockPollMember(created: nat, ls: seq<nat>, i: nat, b: nat)
    requires i < |ls|
    ensures b in BlockRun(created + 1, ls)[i] <==> BlockCursor(created, ls, i) <= b <= ls[i]
  {
    BlockRunAt(created + 1, ls, i);
    IntervalMember(BlockCursor(created, ls, i), ls[i], b);
  }

  /** Block filters leave no gap after the block current at creation. */
  lemma {:induction false} BlockPollingLeavesNoGap(created: nat, ls: seq<nat>, j: nat, b: nat)
    requires Nondecreasing(created, ls) && j < |ls| && created < b <= ls[j]
    ensures var r := BlockRun(created + 1, ls); exists i :: 0 <= i <= j && b in r[i]
  {
    BlockPollMember(created, ls, j, b);
    if j > 0 && b < ls[j - 1] {
      BlockPollingLeavesNoGap(created, ls, j - 1, b);
    }
  }

  /** A block is returned more than once iff it was the latest block at a poll other
      than the last; for the block current at creation, also other than the first. */
  lemma {:induction false} BlockReturnedTwiceIff(created: nat, ls: seq<nat>, b: nat)
    requires Nondecreasing(created, ls)
    ensures var r := BlockRun(created + 1, ls);
      (exists i, j :: 0 <= i < j < |ls| && b in r[i] && b in r[j]) <==>
      (exists i :: 0 <= i < |ls| - 1 && b == ls[i] && (created < b || i > 0))
  {
    var r := BlockRun(created + 1, ls);
    if i, j :| 0 <= i < j < |ls| && b in r[i] && b in r[j] {
      BlockPollMember(created, ls, i, b);
      BlockPollMember(created, ls, j, b);
      assert ls[i] <= ls[j - 1];
      assert 0 <= i < |ls| - 1 && b == ls[i] && (created < b || i > 0);
    }
    if i :| 0 <= i < |ls| - 1 && b == ls[i] && (created < b || i > 0) {
      BlockPollMember(created, ls, i, b);
      BlockPollMember(created, ls, i + 1, b);
      assert b in r[i] && b in r[i + 1];
    }
  }

  /** In particular the block current at creation, which the first cursor excludes, is
      returned twice iff the second poll still finds it the latest and a third follows. */
  lemma {:induction false} CreationBlockReturnedTwiceIff(created: nat, ls: seq<nat>)
    requires Nondecreasing(created, ls)
    ensures var r := BlockRun(created + 1, ls);
      (exists i, j :: 0 <= i < j < |ls| && created in r[i] && created in r[j]) <==> |ls| > 2 && ls[1] == created
  {
    BlockReturnedTwiceIff(created, ls, created);
    if i :| 0 < i < |ls| - 1 && created == ls[i] {
      assert i > 1 ==> ls[1] <= ls[i];
    }
    if |ls| > 2 && ls[1] == created {
      assert 0 <= 1 < |ls| - 1 && created == ls[1];
    }
  }

  /** The block current at creation, which the cursor skips at first, is returned
      after all iff the first poll finds it still the latest and is not the last. */
  lemma {:induction false} CreationBlockReturnedIff(created: nat, ls: seq<nat>)
    requires Nondecreasing(created, ls)
    ensures var r := BlockRun(created + 1, ls);
      (exists i :: 0 <= i < |ls| && created in r[i]) <==> |ls| > 1 && ls[0] == created
  {
    var r := BlockRun(created + 1, ls);
    if i :| 0 <= i < |ls| && created in r[i] {
      BlockPollMember(created, ls, i, created);
      assert i > 1 ==> ls[0] <= ls[i - 1];
    }
    if |ls| > 1 && ls[0] == created {
      BlockPollMember(created, ls, 1, created);
      assert created in r[1];
    }
  }

  /** A block filter of a client that also serves any other filters: its first poll returns
      exactly the blocks after the one current at creation, and every later poll the blocks
      from the latest of the poll before, each time up to the latest block. */
  lemma {:induction false} InstalledBlockFilterReturnsBlocks(
      cap: Cap, before: seq<Request>, latest: nat, after: seq<Request>, i: nat)
    requires var id := ServeAll(Client(map[], 0), before).nextId;
      NeverUninstalled(after, id) && i < |Asked(after, id)|
    ensures var s := ServeAll(Client(map[], 0), before); var ss := Asked(after, s.nextId);
      var answers := AnswersTo(Respond(cap), Serve(s, InstallBlocks(latest)), after, s.nextId);
      && |answers| == |ss|
      && answers[i].BlockHashes?
      && forall b: nat :: b in answers[i].blocks <==>
           (if i == 0 then latest < b else ss[i - 1].latest <= b) && b <= ss[i].latest
  {
    FilterIsUndisturbed(Respond(cap), before, InstallBlocks(latest), after);
    var ss := Asked(after, ServeAll(Client(map[], 0), before).nextId);
    BlockPollsAnswerBlockRun(cap, latest + 1, ss, i);
    var blocks := BlockRun(latest + 1, Latests(ss))[i];
    forall b: nat
      ensures b in blocks <==> (if i == 0 then latest < b else ss[i - 1].latest <= b) && b <= ss[i].latest
    {
      BlockPollMember(latest, Latests(ss), i, b);
    }
  }

  /** A filter for pending transactions never returns anything. */
  lemma {:induction false} PendingFilterReturnsNothing(cap: Cap, before: seq<Request>, after: seq<Request>, i: nat)
    requires var id := ServeAll(Client(map[], 0), before).nextId;
      NeverUninstalled(after, id) && i < |Asked(after, id)|
    ensures var s := ServeAll(Client(map[], 0), before);
      var answers := AnswersTo(Respond(cap), Serve(s, InstallPending), after, s.nextId);
      |answers| == |Asked(after, s.nextId)| && answers[i] == BlockHashes([])
  {
    FilterIsUndisturbed(Respond(cap), before, InstallPending, after);
    var ss := Asked(after, ServeAll(Client(map[], 0), before).nextId);
    PollRunAt(Respond(cap), PendingPoll, ss, i);
  }
}
