/**
 The index agrees with a plain scan, for every chain built by executing batches.
 */
module IndexLaws {
  import opened Basics
  import opened Runtime
  import opened BatchLaws
  import opened LogIndex

  // --------------------------------------------------------------- reference

  /** The matching logs of one executed call, under the hash the runtime decoded. */
  function ScanTx(c: Chain, f: LogFilter, r: nat, i: nat): seq<LocalizedLog>
    requires r < |c.blocks| && i < |c.blocks[r].txs|
  {
    var t := c.blocks[r].txs[i];
    match DecodeTransaction(c.codec, t.raw)
    case Err(_) => []
    case Ok(stx) =>
      match t.result.output
      case Success(Executed(res)) => Select(Matcher(f), Localize(SnapshotAt(c, r, i), stx.tx.hash, res.logs))
      case _ => []
  }

  function CallScan(c: Chain, f: LogFilter, r: nat): nat -> seq<LocalizedLog>
    requires r < |c.blocks|
  {
    (i: nat) => if i < |c.blocks[r].txs| then ScanTx(c, f, r, i) else []
  }

  ghost function ScanBlock(c: Chain, f: LogFilter, r: nat): seq<LocalizedLog>
    requires r < |c.blocks|
  {
    Concat(CallScan(c, f, r), 0, |c.blocks[r].txs|)
  }

  ghost function BlockScan(c: Chain, f: LogFilter): nat -> seq<LocalizedLog> {
    (r: nat) => if r < |c.blocks| then ScanBlock(c, f, r) else []
  }

  /** Every matching log of every successful call of rounds `lo` to `hi`. */
  ghost function Scan(c: Chain, f: LogFilter, lo: nat, hi: nat): seq<LocalizedLog> {
    Concat(BlockScan(c, f), lo, hi + 1)
  }

  // ------------------------------------------- decoding a snapshot is a scan

  /** A success was decoded by the runtime, hence is by the gateway, and its tags are
      those of its own hash and logs. */
  lemma {:induction false} SuccessIsTagged(c: Chain, r: nat, i: nat)
    requires Valid(c) && r < |c.blocks| && i < |c.blocks[r].txs|
    ensures var t := c.blocks[r].txs[i]; var d := DecodeTransaction(c.codec, t.raw);
      if Succeeded(t.result) then
        && d.Ok?
        && GatewayDecode(c.codec, t.raw) == Some(d.value.tx)
        && t.result.tags == TxTags(d.value.tx.hash, ResultOf(t.result).logs)
      else t.result.tags == []
  {
    var b := c.blocks[r];
    var t := b.txs[i];
    assert BlockOk(c, r);
    TagsNeverLeak(c.machine, false, BlockItems(c, b), InitialState(b.context, b.store), i);
    if Succeeded(t.result) {
      assert BlockItems(c, b)[i].call == DecodeTransaction(c.codec, t.raw);
      RuntimeDecodesIff(c.codec, t.raw, BlockItems(c, b)[i].call.value);
    }
  }

  lemma {:induction false} DecodeIsScan(c: Chain, f: LogFilter, r: nat, i: nat)
    requires Valid(c) && r < |c.blocks| && i < |c.blocks[r].txs|
    ensures DecodeLogs(c.codec, f, SnapshotAt(c, r, i)) == ScanTx(c, f, r, i)
  {
    SuccessIsTagged(c, r, i);
  }

  lemma {:induction false} DecodeBlockIsScan(c: Chain, f: LogFilter, r: nat)
    requires Valid(c) && r < |c.blocks|
    ensures FlatMap(Decoder(c.codec, f), BlockSnapshots(c, r)) == ScanBlock(c, f, r)
  {
    var snaps := BlockSnapshots(c, r);
    forall i | 0 <= i < |snaps| ensures Decoder(c.codec, f)(snaps[i]) == CallScan(c, f, r)(i) {
      DecodeIsScan(c, f, r, i);
    }
    FlatMapIsConcat(Decoder(c.codec, f), snaps, CallScan(c, f, r), 0);
    assert snaps[0..] == snaps;
  }

  lemma {:induction false} DecodeRoundIsScan(c: Chain, f: LogFilter, r: nat)
    requires Valid(c)
    ensures FlatMap(Decoder(c.codec, f), RoundSnapshots(c)(r)) == BlockScan(c, f)(r)
  {
    if r < |c.blocks| {
      DecodeBlockIsScan(c, f, r);
    }
  }

  lemma {:induction false} DecodeAllIsScan(c: Chain, f: LogFilter, lo: nat, hi: nat)
    requires Valid(c) && hi < |c.blocks|
    ensures FlatMap(Decoder(c.codec, f), Snapshots(c, lo, hi)) == Scan(c, f, lo, hi)
  {
    var d, g, h := Decoder(c.codec, f), RoundSnapshots(c), BlockScan(c, f);
    forall r: nat | lo <= r < hi + 1 ensures FlatMap(d, g(r)) == h(r) {
      DecodeRoundIsScan(c, f, r);
    }
    FlatMapConcat(d, g, h, lo, hi + 1);
  }

  // ------------------------------------------------ candidates miss nothing

  /** A matching log put its address and its first four topics into the tags. */
  lemma {:induction false} MatchingLogIsIndexed(f: LogFilter, hash: Hash, logs: seq<Log>, log: Log)
    requires IndexedListsNonEmpty(f) && log in logs && Matches(f, log)
    ensures Candidate(f, TxTags(hash, logs))
  {
    forall c | ConditionOf(f, c) ensures HasTag(TxTags(hash, logs), c) {
      assert c.values != [];
      if f.address.Some? && c == Condition(TAG_LOG_ADDRESS, f.address.value) {
        var t := Tag(c.key, log.address);
        assert t == LogTags(log)[0];
        FlatMapMember(LogTags, logs, t);
      } else {
        var n := Min(|f.topics|, 4);
        assert TopicConditionOf(f.topics, n, c);
        var i :| 0 <= i < n && f.topics[i].Some? && c == Condition(TAG_LOG_TOPICS[i], f.topics[i].value);
        var t := Tag(c.key, log.topics[i]);
        assert t == LogTags(log)[1 + i];
        FlatMapMember(LogTags, logs, t);
      }
    }
  }

  lemma {:induction false} SnapshotsMember(c: Chain, lo: nat, hi: nat, s: Snapshot)
    requires hi < |c.blocks| && s in Snapshots(c, lo, hi)
    ensures lo <= s.round <= hi && s.index < |c.blocks[s.round].txs| && s == SnapshotAt(c, s.round, s.index)
  {
    ConcatMember(RoundSnapshots(c), lo, hi + 1, s);
    var r: nat :| lo <= r < hi + 1 && s in RoundSnapshots(c)(r);
    assert s in BlockSnapshots(c, r);
  }

  lemma {:induction false} NonCandidateHasNoMatch(c: Chain, f: LogFilter, r: nat, i: nat)
    requires Valid(c) && r < |c.blocks| && i < |c.blocks[r].txs|
    requires IndexedListsNonEmpty(f) && !Candidate(f, SnapshotAt(c, r, i).tags)
    ensures DecodeLogs(c.codec, f, SnapshotAt(c, r, i)) == []
  {
    var t := c.blocks[r].txs[i];
    SuccessIsTagged(c, r, i);
    if Succeeded(t.result) {
      var hash, logs := DecodeTransaction(c.codec, t.raw).value.tx.hash, ResultOf(t.result).logs;
      forall l | l in Localize(SnapshotAt(c, r, i), hash, logs) ensures !Matcher(f)(l) {
        if Matches(f, l.entry) {
          MatchingLogIsIndexed(f, hash, logs, l.entry);
        }
      }
      SelectAllOrNone(Matcher(f), Localize(SnapshotAt(c, r, i), hash, logs), false);
    }
  }

  /** Decoding only the candidates finds what decoding everything finds. */
  lemma {:induction false} CandidatesSuffice(c: Chain, f: LogFilter, lo: nat, hi: nat)
    requires Valid(c) && hi < |c.blocks| && IndexedListsNonEmpty(f)
    ensures FlatMap(Decoder(c.codec, f), Select(Candidates(f), Snapshots(c, lo, hi))) == Scan(c, f, lo, hi)
  {
    forall s | s in Snapshots(c, lo, hi) && !Candidates(f)(s) ensures Decoder(c.codec, f)(s) == [] {
      SnapshotsMember(c, lo, hi, s);
      NonCandidateHasNoMatch(c, f, s.round, s.index);
    }
    FlatMapSelect(Decoder(c.codec, f), Candidates(f), Snapshots(c, lo, hi));
    DecodeAllIsScan(c, f, lo, hi);
  }

  // ---------------------------------------------- any order of rounds will do

  /** The same transactions round by round, rounds interleaved in any way. */
  ghost predicate SamePerRound(a: seq<Snapshot>, b: seq<Snapshot>) {
    forall r :: Select(InRound(r), a) == Select(InRound(r), b)
  }

  lemma {:induction false} DecodedInBlock(codec: Codec, f: LogFilter, s: Snapshot, r: nat)
    ensures Select(InBlock(r), DecodeLogs(codec, f, s)) == if s.round == r then DecodeLogs(codec, f, s) else []
  {
    var logs := DecodeLogs(codec, f, s);
    forall l | l in logs ensures l.blockNumber == s.round {
      var tx := GatewayDecode(codec, s.raw).value;
      SelectMember(Matcher(f), Localize(s, tx.hash, s.output.value.result.logs), l);
    }
    SelectAllOrNone(InBlock(r), logs, s.round == r);
  }

  lemma {:induction false} DecodePerRound(codec: Codec, f: LogFilter, snaps: seq<Snapshot>, r: nat)
    ensures Select(InBlock(r), FlatMap(Decoder(codec, f), snaps)) ==
      FlatMap(Decoder(codec, f), Select(InRound(r), snaps))
  {
    if snaps != [] {
      var d := Decoder(codec, f);
      DecodePerRound(codec, f, snaps[1..], r);
      DecodedInBlock(codec, f, snaps[0], r);
      SelectAppend(InBlock(r), d(snaps[0]), FlatMap(d, snaps[1..]));
      var rest := Select(InRound(r), snaps[1..]);
      if snaps[0].round == r {
        assert ([snaps[0]] + rest)[1..] == rest;
      } else {
        assert Select(InRound(r), snaps) == rest;
      }
    }
  }

  // ------------------------------------------------------ the order of a scan

  /** Chain order: by block, by call in the block, by log of the call. */
  ghost predicate Before(a: LocalizedLog, b: LocalizedLog) {
    || a.blockNumber < b.blockNumber
    || (a.blockNumber == b.blockNumber && a.transactionIndex < b.transactionIndex)
    || (a.blockNumber == b.blockNumber && a.transactionIndex == b.transactionIndex && a.logIndex < b.logIndex)
  }

  ghost predicate Ordered(s: seq<LocalizedLog>) {
    forall i, j :: 0 <= i < j < |s| ==> Before(s[i], s[j])
  }

  lemma {:induction false} SelectOrdered(p: LocalizedLog -> bool, s: seq<LocalizedLog>)
    requires Ordered(s)
    ensures Ordered(Select(p, s))
  {
    if s != [] {
      SelectOrdered(p, s[1..]);
      var rest := Select(p, s[1..]);
      forall l | l in rest ensures Before(s[0], l) {
        SelectMember(p, s[1..], l);
        var j :| 0 <= j < |s[1..]| && s[1..][j] == l;
        assert s[j + 1] == l;
      }
      OrderedAppend([s[0]], rest);
    }
  }

  lemma {:induction false} OrderedAppend(a: seq<LocalizedLog>, b: seq<LocalizedLog>)
    requires Ordered(a) && Ordered(b)
    requires forall x, y :: x in a && y in b ==> Before(x, y)
    ensures Ordered(a + b)
  {
    forall i, j | 0 <= i < j < |a + b| ensures Before((a + b)[i], (a + b)[j]) {
      if i < |a| <= j {
        assert a[i] in a && b[j - |a|] in b;
      }
    }
  }

  lemma {:induction false} ConcatOrdered(g: nat -> seq<LocalizedLog>, lo: nat, hi: nat)
    requires forall k: nat :: lo <= k < hi ==> Ordered(g(k))
    requires forall k: nat, m: nat, x, y :: lo <= k < m < hi && x in g(k) && y in g(m) ==> Before(x, y)
    ensures Ordered(Concat(g, lo, hi))
    decreases hi - lo
  {
    if lo < hi {
      ConcatOrdered(g, lo + 1, hi);
      forall x, y | x in g(lo) && y in Concat(g, lo + 1, hi) ensures Before(x, y) {
        ConcatMember(g, lo + 1, hi, y);
      }
      OrderedAppend(g(lo), Concat(g, lo + 1, hi));
    }
  }

  lemma {:induction false} ScanTxOrdered(c: Chain, f: LogFilter, r: nat, i: nat)
    requires r < |c.blocks| && i < |c.blocks[r].txs|
    ensures Ordered(ScanTx(c, f, r, i))
    ensures forall l :: l in ScanTx(c, f, r, i) ==> l.blockNumber == r && l.transactionIndex == i
  {
    var t := c.blocks[r].txs[i];
    var d := DecodeTransaction(c.codec, t.raw);
    if d.Ok? && t.result.output.Success? && t.result.output.value.Executed? {
      var logs := Localize(SnapshotAt(c, r, i), d.value.tx.hash, t.result.output.value.result.logs);
      SelectOrdered(Matcher(f), logs);
      forall l | l in Select(Matcher(f), logs) ensures l.blockNumber == r && l.transactionIndex == i {
        SelectMember(Matcher(f), logs, l);
      }
    }
  }

  lemma {:induction false} ScanBlockOrdered(c: Chain, f: LogFilter, r: nat)
    requires r < |c.blocks|
    ensures Ordered(ScanBlock(c, f, r))
    ensures forall l :: l in ScanBlock(c, f, r) ==> l.blockNumber == r
  {
    var g, n := CallScan(c, f, r), |c.blocks[r].txs|;
    forall i: nat | 0 <= i < n
      ensures Ordered(g(i)) && forall l :: l in g(i) ==> l.blockNumber == r && l.transactionIndex == i
    {
      ScanTxOrdered(c, f, r, i);
    }
    ConcatOrdered(g, 0, n);
    forall l | l in ScanBlock(c, f, r) ensures l.blockNumber == r {
      ConcatMember(g, 0, n, l);
    }
  }

  ghost predicate Distinct(s: seq<LocalizedLog>) {
    forall i, j :: 0 <= i < j < |s| ==> s[i] != s[j]
  }

  lemma {:induction false} OrderedFacts(s: seq<LocalizedLog>)
    requires Ordered(s)
    ensures SortedByBlock(s) && Distinct(s)
  {
    forall i, j | 0 <= i < j < |s| ensures s[i].blockNumber <= s[j].blockNumber && s[i] != s[j] {
      assert Before(s[i], s[j]);
    }
  }

  /** A scan lists logs in strict chain order, so it lists none of them twice. */
  lemma {:induction false} ScanIsOrdered(c: Chain, f: LogFilter, lo: nat, hi: nat)
    requires hi < |c.blocks|
    ensures var s := Scan(c, f, lo, hi); Ordered(s) && SortedByBlock(s) && Distinct(s)
  {
    var g := BlockScan(c, f);
    forall r: nat | lo <= r < hi + 1 ensures Ordered(g(r)) && forall l :: l in g(r) ==> l.blockNumber == r {
      ScanBlockOrdered(c, f, r);
    }
    ConcatOrdered(g, lo, hi + 1);
    OrderedFacts(Concat(g, lo, hi + 1));
  }

  /** The index agrees with the scan: decoding the candidates, handed over with
      their rounds in any order, and sorting by block yields exactly the scan. */
  lemma {:induction false} IndexAgreesWithScan(c: Chain, f: LogFilter, lo: nat, hi: nat, answer: seq<Snapshot>)
    requires Valid(c) && hi < |c.blocks| && IndexedListsNonEmpty(f)
    requires SamePerRound(answer, Select(Candidates(f), Snapshots(c, lo, hi)))
    ensures SortByBlock(FlatMap(Decoder(c.codec, f), answer)) == Scan(c, f, lo, hi)
  {
    var d := Decoder(c.codec, f);
    var matching := Select(Candidates(f), Snapshots(c, lo, hi));
    CandidatesSuffice(c, f, lo, hi);
    ScanIsOrdered(c, f, lo, hi);
    SortIsStable(FlatMap(d, answer));
    forall r ensures Select(InBlock(r), SortByBlock(FlatMap(d, answer))) == Select(InBlock(r), Scan(c, f, lo, hi)) {
      DecodePerRound(c.codec, f, answer, r);
      DecodePerRound(c.codec, f, matching, r);
    }
    SortedUnique(SortByBlock(FlatMap(d, answer)), Scan(c, f, lo, hi));
  }

  /** Even if the index returns the candidates in no particular order, the answer is
      sorted by block and has every log of the scan exactly as often as the scan. */
  lemma {:induction false} AnyOrderSameLogs(c: Chain, f: LogFilter, lo: nat, hi: nat, answer: seq<Snapshot>)
    requires Valid(c) && hi < |c.blocks| && IndexedListsNonEmpty(f)
    requires multiset(answer) == multiset(Select(Candidates(f), Snapshots(c, lo, hi)))
    ensures var logs := SortByBlock(FlatMap(Decoder(c.codec, f), answer));
      SortedByBlock(logs) && multiset(logs) == multiset(Scan(c, f, lo, hi))
  {
    SortIsStable(FlatMap(Decoder(c.codec, f), answer));
    FlatMapPermutes(Decoder(c.codec, f), answer, Select(Candidates(f), Snapshots(c, lo, hi)));
    CandidatesSuffice(c, f, lo, hi);
  }

  /** Whatever part of the candidates a limited query returns, and whatever lists
      the filter has, no log is returned that the scan does not have. */
  lemma {:induction false} PartialAnswerIsSound(c: Chain, f: LogFilter, lo: nat, hi: nat, answer: seq<Snapshot>)
    requires Valid(c) && hi < |c.blocks|
    requires forall s :: s in answer ==> s in Snapshots(c, lo, hi)
    ensures forall l :: l in SortByBlock(FlatMap(Decoder(c.codec, f), answer)) ==> l in Scan(c, f, lo, hi)
  {
    var d := Decoder(c.codec, f);
    DecodeAllIsScan(c, f, lo, hi);
    SortIsStable(FlatMap(d, answer));
    forall l | l in SortByBlock(FlatMap(d, answer)) ensures l in Scan(c, f, lo, hi) {
      assert l in multiset(FlatMap(d, answer));
      FlatMapMember(d, answer, l);
      FlatMapMember(d, Snapshots(c, lo, hi), l);
    }
  }

  // ------------------------------------------------------------- whole query

  /** The library's index: all matching transactions, in index order within each round,
      unless there are more than the limit; then as many of them as the limit says.  A limit
      of 0 is none. */
  type Index = (nat, nat, seq<Condition>, nat) -> seq<Snapshot>

  ghost function Meeting(conditions: seq<Condition>): Snapshot -> bool {
    (s: Snapshot) => MeetsAll(s.tags, conditions)
  }

  ghost predicate LawfulIndex(c: Chain, index: Index) {
    forall lo: nat, hi: nat, conditions, limit :: hi < |c.blocks| ==>
      && (forall s :: s in index(lo, hi, conditions, limit) ==> s in Snapshots(c, lo, hi))
      && (limit > 0 ==> |index(lo, hi, conditions, limit)| <= limit)
      && (limit == 0 || |Select(Meeting(conditions), Snapshots(c, lo, hi))| <= limit ==>
            SamePerRound(index(lo, hi, conditions, limit), Select(Meeting(conditions), Snapshots(c, lo, hi))))
  }

  datatype QueryError = BlockNotFound

  /** The lowest round whose block has the given hash. */
  function FindHash(blocks: seq<Block>, h: Hash, from: nat): (r: Option<nat>)
    requires from <= |blocks|
    ensures r.Some? ==> from <= r.value < |blocks| && blocks[r.value].hash == h
    ensures r.None? ==> forall k :: from <= k < |blocks| ==> blocks[k].hash != h
    decreases |blocks| - from
  {
    if from == |blocks| then None
    else if blocks[from].hash == h then Some(from)
    else FindHash(blocks, h, from + 1)
  }

  function Resolve(blocks: seq<Block>, id: BlockId): (r: Option<nat>)
    ensures r.Some? ==> r.value < |blocks|
  {
    match id
    case ByHash(h) => FindHash(blocks, h, 0)
    case Number(n) => if n < |blocks| then Some(n) else None
    case Latest => if blocks == [] then None else Some(|blocks| - 1)
    case Earliest => if blocks == [] then None else Some(0)
  }

  /** Block `k` is one the identifier stands for. */
  ghost predicate Names(blocks: seq<Block>, id: BlockId, k: nat) {
    && k < |blocks|
    && match id
       case ByHash(h) => blocks[k].hash == h
       case Number(n) => k == n
       case Latest => k + 1 == |blocks|
       case Earliest => k == 0
  }

  /** An identifier resolves iff it stands for some block, and then to such a block. */
  lemma {:induction false} ResolvesToNamed(blocks: seq<Block>, id: BlockId)
    ensures Resolve(blocks, id).Some? <==> exists k :: Names(blocks, id, k)
    ensures Resolve(blocks, id).Some? ==> Names(blocks, id, Resolve(blocks, id).value)
  {
    var r := Resolve(blocks, id);
    if r.Some? {
      assert Names(blocks, id, r.value);
    }
  }

  lemma {:induction false} SelectSame<A>(p: A -> bool, q: A -> bool, s: seq<A>)
    requires forall x :: x in s ==> p(x) == q(x)
    ensures Select(p, s) == Select(q, s)
  {
    if s != [] {
      assert s[0] in s;
      SelectSame(p, q, s[1..]);
    }
  }

  /** The limit a query passes on; 0 stands for none. */
  function LimitOf(f: LogFilter): nat {
    if f.limit.Some? then f.limit.value else 0
  }

  /** What the index returns for a range, decoded, filtered again and sorted. */
  function QueryLogs(codec: Codec, f: LogFilter, index: Index, lo: nat, hi: nat): seq<LocalizedLog> {
    SortByBlock(FlatMap(Decoder(codec, f), index(lo, hi, ConditionsOf(f), LimitOf(f))))
  }

  /** A whole query.  Its two ends are resolved at different moments: the first on
      the blocks `from`, the last on the chain the index is then asked about. */
  function LogsAt(from: seq<Block>, c: Chain, f: LogFilter, index: Index)
    : Result<seq<LocalizedLog>, QueryError>
  {
    var lo, hi := Resolve(from, f.fromBlock), Resolve(c.blocks, f.toBlock);
    if lo.None? || hi.None? then Err(BlockNotFound) else Ok(QueryLogs(c.codec, f, index, lo.value, hi.value))
  }

  /** Whatever the limit and the lists, a query returns only logs of the scan. */
  lemma {:induction false} QueryIsSound(c: Chain, f: LogFilter, index: Index, lo: nat, hi: nat)
    requires Valid(c) && LawfulIndex(c, index) && hi < |c.blocks|
    ensures forall l :: l in QueryLogs(c.codec, f, index, lo, hi) ==> l in Scan(c, f, lo, hi)
  {
    PartialAnswerIsSound(c, f, lo, hi, index(lo, hi, ConditionsOf(f), LimitOf(f)));
  }

  /** Without a limit and without empty lists, a query is the scan. */
  lemma {:induction false} QueryIsExact(c: Chain, f: LogFilter, index: Index, lo: nat, hi: nat)
    requires Valid(c) && LawfulIndex(c, index) && hi < |c.blocks|
    requires Unlimited(f) && IndexedListsNonEmpty(f)
    ensures QueryLogs(c.codec, f, index, lo, hi) == Scan(c, f, lo, hi)
  {
    ConditionsAreExact(f);
    SelectSame(Meeting(ConditionsOf(f)), Candidates(f), Snapshots(c, lo, hi));
    IndexAgreesWithScan(c, f, lo, hi, index(lo, hi, ConditionsOf(f), 0));
  }

  /** The filter asks for no limit. */
  predicate Unlimited(f: LogFilter) {
    f.limit == None || f.limit == Some(0)
  }

  /** A limit that is not exceeded changes nothing. */
  lemma {:induction false} SlackLimitIsExact(c: Chain, f: LogFilter, index: Index, lo: nat, hi: nat)
    requires Valid(c) && LawfulIndex(c, index) && hi < |c.blocks| && IndexedListsNonEmpty(f)
    requires f.limit.Some? && |Select(Candidates(f), Snapshots(c, lo, hi))| <= f.limit.value
    ensures QueryLogs(c.codec, f, index, lo, hi) == Scan(c, f, lo, hi)
  {
    ConditionsAreExact(f);
    SelectSame(Meeting(ConditionsOf(f)), Candidates(f), Snapshots(c, lo, hi));
    IndexAgreesWithScan(c, f, lo, hi, index(lo, hi, ConditionsOf(f), f.limit.value));
  }

  /** The transactions a list of logs comes from. */
  ghost function Origins(logs: seq<LocalizedLog>): set<(nat, nat)> {
    set l | l in logs :: (l.blockNumber, l.transactionIndex)
  }

  lemma {:induction false} OriginsOfDecoded(codec: Codec, f: LogFilter, snaps: seq<Snapshot>)
    ensures |Origins(FlatMap(Decoder(codec, f), snaps))| <= |snaps|
  {
    if snaps != [] {
      var d, rest := Decoder(codec, f), snaps[1..];
      OriginsOfDecoded(codec, f, rest);
      var first, others := Origins(d(snaps[0])), Origins(FlatMap(d, rest));
      assert first <= {(snaps[0].round, snaps[0].index)} by {
        DecodedFrom(codec, f, snaps[0]);
      }
      assert Origins(FlatMap(d, snaps)) == first + others;
      SubsetSize(first, {(snaps[0].round, snaps[0].index)});
      assert |first + others| <= |first| + |others|;
    }
  }

  lemma {:induction false} SubsetSize<T>(a: set<T>, b: set<T>)
    requires a <= b
    ensures |a| <= |b|
  {
    assert b == a + (b - a);
  }

  lemma {:induction false} DecodedFrom(codec: Codec, f: LogFilter, s: Snapshot)
    ensures forall l :: l in DecodeLogs(codec, f, s) ==> l.blockNumber == s.round && l.transactionIndex == s.index
  {
    forall l | l in DecodeLogs(codec, f, s) ensures l.blockNumber == s.round && l.transactionIndex == s.index {
      var tx := GatewayDecode(codec, s.raw).value;
      SelectMember(Matcher(f), Localize(s, tx.hash, s.output.value.result.logs), l);
    }
  }

  /** A limited query draws its logs from at most that many transactions. */
  lemma {:induction false} LimitBoundsTransactions(c: Chain, f: LogFilter, index: Index, lo: nat, hi: nat)
    requires LawfulIndex(c, index) && hi < |c.blocks| && f.limit.Some? && f.limit.value > 0
    ensures |Origins(QueryLogs(c.codec, f, index, lo, hi))| <= f.limit.value
  {
    var answer := index(lo, hi, ConditionsOf(f), f.limit.value);
    var logs := FlatMap(Decoder(c.codec, f), answer);
    SortIsStable(logs);
    OriginsOfDecoded(c.codec, f, answer);
    assert Origins(SortByBlock(logs)) == Origins(logs) by {
      forall l ensures l in SortByBlock(logs) <==> l in logs {
        assert l in SortByBlock(logs) <==> l in multiset(SortByBlock(logs));
        assert l in logs <==> l in multiset(logs);
      }
    }
  }

  /** A log query as the gateway answers it. */
  method Logs(from: seq<Block>, c: Chain, f: LogFilter, index: Index)
    returns (r: Result<seq<LocalizedLog>, QueryError>)
    ensures r == LogsAt(from, c, f, index)
    ensures r.Err? <==> Resolve(from, f.fromBlock).None? || Resolve(c.blocks, f.toBlock).None?
    ensures Valid(c) && LawfulIndex(c, index) && r.Ok? ==>
      var lo, hi := Resolve(from, f.fromBlock).value, Resolve(c.blocks, f.toBlock).value;
      && SortedByBlock(r.value)
      && (forall l :: l in r.value ==> l in Scan(c, f, lo, hi))
      && (Unlimited(f) && IndexedListsNonEmpty(f) ==> r.value == Scan(c, f, lo, hi))
  {
    var first, last := Resolve(from, f.fromBlock), Resolve(c.blocks, f.toBlock);
    if first.None? || last.None? {
      return Err(BlockNotFound);
    }
    var conditions := Conditions(f);
    var txns := index(first.value, last.value, conditions, LimitOf(f));
    var logs := [];
    for i := 0 to |txns|
      invariant logs == FlatMap(Decoder(c.codec, f), txns[..i])
    {
      logs := logs + DecodeLogs(c.codec, f, txns[i]);
      FlatMapSnoc(Decoder(c.codec, f), txns, i);
    }
    assert txns[..|txns|] == txns;
    r := Ok(SortByBlock(logs));
    SortIsStable(logs);
    if Valid(c) && LawfulIndex(c, index) {
      QueryIsSound(c, f, index, first.value, last.value);
      if Unlimited(f) && IndexedListsNonEmpty(f) {
        QueryIsExact(c, f, index, first.value, last.value);
      }
    }
  }

  // ---------------------------------------------------------- range splitting

  /** Consecutive ranges answer what the joined range answers. */
  lemma {:induction false} ScanSplits(c: Chain, f: LogFilter, a: nat, b: nat, d: nat)
    requires a <= b + 1 && b <= d < |c.blocks|
    ensures Scan(c, f, a, b) + Scan(c, f, b + 1, d) == Scan(c, f, a, d)
  {
    ConcatSplit(BlockScan(c, f), a, b + 1, d + 1);
  }

  /** The same filter but for its range and its limit. */
  ghost predicate SameMatcher(f: LogFilter, g: LogFilter) {
    f.address == g.address && f.topics == g.topics
  }

  /** The logs of a range depend on the filter's addresses and topics alone. */
  lemma {:induction false} ScanIgnoresEnds(c: Chain, f: LogFilter, g: LogFilter, lo: nat, hi: nat)
    requires hi < |c.blocks| && SameMatcher(f, g)
    ensures Scan(c, f, lo, hi) == Scan(c, g, lo, hi)
  {
    forall r: nat | lo <= r < hi + 1 ensures BlockScan(c, f)(r) == BlockScan(c, g)(r) {
      BlockIgnoresEnds(c, f, g, r);
    }
    ConcatSame(BlockScan(c, f), BlockScan(c, g), lo, hi + 1);
  }

  lemma {:induction false} BlockIgnoresEnds(c: Chain, f: LogFilter, g: LogFilter, r: nat)
    requires r < |c.blocks| && SameMatcher(f, g)
    ensures ScanBlock(c, f, r) == ScanBlock(c, g, r)
  {
    forall i: nat | 0 <= i < |c.blocks[r].txs| ensures CallScan(c, f, r)(i) == CallScan(c, g, r)(i) {
      TxIgnoresEnds(c, f, g, r, i);
    }
    ConcatSame(CallScan(c, f, r), CallScan(c, g, r), 0, |c.blocks[r].txs|);
  }

  lemma {:induction false} TxIgnoresEnds(c: Chain, f: LogFilter, g: LogFilter, r: nat, i: nat)
    requires r < |c.blocks| && i < |c.blocks[r].txs| && SameMatcher(f, g)
    ensures ScanTx(c, f, r, i) == ScanTx(c, g, r, i)
  {
    var t := c.blocks[r].txs[i];
    var d := DecodeTransaction(c.codec, t.raw);
    if d.Ok? && t.result.output.Success? && t.result.output.value.Executed? {
      var logs := Localize(SnapshotAt(c, r, i), d.value.tx.hash, t.result.output.value.result.logs);
      SelectSame(Matcher(f), Matcher(g), logs);
    }
  }

  /** Blocks are immutable: growing the chain does not change a past range. */
  lemma {:induction false} ScanIsStable(c: Chain, d: Chain, f: LogFilter, lo: nat, hi: nat)
    requires hi < |c.blocks| && Extends(c, d)
    ensures Scan(c, f, lo, hi) == Scan(d, f, lo, hi)
  {
    RoundsAreStable(c, d, f, lo, hi + 1);
    ConcatSameOn(BlockScan(c, f), BlockScan(d, f), lo, hi + 1);
  }

  lemma {:induction false} RoundsAreStable(c: Chain, d: Chain, f: LogFilter, lo: nat, hi: nat)
    requires hi <= |c.blocks| && Extends(c, d)
    ensures SameOn(BlockScan(c, f), BlockScan(d, f), lo, hi)
  {
    forall r: nat | lo <= r < hi ensures BlockScan(c, f)(r) == BlockScan(d, f)(r) {
      RoundIsStable(c, d, f, r);
    }
  }

  ghost predicate Extends(c: Chain, d: Chain) {
    c.codec == d.codec && c.machine == d.machine && c.blocks <= d.blocks
  }

  lemma {:induction false} RoundIsStable(c: Chain, d: Chain, f: LogFilter, r: nat)
    requires r < |c.blocks| && Extends(c, d)
    ensures BlockScan(c, f)(r) == BlockScan(d, f)(r)
  {
    BlockIsStable(c, d, f, r);
  }

  lemma {:induction false} BlockIsStable(c: Chain, d: Chain, f: LogFilter, r: nat)
    requires r < |c.blocks| && Extends(c, d)
    ensures ScanBlock(c, f, r) == ScanBlock(d, f, r)
  {
    assert c.blocks[r] == d.blocks[r];
    forall i: nat | 0 <= i < |c.blocks[r].txs| ensures CallScan(c, f, r)(i) == CallScan(d, f, r)(i) {
      assert ScanTx(c, f, r, i) == ScanTx(d, f, r, i);
    }
    ConcatSame(CallScan(c, f, r), CallScan(d, f, r), 0, |c.blocks[r].txs|);
  }
}
