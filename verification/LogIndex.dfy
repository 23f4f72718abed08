/**
 The gateway's log queries over a chain of executed batches.

 A filter is compiled into tag conditions, the transaction index is asked for
 candidates, their logs are decoded and filtered again, and the result is sorted
 by block.  `Scan` is the reference: walk every result of every block in range.
 */
module LogIndex {
  import opened Basics
  import opened Runtime

  /** A raw call and what executing it produced. */
  datatype TxRecord = TxRecord(raw: Bytes, result: TxResult)

  /** A block: the inputs its batch was executed on, and the calls with their results. */
  datatype Block = Block(
    hash: Hash, context: Header, store: Store, decodeAborts: nat -> bool, runAborts: nat -> bool,
    txs: seq<TxRecord>)

  datatype Chain = Chain(codec: Codec, machine: Machine, blocks: seq<Block>)

  function Batch(b: Block): (r: seq<Bytes>)
    ensures |r| == |b.txs| && forall i :: 0 <= i < |r| ==> r[i] == b.txs[i].raw
  {
    seq(|b.txs|, i requires 0 <= i < |b.txs| => b.txs[i].raw)
  }

  ghost function BlockItems(c: Chain, b: Block): seq<Item> {
    Items(c.codec, Batch(b), b.decodeAborts, b.runAborts)
  }

  ghost function Execution(c: Chain, b: Block): (e: Step<seq<TxResult>>)
    requires LawfulMachine(c.machine)
    ensures |e.result| == |b.txs|
  {
    Run(c.machine, false, BlockItems(c, b), InitialState(b.context, b.store))
  }

  /** Block `r` holds the results of executing its batch, on the header and the
      committed state of the block before it; block 0 is empty. */
  ghost predicate BlockOk(c: Chain, r: nat)
    requires LawfulMachine(c.machine)
  {
    && r < |c.blocks|
    && var b := c.blocks[r];
    && (forall i :: 0 <= i < |b.txs| ==> b.txs[i].result == Execution(c, b).result[i])
    && if r == 0 then b.txs == []
       else b.context.round == r - 1 && b.store == Execution(c, c.blocks[r - 1]).state.store
  }

  /** Built by executing batches. */
  ghost predicate Valid(c: Chain) {
    LawfulMachine(c.machine) && forall r :: 0 <= r < |c.blocks| ==> BlockOk(c, r)
  }

  datatype Snapshot = Snapshot(
    blockHash: Hash, round: nat, index: nat, raw: Bytes, output: TxnOutput, tags: seq<Tag>)

  function SnapshotAt(c: Chain, r: nat, i: nat): Snapshot
    requires r < |c.blocks| && i < |c.blocks[r].txs|
  {
    var t := c.blocks[r].txs[i];
    Snapshot(c.blocks[r].hash, r, i, t.raw, t.result.output, t.result.tags)
  }

  function BlockSnapshots(c: Chain, r: nat): (s: seq<Snapshot>)
    requires r < |c.blocks|
    ensures |s| == |c.blocks[r].txs| && forall i :: 0 <= i < |s| ==> s[i] == SnapshotAt(c, r, i)
  {
    seq(|c.blocks[r].txs|, i requires 0 <= i < |c.blocks[r].txs| => SnapshotAt(c, r, i))
  }

  function RoundSnapshots(c: Chain): nat -> seq<Snapshot> {
    (r: nat) => if r < |c.blocks| then BlockSnapshots(c, r) else []
  }

  /** Every transaction of rounds `lo` to `hi`, in (round, index) order. */
  ghost function Snapshots(c: Chain, lo: nat, hi: nat): seq<Snapshot> {
    Concat(RoundSnapshots(c), lo, hi + 1)
  }

  // ----------------------------------------------------------------- filters

  datatype BlockId = ByHash(hash: Hash) | Number(number: nat) | Latest | Earliest

  datatype LogFilter = LogFilter(
    fromBlock: BlockId, toBlock: BlockId,
    address: Option<seq<Address>>, topics: seq<Option<seq<Topic>>>, limit: Option<nat>)

  /** The library's matcher: an absent or empty list constrains nothing. */
  predicate Matches(f: LogFilter, log: Log) {
    && (f.address.Some? && f.address.value != [] ==> log.address in f.address.value)
    && forall i :: 0 <= i < |f.topics| && f.topics[i].Some? && f.topics[i].value != [] ==>
         i < |log.topics| && log.topics[i] in f.topics[i].value
  }

  /** A log is rejected iff some list of the filter has values and not the log's. */
  lemma {:induction false} RejectedIff(f: LogFilter, log: Log)
    ensures !Matches(f, log) <==>
      || (f.address.Some? && f.address.value != [] && log.address !in f.address.value)
      || exists i :: 0 <= i < |f.topics| && f.topics[i].Some? && f.topics[i].value != []
                  && (i < |log.topics| ==> log.topics[i] !in f.topics[i].value)
  {
  }

  datatype Condition = Condition(key: string, values: seq<Bytes>)

  /** The library's index: some tag with the condition's key has one of its values. */
  ghost predicate HasTag(tags: seq<Tag>, c: Condition) {
    exists v :: v in c.values && Tag(c.key, v) in tags
  }

  ghost predicate MeetsAll(tags: seq<Tag>, conditions: seq<Condition>) {
    forall c :: c in conditions ==> HasTag(tags, c)
  }

  /** The conditions a filter stands for: one for its addresses and one for each
      constrained position among the first four topics. */
  ghost predicate ConditionOf(f: LogFilter, c: Condition) {
    || (f.address.Some? && c == Condition(TAG_LOG_ADDRESS, f.address.value))
    || TopicConditionOf(f.topics, Min(|f.topics|, 4), c)
  }

  ghost predicate TopicConditionOf(topics: seq<Option<seq<Topic>>>, n: nat, c: Condition)
    requires n <= |topics| && n <= 4
  {
    exists i :: 0 <= i < n && topics[i].Some? && c == Condition(TAG_LOG_TOPICS[i], topics[i].value)
  }

  /** The conditions on the first `n` topics, by position. */
  function TopicConditions(topics: seq<Option<seq<Topic>>>, n: nat): seq<Condition>
    requires n <= |topics| && n <= 4
  {
    if n == 0 then []
    else
      TopicConditions(topics, n - 1)
      + if topics[n - 1].Some? then [Condition(TAG_LOG_TOPICS[n - 1], topics[n - 1].value)] else []
  }

  function ConditionsOf(f: LogFilter): seq<Condition> {
    (if f.address.Some? then [Condition(TAG_LOG_ADDRESS, f.address.value)] else [])
    + TopicConditions(f.topics, Min(|f.topics|, 4))
  }

  ghost predicate DistinctKeys(c: seq<Condition>) {
    forall i, j :: 0 <= i < j < |c| ==> c[i].key != c[j].key
  }

  lemma {:induction false} TopicConditionsMember(topics: seq<Option<seq<Topic>>>, n: nat)
    requires n <= |topics| && n <= 4
    ensures forall x :: x in TopicConditions(topics, n) <==> TopicConditionOf(topics, n, x)
    ensures DistinctKeys(TopicConditions(topics, n))
  {
    if n > 0 {
      TopicConditionsMember(topics, n - 1);
      var before := TopicConditions(topics, n - 1);
      forall x | x in before ensures x.key != TAG_LOG_TOPICS[n - 1] {
        assert TopicConditionOf(topics, n - 1, x);
      }
      forall x ensures TopicConditionOf(topics, n, x) <==>
        || TopicConditionOf(topics, n - 1, x)
        || (topics[n - 1].Some? && x == Condition(TAG_LOG_TOPICS[n - 1], topics[n - 1].value))
      {
      }
    }
  }

  /** The query asks for exactly the conditions of the filter, each key once. */
  lemma {:induction false} ConditionsAreExact(f: LogFilter)
    ensures forall x :: x in ConditionsOf(f) <==> ConditionOf(f, x)
    ensures DistinctKeys(ConditionsOf(f))
  {
    TopicConditionsMember(f.topics, Min(|f.topics|, 4));
    var rest := TopicConditions(f.topics, Min(|f.topics|, 4));
    forall x | x in rest ensures x.key != TAG_LOG_ADDRESS {
      assert TopicConditionOf(f.topics, Min(|f.topics|, 4), x);
    }
  }

  method Conditions(f: LogFilter) returns (c: seq<Condition>)
    ensures c == ConditionsOf(f)
  {
    var head := if f.address.Some? then [Condition(TAG_LOG_ADDRESS, f.address.value)] else [];
    c := head;
    var i := 0;
    while i < |f.topics| && i < |TAG_LOG_TOPICS|
      invariant 0 <= i <= |f.topics| && i <= 4
      invariant c == head + TopicConditions(f.topics, i)
    {
      var more := if f.topics[i].Some? then [Condition(TAG_LOG_TOPICS[i], f.topics[i].value)] else [];
      assert TopicConditions(f.topics, i + 1) == TopicConditions(f.topics, i) + more;
      c := c + more;
      i := i + 1;
    }
  }

  /** A transaction the compiled query may return. */
  ghost predicate Candidate(f: LogFilter, tags: seq<Tag>) {
    forall c :: ConditionOf(f, c) ==> HasTag(tags, c)
  }

  ghost function Candidates(f: LogFilter): Snapshot -> bool {
    (s: Snapshot) => Candidate(f, s.tags)
  }

  /** No list the index is asked about is empty. */
  ghost predicate IndexedListsNonEmpty(f: LogFilter) {
    forall c :: ConditionOf(f, c) ==> c.values != []
  }

  // ---------------------------------------------------------------- decoding

  datatype LocalizedLog = LocalizedLog(
    entry: Log, blockHash: Hash, blockNumber: nat, transactionHash: Hash, transactionIndex: nat,
    logIndex: nat, transactionLogIndex: nat)

  /** The gateway's decoding of a raw call: no gas, signature or price check. */
  function GatewayDecode(codec: Codec, raw: Bytes): Option<Transaction> {
    match codec.parseCall(raw)
    case None => None
    case Some(call) =>
      if call.method_ != METHOD_TX then None
      else match codec.parseArgs(call.args)
        case None => None
        case Some(bytes) => codec.parseTx(bytes)
  }

  /** The runtime accepts a raw call iff the gateway decodes it and its gas, its
      signature and its price pass; both then see the same transaction. */
  lemma {:induction false} RuntimeDecodesIff(codec: Codec, raw: Bytes, stx: SignedTx)
    ensures DecodeTransaction(codec, raw) == Ok(stx) <==>
      && GatewayDecode(codec, raw) == Some(stx.tx)
      && stx.tx.gas <= BLOCK_GAS_LIMIT
      && codec.recover(stx.tx) == Some(stx.sender)
      && stx.tx.gasPrice >= MIN_GAS_PRICE
  {
    match codec.parseCall(raw)
    case None =>
    case Some(call) =>
      if call.method_ == METHOD_TX && codec.parseArgs(call.args).Some? {
        var bytes := codec.parseArgs(call.args).value;
        assert GatewayDecode(codec, raw) == codec.parseTx(bytes);
        assert DecodeTransaction(codec, raw) == CheckTx(codec, bytes);
      }
  }

  /** Why a call is refused: every error has its own condition. */
  lemma {:induction false} DecodeErrorsAreExact(codec: Codec, raw: Bytes)
    ensures var d := DecodeTransaction(codec, raw); var g := GatewayDecode(codec, raw);
      var call := codec.parseCall(raw);
      && (d == Err(BadCall) <==> call.None?)
      && (forall name :: d == Err(MethodNotFound(name)) <==>
            call.Some? && call.value.method_ == name && name != METHOD_TX)
      && (d == Err(BadArgs) <==>
            call.Some? && call.value.method_ == METHOD_TX && codec.parseArgs(call.value.args).None?)
      && (d == Err(BadRlp) <==>
            && g.None? && call.Some? && call.value.method_ == METHOD_TX
            && codec.parseArgs(call.value.args).Some?)
      && (d == Err(TooMuchGas) <==> g.Some? && g.value.gas > BLOCK_GAS_LIMIT)
      && (d == Err(BadSignature) <==>
            g.Some? && g.value.gas <= BLOCK_GAS_LIMIT && codec.recover(g.value).None?)
      && (d == Err(GasPriceTooLow) <==>
            && g.Some? && g.value.gas <= BLOCK_GAS_LIMIT
            && codec.recover(g.value).Some? && g.value.gasPrice < MIN_GAS_PRICE)
  {
    match codec.parseCall(raw)
    case None =>
    case Some(call) =>
      if call.method_ == METHOD_TX && codec.parseArgs(call.args).Some? {
        var bytes := codec.parseArgs(call.args).value;
        assert GatewayDecode(codec, raw) == codec.parseTx(bytes);
        assert DecodeTransaction(codec, raw) == CheckTx(codec, bytes);
      }
  }

  function Localize(s: Snapshot, hash: Hash, logs: seq<Log>): (r: seq<LocalizedLog>)
    ensures |r| == |logs|
    ensures forall i :: 0 <= i < |r| ==> r[i] == LocalizedLog(logs[i], s.blockHash, s.round, hash, s.index, i, i)
  {
    seq(|logs|, i requires 0 <= i < |logs| => LocalizedLog(logs[i], s.blockHash, s.round, hash, s.index, i, i))
  }

  function Matcher(f: LogFilter): LocalizedLog -> bool {
    (l: LocalizedLog) => Matches(f, l.entry)
  }

  /** The logs of one transaction that pass the filter. */
  function DecodeLogs(codec: Codec, f: LogFilter, s: Snapshot): seq<LocalizedLog> {
    match GatewayDecode(codec, s.raw)
    case None => []
    case Some(tx) =>
      match s.output
      case Success(Executed(res)) => Select(Matcher(f), Localize(s, tx.hash, res.logs))
      case _ => []
  }

  function Decoder(codec: Codec, f: LogFilter): Snapshot -> seq<LocalizedLog> {
    (s: Snapshot) => DecodeLogs(codec, f, s)
  }

  // ----------------------------------------------------------------- sorting

  predicate SortedByBlock(s: seq<LocalizedLog>) {
    forall i, j :: 0 <= i < j < |s| ==> s[i].blockNumber <= s[j].blockNumber
  }

  function InBlock(r: nat): LocalizedLog -> bool {
    (l: LocalizedLog) => l.blockNumber == r
  }

  function InRound(r: nat): Snapshot -> bool {
    (s: Snapshot) => s.round == r
  }

  function Insert(x: LocalizedLog, s: seq<LocalizedLog>): seq<LocalizedLog> {
    if s == [] || x.blockNumber <= s[0].blockNumber then [x] + s else [s[0]] + Insert(x, s[1..])
  }

  /** A sort by block number; logs of one block keep their order. */
  function SortByBlock(s: seq<LocalizedLog>): seq<LocalizedLog> {
    if s == [] then [] else Insert(s[0], SortByBlock(s[1..]))
  }

  ghost predicate SamePerBlock(s: seq<LocalizedLog>, t: seq<LocalizedLog>) {
    forall r :: Select(InBlock(r), s) == Select(InBlock(r), t)
  }

  lemma {:induction false} InsertKeepsLogs(x: LocalizedLog, s: seq<LocalizedLog>)
    ensures multiset(Insert(x, s)) == multiset(s) + multiset{x}
  {
    if s != [] && x.blockNumber > s[0].blockNumber {
      InsertKeepsLogs(x, s[1..]);
      assert s == [s[0]] + s[1..];
    }
  }

  lemma {:induction false} InsertSorts(x: LocalizedLog, s: seq<LocalizedLog>)
    requires SortedByBlock(s)
    ensures SortedByBlock(Insert(x, s))
  {
    if s != [] && x.blockNumber > s[0].blockNumber {
      var rest := Insert(x, s[1..]);
      InsertSorts(x, s[1..]);
      InsertKeepsLogs(x, s[1..]);
      forall l | l in rest ensures s[0].blockNumber <= l.blockNumber {
        assert l in multiset(rest);
        if l != x {
          assert l in s[1..];
        }
      }
    }
  }

  lemma {:induction false} InsertIsStable(x: LocalizedLog, s: seq<LocalizedLog>, r: nat)
    ensures Select(InBlock(r), Insert(x, s)) == Select(InBlock(r), [x] + s)
  {
    if s != [] && x.blockNumber > s[0].blockNumber {
      InsertIsStable(x, s[1..], r);
      assert s == [s[0]] + s[1..];
      SwapSelect(x, s[0], s[1..], Insert(x, s[1..]), r);
    }
  }

  lemma {:induction false} SwapSelect(
      x: LocalizedLog, y: LocalizedLog, s: seq<LocalizedLog>, rest: seq<LocalizedLog>, r: nat)
    requires x.blockNumber != y.blockNumber
    requires Select(InBlock(r), rest) == Select(InBlock(r), [x] + s)
    ensures Select(InBlock(r), [y] + rest) == Select(InBlock(r), [x] + ([y] + s))
  {
    SelectCons(InBlock(r), y, rest);
    SelectCons(InBlock(r), x, s);
    SelectCons(InBlock(r), y, s);
    SelectCons(InBlock(r), x, [y] + s);
  }

  /** The sort is sorted, a permutation, and stable. */
  lemma {:induction false} SortIsStable(s: seq<LocalizedLog>)
    ensures SortedByBlock(SortByBlock(s))
    ensures multiset(SortByBlock(s)) == multiset(s)
    ensures SamePerBlock(SortByBlock(s), s)
  {
    if s != [] {
      var rest := SortByBlock(s[1..]);
      SortIsStable(s[1..]);
      InsertSorts(s[0], rest);
      InsertKeepsLogs(s[0], rest);
      assert s == [s[0]] + s[1..];
      forall r ensures Select(InBlock(r), SortByBlock(s)) == Select(InBlock(r), s) {
        InsertIsStable(s[0], rest, r);
        SelectCons(InBlock(r), s[0], rest);
      }
    }
  }

  lemma {:induction false} HeadOfBlock(s: seq<LocalizedLog>, r: nat)
    requires s != []
    ensures Select(InBlock(r), s) == (if s[0].blockNumber == r then [s[0]] else []) + Select(InBlock(r), s[1..])
    ensures Select(InBlock(r), s[1..]) == Select(InBlock(r), s)[(if s[0].blockNumber == r then 1 else 0)..]
  {
  }

  lemma {:induction false} FirstIsNotLater(a: seq<LocalizedLog>, b: seq<LocalizedLog>)
    requires a != [] && SortedByBlock(b)
    requires Select(InBlock(a[0].blockNumber), a) == Select(InBlock(a[0].blockNumber), b)
    ensures b != [] && b[0].blockNumber <= a[0].blockNumber
  {
    HeadOfBlock(a, a[0].blockNumber);
    SelectMember(InBlock(a[0].blockNumber), b, a[0]);
  }

  /** The first logs of two sorted sequences with the same logs per block. */
  lemma {:induction false} SameHead(a: seq<LocalizedLog>, b: seq<LocalizedLog>)
    requires SortedByBlock(a) && SortedByBlock(b) && a != []
    requires SamePerBlock(a, b)
    ensures b != [] && a[0] == b[0]
  {
    FirstIsNotLater(a, b);
    FirstIsNotLater(b, a);
    HeadOfBlock(a, a[0].blockNumber);
    HeadOfBlock(b, a[0].blockNumber);
  }

  /** Sorted sequences with the same logs per block, in the same order, are equal. */
  lemma {:induction false} SortedUnique(a: seq<LocalizedLog>, b: seq<LocalizedLog>)
    requires SortedByBlock(a) && SortedByBlock(b)
    requires SamePerBlock(a, b)
    ensures a == b
  {
    if a == [] {
      if b != [] {
        SameHead(b, a);
        assert false;
      }
    } else {
      SameHead(a, b);
      forall r ensures Select(InBlock(r), a[1..]) == Select(InBlock(r), b[1..]) {
        HeadOfBlock(a, r);
        HeadOfBlock(b, r);
      }
      SortedUnique(a[1..], b[1..]);
    }
  }
}
