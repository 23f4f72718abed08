/**
 Batch execution: decoding and checking of raw calls, execution of one
 transaction against the block context, and the dispatcher's two passes over a
 batch.

 Library code enters as function values: `Codec` for the CBOR and RLP decoders
 and signature recovery, `Machine` for `State::apply`.  The loads of the abort
 flag are parameters, one boolean per load.
 */
module Runtime {
  import opened Basics

  const BLOCK_GAS_LIMIT: nat := 16_000_000
  const MIN_GAS_PRICE: nat := 1
  const METHOD_TX: string := "tx"

  const TAG_TX_HASH: string := "heth"
  const TAG_LOG_ADDRESS: string := "ladd"
  const TAG_LOG_TOPICS: seq<string> := ["ltp1", "ltp2", "ltp3", "ltp4"]

  type Hash = Bytes
  type Address = Bytes
  type Topic = Bytes

  /** The key-value tree behind the Ethereum state. */
  type Store = map<Bytes, Bytes>

  datatype Action = Create | CallTo(to: Address)

  datatype Transaction = Transaction(
    hash: Hash, action: Action, nonce: nat, gas: nat, gasPrice: nat, value: nat, data: Bytes)

  datatype SignedTx = SignedTx(tx: Transaction, sender: Address)

  datatype Call = Call(method_: string, args: Bytes)

  datatype Codec = Codec(
    parseCall: Bytes -> Option<Call>,
    parseArgs: Bytes -> Option<Bytes>,
    parseTx: Bytes -> Option<Transaction>,
    recover: Transaction -> Option<Address>)

  datatype Error =
    | BatchAborted
    | BadCall
    | MethodNotFound(method_: string)
    | BadArgs
    | BadRlp
    | TooMuchGas
    | BadSignature
    | GasPriceTooLow
    | CheckOnlySuccess
    | DuplicateTransaction
    | BlockGasLimitReached
    | ExecutionFailure(message: string)

  datatype Log = Log(address: Address, topics: seq<Topic>, data: Bytes)

  datatype Receipt = Receipt(gasUsed: nat, logBloom: Bytes, logs: seq<Log>, statusCode: byte)

  datatype ApplyResult =
    | Applied(store: Store, receipt: Receipt, output: Bytes)
    | Failed(message: string)

  datatype Header = Header(round: nat, timestamp: nat, previousHash: Hash)

  datatype Env = Env(number: nat, timestamp: nat, gasLimit: nat, lastHashes: seq<Hash>, gasUsed: nat)

  type Machine = (Store, Env, SignedTx) -> ApplyResult

  datatype ExecutionResult = ExecutionResult(
    cumulativeGasUsed: nat, gasUsed: nat, logBloom: Bytes, logs: seq<Log>, statusCode: byte, output: Bytes)

  datatype Tag = Tag(key: string, value: Bytes)

  datatype Payload = Executed(result: ExecutionResult) | CheckedOnly

  datatype TxnOutput = Success(value: Payload) | Error(error: Error)

  datatype TxResult = TxResult(output: TxnOutput, tags: seq<Tag>)

  /** What `State::apply` promises: the receipt's gas is cumulative over the block
      and one transaction uses at most its own gas. */
  ghost predicate LawfulMachine(m: Machine) {
    forall s, e, t :: m(s, e, t).Applied? ==>
      e.gasUsed <= m(s, e, t).receipt.gasUsed <= e.gasUsed + t.tx.gas
  }

  // ---------------------------------------------------------------- decoding

  /** Checks a raw Ethereum transaction before it may run. */
  function CheckTx(codec: Codec, raw: Bytes): (r: Result<SignedTx, Error>)
  {
    match codec.parseTx(raw)
    case None => Err(BadRlp)
    case Some(tx) =>
      if tx.gas > BLOCK_GAS_LIMIT then Err(TooMuchGas)
      else match codec.recover(tx)
        case None => Err(BadSignature)
        case Some(sender) =>
          if tx.gasPrice < MIN_GAS_PRICE then Err(GasPriceTooLow) else Ok(SignedTx(tx, sender))
  }

  function DecodeTransaction(codec: Codec, raw: Bytes): (r: Result<SignedTx, Error>) {
    match codec.parseCall(raw)
    case None => Err(BadCall)
    case Some(call) =>
      if call.method_ != METHOD_TX then Err(MethodNotFound(call.method_))
      else match codec.parseArgs(call.args)
        case None => Err(BadArgs)
        case Some(bytes) => CheckTx(codec, bytes)
  }

  function DecodeUnlessAborted(codec: Codec, aborted: bool, raw: Bytes): Result<SignedTx, Error> {
    if aborted then Err(BatchAborted) else DecodeTransaction(codec, raw)
  }

  /** What checking answers for a call: `None` is acceptance. */
  function Verdict(codec: Codec, aborted: bool, raw: Bytes): Option<Error> {
    match DecodeUnlessAborted(codec, aborted, raw)
    case Ok(_) => None
    case Err(e) => Some(e)
  }

  // --------------------------------------------------------------- execution

  /** The state one batch works on: the block context and the pending tags. */
  datatype BatchState = BatchState(store: Store, env: Env, executed: set<Hash>, tags: seq<Tag>)

  ghost predicate GasBounded(s: BatchState) {
    s.env.gasUsed <= BLOCK_GAS_LIMIT
  }

  function InitialEnv(h: Header): Env {
    Env(h.round + 1, h.timestamp, BLOCK_GAS_LIMIT, [h.previousHash], 0)
  }

  function TopicTags(topics: seq<Topic>): (r: seq<Tag>)
    ensures |r| == Min(|topics|, 4)
    ensures forall i :: 0 <= i < |r| ==> r[i] == Tag(TAG_LOG_TOPICS[i], topics[i])
  {
    seq(Min(|topics|, 4), i requires 0 <= i < Min(|topics|, 4) => Tag(TAG_LOG_TOPICS[i], topics[i]))
  }

  function LogTags(log: Log): seq<Tag> {
    [Tag(TAG_LOG_ADDRESS, log.address)] + TopicTags(log.topics)
  }

  function TxTags(hash: Hash, logs: seq<Log>): seq<Tag> {
    [Tag(TAG_TX_HASH, hash)] + FlatMap(LogTags, logs)
  }

  lemma {:induction false} TagsSnoc(start: seq<Tag>, logs: seq<Log>, i: nat)
    requires i < |logs|
    ensures start + FlatMap(LogTags, logs[..i]) + LogTags(logs[i]) == start + FlatMap(LogTags, logs[..i + 1])
  {
    FlatMapSnoc(LogTags, logs, i);
    var a, b := FlatMap(LogTags, logs[..i]), LogTags(logs[i]);
    assert start + a + b == start + (a + b);
  }

  datatype Step<T> = Step(state: BatchState, result: T)

  /** Execution of one checked transaction. */
  ghost function TxStep(m: Machine, checkOnly: bool, tx: SignedTx, s: BatchState)
    : (r: Step<Result<ExecutionResult, Error>>)
    requires LawfulMachine(m) && GasBounded(s)
    ensures GasBounded(r.state)
  {
    if checkOnly then Step(s, Err(CheckOnlySuccess))
    else if tx.tx.hash in s.executed then Step(s, Err(DuplicateTransaction))
    else if tx.tx.gas > BLOCK_GAS_LIMIT - s.env.gasUsed then Step(s, Err(BlockGasLimitReached))
    else match m(s.store, s.env, tx)
      case Failed(msg) => Step(s, Err(ExecutionFailure(msg)))
      case Applied(store, rc, out) =>
        Step(BatchState(store, s.env.(gasUsed := rc.gasUsed), s.executed + {tx.tx.hash},
                        s.tags + TxTags(tx.tx.hash, rc.logs)),
             Ok(ExecutionResult(rc.gasUsed, rc.gasUsed - s.env.gasUsed, rc.logBloom, rc.logs, rc.statusCode, out)))
  }

  /** The output bytes of an error, before encoding. */
  function SerializeError(e: Error): TxnOutput {
    if e == CheckOnlySuccess then Success(CheckedOnly) else Error(e)
  }

  /** One decoded (or failed) call together with the abort flag it will see. */
  datatype Item = Item(aborted: bool, call: Result<SignedTx, Error>)

  ghost function ItemStep(m: Machine, checkOnly: bool, item: Item, s: BatchState): (r: Step<TxResult>)
    requires LawfulMachine(m) && GasBounded(s)
    ensures GasBounded(r.state)
  {
    if item.aborted then Step(s, TxResult(SerializeError(BatchAborted), []))
    else match item.call
      case Err(e) => Step(s, TxResult(SerializeError(e), []))
      case Ok(tx) =>
        var t := TxStep(m, checkOnly, tx, s);
        match t.result
        case Ok(res) => Step(t.state.(tags := []), TxResult(Success(Executed(res)), t.state.tags))
        case Err(e) => Step(t.state, TxResult(SerializeError(e), []))
  }

  /** The whole second pass: items in order, one result each. */
  ghost function Run(m: Machine, checkOnly: bool, items: seq<Item>, s: BatchState): (r: Step<seq<TxResult>>)
    requires LawfulMachine(m) && GasBounded(s)
    ensures GasBounded(r.state) && |r.result| == |items|
  {
    if items == [] then Step(s, [])
    else
      var before := Run(m, checkOnly, items[..|items| - 1], s);
      var last := ItemStep(m, checkOnly, items[|items| - 1], before.state);
      Step(last.state, before.result + [last.result])
  }

  lemma {:induction false} RunSnoc(m: Machine, checkOnly: bool, items: seq<Item>, s: BatchState, i: nat)
    requires LawfulMachine(m) && GasBounded(s) && i < |items|
    ensures var before := Run(m, checkOnly, items[..i], s);
      var last := ItemStep(m, checkOnly, items[i], before.state);
      Run(m, checkOnly, items[..i + 1], s) == Step(last.state, before.result + [last.result])
  {
    assert items[..i + 1][..i] == items[..i];
  }

  function Items(codec: Codec, batch: seq<Bytes>, decodeAborts: nat -> bool, runAborts: nat -> bool): (r: seq<Item>)
    ensures |r| == |batch|
    ensures forall i :: 0 <= i < |batch| ==>
      r[i] == Item(runAborts(i), DecodeUnlessAborted(codec, decodeAborts(i), batch[i]))
  {
    seq(|batch|, i requires 0 <= i < |batch| =>
      Item(runAborts(i), DecodeUnlessAborted(codec, decodeAborts(i), batch[i])))
  }

  function InitialState(header: Header, store: Store): BatchState {
    BatchState(store, InitialEnv(header), {}, [])
  }

  // ------------------------------------------------------ the mutable context

  class TxnContext {
    const header: Header
    const checkOnly: bool
    var store: Store
    var env: Env
    var executed: set<Hash>
    var tags: seq<Tag>

    ghost function View(): BatchState
      reads this
    {
      BatchState(store, env, executed, tags)
    }

    /** A context as the worker host hands it over: no tags emitted yet. */
    constructor (header: Header, checkOnly: bool, store: Store)
      ensures this.header == header && this.checkOnly == checkOnly
      ensures this.store == store && tags == []
    {
      this.header := header;
      this.checkOnly := checkOnly;
      this.store := store;
      env := InitialEnv(header);
      executed := {};
      tags := [];
    }

    method StartBatch()
      modifies this`env, this`executed
      ensures env == InitialEnv(header) && executed == {}
    {
      env := Env(header.round + 1, header.timestamp, BLOCK_GAS_LIMIT, [header.previousHash], 0);
      executed := {};
    }

    /** Commits the state; what is committed is the store the batch has reached. */
    method EndBatch() returns (committed: Store)
      ensures committed == store
    {
      committed := store;
    }

    method EmitTxnTag(key: string, value: Bytes)
      modifies this`tags
      ensures tags == old(tags) + [Tag(key, value)]
    {
      tags := tags + [Tag(key, value)];
    }

    method TakeTags() returns (taken: seq<Tag>)
      modifies this`tags
      ensures taken == old(tags) && tags == []
    {
      taken := tags;
      tags := [];
    }

    method EmitLogTags(log: Log)
      modifies this`tags
      ensures tags == old(tags) + LogTags(log)
    {
      EmitTxnTag(TAG_LOG_ADDRESS, log.address);
      ghost var start := tags;
      var k := 0;
      while k < |log.topics| && k < |TAG_LOG_TOPICS|
        invariant 0 <= k <= Min(|log.topics|, 4)
        invariant tags == start + TopicTags(log.topics)[..k]
      {
        EmitTxnTag(TAG_LOG_TOPICS[k], log.topics[k]);
        k := k + 1;
      }
      assert TopicTags(log.topics)[..k] == TopicTags(log.topics);
    }

    method EmitTxTags(hash: Hash, logs: seq<Log>)
      modifies this`tags
      ensures tags == old(tags) + TxTags(hash, logs)
    {
      EmitTxnTag(TAG_TX_HASH, hash);
      ghost var start := tags;
      for i := 0 to |logs|
        invariant tags == start + FlatMap(LogTags, logs[..i])
      {
        EmitLogTags(logs[i]);
        TagsSnoc(start, logs, i);
      }
      assert logs[..|logs|] == logs;
    }

    /** Executes one transaction; `Err` leaves the context as it was. */
    method ExecuteTx(m: Machine, tx: SignedTx) returns (r: Result<ExecutionResult, Error>)
      requires LawfulMachine(m) && GasBounded(View())
      modifies this
      ensures Step(View(), r) == TxStep(m, checkOnly, tx, old(View()))
      ensures r.Err? ==> View() == old(View())
    {
      if checkOnly {
        return Err(CheckOnlySuccess);
      }
      var hash := tx.tx.hash;
      if hash in executed {
        return Err(DuplicateTransaction);
      }
      var gasRemaining: nat := BLOCK_GAS_LIMIT - env.gasUsed;
      if tx.tx.gas > gasRemaining {
        return Err(BlockGasLimitReached);
      }
      var outcome := m(store, env, tx);
      if outcome.Failed? {
        return Err(ExecutionFailure(outcome.message));
      }
      store := outcome.store;
      executed := executed + {hash};
      var gasUsed: nat := outcome.receipt.gasUsed - env.gasUsed;
      env := env.(gasUsed := outcome.receipt.gasUsed);
      EmitTxTags(hash, outcome.receipt.logs);
      r := Ok(ExecutionResult(outcome.receipt.gasUsed, gasUsed, outcome.receipt.logBloom,
                              outcome.receipt.logs, outcome.receipt.statusCode, outcome.output));
    }
  }

  // -------------------------------------------------------------- dispatcher

  /** The first pass, shared by checking and executing a batch. */
  method DecodeBatch(codec: Codec, batch: seq<Bytes>, decodeAborts: nat -> bool)
    returns (calls: seq<Result<SignedTx, Error>>)
    ensures |calls| == |batch|
    ensures forall i :: 0 <= i < |batch| ==> calls[i] == DecodeUnlessAborted(codec, decodeAborts(i), batch[i])
  {
    calls := [];
    for i := 0 to |batch|
      invariant |calls| == i
      invariant forall j :: 0 <= j < i ==> calls[j] == DecodeUnlessAborted(codec, decodeAborts(j), batch[j])
    {
      if decodeAborts(i) {
        calls := calls + [Err(BatchAborted)];
      } else {
        calls := calls + [DecodeTransaction(codec, batch[i])];
      }
    }
  }

  /** Checks a batch: `None` is acceptance, and nothing is executed. */
  method CheckBatch(codec: Codec, ctx: TxnContext, batch: seq<Bytes>, aborts: nat -> bool)
    returns (verdicts: seq<Option<Error>>)
    modifies ctx
    ensures ctx.store == old(ctx.store) && ctx.tags == []
    ensures |verdicts| == |batch|
    ensures forall i :: 0 <= i < |batch| ==> verdicts[i] == Verdict(codec, aborts(i), batch[i])
  {
    ctx.StartBatch();
    var calls := DecodeBatch(codec, batch, aborts);
    var _ := ctx.EndBatch();
    var _ := ctx.TakeTags();
    verdicts := seq(|calls|, i requires 0 <= i < |calls| =>
      match calls[i] case Ok(_) => None case Err(e) => Some(e));
  }

  /** One item of the second pass; only a success takes the pending tags. */
  method ProcessCall(m: Machine, ctx: TxnContext, aborted: bool, call: Result<SignedTx, Error>) returns (r: TxResult)
    requires LawfulMachine(m) && GasBounded(ctx.View())
    modifies ctx
    ensures Step(ctx.View(), r) == ItemStep(m, ctx.checkOnly, Item(aborted, call), old(ctx.View()))
  {
    if aborted {
      return TxResult(SerializeError(BatchAborted), []);
    }
    match call
    case Err(e) =>
      r := TxResult(SerializeError(e), []);
    case Ok(tx) =>
      var response := ctx.ExecuteTx(m, tx);
      match response
      case Ok(res) =>
        var taken := ctx.TakeTags();
        r := TxResult(Success(Executed(res)), taken);
      case Err(e) =>
        r := TxResult(SerializeError(e), []);
  }

  /** Executes a batch on a fresh context and commits what it reached. */
  method ExecuteBatch(codec: Codec, m: Machine, ctx: TxnContext, batch: seq<Bytes>,
                      decodeAborts: nat -> bool, runAborts: nat -> bool)
    returns (results: seq<TxResult>, committed: Store)
    requires LawfulMachine(m) && ctx.tags == []
    modifies ctx
    ensures Step(ctx.View(), results) ==
      Run(m, ctx.checkOnly, Items(codec, batch, decodeAborts, runAborts), InitialState(ctx.header, old(ctx.store)))
    ensures committed == ctx.store
  {
    ctx.StartBatch();
    ghost var start := ctx.View();
    var calls := DecodeBatch(codec, batch, decodeAborts);
    ghost var items := Items(codec, batch, decodeAborts, runAborts);
    results := [];
    for i := 0 to |calls|
      invariant Step(ctx.View(), results) == Run(m, ctx.checkOnly, items[..i], start)
    {
      RunSnoc(m, ctx.checkOnly, items, start, i);
      var r := ProcessCall(m, ctx, runAborts(i), calls[i]);
      results := results + [r];
    }
    assert items[..|calls|] == items;
    committed := ctx.EndBatch();
  }
}
