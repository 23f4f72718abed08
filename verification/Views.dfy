/**
 The gateway's views of one transaction: by hash, as a receipt, inside its block,
 and through its logs.
 */
module Views {
  import opened Basics
  import opened Runtime
  import opened BatchLaws
  import opened BatchOutcomes
  import opened LogIndex
  import opened IndexLaws

  datatype ViewError = NotAnEthereumTransaction | UndecodableInput | UndecodableOutput | ReceiptNotAvailable

  datatype LocalizedTx = LocalizedTx(tx: Transaction, blockNumber: nat, blockHash: Hash, transactionIndex: nat)

  datatype LocalizedReceipt = LocalizedReceipt(
    transactionHash: Hash, transactionIndex: nat, blockHash: Hash, blockNumber: nat,
    cumulativeGasUsed: nat, gasUsed: nat, contractAddress: Option<Address>,
    logs: seq<LocalizedLog>, logBloom: Bytes, statusCode: byte)

  /** The library's address of a contract created at a given height. */
  type AddressScheme = (nat, Transaction) -> Address

  function TransactionOf(codec: Codec, s: Snapshot): Result<LocalizedTx, ViewError> {
    match codec.parseCall(s.raw)
    case None => Err(UndecodableInput)
    case Some(call) =>
      if call.method_ != METHOD_TX then Err(NotAnEthereumTransaction)
      else match codec.parseArgs(call.args)
        case None => Err(UndecodableInput)
        case Some(bytes) =>
          match codec.parseTx(bytes)
          case None => Err(UndecodableInput)
          case Some(tx) => Ok(LocalizedTx(tx, s.round, s.blockHash, s.index))
  }

  function ReceiptOf(codec: Codec, scheme: AddressScheme, s: Snapshot): Result<LocalizedReceipt, ViewError> {
    match s.output
    case Error(_) => Err(ReceiptNotAvailable)
    case Success(CheckedOnly) => Err(UndecodableOutput)
    case Success(Executed(res)) =>
      match TransactionOf(codec, s)
      case Err(e) => Err(e)
      case Ok(t) =>
        Ok(LocalizedReceipt(t.tx.hash, t.transactionIndex, t.blockHash, t.blockNumber,
                            res.cumulativeGasUsed, res.gasUsed,
                            if t.tx.action.Create? then Some(scheme(t.blockNumber, t.tx)) else None,
                            Localize(s, t.tx.hash, res.logs), res.logBloom, res.statusCode))
  }

  lemma {:induction false} ViewDecodes(codec: Codec, s: Snapshot)
    ensures GatewayDecode(codec, s.raw).Some? <==> TransactionOf(codec, s).Ok?
    ensures TransactionOf(codec, s).Ok? ==>
      TransactionOf(codec, s).value == LocalizedTx(GatewayDecode(codec, s.raw).value, s.round, s.blockHash, s.index)
    ensures TransactionOf(codec, s) == Err(NotAnEthereumTransaction) <==>
      codec.parseCall(s.raw).Some? && codec.parseCall(s.raw).value.method_ != METHOD_TX
    ensures TransactionOf(codec, s).Err? ==>
      TransactionOf(codec, s).error in {NotAnEthereumTransaction, UndecodableInput}
  {
  }

  // ----------------------------------------------------------------- by hash

  /** A transaction found through its hash tag has a receipt, the receipt is under
      that hash, and no other transaction of the same round carries the tag. */
  lemma {:induction false} FoundByHashHasReceipt(c: Chain, scheme: AddressScheme, r: nat, i: nat, h: Hash)
    requires Valid(c) && r < |c.blocks| && i < |c.blocks[r].txs|
    requires Tag(TAG_TX_HASH, h) in SnapshotAt(c, r, i).tags
    ensures GatewayDecode(c.codec, c.blocks[r].txs[i].raw).Some?
    ensures var v := ReceiptOf(c.codec, scheme, SnapshotAt(c, r, i));
      && v.Ok?
      && v.value.transactionHash == h
      && v.value.transactionIndex == i
      && v.value.blockNumber == r
      && (v.value.contractAddress.None? <==> GatewayDecode(c.codec, c.blocks[r].txs[i].raw).value.action.CallTo?)
    ensures forall j :: 0 <= j < |c.blocks[r].txs| && j != i ==> Tag(TAG_TX_HASH, h) !in SnapshotAt(c, r, j).tags
  {
    HashTagIsOwn(c, r, i, h);
    SuccessIsTagged(c, r, i);
    ViewDecodes(c.codec, SnapshotAt(c, r, i));
  }

  lemma {:induction false} HashTagIsOwn(c: Chain, r: nat, i: nat, h: Hash)
    requires Valid(c) && r < |c.blocks| && i < |c.blocks[r].txs|
    requires Tag(TAG_TX_HASH, h) in c.blocks[r].txs[i].result.tags
    ensures Succeeded(c.blocks[r].txs[i].result)
    ensures DecodeTransaction(c.codec, c.blocks[r].txs[i].raw).Ok?
    ensures DecodeTransaction(c.codec, c.blocks[r].txs[i].raw).value.tx.hash == h
    ensures forall j :: 0 <= j < |c.blocks[r].txs| && j != i ==> Tag(TAG_TX_HASH, h) !in c.blocks[r].txs[j].result.tags
  {
    var b := c.blocks[r];
    assert BlockOk(c, r);
    HashIndexIsPartialFunction(c.machine, BlockItems(c, b), InitialState(b.context, b.store), h);
    SuccessIsTagged(c, r, i);
    assert BlockItems(c, b)[i].call == DecodeTransaction(c.codec, b.txs[i].raw);
  }

  /** On a chain of executed batches, a call has a receipt iff it succeeded; without one,
      the error says that none is available. */
  lemma {:induction false} ReceiptExistsIff(c: Chain, scheme: AddressScheme, r: nat, i: nat)
    requires Valid(c) && r < |c.blocks| && i < |c.blocks[r].txs|
    ensures var v := ReceiptOf(c.codec, scheme, SnapshotAt(c, r, i));
      && (v.Ok? <==> Succeeded(c.blocks[r].txs[i].result))
      && (v == Err(ReceiptNotAvailable) <==> c.blocks[r].txs[i].result.output.Error?)
  {
    var b := c.blocks[r];
    assert BlockOk(c, r);
    BatchOutputsAreExact(c.codec, c.machine, false, Batch(b), b.decodeAborts, b.runAborts,
                         InitialState(b.context, b.store), i);
    SuccessIsTagged(c, r, i);
    ViewDecodes(c.codec, SnapshotAt(c, r, i));
  }

  /** What the machine answered call `i` of block `r`: it ran on the store the earlier calls
      reached, in the environment of block `r`. */
  ghost function Applying(c: Chain, r: nat, i: nat, stx: SignedTx): ApplyResult
    requires LawfulMachine(c.machine) && 0 < r < |c.blocks| && i < |c.blocks[r].txs|
  {
    var b := c.blocks[r];
    var store := Run(c.machine, false, BlockItems(c, b)[..i], InitialState(b.context, b.store)).state.store;
    var spent := SumGas(Execution(c, b).result[..i]);
    c.machine(store, Env(r, b.context.timestamp, BLOCK_GAS_LIMIT, [b.context.previousHash], spent), stx)
  }

  lemma {:induction false} BlockFacts(c: Chain, r: nat, i: nat)
    requires Valid(c) && 0 < r < |c.blocks| && i < |c.blocks[r].txs|
    ensures c.blocks[r].context.round + 1 == r
    ensures c.blocks[r].txs[i].result == Execution(c, c.blocks[r]).result[i]
  {
    assert BlockOk(c, r);
  }

  lemma {:induction false} AppliedInBlock(c: Chain, r: nat, i: nat)
    requires LawfulMachine(c.machine) && 0 < r < |c.blocks| && i < |c.blocks[r].txs|
    requires c.blocks[r].context.round + 1 == r
    requires Succeeded(Execution(c, c.blocks[r]).result[i])
    ensures var call := BlockItems(c, c.blocks[r])[i].call;
      call.Ok? && ResultFrom(ResultOf(Execution(c, c.blocks[r]).result[i]), Applying(c, r, i, call.value))
  {
    var b := c.blocks[r];
    SuccessIsTheMachines(c.machine, BlockItems(c, b), b.context, b.store, i);
  }

  lemma {:induction false} SuccessIsApplied(c: Chain, r: nat, i: nat)
    requires Valid(c) && 0 < r < |c.blocks| && i < |c.blocks[r].txs| && Succeeded(c.blocks[r].txs[i].result)
    ensures var d := DecodeTransaction(c.codec, c.blocks[r].txs[i].raw);
      d.Ok? && ResultFrom(ResultOf(c.blocks[r].txs[i].result), Applying(c, r, i, d.value))
  {
    BlockFacts(c, r, i);
    AppliedInBlock(c, r, i);
    SuccessIsTagged(c, r, i);
    assert BlockItems(c, c.blocks[r])[i].call.Ok?;
  }

  /** A receipt is the machine's own: status, bloom, logs and gas are those of the machine's
      answer, block and position are those of the call, and a creation has the address the
      scheme gives it. */
  lemma {:induction false} ReceiptIsTheMachines(c: Chain, scheme: AddressScheme, r: nat, i: nat)
    requires Valid(c) && 0 < r < |c.blocks| && i < |c.blocks[r].txs|
    requires ReceiptOf(c.codec, scheme, SnapshotAt(c, r, i)).Ok?
    ensures var d := DecodeTransaction(c.codec, c.blocks[r].txs[i].raw);
      && d.Ok?
      && var v := ReceiptOf(c.codec, scheme, SnapshotAt(c, r, i)).value;
      var a, tx := Applying(c, r, i, d.value), d.value.tx;
      && a.Applied?
      && v.statusCode == a.receipt.statusCode && v.logBloom == a.receipt.logBloom
      && v.cumulativeGasUsed == a.receipt.gasUsed
      && v.transactionHash == tx.hash && v.transactionIndex == i
      && v.blockHash == c.blocks[r].hash && v.blockNumber == r
      && v.contractAddress == (if tx.action == Create then Some(scheme(r, tx)) else None)
      && |v.logs| == |a.receipt.logs|
      && forall j :: 0 <= j < |v.logs| ==>
           v.logs[j] == LocalizedLog(a.receipt.logs[j], c.blocks[r].hash, r, tx.hash, i, j, j)
  {
    ReceiptExistsIff(c, scheme, r, i);
    SuccessIsApplied(c, r, i);
    SuccessIsTagged(c, r, i);
    ViewDecodes(c.codec, SnapshotAt(c, r, i));
  }

  /** The cumulative gas on a receipt is the gas of all successes of its block up to it. */
  lemma {:induction false} ReceiptGasAddsUp(c: Chain, scheme: AddressScheme, r: nat, i: nat)
    requires Valid(c) && r < |c.blocks| && i < |c.blocks[r].txs|
    requires ReceiptOf(c.codec, scheme, SnapshotAt(c, r, i)).Ok?
    ensures var v := ReceiptOf(c.codec, scheme, SnapshotAt(c, r, i)).value;
      var rs := Execution(c, c.blocks[r]).result;
      v.cumulativeGasUsed == SumGas(rs[..i + 1]) == SumGas(rs[..i]) + v.gasUsed
  {
    var b := c.blocks[r];
    assert BlockOk(c, r);
    assert Succeeded(b.txs[i].result);
    GasAt(c.machine, false, BlockItems(c, b), InitialState(b.context, b.store), i);
  }

  // ------------------------------------------------------------------ by log

  lemma {:induction false} ScanBlockMember(c: Chain, f: LogFilter, r: nat, l: LocalizedLog)
    requires r < |c.blocks|
    ensures l in ScanBlock(c, f, r) <==> exists i: nat :: i < |c.blocks[r].txs| && l in ScanTx(c, f, r, i)
  {
    var g, n := CallScan(c, f, r), |c.blocks[r].txs|;
    ConcatMember(g, 0, n, l);
    if i: nat :| i < n && l in ScanTx(c, f, r, i) {
      assert 0 <= i < n && l in g(i);
    }
    if i: nat :| 0 <= i < n && l in g(i) {
      assert l in ScanTx(c, f, r, i);
    }
  }

  lemma {:induction false} ScanMember(c: Chain, f: LogFilter, lo: nat, hi: nat, l: LocalizedLog)
    requires hi < |c.blocks|
    ensures l in Scan(c, f, lo, hi) <==> exists r: nat :: lo <= r <= hi && l in ScanBlock(c, f, r)
  {
    var g := BlockScan(c, f);
    ConcatMember(g, lo, hi + 1, l);
    if r: nat :| lo <= r <= hi && l in ScanBlock(c, f, r) {
      assert lo <= r < hi + 1 && l in g(r);
    }
    if r: nat :| lo <= r < hi + 1 && l in g(r) {
      assert l in ScanBlock(c, f, r);
    }
  }

  ghost predicate IsReceiptLog(c: Chain, scheme: AddressScheme, r: nat, i: nat, l: LocalizedLog)
    requires r < |c.blocks| && i < |c.blocks[r].txs|
  {
    var v := ReceiptOf(c.codec, scheme, SnapshotAt(c, r, i));
    v.Ok? && l.transactionLogIndex < |v.value.logs| && v.value.logs[l.transactionLogIndex] == l
  }

  lemma {:induction false} ScanTxIsReceiptLogs(
      c: Chain, scheme: AddressScheme, f: LogFilter, r: nat, i: nat, l: LocalizedLog)
    requires Valid(c) && r < |c.blocks| && i < |c.blocks[r].txs|
    ensures l in ScanTx(c, f, r, i) <==> IsReceiptLog(c, scheme, r, i, l) && Matches(f, l.entry)
    ensures l in ScanTx(c, f, r, i) ==> l.blockNumber == r && l.transactionIndex == i
  {
    var s := SnapshotAt(c, r, i);
    ViewDecodes(c.codec, s);
    DecodeIsScan(c, f, r, i);
    if GatewayDecode(c.codec, s.raw).Some? && s.output.Success? && s.output.value.Executed? {
      var logs := Localize(s, GatewayDecode(c.codec, s.raw).value.hash, s.output.value.result.logs);
      SelectMember(Matcher(f), logs, l);
      assert l in logs ==> logs[l.transactionLogIndex] == l;
    }
  }

  /** The logs of a range are exactly the matching entries of its receipts, each at
      its `transaction_log_index` in the receipt of the call it names. */
  lemma {:induction false} LogsAreReceiptLogs(
      c: Chain, scheme: AddressScheme, f: LogFilter, lo: nat, hi: nat, l: LocalizedLog)
    requires Valid(c) && hi < |c.blocks|
    ensures l in Scan(c, f, lo, hi) <==>
      && lo <= l.blockNumber <= hi
      && l.transactionIndex < |c.blocks[l.blockNumber].txs|
      && IsReceiptLog(c, scheme, l.blockNumber, l.transactionIndex, l)
      && Matches(f, l.entry)
  {
    ScanMember(c, f, lo, hi, l);
    if l in Scan(c, f, lo, hi) {
      var r: nat :| lo <= r <= hi && l in ScanBlock(c, f, r);
      ScanBlockMember(c, f, r, l);
      var i: nat :| i < |c.blocks[r].txs| && l in ScanTx(c, f, r, i);
      ScanTxIsReceiptLogs(c, scheme, f, r, i, l);
    } else if lo <= l.blockNumber <= hi && l.transactionIndex < |c.blocks[l.blockNumber].txs| {
      ScanTxIsReceiptLogs(c, scheme, f, l.blockNumber, l.transactionIndex, l);
      ScanBlockMember(c, f, l.blockNumber, l);
    }
  }

  // ---------------------------------------------------------------- by block

  /** How many of the first `n` calls the gateway decodes. */
  function Decodable(codec: Codec, batch: seq<Bytes>, n: nat): (k: nat)
    requires n <= |batch|
    ensures k <= n
  {
    if n == 0 then 0
    else Decodable(codec, batch, n - 1) + if GatewayDecode(codec, batch[n - 1]).Some? then 1 else 0
  }

  lemma {:induction false} DecodableFull(codec: Codec, batch: seq<Bytes>, n: nat)
    requires n <= |batch|
    ensures Decodable(codec, batch, n) == n <==> forall j :: 0 <= j < n ==> GatewayDecode(codec, batch[j]).Some?
  {
    if n > 0 {
      DecodableFull(codec, batch, n - 1);
    }
  }

  /** The transactions listed for the first `n` calls: undecodable calls are dropped and
      the rest renumbered. */
  function RichTxs(codec: Codec, round: nat, hash: Hash, batch: seq<Bytes>, n: nat): seq<LocalizedTx>
    requires n <= |batch|
  {
    if n == 0 then []
    else
      var before := RichTxs(codec, round, hash, batch, n - 1);
      match GatewayDecode(codec, batch[n - 1])
      case None => before
      case Some(tx) => before + [LocalizedTx(tx, round, hash, |before|)]
  }

  method RichTransactions(codec: Codec, round: nat, hash: Hash, batch: seq<Bytes>) returns (txs: seq<LocalizedTx>)
    ensures txs == RichTxs(codec, round, hash, batch, |batch|)
  {
    txs := [];
    for n := 0 to |batch|
      invariant txs == RichTxs(codec, round, hash, batch, n)
    {
      var decoded := GatewayDecode(codec, batch[n]);
      if decoded.Some? {
        txs := txs + [LocalizedTx(decoded.value, round, hash, |txs|)];
      }
    }
  }

  /** Call `i` is listed under its place among the decodable calls. */
  ghost predicate Listed(codec: Codec, round: nat, hash: Hash, batch: seq<Bytes>, txs: seq<LocalizedTx>, i: nat)
    requires i < |batch| && GatewayDecode(codec, batch[i]).Some?
  {
    var k := Decodable(codec, batch, i);
    k < |txs| && txs[k] == LocalizedTx(GatewayDecode(codec, batch[i]).value, round, hash, k)
  }

  lemma {:induction false} CountListed(codec: Codec, round: nat, hash: Hash, batch: seq<Bytes>, n: nat)
    requires n <= |batch|
    ensures |RichTxs(codec, round, hash, batch, n)| == Decodable(codec, batch, n)
  {
    if n > 0 {
      CountListed(codec, round, hash, batch, n - 1);
    }
  }

  lemma {:induction false} ListedAt(codec: Codec, round: nat, hash: Hash, batch: seq<Bytes>, n: nat, i: nat)
    requires i < n <= |batch| && GatewayDecode(codec, batch[i]).Some?
    ensures Listed(codec, round, hash, batch, RichTxs(codec, round, hash, batch, n), i)
    decreases n
  {
    if i < n - 1 {
      ListedAt(codec, round, hash, batch, n - 1, i);
    } else {
      CountListed(codec, round, hash, batch, i);
    }
  }

  /** The block lists exactly the decodable calls, each under its place among them. */
  lemma {:induction false} BlockListsDecodable(codec: Codec, round: nat, hash: Hash, batch: seq<Bytes>, n: nat)
    requires n <= |batch|
    ensures var txs := RichTxs(codec, round, hash, batch, n);
      && |txs| == Decodable(codec, batch, n)
      && forall i :: 0 <= i < n && GatewayDecode(codec, batch[i]).Some? ==> Listed(codec, round, hash, batch, txs, i)
  {
    forall i | 0 <= i < n && GatewayDecode(codec, batch[i]).Some?
      ensures Listed(codec, round, hash, batch, RichTxs(codec, round, hash, batch, n), i)
    {
      ListedAt(codec, round, hash, batch, n, i);
    }
    CountListed(codec, round, hash, batch, n);
  }

  /** Where the views disagree: the transaction and receipt views number a call by its
      place in the batch, the block by its place among the decodable calls.  For every
      decodable call, successful or not, the block's number is never the larger, and they
      agree iff no undecodable call comes before. */
  lemma {:induction false} BlockIndexAgreesIff(c: Chain, scheme: AddressScheme, r: nat, i: nat)
    requires r < |c.blocks| && i < |c.blocks[r].txs|
    requires TransactionOf(c.codec, SnapshotAt(c, r, i)).Ok?
    ensures var batch := Batch(c.blocks[r]); var v := TransactionOf(c.codec, SnapshotAt(c, r, i)).value;
      var txs := RichTxs(c.codec, r, c.blocks[r].hash, batch, |batch|);
      var k := Decodable(c.codec, batch, i);
      && k < |txs| && txs[k].tx == v.tx
      && txs[k].transactionIndex <= v.transactionIndex
      && (txs[k].transactionIndex == v.transactionIndex <==>
            forall j :: 0 <= j < i ==> GatewayDecode(c.codec, batch[j]).Some?)
      && var receipt := ReceiptOf(c.codec, scheme, SnapshotAt(c, r, i));
      receipt.Ok? ==> receipt.value.transactionIndex == v.transactionIndex
  {
    var batch := Batch(c.blocks[r]);
    ViewDecodes(c.codec, SnapshotAt(c, r, i));
    DecodableFull(c.codec, batch, i);
    BlockListsDecodable(c.codec, r, c.blocks[r].hash, batch, |batch|);
  }
}
