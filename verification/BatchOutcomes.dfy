/**
 What each call of a batch is answered, from its raw bytes and the abort flags it
 meets, and the environment every transaction runs in.
 */
module BatchOutcomes {
  import opened Basics
  import opened Runtime
  import opened BatchLaws
  import opened LogIndex

  /** The call reaches execution: no abort in either pass, and every check passes. */
  ghost predicate Admitted(codec: Codec, raw: Bytes, decodeAborted: bool, runAborted: bool) {
    && !decodeAborted && !runAborted
    && var g := GatewayDecode(codec, raw);
    && g.Some? && g.value.gas <= BLOCK_GAS_LIMIT
    && codec.recover(g.value).Some? && g.value.gasPrice >= MIN_GAS_PRICE
  }

  ghost predicate DecodingError(e: Error) {
    e in {BadCall, BadArgs, BadRlp, TooMuchGas, BadSignature, GasPriceTooLow} || e.MethodNotFound?
  }

  lemma {:induction false} DecodingErrorsOnly(codec: Codec, raw: Bytes)
    ensures var d := DecodeTransaction(codec, raw);
      if d.Ok? then Admitted(codec, raw, false, false)
      else DecodingError(d.error) && !Admitted(codec, raw, false, false)
  {
    DecodeErrorsAreExact(codec, raw);
    var d := DecodeTransaction(codec, raw);
    if d.Ok? {
      RuntimeDecodesIff(codec, raw, d.value);
    }
  }

  /** The output of one item, by what it was decoded to and the flag it meets. */
  lemma {:induction false} ItemOutput(m: Machine, co: bool, item: Item, s: BatchState)
    requires LawfulMachine(m) && GasBounded(s)
    ensures var out := ItemStep(m, co, item, s).result.output;
      && (item.aborted ==> out == Error(BatchAborted))
      && (!item.aborted && item.call.Err? && item.call.error != CheckOnlySuccess ==> out == Error(item.call.error))
      && (!item.aborted && item.call.Ok? && co ==> out == Success(CheckedOnly))
      && (!item.aborted && item.call.Ok? && !co ==>
            || (out.Success? && out.value.Executed?)
            || out in {Error(DuplicateTransaction), Error(BlockGasLimitReached)}
            || (out.Error? && out.error.ExecutionFailure?))
  {
  }

  /** The answer to call `i` of any batch: the abort error iff the flag was up in one of
      the passes, its own decoding error iff it has one, the check-only success iff the
      context is check-only and the call was admitted, and otherwise an execution. */
  lemma {:induction false} BatchOutputsAreExact(
      codec: Codec, m: Machine, co: bool, batch: seq<Bytes>, decodeAborts: nat -> bool, runAborts: nat -> bool,
      s: BatchState, i: nat)
    requires LawfulMachine(m) && GasBounded(s) && i < |batch|
    ensures var out := Run(m, co, Items(codec, batch, decodeAborts, runAborts), s).result[i].output;
      var aborted := decodeAborts(i) || runAborts(i);
      && (out == Error(BatchAborted) <==> aborted)
      && (forall e :: DecodingError(e) ==>
            (out == Error(e) <==> !aborted && DecodeTransaction(codec, batch[i]) == Err(e)))
      && (out == Success(CheckedOnly) <==> co && Admitted(codec, batch[i], decodeAborts(i), runAborts(i)))
      && out != Error(CheckOnlySuccess)
  {
    var items := Items(codec, batch, decodeAborts, runAborts);
    RunAt(m, co, items, s, i);
    ItemOutput(m, co, items[i], Run(m, co, items[..i], s).state);
    DecodingErrorsOnly(codec, batch[i]);
  }

  /** Each of the seven decoding errors shows in the results of a batch exactly when the
      raw call has that defect and no abort came before. */
  lemma {:induction false} DecodingErrorsShow(
      codec: Codec, m: Machine, co: bool, batch: seq<Bytes>, decodeAborts: nat -> bool, runAborts: nat -> bool,
      s: BatchState, i: nat)
    requires LawfulMachine(m) && GasBounded(s) && i < |batch|
    ensures var out := Run(m, co, Items(codec, batch, decodeAborts, runAborts), s).result[i].output;
      var call, g := codec.parseCall(batch[i]), GatewayDecode(codec, batch[i]);
      !decodeAborts(i) && !runAborts(i) ==>
        && (out == Error(BadCall) <==> call.None?)
        && (forall name :: out == Error(MethodNotFound(name)) <==>
              call.Some? && call.value.method_ == name && name != METHOD_TX)
        && (out == Error(BadArgs) <==>
              call.Some? && call.value.method_ == METHOD_TX && codec.parseArgs(call.value.args).None?)
        && (out == Error(BadRlp) <==>
              g.None? && call.Some? && call.value.method_ == METHOD_TX && codec.parseArgs(call.value.args).Some?)
        && (out == Error(TooMuchGas) <==> g.Some? && g.value.gas > BLOCK_GAS_LIMIT)
        && (out == Error(BadSignature) <==>
              g.Some? && g.value.gas <= BLOCK_GAS_LIMIT && codec.recover(g.value).None?)
        && (out == Error(GasPriceTooLow) <==>
              && g.Some? && g.value.gas <= BLOCK_GAS_LIMIT
              && codec.recover(g.value).Some? && g.value.gasPrice < MIN_GAS_PRICE)
  {
    BatchOutputsAreExact(codec, m, co, batch, decodeAborts, runAborts, s, i);
    DecodeErrorsAreExact(codec, batch[i]);
  }

  /** Checking answers the abort error iff the flag was up, and accepts a call iff it is
      admitted; what it rejects, execution rejects with the same error in any batch. */
  lemma {:induction false} CheckAgreesWithExecution(
      codec: Codec, m: Machine, batch: seq<Bytes>, aborts: nat -> bool, runAborts: nat -> bool, s: BatchState, i: nat)
    requires LawfulMachine(m) && GasBounded(s) && i < |batch|
    ensures var v := Verdict(codec, aborts(i), batch[i]);
      var out := Run(m, false, Items(codec, batch, aborts, runAborts), s).result[i].output;
      && (v == Some(BatchAborted) <==> aborts(i))
      && (v == None <==> Admitted(codec, batch[i], aborts(i), false))
      && (v.Some? && !runAborts(i) ==> out == Error(v.value))
      && (v == None && !runAborts(i) ==> !(out.Error? && (DecodingError(out.error) || out.error == BatchAborted)))
  {
    BatchOutputsAreExact(codec, m, false, batch, aborts, runAborts, s, i);
    DecodingErrorsOnly(codec, batch[i]);
  }

  // ------------------------------------------------------------- environment

  lemma {:induction false} EnvOfRun(m: Machine, co: bool, items: seq<Item>, s: BatchState)
    requires LawfulMachine(m) && Fresh(s)
    ensures var r := Run(m, co, items, s); r.state.env == s.env.(gasUsed := SumGas(r.result))
  {
    RunInvariant(m, co, items, s);
    if items != [] {
      var n := |items| - 1;
      var before := Run(m, co, items[..n], s);
      EnvOfRun(m, co, items[..n], s);
      RunInvariant(m, co, items[..n], s);
      ItemInvariant(m, co, items[n], before.state);
      if Succeeded(Run(m, co, items, s).result[n]) {
        ItemApplies(m, co, items[n], before.state);
      }
    }
  }

  /** Every transaction of a batch runs in the environment of its block: the round after
      the header's, the header's time and hash, the block gas limit, and the gas spent by
      the successes before it. */
  lemma {:induction false} TransactionsRunInTheBlock(
      m: Machine, co: bool, items: seq<Item>, header: Header, store: Store, i: nat)
    requires LawfulMachine(m) && i < |items|
    ensures var s := InitialState(header, store);
      Run(m, co, items[..i], s).state.env ==
        Env(header.round + 1, header.timestamp, BLOCK_GAS_LIMIT, [header.previousHash],
            SumGas(Run(m, co, items, s).result[..i]))
  {
    var s := InitialState(header, store);
    EnvOfRun(m, co, items[..i], s);
    RunAt(m, co, items, s, i);
  }

  /** The environment of the block after `header`, once `spent` gas is used. */
  function EnvOf(header: Header, spent: nat): Env {
    Env(header.round + 1, header.timestamp, BLOCK_GAS_LIMIT, [header.previousHash], spent)
  }

  /** A result is what the machine answered, bar the gas of the transaction itself. */
  ghost predicate ResultFrom(x: ExecutionResult, a: ApplyResult) {
    && a.Applied?
    && x.statusCode == a.receipt.statusCode && x.logBloom == a.receipt.logBloom && x.logs == a.receipt.logs
    && x.cumulativeGasUsed == a.receipt.gasUsed && x.output == a.output
  }

  /** A success of a batch is what the machine answered on the store the earlier calls
      reached, in the environment of the block. */
  lemma {:induction false} SuccessIsTheMachines(m: Machine, items: seq<Item>, header: Header, store: Store, i: nat)
    requires LawfulMachine(m) && i < |items|
    requires Succeeded(Run(m, false, items, InitialState(header, store)).result[i])
    ensures items[i].call.Ok?
    ensures var s := InitialState(header, store);
      var rs, before := Run(m, false, items, s).result, Run(m, false, items[..i], s).state.store;
      ResultFrom(ResultOf(rs[i]), m(before, EnvOf(header, SumGas(rs[..i])), items[i].call.value))
  {
    var s := InitialState(header, store);
    RunAt(m, false, items, s, i);
    ItemApplies(m, false, items[i], Run(m, false, items[..i], s).state);
    TransactionsRunInTheBlock(m, false, items, header, store, i);
  }
}
