/**
 What holds of every batch the dispatcher runs, whatever the machine does within
 its gas law, whatever the calls are and whenever the abort flag is raised.
 */
module BatchLaws {
  import opened Basics
  import opened Runtime

  ghost predicate Succeeded(r: TxResult) {
    r.output.Success? && r.output.value.Executed?
  }

  ghost function ResultOf(r: TxResult): ExecutionResult
    requires Succeeded(r)
  {
    r.output.value.result
  }

  /** Gas spent by the successful results. */
  ghost function SumGas(rs: seq<TxResult>): nat {
    if rs == [] then 0
    else
      var last := rs[|rs| - 1];
      SumGas(rs[..|rs| - 1]) + if Succeeded(last) then ResultOf(last).gasUsed else 0
  }

  ghost predicate RunsOk(items: seq<Item>, rs: seq<TxResult>) {
    && |items| == |rs|
    && forall i :: 0 <= i < |rs| && Succeeded(rs[i]) ==> items[i].call.Ok?
  }

  ghost function HashAt(items: seq<Item>, rs: seq<TxResult>, i: nat): Hash
    requires i < |rs| && RunsOk(items, rs) && Succeeded(rs[i])
  {
    items[i].call.value.tx.hash
  }

  lemma {:induction false} RunsOkPrefix(items: seq<Item>, rs: seq<TxResult>, n: nat)
    requires RunsOk(items, rs) && n <= |rs|
    ensures RunsOk(items[..n], rs[..n])
  {
    assert forall i :: 0 <= i < n ==> rs[..n][i] == rs[i] && items[..n][i] == items[i];
  }

  ghost function SuccessHashes(items: seq<Item>, rs: seq<TxResult>): set<Hash>
    requires RunsOk(items, rs)
  {
    if rs == [] then {}
    else
      var n := |rs| - 1;
      RunsOkPrefix(items, rs, n);
      SuccessHashes(items[..n], rs[..n]) + if Succeeded(rs[n]) then {HashAt(items, rs, n)} else {}
  }

  lemma {:induction false} SuccessHashesMember(items: seq<Item>, rs: seq<TxResult>, h: Hash)
    requires RunsOk(items, rs)
    ensures h in SuccessHashes(items, rs) <==>
      exists i :: 0 <= i < |rs| && Succeeded(rs[i]) && HashAt(items, rs, i) == h
  {
    if rs != [] {
      var n := |rs| - 1;
      RunsOkPrefix(items, rs, n);
      SuccessHashesMember(items[..n], rs[..n], h);
      assert forall i :: 0 <= i < n ==> rs[..n][i] == rs[i] && items[..n][i] == items[i];
      if i :| 0 <= i < n && Succeeded(rs[..n][i]) && HashAt(items[..n], rs[..n], i) == h {
        assert HashAt(items, rs, i) == h;
      }
      if i :| 0 <= i < n && Succeeded(rs[i]) && HashAt(items, rs, i) == h {
        assert HashAt(items[..n], rs[..n], i) == h;
      }
    }
  }

  ghost predicate Fresh(s: BatchState) {
    s.tags == [] && s.executed == {} && s.env.gasUsed == 0
  }

  // --------------------------------------------------------- runs and prefixes

  /** Result `i` is one step from the state the first `i` items reach, and the
      results of a prefix are a prefix of the results. */
  lemma {:induction false} RunAt(m: Machine, co: bool, items: seq<Item>, s: BatchState, i: nat)
    requires LawfulMachine(m) && GasBounded(s) && i < |items|
    ensures Run(m, co, items, s).result[..i] == Run(m, co, items[..i], s).result
    ensures Step(Run(m, co, items[..i + 1], s).state, Run(m, co, items, s).result[i])
         == ItemStep(m, co, items[i], Run(m, co, items[..i], s).state)
  {
    var n := |items| - 1;
    assert items[..i + 1][..i] == items[..i];
    if i < n {
      RunAt(m, co, items[..n], s, i);
      assert items[..n][..i] == items[..i] && items[..n][..i + 1] == items[..i + 1];
    } else {
      assert items[..i + 1] == items;
    }
  }

  /** One item from a state without pending tags. */
  lemma {:induction false} ItemInvariant(m: Machine, co: bool, item: Item, s: BatchState)
    requires LawfulMachine(m) && GasBounded(s) && s.tags == []
    ensures var t := ItemStep(m, co, item, s);
      && t.state.tags == []
      && (Succeeded(t.result) ==>
            && item.call.Ok?
            && t.state.env.gasUsed == s.env.gasUsed + ResultOf(t.result).gasUsed
            && t.state.executed == s.executed + {item.call.value.tx.hash}
            && t.result.tags == TxTags(item.call.value.tx.hash, ResultOf(t.result).logs))
      && (!Succeeded(t.result) ==> t.state == s && t.result.tags == [])
  {
    if !item.aborted && item.call.Ok? {
      var hash := item.call.value.tx.hash;
      assert forall logs :: s.tags + TxTags(hash, logs) == TxTags(hash, logs);
    }
  }

  /** A success is a transaction the machine applied, and its fields are the receipt's. */
  lemma {:induction false} ItemApplies(m: Machine, co: bool, item: Item, s: BatchState)
    requires LawfulMachine(m) && GasBounded(s)
    requires Succeeded(ItemStep(m, co, item, s).result)
    ensures var t := ItemStep(m, co, item, s);
      && item.call.Ok?
      && var a := m(s.store, s.env, item.call.value);
      && a.Applied?
      && t.state.store == a.store
      && t.state.env == s.env.(gasUsed := a.receipt.gasUsed)
      && var x := ResultOf(t.result);
      && x.cumulativeGasUsed == a.receipt.gasUsed
      && x.logBloom == a.receipt.logBloom
      && x.logs == a.receipt.logs
      && x.statusCode == a.receipt.statusCode
      && x.output == a.output
  {
  }

  lemma {:induction false} ItemRejections(m: Machine, item: Item, s: BatchState)
    requires LawfulMachine(m) && GasBounded(s)
    requires !item.aborted && item.call.Ok?
    ensures var out := ItemStep(m, false, item, s).result.output; var tx := item.call.value.tx;
      && (out == Error(DuplicateTransaction) <==> tx.hash in s.executed)
      && (out == Error(BlockGasLimitReached) <==>
            tx.hash !in s.executed && s.env.gasUsed + tx.gas > BLOCK_GAS_LIMIT)
      && (tx.hash !in s.executed && s.env.gasUsed + tx.gas <= BLOCK_GAS_LIMIT ==>
            match m(s.store, s.env, item.call.value)
            case Failed(msg) => out == Error(ExecutionFailure(msg))
            case Applied(_, _, _) => Succeeded(ItemStep(m, false, item, s).result))
  {
  }

  /** What is true of a state after the first items, given their results. */
  ghost predicate Accounts(items: seq<Item>, rs: seq<TxResult>, s: BatchState) {
    && s.tags == []
    && RunsOk(items, rs)
    && s.env.gasUsed == SumGas(rs)
    && s.executed == SuccessHashes(items, rs)
  }

  /** One more item, with its result and the state after it, keeps the accounts. */
  lemma {:induction false} AccountsSnoc(
      items: seq<Item>, rs: seq<TxResult>, s: BatchState, item: Item, r: TxResult, t: BatchState)
    requires Accounts(items, rs, s) && t.tags == []
    requires Succeeded(r) ==>
      && item.call.Ok?
      && t.env.gasUsed == s.env.gasUsed + ResultOf(r).gasUsed
      && t.executed == s.executed + {item.call.value.tx.hash}
    requires !Succeeded(r) ==> t == s
    ensures Accounts(items + [item], rs + [r], t)
  {
    var all, results, n := items + [item], rs + [r], |rs|;
    assert all[..n] == items && results[..n] == rs;
    forall i | 0 <= i < |results| && Succeeded(results[i]) ensures all[i].call.Ok? {
      if i < n {
        assert results[i] == rs[i] && all[i] == items[i];
      }
    }
  }

  /** The state of a run that started fresh: no pending tags, gas adding up,
      and the set of executed hashes exactly those of the successes. */
  lemma {:induction false} RunInvariant(m: Machine, co: bool, items: seq<Item>, s: BatchState)
    requires LawfulMachine(m) && Fresh(s)
    ensures var r := Run(m, co, items, s);
      && r.state.tags == []
      && RunsOk(items, r.result)
      && r.state.env.gasUsed == SumGas(r.result)
      && r.state.executed == SuccessHashes(items, r.result)
  {
    if items != [] {
      var n := |items| - 1;
      var before := Run(m, co, items[..n], s);
      var last := ItemStep(m, co, items[n], before.state);
      RunInvariant(m, co, items[..n], s);
      ItemInvariant(m, co, items[n], before.state);
      AccountsSnoc(items[..n], before.result, before.state, items[n], last.result, last.state);
      assert items[..n] + [items[n]] == items;
    }
  }

  // ------------------------------------------------------------ conservation

  lemma {:induction false} GasAt(m: Machine, co: bool, items: seq<Item>, s: BatchState, i: nat)
    requires LawfulMachine(m) && Fresh(s) && i < |items|
    requires Succeeded(Run(m, co, items, s).result[i])
    ensures var rs := Run(m, co, items, s).result;
      && ResultOf(rs[i]).cumulativeGasUsed == SumGas(rs[..i + 1]) <= BLOCK_GAS_LIMIT
      && SumGas(rs[..i + 1]) == SumGas(rs[..i]) + ResultOf(rs[i]).gasUsed
  {
    var rs := Run(m, co, items, s).result;
    var before := Run(m, co, items[..i], s).state;
    RunAt(m, co, items, s, i);
    RunInvariant(m, co, items[..i], s);
    ItemInvariant(m, co, items[i], before);
    ItemApplies(m, co, items[i], before);
    assert rs[..i + 1][..i] == rs[..i];
  }

  /** Gas is conserved over the batch: each receipt's cumulative figure is the sum
      of everything spent up to and including it, no figure passes the block
      limit, and the final counter is the sum over the batch. */
  lemma {:induction false} GasConservation(m: Machine, co: bool, items: seq<Item>, s: BatchState)
    requires LawfulMachine(m) && Fresh(s)
    ensures var r := Run(m, co, items, s);
      && r.state.env.gasUsed == SumGas(r.result) <= BLOCK_GAS_LIMIT
      && forall i :: 0 <= i < |items| && Succeeded(r.result[i]) ==>
           && ResultOf(r.result[i]).cumulativeGasUsed == SumGas(r.result[..i + 1]) <= BLOCK_GAS_LIMIT
           && SumGas(r.result[..i + 1]) == SumGas(r.result[..i]) + ResultOf(r.result[i]).gasUsed
  {
    var rs := Run(m, co, items, s).result;
    RunInvariant(m, co, items, s);
    forall i | 0 <= i < |items| && Succeeded(rs[i])
      ensures ResultOf(rs[i]).cumulativeGasUsed == SumGas(rs[..i + 1]) <= BLOCK_GAS_LIMIT
      ensures SumGas(rs[..i + 1]) == SumGas(rs[..i]) + ResultOf(rs[i]).gasUsed
    {
      GasAt(m, co, items, s, i);
    }
  }

  lemma {:induction false} SumGasIdle(rs: seq<TxResult>, i: nat, j: nat)
    requires i <= j <= |rs|
    requires forall k :: i <= k < j ==> !Succeeded(rs[k])
    ensures SumGas(rs[..j]) == SumGas(rs[..i])
    decreases j
  {
    if i < j {
      SumGasIdle(rs, i, j - 1);
      assert rs[..j][..j - 1] == rs[..j - 1];
    }
  }

  /** Consecutive successful receipts differ by exactly the later one's own gas. */
  lemma {:induction false} ConsecutiveReceipts(m: Machine, items: seq<Item>, s: BatchState, i: nat, j: nat)
    requires LawfulMachine(m) && Fresh(s) && i < j < |items|
    requires var rs := Run(m, false, items, s).result;
      && Succeeded(rs[i]) && Succeeded(rs[j])
      && forall k :: i < k < j ==> !Succeeded(rs[k])
    ensures var rs := Run(m, false, items, s).result;
      ResultOf(rs[j]).cumulativeGasUsed == ResultOf(rs[i]).cumulativeGasUsed + ResultOf(rs[j]).gasUsed
  {
    GasAt(m, false, items, s, i);
    GasAt(m, false, items, s, j);
    SumGasIdle(Run(m, false, items, s).result, i + 1, j);
  }

  // -------------------------------------------------------------------- tags

  /** No tag leaks from one call to another: a success carries exactly the tags of
      its own hash and logs, and everything else carries none. */
  lemma {:induction false} TagsNeverLeak(m: Machine, co: bool, items: seq<Item>, s: BatchState, i: nat)
    requires LawfulMachine(m) && Fresh(s) && i < |items|
    ensures Run(m, co, items[..i], s).state.tags == []
    ensures var rs := Run(m, co, items, s).result;
      && RunsOk(items, rs)
      && rs[i].tags == if Succeeded(rs[i]) then TxTags(HashAt(items, rs, i), ResultOf(rs[i]).logs) else []
  {
    RunInvariant(m, co, items, s);
    RunInvariant(m, co, items[..i], s);
    RunAt(m, co, items, s, i);
    ItemInvariant(m, co, items[i], Run(m, co, items[..i], s).state);
  }

  /** What an index entry means: a transaction has the address tag of `v` iff one of its
      logs was emitted by `v`, and the tag of topic position `i` with `v` iff one of its
      logs has `v` at that position. */
  lemma {:induction false} TagsDescribeLogs(hash: Hash, logs: seq<Log>, v: Bytes, i: nat)
    requires i < 4
    ensures Tag(TAG_LOG_ADDRESS, v) in TxTags(hash, logs) <==> exists log :: log in logs && log.address == v
    ensures Tag(TAG_LOG_TOPICS[i], v) in TxTags(hash, logs) <==>
      exists log :: log in logs && i < |log.topics| && log.topics[i] == v
  {
    FlatMapMember(LogTags, logs, Tag(TAG_LOG_ADDRESS, v));
    FlatMapMember(LogTags, logs, Tag(TAG_LOG_TOPICS[i], v));
    forall log: Log
      ensures Tag(TAG_LOG_ADDRESS, v) in LogTags(log) <==> log.address == v
      ensures Tag(TAG_LOG_TOPICS[i], v) in LogTags(log) <==> i < |log.topics| && log.topics[i] == v
    {
      TagsOfLog(log, v, i);
    }
  }

  lemma {:induction false} TopicKeysDiffer(i: nat, k: nat)
    requires i < 4 && k < 4
    ensures TAG_LOG_TOPICS[i] != TAG_LOG_ADDRESS
    ensures TAG_LOG_TOPICS[i] == TAG_LOG_TOPICS[k] ==> i == k
  {
    assert TAG_LOG_TOPICS[i][1] != TAG_LOG_ADDRESS[1];
    assert TAG_LOG_TOPICS[i][3] == TAG_LOG_TOPICS[k][3] ==> i == k;
  }

  lemma {:induction false} TagsOfLog(log: Log, v: Bytes, i: nat)
    requires i < 4
    ensures Tag(TAG_LOG_ADDRESS, v) in LogTags(log) <==> log.address == v
    ensures Tag(TAG_LOG_TOPICS[i], v) in LogTags(log) <==> i < |log.topics| && log.topics[i] == v
  {
    var tags := TopicTags(log.topics);
    forall k | 0 <= k < |tags|
      ensures tags[k].key != TAG_LOG_ADDRESS && (tags[k].key == TAG_LOG_TOPICS[i] ==> k == i)
    {
      TopicKeysDiffer(i, k);
      TopicKeysDiffer(k, i);
    }
    TopicKeysDiffer(i, i);
    assert Tag(TAG_LOG_ADDRESS, v) !in tags;
    if i < |tags| {
      assert tags[i] in tags;
    }
  }

  lemma {:induction false} LogTagKeys(logs: seq<Log>, t: Tag)
    ensures t in FlatMap(LogTags, logs) ==> t.key != TAG_TX_HASH
  {
    FlatMapMember(LogTags, logs, t);
  }

  /** The hash tag is a partial function on the batch: an item carries the tag of
      `h` iff it succeeded and `h` is its hash, no two items carry the same one,
      and the hashes so indexed are exactly the set of executed transactions. */
  lemma {:induction false} HashIndexIsPartialFunction(m: Machine, items: seq<Item>, s: BatchState, h: Hash)
    requires LawfulMachine(m) && Fresh(s)
    ensures var r := Run(m, false, items, s); var rs := r.result; var t := Tag(TAG_TX_HASH, h);
      && RunsOk(items, rs)
      && (forall i :: 0 <= i < |rs| ==> (t in rs[i].tags <==> Succeeded(rs[i]) && HashAt(items, rs, i) == h))
      && (forall i, j :: 0 <= i < j < |rs| && t in rs[i].tags ==> t !in rs[j].tags)
      && (h in r.state.executed <==> exists i :: 0 <= i < |rs| && t in rs[i].tags)
  {
    var r := Run(m, false, items, s);
    var rs := r.result;
    var t := Tag(TAG_TX_HASH, h);
    RunInvariant(m, false, items, s);
    SuccessHashesMember(items, rs, h);
    forall i | 0 <= i < |rs|
      ensures t in rs[i].tags <==> Succeeded(rs[i]) && HashAt(items, rs, i) == h
    {
      TagsNeverLeak(m, false, items, s, i);
      if Succeeded(rs[i]) {
        LogTagKeys(ResultOf(rs[i]).logs, t);
      }
    }
    forall i, j | 0 <= i < j < |rs| && t in rs[i].tags
      ensures t !in rs[j].tags
    {
      if Succeeded(rs[j]) {
        NoTwoSuccesses(m, items, s, i, j);
      }
    }
  }

  lemma {:induction false} SuccessRan(m: Machine, co: bool, items: seq<Item>, s: BatchState, i: nat)
    requires LawfulMachine(m) && GasBounded(s) && i < |items| && Succeeded(Run(m, co, items, s).result[i])
    ensures !items[i].aborted && items[i].call.Ok?
  {
    RunAt(m, co, items, s, i);
  }

  lemma {:induction false} NoTwoSuccesses(m: Machine, items: seq<Item>, s: BatchState, i: nat, j: nat)
    requires LawfulMachine(m) && Fresh(s) && i < j < |items|
    requires var rs := Run(m, false, items, s).result; Succeeded(rs[i]) && Succeeded(rs[j])
    ensures var rs := Run(m, false, items, s).result;
      RunsOk(items, rs) && HashAt(items, rs, i) != HashAt(items, rs, j)
  {
    SuccessRan(m, false, items, s, j);
    OutcomesAreExact(m, items, s, j);
  }

  // -------------------------------------------------------------- rejections

  /** What becomes of a decoded call: it is a duplicate iff an earlier call of the
      batch succeeded with its hash, it does not fit iff it is no duplicate and asks
      for more gas than the earlier successes have left, and otherwise it succeeds
      or fails as the machine says, on the state the earlier calls reached. */
  lemma {:induction false} OutcomesAreExact(m: Machine, items: seq<Item>, s: BatchState, i: nat)
    requires LawfulMachine(m) && Fresh(s) && i < |items|
    requires !items[i].aborted && items[i].call.Ok?
    ensures var rs := Run(m, false, items, s).result; var tx := items[i].call.value.tx;
      && RunsOk(items, rs)
      && (rs[i].output == Error(DuplicateTransaction) <==>
            exists j :: 0 <= j < i && Succeeded(rs[j]) && HashAt(items, rs, j) == tx.hash)
      && (rs[i].output == Error(BlockGasLimitReached) <==>
            && rs[i].output != Error(DuplicateTransaction)
            && SumGas(rs[..i]) + tx.gas > BLOCK_GAS_LIMIT)
      && (rs[i].output !in {Error(DuplicateTransaction), Error(BlockGasLimitReached)} ==>
            var before := Run(m, false, items[..i], s).state;
            match m(before.store, before.env, items[i].call.value)
            case Failed(msg) => rs[i].output == Error(ExecutionFailure(msg))
            case Applied(_, _, _) => Succeeded(rs[i]))
  {
    var rs := Run(m, false, items, s).result;
    RunInvariant(m, false, items, s);
    RunInvariant(m, false, items[..i], s);
    RunAt(m, false, items, s, i);
    ItemRejections(m, items[i], Run(m, false, items[..i], s).state);
    EarlierHash(items, rs, i, items[i].call.value.tx.hash);
  }

  lemma {:induction false} EarlierHash(items: seq<Item>, rs: seq<TxResult>, i: nat, h: Hash)
    requires RunsOk(items, rs) && i <= |rs|
    ensures RunsOk(items[..i], rs[..i])
    ensures h in SuccessHashes(items[..i], rs[..i]) <==>
      exists j :: 0 <= j < i && Succeeded(rs[j]) && HashAt(items, rs, j) == h
  {
    RunsOkPrefix(items, rs, i);
    SuccessHashesMember(items[..i], rs[..i], h);
    assert forall j :: 0 <= j < i ==> rs[..i][j] == rs[j] && items[..i][j] == items[j];
    if j :| 0 <= j < i && Succeeded(rs[..i][j]) && HashAt(items[..i], rs[..i], j) == h {
      assert HashAt(items, rs, j) == h;
    }
    if j :| 0 <= j < i && Succeeded(rs[j]) && HashAt(items, rs, j) == h {
      assert HashAt(items[..i], rs[..i], j) == h;
    }
  }

  // ------------------------------------------------- the fold over successes

  /** Plain sequential application, with no duplicate set, limit or tags. */
  ghost function ApplyAll(m: Machine, store: Store, env: Env, items: seq<Item>): Option<(Store, Env)> {
    if items == [] then Some((store, env))
    else
      match ApplyAll(m, store, env, items[..|items| - 1])
      case None => None
      case Some((st, e)) => ApplyOne(m, st, e, items[|items| - 1])
  }

  ghost function ApplyOne(m: Machine, store: Store, env: Env, item: Item): Option<(Store, Env)> {
    match item.call
    case Err(_) => None
    case Ok(stx) =>
      match m(store, env, stx)
      case Failed(_) => None
      case Applied(st, rc, _) => Some((st, env.(gasUsed := rc.gasUsed)))
  }

  /** The elements of `xs` at which the batch succeeded. */
  ghost function Successes<A>(xs: seq<A>, rs: seq<TxResult>): seq<A>
    requires |xs| == |rs|
  {
    if rs == [] then []
    else
      var n := |rs| - 1;
      Successes(xs[..n], rs[..n]) + if Succeeded(rs[n]) then [xs[n]] else []
  }

  lemma {:induction false} ApplyAllSnoc(m: Machine, store: Store, env: Env, items: seq<Item>, item: Item)
    ensures ApplyAll(m, store, env, items + [item]) ==
      match ApplyAll(m, store, env, items)
      case None => None
      case Some((st, e)) => ApplyOne(m, st, e, item)
  {
    assert (items + [item])[..|items|] == items;
  }

  /** The committed state is the raw machine folded over the successes alone. */
  lemma {:induction false} CommittedStateIsFold(m: Machine, co: bool, items: seq<Item>, s: BatchState)
    requires LawfulMachine(m) && Fresh(s)
    ensures var r := Run(m, co, items, s);
      ApplyAll(m, s.store, s.env, Successes(items, r.result)) == Some((r.state.store, r.state.env))
  {
    if items != [] {
      var n, r := |items| - 1, Run(m, co, items, s);
      var before := Run(m, co, items[..n], s);
      CommittedStateIsFold(m, co, items[..n], s);
      RunInvariant(m, co, items[..n], s);
      assert r.result[..n] == before.result;
      if Succeeded(r.result[n]) {
        ItemApplies(m, co, items[n], before.state);
        ApplyAllSnoc(m, s.store, s.env, Successes(items[..n], before.result), items[n]);
      } else {
        ItemInvariant(m, co, items[n], before.state);
        assert Successes(items, r.result) == Successes(items[..n], before.result);
      }
    }
  }

  /** Refused calls leave no trace: running only the calls that succeeded reaches
      the same state with the same results and the same tags. */
  lemma {:induction false} ReplayOfSuccesses(m: Machine, items: seq<Item>, s: BatchState)
    requires LawfulMachine(m) && Fresh(s)
    ensures var r := Run(m, false, items, s);
      Run(m, false, Successes(items, r.result), s) == Step(r.state, Successes(r.result, r.result))
  {
    var r := Run(m, false, items, s);
    if items != [] {
      var n := |items| - 1;
      ReplayOfSuccesses(m, items[..n], s);
      assert r.result[..n] == Run(m, false, items[..n], s).result;
      var kept := Successes(items[..n], r.result[..n]);
      if Succeeded(r.result[n]) {
        assert (kept + [items[n]])[..|kept|] == kept;
      } else {
        assert Successes(items, r.result) == kept;
        assert Successes(r.result, r.result) == Successes(r.result[..n], r.result[..n]);
      }
    }
  }

  // --------------------------------------------------- check-only and aborts

  /** In a check-only context nothing changes and every decoded call is a success. */
  lemma {:induction false} CheckOnlyChangesNothing(m: Machine, items: seq<Item>, s: BatchState)
    requires LawfulMachine(m) && GasBounded(s)
    ensures var r := Run(m, true, items, s);
      && r.state == s
      && forall i :: 0 <= i < |items| ==>
           && r.result[i].tags == []
           && (items[i].call.Ok? && !items[i].aborted ==> r.result[i].output == Success(CheckedOnly))
  {
    if items != [] {
      CheckOnlyChangesNothing(m, items[..|items| - 1], s);
    }
  }

  /** Once the flag stays raised from item `k` on, the state is what the first `k`
      items reached and every later output is the abort error. */
  lemma {:induction false} AbortFreezesState(m: Machine, co: bool, items: seq<Item>, s: BatchState, k: nat)
    requires LawfulMachine(m) && GasBounded(s) && k <= |items|
    requires forall i :: k <= i < |items| ==> items[i].aborted
    ensures Run(m, co, items, s).state == Run(m, co, items[..k], s).state
    ensures forall i :: k <= i < |items| ==>
      Run(m, co, items, s).result[i] == TxResult(Error(BatchAborted), [])
  {
    var n := |items| - 1;
    if k <= n {
      AbortFreezesState(m, co, items[..n], s, k);
      assert items[..n][..k] == items[..k];
    } else {
      assert items[..k] == items;
    }
  }
}
