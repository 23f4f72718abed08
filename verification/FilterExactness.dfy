/**
 Filters for which the index does not agree with the scan, and an index that meets
 the law assumed of one.
 */
module FilterExactness {
  import opened Basics
  import opened Runtime
  import opened LogIndex
  import opened IndexLaws

  function FirstOr(values: Option<seq<Bytes>>): Bytes {
    if values.Some? && values.value != [] then values.value[0] else []
  }

  /** A log every filter position accepts. */
  function WitnessLog(f: LogFilter): (l: Log)
    ensures Matches(f, l)
  {
    Log(FirstOr(f.address), seq(|f.topics|, i requires 0 <= i < |f.topics| => FirstOr(f.topics[i])), [])
  }

  const WITNESS_TX: Transaction := Transaction([], Create, 0, 0, 1, 0, [])

  const WITNESS_CODEC: Codec :=
    Codec(_ => Some(Call(METHOD_TX, [])), _ => Some([]), _ => Some(WITNESS_TX), _ => Some([]))

  function EmittingMachine(log: Log): Machine {
    (s: Store, e: Env, t: SignedTx) => Applied(s, Receipt(e.gasUsed, [], [log], 1), [])
  }

  const WITNESS_SIGNED_TX: SignedTx := SignedTx(WITNESS_TX, [])

  function WitnessResult(log: Log): TxResult {
    TxResult(Success(Executed(ExecutionResult(0, 0, [], [log], 1, []))), TxTags(WITNESS_TX.hash, [log]))
  }

  function WitnessChain(f: LogFilter): Chain {
    var header, log := Header(0, 0, []), WitnessLog(f);
    Chain(WITNESS_CODEC, EmittingMachine(log),
          [Block([], header, map[], _ => false, _ => false, []),
           Block([], header, map[], _ => false, _ => false, [TxRecord([], WitnessResult(log))])])
  }

  lemma {:induction false} WitnessChainIsValid(f: LogFilter)
    ensures Valid(WitnessChain(f))
  {
    var c := WitnessChain(f);
    assert LawfulMachine(c.machine);
    assert BlockItems(c, c.blocks[0]) == [];
    assert BlockOk(c, 0);
    WitnessBlock(f);
  }

  lemma {:induction false} WitnessBlock(f: LogFilter)
    requires LawfulMachine(WitnessChain(f).machine)
    ensures BlockOk(WitnessChain(f), 1)
  {
    var c := WitnessChain(f);
    var b, log := c.blocks[1], WitnessLog(f);
    var s := InitialState(b.context, b.store);
    var items := BlockItems(c, b);
    assert items == [Item(false, Ok(WITNESS_SIGNED_TX))];
    assert items[..0] == [];
    assert Run(c.machine, false, items[..0], s) == Step(s, []);
    assert s.tags + TxTags(WITNESS_TX.hash, [log]) == TxTags(WITNESS_TX.hash, [log]);
    assert ItemStep(c.machine, false, items[0], s).result == WitnessResult(log);
    assert BlockItems(c, c.blocks[0]) == [];
  }

  lemma {:induction false} WitnessScan(f: LogFilter)
    ensures Scan(WitnessChain(f), f, 1, 1) != []
  {
    var c := WitnessChain(f);
    var log := WitnessLog(f);
    var logs := Localize(SnapshotAt(c, 1, 0), WITNESS_TX.hash, [log]);
    SelectMember(Matcher(f), logs, logs[0]);
    assert logs[0] in CallScan(c, f, 1)(0);
    ConcatMember(CallScan(c, f, 1), 0, 1, logs[0]);
    assert logs[0] in BlockScan(c, f)(1);
    ConcatMember(BlockScan(c, f), 1, 2, logs[0]);
  }

  lemma {:induction false} EmptyListHasNoCandidates(f: LogFilter, snaps: seq<Snapshot>)
    requires !IndexedListsNonEmpty(f)
    ensures Select(Candidates(f), snaps) == []
  {
    forall s | s in snaps ensures !Candidates(f)(s) {
      var c :| ConditionOf(f, c) && c.values == [];
      assert !HasTag(s.tags, c);
    }
    SelectAllOrNone(Candidates(f), snaps, false);
  }

  /** The index agrees with the scan on every chain and every range iff no list
      among the addresses and the first four topics is empty. */
  lemma {:induction false} IndexExactIff(f: LogFilter)
    ensures IndexedListsNonEmpty(f) <==>
      forall c: Chain, lo: nat, hi: nat, answer: seq<Snapshot> ::
        Valid(c) && hi < |c.blocks| && SamePerRound(answer, Select(Candidates(f), Snapshots(c, lo, hi))) ==>
          SortByBlock(FlatMap(Decoder(c.codec, f), answer)) == Scan(c, f, lo, hi)
  {
    if IndexedListsNonEmpty(f) {
      forall c: Chain, lo: nat, hi: nat, answer: seq<Snapshot> |
        Valid(c) && hi < |c.blocks| && SamePerRound(answer, Select(Candidates(f), Snapshots(c, lo, hi)))
        ensures SortByBlock(FlatMap(Decoder(c.codec, f), answer)) == Scan(c, f, lo, hi)
      {
        IndexAgreesWithScan(c, f, lo, hi, answer);
      }
    } else {
      var c := WitnessChain(f);
      WitnessChainIsValid(f);
      WitnessScan(f);
      EmptyListHasNoCandidates(f, Snapshots(c, 1, 1));
      assert SamePerRound([], Select(Candidates(f), Snapshots(c, 1, 1)));
      assert SortByBlock(FlatMap(Decoder(c.codec, f), [])) == [];
    }
  }

  /** The index that returns what meets the conditions, in order, cut off at the limit. */
  ghost function FullIndex(c: Chain): Index {
    (lo: nat, hi: nat, conditions: seq<Condition>, limit: nat) =>
      var all := Select(Meeting(conditions), Snapshots(c, lo, hi));
      if limit == 0 || |all| <= limit then all else all[..limit]
  }

  lemma {:induction false} FullIndexIsLawful(c: Chain)
    ensures LawfulIndex(c, FullIndex(c))
  {
    forall lo: nat, hi: nat, conditions: seq<Condition>, limit: nat, s |
      s in FullIndex(c)(lo, hi, conditions, limit)
      ensures s in Snapshots(c, lo, hi)
    {
      SelectMember(Meeting(conditions), Snapshots(c, lo, hi), s);
    }
  }

  /** A query without a limit returns the scan on every chain, through every lawful
      index, iff no indexed list of the filter is empty. */
  lemma {:induction false} QueryExactIff(f: LogFilter)
    requires Unlimited(f)
    ensures IndexedListsNonEmpty(f) <==>
      forall c: Chain, index: Index, lo: nat, hi: nat ::
        Valid(c) && LawfulIndex(c, index) && hi < |c.blocks| ==>
          QueryLogs(c.codec, f, index, lo, hi) == Scan(c, f, lo, hi)
  {
    if IndexedListsNonEmpty(f) {
      forall c: Chain, index: Index, lo: nat, hi: nat | Valid(c) && LawfulIndex(c, index) && hi < |c.blocks|
        ensures QueryLogs(c.codec, f, index, lo, hi) == Scan(c, f, lo, hi)
      {
        QueryIsExact(c, f, index, lo, hi);
      }
    } else {
      var c := WitnessChain(f);
      WitnessChainIsValid(f);
      WitnessScan(f);
      FullIndexIsLawful(c);
      ConditionsAreExact(f);
      SelectSame(Meeting(ConditionsOf(f)), Candidates(f), Snapshots(c, 1, 1));
      EmptyListHasNoCandidates(f, Snapshots(c, 1, 1));
      assert FullIndex(c)(1, 1, ConditionsOf(f), 0) == [];
      assert QueryLogs(c.codec, f, FullIndex(c), 1, 1) == [];
    }
  }
}
