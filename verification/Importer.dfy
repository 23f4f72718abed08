/**
 The batched import of exported accounts: operations accumulate and are committed
 every so many, each commit being pushed to storage as a write log from the
 previous root to the new one.

 What an operation does to the state tree and how a tree is hashed to a root are
 library functions, given by `Ledger`.
 */
module Importer {
  import opened Basics
  import opened StateParser

  type Tree = map<Bytes, Bytes>
  type Root = Bytes

  datatype ImportOp =
    | NewContract(address: string, balance: string, nonce: string)
    | InitCode(address: string, code: string)
    | SetStorage(address: string, key: string, value: string)

  datatype Ledger = Ledger(effect: (Tree, ImportOp) -> Tree, rootOf: Tree -> Root)

  // -------------------------------------------------------------- write logs

  /** New values by key; `None` removes the key. */
  type WriteLog = map<Bytes, Option<Bytes>>

  function Lookup(t: Tree, k: Bytes): Option<Bytes> {
    if k in t then Some(t[k]) else None
  }

  function Diff(from: Tree, to: Tree): WriteLog {
    map k | k in from.Keys + to.Keys && Lookup(from, k) != Lookup(to, k) :: Lookup(to, k)
  }

  function Patch(t: Tree, log: WriteLog): Tree {
    map k | k in t.Keys + log.Keys && (if k in log then log[k].Some? else true) ::
      if k in log then log[k].value else t[k]
  }

  lemma {:induction false} PatchDiff(from: Tree, to: Tree)
    ensures Patch(from, Diff(from, to)) == to
  {
    var t := Patch(from, Diff(from, to));
    forall k ensures Lookup(t, k) == Lookup(to, k) {
    }
    assert forall k :: k in t <==> Lookup(t, k).Some?;
    assert forall k :: k in to <==> Lookup(to, k).Some?;
  }

  /** A write log has exactly the keys whose values differ, with their new values. */
  lemma {:induction false} DiffIsMinimal(from: Tree, to: Tree, k: Bytes)
    ensures k in Diff(from, to) <==> Lookup(from, k) != Lookup(to, k)
    ensures k in Diff(from, to) ==> Diff(from, to)[k] == if k in to then Some(to[k]) else None
  {
  }

  // ---------------------------------------------------------------- progress

  datatype ApplyRequest = ApplyRequest(srcRoot: Root, dstRoot: Root, writeLog: WriteLog)

  /** The tree with pending operations, the tree last committed, the root last
      pushed, the pending operations counted, and all requests so far. */
  datatype Progress = Progress(
    tree: Tree, committed: Tree, root: Root, ops: nat, nAccounts: nat, applies: seq<ApplyRequest>)

  function CommitNow(l: Ledger, p: Progress): Progress {
    var root := l.rootOf(p.tree);
    p.(committed := p.tree, root := root,
       applies := p.applies + [ApplyRequest(p.root, root, Diff(p.committed, p.tree))])
  }

  /** One counted operation, committing when the count is reached. */
  function OpStep(l: Ledger, commitEvery: nat, p: Progress, op: ImportOp): Progress {
    var q := p.(tree := l.effect(p.tree, op), ops := p.ops + 1);
    if q.ops == commitEvery then CommitNow(l, q).(ops := 0) else q
  }

  function OpRun(l: Ledger, commitEvery: nat, p: Progress, ops: seq<ImportOp>): Progress {
    if ops == [] then p else OpStep(l, commitEvery, OpRun(l, commitEvery, p, ops[..|ops| - 1]), ops[|ops| - 1])
  }

  function StorageOps(address: string, items: seq<(string, string)>): (r: seq<ImportOp>)
    ensures |r| == |items|
    ensures forall i :: 0 <= i < |items| ==> r[i] == SetStorage(address, items[i].0, items[i].1)
  {
    seq(|items|, i requires 0 <= i < |items| => SetStorage(address, items[i].0, items[i].1))
  }

  function EntryOps(e: Entry): seq<ImportOp> {
    [NewContract(e.0, e.1.balance, e.1.nonce)]
    + (if e.1.code.Some? then [InitCode(e.0, e.1.code.value)] else [])
    + (if e.1.storage.Some? then StorageOps(e.0, e.1.storage.value) else [])
  }

  function AllOps(entries: seq<Entry>): seq<ImportOp> {
    FlatMap(EntryOps, entries)
  }

  // ------------------------------------------------- what the operations mean

  /** The accounts a list of operations stands for: a new contract opens an account, and
      what follows must be about that account and sets its code or adds a storage item. */
  function AccountsOf(ops: seq<ImportOp>): Option<seq<Entry>> {
    if ops == [] then Some([])
    else
      match AccountsOf(ops[..|ops| - 1])
      case None => None
      case Some(entries) => AddTo(entries, ops[|ops| - 1])
  }

  function AddTo(entries: seq<Entry>, op: ImportOp): Option<seq<Entry>> {
    match op
    case NewContract(address, balance, nonce) => Some(entries + [(address, Account(balance, nonce, None, None))])
    case InitCode(address, code) =>
      if entries == [] || entries[|entries| - 1].0 != address then None
      else
        var last := entries[|entries| - 1].1;
        Some(entries[..|entries| - 1] + [(address, last.(code := Some(code)))])
    case SetStorage(address, key, value) =>
      if entries == [] || entries[|entries| - 1].0 != address then None
      else
        var last := entries[|entries| - 1].1;
        var items := if last.storage.Some? then last.storage.value else [];
        Some(entries[..|entries| - 1] + [(address, last.(storage := Some(items + [(key, value)])))])
  }

  /** An account without storage items: whether the list is empty or absent leaves no trace. */
  function Plain(e: Entry): Entry {
    if e.1.storage == Some([]) then (e.0, e.1.(storage := None)) else e
  }

  function AllPlain(entries: seq<Entry>): (r: seq<Entry>)
    ensures |r| == |entries| && forall i :: 0 <= i < |r| ==> r[i] == Plain(entries[i])
  {
    seq(|entries|, i requires 0 <= i < |entries| => Plain(entries[i]))
  }

  lemma {:induction false} AccountsOfSnoc(ops: seq<ImportOp>, op: ImportOp)
    ensures AccountsOf(ops + [op]) ==
      match AccountsOf(ops)
      case None => None
      case Some(entries) => AddTo(entries, op)
  {
    assert (ops + [op])[..|ops|] == ops;
  }

  lemma {:induction false} AddStorage(done: seq<Entry>, address: string, account: Account, key: string, value: string)
    ensures var items := if account.storage.Some? then account.storage.value else [];
      AddTo(done + [(address, account)], SetStorage(address, key, value)) ==
        Some(done + [(address, account.(storage := Some(items + [(key, value)])))])
  {
    assert (done + [(address, account)])[..|done|] == done;
  }

  /** An account whose first items are stored. */
  function Storing(account: Account, items: seq<(string, string)>): Account {
    if items == [] then account else account.(storage := Some(items))
  }

  lemma {:induction false} StoreNext(
      ops: seq<ImportOp>, done: seq<Entry>, address: string, account: Account,
      before: seq<(string, string)>, item: (string, string))
    requires account.storage == None && AccountsOf(ops) == Some(done + [(address, Storing(account, before))])
    ensures AccountsOf(ops + [SetStorage(address, item.0, item.1)]) ==
      Some(done + [(address, Storing(account, before + [item]))])
  {
    AccountsOfSnoc(ops, SetStorage(address, item.0, item.1));
    AddStorage(done, address, Storing(account, before), item.0, item.1);
    assert before == [] ==> before + [item] == [] + [item];
  }

  lemma {:induction false} ReadStorageOps(
      ops: seq<ImportOp>, done: seq<Entry>, address: string, account: Account, items: seq<(string, string)>)
    requires account.storage == None && AccountsOf(ops) == Some(done + [(address, account)])
    ensures AccountsOf(ops + StorageOps(address, items)) == Some(done + [(address, Storing(account, items))])
  {
    if items == [] {
      assert ops + StorageOps(address, items) == ops;
    } else {
      var n := |items| - 1;
      var before, item := items[..n], items[n];
      ReadStorageOps(ops, done, address, account, before);
      StoreNext(ops + StorageOps(address, before), done, address, account, before, item);
      StorageOpsSnoc(address, items);
      assert items == before + [item];
      assert ops + StorageOps(address, items)
          == (ops + StorageOps(address, before)) + [SetStorage(address, item.0, item.1)];
    }
  }

  lemma {:induction false} StorageOpsSnoc(address: string, items: seq<(string, string)>)
    requires items != []
    ensures var n := |items| - 1;
      StorageOps(address, items) == StorageOps(address, items[..n]) + [SetStorage(address, items[n].0, items[n].1)]
  {
  }

  lemma {:induction false} AddCode(done: seq<Entry>, address: string, account: Account, code: string)
    ensures AddTo(done + [(address, account)], InitCode(address, code)) ==
      Some(done + [(address, account.(code := Some(code)))])
  {
    assert (done + [(address, account)])[..|done|] == done;
  }

  /** The operations before the storage items of an account. */
  function HeadOps(e: Entry): seq<ImportOp> {
    [NewContract(e.0, e.1.balance, e.1.nonce)] + if e.1.code.Some? then [InitCode(e.0, e.1.code.value)] else []
  }

  lemma {:induction false} ReadHeadOps(ops: seq<ImportOp>, done: seq<Entry>, e: Entry)
    requires AccountsOf(ops) == Some(done)
    ensures AccountsOf(ops + HeadOps(e)) == Some(done + [(e.0, e.1.(storage := None))])
  {
    var contract, account := NewContract(e.0, e.1.balance, e.1.nonce), Account(e.1.balance, e.1.nonce, None, None);
    AccountsOfSnoc(ops, contract);
    if e.1.code.Some? {
      var code := InitCode(e.0, e.1.code.value);
      AccountsOfSnoc(ops + [contract], code);
      AddCode(done, e.0, account, e.1.code.value);
      assert ops + HeadOps(e) == (ops + [contract]) + [code];
    } else {
      assert HeadOps(e) == [contract];
    }
  }

  lemma {:induction false} ReadEntryOps(ops: seq<ImportOp>, done: seq<Entry>, e: Entry)
    requires AccountsOf(ops) == Some(done)
    ensures AccountsOf(ops + EntryOps(e)) == Some(done + [Plain(e)])
  {
    var head := ops + HeadOps(e);
    ReadHeadOps(ops, done, e);
    if e.1.storage.Some? {
      var items, all := e.1.storage.value, StorageOps(e.0, e.1.storage.value);
      ReadStorageOps(head, done, e.0, e.1.(storage := None), items);
      assert ops + EntryOps(e) == head + all;
    } else {
      assert EntryOps(e) == HeadOps(e);
    }
  }

  /** The operations of an import say exactly what the exported accounts say: reading them
      back gives every address, balance, nonce, code and storage item, in order. */
  lemma {:induction false} OperationsReadBack(entries: seq<Entry>)
    ensures AccountsOf(AllOps(entries)) == Some(AllPlain(entries))
  {
    if entries != [] {
      var n := |entries| - 1;
      OperationsReadBack(entries[..n]);
      FlatMapSnoc(EntryOps, entries, n);
      assert entries[..n + 1] == entries;
      ReadEntryOps(AllOps(entries[..n]), AllPlain(entries[..n]), entries[n]);
      assert AllPlain(entries) == AllPlain(entries[..n]) + [Plain(entries[n])];
    }
  }

  lemma {:induction false} OpRunAppend(l: Ledger, commitEvery: nat, p: Progress, a: seq<ImportOp>, b: seq<ImportOp>)
    ensures OpRun(l, commitEvery, p, a + b) == OpRun(l, commitEvery, OpRun(l, commitEvery, p, a), b)
  {
    if b == [] {
      assert a + b == a;
    } else {
      var n := |b| - 1;
      OpRunAppend(l, commitEvery, p, a, b[..n]);
      assert (a + b)[..|a + b| - 1] == a + b[..n];
    }
  }

  lemma {:induction false} OpRunOne(l: Ledger, commitEvery: nat, p: Progress, op: ImportOp)
    ensures OpRun(l, commitEvery, p, [op]) == OpStep(l, commitEvery, p, op)
  {
    assert [op][..0] == [];
    assert OpRun(l, commitEvery, p, [op][..0]) == p;
  }

  // -------------------------------------------------------------- the import

  class Import {
    const ledger: Ledger
    const commitEvery: nat
    var tree: Tree
    var committed: Tree
    var root: Root
    var ops: nat
    var nAccounts: nat
    var applies: seq<ApplyRequest>

    ghost function View(): Progress
      reads this
    {
      Progress(tree, committed, root, ops, nAccounts, applies)
    }

    /** Nothing is committed yet; the genesis state is pending. */
    constructor (ledger: Ledger, commitEvery: nat, genesis: Tree)
      ensures this.ledger == ledger && this.commitEvery == commitEvery
      ensures View() == Start(ledger, genesis)
    {
      this.ledger := ledger;
      this.commitEvery := commitEvery;
      tree, committed, root, ops, nAccounts, applies := genesis, map[], ledger.rootOf(map[]), 0, 0, [];
    }

    method Commit()
      modifies this
      ensures View() == CommitNow(ledger, old(View()))
    {
      var writeLog, stateRoot := Diff(committed, tree), ledger.rootOf(tree);
      committed := tree;
      applies := applies + [ApplyRequest(root, stateRoot, writeLog)];
      root := stateRoot;
    }

    method CheckCommit()
      modifies this
      ensures var q := old(View()).(ops := old(ops) + 1);
        View() == if q.ops == commitEvery then CommitNow(ledger, q).(ops := 0) else q
    {
      ops := ops + 1;
      if ops == commitEvery {
        Commit();
        ops := 0;
      }
    }

    method Inject(op: ImportOp)
      modifies this
      ensures View() == OpStep(ledger, commitEvery, old(View()), op)
    {
      tree := ledger.effect(tree, op);
      CheckCommit();
    }

    method InjectStorage(address: string, items: seq<(string, string)>)
      modifies this
      ensures View() == OpRun(ledger, commitEvery, old(View()), StorageOps(address, items))
    {
      ghost var all := StorageOps(address, items);
      for i := 0 to |items|
        invariant View() == OpRun(ledger, commitEvery, old(View()), all[..i])
      {
        Inject(SetStorage(address, items[i].0, items[i].1));
        assert all[..i + 1][..i] == all[..i];
      }
      assert all[..|items|] == all;
    }

    method ImportAccount(e: Entry)
      modifies this
      ensures View() == OpRun(ledger, commitEvery, old(View()), EntryOps(e)).(nAccounts := old(nAccounts) + 1)
    {
      ghost var start, contract := View(), NewContract(e.0, e.1.balance, e.1.nonce);
      Inject(NewContract(e.0, e.1.balance, e.1.nonce));
      OpRunOne(ledger, commitEvery, start, contract);
      ghost var head := [contract];
      if e.1.code.Some? {
        ghost var mid := View();
        Inject(InitCode(e.0, e.1.code.value));
        OpRunOne(ledger, commitEvery, mid, InitCode(e.0, e.1.code.value));
        OpRunAppend(ledger, commitEvery, start, head, [InitCode(e.0, e.1.code.value)]);
        head := head + [InitCode(e.0, e.1.code.value)];
      }
      if e.1.storage.Some? {
        InjectStorage(e.0, e.1.storage.value);
        OpRunAppend(ledger, commitEvery, start, head, StorageOps(e.0, e.1.storage.value));
        head := head + StorageOps(e.0, e.1.storage.value);
      }
      assert head == EntryOps(e);
      OpRunKeepsAccounts(ledger, commitEvery, start, head);
      nAccounts := nAccounts + 1;
    }

    /** The whole import: every account in turn, and a last commit. */
    method Run(entries: seq<Entry>)
      modifies this
      ensures View() == CommitNow(ledger, RunEntries(ledger, commitEvery, old(View()), entries))
    {
      for i := 0 to |entries|
        invariant View() == RunEntries(ledger, commitEvery, old(View()), entries[..i])
      {
        ImportAccount(entries[i]);
        RunEntriesSnoc(ledger, commitEvery, old(View()), entries, i);
      }
      assert entries[..|entries|] == entries;
      Commit();
    }
  }

  ghost function RunEntries(l: Ledger, commitEvery: nat, p: Progress, entries: seq<Entry>): Progress {
    OpRun(l, commitEvery, p, AllOps(entries)).(nAccounts := p.nAccounts + |entries|)
  }

  lemma {:induction false} RunEntriesSnoc(l: Ledger, commitEvery: nat, p: Progress, entries: seq<Entry>, i: nat)
    requires i < |entries|
    ensures var before := RunEntries(l, commitEvery, p, entries[..i]);
      RunEntries(l, commitEvery, p, entries[..i + 1]) ==
        OpRun(l, commitEvery, before, EntryOps(entries[i])).(nAccounts := before.nAccounts + 1)
  {
    var done := OpRun(l, commitEvery, p, AllOps(entries[..i]));
    FlatMapSnoc(EntryOps, entries, i);
    OpRunAppend(l, commitEvery, p, AllOps(entries[..i]), EntryOps(entries[i]));
    AccountsDoNotMatter(l, commitEvery, done, p.nAccounts + i, EntryOps(entries[i]));
  }

  function Start(l: Ledger, genesis: Tree): Progress {
    Progress(genesis, map[], l.rootOf(map[]), 0, 0, [])
  }

  lemma {:induction false} OpRunKeepsAccounts(l: Ledger, commitEvery: nat, p: Progress, ops: seq<ImportOp>)
    ensures OpRun(l, commitEvery, p, ops).nAccounts == p.nAccounts
  {
    if ops != [] {
      OpRunKeepsAccounts(l, commitEvery, p, ops[..|ops| - 1]);
    }
  }

  lemma {:induction false} AccountsDoNotMatter(l: Ledger, commitEvery: nat, p: Progress, n: nat, ops: seq<ImportOp>)
    ensures OpRun(l, commitEvery, p.(nAccounts := n), ops) == OpRun(l, commitEvery, p, ops).(nAccounts := n)
  {
    if ops != [] {
      AccountsDoNotMatter(l, commitEvery, p, n, ops[..|ops| - 1]);
    }
  }

  // ------------------------------------------------------- batched equals one

  /** The state the operations build, with no batching at all. */
  function Fold(l: Ledger, t: Tree, ops: seq<ImportOp>): Tree {
    if ops == [] then t else l.effect(Fold(l, t, ops[..|ops| - 1]), ops[|ops| - 1])
  }

  /** The storage node's side: each request must start from the root reached so far
      and its write log must lead to the root it claims. */
  function Replay(l: Ledger, applies: seq<ApplyRequest>): Option<Tree> {
    if applies == [] then Some(map[])
    else
      var r := applies[|applies| - 1];
      match Replay(l, applies[..|applies| - 1])
      case None => None
      case Some(t) =>
        var t' := Patch(t, r.writeLog);
        if r.srcRoot == l.rootOf(t) && r.dstRoot == l.rootOf(t') then Some(t') else None
  }

  lemma {:induction false} CommitReplays(l: Ledger, p: Progress)
    requires Replay(l, p.applies) == Some(p.committed) && p.root == l.rootOf(p.committed)
    ensures var q := CommitNow(l, p);
      Replay(l, q.applies) == Some(q.committed) && q.root == l.rootOf(q.committed) && q.committed == p.tree
  {
    PatchDiff(p.committed, p.tree);
    var q := CommitNow(l, p);
    assert q.applies[..|p.applies|] == p.applies;
  }

  /** A state of the import after `n` operations: pending operations below the
      limit, one request for each full batch, and requests that storage accepts. */
  ghost predicate Accounted(l: Ledger, commitEvery: nat, p: Progress, n: nat) {
    && Replay(l, p.applies) == Some(p.committed)
    && p.root == l.rootOf(p.committed)
    && (commitEvery > 0 ==> p.ops < commitEvery)
    && (commitEvery == 0 ==> p.applies == [])
    && n == |p.applies| * commitEvery + p.ops
  }

  lemma {:induction false} AccountedStep(l: Ledger, commitEvery: nat, p: Progress, n: nat, op: ImportOp)
    requires Accounted(l, commitEvery, p, n)
    ensures Accounted(l, commitEvery, OpStep(l, commitEvery, p, op), n + 1)
    ensures OpStep(l, commitEvery, p, op).tree == l.effect(p.tree, op)
  {
    var q := p.(tree := l.effect(p.tree, op), ops := p.ops + 1);
    if q.ops == commitEvery {
      CommitReplays(l, q);
      BatchesAdd(|p.applies|, commitEvery);
    }
  }

  lemma {:induction false} BatchesAdd(k: nat, n: nat)
    ensures (k + 1) * n == k * n + n
  {
  }

  lemma {:induction false} ImportInvariant(l: Ledger, commitEvery: nat, genesis: Tree, ops: seq<ImportOp>)
    ensures var p := OpRun(l, commitEvery, Start(l, genesis), ops);
      p.tree == Fold(l, genesis, ops) && Accounted(l, commitEvery, p, |ops|)
  {
    if ops != [] {
      var n := |ops| - 1;
      ImportInvariant(l, commitEvery, genesis, ops[..n]);
      AccountedStep(l, commitEvery, OpRun(l, commitEvery, Start(l, genesis), ops[..n]), n, ops[n]);
    }
  }

  /** Batched import equals one import: for every batch size and every list of
      accounts, storage accepts the whole chain of requests from the empty root and
      ends with the state an unbatched import builds. */
  lemma {:induction false} BatchedImportEqualsOne(l: Ledger, commitEvery: nat, genesis: Tree, entries: seq<Entry>)
    ensures var ops := AllOps(entries);
      var last := OpRun(l, commitEvery, Start(l, genesis), ops);
      var p := CommitNow(l, last);
      && Replay(l, p.applies) == Some(Fold(l, genesis, ops))
      && p.root == l.rootOf(Fold(l, genesis, ops))
      && p.applies[0].srcRoot == l.rootOf(map[])
      && |ops| == (|p.applies| - 1) * commitEvery + last.ops
      && (commitEvery > 0 ==> last.ops < commitEvery)
      && (commitEvery == 0 ==> |p.applies| == 1)
  {
    var ops := AllOps(entries);
    var last := OpRun(l, commitEvery, Start(l, genesis), ops);
    ImportInvariant(l, commitEvery, genesis, ops);
    CommitReplays(l, last);
    FirstSource(l, commitEvery, genesis, ops);
  }

  lemma {:induction false} FirstSource(l: Ledger, commitEvery: nat, genesis: Tree, ops: seq<ImportOp>)
    ensures var p := OpRun(l, commitEvery, Start(l, genesis), ops);
      if p.applies == [] then p.root == l.rootOf(map[]) else p.applies[0].srcRoot == l.rootOf(map[])
  {
    if ops != [] {
      FirstSource(l, commitEvery, genesis, ops[..|ops| - 1]);
    }
  }

  /** The tree before batch `k`; nothing is committed before the first. */
  ghost function BatchStart(l: Ledger, commitEvery: nat, genesis: Tree, ops: seq<ImportOp>, k: nat): Tree
    requires k * commitEvery <= |ops|
  {
    if k == 0 then map[] else Fold(l, genesis, ops[..k * commitEvery])
  }

  /** Request `k` carries exactly what operations k*n to (k+1)*n change. */
  ghost predicate FullBatch(
      l: Ledger, commitEvery: nat, genesis: Tree, ops: seq<ImportOp>, applies: seq<ApplyRequest>, k: nat)
    requires k < |applies|
  {
    BatchesAdd(k, commitEvery);
    var end := (k + 1) * commitEvery;
    && commitEvery > 0 && end <= |ops|
    && var before, after := BatchStart(l, commitEvery, genesis, ops, k), Fold(l, genesis, ops[..end]);
    applies[k] == ApplyRequest(l.rootOf(before), l.rootOf(after), Diff(before, after))
  }

  lemma {:induction false} FullBatchExtends(
      l: Ledger, commitEvery: nat, genesis: Tree, ops: seq<ImportOp>, n: nat,
      applies: seq<ApplyRequest>, more: seq<ApplyRequest>, k: nat)
    requires n <= |ops| && k < |applies| && applies <= more
    requires FullBatch(l, commitEvery, genesis, ops[..n], applies, k)
    ensures FullBatch(l, commitEvery, genesis, ops, more, k)
  {
    BatchesAdd(k, commitEvery);
    var start, end := k * commitEvery, (k + 1) * commitEvery;
    assert ops[..n][..end] == ops[..end] && ops[..n][..start] == ops[..start];
  }

  /** The tree last committed is the one the last full batch ended with. */
  lemma {:induction false} CommittedAt(l: Ledger, commitEvery: nat, genesis: Tree, ops: seq<ImportOp>)
    ensures var p := OpRun(l, commitEvery, Start(l, genesis), ops);
      && |p.applies| * commitEvery <= |ops|
      && p.committed == BatchStart(l, commitEvery, genesis, ops, |p.applies|)
  {
    ImportInvariant(l, commitEvery, genesis, ops);
    if ops != [] {
      var n := |ops| - 1;
      var before := OpRun(l, commitEvery, Start(l, genesis), ops[..n]);
      var p := OpRun(l, commitEvery, Start(l, genesis), ops);
      CommittedAt(l, commitEvery, genesis, ops[..n]);
      ImportInvariant(l, commitEvery, genesis, ops[..n]);
      BatchesAdd(|before.applies|, commitEvery);
      if before.ops + 1 == commitEvery {
        assert ops[..|p.applies| * commitEvery] == ops;
      } else {
        assert ops[..n][..|p.applies| * commitEvery] == ops[..|p.applies| * commitEvery];
      }
    }
  }

  lemma {:induction false} NewBatchIsFull(
      l: Ledger, commitEvery: nat, genesis: Tree, ops: seq<ImportOp>, p: Progress)
    requires ops != [] && p.ops + 1 == commitEvery
    requires |ops| - 1 == |p.applies| * commitEvery + p.ops
    requires p.tree == Fold(l, genesis, ops[..|ops| - 1])
    requires p.committed == BatchStart(l, commitEvery, genesis, ops, |p.applies|) && p.root == l.rootOf(p.committed)
    ensures var q := OpStep(l, commitEvery, p, ops[|ops| - 1]);
      |q.applies| == |p.applies| + 1 && FullBatch(l, commitEvery, genesis, ops, q.applies, |p.applies|)
  {
    BatchesAdd(|p.applies|, commitEvery);
    var end := (|p.applies| + 1) * commitEvery;
    assert end == |ops|;
    assert ops[..end] == ops;
  }

  /** Every request before the last pushes exactly one full batch of operations, from
      the root and the tree the request before it ended with. */
  lemma {:induction false} EachBatchIsFull(l: Ledger, commitEvery: nat, genesis: Tree, ops: seq<ImportOp>, k: nat)
    requires k < |OpRun(l, commitEvery, Start(l, genesis), ops).applies|
    ensures FullBatch(l, commitEvery, genesis, ops, OpRun(l, commitEvery, Start(l, genesis), ops).applies, k)
    decreases |ops|
  {
    var n := |ops| - 1;
    var before, p := OpRun(l, commitEvery, Start(l, genesis), ops[..n]), OpRun(l, commitEvery, Start(l, genesis), ops);
    if k < |before.applies| {
      EachBatchIsFull(l, commitEvery, genesis, ops[..n], k);
      FullBatchExtends(l, commitEvery, genesis, ops, n, before.applies, p.applies, k);
    } else {
      ImportInvariant(l, commitEvery, genesis, ops[..n]);
      CommittedAt(l, commitEvery, genesis, ops[..n]);
      assert ops[..n][..|before.applies| * commitEvery] == ops[..|before.applies| * commitEvery];
      NewBatchIsFull(l, commitEvery, genesis, ops, before);
    }
  }

  /** The last request, from the closing commit, pushes the operations that are left. */
  lemma {:induction false} LastBatchIsTheRest(l: Ledger, commitEvery: nat, genesis: Tree, ops: seq<ImportOp>)
    ensures var p := OpRun(l, commitEvery, Start(l, genesis), ops);
      var q := CommitNow(l, p);
      && |p.applies| * commitEvery <= |ops|
      && var before, after := BatchStart(l, commitEvery, genesis, ops, |p.applies|), Fold(l, genesis, ops);
      q.applies == p.applies + [ApplyRequest(l.rootOf(before), l.rootOf(after), Diff(before, after))]
  {
    ImportInvariant(l, commitEvery, genesis, ops);
    CommittedAt(l, commitEvery, genesis, ops);
  }
}
