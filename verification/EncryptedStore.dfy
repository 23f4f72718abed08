/**
 Contract storage behind the confidential context: whatever the interleaving of
 writes, contract switches, deactivations and new blocks, it behaves as a plain
 map from (contract, key) to value.
 */
module EncryptedStore {
  import opened Basics
  import opened Wire
  import opened Confidential

  /** The ciphertexts at rest, by contract and encrypted key. */
  type Store = map<(Address, Bytes), Bytes>

  datatype World = World(ctx: Ctx, store: Store)

  /** A write that was stored, for the reference semantics. */
  datatype Stored = Stored(address: Address, key: Bytes, value: Bytes)

  ghost predicate CanWrite(sv: Services, ctx: Ctx) {
    Inv(sv, ctx) && ctx.contract.Some? && Increment(ctx.nextStorageNonce.value).Some?
  }

  /** The world after one operation: a write goes to its slot unless the context
      refuses to encrypt it. */
  function WorldStep(sv: Services, w: World, op: Op): World {
    var ctx := CtxStep(sv, w.ctx, op);
    if op.Write? && w.ctx.contract.Some? && w.ctx.d2.Some? && w.ctx.nextStorageNonce.Some? then
      var slot := EncryptStorageKey(sv, w.ctx, op.key);
      match EncryptStorageValue(sv, w.ctx, slot, op.value).result
      case Err(_) => World(ctx, w.store)
      case Ok(sealed) => World(ctx, w.store[(w.ctx.contract.value.address, slot) := sealed])
    else World(ctx, w.store)
  }

  function WorldRun(sv: Services, w: World, ops: seq<Op>): World {
    if ops == [] then w else WorldStep(sv, WorldRun(sv, w, ops[..|ops| - 1]), ops[|ops| - 1])
  }

  lemma {:induction false} WorldCtx(sv: Services, w: World, ops: seq<Op>)
    ensures WorldRun(sv, w, ops).ctx == CtxRun(sv, w.ctx, ops)
  {
    if ops != [] {
      WorldCtx(sv, w, ops[..|ops| - 1]);
    }
  }

  /** What a plain map would have been asked to store along the same run. */
  ghost function Writes(sv: Services, w: World, ops: seq<Op>): seq<Stored> {
    if ops == [] then []
    else
      var n := |ops| - 1;
      var before := WorldRun(sv, w, ops[..n]);
      Writes(sv, w, ops[..n]) +
      if ops[n].Write? && CanWrite(sv, before.ctx)
      then [Stored(before.ctx.contract.value.address, ops[n].key, ops[n].value)] else []
  }

  /** The last value written for a key of a contract. */
  function LastWrite(writes: seq<Stored>, address: Address, key: Bytes): Option<Bytes> {
    if writes == [] then None
    else
      var last := writes[|writes| - 1];
      if last.address == address && last.key == key then Some(last.value)
      else LastWrite(writes[..|writes| - 1], address, key)
  }

  /** Reading a key through a context that has the contract active. */
  function ReadStorage(sv: Services, ctx: Ctx, store: Store, key: Bytes): Option<Result<Bytes, CtxError>>
    requires ctx.contract.Some? && ctx.d2.Some?
  {
    var slot := EncryptStorageKey(sv, ctx, key);
    var at := (ctx.contract.value.address, slot);
    if at in store then Some(DecryptStorageValue(sv, ctx, slot, store[at])) else None
  }

  lemma {:induction false} SlotsAreInjective(sv: Services, state: StateKey, k: Bytes, l: Bytes)
    requires LawfulServices(sv) && SlotOf(sv, state, k) == SlotOf(sv, state, l)
    ensures k == l
  {
    assert sv.open(state, Zeros(NONCE_SIZE), SlotOf(sv, state, k), []) == Some(k);
    assert sv.open(state, Zeros(NONCE_SIZE), SlotOf(sv, state, l), []) == Some(l);
  }

  /** What is stored for one key: nothing if it was never written, and otherwise a
      ciphertext that opens under the contract's key to the last value. */
  ghost predicate Holds(
      sv: Services, store: Store, writes: seq<Stored>, address: Address, state: StateKey, key: Bytes)
  {
    var slot := SlotOf(sv, state, key);
    match LastWrite(writes, address, key)
    case None => (address, slot) !in store
    case Some(value) =>
      && (address, slot) in store
      && var data := store[(address, slot)];
      && |data| == |value| + TAG_SIZE + NONCE_SIZE
      && sv.open(state, data[|data| - NONCE_SIZE..], data[..|data| - NONCE_SIZE], slot) == Some(value)
  }

  lemma {:induction false} SealedValueOpens(sv: Services, ctx: Ctx, slot: Bytes, value: Bytes)
    requires LawfulServices(sv) && Inv(sv, ctx) && ctx.contract.Some?
    requires EncryptStorageValue(sv, ctx, slot, value).result.Ok?
    ensures var data := EncryptStorageValue(sv, ctx, slot, value).result.value;
      && |data| == |value| + TAG_SIZE + NONCE_SIZE
      && sv.open(ctx.d2.value, data[|data| - NONCE_SIZE..], data[..|data| - NONCE_SIZE], slot) == Some(value)
  {
    var nonce := NonceBytes(ctx.nextStorageNonce.value);
    var sealed := sv.seal(ctx.d2.value, nonce, value, slot);
    var data := sealed + nonce;
    assert |sealed| == |value| + TAG_SIZE;
    assert data[|data| - NONCE_SIZE..] == nonce && data[..|data| - NONCE_SIZE] == sealed;
  }

  lemma {:induction false} LastWriteSnoc(writes: seq<Stored>, w: Stored, address: Address, key: Bytes)
    ensures LastWrite(writes + [w], address, key) ==
      if w.address == address && w.key == key then Some(w.value) else LastWrite(writes, address, key)
  {
    assert (writes + [w])[..|writes|] == writes;
  }

  lemma {:induction false} StoreHolds(
      sv: Services, w: World, ops: seq<Op>, address: Address, state: StateKey, key: Bytes)
    requires LawfulServices(sv) && Inv(sv, w.ctx) && w.store == map[]
    requires sv.keys(address).Some? && sv.keys(address).value.stateKey == state
    ensures Holds(sv, WorldRun(sv, w, ops).store, Writes(sv, w, ops), address, state, key)
  {
    if ops != [] {
      var n := |ops| - 1;
      var before, op := WorldRun(sv, w, ops[..n]), ops[n];
      StoreHolds(sv, w, ops[..n], address, state, key);
      WorldCtx(sv, w, ops[..n]);
      RunKeepsInv(sv, w.ctx, ops[..n]);
      if op.Write? && CanWrite(sv, before.ctx) {
        WriteHolds(sv, before, Writes(sv, w, ops[..n]), op, address, state, key);
      } else {
        assert WorldRun(sv, w, ops).store == before.store;
        assert Writes(sv, w, ops) == Writes(sv, w, ops[..n]);
      }
    }
  }

  lemma {:induction false} WriteHolds(
      sv: Services, w: World, writes: seq<Stored>, op: Op, address: Address, state: StateKey, key: Bytes)
    requires LawfulServices(sv) && CanWrite(sv, w.ctx) && op.Write?
    requires sv.keys(address).Some? && sv.keys(address).value.stateKey == state
    requires Holds(sv, w.store, writes, address, state, key)
    ensures Holds(sv, WorldStep(sv, w, op).store,
                  writes + [Stored(w.ctx.contract.value.address, op.key, op.value)], address, state, key)
  {
    var current := w.ctx.contract.value.address;
    var slot := EncryptStorageKey(sv, w.ctx, op.key);
    LastWriteSnoc(writes, Stored(current, op.key, op.value), address, key);
    SealedValueOpens(sv, w.ctx, slot, op.value);
    if current == address && op.key != key && slot == SlotOf(sv, state, key) {
      SlotsAreInjective(sv, state, op.key, key);
    }
  }

  /** The encrypted store refines a plain map: after any run from an empty store,
      reading a key while a contract is active gives the last value written for
      that key under that contract, or nothing if there was none. */
  lemma {:induction false} EncryptedStoreRefinesMap(sv: Services, prevBlockHash: Digest, ops: seq<Op>, key: Bytes)
    requires LawfulServices(sv)
    requires WorldRun(sv, World(NewCtx(prevBlockHash), map[]), ops).ctx.contract.Some?
    ensures var start := World(NewCtx(prevBlockHash), map[]);
      var w := WorldRun(sv, start, ops);
      && Inv(sv, w.ctx)
      && ReadStorage(sv, w.ctx, w.store, key) ==
           match LastWrite(Writes(sv, start, ops), w.ctx.contract.value.address, key)
           case None => None
           case Some(value) => Some(Ok(value))
  {
    var start := World(NewCtx(prevBlockHash), map[]);
    var w := WorldRun(sv, start, ops);
    WorldCtx(sv, start, ops);
    ReachableKeepsInv(sv, prevBlockHash, ops);
    var c := w.ctx.contract.value;
    StoreHolds(sv, start, ops, c.address, c.keys.stateKey, key);
  }

  /** Every ciphertext at rest is exactly one tag and one nonce longer than the value
      it holds. */
  lemma {:induction false} CiphertextLength(
      sv: Services, prevBlockHash: Digest, ops: seq<Op>, address: Address, key: Bytes)
    requires LawfulServices(sv) && sv.keys(address).Some?
    ensures var start := World(NewCtx(prevBlockHash), map[]);
      var at := (address, SlotOf(sv, sv.keys(address).value.stateKey, key));
      var store := WorldRun(sv, start, ops).store;
      var last := LastWrite(Writes(sv, start, ops), address, key);
      && (at in store <==> last.Some?)
      && (last.Some? ==> |store[at]| == |last.value| + TAG_SIZE + NONCE_SIZE)
  {
    StoreHolds(sv, World(NewCtx(prevBlockHash), map[]), ops, address, sv.keys(address).value.stateKey, key);
  }

  // ------------------------------------------------------- one activation span

  function CountWrites(ops: seq<Op>): nat {
    if ops == [] then 0
    else CountWrites(ops[..|ops| - 1]) + if ops[|ops| - 1].Write? then 1 else 0
  }

  ghost predicate StaysInContract(ops: seq<Op>) {
    forall op :: op in ops ==> op.Reply? || op.Receive? || op.Write?
  }

  /** A context in an activation of `address` that has tried `k` writes. */
  ghost predicate SpanAt(sv: Services, ctx: Ctx, address: Address, first: Nonce, k: nat) {
    && AddressOf(ctx) == Some(address)
    && ctx.d2.Some?
    && ctx.nextStorageNonce == Some(first.(counter := Min(k, U32 - 1)))
  }

  lemma {:induction false} SpanStep(sv: Services, ctx: Ctx, op: Op, address: Address, first: Nonce, k: nat)
    requires op.Reply? || op.Receive? || op.Write?
    requires first.start == 0 && SpanAt(sv, ctx, address, first, k)
    ensures SpanAt(sv, CtxStep(sv, ctx, op), address, first, if op.Write? then k + 1 else k)
    ensures op.Write? ==>
      EncryptStorageValue(sv, ctx, EncryptStorageKey(sv, ctx, op.key), op.value).result.Ok? == (k < U32 - 1)
  {
    var n := ctx.nextStorageNonce.value;
    if k < U32 - 1 {
      assert Increment(n) == Some(first.(counter := k + 1));
    } else {
      assert Increment(n) == None;
    }
  }

  lemma {:induction false} SpanRun(sv: Services, w: World, ops: seq<Op>, address: Address, first: Nonce)
    requires first.start == 0 && SpanAt(sv, w.ctx, address, first, 0) && StaysInContract(ops)
    ensures SpanAt(sv, WorldRun(sv, w, ops).ctx, address, first, CountWrites(ops))
  {
    if ops != [] {
      var n := |ops| - 1;
      assert ops[n] in ops && forall op :: op in ops[..n] ==> op in ops;
      SpanRun(sv, w, ops[..n], address, first);
      SpanStep(sv, WorldRun(sv, w, ops[..n]).ctx, ops[n], address, first, CountWrites(ops[..n]));
    }
  }

  /** Within one activation the storage nonces share the contract's tag and count up
      from zero, one for each write, until the counter is used up. */
  lemma {:induction false} StorageNoncesCount(sv: Services, w: World, address: Address, ops: seq<Op>)
    requires sv.keys(address).Some? && StaysInContract(ops)
    ensures var start := World(Activate(sv, w.ctx, Some(address)).ctx, w.store);
      var ctx := WorldRun(sv, start, ops).ctx;
      && AddressOf(ctx) == Some(address)
      && ctx.nextStorageNonce ==
           Some(Nonce(sv.digest(w.ctx.prevBlockHash + address)[..NONCE_TAG_SIZE], 0, Min(CountWrites(ops), U32 - 1)))
  {
    var start := World(Activate(sv, w.ctx, Some(address)).ctx, w.store);
    StorageNonceStartsAtZero(sv, w.ctx.prevBlockHash, address);
    SpanRun(sv, start, ops, address, StorageNonce(sv, w.ctx.prevBlockHash, address));
  }

  // ------------------------------------------------ nonces across activations

  /** Writes sealed since the current contract was last activated. */
  ghost function Ordinal(sv: Services, ctx: Ctx, ops: seq<Op>): nat {
    if ops == [] then 0
    else
      var n := |ops| - 1;
      var before := CtxRun(sv, ctx, ops[..n]);
      match ops[n]
      case NewBlock(_) => 0
      case CloseContext => 0
      case SwitchContract(target) =>
        if Activate(sv, before, target).result.Ok? then 0 else Ordinal(sv, ctx, ops[..n])
      case Write(_, _) => Ordinal(sv, ctx, ops[..n]) + if CanWrite(sv, before) then 1 else 0
      case _ => Ordinal(sv, ctx, ops[..n])
  }

  /** One operation moves the storage counter as it moves the ordinal. */
  lemma {:induction false} CounterStep(sv: Services, ctx: Ctx, op: Op)
    requires Inv(sv, ctx)
    ensures var t := CtxStep(sv, ctx, op);
      t.contract.Some? ==>
        if op.SwitchContract? && Activate(sv, ctx, op.target).result.Ok? then t.nextStorageNonce.value.counter == 0
        else
          && ctx.contract.Some?
          && t.nextStorageNonce.value.counter ==
               ctx.nextStorageNonce.value.counter + if op.Write? && CanWrite(sv, ctx) then 1 else 0
  {
    if op.SwitchContract? && op.target.Some? {
      StorageNonceStartsAtZero(sv, ctx.prevBlockHash, op.target.value);
    }
  }

  /** The storage counter is the number of writes since the activation, across any run. */
  lemma {:induction false} OrdinalIsCounter(sv: Services, prevBlockHash: Digest, ops: seq<Op>)
    ensures var ctx := CtxRun(sv, NewCtx(prevBlockHash), ops);
      && Inv(sv, ctx)
      && (ctx.contract.Some? ==> ctx.nextStorageNonce.value.counter == Ordinal(sv, NewCtx(prevBlockHash), ops))
  {
    ReachableKeepsInv(sv, prevBlockHash, ops);
    if ops != [] {
      var n := |ops| - 1;
      OrdinalIsCounter(sv, prevBlockHash, ops[..n]);
      CounterStep(sv, CtxRun(sv, NewCtx(prevBlockHash), ops[..n]), ops[n]);
    }
  }

  /** The nonce that operation `i` of a run, a write, leaves behind its ciphertext. */
  ghost function NonceUsed(sv: Services, prevBlockHash: Digest, ops: seq<Op>, i: nat): Bytes
    requires WritesAt(sv, prevBlockHash, ops, i)
  {
    var ctx := CtxRun(sv, NewCtx(prevBlockHash), ops[..i]);
    var sealed := EncryptStorageValue(sv, ctx, EncryptStorageKey(sv, ctx, ops[i].key), ops[i].value).result.value;
    if |sealed| < NONCE_SIZE then [] else sealed[|sealed| - NONCE_SIZE..]
  }

  ghost predicate WritesAt(sv: Services, prevBlockHash: Digest, ops: seq<Op>, i: nat) {
    i < |ops| && ops[i].Write? && CanWrite(sv, CtxRun(sv, NewCtx(prevBlockHash), ops[..i]))
  }

  lemma {:induction false} NonceUsedIsNext(sv: Services, prevBlockHash: Digest, ops: seq<Op>, i: nat)
    requires WritesAt(sv, prevBlockHash, ops, i)
    ensures NonceUsed(sv, prevBlockHash, ops, i) ==
      NonceBytes(CtxRun(sv, NewCtx(prevBlockHash), ops[..i]).nextStorageNonce.value)
  {
    var ctx := CtxRun(sv, NewCtx(prevBlockHash), ops[..i]);
    var nonce := NonceBytes(ctx.nextStorageNonce.value);
    var slot := EncryptStorageKey(sv, ctx, ops[i].key);
    var text := sv.seal(ctx.d2.value, nonce, ops[i].value, slot);
    assert (text + nonce)[|text + nonce| - NONCE_SIZE..] == nonce;
  }

  /** When storage nonces repeat: two writes of one contract in one block leave the same
      nonce iff they have the same ordinal in their activations.  Every activation
      starts counting again, also the one that returns from a nested call. */
  lemma {:induction false} StorageNoncesRepeatIff(
      sv: Services, prevBlockHash: Digest, ops: seq<Op>, i: nat, j: nat)
    requires i < j && WritesAt(sv, prevBlockHash, ops, i) && WritesAt(sv, prevBlockHash, ops, j)
    requires var a, b := CtxRun(sv, NewCtx(prevBlockHash), ops[..i]), CtxRun(sv, NewCtx(prevBlockHash), ops[..j]);
      AddressOf(a) == AddressOf(b) && a.prevBlockHash == b.prevBlockHash
    ensures NonceUsed(sv, prevBlockHash, ops, i) == NonceUsed(sv, prevBlockHash, ops, j) <==>
      Ordinal(sv, NewCtx(prevBlockHash), ops[..i]) == Ordinal(sv, NewCtx(prevBlockHash), ops[..j])
  {
    var start := NewCtx(prevBlockHash);
    var m, n := CtxRun(sv, start, ops[..i]).nextStorageNonce.value, CtxRun(sv, start, ops[..j]).nextStorageNonce.value;
    OrdinalIsCounter(sv, prevBlockHash, ops[..i]);
    OrdinalIsCounter(sv, prevBlockHash, ops[..j]);
    NonceUsedIsNext(sv, prevBlockHash, ops, i);
    NonceUsedIsNext(sv, prevBlockHash, ops, j);
    assert m.tag == n.tag && m.start == n.start;
    if NonceBytes(m) == NonceBytes(n) {
      NonceBytesInjective(m, n);
    }
  }

  /** In particular, activating a contract again repeats the nonce of its first write. */
  lemma {:induction false} ReactivationRepeatsNonce(
      sv: Services, prevBlockHash: Digest, address: Address, k: Bytes, v: Bytes, l: Bytes, w: Bytes)
    requires sv.keys(address).Some?
    ensures var ops := [SwitchContract(Some(address)), Write(k, v), SwitchContract(None),
                        SwitchContract(Some(address)), Write(l, w)];
      && WritesAt(sv, prevBlockHash, ops, 1) && WritesAt(sv, prevBlockHash, ops, 4)
      && NonceUsed(sv, prevBlockHash, ops, 1) == NonceUsed(sv, prevBlockHash, ops, 4)
  {
    var ops := [SwitchContract(Some(address)), Write(k, v), SwitchContract(None),
                SwitchContract(Some(address)), Write(l, w)];
    var start := NewCtx(prevBlockHash);
    assert ops[..1][..0] == [] && ops[..2][..1] == ops[..1] && ops[..3][..2] == ops[..2] && ops[..4][..3] == ops[..3];
    ActivationIsFresh(sv, prevBlockHash, ops, 0, address);
    ActivationIsFresh(sv, prevBlockHash, ops, 3, address);
    assert CtxRun(sv, start, ops[..1]).prevBlockHash == prevBlockHash;
    assert CtxRun(sv, start, ops[..2]).prevBlockHash == prevBlockHash;
    assert CtxRun(sv, start, ops[..3]).prevBlockHash == prevBlockHash;
    assert CtxRun(sv, start, ops[..4]).prevBlockHash == prevBlockHash;
    StorageNoncesRepeatIff(sv, prevBlockHash, ops, 1, 4);
  }

  lemma {:induction false} ActivationIsFresh(
      sv: Services, prevBlockHash: Digest, ops: seq<Op>, i: nat, address: Address)
    requires i < |ops| && ops[i] == SwitchContract(Some(address)) && sv.keys(address).Some?
    ensures var ctx := CtxRun(sv, NewCtx(prevBlockHash), ops[..i + 1]);
      && CanWrite(sv, ctx) && AddressOf(ctx) == Some(address)
      && Ordinal(sv, NewCtx(prevBlockHash), ops[..i + 1]) == 0
  {
    assert ops[..i + 1][..i] == ops[..i];
    OrdinalIsCounter(sv, prevBlockHash, ops[..i + 1]);
  }
}
