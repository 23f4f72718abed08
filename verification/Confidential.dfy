/**
 The confidential context: session and storage nonces, contract switching, and
 encryption of sessions and of contract storage.

 Deoxys-II, the box, the digest and the key manager are library services; the key
 manager is a stable map, and an address it has no answer for is a failed call.
 */
module Confidential {
  import opened Basics
  import opened Wire

  const KEY_SIZE: nat := 32
  const NONCE_TAG_SIZE: nat := 11
  const COUNTER_SIZE: nat := NONCE_SIZE - NONCE_TAG_SIZE
  const U32: nat := 0x1_0000_0000

  type Address = Bytes
  type Digest = b: Bytes | |b| == 32 witness seq(32, _ => 0)
  type StateKey = b: Bytes | |b| == KEY_SIZE witness seq(32, _ => 0)

  datatype KeyPair = KeyPair(publicKey: Bytes, secretKey: Bytes, stateKey: StateKey)

  datatype Contract = Contract(address: Address, keys: KeyPair)

  datatype Services = Services(
    box: Box,
    checked: bool,
    seal: (StateKey, Bytes, Bytes, Bytes) -> Bytes,
    open: (StateKey, Bytes, Bytes, Bytes) -> Option<Bytes>,
    keys: Address -> Option<KeyPair>,
    digest: Bytes -> Digest)

  ghost predicate LawfulServices(sv: Services) {
    && LawfulBox(sv.box)
    && (forall k, n, text, aad ::
          && sv.open(k, n, sv.seal(k, n, text, aad), aad) == Some(text)
          && |sv.seal(k, n, text, aad)| == |text| + TAG_SIZE)
    && (forall a :: sv.keys(a).Some? ==> sv.keys(a).value.publicKey == sv.box.publicOf(sv.keys(a).value.secretKey))
  }

  // ------------------------------------------------------------------ nonces

  /** An 11-byte tag and a 32-bit counter, with the counter it started from. */
  datatype Nonce = Nonce(tag: Bytes, start: nat, counter: nat)

  ghost predicate ValidNonce(n: Nonce) {
    |n.tag| == NONCE_TAG_SIZE && n.start < U32 && n.counter < U32
  }

  function NonceBytes(n: Nonce): (b: Bytes)
    ensures |b| == |n.tag| + COUNTER_SIZE
  {
    n.tag + ToBE(n.counter, COUNTER_SIZE)
  }

  function NewNonce(b: Bytes): Nonce
    requires |b| == NONCE_SIZE
  {
    var counter := FromBE(b[NONCE_TAG_SIZE..]);
    Nonce(b[..NONCE_TAG_SIZE], counter, counter)
  }

  lemma {:induction false} Pow256OfCounter()
    ensures Pow256(COUNTER_SIZE) == U32
  {
    assert Pow256(4) == 0x1_0000_0000;
  }

  lemma {:induction false} NonceRoundTrip(b: Bytes)
    requires |b| == NONCE_SIZE
    ensures ValidNonce(NewNonce(b)) && NonceBytes(NewNonce(b)) == b
  {
    Pow256OfCounter();
    ToFromBE(b[NONCE_TAG_SIZE..]);
  }

  lemma {:induction false} NonceBytesInjective(m: Nonce, n: Nonce)
    requires ValidNonce(m) && ValidNonce(n) && NonceBytes(m) == NonceBytes(n)
    ensures m.tag == n.tag && m.counter == n.counter
  {
    Pow256OfCounter();
    FromToBE(m.counter, COUNTER_SIZE);
    FromToBE(n.counter, COUNTER_SIZE);
    assert NonceBytes(m)[NONCE_TAG_SIZE..] == ToBE(m.counter, COUNTER_SIZE);
    assert NonceBytes(n)[NONCE_TAG_SIZE..] == ToBE(n.counter, COUNTER_SIZE);
    assert NonceBytes(m)[..NONCE_TAG_SIZE] == m.tag && NonceBytes(n)[..NONCE_TAG_SIZE] == n.tag;
  }

  /** The next nonce; none is left once the counter would be back at its start. */
  function Increment(n: Nonce): Option<Nonce> {
    var next := (n.counter + 1) % U32;
    if next == n.start then None else Some(n.(counter := next))
  }

  // ------------------------------------------------------------------ context

  datatype Ctx = Ctx(
    peer: Option<Bytes>,
    contract: Option<Contract>,
    nextNonce: Option<Nonce>,
    activated: bool,
    prevBlockHash: Digest,
    d2: Option<StateKey>,
    nextStorageNonce: Option<Nonce>)

  datatype CtxError =
    | KeyManagerFailed
    | CannotEncryptSession(noPeer: bool, noContract: bool, noNonce: bool)
    | Crypto(error: CryptoError)
    | NonceExhausted
    | TruncatedCiphertext
    | InvalidStorageKey
    | ProcessStops

  datatype Out<T> = Out(ctx: Ctx, result: Result<T, CtxError>)

  datatype AuthenticatedPayload = AuthenticatedPayload(decrypted: Bytes, additional: Bytes)

  function NewCtx(prevBlockHash: Digest): Ctx {
    Ctx(None, None, None, false, prevBlockHash, None, None)
  }

  /** H(prev_block_hash || address)[..11] || 0x00000000. */
  function StorageNonce(sv: Services, prevBlockHash: Digest, address: Address): Nonce {
    NewNonce(sv.digest(prevBlockHash + address)[..NONCE_TAG_SIZE] + Zeros(COUNTER_SIZE))
  }

  lemma {:induction false} StorageNonceStartsAtZero(sv: Services, prevBlockHash: Digest, address: Address)
    ensures var n := StorageNonce(sv, prevBlockHash, address);
      ValidNonce(n) && n.start == n.counter == 0 && n.tag == sv.digest(prevBlockHash + address)[..NONCE_TAG_SIZE]
  {
    var b := sv.digest(prevBlockHash + address)[..NONCE_TAG_SIZE] + Zeros(COUNTER_SIZE);
    NonceRoundTrip(b);
    ZerosAreZero(COUNTER_SIZE);
    assert b[NONCE_TAG_SIZE..] == Zeros(COUNTER_SIZE);
    assert b[..NONCE_TAG_SIZE] == sv.digest(prevBlockHash + address)[..NONCE_TAG_SIZE];
  }

  function SwapContract(sv: Services, ctx: Ctx, contract: Option<Contract>): Ctx {
    match contract
    case None => ctx.(contract := None, d2 := None, nextStorageNonce := None)
    case Some(c) =>
      ctx.(contract := contract, d2 := Some(c.keys.stateKey[..KEY_SIZE]),
           nextStorageNonce := Some(StorageNonce(sv, ctx.prevBlockHash, c.address)))
  }

  function AddressOf(ctx: Ctx): Option<Address> {
    if ctx.contract.Some? then Some(ctx.contract.value.address) else None
  }

  /** Switches to a contract, or to none; answers the address switched away from. */
  function Activate(sv: Services, ctx: Ctx, target: Option<Address>): Out<Option<Address>> {
    var on := ctx.(activated := true);
    match target
    case None => Out(SwapContract(sv, on, None), Ok(AddressOf(ctx)))
    case Some(a) =>
      match sv.keys(a)
      case None => Out(on, Err(KeyManagerFailed))
      case Some(keys) => Out(SwapContract(sv, on, Some(Contract(a, keys))), Ok(AddressOf(ctx)))
  }

  function Deactivate(ctx: Ctx): Ctx {
    NewCtx(ctx.prevBlockHash)
  }

  function EncryptSession(sv: Services, ctx: Ctx, data: Bytes): Out<Bytes> {
    if ctx.peer.None? || ctx.contract.None? || ctx.nextNonce.None? then
      Out(ctx, Err(CannotEncryptSession(ctx.peer.None?, ctx.contract.None?, ctx.nextNonce.None?)))
    else
      var nonce, keys := ctx.nextNonce.value, ctx.contract.value.keys;
      match Encrypt(sv.box, data, NonceBytes(nonce), ctx.peer.value, keys.publicKey, keys.secretKey, [])
      case Err(e) => Out(ctx, Err(Crypto(e)))
      case Ok(payload) =>
        match Increment(nonce)
        case None => Out(ctx, Err(NonceExhausted))
        case Some(next) => Out(ctx.(nextNonce := Some(next)), Ok(payload))
  }

  function DecryptSession(sv: Services, ctx: Ctx, payload: Bytes): Out<AuthenticatedPayload>
    requires ctx.contract.Some?
  {
    match Decrypt(sv.box, sv.checked, Some(payload), ctx.contract.value.keys.secretKey)
    case Stopped => Out(ctx, Err(ProcessStops))
    case Refused(e) => Out(ctx, Err(Crypto(e)))
    case Opened(d) =>
      var met := ctx.(peer := Some(d.peerPublicKey));
      match Increment(NewNonce(d.nonce))
      case None => Out(met, Err(NonceExhausted))
      case Some(next) =>
        Out(met.(nextNonce := Some(next)), Ok(AuthenticatedPayload(d.plaintext, d.aad)))
  }

  /** The encrypted form of a storage key under a contract's state key. */
  function SlotOf(sv: Services, state: StateKey, key: Bytes): Bytes {
    sv.seal(state, Zeros(NONCE_SIZE), key, [])
  }

  function EncryptStorageKey(sv: Services, ctx: Ctx, data: Bytes): Bytes
    requires ctx.d2.Some?
  {
    SlotOf(sv, ctx.d2.value, data)
  }

  function EncryptStorageValue(sv: Services, ctx: Ctx, storageKey: Bytes, data: Bytes): Out<Bytes>
    requires ctx.d2.Some? && ctx.nextStorageNonce.Some?
  {
    var nonce := ctx.nextStorageNonce.value;
    var sealed := sv.seal(ctx.d2.value, NonceBytes(nonce), data, storageKey) + NonceBytes(nonce);
    match Increment(nonce)
    case None => Out(ctx, Err(NonceExhausted))
    case Some(next) => Out(ctx.(nextStorageNonce := Some(next)), Ok(sealed))
  }

  function DecryptStorageValue(sv: Services, ctx: Ctx, storageKey: Bytes, data: Bytes): Result<Bytes, CtxError>
    requires ctx.d2.Some?
  {
    if |data| < TAG_SIZE + NONCE_SIZE then Err(TruncatedCiphertext)
    else
      var offset := |data| - NONCE_SIZE;
      match sv.open(ctx.d2.value, data[offset..], data[..offset], storageKey)
      case None => Err(InvalidStorageKey)
      case Some(text) => Ok(text)
  }

  // ------------------------------------------------------- exact outcomes

  /** A reply is sent iff there is a peer, a contract and a nonce, the box seals, and the
      counter has not come round to its start; otherwise the first of these that fails is
      the error, and the context stays as it was. */
  lemma {:induction false} ReplyOutcomesAreExact(sv: Services, ctx: Ctx, data: Bytes)
    ensures var out := EncryptSession(sv, ctx, data);
      var ready := ctx.peer.Some? && ctx.contract.Some? && ctx.nextNonce.Some?;
      && (out.result.Ok? <==>
            && ready
            && sv.box.seal(NonceBytes(ctx.nextNonce.value), data, [], ctx.peer.value,
                           ctx.contract.value.keys.secretKey).Some?
            && (ctx.nextNonce.value.counter + 1) % U32 != ctx.nextNonce.value.start)
      && (out.result == Err(CannotEncryptSession(ctx.peer.None?, ctx.contract.None?, ctx.nextNonce.None?)) <==> !ready)
      && (out.result == Err(Crypto(SealFailed)) <==>
            && ready
            && sv.box.seal(NonceBytes(ctx.nextNonce.value), data, [], ctx.peer.value,
                           ctx.contract.value.keys.secretKey).None?)
      && (out.result.Err? ==> out.ctx == ctx)
      && (out.result.Ok? ==>
            var n := ctx.nextNonce.value;
            out.ctx == ctx.(nextNonce := Some(n.(counter := (n.counter + 1) % U32))))
  {
  }

  /** A payload is received iff it decrypts; a payload that does not leaves peer, nonce and
      everything else as they were, and is answered with the error of its decryption. */
  lemma {:induction false} ReceiveOutcomesAreExact(sv: Services, ctx: Ctx, payload: Bytes)
    requires ctx.contract.Some?
    ensures var out := DecryptSession(sv, ctx, payload);
      match Decrypt(sv.box, sv.checked, Some(payload), ctx.contract.value.keys.secretKey)
      case Stopped => out == Out(ctx, Err(ProcessStops))
      case Refused(e) => out == Out(ctx, Err(Crypto(e)))
      case Opened(d) =>
        && out.result == Ok(AuthenticatedPayload(d.plaintext, d.aad))
        && out.ctx.peer == Some(d.peerPublicKey)
        && out.ctx == ctx.(peer := out.ctx.peer, nextNonce := out.ctx.nextNonce)
  {
    var r := Decrypt(sv.box, sv.checked, Some(payload), ctx.contract.value.keys.secretKey);
    if r.Opened? {
      NonceRoundTrip(r.value.nonce);
      FreshNonceIncrements(NewNonce(r.value.nonce));
    }
  }

  lemma {:induction false} FreshNonceIncrements(n: Nonce)
    requires ValidNonce(n) && n.start == n.counter
    ensures Increment(n).Some?
  {
  }

  /** End to end on the bytes: the packed parts of a payload are received iff the box opens
      them for the active contract; otherwise no peer is set and no session starts. */
  lemma {:induction false} ReceivedIffBoxOpens(sv: Services, ctx: Ctx, p: Parts)
    requires ctx.contract.Some? && WellSized(p) && |Encode(p)| < U64
    ensures var out := DecryptSession(sv, ctx, Encode(p));
      match sv.box.open(p.nonce, p.cipher, p.aad, p.publicKey, ctx.contract.value.keys.secretKey)
      case None => out == Out(ctx, Err(Crypto(OpenFailed)))
      case Some(text) => out.result == Ok(AuthenticatedPayload(text, p.aad)) && out.ctx.peer == Some(p.publicKey)
  {
    var key := ctx.contract.value.keys.secretKey;
    var r := sv.box.open(p.nonce, p.cipher, p.aad, p.publicKey, key);
    var text := if r.Some? then r.value else [];
    OpensIffBoxOpens(sv.box, sv.checked, p, key, Decryption(text, p.nonce, p.publicKey, p.aad));
    ReceiveOutcomesAreExact(sv, ctx, Encode(p));
  }

  /** A stored value is read iff it is long enough and opens under the contract's key, the
      nonce at its end and its own slot; each failure has its own condition. */
  lemma {:induction false} StorageReadsAreExact(
      sv: Services, ctx: Ctx, slot: Bytes, sealed: Bytes, nonce: Bytes, text: Bytes)
    requires ctx.d2.Some? && |nonce| == NONCE_SIZE
    ensures var r := DecryptStorageValue(sv, ctx, slot, sealed + nonce);
      && (r == Err(TruncatedCiphertext) <==> |sealed| < TAG_SIZE)
      && (r == Ok(text) <==> |sealed| >= TAG_SIZE && sv.open(ctx.d2.value, nonce, sealed, slot) == Some(text))
      && (r == Err(InvalidStorageKey) <==>
            |sealed| >= TAG_SIZE && sv.open(ctx.d2.value, nonce, sealed, slot) == None)
  {
    var data := sealed + nonce;
    assert data[|data| - NONCE_SIZE..] == nonce && data[..|data| - NONCE_SIZE] == sealed;
  }

  /** A slot is the key sealed under the contract's state key and the zero nonce. */
  lemma {:induction false} SlotOpensToKey(sv: Services, state: StateKey, key: Bytes, zero: Bytes)
    requires LawfulServices(sv) && |zero| == NONCE_SIZE && forall i :: 0 <= i < NONCE_SIZE ==> zero[i] == 0
    ensures |SlotOf(sv, state, key)| == |key| + TAG_SIZE
    ensures sv.open(state, zero, SlotOf(sv, state, key), []) == Some(key)
  {
    assert zero == Zeros(NONCE_SIZE);
  }

  // ------------------------------------------------------- the mutable object

  class ConfidentialCtx {
    const sv: Services
    const prevBlockHash: Digest
    var peer: Option<Bytes>
    var contract: Option<Contract>
    var nextNonce: Option<Nonce>
    var activated: bool
    var d2: Option<StateKey>
    var nextStorageNonce: Option<Nonce>

    ghost function View(): Ctx
      reads this
    {
      Ctx(peer, contract, nextNonce, activated, prevBlockHash, d2, nextStorageNonce)
    }

    constructor (sv: Services, prevBlockHash: Digest)
      ensures this.sv == sv && View() == NewCtx(prevBlockHash)
    {
      this.sv := sv;
      this.prevBlockHash := prevBlockHash;
      peer, contract, nextNonce, activated, d2, nextStorageNonce := None, None, None, false, None, None;
    }

    method Swap(contract: Option<Contract>) returns (previous: Option<Address>)
      modifies this
      ensures View() == SwapContract(sv, old(View()), contract)
      ensures previous == AddressOf(old(View()))
    {
      previous := if this.contract.Some? then Some(this.contract.value.address) else None;
      this.contract := contract;
      if contract.Some? {
        d2 := Some(contract.value.keys.stateKey[..KEY_SIZE]);
        var hash := sv.digest(prevBlockHash + contract.value.address);
        nextStorageNonce := Some(NewNonce(hash[..NONCE_TAG_SIZE] + Zeros(COUNTER_SIZE)));
      } else {
        d2 := None;
        nextStorageNonce := None;
      }
    }

    method SwitchTo(target: Option<Address>) returns (r: Result<Option<Address>, CtxError>)
      modifies this
      ensures Out(View(), r) == Activate(sv, old(View()), target)
    {
      activated := true;
      if target.None? {
        var previous := Swap(None);
        return Ok(previous);
      }
      var keys := sv.keys(target.value);
      if keys.None? {
        return Err(KeyManagerFailed);
      }
      var previous := Swap(Some(Contract(target.value, keys.value)));
      r := Ok(previous);
    }

    method Close()
      modifies this
      ensures View() == Deactivate(old(View()))
    {
      peer := None;
      contract := None;
      nextNonce := None;
      activated := false;
      d2 := None;
      nextStorageNonce := None;
    }

    method SealSession(data: Bytes) returns (r: Result<Bytes, CtxError>)
      modifies this
      ensures Out(View(), r) == EncryptSession(sv, old(View()), data)
    {
      if peer.None? || contract.None? || nextNonce.None? {
        return Err(CannotEncryptSession(peer.None?, contract.None?, nextNonce.None?));
      }
      var keys := contract.value.keys;
      var payload := Encrypt(sv.box, data, NonceBytes(nextNonce.value), peer.value, keys.publicKey, keys.secretKey, []);
      if payload.Err? {
        return Err(Crypto(payload.error));
      }
      var next := Increment(nextNonce.value);
      if next.None? {
        return Err(NonceExhausted);
      }
      nextNonce := next;
      r := Ok(payload.value);
    }

    /** Callers must have activated a contract. */
    method OpenSession(payload: Bytes) returns (r: Result<AuthenticatedPayload, CtxError>)
      requires contract.Some?
      modifies this
      ensures Out(View(), r) == DecryptSession(sv, old(View()), payload)
    {
      var decrypted := Decrypt(sv.box, sv.checked, Some(payload), contract.value.keys.secretKey);
      match decrypted
      case Stopped => r := Err(ProcessStops);
      case Refused(e) => r := Err(Crypto(e));
      case Opened(d) =>
        peer := Some(d.peerPublicKey);
        var next := Increment(NewNonce(d.nonce));
        if next.None? {
          return Err(NonceExhausted);
        }
        nextNonce := next;
        r := Ok(AuthenticatedPayload(d.plaintext, d.aad));
    }

    method SealStorageValue(storageKey: Bytes, data: Bytes) returns (r: Result<Bytes, CtxError>)
      requires d2.Some? && nextStorageNonce.Some?
      modifies this
      ensures Out(View(), r) == EncryptStorageValue(sv, old(View()), storageKey, data)
    {
      var nonce := NonceBytes(nextStorageNonce.value);
      var ciphertext := sv.seal(d2.value, nonce, data, storageKey);
      ciphertext := ciphertext + nonce;
      var next := Increment(nextStorageNonce.value);
      if next.None? {
        return Err(NonceExhausted);
      }
      nextStorageNonce := next;
      r := Ok(ciphertext);
    }
  }

  // ---------------------------------------------------------------- invariant

  /** Contract, cipher and storage nonce come and go together; the cipher is keyed
      by the current contract's own key, the storage nonce carries its tag and
      counts from zero; a session nonce implies a peer. */
  ghost predicate Inv(sv: Services, ctx: Ctx) {
    && ctx.contract.Some? == ctx.d2.Some? == ctx.nextStorageNonce.Some?
    && (ctx.nextNonce.Some? ==> ctx.peer.Some? && ValidNonce(ctx.nextNonce.value))
    && (ctx.contract.Some? ==>
          var c, n := ctx.contract.value, ctx.nextStorageNonce.value;
          && ctx.activated
          && sv.keys(c.address) == Some(c.keys)
          && ctx.d2 == Some(c.keys.stateKey)
          && ValidNonce(n) && n.start == 0
          && n.tag == StorageNonce(sv, ctx.prevBlockHash, c.address).tag)
  }

  datatype Op =
    | NewBlock(prevBlockHash: Digest)
    | SwitchContract(target: Option<Address>)
    | CloseContext
    | Reply(data: Bytes)
    | Receive(payload: Bytes)
    | Write(key: Bytes, value: Bytes)

  /** The context after one operation.  Operations that need a contract stop the
      program without one; the model then stays where it is. */
  function CtxStep(sv: Services, ctx: Ctx, op: Op): Ctx {
    match op
    case NewBlock(hash) => NewCtx(hash)
    case SwitchContract(target) => Activate(sv, ctx, target).ctx
    case CloseContext => Deactivate(ctx)
    case Reply(data) => EncryptSession(sv, ctx, data).ctx
    case Receive(payload) => if ctx.contract.Some? then DecryptSession(sv, ctx, payload).ctx else ctx
    case Write(key, value) =>
      if ctx.d2.Some? && ctx.nextStorageNonce.Some? then
        EncryptStorageValue(sv, ctx, EncryptStorageKey(sv, ctx, key), value).ctx
      else ctx
  }

  function CtxRun(sv: Services, ctx: Ctx, ops: seq<Op>): Ctx {
    if ops == [] then ctx else CtxStep(sv, CtxRun(sv, ctx, ops[..|ops| - 1]), ops[|ops| - 1])
  }

  lemma {:induction false} SwapKeepsInv(sv: Services, ctx: Ctx, contract: Option<Contract>)
    requires Inv(sv, ctx) && ctx.activated
    requires contract.Some? ==> sv.keys(contract.value.address) == Some(contract.value.keys)
    ensures Inv(sv, SwapContract(sv, ctx, contract))
  {
    if contract.Some? {
      StorageNonceStartsAtZero(sv, ctx.prevBlockHash, contract.value.address);
      assert contract.value.keys.stateKey[..KEY_SIZE] == contract.value.keys.stateKey;
    }
  }

  lemma {:induction false} ReceiveKeepsInv(sv: Services, ctx: Ctx, payload: Bytes)
    requires Inv(sv, ctx) && ctx.contract.Some?
    ensures Inv(sv, DecryptSession(sv, ctx, payload).ctx)
  {
    var decrypted := Decrypt(sv.box, sv.checked, Some(payload), ctx.contract.value.keys.secretKey);
    if decrypted.Opened? {
      NonceRoundTrip(decrypted.value.nonce);
    }
  }

  lemma {:induction false} StepKeepsInv(sv: Services, ctx: Ctx, op: Op)
    requires Inv(sv, ctx)
    ensures Inv(sv, CtxStep(sv, ctx, op))
  {
    match op
    case NewBlock(_) =>
    case SwitchContract(target) =>
      var on := ctx.(activated := true);
      assert Inv(sv, on);
      if target.None? {
        SwapKeepsInv(sv, on, None);
      } else if sv.keys(target.value).Some? {
        SwapKeepsInv(sv, on, Some(Contract(target.value, sv.keys(target.value).value)));
      }
    case CloseContext =>
    case Reply(data) =>
    case Receive(payload) =>
      if ctx.contract.Some? {
        ReceiveKeepsInv(sv, ctx, payload);
      }
    case Write(key, value) =>
  }

  lemma {:induction false} RunKeepsInv(sv: Services, ctx: Ctx, ops: seq<Op>)
    requires Inv(sv, ctx)
    ensures Inv(sv, CtxRun(sv, ctx, ops))
  {
    if ops != [] {
      var n := |ops| - 1;
      RunKeepsInv(sv, ctx, ops[..n]);
      StepKeepsInv(sv, CtxRun(sv, ctx, ops[..n]), ops[n]);
    }
  }

  /** The invariant holds in every state reachable from a new context. */
  lemma {:induction false} ReachableKeepsInv(sv: Services, prevBlockHash: Digest, ops: seq<Op>)
    ensures Inv(sv, CtxRun(sv, NewCtx(prevBlockHash), ops))
  {
    RunKeepsInv(sv, NewCtx(prevBlockHash), ops);
  }

  predicate IsEncrypting(ctx: Ctx) {
    ctx.activated && ctx.contract.Some?
  }

  /** The context was activated, for whatever target, and neither closed nor renewed since. */
  ghost predicate ActivatedIn(ops: seq<Op>, n: nat)
    requires n <= |ops|
  {
    exists k :: 0 <= k < n && ops[k].SwitchContract? && StaysOpen(ops, k + 1, n)
  }

  ghost predicate StaysOpen(ops: seq<Op>, lo: nat, n: nat)
    requires n <= |ops|
  {
    forall m :: lo <= m < n ==> !ops[m].CloseContext? && !ops[m].NewBlock?
  }

  lemma {:induction false} ActivatedStep(ops: seq<Op>, n: nat)
    requires n < |ops|
    ensures ActivatedIn(ops, n + 1) <==>
      ops[n].SwitchContract? || (ActivatedIn(ops, n) && !ops[n].CloseContext? && !ops[n].NewBlock?)
  {
    if ops[n].SwitchContract? {
      assert StaysOpen(ops, n + 1, n + 1);
    } else if ActivatedIn(ops, n + 1) {
      var k :| 0 <= k < n + 1 && ops[k].SwitchContract? && StaysOpen(ops, k + 1, n + 1);
      assert StaysOpen(ops, k + 1, n);
    } else if k :| 0 <= k < n && ops[k].SwitchContract? && StaysOpen(ops, k + 1, n) {
      assert !StaysOpen(ops, k + 1, n + 1);
    }
  }

  /** Over any run, the context counts as activated iff there was a switch since it was
      last closed or renewed, and it encrypts iff a contract is active. */
  lemma {:induction false} ActivatedIff(sv: Services, prevBlockHash: Digest, ops: seq<Op>, n: nat)
    requires n <= |ops|
    ensures var ctx := CtxRun(sv, NewCtx(prevBlockHash), ops[..n]);
      && (ctx.activated <==> ActivatedIn(ops, n))
      && (IsEncrypting(ctx) <==> ctx.contract.Some?)
  {
    ReachableKeepsInv(sv, prevBlockHash, ops[..n]);
    if n > 0 {
      assert ops[..n][..n - 1] == ops[..n - 1];
      ActivatedIff(sv, prevBlockHash, ops, n - 1);
      ActivatedStep(ops, n - 1);
      StepActivates(sv, CtxRun(sv, NewCtx(prevBlockHash), ops[..n - 1]), ops[n - 1]);
    }
  }

  lemma {:induction false} StepActivates(sv: Services, ctx: Ctx, op: Op)
    ensures CtxStep(sv, ctx, op).activated <==>
      op.SwitchContract? || (ctx.activated && !op.CloseContext? && !op.NewBlock?)
  {
  }
}
