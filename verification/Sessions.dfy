/**
 Sessions across contract switches, and nested calls between contracts.
 */
module Sessions {
  import opened Basics
  import opened Wire
  import opened Confidential

  /** A reply that was handed out: its nonce, its text, its payload and the contract
      it was sent from. */
  datatype Sent = Sent(nonce: Nonce, data: Bytes, payload: Bytes, contract: Contract)

  ghost function SentBy(sv: Services, ctx: Ctx, op: Op): seq<Sent> {
    if op.Reply? && EncryptSession(sv, ctx, op.data).result.Ok? then
      [Sent(ctx.nextNonce.value, op.data, EncryptSession(sv, ctx, op.data).result.value, ctx.contract.value)]
    else []
  }

  ghost function Replies(sv: Services, ctx: Ctx, ops: seq<Op>): seq<Sent> {
    if ops == [] then []
    else
      var n := |ops| - 1;
      Replies(sv, ctx, ops[..n]) + SentBy(sv, CtxRun(sv, ctx, ops[..n]), ops[n])
  }

  /** An operation that neither ends a session nor starts another one: a switch, a reply, a
      write, or a payload that is refused. */
  ghost predicate KeepsSession(sv: Services, ctx: Ctx, op: Op) {
    || op.SwitchContract? || op.Reply? || op.Write?
    || (op.Receive? && (ctx.contract.Some? ==> DecryptSession(sv, ctx, op.payload).result.Err?))
  }

  ghost predicate InSession(sv: Services, ctx: Ctx, ops: seq<Op>) {
    ops == [] ||
    var n := |ops| - 1;
    InSession(sv, ctx, ops[..n]) && KeepsSession(sv, CtxRun(sv, ctx, ops[..n]), ops[n])
  }

  lemma {:induction false} InSessionPrefix(sv: Services, ctx: Ctx, ops: seq<Op>, m: nat)
    requires InSession(sv, ctx, ops) && m <= |ops|
    ensures InSession(sv, ctx, ops[..m])
    decreases |ops|
  {
    var n := |ops| - 1;
    if m <= n {
      InSessionPrefix(sv, ctx, ops[..n], m);
      assert ops[..n][..m] == ops[..m];
    } else {
      assert ops[..m] == ops;
    }
  }

  /** A nonce `k` steps after another one, for fewer steps than there are counters. */
  function After(n: Nonce, k: nat): Nonce {
    n.(counter := if n.counter + k < U32 then n.counter + k else n.counter + k - U32)
  }

  /** A session nonce that has handed out `k` replies since it was received as `n`. */
  ghost predicate SessionAt(ctx: Ctx, peer: Bytes, n: Nonce, k: nat) {
    && k <= U32 - 2
    && ctx.peer == Some(peer)
    && ctx.nextNonce == Some(After(n, k + 1))
  }

  lemma {:induction false} IncrementAfter(n: Nonce, k: nat)
    requires ValidNonce(n) && n.start == n.counter && k <= U32 - 2
    ensures Increment(After(n, k + 1)) == if k == U32 - 2 then None else Some(After(n, k + 2))
  {
  }

  lemma {:induction false} SessionStep(sv: Services, ctx: Ctx, op: Op, peer: Bytes, n: Nonce, k: nat)
    requires ValidNonce(n) && n.start == n.counter && SessionAt(ctx, peer, n, k)
    requires KeepsSession(sv, ctx, op)
    ensures var sent := SentBy(sv, ctx, op);
      && SessionAt(CtxStep(sv, ctx, op), peer, n, k + |sent|)
      && |sent| <= 1
      && (|sent| == 1 ==> sent[0].nonce == After(n, k + 1))
  {
    IncrementAfter(n, k);
    if op.Receive? && ctx.contract.Some? {
      ReceiveOutcomesAreExact(sv, ctx, op.payload);
    }
  }

  /** The replies carry consecutive nonces, starting one after `n`. */
  ghost predicate Numbered(sent: seq<Sent>, n: Nonce) {
    forall k :: 0 <= k < |sent| ==> sent[k].nonce == After(n, k + 1)
  }

  lemma {:induction false} NumberedAppend(sent: seq<Sent>, more: seq<Sent>, n: Nonce)
    requires Numbered(sent, n) && |more| <= 1
    requires |more| == 1 ==> more[0].nonce == After(n, |sent| + 1)
    ensures Numbered(sent + more, n)
  {
  }

  lemma {:induction false} SessionRun(sv: Services, ctx: Ctx, ops: seq<Op>, peer: Bytes, n: Nonce)
    requires ValidNonce(n) && n.start == n.counter && SessionAt(ctx, peer, n, 0)
    requires InSession(sv, ctx, ops)
    ensures SessionAt(CtxRun(sv, ctx, ops), peer, n, |Replies(sv, ctx, ops)|)
    ensures Numbered(Replies(sv, ctx, ops), n)
  {
    if ops != [] {
      var m := |ops| - 1;
      SessionRun(sv, ctx, ops[..m], peer, n);
      var before, sent := CtxRun(sv, ctx, ops[..m]), Replies(sv, ctx, ops[..m]);
      var more := SentBy(sv, before, ops[m]);
      SessionStep(sv, before, ops[m], peer, n, |sent|);
      NumberedAppend(sent, more, n);
      assert Replies(sv, ctx, ops) == sent + more && |sent + more| == |sent| + |more|;
    }
  }

  // ------------------------------------------------------- no reply is lost

  /** A reply the program asked for while a contract was active. */
  datatype Attempt = Attempt(data: Bytes, contract: Contract)

  ghost function Attempts(sv: Services, ctx: Ctx, ops: seq<Op>): seq<Attempt> {
    if ops == [] then []
    else
      var n := |ops| - 1;
      var before := CtxRun(sv, ctx, ops[..n]);
      Attempts(sv, ctx, ops[..n]) +
      if ops[n].Reply? && before.contract.Some? then [Attempt(ops[n].data, before.contract.value)] else []
  }

  ghost predicate AlwaysSeals(box: Box) {
    forall nonce, text, aad, peer, sk :: box.seal(nonce, text, aad, peer, sk).Some?
  }

  /** The replies sent are the first of those asked for, as many as there are nonces. */
  ghost predicate SendsAll(sent: seq<Sent>, asked: seq<Attempt>) {
    && |sent| == Min(|asked|, U32 - 2)
    && forall k :: 0 <= k < |sent| ==> sent[k].data == asked[k].data && sent[k].contract == asked[k].contract
  }

  lemma {:induction false} SendsNext(sv: Services, ctx: Ctx, op: Op, peer: Bytes, n: Nonce, k: nat)
    requires ValidNonce(n) && n.start == n.counter && SessionAt(ctx, peer, n, k) && AlwaysSeals(sv.box)
    ensures var sent := SentBy(sv, ctx, op);
      if op.Reply? && ctx.contract.Some? && k < U32 - 2
      then |sent| == 1 && sent[0].data == op.data && sent[0].contract == ctx.contract.value
      else sent == []
  {
    IncrementAfter(n, k);
    if op.Reply? {
      ReplyOutcomesAreExact(sv, ctx, op.data);
    }
  }

  /** No reply is lost: with a box that always seals, every reply asked for while a contract
      is active is sent, in order, until the nonces of the session are used up. */
  lemma {:induction false} EveryReplyIsSent(sv: Services, ctx: Ctx, ops: seq<Op>, peer: Bytes, n: Nonce)
    requires ValidNonce(n) && n.start == n.counter && SessionAt(ctx, peer, n, 0) && AlwaysSeals(sv.box)
    requires InSession(sv, ctx, ops)
    ensures SendsAll(Replies(sv, ctx, ops), Attempts(sv, ctx, ops))
  {
    if ops != [] {
      var m := |ops| - 1;
      EveryReplyIsSent(sv, ctx, ops[..m], peer, n);
      SessionRun(sv, ctx, ops[..m], peer, n);
      SendsNext(sv, CtxRun(sv, ctx, ops[..m]), ops[m], peer, n, |Replies(sv, ctx, ops[..m])|);
    }
  }

  lemma {:induction false} ReceiveStartsSession(sv: Services, ctx: Ctx, payload: Bytes)
    requires ctx.contract.Some? && DecryptSession(sv, ctx, payload).result.Ok?
    ensures var d := Decrypt(sv.box, sv.checked, Some(payload), ctx.contract.value.keys.secretKey);
      && d.Opened?
      && SessionAt(DecryptSession(sv, ctx, payload).ctx, d.value.peerPublicKey, NewNonce(d.value.nonce), 0)
  {
    var d := Decrypt(sv.box, sv.checked, Some(payload), ctx.contract.value.keys.secretKey).value;
    NonceRoundTrip(d.nonce);
    IncrementFresh(NewNonce(d.nonce));
  }

  /** After a payload with nonce `n` was received, the k-th reply uses the nonce
      advanced by k and goes to the sender of that payload, however many contract
      switches, writes and refused payloads come in between. */
  lemma {:induction false} SessionNoncesSurviveSwitches(sv: Services, ctx: Ctx, payload: Bytes, ops: seq<Op>)
    requires ctx.contract.Some? && DecryptSession(sv, ctx, payload).result.Ok?
    requires InSession(sv, DecryptSession(sv, ctx, payload).ctx, ops)
    ensures var d := Decrypt(sv.box, sv.checked, Some(payload), ctx.contract.value.keys.secretKey);
      var start := DecryptSession(sv, ctx, payload).ctx;
      && d.Opened?
      && SessionAt(CtxRun(sv, start, ops), d.value.peerPublicKey, NewNonce(d.value.nonce), |Replies(sv, start, ops)|)
      && Numbered(Replies(sv, start, ops), NewNonce(d.value.nonce))
  {
    ReceiveStartsSession(sv, ctx, payload);
    var d := Decrypt(sv.box, sv.checked, Some(payload), ctx.contract.value.keys.secretKey).value;
    NonceRoundTrip(d.nonce);
    SessionRun(sv, DecryptSession(sv, ctx, payload).ctx, ops, d.peerPublicKey, NewNonce(d.nonce));
  }

  /** No two replies of a session share a nonce, and none reuses the nonce of the
      payload that opened it, however long the session runs. */
  lemma {:induction false} RepliesNeverReuseNonce(sv: Services, ctx: Ctx, payload: Bytes, ops: seq<Op>, i: nat)
    requires ctx.contract.Some? && DecryptSession(sv, ctx, payload).result.Ok?
    requires InSession(sv, DecryptSession(sv, ctx, payload).ctx, ops)
    requires i < |Replies(sv, DecryptSession(sv, ctx, payload).ctx, ops)|
    ensures var d := Decrypt(sv.box, sv.checked, Some(payload), ctx.contract.value.keys.secretKey).value;
      var sent := Replies(sv, DecryptSession(sv, ctx, payload).ctx, ops);
      && NonceBytes(sent[i].nonce) != d.nonce
      && forall j :: 0 <= j < |sent| && j != i ==> NonceBytes(sent[j].nonce) != NonceBytes(sent[i].nonce)
  {
    var d := Decrypt(sv.box, sv.checked, Some(payload), ctx.contract.value.keys.secretKey).value;
    SessionNoncesSurviveSwitches(sv, ctx, payload, ops);
    NumberedAreDistinct(Replies(sv, DecryptSession(sv, ctx, payload).ctx, ops), d.nonce, i);
  }

  lemma {:induction false} NumberedAreDistinct(sent: seq<Sent>, nonce: Bytes, i: nat)
    requires |nonce| == NONCE_SIZE && i < |sent| <= U32 - 2 && Numbered(sent, NewNonce(nonce))
    ensures NonceBytes(sent[i].nonce) != nonce
    ensures forall j :: 0 <= j < |sent| && j != i ==> NonceBytes(sent[j].nonce) != NonceBytes(sent[i].nonce)
  {
    var n := NewNonce(nonce);
    NonceRoundTrip(nonce);
    DistinctAfter(n, 0, i + 1);
    forall j | 0 <= j < |sent| && j != i ensures NonceBytes(sent[j].nonce) != NonceBytes(sent[i].nonce) {
      DistinctAfter(n, if i < j then i + 1 else j + 1, if i < j then j + 1 else i + 1);
    }
  }

  lemma {:induction false} DistinctCounters(m: Nonce, n: Nonce)
    requires ValidNonce(m) && ValidNonce(n) && m.counter != n.counter
    ensures NonceBytes(m) != NonceBytes(n)
  {
    if NonceBytes(m) == NonceBytes(n) {
      NonceBytesInjective(m, n);
    }
  }

  lemma {:induction false} DistinctAfter(n: Nonce, i: nat, j: nat)
    requires ValidNonce(n) && i < j < U32
    ensures NonceBytes(After(n, i)) != NonceBytes(After(n, j))
  {
    DistinctCounters(After(n, i), After(n, j));
  }

  /** Each reply opens at the peer to the text that was sent, under the key of the
      contract that sent it. */
  lemma {:induction false} RepliesOpenAtPeer(sv: Services, ctx: Ctx, ops: seq<Op>, k: nat, peerSecret: Bytes)
    requires LawfulServices(sv) && Inv(sv, ctx)
    requires k < |Replies(sv, ctx, ops)| && |Replies(sv, ctx, ops)[k].payload| < U64
    requires forall m :: 0 <= m < |ops| ==> CtxRun(sv, ctx, ops[..m]).peer == Some(sv.box.publicOf(peerSecret))
    ensures var s := Replies(sv, ctx, ops)[k];
      && sv.keys(s.contract.address) == Some(s.contract.keys)
      && Decrypt(sv.box, sv.checked, Some(s.payload), peerSecret)
           == Opened(Decryption(s.data, NonceBytes(s.nonce), s.contract.keys.publicKey, []))
    decreases |ops|
  {
    var n := |ops| - 1;
    var before := CtxRun(sv, ctx, ops[..n]);
    RunKeepsInv(sv, ctx, ops[..n]);
    if k < |Replies(sv, ctx, ops[..n])| {
      forall m | 0 <= m < n ensures CtxRun(sv, ctx, ops[..n][..m]).peer == Some(sv.box.publicOf(peerSecret)) {
        assert ops[..n][..m] == ops[..m];
      }
      RepliesOpenAtPeer(sv, ctx, ops[..n], k, peerSecret);
    } else {
      assert before.peer == Some(sv.box.publicOf(peerSecret));
      DecryptUndoesEncrypt(sv.box, sv.checked, ops[n].data, NonceBytes(before.nextNonce.value),
                           before.contract.value.keys.secretKey, peerSecret, []);
    }
  }

  /** A message the peer encrypts to the active contract. */
  function PeerMessage(
      sv: Services, ctx: Ctx, text: Bytes, nonce: Bytes, peerSecret: Bytes, aad: Bytes): Result<Bytes, CryptoError>
    requires ctx.contract.Some?
  {
    Encrypt(sv.box, text, nonce, ctx.contract.value.keys.publicKey, sv.box.publicOf(peerSecret), peerSecret, aad)
  }

  /** It opens to its text and additional data, and makes the peer the one replies go to. */
  lemma {:induction false} ReceiveOpensPeerMessage(
      sv: Services, ctx: Ctx, text: Bytes, nonce: Bytes, peerSecret: Bytes, aad: Bytes)
    requires LawfulServices(sv) && Inv(sv, ctx) && ctx.contract.Some? && |nonce| == NONCE_SIZE
    requires var p := PeerMessage(sv, ctx, text, nonce, peerSecret, aad); p.Ok? && |p.value| < U64
    ensures var out := DecryptSession(sv, ctx, PeerMessage(sv, ctx, text, nonce, peerSecret, aad).value);
      && out.result == Ok(AuthenticatedPayload(text, aad))
      && SessionAt(out.ctx, sv.box.publicOf(peerSecret), NewNonce(nonce), 0)
  {
    var keys := ctx.contract.value.keys;
    DecryptUndoesEncrypt(sv.box, sv.checked, text, nonce, peerSecret, keys.secretKey, aad);
    NonceRoundTrip(nonce);
    IncrementFresh(NewNonce(nonce));
  }

  /** A conversation in which no reply is lost: after a peer's message, every reply asked
      for is sent, up to the number of nonces. */
  lemma {:induction false} ConversationIsAnswered(
      sv: Services, ctx: Ctx, text: Bytes, nonce: Bytes, peerSecret: Bytes, aad: Bytes, ops: seq<Op>)
    requires LawfulServices(sv) && AlwaysSeals(sv.box)
    requires Inv(sv, ctx) && ctx.contract.Some? && |nonce| == NONCE_SIZE
    requires var p := PeerMessage(sv, ctx, text, nonce, peerSecret, aad);
      p.Ok? && |p.value| < U64 && InSession(sv, DecryptSession(sv, ctx, p.value).ctx, ops)
    ensures var start := DecryptSession(sv, ctx, PeerMessage(sv, ctx, text, nonce, peerSecret, aad).value).ctx;
      SendsAll(Replies(sv, start, ops), Attempts(sv, start, ops))
  {
    ReceiveOpensPeerMessage(sv, ctx, text, nonce, peerSecret, aad);
    NonceRoundTrip(nonce);
    var start := DecryptSession(sv, ctx, PeerMessage(sv, ctx, text, nonce, peerSecret, aad).value).ctx;
    EveryReplyIsSent(sv, start, ops, sv.box.publicOf(peerSecret), NewNonce(nonce));
  }

  lemma {:induction false} PeerStays(sv: Services, ctx: Ctx, ops: seq<Op>, peer: Bytes, n: Nonce)
    requires ValidNonce(n) && n.start == n.counter && SessionAt(ctx, peer, n, 0)
    requires InSession(sv, ctx, ops)
    ensures forall m :: 0 <= m < |ops| ==> CtxRun(sv, ctx, ops[..m]).peer == Some(peer)
  {
    forall m | 0 <= m < |ops| ensures CtxRun(sv, ctx, ops[..m]).peer == Some(peer) {
      InSessionPrefix(sv, ctx, ops, m);
      SessionRun(sv, ctx, ops[..m], peer, n);
    }
  }

  /** A whole conversation: a peer sends a message, the contract opens it and replies,
      switching contracts and writing in between; the peer opens every reply to its text,
      under the key of the contract that sent it and the nonce of its turn. */
  lemma {:induction false} ConversationOpensAtPeer(
      sv: Services, ctx: Ctx, text: Bytes, nonce: Bytes, peerSecret: Bytes, aad: Bytes, ops: seq<Op>, k: nat)
    requires LawfulServices(sv) && Inv(sv, ctx) && ctx.contract.Some? && |nonce| == NONCE_SIZE
    requires var p := PeerMessage(sv, ctx, text, nonce, peerSecret, aad);
      && p.Ok? && |p.value| < U64
      && InSession(sv, DecryptSession(sv, ctx, p.value).ctx, ops)
      && var sent := Replies(sv, DecryptSession(sv, ctx, p.value).ctx, ops);
      k < |sent| && |sent[k].payload| < U64
    ensures var p := PeerMessage(sv, ctx, text, nonce, peerSecret, aad).value;
      var s := Replies(sv, DecryptSession(sv, ctx, p).ctx, ops)[k];
      && sv.keys(s.contract.address) == Some(s.contract.keys)
      && Decrypt(sv.box, sv.checked, Some(s.payload), peerSecret)
           == Opened(Decryption(s.data, NonceBytes(After(NewNonce(nonce), k + 1)), s.contract.keys.publicKey, []))
  {
    var p := PeerMessage(sv, ctx, text, nonce, peerSecret, aad).value;
    var start, peer, n := DecryptSession(sv, ctx, p).ctx, sv.box.publicOf(peerSecret), NewNonce(nonce);
    NonceRoundTrip(nonce);
    ReceiveOpensPeerMessage(sv, ctx, text, nonce, peerSecret, aad);
    ReceiveKeepsInv(sv, ctx, p);
    PeerStays(sv, start, ops, peer, n);
    SessionRun(sv, start, ops, peer, n);
    RepliesOpenAtPeer(sv, start, ops, k, peerSecret);
  }

  lemma {:induction false} IncrementFresh(n: Nonce)
    requires ValidNonce(n) && n.start == n.counter
    ensures Increment(n) == Some(After(n, 1))
  {
  }

  /** Deactivating ends the session: no reply is sent until another payload is received. */
  lemma {:induction false} NoReplyAfterClose(sv: Services, ctx: Ctx, ops: seq<Op>)
    requires forall i :: 0 <= i < |ops| ==> !ops[i].Receive?
    ensures var start := Deactivate(ctx);
      && Replies(sv, start, ops) == []
      && CtxRun(sv, start, ops).peer == None && CtxRun(sv, start, ops).nextNonce == None
  {
    if ops != [] {
      NoReplyAfterClose(sv, ctx, ops[..|ops| - 1]);
    }
  }

  // ------------------------------------------------------------- nested calls

  /** A call tree: plain operations and nested calls, in order. */
  datatype Calls =
    | Return
    | Then(op: Op, rest: Calls)
    | Nested(target: Option<Address>, body: Calls, rest: Calls)

  /** Only operations a running contract performs. */
  ghost predicate ContractOps(calls: Calls) {
    match calls
    case Return => true
    case Then(op, rest) => (op.Reply? || op.Receive? || op.Write?) && ContractOps(rest)
    case Nested(_, body, rest) => ContractOps(body) && ContractOps(rest)
  }

  /** Executes a call tree: a nested call activates its target, runs, and activates
      the address it was given back.  If the activation fails the call is skipped. */
  function Execute(sv: Services, ctx: Ctx, calls: Calls): Ctx
    decreases calls
  {
    match calls
    case Return => ctx
    case Then(op, rest) => Execute(sv, CtxStep(sv, ctx, op), rest)
    case Nested(target, body, rest) =>
      var entered := Activate(sv, ctx, target);
      match entered.result
      case Err(_) => Execute(sv, entered.ctx, rest)
      case Ok(previous) => Execute(sv, Activate(sv, Execute(sv, entered.ctx, body), previous).ctx, rest)
  }

  lemma {:induction false} ContractOpKeepsContract(sv: Services, ctx: Ctx, op: Op)
    requires op.Reply? || op.Receive? || op.Write?
    ensures var t := CtxStep(sv, ctx, op);
      t.contract == ctx.contract && t.d2 == ctx.d2 && t.prevBlockHash == ctx.prevBlockHash
  {
  }

  lemma {:induction false} ActivateBack(sv: Services, ctx: Ctx, inner: Ctx)
    requires Inv(sv, ctx) && inner.prevBlockHash == ctx.prevBlockHash
    ensures var t := Activate(sv, inner, AddressOf(ctx));
      t.result.Ok? && t.ctx.contract == ctx.contract && t.ctx.d2 == ctx.d2
  {
    if ctx.contract.Some? {
      var key := ctx.contract.value.keys.stateKey;
      assert key[..KEY_SIZE] == key;
    }
  }

  /** However calls nest, after a call tree the contract and its storage cipher are
      the ones from before it. */
  lemma {:induction false} NestedCallsRestoreContract(sv: Services, ctx: Ctx, calls: Calls)
    requires Inv(sv, ctx) && ContractOps(calls)
    ensures var t := Execute(sv, ctx, calls);
      && Inv(sv, t)
      && t.contract == ctx.contract && t.d2 == ctx.d2 && t.prevBlockHash == ctx.prevBlockHash
    decreases calls
  {
    match calls
    case Return =>
    case Then(op, rest) =>
      StepKeepsInv(sv, ctx, op);
      ContractOpKeepsContract(sv, ctx, op);
      NestedCallsRestoreContract(sv, CtxStep(sv, ctx, op), rest);
    case Nested(target, body, rest) =>
      var entered := Activate(sv, ctx, target);
      StepKeepsInv(sv, ctx, SwitchContract(target));
      if entered.result.Err? {
        NestedCallsRestoreContract(sv, entered.ctx, rest);
      } else {
        NestedCallsRestoreContract(sv, entered.ctx, body);
        var inner := Execute(sv, entered.ctx, body);
        ActivateBack(sv, ctx, inner);
        StepKeepsInv(sv, inner, SwitchContract(AddressOf(ctx)));
        NestedCallsRestoreContract(sv, Activate(sv, inner, AddressOf(ctx)).ctx, rest);
      }
  }

  // ------------------------------------------------------------- consistency

  /** The laws of the services are consistent. */
  const PLAIN_SERVICES: Services := Services(
    PLAIN_BOX, false,
    (k: StateKey, n: Bytes, text: Bytes, aad: Bytes) => text + Zeros(TAG_SIZE),
    (k: StateKey, n: Bytes, sealed: Bytes, aad: Bytes) =>
      if |sealed| < TAG_SIZE then None else Some(sealed[..|sealed| - TAG_SIZE]),
    (a: Address) => Some(KeyPair(Zeros(PUBLIC_KEY_SIZE), [], Zeros(KEY_SIZE))),
    (b: Bytes) => Zeros(32))

  lemma {:induction false} PlainServicesAreLawful()
    ensures LawfulServices(PLAIN_SERVICES)
  {
    PlainBoxIsLawful();
    forall text: Bytes ensures (text + Zeros(TAG_SIZE))[..|text|] == text {
    }
  }
}
