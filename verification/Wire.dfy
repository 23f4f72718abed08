/**
 The confidential wire format,
 PUBLIC_KEY || CIPHER_LEN || AAD_LEN || CIPHER || AAD || NONCE,
 with 64-bit little-endian lengths, and the box encryption around it.

 Lengths are `usize` (64 bits) in the program.  Their sum is not checked there, so
 the model spells out both builds: `checked` ones stop on overflow, the others wrap.
 */
module Wire {
  import opened Basics

  const PUBLIC_KEY_SIZE: nat := 32
  const LEN_SIZE: nat := 8
  const NONCE_SIZE: nat := 15
  const TAG_SIZE: nat := 16
  const HEADER_SIZE: nat := PUBLIC_KEY_SIZE + LEN_SIZE + LEN_SIZE
  const U64: nat := 0x1_0000_0000_0000_0000

  // ---------------------------------------------------------------- integers

  function Pow256(n: nat): (p: nat)
    ensures p > 0
  {
    if n == 0 then 1 else 256 * Pow256(n - 1)
  }

  /** `v` in `n` bytes, least significant first. */
  function ToLE(v: nat, n: nat): (b: Bytes)
    ensures |b| == n
    decreases n
  {
    if n == 0 then [] else [v % 256] + ToLE(v / 256, n - 1)
  }

  function FromLE(b: Bytes): nat {
    if b == [] then 0 else b[0] + 256 * FromLE(b[1..])
  }

  lemma {:induction false} FromLEBound(b: Bytes)
    ensures FromLE(b) < Pow256(|b|)
  {
    if b != [] {
      FromLEBound(b[1..]);
    }
  }

  lemma {:induction false} FromToLE(v: nat, n: nat)
    requires v < Pow256(n)
    ensures FromLE(ToLE(v, n)) == v
    decreases n
  {
    if n > 0 {
      FromToLE(v / 256, n - 1);
      assert ToLE(v, n)[1..] == ToLE(v / 256, n - 1);
    }
  }

  lemma {:induction false} ToFromLE(b: Bytes)
    ensures ToLE(FromLE(b), |b|) == b
  {
    if b != [] {
      ToFromLE(b[1..]);
      assert FromLE(b) % 256 == b[0] && FromLE(b) / 256 == FromLE(b[1..]);
      assert b == [b[0]] + b[1..];
    }
  }

  /** `v` in `n` bytes, most significant first. */
  function ToBE(v: nat, n: nat): (b: Bytes)
    ensures |b| == n
    decreases n
  {
    if n == 0 then [] else ToBE(v / 256, n - 1) + [v % 256]
  }

  function FromBE(b: Bytes): nat {
    if b == [] then 0 else 256 * FromBE(b[..|b| - 1]) + b[|b| - 1]
  }

  lemma {:induction false} FromToBE(v: nat, n: nat)
    requires v < Pow256(n)
    ensures FromBE(ToBE(v, n)) == v
    decreases n
  {
    if n > 0 {
      FromToBE(v / 256, n - 1);
      assert ToBE(v, n)[..n - 1] == ToBE(v / 256, n - 1);
    }
  }

  lemma {:induction false} ToFromBE(b: Bytes)
    ensures FromBE(b) < Pow256(|b|)
    ensures ToBE(FromBE(b), |b|) == b
  {
    if b != [] {
      var rest := b[..|b| - 1];
      ToFromBE(rest);
      assert FromBE(b) % 256 == b[|b| - 1] && FromBE(b) / 256 == FromBE(rest);
      assert b == rest + [b[|b| - 1]];
    }
  }

  lemma {:induction false} DivideByPower(v: nat, k: nat)
    ensures v / 256 / Pow256(k) == v / Pow256(k + 1)
  {
    var p := Pow256(k);
    var q, r := v / 256 / p, v / 256 % p;
    assert v == 256 * (q * p + r) + v % 256;
    assert v == q * (256 * p) + (256 * r + v % 256);
    QuotientIsUnique(v, 256 * p, q, 256 * r + v % 256);
  }

  lemma {:induction false} QuotientIsUnique(v: nat, d: nat, q: nat, r: nat)
    requires v == q * d + r && r < d
    ensures v / d == q
  {
    MultiplesGrow(v / d + 1, q, d);
    MultiplesGrow(q + 1, v / d, d);
  }

  lemma {:induction false} MultiplesGrow(a: nat, b: nat, d: nat)
    ensures a <= b ==> a * d <= b * d
  {
    if a <= b {
      assert b * d == a * d + (b - a) * d;
    }
  }

  /** Byte `i` of a little-endian number is its digit of weight 256^i. */
  lemma {:induction false} LittleEndianDigit(v: nat, n: nat, i: nat)
    requires i < n
    ensures ToLE(v, n)[i] == v / Pow256(i) % 256
    decreases n
  {
    if i > 0 {
      LittleEndianDigit(v / 256, n - 1, i - 1);
      DivideByPower(v, i - 1);
    }
  }

  /** A big-endian number is the same digits, most significant first. */
  lemma {:induction false} BigEndianDigit(v: nat, n: nat, i: nat)
    requires i < n
    ensures ToBE(v, n)[n - 1 - i] == v / Pow256(i) % 256
    decreases n
  {
    if i > 0 {
      BigEndianDigit(v / 256, n - 1, i - 1);
      DivideByPower(v, i - 1);
    }
  }

  lemma {:induction false} Pow256Of8()
    ensures Pow256(8) == U64
  {
    assert Pow256(4) == 0x1_0000_0000;
    assert Pow256(8) == 256 * (256 * (256 * (256 * Pow256(4))));
  }

  /** The eight-byte length fields round-trip in both directions. */
  lemma {:induction false} LengthField(b: Bytes, v: nat)
    ensures |b| == LEN_SIZE ==> FromLE(b) < U64 && ToLE(FromLE(b), LEN_SIZE) == b
    ensures v < U64 ==> FromLE(ToLE(v, LEN_SIZE)) == v
  {
    Pow256Of8();
    FromLEBound(b);
    ToFromLE(b);
    if v < U64 {
      FromToLE(v, LEN_SIZE);
    }
  }

  // ------------------------------------------------------------------ layout

  datatype Parts = Parts(publicKey: Bytes, cipher: Bytes, aad: Bytes, nonce: Bytes)

  ghost predicate WellSized(p: Parts) {
    |p.publicKey| == PUBLIC_KEY_SIZE && |p.nonce| == NONCE_SIZE
  }

  function Encode(p: Parts): Bytes {
    p.publicKey + ToLE(|p.cipher|, LEN_SIZE) + ToLE(|p.aad|, LEN_SIZE) + p.cipher + p.aad + p.nonce
  }

  /** Packs the parts by appending to a growing buffer. */
  method EncodeEncryption(ciphertext: Bytes, nonce: Bytes, publicKey: Bytes, aad: Bytes) returns (encryption: Bytes)
    ensures encryption == Encode(Parts(publicKey, ciphertext, aad, nonce))
  {
    encryption := publicKey;
    encryption := encryption + ToLE(|ciphertext|, LEN_SIZE);
    encryption := encryption + ToLE(|aad|, LEN_SIZE);
    encryption := encryption + ciphertext;
    encryption := encryption + aad;
    encryption := encryption + nonce;
  }

  datatype SplitError = InvalidNonceOrPublicKey | InvalidSize

  datatype SplitResult =
    | Accepted(parts: Parts, cipherLen: nat, aadLen: nat)
    | Rejected(error: SplitError)
    | Panicked

  function CipherLen(data: Bytes): nat
    requires |data| >= HEADER_SIZE
  {
    FromLE(data[32..40])
  }

  function AadLen(data: Bytes): nat
    requires |data| >= HEADER_SIZE
  {
    FromLE(data[40..48])
  }

  /** The three slices after the size check, with wrapping offsets; an offset out
      of order or out of range is a panic. */
  function Slices(data: Bytes, c: nat, a: nat): (r: SplitResult)
    requires |data| >= HEADER_SIZE
    ensures r.Accepted? ==> |r.parts.nonce| == NONCE_SIZE
  {
    var cipherEnd := (HEADER_SIZE + c) % U64;
    if !(HEADER_SIZE <= cipherEnd <= |data|) then Panicked
    else
      var aadEnd := (cipherEnd + a) % U64;
      if !(cipherEnd <= aadEnd <= |data|) then Panicked
      else
        var nonceEnd := (aadEnd + NONCE_SIZE) % U64;
        if !(aadEnd <= nonceEnd <= |data|) then Panicked
        else Accepted(Parts(data[..PUBLIC_KEY_SIZE], data[HEADER_SIZE..cipherEnd], data[cipherEnd..aadEnd],
                            data[aadEnd..nonceEnd]), c, a)
  }

  /** Splits a payload. */
  function Split(checked: bool, data: Bytes): (r: SplitResult)
    ensures r.Accepted? ==> |r.parts.nonce| == NONCE_SIZE
  {
    if |data| < HEADER_SIZE + NONCE_SIZE then Rejected(InvalidNonceOrPublicKey)
    else
      var c, a := CipherLen(data), AadLen(data);
      var total := HEADER_SIZE + NONCE_SIZE + c + a;
      if checked && total >= U64 then Panicked
      else if |data| != total % U64 then Rejected(InvalidSize)
      else Slices(data, c, a)
  }

  lemma {:induction false} Offsets(data: Bytes)
    requires HEADER_SIZE + NONCE_SIZE <= |data| < U64
    ensures CipherLen(data) < U64 && AadLen(data) < U64
  {
    LengthField(data[32..40], 0);
    LengthField(data[40..48], 0);
  }

  /** A sum of lengths that does not fit 64 bits never gets past the slices. */
  lemma {:induction false} OverflowNeverAccepts(data: Bytes, c: nat, a: nat)
    requires HEADER_SIZE + NONCE_SIZE <= |data| < U64 && c < U64 && a < U64
    requires HEADER_SIZE + NONCE_SIZE + c + a >= U64
    requires |data| == (HEADER_SIZE + NONCE_SIZE + c + a) % U64
    ensures Slices(data, c, a) == Panicked
  {
    assert HEADER_SIZE + NONCE_SIZE + c + a == |data| + U64;
    var cipherEnd := (HEADER_SIZE + c) % U64;
    if HEADER_SIZE + c < U64 {
      assert cipherEnd == HEADER_SIZE + c;
      if cipherEnd <= |data| {
        assert cipherEnd + a == |data| - NONCE_SIZE + U64;
        assert (cipherEnd + a) % U64 == |data| - NONCE_SIZE;
      }
    } else {
      assert cipherEnd == HEADER_SIZE + c - U64;
    }
  }

  lemma {:induction false} SlicesInRange(data: Bytes, c: nat, a: nat)
    requires |data| == HEADER_SIZE + NONCE_SIZE + c + a < U64
    ensures Slices(data, c, a) ==
      Accepted(Parts(data[..PUBLIC_KEY_SIZE], data[HEADER_SIZE..HEADER_SIZE + c],
                     data[HEADER_SIZE + c..HEADER_SIZE + c + a], data[HEADER_SIZE + c + a..]), c, a)
  {
    assert (HEADER_SIZE + c) % U64 == HEADER_SIZE + c;
    assert (HEADER_SIZE + c + a) % U64 == HEADER_SIZE + c + a;
    assert (HEADER_SIZE + c + a + NONCE_SIZE) % U64 == |data|;
    assert data[HEADER_SIZE + c + a..|data|] == data[HEADER_SIZE + c + a..];
  }

  lemma {:induction false} AcceptedFits(checked: bool, data: Bytes)
    requires |data| < U64 && Split(checked, data).Accepted?
    ensures |data| == HEADER_SIZE + NONCE_SIZE + CipherLen(data) + AadLen(data)
  {
    Offsets(data);
    if HEADER_SIZE + NONCE_SIZE + CipherLen(data) + AadLen(data) >= U64 {
      OverflowNeverAccepts(data, CipherLen(data), AadLen(data));
      assert false;
    }
  }

  lemma {:induction false} Cut(data: Bytes, c: nat, a: nat)
    requires |data| == HEADER_SIZE + NONCE_SIZE + c + a
    ensures data ==
      data[..32] + data[32..40] + data[40..48] + data[48..48 + c] + data[48 + c..48 + c + a] + data[48 + c + a..]
  {
    assert data[..32] + data[32..40] == data[..40];
    assert data[..40] + data[40..48] == data[..48];
    assert data[..48] + data[48..48 + c] == data[..48 + c];
    assert data[..48 + c] + data[48 + c..48 + c + a] == data[..48 + c + a];
  }

  lemma {:induction false} Reassemble(data: Bytes)
    requires |data| >= HEADER_SIZE
    requires |data| == HEADER_SIZE + NONCE_SIZE + CipherLen(data) + AadLen(data)
    ensures var c, a := CipherLen(data), AadLen(data);
      Encode(Parts(data[..32], data[48..48 + c], data[48 + c..48 + c + a], data[48 + c + a..])) == data
  {
    var c, a := CipherLen(data), AadLen(data);
    var cipher, aad := data[48..48 + c], data[48 + c..48 + c + a];
    LengthField(data[32..40], 0);
    LengthField(data[40..48], 0);
    EncodePieces(data[..32], data[32..40], data[40..48], cipher, aad, data[48 + c + a..]);
    Cut(data, c, a);
  }

  lemma {:induction false} EncodePieces(k: Bytes, x: Bytes, y: Bytes, c: Bytes, a: Bytes, n: Bytes)
    requires x == ToLE(|c|, LEN_SIZE) && y == ToLE(|a|, LEN_SIZE)
    ensures Encode(Parts(k, c, a, n)) == k + x + y + c + a + n
  {
  }

  /** Whatever is accepted re-encodes to the very same bytes. */
  lemma {:induction false} AcceptedReencodes(checked: bool, data: Bytes)
    requires |data| < U64 && Split(checked, data).Accepted?
    ensures var r := Split(checked, data);
      && WellSized(r.parts)
      && Encode(r.parts) == data
      && r.cipherLen == |r.parts.cipher| && r.aadLen == |r.parts.aad|
  {
    AcceptedFits(checked, data);
    SlicesInRange(data, CipherLen(data), AadLen(data));
    Reassemble(data);
  }

  lemma {:induction false} Layout(k: Bytes, x: Bytes, y: Bytes, c: Bytes, a: Bytes, n: Bytes)
    requires |k| == 32 && |x| == |y| == 8
    ensures var data := k + x + y + c + a + n;
      && data[..32] == k && data[32..40] == x && data[40..48] == y
      && data[48..48 + |c|] == c && data[48 + |c|..48 + |c| + |a|] == a && data[48 + |c| + |a|..] == n
  {
  }

  lemma {:induction false} EncodeLayout(p: Parts)
    requires WellSized(p)
    ensures var data := Encode(p); var c, a := |p.cipher|, |p.aad|;
      && |data| == HEADER_SIZE + NONCE_SIZE + c + a
      && data[..32] == p.publicKey
      && data[32..40] == ToLE(c, LEN_SIZE)
      && data[40..48] == ToLE(a, LEN_SIZE)
      && data[48..48 + c] == p.cipher
      && data[48 + c..48 + c + a] == p.aad
      && data[48 + c + a..] == p.nonce
  {
    Layout(p.publicKey, ToLE(|p.cipher|, LEN_SIZE), ToLE(|p.aad|, LEN_SIZE), p.cipher, p.aad, p.nonce);
  }

  /** Every encoding is accepted and gives its parts back. */
  lemma {:induction false} EncodingIsAccepted(checked: bool, p: Parts)
    requires WellSized(p) && |Encode(p)| < U64
    ensures Split(checked, Encode(p)) == Accepted(p, |p.cipher|, |p.aad|)
  {
    EncodeLayout(p);
    LengthField([], |p.cipher|);
    LengthField([], |p.aad|);
    SlicesInRange(Encode(p), |p.cipher|, |p.aad|);
  }

  /** The wire format is a bijection: in either build, splitting accepts a payload
      with given parts iff the payload is the encoding of those parts. */
  lemma {:induction false} WireFormatIsBijection(checked: bool, data: Bytes, p: Parts)
    requires |data| < U64
    ensures Split(checked, data).Accepted? && Split(checked, data).parts == p <==> WellSized(p) && data == Encode(p)
  {
    if Split(checked, data).Accepted? {
      AcceptedReencodes(checked, data);
    }
    if WellSized(p) && data == Encode(p) {
      EncodingIsAccepted(checked, p);
    }
  }

  /** The payloads that stop the program: those long enough whose length fields sum
      past 64 bits, and in a wrapping build only when the wrapped sum equals the
      actual size.  No other payload does. */
  lemma {:induction false} PanicsIff(checked: bool, data: Bytes)
    requires |data| < U64
    ensures Split(checked, data) == Panicked <==>
      && |data| >= HEADER_SIZE + NONCE_SIZE
      && var total := HEADER_SIZE + NONCE_SIZE + CipherLen(data) + AadLen(data);
      && total >= U64
      && (checked || total - U64 == |data|)
  {
    if |data| >= HEADER_SIZE + NONCE_SIZE {
      var c, a := CipherLen(data), AadLen(data);
      Offsets(data);
      var total := HEADER_SIZE + NONCE_SIZE + c + a;
      if total >= U64 {
        assert total % U64 == if total - U64 < U64 then total - U64 else total - 2 * U64;
        if |data| == total % U64 {
          OverflowNeverAccepts(data, c, a);
        }
      } else if |data| == total {
        SlicesInRange(data, c, a);
      }
    }
  }

  // --------------------------------------------------------------------- box

  /** The library's box: sealing may fail, opening may reject. */
  datatype Box = Box(
    seal: (Bytes, Bytes, Bytes, Bytes, Bytes) -> Option<Bytes>,
    open: (Bytes, Bytes, Bytes, Bytes, Bytes) -> Option<Bytes>,
    publicOf: Bytes -> Bytes)

  /** Opening undoes sealing between the two ends of a key exchange, under the same
      nonce and additional data; a sealed text is one tag longer. */
  ghost predicate LawfulBox(box: Box) {
    && (forall sk :: |box.publicOf(sk)| == PUBLIC_KEY_SIZE)
    && forall nonce, text, aad, a, b ::
         var sealed := box.seal(nonce, text, aad, box.publicOf(b), a);
         sealed.Some? ==>
           && |sealed.value| == |text| + TAG_SIZE
           && box.open(nonce, sealed.value, aad, box.publicOf(a), b) == Some(text)
  }

  datatype CryptoError = SealFailed | BadPayload(error: SplitError) | OpenFailed

  datatype Decryption = Decryption(plaintext: Bytes, nonce: Bytes, peerPublicKey: Bytes, aad: Bytes)

  datatype DecryptResult = Opened(value: Decryption) | Refused(error: CryptoError) | Stopped

  function Encrypt(box: Box, text: Bytes, nonce: Bytes, peer: Bytes, publicKey: Bytes, secretKey: Bytes, aad: Bytes)
    : Result<Bytes, CryptoError>
  {
    match box.seal(nonce, text, aad, peer, secretKey)
    case None => Err(SealFailed)
    case Some(c) => Ok(Encode(Parts(publicKey, c, aad, nonce)))
  }

  function Zeros(n: nat): (b: Bytes)
    ensures |b| == n
  {
    seq(n, _ => 0)
  }

  lemma {:induction false} ZerosAreZero(n: nat)
    ensures FromBE(Zeros(n)) == 0
  {
    if n > 0 {
      ZerosAreZero(n - 1);
      assert Zeros(n)[..n - 1] == Zeros(n - 1);
    }
  }

  /** Decrypts a payload; absent data is the default decryption. */
  function Decrypt(box: Box, checked: bool, data: Option<Bytes>, secretKey: Bytes): (r: DecryptResult)
    ensures r.Opened? ==> |r.value.nonce| == NONCE_SIZE
  {
    match data
    case None => Opened(Decryption([], Zeros(NONCE_SIZE), Zeros(PUBLIC_KEY_SIZE), []))
    case Some(bytes) =>
      match Split(checked, bytes)
      case Panicked => Stopped
      case Rejected(e) => Refused(BadPayload(e))
      case Accepted(p, _, _) =>
        match box.open(p.nonce, p.cipher, p.aad, p.publicKey, secretKey)
        case None => Refused(OpenFailed)
        case Some(text) => Opened(Decryption(text, p.nonce, p.publicKey, p.aad))
  }

  /** Absent data decrypts to nothing, from nobody. */
  lemma {:induction false} AbsentDataIsDefault(box: Box, checked: bool, secretKey: Bytes)
    ensures var r := Decrypt(box, checked, None, secretKey);
      && r.Opened? && r.value.plaintext == [] && r.value.aad == []
      && |r.value.nonce| == NONCE_SIZE && (forall i :: 0 <= i < NONCE_SIZE ==> r.value.nonce[i] == 0)
      && |r.value.peerPublicKey| == PUBLIC_KEY_SIZE
      && (forall i :: 0 <= i < PUBLIC_KEY_SIZE ==> r.value.peerPublicKey[i] == 0)
  {
  }

  /** What becomes of a well-formed payload is decided by the box alone: it opens to a
      decryption iff the box opens its parts to that text, and is refused iff the box
      does not open. */
  lemma {:induction false} OpensIffBoxOpens(box: Box, checked: bool, p: Parts, secretKey: Bytes, d: Decryption)
    requires WellSized(p) && |Encode(p)| < U64
    ensures var r := Decrypt(box, checked, Some(Encode(p)), secretKey);
      var text := box.open(p.nonce, p.cipher, p.aad, p.publicKey, secretKey);
      && (r == Opened(d) <==>
            text == Some(d.plaintext) && d.nonce == p.nonce && d.peerPublicKey == p.publicKey && d.aad == p.aad)
      && (r == Refused(OpenFailed) <==> text == None)
  {
    EncodingIsAccepted(checked, p);
  }

  /** What becomes of any payload: too short, of the wrong size or stopping the program,
      each under its own condition on the bytes, and otherwise up to the box. */
  lemma {:induction false} DecryptOutcomesAreExact(box: Box, checked: bool, data: Bytes, secretKey: Bytes)
    requires |data| < U64
    ensures var r := Decrypt(box, checked, Some(data), secretKey);
      if |data| < HEADER_SIZE + NONCE_SIZE then r == Refused(BadPayload(InvalidNonceOrPublicKey))
      else
        var total := HEADER_SIZE + NONCE_SIZE + CipherLen(data) + AadLen(data);
        && (r == Stopped <==> total >= U64 && (checked || total - U64 == |data|))
        && (r == Refused(BadPayload(InvalidSize)) <==>
              total != |data| && !(total >= U64 && (checked || total - U64 == |data|)))
        && (r.Opened? || r == Refused(OpenFailed) <==> total == |data|)
        && r != Refused(BadPayload(InvalidNonceOrPublicKey)) && r != Refused(SealFailed)
  {
    PanicsIff(checked, data);
    if |data| >= HEADER_SIZE + NONCE_SIZE {
      Offsets(data);
      if |data| == HEADER_SIZE + NONCE_SIZE + CipherLen(data) + AadLen(data) {
        SlicesInRange(data, CipherLen(data), AadLen(data));
      } else if Split(checked, data).Accepted? {
        AcceptedFits(checked, data);
      }
    }
  }

  /** The peer's decryption of an encrypted payload returns the text, the nonce, the
      additional data and the sender's key. */
  lemma {:induction false} DecryptUndoesEncrypt(
      box: Box, checked: bool, text: Bytes, nonce: Bytes, a: Bytes, b: Bytes, aad: Bytes)
    requires LawfulBox(box) && |nonce| == NONCE_SIZE
    requires var r := Encrypt(box, text, nonce, box.publicOf(b), box.publicOf(a), a, aad);
      r.Ok? && |r.value| < U64
    ensures var payload := Encrypt(box, text, nonce, box.publicOf(b), box.publicOf(a), a, aad).value;
      && |payload| == HEADER_SIZE + |text| + TAG_SIZE + |aad| + NONCE_SIZE
      && Decrypt(box, checked, Some(payload), b) == Opened(Decryption(text, nonce, box.publicOf(a), aad))
  {
    var sealed := box.seal(nonce, text, aad, box.publicOf(b), a);
    EncodingIsAccepted(checked, Parts(box.publicOf(a), sealed.value, aad, nonce));
  }

  /** The laws of a box are consistent: appending a fixed tag satisfies them. */
  const PLAIN_BOX: Box := Box(
    (nonce: Bytes, text: Bytes, aad: Bytes, peer: Bytes, sk: Bytes) => Some(text + Zeros(TAG_SIZE)),
    (nonce: Bytes, sealed: Bytes, aad: Bytes, peer: Bytes, sk: Bytes) =>
      if |sealed| < TAG_SIZE then None else Some(sealed[..|sealed| - TAG_SIZE]),
    (sk: Bytes) => Zeros(PUBLIC_KEY_SIZE))

  lemma {:induction false} PlainBoxIsLawful()
    ensures LawfulBox(PLAIN_BOX)
  {
    forall text: Bytes ensures (text + Zeros(TAG_SIZE))[..|text|] == text {
    }
  }
}
