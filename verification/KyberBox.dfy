/** The hybrid box: key agreement on both sides, sealing and opening. */
module KyberBox {
  import opened Wrappers
  import opened ByteStrings
  import opened Keyfile
  import opened Contexts
  import opened Wire

  /** X25519, ML-KEM-1024, SHA-256 and the AEAD, as functions. */
  datatype Prims = Prims(
    suite: Suite,
    xPub: Bytes -> Bytes,
    dh: (Bytes, Bytes) -> Bytes,
    contributory: Bytes -> bool,
    kemPub: Bytes -> Bytes,
    kemPubOk: Bytes -> bool,
    encap: (Bytes, Bytes) -> (Bytes, Bytes),
    decap: (Bytes, Bytes) -> Bytes,
    sha: Bytes -> Bytes)

  /**
   Diffie-Hellman commutes, decapsulation inverts encapsulation, lengths are fixed,
   and the AEAD decrypts what it encrypted.
   */
  ghost predicate PrimsOk(p: Prims) {
    && SuiteOk(p.suite)
    && (forall a :: |p.xPub(a)| == 32)
    && (forall a, b :: p.dh(a, p.xPub(b)) == p.dh(b, p.xPub(a)))
    && (forall k :: |p.kemPub(k)| == MLKEM1024_PUB_LEN && p.kemPubOk(p.kemPub(k)))
    && (forall pk, r :: |p.encap(pk, r).0| == MLKEM1024_PUB_LEN)
    && (forall k, r :: p.decap(k, p.encap(p.kemPub(k), r).0) == p.encap(p.kemPub(k), r).1)
    && (forall b :: |p.sha(b)| == 32)
  }

  datatype Failure =
    | BadContext(e: Contexts.Error)
    | BadLen(want: nat, got: nat)
    | LowOrder
    | BadKemKey
    | BadKemCiphertext
    | AeadFailed

  /** `ecdh_kdf`. */
  function EcdhKdf(p: Prims, mine: Bytes, peer: Bytes, info: Bytes): Result<Bytes, Failure> {
    var shared := p.dh(mine, peer);
    if !p.contributory(shared) then Err(LowOrder) else Ok(p.suite.hkdf([], shared, info))
  }

  /** The HKDF info of the base key. */
  function BaseKeyInfo(base: Bytes, ctT: Bytes, ekT: Bytes, ctHash: Bytes): Bytes {
    base + ctT + ekT + ctHash
  }

  /** The version and KEM id in front of a KEM ciphertext. */
  const KEM_PREFIX: Bytes := [1, 1]

  /** `prep_base_key_for_encryption`: the base key, the KEM ciphertext and the sender's public key. */
  function PrepEncrypt(p: Prims, ctx: Bytes, privX: Bytes, peerX: Bytes, peerK: Bytes, r: Bytes)
    : Result<(Bytes, Bytes, Bytes), Failure>
  {
    if |privX| != 32 then Err(BadLen(32, |privX|))
    else
      var ecdhCtx := Add(ctx, Ascii("ecdh-key"));
      if ecdhCtx.Err? then Err(BadContext(ecdhCtx.error))
      else
        var ecdh := EcdhKdf(p, privX, peerX, Label(ecdhCtx.value));
        if ecdh.Err? then Err(ecdh.error)
        else if !p.kemPubOk(peerK) then Err(BadKemKey)
        else
          var (ct, ss) := p.encap(peerK, r);
          var baseCtx := Add(ctx, Ascii("base-key"));
          if baseCtx.Err? then Err(BadContext(baseCtx.error))
          else
            var info := BaseKeyInfo(Label(baseCtx.value), p.xPub(privX), peerX, p.sha(ct));
            Ok((p.suite.hkdf(ss, ecdh.value, info), KEM_PREFIX + ct, p.xPub(privX)))
  }

  /** `decapsulate_kem`: the shared secret and the hash of the raw ciphertext. */
  function Decapsulate(p: Prims, kyberPriv: Bytes, blob: Bytes): Result<(Bytes, Bytes), Failure> {
    if |blob| < 2 || blob[0] != 1 || blob[1] != 1 then Err(BadKemCiphertext)
    else if |kyberPriv| != 64 then Err(BadLen(64, |kyberPriv|))
    else if |blob[2..]| != MLKEM1024_PUB_LEN then Err(BadKemCiphertext)
    else Ok((p.decap(kyberPriv, blob[2..]), p.sha(blob[2..])))
  }

  /** `prep_base_key_for_decryption`. */
  function PrepDecrypt(p: Prims, ctx: Bytes, privX: Bytes, peerX: Bytes, kyberPriv: Bytes, kemCt: Bytes)
    : Result<Bytes, Failure>
  {
    if |privX| != 32 then Err(BadLen(32, |privX|))
    else
      var ecdhCtx := Add(ctx, Ascii("ecdh-key"));
      if ecdhCtx.Err? then Err(BadContext(ecdhCtx.error))
      else
        var ecdh := EcdhKdf(p, privX, peerX, Label(ecdhCtx.value));
        if ecdh.Err? then Err(ecdh.error)
        else
          var kem := Decapsulate(p, kyberPriv, kemCt);
          if kem.Err? then Err(kem.error)
          else
            var baseCtx := Add(ctx, Ascii("base-key"));
            if baseCtx.Err? then Err(BadContext(baseCtx.error))
            else
              var info := BaseKeyInfo(Label(baseCtx.value), peerX, p.xPub(privX), kem.value.1);
              Ok(p.suite.hkdf(kem.value.0, ecdh.value, info))
  }

  const AEAD_BLOB_VERSION: byte := 1

  /** `aead::encrypt` with the nonce it draws. */
  function Encrypt(p: Prims, key: Bytes, ctx: Bytes, aad: Bytes, nonce: Bytes12, pt: Bytes): Bytes {
    [AEAD_BLOB_VERSION] + nonce + p.suite.enc(key, nonce, BindAad(ctx, aad), pt)
  }

  /** `aead::decrypt`. */
  function Decrypt(p: Prims, key: Bytes, ctx: Bytes, aad: Bytes, blob: Bytes): Option<Bytes> {
    if |blob| < 1 + 12 + 16 || blob[0] != AEAD_BLOB_VERSION then None
    else p.suite.dec(key, blob[1..13], BindAad(ctx, aad), blob[13..])
  }

  /** What the random generator supplies to one `seal`. */
  datatype BoxDraw = BoxDraw(privX: Bytes32, kem: Bytes, nonce: Bytes12)

  /** `kyberbox::seal`. */
  function Seal(p: Prims, ctx: Bytes, peerX: Bytes, peerK: Bytes, aad: Bytes, data: Bytes, g: BoxDraw)
    : Result<KyberBoxSealed, Failure>
  {
    var prep := PrepEncrypt(p, ctx, g.privX, peerX, peerK, g.kem);
    if prep.Err? then Err(prep.error)
    else
      var dataCtx := Add(ctx, Ascii("data"));
      if dataCtx.Err? then Err(BadContext(dataCtx.error))
      else Ok(KyberBoxSealed(prep.value.2, prep.value.1, Encrypt(p, prep.value.0, dataCtx.value, aad, g.nonce, data)))
  }

  /** `kyberbox::open`. */
  function Open(p: Prims, ctx: Bytes, privX: Bytes, kyberPriv: Bytes, aad: Bytes, s: KyberBoxSealed)
    : Result<Bytes, Failure>
  {
    var key := PrepDecrypt(p, ctx, privX, s.senderXPub, kyberPriv, s.kemCt);
    if key.Err? then Err(key.error)
    else
      var dataCtx := Add(ctx, Ascii("data"));
      if dataCtx.Err? then Err(BadContext(dataCtx.error))
      else
        var pt := Decrypt(p, key.value, dataCtx.value, aad, s.ciphertext);
        if pt.None? then Err(AeadFailed) else Ok(pt.value)
  }

  // ---------------------------------------------------------------------------
  // Agreement
  // ---------------------------------------------------------------------------

  /** Longest context that leaves room for `/ecdh-key` and `/base-key`. */
  const MAX_BOX_CONTEXT := 246

  lemma SegmentsValid()
    ensures ValidSegment(Ascii("ecdh-key")) && ValidSegment(Ascii("base-key")) && ValidSegment(Ascii("data"))
  {
    TextIsSegment("ecdh-key");
    TextIsSegment("base-key");
    TextIsSegment("data");
  }

  /** Lower-case words with dashes are valid segments. */
  lemma TextIsSegment(s: string)
    requires s != "" && forall i | 0 <= i < |s| :: 'a' <= s[i] <= 'z' || s[i] == '-'
    ensures ValidSegment(Ascii(s))
  {
  }

  /** Functions with all of these properties exist. */
  lemma PrimsExist()
    ensures exists p :: PrimsOk(p)
  {
    SuiteExists();
    var suite := Suite((k, n, a, p: Bytes) => p + Zeros(TAG_LEN),
                       (k, n, a, ct: Bytes) =>
                         if |ct| >= TAG_LEN && ct[|ct| - TAG_LEN..] == Zeros(TAG_LEN) then Some(ct[..|ct| - TAG_LEN])
                             else None,
                       (salt, ikm, info) => Zeros(32));
    var p := Prims(suite, a => Zeros(32), (a, b) => [], s => true, k => Zeros(MLKEM1024_PUB_LEN), k => true,
                   (pk, r) => (Zeros(MLKEM1024_PUB_LEN), []), (k, ct) => [], b => Zeros(32));
    assert PrimsOk(p);
  }

  lemma AddExactly(ctx: Bytes, seg: Bytes)
    requires ValidSegment(seg)
    ensures Add(ctx, seg).Ok? <==> |ctx| + 1 + |seg| <= MAX_CONTEXT_LEN
    ensures Add(ctx, seg).Ok? ==> Add(ctx, seg).value == ctx + [SLASH] + seg
    ensures Add(ctx, seg).Err? ==> Add(ctx, seg).error == TooLong
  {
  }

  /** What a base key is made of. */
  datatype BoxInputs = BoxInputs(ctx: Bytes, dh: Bytes, ss: Bytes, senderX: Bytes, receiverX: Bytes, ct: Bytes)

  /**
   The combiner of the hybrid KEM: the KEM secret as salt over the derived
   Diffie-Hellman secret, with both public keys and the ciphertext's hash in the info.
   */
  function BaseKey(p: Prims, x: BoxInputs): Bytes {
    p.suite.hkdf(x.ss, p.suite.hkdf([], x.dh, x.ctx + Ascii("/ecdh-key/v1")),
                 x.ctx + Ascii("/base-key/v1") + x.senderX + x.receiverX + p.sha(x.ct))
  }

  /** The sender's base key, and every case in which there is none. */
  lemma PrepEncryptExactly(p: Prims, ctx: Bytes, privX: Bytes, peerX: Bytes, peerK: Bytes, r: Bytes)
    ensures var dh, kem := p.dh(privX, peerX), p.encap(peerK, r);
      PrepEncrypt(p, ctx, privX, peerX, peerK, r) ==
      if |privX| != 32 then Err(BadLen(32, |privX|))
      else if |ctx| > 246 then Err(BadContext(TooLong))
      else if !p.contributory(dh) then Err(LowOrder)
      else if !p.kemPubOk(peerK) then Err(BadKemKey)
      else Ok((BaseKey(p, BoxInputs(ctx, dh, kem.1, p.xPub(privX), peerX, kem.0)), [1, 1] + kem.0, p.xPub(privX)))
  {
    hide Add, Label, Ascii, ValidSegment;
    SegmentsValid();
    AddExactly(ctx, Ascii("ecdh-key"));
    AddExactly(ctx, Ascii("base-key"));
    SubLabels(ctx);
  }

  lemma SubLabels(ctx: Bytes)
    ensures Label(ctx + [SLASH] + Ascii("ecdh-key")) == ctx + Ascii("/ecdh-key/v1")
    ensures Label(ctx + [SLASH] + Ascii("base-key")) == ctx + Ascii("/base-key/v1")
  {
    hide Label, Ascii;
    LabelOf(ctx, "ecdh-key");
    LabelOf(ctx, "base-key");
    assert "/" + "ecdh-key" + "/v1" == "/ecdh-key/v1" && "/" + "base-key" + "/v1" == "/base-key/v1";
  }

  /** The receiver's base key, and every case in which there is none. */
  lemma PrepDecryptExactly(p: Prims, ctx: Bytes, privX: Bytes, peerX: Bytes, kyberPriv: Bytes, kemCt: Bytes)
    ensures var dh, kem := p.dh(privX, peerX), Decapsulate(p, kyberPriv, kemCt);
      PrepDecrypt(p, ctx, privX, peerX, kyberPriv, kemCt) ==
      if |privX| != 32 then Err(BadLen(32, |privX|))
      else if |ctx| > 246 then Err(BadContext(TooLong))
      else if !p.contributory(dh) then Err(LowOrder)
      else if kem.Err? then Err(kem.error)
      else Ok(BaseKey(p, BoxInputs(ctx, dh, p.decap(kyberPriv, kemCt[2..]), peerX, p.xPub(privX), kemCt[2..])))
  {
    hide Add, Label, Ascii, ValidSegment;
    SegmentsValid();
    AddExactly(ctx, Ascii("ecdh-key"));
    AddExactly(ctx, Ascii("base-key"));
    SubLabels(ctx);
  }

  /**
   Sender and receiver agree.  Encryption for a receiver's own public keys succeeds
   exactly if the context leaves room and the exchange is contributory, and then the
   receiver derives the same base key, that of both secrets and the whole transcript.
   */
  lemma BaseKeysAgree(p: Prims, ctx: Bytes, senderX: Bytes32, receiverX: Bytes32, receiverK: Bytes, r: Bytes)
    requires PrimsOk(p) && |receiverK| == 64
    ensures var sent := PrepEncrypt(p, ctx, senderX, p.xPub(receiverX), p.kemPub(receiverK), r);
      && (sent.Ok? <==> |ctx| <= MAX_BOX_CONTEXT && p.contributory(p.dh(senderX, p.xPub(receiverX))))
      && (sent.Ok? ==> |sent.value.1| == KEM_CT_LEN && |sent.value.2| == 32)
      && (sent.Ok? ==> PrepDecrypt(p, ctx, receiverX, sent.value.2, receiverK, sent.value.1) == Ok(sent.value.0))
      && var (dh, kem) := (p.dh(senderX, p.xPub(receiverX)), p.encap(p.kemPub(receiverK), r));
         sent.Ok? ==> sent.value.0 == BaseKey(p, BoxInputs(ctx, dh, kem.1, p.xPub(senderX), p.xPub(receiverX), kem.0))
  {
    hide PrepEncrypt, PrepDecrypt, BaseKey, SuiteOk;
    PrepEncryptExactly(p, ctx, senderX, p.xPub(receiverX), p.kemPub(receiverK), r);
    var ct := p.encap(p.kemPub(receiverK), r).0;
    assert ([1, 1] + ct)[2..] == ct;
    assert p.dh(receiverX, p.xPub(senderX)) == p.dh(senderX, p.xPub(receiverX));
    PrepDecryptExactly(p, ctx, receiverX, p.xPub(senderX), receiverK, [1, 1] + ct);
  }

  lemma DecryptInvertsEncrypt(p: Prims, key: Bytes, ctx: Bytes, aad: Bytes, nonce: Bytes12, pt: Bytes)
    requires PrimsOk(p)
    ensures Decrypt(p, key, ctx, aad, Encrypt(p, key, ctx, aad, nonce, pt)) == Some(pt)
    ensures var blob := Encrypt(p, key, ctx, aad, nonce, pt); |blob| == |pt| + 29 && blob[..13] == [1] + nonce
  {
    hide BindAad;
    var ct := p.suite.enc(key, nonce, BindAad(ctx, aad), pt);
    var blob := Encrypt(p, key, ctx, aad, nonce, pt);
    assert |ct| == |pt| + TAG_LEN;
    assert blob[1..13] == nonce && blob[13..] == ct;
  }

  /** A blob decrypts to `pt` exactly if it is an encryption of `pt` under this key, context and associated data. */
  lemma DecryptExactly(p: Prims, key: Bytes, ctx: Bytes, aad: Bytes, blob: Bytes, pt: Bytes)
    requires PrimsOk(p)
    ensures Decrypt(p, key, ctx, aad, blob) == Some(pt)
        <==> exists nonce: Bytes12 :: blob == Encrypt(p, key, ctx, aad, nonce, pt)
  {
    hide BindAad;
    if Decrypt(p, key, ctx, aad, blob) == Some(pt) {
      var nonce: Bytes12 := blob[1..13];
      assert blob == [AEAD_BLOB_VERSION] + blob[1..13] + blob[13..];
      assert blob == Encrypt(p, key, ctx, aad, nonce, pt);
    }
    forall nonce: Bytes12 | blob == Encrypt(p, key, ctx, aad, nonce, pt)
      ensures Decrypt(p, key, ctx, aad, blob) == Some(pt)
    {
      DecryptInvertsEncrypt(p, key, ctx, aad, nonce, pt);
    }
  }

  /** A blob too short for version, nonce and tag, or of another version, is refused before anything is decrypted. */
  lemma BadBlobRefused(p: Prims, key: Bytes, ctx: Bytes, aad: Bytes, blob: Bytes)
    requires |blob| < 29 || blob[0] != 1
    ensures Decrypt(p, key, ctx, aad, blob) == None
  {
  }

  /** A KEM ciphertext is accepted exactly if it is an ML-KEM-1024 ciphertext behind the version and KEM id. */
  lemma DecapsulateExactly(p: Prims, kyberPriv: Bytes, blob: Bytes)
    ensures Decapsulate(p, kyberPriv, blob).Ok? <==>
      |kyberPriv| == 64 && exists ct: Bytes :: |ct| == MLKEM1024_PUB_LEN && blob == KEM_PREFIX + ct
    ensures Decapsulate(p, kyberPriv, blob).Ok? ==>
      Decapsulate(p, kyberPriv, blob).value == (p.decap(kyberPriv, blob[2..]), p.sha(blob[2..]))
    ensures Decapsulate(p, kyberPriv, blob) == Err(BadLen(64, |kyberPriv|)) <==> |kyberPriv| != 64 && [1, 1] <= blob
    ensures Decapsulate(p, kyberPriv, blob) == Err(BadKemCiphertext) <==>
      !([1, 1] <= blob) || (|kyberPriv| == 64 && |blob| != 1570)
  {
    if Decapsulate(p, kyberPriv, blob).Ok? {
      assert blob == KEM_PREFIX + blob[2..];
    }
  }

  /** Opening inverts sealing, and both sides refuse a context that is too long at the same length. */
  lemma OpenInvertsSeal(p: Prims, ctx: Bytes, receiverX: Bytes32, receiverK: Bytes, aad: Bytes, data: Bytes, g: BoxDraw)
    requires PrimsOk(p) && |receiverK| == 64
    ensures var s := Seal(p, ctx, p.xPub(receiverX), p.kemPub(receiverK), aad, data, g);
      && (s.Ok? <==> |ctx| <= MAX_BOX_CONTEXT && p.contributory(p.dh(g.privX, p.xPub(receiverX))))
      && (s.Ok? ==> BoxOk(s.value) && Open(p, ctx, receiverX, receiverK, aad, s.value) == Ok(data))
  {
    hide Add, Ascii, ValidSegment, SuiteOk, PrepEncrypt, PrepDecrypt, Encrypt, Decrypt;
    SegmentsValid();
    AddExactly(ctx, Ascii("data"));
    BaseKeysAgree(p, ctx, g.privX, receiverX, receiverK, g.kem);
    var prep := PrepEncrypt(p, ctx, g.privX, p.xPub(receiverX), p.kemPub(receiverK), g.kem);
    if prep.Ok? {
      DecryptInvertsEncrypt(p, prep.value.0, Add(ctx, Ascii("data")).value, aad, g.nonce, data);
    }
  }

  /** A context over the limit is refused by the receiver too, whatever it is given. */
  lemma OpenRefusesLongContext(p: Prims, ctx: Bytes, privX: Bytes32, kyberPriv: Bytes, aad: Bytes, s: KyberBoxSealed)
    requires |ctx| > MAX_BOX_CONTEXT
    ensures Open(p, ctx, privX, kyberPriv, aad, s) == Err(BadContext(TooLong))
  {
    hide Add, Ascii, ValidSegment;
    SegmentsValid();
    AddExactly(ctx, Ascii("ecdh-key"));
  }

  /** The base-key info determines the label and the whole transcript. */
  lemma BaseKeyInfoInjective(base: Bytes, ctT: Bytes32, ekT: Bytes32, ctHash: Bytes32,
                             base': Bytes, ctT': Bytes32, ekT': Bytes32, ctHash': Bytes32)
    requires BaseKeyInfo(base, ctT, ekT, ctHash) == BaseKeyInfo(base', ctT', ekT', ctHash')
    ensures base == base' && ctT == ctT' && ekT == ekT' && ctHash == ctHash'
  {
    var i := BaseKeyInfo(base, ctT, ekT, ctHash);
    var n := |base|;
    assert |base| == |base'|;
    assert i[..n] == base && i[n..n + 32] == ctT && i[n + 32..n + 64] == ekT && i[n + 64..] == ctHash;
    assert i[..n] == base' && i[n..n + 32] == ctT' && i[n + 32..n + 64] == ekT' && i[n + 64..] == ctHash';
  }

  /** The associated data of a dual box: the reply key in front of the caller's data. */
  function DualAad(replyPub: DualPublicKey, aad: Bytes): Bytes {
    PubToWire(replyPub) + aad
  }

  /** The dual associated data determines the reply key and the caller's data. */
  lemma DualAadInjective(k: DualPublicKey, aad: Bytes, k': DualPublicKey, aad': Bytes)
    requires PubOk(k) && PubOk(k') && DualAad(k, aad) == DualAad(k', aad')
    ensures k == k' && aad == aad'
  {
    var b := DualAad(k, aad);
    assert b[..32] == k.x25519 && b[32..1600] == k.mlkem1024 && b[1600..] == aad;
    assert b[..32] == k'.x25519 && b[32..1600] == k'.mlkem1024 && b[1600..] == aad';
  }

  /** `DualEncryptionPublicKey::seal` with the reply key it draws. */
  function DualSeal(p: Prims, to: DualPublicKey, ctx: Bytes, aad: Bytes, data: Bytes, replyPub: DualPublicKey,
                    g: BoxDraw)
    : Result<DualSealed, Failure>
  {
    var inner := Seal(p, ctx, to.x25519, to.mlkem1024, DualAad(replyPub, aad), data, g);
    if inner.Err? then Err(inner.error) else Ok(DualSealed(replyPub, inner.value))
  }

  /** `DualEncryptionPrivateKey::open`. */
  function DualOpen(p: Prims, privX: Bytes, privK: Bytes, ctx: Bytes, aad: Bytes, s: DualSealed)
    : Result<(Bytes, DualPublicKey), Failure>
  {
    var pt := Open(p, ctx, privX, privK, DualAad(s.replyPub, aad), s.inner);
    if pt.Err? then Err(pt.error) else Ok((pt.value, s.replyPub))
  }

  /** A dual box, sent over the wire, opens to the data and the reply key it was sealed with. */
  lemma DualOpensOffTheWire(p: Prims, receiverX: Bytes32, receiverK: Bytes, ctx: Bytes, aad: Bytes, data: Bytes,
                            replyPub: DualPublicKey, g: BoxDraw)
    requires PrimsOk(p) && |receiverK| == 64 && PubOk(replyPub)
    ensures var to := DualPublicKey(p.xPub(receiverX), p.kemPub(receiverK));
      var s := DualSeal(p, to, ctx, aad, data, replyPub, g);
      && (s.Ok? <==> |ctx| <= MAX_BOX_CONTEXT && p.contributory(p.dh(g.privX, p.xPub(receiverX))))
      && (s.Ok? ==> DualFromWire(DualToWire(s.value)) == Ok(s.value))
      && (s.Ok? ==> DualOpen(p, receiverX, receiverK, ctx, aad, s.value) == Ok((data, replyPub)))
  {
    hide Seal, Open, DualAad, DualFromWire, DualToWire, PrimsOk;
    OpenInvertsSeal(p, ctx, receiverX, receiverK, DualAad(replyPub, aad), data, g);
    var s := DualSeal(p, DualPublicKey(p.xPub(receiverX), p.kemPub(receiverK)), ctx, aad, data, replyPub, g);
    if s.Ok? {
      DualRoundTrip(s.value);
    }
  }
}
