/** The wire formats of sealed boxes and HPKE messages. */
module Wire {
  import opened Wrappers
  import opened ByteStrings
  import opened Keyfile

  const X25519_PUB_LEN := 32
  const MLKEM1024_PUB_LEN := 1568
  const KEM_CT_LEN := 1570
  const DUAL_ENC_PUB_LEN := 1600

  datatype LenError = LenError(want: nat, got: nat)

  datatype KyberBoxSealed = KyberBoxSealed(senderXPub: Bytes, kemCt: Bytes, ciphertext: Bytes)

  datatype DualPublicKey = DualPublicKey(x25519: Bytes, mlkem1024: Bytes)

  datatype DualSealed = DualSealed(replyPub: DualPublicKey, inner: KyberBoxSealed)

  datatype HpkeEnc = HpkeEnc(xPub: Bytes, kemCt: Bytes)

  datatype HpkeSealed = HpkeSealed(enc: HpkeEnc, ciphertext: Bytes)

  predicate BoxOk(s: KyberBoxSealed) {
    |s.senderXPub| == X25519_PUB_LEN && |s.kemCt| == KEM_CT_LEN
  }

  predicate PubOk(k: DualPublicKey) {
    |k.x25519| == X25519_PUB_LEN && |k.mlkem1024| == MLKEM1024_PUB_LEN
  }

  predicate EncOk(e: HpkeEnc) {
    |e.xPub| == X25519_PUB_LEN && |e.kemCt| == KEM_CT_LEN
  }

  function BoxToWire(s: KyberBoxSealed): Bytes {
    s.senderXPub + s.kemCt + s.ciphertext
  }

  function BoxFromWire(b: Bytes): Result<KyberBoxSealed, LenError> {
    var prefix := X25519_PUB_LEN + KEM_CT_LEN;
    if |b| < prefix then Err(LenError(prefix, |b|))
    else Ok(KyberBoxSealed(b[..X25519_PUB_LEN], b[X25519_PUB_LEN..prefix], b[prefix..]))
  }

  function PubToWire(k: DualPublicKey): Bytes {
    k.x25519 + k.mlkem1024
  }

  function PubFromWire(b: Bytes): Result<DualPublicKey, LenError> {
    if |b| != DUAL_ENC_PUB_LEN then Err(LenError(DUAL_ENC_PUB_LEN, |b|))
    else Ok(DualPublicKey(b[..X25519_PUB_LEN], b[X25519_PUB_LEN..]))
  }

  function DualToWire(s: DualSealed): Bytes {
    PubToWire(s.replyPub) + BoxToWire(s.inner)
  }

  function DualFromWire(b: Bytes): Result<DualSealed, LenError> {
    if |b| < DUAL_ENC_PUB_LEN then Err(LenError(DUAL_ENC_PUB_LEN, |b|))
    else
      var replyPub := PubFromWire(b[..DUAL_ENC_PUB_LEN]);
      if replyPub.Err? then Err(replyPub.error)
      else
        var inner := BoxFromWire(b[DUAL_ENC_PUB_LEN..]);
        if inner.Err? then Err(inner.error) else Ok(DualSealed(replyPub.value, inner.value))
  }

  function EncToWire(e: HpkeEnc): Bytes {
    e.xPub + e.kemCt
  }

  function EncFromWire(b: Bytes): Result<HpkeEnc, LenError> {
    var want := X25519_PUB_LEN + KEM_CT_LEN;
    if |b| != want then Err(LenError(want, |b|)) else Ok(HpkeEnc(b[..X25519_PUB_LEN], b[X25519_PUB_LEN..]))
  }

  /** The encapsulation carries its length in front, cut to 32 bits. */
  function HpkeToWire(s: HpkeSealed): Bytes {
    var enc := EncToWire(s.enc);
    U32(|enc| % 0x1_0000_0000) + enc + s.ciphertext
  }

  function HpkeFromWire(b: Bytes): Result<HpkeSealed, LenError> {
    if |b| < 4 then Err(LenError(4, |b|))
    else
      var encLen := FromU32(b[..4]);
      var rest := b[4..];
      if encLen > |rest| then Err(LenError(encLen, |rest|))
      else
        var enc := EncFromWire(rest[..encLen]);
        if enc.Err? then Err(enc.error) else Ok(HpkeSealed(enc.value, rest[encLen..]))
  }

  lemma BoxRoundTrip(s: KyberBoxSealed)
    requires BoxOk(s)
    ensures BoxFromWire(BoxToWire(s)) == Ok(s)
  {
    var b := BoxToWire(s);
    assert b[..32] == s.senderXPub && b[32..1602] == s.kemCt && b[1602..] == s.ciphertext;
  }

  lemma BoxCanonical(b: Bytes)
    requires BoxFromWire(b).Ok?
    ensures BoxOk(BoxFromWire(b).value) && BoxToWire(BoxFromWire(b).value) == b
  {
    assert b == b[..32] + b[32..1602] + b[1602..];
  }

  lemma PubRoundTrip(k: DualPublicKey)
    requires PubOk(k)
    ensures PubFromWire(PubToWire(k)) == Ok(k)
  {
    assert PubToWire(k)[..32] == k.x25519 && PubToWire(k)[32..] == k.mlkem1024;
  }

  /** Whatever parses as a public key is the encoding of what it parsed to. */
  lemma PubCanonical(b: Bytes)
    requires PubFromWire(b).Ok?
    ensures PubOk(PubFromWire(b).value) && PubToWire(PubFromWire(b).value) == b
  {
    assert b == b[..32] + b[32..];
  }

  /** Exactly which byte strings are refused, and the lengths that the error names. */
  lemma WireErrors(b: Bytes)
    ensures BoxFromWire(b).Err? <==> |b| < 1602
    ensures BoxFromWire(b).Err? ==> BoxFromWire(b).error == LenError(1602, |b|)
    ensures PubFromWire(b).Err? <==> |b| != 1600
    ensures PubFromWire(b).Err? ==> PubFromWire(b).error == LenError(1600, |b|)
    ensures EncFromWire(b).Err? <==> |b| != 1602
    ensures EncFromWire(b).Err? ==> EncFromWire(b).error == LenError(1602, |b|)
    ensures DualFromWire(b).Err? <==> |b| < 3202
    ensures DualFromWire(b).Err? ==>
      DualFromWire(b).error == if |b| < 1600 then LenError(1600, |b|) else LenError(1602, |b| - 1600)
    ensures HpkeFromWire(b).Err? <==> |b| < 4 || FromU32(b[..4]) != 1602 || |b| < 1606
    ensures HpkeFromWire(b).Err? ==>
      (HpkeFromWire(b).error ==
       if |b| < 4 then LenError(4, |b|)
       else if FromU32(b[..4]) > |b| - 4 then LenError(FromU32(b[..4]), |b| - 4)
       else LenError(1602, FromU32(b[..4])))
  {
    hide FromU32;
  }

  /** Every well-formed dual box survives the wire. */
  lemma DualRoundTrip(s: DualSealed)
    requires PubOk(s.replyPub) && BoxOk(s.inner)
    ensures DualFromWire(DualToWire(s)) == Ok(s)
  {
    hide BoxFromWire, PubFromWire, BoxToWire;
    var b := DualToWire(s);
    PubRoundTrip(s.replyPub);
    BoxRoundTrip(s.inner);
    assert b[..1600] == PubToWire(s.replyPub) && b[1600..] == BoxToWire(s.inner);
  }

  /** Whatever parses as a dual box is the encoding of what it parsed to. */
  lemma DualCanonical(b: Bytes)
    requires DualFromWire(b).Ok?
    ensures var s := DualFromWire(b).value; PubOk(s.replyPub) && BoxOk(s.inner) && DualToWire(s) == b
  {
    hide BoxFromWire, BoxToWire;
    BoxCanonical(b[1600..]);
    assert b[..1600] == b[..1600][..32] + b[..1600][32..];
    assert b == b[..1600] + b[1600..];
  }

  /** An encapsulation of the right lengths survives the wire. */
  lemma EncRoundTrip(e: HpkeEnc)
    requires EncOk(e)
    ensures EncFromWire(EncToWire(e)) == Ok(e)
  {
    var b := EncToWire(e);
    assert b[..X25519_PUB_LEN] == e.xPub && b[X25519_PUB_LEN..] == e.kemCt;
  }

  /** Every well-formed HPKE message survives the wire. */
  lemma HpkeRoundTrip(s: HpkeSealed)
    requires EncOk(s.enc)
    ensures HpkeFromWire(HpkeToWire(s)) == Ok(s)
  {
    hide U32, FromU32;
    var b, enc := HpkeToWire(s), EncToWire(s.enc);
    assert |enc| == 1602;
    assert b[..4] == U32(1602) && b[4..][..1602] == enc && b[4..][1602..] == s.ciphertext;
    assert enc[..32] == s.enc.xPub && enc[32..] == s.enc.kemCt;
  }

  /** Whatever parses as an HPKE message is the encoding of what it parsed to. */
  lemma HpkeCanonical(b: Bytes)
    requires HpkeFromWire(b).Ok?
    ensures EncOk(HpkeFromWire(b).value.enc) && HpkeToWire(HpkeFromWire(b).value) == b
  {
    hide U32, FromU32;
    U32Canonical(b[..4]);
    var rest, n := b[4..], FromU32(b[..4]);
    assert rest[..n] == rest[..n][..32] + rest[..n][32..];
    assert b == b[..4] + rest[..n] + rest[n..];
  }
}
