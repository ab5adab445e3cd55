/**
 What keys and ciphertexts depend on.  A lawful suite may collide, so dependence is
 shown by exhibiting, for any two different sets of inputs, a suite that tells them
 apart: a derivation or a cipher that ignored one of its inputs could not.
 */
module Binding {
  import opened Wrappers
  import opened ByteStrings
  import opened Keyfile
  import opened Contexts
  import opened Wire
  import opened KyberBox
  import opened HpkeSetup
  import opened Suites
  import Rotation
  import KeyPaths

  /** Exactly these three inputs of the cipher. */
  function Only(key: Bytes, nonce: Bytes, aad: Bytes): (Bytes, Bytes, Bytes) -> bool {
    (k, n, a) => k == key && n == nonce && a == aad
  }

  // ---------------------------------------------------------------------------
  // Key files
  // ---------------------------------------------------------------------------

  predicate Latin(s: string) {
    forall i | 0 <= i < |s| :: s[i] as int < 256
  }

  lemma AsciiInjective(s: string, t: string)
    requires Latin(s) && Latin(t) && Ascii(s) == Ascii(t)
    ensures s == t
  {
    forall i | 0 <= i < |s| ensures s[i] == t[i] {
      assert Ascii(s)[i] == Ascii(t)[i];
    }
  }

  /** The associated data of a record determines its key type. */
  lemma AadForInjective(keyType: string, keyType': string)
    requires Latin(keyType) && Latin(keyType') && AadFor(keyType) == AadFor(keyType')
    ensures keyType == keyType'
  {
    var s, s' := "keyfile:v1|" + keyType, "keyfile:v1|" + keyType';
    AsciiInjective(s, s');
    assert keyType == s[11..] && keyType' == s'[11..];
  }

  /** The suite that tells the wrapping of one record from every other. */
  function WrapSuite(mk: Bytes, keyType: string, g: Draw): Suite {
    MarkingSuite(Only(Fill(1), g.nonceWrap, AadFor(keyType)), MarkingKdf([Derivation(g.salt, mk, Ascii("kek/v1"))]))
  }

  /**
   A record loads only under the master key and key type it was sealed with, and only
   with the salt and the nonce it was wrapped with: change any of the four, and there
   is a lawful suite under which the record is refused.
   */
  lemma WrapBinds(mk: Bytes, keyType: string, payload: Bytes, g: Draw,
                  mk': Bytes, keyType': string, salt': Bytes32, nonce': Bytes12) returns (c: Suite)
    requires Latin(keyType) && Latin(keyType') && |payload| <= MAX_PAYLOAD
    requires mk' != mk || keyType' != keyType || salt' != g.salt || nonce' != g.nonceWrap
    ensures SuiteOk(c) && Load(c, Encode(c, mk, payload, keyType, g), mk, keyType) == Some(payload)
    ensures var changed := Sealed(c, mk, payload, keyType, g).(salt := salt', nonceWrap := nonce');
      Load(c, Print(changed), mk', keyType') == None
  {
    hide Load, AadFor, Print, MarkingSuite, SuiteOk, Ascii, MarkingKdf;
    var own := Derivation(g.salt, mk, Ascii("kek/v1"));
    var kdf, only := MarkingKdf([own]), Only(Fill(1), g.nonceWrap, AadFor(keyType));
    c := WrapSuite(mk, keyType, g);
    MarkingKdfLength([own]);
    MarkingSuiteOk(only, kdf);
    SavedLoadsIffSmall(c, mk, mk, payload, keyType, g, g);
    MarkedKeyTells([own], 0, own);
    MarkedKeyTells([own], 0, Derivation(salt', mk', Ascii("kek/v1")));
    if AadFor(keyType) == AadFor(keyType') {
      AadForInjective(keyType, keyType');
    }
    var kek, kek' := kdf(g.salt, mk, Ascii("kek/v1")), kdf(salt', mk', Ascii("kek/v1"));
    MarkingSuiteRefuses(only, kdf, kek, g.nonceWrap, AadFor(keyType), kek', nonce', AadFor(keyType'), g.dek);
    SuiteKdf(only, kdf);
    RecordLengths(c, mk, payload, keyType, g);
    LoadRefused(c, Sealed(c, mk, payload, keyType, g).(salt := salt', nonceWrap := nonce'), mk', keyType');
  }

  lemma MarkingKdfLength(ds: seq<Derivation>)
    requires |ds| < 256
    ensures forall salt, ikm, info :: |MarkingKdf(ds)(salt, ikm, info)| == 32
  {
  }

  lemma SuiteKdf(marked: (Bytes, Bytes, Bytes) -> bool, kdf: (Bytes, Bytes, Bytes) -> Bytes)
    ensures MarkingSuite(marked, kdf).hkdf == kdf
  {
  }

  lemma RecordLengths(c: Suite, mk: Bytes, payload: Bytes, keyType: string, g: Draw)
    requires SuiteOk(c)
    ensures var r := Sealed(c, mk, payload, keyType, g); |r.ctWrap| == 48 && |r.ctPayload| == |payload| + 16
  {
  }

  /** The payload opens only with the nonce it was sealed with. */
  lemma PayloadBinds(mk: Bytes, keyType: string, payload: Bytes, g: Draw, nonce': Bytes12) returns (c: Suite)
    requires |payload| <= MAX_PAYLOAD && nonce' != g.noncePayload
    ensures SuiteOk(c) && Load(c, Encode(c, mk, payload, keyType, g), mk, keyType) == Some(payload)
    ensures Load(c, Print(Sealed(c, mk, payload, keyType, g).(noncePayload := nonce')), mk, keyType) == None
  {
    hide Load, AadFor, Print, MarkingSuite, SuiteOk, Ascii, Passing;
    var only := Only(g.dek, g.noncePayload, AadFor(keyType));
    c := MarkingSuite(only, Passing());
    PassingLength();
    MarkingSuiteOk(only, Passing());
    SavedLoadsIffSmall(c, mk, mk, payload, keyType, g, g);
    MarkingSuiteRefuses(only, Passing(), g.dek, g.noncePayload, AadFor(keyType),
                        g.dek, nonce', AadFor(keyType), payload);
    RecordLengths(c, mk, payload, keyType, g);
    OwnKeyUnwraps(c, mk, payload, keyType, g);
    PayloadRefused(c, Sealed(c, mk, payload, keyType, g).(noncePayload := nonce'), mk, keyType);
  }

  lemma PassingLength()
    ensures forall salt, ikm, info :: |Passing()(salt, ikm, info)| == 32
  {
  }

  lemma OwnKeyUnwraps(c: Suite, mk: Bytes, payload: Bytes, keyType: string, g: Draw)
    requires SuiteOk(c)
    ensures UnwrapDek(c, mk, Sealed(c, mk, payload, keyType, g), AadFor(keyType)) == Some(g.dek)
  {
  }

  lemma {:induction false} HexIsLatin(b: Bytes)
    ensures Latin(KeyPaths.Hex(b))
  {
    if b != [] {
      HexIsLatin(b[1..]);
    }
  }

  lemma LatinTexts()
    ensures Latin("rotate-next-mk-old-v1") && Latin("rotate-next-mk-new-v1") && Latin("secret32:")
  {
  }

  lemma LatinSeeds()
    ensures Latin("ed25519-seed-v1") && Latin("dilithium-mldsa87-seed-v1")
  {
  }

  lemma KeyTypeIsLatin(kind: Rotation.Kind)
    ensures Latin(KeyPaths.KeyTypeOf(kind))
  {
    hide Latin;
    LatinTexts();
    LatinSeeds();
    if kind.Live? && kind.path.Secret? {
      HexIsLatin(kind.path.name);
      LatinJoin("secret32:", KeyPaths.Hex(kind.path.name));
    }
  }

  lemma LatinJoin(s: string, t: string)
    requires Latin(s) && Latin(t)
    ensures Latin(s + t)
  {
  }

  /** A record of one kind is refused where another kind is expected. */
  lemma KindsBind(a: Rotation.Kind, b: Rotation.Kind, mk: Bytes, payload: Bytes, g: Draw) returns (c: Suite)
    requires a != b && |payload| <= MAX_PAYLOAD
    ensures SuiteOk(c)
    ensures Load(c, Encode(c, mk, payload, KeyPaths.KeyTypeOf(b), g), mk, KeyPaths.KeyTypeOf(b)) == Some(payload)
    ensures Load(c, Encode(c, mk, payload, KeyPaths.KeyTypeOf(b), g), mk, KeyPaths.KeyTypeOf(a)) == None
  {
    hide Load, Print, KeyPaths.KeyTypeOf, SuiteOk, AadFor;
    KeyTypeIsLatin(a);
    KeyTypeIsLatin(b);
    if KeyPaths.KeyTypeOf(a) == KeyPaths.KeyTypeOf(b) {
      KeyPaths.KeyTypesDistinct(a, b);
    }
    c := WrapBinds(mk, KeyPaths.KeyTypeOf(b), payload, g, mk, KeyPaths.KeyTypeOf(a), g.salt, g.nonceWrap);
    var r := Sealed(c, mk, payload, KeyPaths.KeyTypeOf(b), g);
    assert r.(salt := g.salt, nonceWrap := g.nonceWrap) == r;
  }

  // ---------------------------------------------------------------------------
  // The hybrid box
  // ---------------------------------------------------------------------------

  /** The two derivations behind a base key, the second over the key of the first. */
  function BoxDerivations(p: Prims, x: BoxInputs): (ds: seq<Derivation>)
    ensures |ds| == 2
  {
    [Derivation([], x.dh, x.ctx + Ascii("/ecdh-key/v1")),
     Derivation(x.ss, Fill(1), x.ctx + Ascii("/base-key/v1") + x.senderX + x.receiverX + p.sha(x.ct))]
  }

  predicate KeysFit(x: BoxInputs) {
    |x.senderX| == 32 && |x.receiverX| == 32
  }

  /** Two exchanges that agree in everything the base key is made of. */
  predicate SameExchange(p: Prims, x: BoxInputs, x': BoxInputs) {
    && x.ctx == x'.ctx && x.dh == x'.dh && x.ss == x'.ss
    && x.senderX == x'.senderX && x.receiverX == x'.receiverX && p.sha(x.ct) == p.sha(x'.ct)
  }

  lemma SuffixDetermines(a: Bytes, b: Bytes, suffix: Bytes)
    requires a + suffix == b + suffix
    ensures a == b
  {
    assert a == (a + suffix)[..|a|] && b == (b + suffix)[..|b|];
  }

  /** The derivations determine the exchange. */
  lemma DerivationsTell(p: Prims, x: BoxInputs, x': BoxInputs)
    requires PrimsOk(p) && KeysFit(x) && KeysFit(x') && BoxDerivations(p, x) == BoxDerivations(p, x')
    ensures SameExchange(p, x, x')
  {
    hide Ascii, SuiteOk;
    var d, d' := BoxDerivations(p, x), BoxDerivations(p, x');
    assert d[0] == d'[0] && d[1] == d'[1];
    SuffixDetermines(x.ctx, x'.ctx, Ascii("/ecdh-key/v1"));
    BaseKeyInfoInjective(x.ctx + Ascii("/base-key/v1"), x.senderX, x.receiverX, p.sha(x.ct),
                         x'.ctx + Ascii("/base-key/v1"), x'.senderX, x'.receiverX, p.sha(x'.ct));
  }

  /** With these derivations marked, only the exchange itself gives the second marked key. */
  lemma MarkedBaseKey(p: Prims, ds: seq<Derivation>, x: BoxInputs, x': BoxInputs)
    requires PrimsOk(p) && KeysFit(x) && KeysFit(x') && 2 <= |ds| < 256 && ds[..2] == BoxDerivations(p, x)
    requires forall i, j | 0 <= i < j < |ds| :: ds[i] != ds[j]
    ensures var q := p.(suite := p.suite.(hkdf := MarkingKdf(ds)));
      BaseKey(q, x') == Fill(2) <==> SameExchange(p, x, x')
  {
    hide Ascii, SuiteOk, MarkingKdf, SameExchange;
    var inner := Derivation([], x'.dh, x'.ctx + Ascii("/ecdh-key/v1"));
    var kdf := MarkingKdf(ds);
    var k := kdf(inner.salt, inner.ikm, inner.info);
    var outer := Derivation(x'.ss, k, x'.ctx + Ascii("/base-key/v1") + x'.senderX + x'.receiverX + p.sha(x'.ct));
    assert ds[0] == ds[..2][0] && ds[1] == ds[..2][1];
    MarkedKeyTells(ds, 0, inner);
    MarkedKeyTells(ds, 1, outer);
    if inner == ds[0] && outer == ds[1] {
      assert BoxDerivations(p, x') == BoxDerivations(p, x);
      DerivationsTell(p, x, x');
    }
    if SameExchange(p, x, x') {
      SameDerivations(p, x, x');
    }
  }

  lemma SameDerivations(p: Prims, x: BoxInputs, x': BoxInputs)
    requires SameExchange(p, x, x')
    ensures BoxDerivations(p, x) == BoxDerivations(p, x')
  {
    hide Ascii;
  }

  /** The info of the second derivation is too long to be that of the first. */
  lemma DerivationsDiffer(p: Prims, x: BoxInputs)
    requires PrimsOk(p) && KeysFit(x)
    ensures BoxDerivations(p, x)[0] != BoxDerivations(p, x)[1]
  {
    assert |BoxDerivations(p, x)[1].info| == |BoxDerivations(p, x)[0].info| + 96;
  }

  /**
   The base key binds the context, both shared secrets, both public keys and the KEM
   ciphertext: for two exchanges that differ in any of them there are lawful
   primitives under which the base keys differ.
   */
  lemma BaseKeyBinds(p: Prims, x: BoxInputs, x': BoxInputs) returns (q: Prims)
    requires PrimsOk(p) && KeysFit(x) && KeysFit(x') && !SameExchange(p, x, x')
    ensures PrimsOk(q) && q == p.(suite := q.suite) && BaseKey(q, x) != BaseKey(q, x')
  {
    hide BaseKey, SuiteOk, SameExchange, MarkingKdf, BoxDerivations;
    var ds := BoxDerivations(p, x);
    q := p.(suite := p.suite.(hkdf := MarkingKdf(ds)));
    DerivationsDiffer(p, x);
    KdfKeepsLaws(p.suite, ds);
    assert ds[..2] == ds;
    MarkedBaseKey(p, ds, x, x);
    MarkedBaseKey(p, ds, x, x');
    SameAsItself(p, x);
  }

  lemma SameAsItself(p: Prims, x: BoxInputs)
    ensures SameExchange(p, x, x)
  {
  }

  /** Any 32-byte derivation may stand in for the one of a lawful suite. */
  lemma KdfKeepsLaws(c: Suite, ds: seq<Derivation>)
    requires SuiteOk(c) && |ds| < 256
    ensures SuiteOk(c.(hkdf := MarkingKdf(ds)))
  {
    hide MarkingKdf;
    MarkingKdfLength(ds);
    var c' := c.(hkdf := MarkingKdf(ds));
    assert c'.enc == c.enc && c'.dec == c.dec;
  }

  // ---------------------------------------------------------------------------
  // HPKE set-up
  // ---------------------------------------------------------------------------

  /** The session key of a set-up in the context `ctx`. */
  function KeyOf(p: Prims, ctx: Bytes, x: BoxInputs, info: Bytes): Bytes {
    SessionKey(p, ctx, BaseKey(p, x), info)
  }

  /** Text segments of a set-up's context. */
  function Branch(segs: seq<Bytes>, branch: string): seq<Bytes> {
    segs + [Ascii("hpke")] + [Ascii("schedule")] + [Ascii(branch)]
  }

  /** The info of a schedule branch is bound data of the sub-context. */
  lemma BranchIsBound(ctx: Bytes, segs: seq<Bytes>, branch: string, info: Bytes)
    requires IsContext(ctx, segs) && ValidSegment(Ascii(branch))
    ensures AllValid(Branch(segs, branch))
    ensures BindAad(Join(Branch(segs, branch)), info) == ScheduleInfo(ctx, branch, info)
  {
    hide Ascii, ValidSegment, BindAad, ScheduleInfo;
    TextIsSegment("hpke");
    TextIsSegment("schedule");
    JoinSnoc(segs, Ascii("hpke"));
    JoinSnoc(segs + [Ascii("hpke")], Ascii("schedule"));
    JoinSnoc(segs + [Ascii("hpke")] + [Ascii("schedule")], Ascii(branch));
    HpkeText("schedule");
    assert "/hpke/" + "schedule" == "/hpke/schedule";
    var j := Join(segs + [Ascii("hpke")] + [Ascii("schedule")]);
    assert j == ctx + ([SLASH] + Ascii("hpke") + [SLASH] + Ascii("schedule"));
    BranchInfo(ctx, branch, info);
  }

  /** The info determines context, branch and caller info. */
  lemma ScheduleInfoTells(ctx: Bytes, segs: seq<Bytes>, branch: string, info: Bytes,
                          ctx': Bytes, segs': seq<Bytes>, branch': string, info': Bytes)
    requires IsContext(ctx, segs) && IsContext(ctx', segs')
    requires ValidSegment(Ascii(branch)) && ValidSegment(Ascii(branch'))
    requires ScheduleInfo(ctx, branch, info) == ScheduleInfo(ctx', branch', info')
    ensures ctx == ctx' && Ascii(branch) == Ascii(branch') && info == info'
  {
    hide Ascii, ValidSegment, BindAad, ScheduleInfo, Join;
    BranchIsBound(ctx, segs, branch, info);
    BranchIsBound(ctx', segs', branch', info');
    var b, b' := Branch(segs, branch), Branch(segs', branch');
    BindAadInjective(b, info, b', info');
    assert segs == b[..|b| - 3] && segs' == b'[..|b'| - 3];
    assert b[|b| - 1] == Ascii(branch) && b'[|b'| - 1] == Ascii(branch');
  }

  lemma BranchNames()
    ensures ValidSegment(Ascii("key")) && ValidSegment(Ascii("base-nonce")) && Ascii("key") != Ascii("base-nonce")
  {
    TextIsSegment("key");
    TextIsSegment("base-nonce");
    assert |Ascii("key")| == 3 && |Ascii("base-nonce")| == 10;
  }

  /**
   The key schedule binds the context, the shared secret and the caller's info into the
   session key and into the base nonce, and keeps the two apart.
   */
  lemma ScheduleBinds(p: Prims, ctx: Bytes, segs: seq<Bytes>, shared: Bytes, info: Bytes,
                      ctx': Bytes, segs': seq<Bytes>, shared': Bytes, info': Bytes) returns (q: Prims, q': Prims)
    requires PrimsOk(p) && IsContext(ctx, segs) && IsContext(ctx', segs')
    requires ctx != ctx' || shared != shared' || info != info'
    ensures PrimsOk(q) && SessionKey(q, ctx, shared, info) != SessionKey(q, ctx', shared', info')
    ensures SessionKey(q, ctx, shared, info)[..12] != BaseNonce(q, ctx, shared, info)
    ensures PrimsOk(q') && BaseNonce(q', ctx, shared, info) != BaseNonce(q', ctx', shared', info')
  {
    hide SuiteOk, MarkingKdf, Ascii, ScheduleInfo, ValidSegment, IsContext;
    BranchNames();
    var d := Derivation([], shared, ScheduleInfo(ctx, "key", info));
    var d' := Derivation([], shared', ScheduleInfo(ctx', "key", info'));
    var n := Derivation([], shared, ScheduleInfo(ctx, "base-nonce", info));
    var n' := Derivation([], shared', ScheduleInfo(ctx', "base-nonce", info'));
    if d.info == d'.info {
      ScheduleInfoTells(ctx, segs, "key", info, ctx', segs', "key", info');
    }
    if n.info == n'.info {
      ScheduleInfoTells(ctx, segs, "base-nonce", info, ctx', segs', "base-nonce", info');
    }
    if d.info == n.info {
      ScheduleInfoTells(ctx, segs, "key", info, ctx, segs, "base-nonce", info);
    }
    q := p.(suite := p.suite.(hkdf := MarkingKdf([d])));
    q' := p.(suite := p.suite.(hkdf := MarkingKdf([n])));
    KdfKeepsLaws(p.suite, [d]);
    KdfKeepsLaws(p.suite, [n]);
    MarkedOne(d, d');
    MarkedOne(d, n);
    MarkedOne(n, n');
  }

  /** One marked derivation gives ones, every other one zeros. */
  lemma MarkedOne(d: Derivation, other: Derivation)
    requires other != d
    ensures MarkingKdf([d])(d.salt, d.ikm, d.info) == Fill(1)
    ensures MarkingKdf([d])(other.salt, other.ikm, other.info) == Fill(0)
    ensures Fill(1) != Fill(0) && Fill(1)[..12] != Fill(0)[..12]
  {
    assert Fill(1)[..12][0] == 1 && Fill(0)[..12][0] == 0;
    assert Fill(1)[0] == 1 && Fill(0)[0] == 0;
  }

  /** The KEM's context of a set-up is not a prefix of the schedule's. */
  lemma KemIsNotSchedule(ctx: Bytes, rest: Bytes, info: Bytes)
    ensures ctx + Ascii("/hpke/kem") + rest != ScheduleInfo(ctx, "key", info)
  {
    var a, b := ctx + Ascii("/hpke/kem") + rest, ScheduleInfo(ctx, "key", info);
    assert a[|ctx| + 6] == 107 && b[|ctx| + 6] == 115;
  }

  /**
   The session key of a set-up binds everything: the context, both shared secrets, both
   public keys, the KEM ciphertext and the caller's info.
   */
  lemma SetupBinds(p: Prims, ctx: Bytes, segs: seq<Bytes>, x: BoxInputs, info: Bytes,
                   ctx': Bytes, segs': seq<Bytes>, x': BoxInputs, info': Bytes) returns (q: Prims)
    requires PrimsOk(p) && IsContext(ctx, segs) && IsContext(ctx', segs') && KeysFit(x) && KeysFit(x')
    requires x.ctx == ctx + Ascii("/hpke/kem") && x'.ctx == ctx' + Ascii("/hpke/kem")
    requires !SameExchange(p, x, x') || info != info'
    ensures PrimsOk(q) && q == p.(suite := q.suite) && KeyOf(q, ctx, x, info) != KeyOf(q, ctx', x', info')
  {
    hide SuiteOk, MarkingKdf, Ascii, ScheduleInfo, ValidSegment, IsContext, BaseKey, SameExchange;
    BranchNames();
    var last := Derivation([], Fill(2), ScheduleInfo(ctx, "key", info));
    var ds := BoxDerivations(p, x) + [last];
    q := p.(suite := p.suite.(hkdf := MarkingKdf(ds)));
    KdfKeepsLaws(p.suite, ds);
    ThreeDiffer(p, ctx, x, info);
    assert ds[..2] == BoxDerivations(p, x);
    MarkedBaseKey(p, ds, x, x);
    MarkedBaseKey(p, ds, x, x');
    SameAsItself(p, x);
    MarkedKeyTells(ds, 2, last);
    MarkedKeyTells(ds, 2, Derivation([], BaseKey(q, x'), ScheduleInfo(ctx', "key", info')));
    if ScheduleInfo(ctx, "key", info) == ScheduleInfo(ctx', "key", info') {
      ScheduleInfoTells(ctx, segs, "key", info, ctx', segs', "key", info');
    }
  }

  lemma ThreeDiffer(p: Prims, ctx: Bytes, x: BoxInputs, info: Bytes)
    requires PrimsOk(p) && KeysFit(x) && x.ctx == ctx + Ascii("/hpke/kem")
    ensures var ds := BoxDerivations(p, x) + [Derivation([], Fill(2), ScheduleInfo(ctx, "key", info))];
      forall i, j | 0 <= i < j < |ds| :: ds[i] != ds[j]
  {
    hide SuiteOk, Ascii, ScheduleInfo;
    DerivationsDiffer(p, x);
    KemIsNotSchedule(ctx, Ascii("/ecdh-key/v1"), info);
    if Fill(1) == Fill(2) {
      FillInjective(1, 2);
    }
  }

  // ---------------------------------------------------------------------------
  // The framed AEAD
  // ---------------------------------------------------------------------------

  /**
   A blob opens only under the key, context, associated data and nonce it was sealed
   with: change any of them, and there is a lawful suite under which it is refused.
   */
  lemma BlobBinds(p: Prims, key: Bytes, ctx: Bytes, segs: seq<Bytes>, aad: Bytes, nonce: Bytes12, pt: Bytes,
                  key': Bytes, ctx': Bytes, segs': seq<Bytes>, aad': Bytes, nonce': Bytes12) returns (q: Prims)
    requires PrimsOk(p) && IsContext(ctx, segs) && IsContext(ctx', segs')
    requires key' != key || ctx' != ctx || aad' != aad || nonce' != nonce
    ensures PrimsOk(q) && q == p.(suite := q.suite)
    ensures Decrypt(q, key, ctx, aad, Encrypt(q, key, ctx, aad, nonce, pt)) == Some(pt)
    ensures Decrypt(q, key', ctx', aad', [1] + nonce' + Encrypt(q, key, ctx, aad, nonce, pt)[13..]) == None
  {
    hide SuiteOk, MarkingSuite, BindAad;
    var only := Only(key, nonce, BindAad(ctx, aad));
    q := p.(suite := MarkingSuite(only, p.suite.hkdf));
    LawfulKdf(p.suite);
    MarkingSuiteOk(only, p.suite.hkdf);
    DecryptInvertsEncrypt(q, key, ctx, aad, nonce, pt);
    if BindAad(ctx, aad) == BindAad(ctx', aad') {
      BindAadInjective(segs, aad, segs', aad');
    }
    MarkingSuiteRefuses(only, p.suite.hkdf, key, nonce, BindAad(ctx, aad), key', nonce', BindAad(ctx', aad'), pt);
    var ct := q.suite.enc(key, nonce, BindAad(ctx, aad), pt);
    var blob := [1] + nonce' + Encrypt(q, key, ctx, aad, nonce, pt)[13..];
    assert Encrypt(q, key, ctx, aad, nonce, pt)[13..] == ct;
    assert |blob| >= 13 && blob[1..13] == nonce' && blob[13..] == ct;
  }

  lemma LawfulKdf(c: Suite)
    requires SuiteOk(c)
    ensures forall salt, ikm, info :: |c.hkdf(salt, ikm, info)| == 32
  {
  }

  /** A box opened with other associated data than it was sealed with is refused as not authentic. */
  lemma BoxBindsAad(p: Prims, ctx: Bytes, receiverX: Bytes32, receiverK: Bytes, aad: Bytes, aad': Bytes,
                    data: Bytes, g: BoxDraw) returns (q: Prims)
    requires PrimsOk(p) && |receiverK| == 64 && aad' != aad
    requires |ctx| <= 246 && p.contributory(p.dh(g.privX, p.xPub(receiverX)))
    ensures PrimsOk(q) && q == p.(suite := q.suite)
    ensures var s := Seal(q, ctx, q.xPub(receiverX), q.kemPub(receiverK), aad, data, g);
      s.Ok? && Open(q, ctx, receiverX, receiverK, aad, s.value) == Ok(data)
      && Open(q, ctx, receiverX, receiverK, aad', s.value) == Err(AeadFailed)
  {
    hide SuiteOk, MarkingSuite, BindAad, Ascii, ValidSegment, Add, PrepEncrypt, PrepDecrypt, BaseKey;
    var dataCtx := ctx + [SLASH] + Ascii("data");
    SegmentsValid();
    AddExactly(ctx, Ascii("data"));
    SameContextTells(dataCtx, aad, aad');
    var marked := MarkedAad(BindAad(dataCtx, aad));
    q := p.(suite := MarkingSuite(marked, p.suite.hkdf));
    LawfulKdf(p.suite);
    MarkingSuiteOk(marked, p.suite.hkdf);
    OpenInvertsSeal(q, ctx, receiverX, receiverK, aad, data, g);
    BaseKeysAgree(q, ctx, g.privX, receiverX, receiverK, g.kem);
    var key := PrepEncrypt(q, ctx, g.privX, q.xPub(receiverX), q.kemPub(receiverK), g.kem).value.0;
    MarkingSuiteRefuses(marked, p.suite.hkdf, key, g.nonce, BindAad(dataCtx, aad),
                        key, g.nonce, BindAad(dataCtx, aad'), data);
    var ct := q.suite.enc(key, g.nonce, BindAad(dataCtx, aad), data);
    var blob := Encrypt(q, key, dataCtx, aad, g.nonce, data);
    assert blob[1..13] == g.nonce && blob[13..] == ct;
  }

  function MarkedAad(aad: Bytes): (Bytes, Bytes, Bytes) -> bool {
    (k, n, a) => a == aad
  }

  /** Under one context the bound data determines the caller's. */
  lemma SameContextTells(ctx: Bytes, aad: Bytes, aad': Bytes)
    requires aad != aad'
    ensures BindAad(ctx, aad) != BindAad(ctx, aad')
  {
    var b, b', n := BindAad(ctx, aad), BindAad(ctx, aad'), |Label(ctx)| + 1;
    assert aad != [] ==> b[n..] == aad;
    assert aad' != [] ==> b'[n..] == aad';
  }

  /** A dual box with another reply key put in is refused as not authentic. */
  lemma DualBindsReplyKey(p: Prims, ctx: Bytes, receiverX: Bytes32, receiverK: Bytes, aad: Bytes, data: Bytes,
                          reply: DualPublicKey, reply': DualPublicKey, g: BoxDraw) returns (q: Prims)
    requires PrimsOk(p) && |receiverK| == 64 && PubOk(reply) && PubOk(reply') && reply' != reply
    requires |ctx| <= 246 && p.contributory(p.dh(g.privX, p.xPub(receiverX)))
    ensures PrimsOk(q) && q == p.(suite := q.suite)
    ensures var to := DualPublicKey(q.xPub(receiverX), q.kemPub(receiverK));
      var s := DualSeal(q, to, ctx, aad, data, reply, g);
      && s.Ok? && DualOpen(q, receiverX, receiverK, ctx, aad, s.value) == Ok((data, reply))
      && DualOpen(q, receiverX, receiverK, ctx, aad, s.value.(replyPub := reply')) == Err(AeadFailed)
  {
    hide Seal, Open, DualAad, PrimsOk;
    if DualAad(reply, aad) == DualAad(reply', aad) {
      DualAadInjective(reply, aad, reply', aad);
    }
    q := BoxBindsAad(p, ctx, receiverX, receiverK, DualAad(reply, aad), DualAad(reply', aad), data, g);
  }
}
