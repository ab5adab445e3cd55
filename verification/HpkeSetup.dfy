/** HPKE set-up: both sides of a session derive the same context. */
module HpkeSetup {
  import opened Wrappers
  import opened ByteStrings
  import opened Keyfile
  import opened Contexts
  import opened Wire
  import opened KyberBox
  import Session

  /** The context `ctx/hpke/seg`. */
  function Under(ctx: Bytes, seg: Bytes): Result<Bytes, Failure> {
    var hpke := Add(ctx, Ascii("hpke"));
    if hpke.Err? then Err(BadContext(hpke.error))
    else
      var r := Add(hpke.value, seg);
      if r.Err? then Err(BadContext(r.error)) else Ok(r.value)
  }

  /** `key_schedule`: the key and base nonce; the exporter secret only has to fit its context. */
  function KeySchedule(p: Prims, ctx: Bytes, shared: Bytes, info: Bytes): Result<(Bytes, Bytes), Failure> {
    var sched := Under(ctx, Ascii("schedule"));
    if sched.Err? then Err(sched.error)
    else
      var key := Add(sched.value, Ascii("key"));
      var nonce := Add(sched.value, Ascii("base-nonce"));
      var exporter := Add(sched.value, Ascii("exporter-secret"));
      if key.Err? then Err(BadContext(key.error))
      else if nonce.Err? then Err(BadContext(nonce.error))
      else if exporter.Err? then Err(BadContext(exporter.error))
      else
        var material := p.suite.hkdf([], shared, BindAad(nonce.value, info));
        Ok((p.suite.hkdf([], shared, BindAad(key.value, info)), if |material| >= 12 then material[..12] else material))
  }

  /** `setup_sender` with the ephemeral key and KEM randomness it draws. */
  function SetupSender(p: Prims, ctx: Bytes, pkX: Bytes, pkK: Bytes, info: Bytes, ephX: Bytes, r: Bytes)
    : Result<(HpkeEnc, (Bytes, Bytes)), Failure>
  {
    var kemCtx := Under(ctx, Ascii("kem"));
    if kemCtx.Err? then Err(kemCtx.error)
    else
      var prep := PrepEncrypt(p, kemCtx.value, ephX, pkX, pkK, r);
      if prep.Err? then Err(prep.error)
      else
        var sched := KeySchedule(p, ctx, prep.value.0, info);
        if sched.Err? then Err(sched.error) else Ok((HpkeEnc(prep.value.2, prep.value.1), sched.value))
  }

  /** `setup_receiver`. */
  function SetupReceiver(p: Prims, ctx: Bytes, skX: Bytes, skK: Bytes, enc: HpkeEnc, info: Bytes)
    : Result<(Bytes, Bytes), Failure>
  {
    var kemCtx := Under(ctx, Ascii("kem"));
    if kemCtx.Err? then Err(kemCtx.error)
    else
      var shared := PrepDecrypt(p, kemCtx.value, skX, enc.xPub, skK, enc.kemCt);
      if shared.Err? then Err(shared.error) else KeySchedule(p, ctx, shared.value, info)
  }

  /** Longest context that leaves room for `/hpke/schedule/exporter-secret`. */
  const MAX_SESSION_CONTEXT := 225

  lemma UnderExactly(ctx: Bytes, seg: string)
    requires ValidSegment(Ascii(seg))
    ensures Under(ctx, Ascii(seg)) ==
      if |ctx| + 6 + |seg| > 255 then Err(BadContext(TooLong)) else Ok(ctx + Ascii("/hpke/" + seg))
  {
    hide Ascii, ValidSegment;
    TextIsSegment("hpke");
    AddExactly(ctx, Ascii("hpke"));
    HpkeText(seg);
    if Add(ctx, Ascii("hpke")).Ok? {
      AddExactly(Add(ctx, Ascii("hpke")).value, Ascii(seg));
      assert ctx + [SLASH] + Ascii("hpke") + [SLASH] + Ascii(seg)
          == ctx + ([SLASH] + Ascii("hpke") + [SLASH] + Ascii(seg));
    }
  }

  lemma HpkeText(seg: string)
    ensures [SLASH] + Ascii("hpke") + [SLASH] + Ascii(seg) == Ascii("/hpke/" + seg)
  {
    assert Ascii("/") == [SLASH];
    AsciiJoin("/hpke/", seg);
    AsciiJoin("/hpke", "/");
    AsciiJoin("/", "hpke");
    assert "/" + "hpke" == "/hpke" && "/hpke" + "/" == "/hpke/";
  }

  /** The info of the key schedule: the label of a branch, and the caller's info behind a NUL. */
  function ScheduleInfo(ctx: Bytes, branch: string, info: Bytes): Bytes {
    ctx + Ascii("/hpke/schedule/" + branch + "/v1") + (if info == [] then [] else [0] + info)
  }

  /** The session key and the base nonce. */
  function SessionKey(p: Prims, ctx: Bytes, shared: Bytes, info: Bytes): Bytes {
    p.suite.hkdf([], shared, ScheduleInfo(ctx, "key", info))
  }

  function BaseNonce(p: Prims, ctx: Bytes, shared: Bytes, info: Bytes): Bytes {
    var material := p.suite.hkdf([], shared, ScheduleInfo(ctx, "base-nonce", info));
    if |material| >= 12 then material[..12] else material
  }

  /** What a branch of the schedule binds. */
  lemma BranchInfo(ctx: Bytes, branch: string, info: Bytes)
    ensures BindAad(ctx + Ascii("/hpke/schedule") + [SLASH] + Ascii(branch), info) == ScheduleInfo(ctx, branch, info)
  {
    hide Ascii, Label;
    var sub := ctx + Ascii("/hpke/schedule");
    LabelOf(sub, branch);
    var text := "/" + branch + "/v1";
    AsciiJoin("/hpke/schedule", text);
    assert "/hpke/schedule" + text == "/hpke/schedule/" + branch + "/v1";
    assert sub + Ascii(text) == ctx + (Ascii("/hpke/schedule") + Ascii(text));
    if info != [] {
      assert Label(sub + [SLASH] + Ascii(branch)) + [0] + info == Label(sub + [SLASH] + Ascii(branch)) + ([0] + info);
    }
  }

  /** The schedule succeeds exactly for contexts of at most 225 bytes, with the session key and base nonce. */
  lemma ScheduleExactly(p: Prims, ctx: Bytes, shared: Bytes, info: Bytes)
    ensures KeySchedule(p, ctx, shared, info) ==
      if |ctx| > 225 then Err(BadContext(TooLong))
      else Ok((SessionKey(p, ctx, shared, info), BaseNonce(p, ctx, shared, info)))
    ensures PrimsOk(p) ==> |BaseNonce(p, ctx, shared, info)| == 12 && |SessionKey(p, ctx, shared, info)| == 32
  {
    hide Ascii, ValidSegment, Add, BindAad, Under, ScheduleInfo;
    TextIsSegment("schedule");
    TextIsSegment("key");
    TextIsSegment("base-nonce");
    TextIsSegment("exporter-secret");
    UnderExactly(ctx, "schedule");
    assert "/hpke/" + "schedule" == "/hpke/schedule";
    BranchInfo(ctx, "key", info);
    BranchInfo(ctx, "base-nonce", info);
    var sched := Under(ctx, Ascii("schedule"));
    if sched.Ok? {
      AddExactly(sched.value, Ascii("key"));
      AddExactly(sched.value, Ascii("base-nonce"));
      AddExactly(sched.value, Ascii("exporter-secret"));
    }
  }

  /** What a sender's set-up gives, and every case in which it fails. */
  lemma SetupExactly(p: Prims, ctx: Bytes, pkX: Bytes, pkK: Bytes, info: Bytes, ephX: Bytes32, r: Bytes)
    ensures var dh, kem := p.dh(ephX, pkX), p.encap(pkK, r);
      var shared := BaseKey(p, BoxInputs(ctx + Ascii("/hpke/kem"), dh, kem.1, p.xPub(ephX), pkX, kem.0));
      SetupSender(p, ctx, pkX, pkK, info, ephX, r) ==
      if |ctx| > 237 then Err(BadContext(TooLong))
      else if !p.contributory(dh) then Err(LowOrder)
      else if !p.kemPubOk(pkK) then Err(BadKemKey)
      else if |ctx| > 225 then Err(BadContext(TooLong))
      else Ok((HpkeEnc(p.xPub(ephX), [1, 1] + kem.0),
               (SessionKey(p, ctx, shared, info), BaseNonce(p, ctx, shared, info))))
  {
    hide Ascii, ValidSegment, Under, PrepEncrypt, KeySchedule, BaseKey, SessionKey, BaseNonce;
    TextIsSegment("kem");
    UnderExactly(ctx, "kem");
    assert "/hpke/" + "kem" == "/hpke/kem";
    var kemCtx := ctx + Ascii("/hpke/kem");
    var dh, kem := p.dh(ephX, pkX), p.encap(pkK, r);
    PrepEncryptExactly(p, kemCtx, ephX, pkX, pkK, r);
    ScheduleExactly(p, ctx, BaseKey(p, BoxInputs(kemCtx, dh, kem.1, p.xPub(ephX), pkX, kem.0)), info);
  }

  /**
   A sender set up for a receiver's public key succeeds exactly if the context leaves
   room and the exchange is contributory, its encapsulation survives the wire, and the
   receiver then derives the same key and base nonce.
   */
  lemma SetupsAgree(p: Prims, ctx: Bytes, skX: Bytes32, skK: Bytes, info: Bytes, ephX: Bytes32, r: Bytes)
    requires PrimsOk(p) && |skK| == 64
    ensures var sent := SetupSender(p, ctx, p.xPub(skX), p.kemPub(skK), info, ephX, r);
      && (sent.Ok? <==> |ctx| <= MAX_SESSION_CONTEXT && p.contributory(p.dh(ephX, p.xPub(skX))))
      && (sent.Ok? ==> EncFromWire(EncToWire(sent.value.0)) == Ok(sent.value.0) && |sent.value.1.1| == 12)
      && (sent.Ok? ==> SetupReceiver(p, ctx, skX, skK, sent.value.0, info) == Ok(sent.value.1))
      && var (dh, kem) := (p.dh(ephX, p.xPub(skX)), p.encap(p.kemPub(skK), r));
         var shared := BaseKey(p, BoxInputs(ctx + Ascii("/hpke/kem"), dh, kem.1, p.xPub(ephX), p.xPub(skX), kem.0));
         sent.Ok? ==> sent.value.1 == (SessionKey(p, ctx, shared, info), BaseNonce(p, ctx, shared, info))
  {
    hide Ascii, ValidSegment, Under, PrepEncrypt, PrepDecrypt, KeySchedule, SuiteOk, BaseKey, SessionKey, BaseNonce;
    TextIsSegment("kem");
    UnderExactly(ctx, "kem");
    SetupExactly(p, ctx, p.xPub(skX), p.kemPub(skK), info, ephX, r);
    var kemCtx := Under(ctx, Ascii("kem"));
    if kemCtx.Ok? {
      BaseKeysAgree(p, kemCtx.value, ephX, skX, skK, r);
      var prep := PrepEncrypt(p, kemCtx.value, ephX, p.xPub(skX), p.kemPub(skK), r);
      if prep.Ok? {
        ScheduleExactly(p, ctx, prep.value.0, info);
        EncRoundTrip(HpkeEnc(prep.value.2, prep.value.1));
      }
    }
  }

  /**
   From set-up to the last message: whatever happens on the network, what a receiver
   set up from the sender's encapsulation accepts is a prefix of what the sender sealed,
   and in-order delivery yields all of it.
   */
  lemma HpkeStream(p: Prims, ctx: Bytes, skX: Bytes32, skK: Bytes, info: Bytes, ephX: Bytes32, r: Bytes,
                   evs: seq<Session.Event>, msgs: seq<Session.Msg>)
    requires PrimsOk(p) && |skK| == 64 && |msgs| <= U64_MAX
    requires SetupSender(p, ctx, p.xPub(skX), p.kemPub(skK), info, ephX, r).Ok?
    requires var (enc, x) := SetupSender(p, ctx, p.xPub(skX), p.kemPub(skK), info, ephX, r).value;
      |x.1| == 12 && Session.AllAuthentic(p.suite, Session.Ctx(x.0, x.1), Session.START, evs)
    ensures var (enc, x) := SetupSender(p, ctx, p.xPub(skX), p.kemPub(skK), info, ephX, r).value;
      && SetupReceiver(p, ctx, skX, skK, enc, info) == Ok(x)
      && Session.Play(p.suite, Session.Ctx(x.0, x.1), Session.START, evs).accepted
           <= Session.Play(p.suite, Session.Ctx(x.0, x.1), Session.START, evs).sent
      && var sealed := Session.Play(p.suite, Session.Ctx(x.0, x.1), Session.START, Session.Sends(msgs));
         |sealed.sent| == |sealed.wire| && sealed.sent == msgs
         && Session.Play(p.suite, Session.Ctx(x.0, x.1), sealed,
             Session.Deliveries(sealed.sent, sealed.wire, 0)).accepted == msgs
  {
    hide SetupSender, SetupReceiver, Session.After, Session.SeqNonce;
    SetupsAgree(p, ctx, skX, skK, info, ephX, r);
    var (enc, x) := SetupSender(p, ctx, p.xPub(skX), p.kemPub(skK), info, ephX, r).value;
    var cx := Session.Ctx(x.0, x.1);
    Session.SessionSafe(p.suite, cx, evs);
    Session.SenderSealsAll(p.suite, cx, Session.START, msgs);
    var sealed := Session.Play(p.suite, cx, Session.START, Session.Sends(msgs));
    Session.InOrderDelivery(p.suite, cx, sealed);
  }
}
