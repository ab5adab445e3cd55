/** HPKE streaming sessions: sequence nonces, a sender that counts, a receiver that stops at the first failure. */
module Session {
  import opened Wrappers
  import opened ByteStrings
  import opened Keyfile

  // ---------------------------------------------------------------------------
  // Nonces
  // ---------------------------------------------------------------------------

  /** Bitwise exclusive or of `width`-bit numbers. */
  function Xor(a: nat, b: nat, width: nat): (c: nat)
    ensures c < Pow2(width)
  {
    if width == 0 then 0 else (a % 2 + b % 2) % 2 + 2 * Xor(a / 2, b / 2, width - 1)
  }

  function Pow2(n: nat): (p: nat)
    ensures p > 0
  {
    if n == 0 then 1 else 2 * Pow2(n - 1)
  }

  function XorByte(a: byte, b: byte): byte {
    assert Pow2(8) == 256;
    Xor(a, b, 8)
  }

  /** The `i`-th bit from below. */
  function Bit(n: nat, i: nat): nat {
    if i == 0 then n % 2 else Bit(n / 2, i - 1)
  }

  /** Bit by bit it is one exactly if the two bits differ. */
  lemma {:induction false} XorBits(a: nat, b: nat, width: nat, i: nat)
    requires i < width
    ensures Bit(Xor(a, b, width), i) == if Bit(a, i) != Bit(b, i) then 1 else 0
  {
    if i > 0 {
      XorBits(a / 2, b / 2, width - 1, i - 1);
      assert Xor(a, b, width) / 2 == Xor(a / 2, b / 2, width - 1);
    }
  }

  /** Exclusive or with a fixed number loses nothing. */
  lemma {:induction false} XorInjective(a: nat, b: nat, c: nat, width: nat)
    requires b < Pow2(width) && c < Pow2(width) && Xor(a, b, width) == Xor(a, c, width)
    ensures b == c
  {
    if width > 0 {
      LowBit((a % 2 + b % 2) % 2, Xor(a / 2, b / 2, width - 1), (a % 2 + c % 2) % 2, Xor(a / 2, c / 2, width - 1));
      LowBit(b % 2, b / 2, c % 2, c / 2);
      XorInjective(a / 2, b / 2, c / 2, width - 1);
    }
  }

  /** A number is determined by its lowest bit and the rest. */
  lemma LowBit(p: nat, x: nat, q: nat, y: nat)
    requires p < 2 && q < 2
    ensures p + 2 * x == q + 2 * y <==> p == q && x == y
  {
  }

  lemma {:induction false} XorZero(a: nat, width: nat)
    requires a < Pow2(width)
    ensures Xor(a, 0, width) == a
  {
    if width > 0 {
      XorZero(a / 2, width - 1);
    }
  }

  /** I2OSP(n, len) of RFC 8017: the big-endian bytes of `n`. */
  function I2OSP(n: nat, len: nat): (b: Bytes)
    ensures |b| == len
  {
    if len == 0 then [] else I2OSP(n / 256, len - 1) + [n % 256]
  }

  lemma {:induction false} I2OSPInjective(m: nat, n: nat, len: nat)
    requires m < Pow2(8 * len) && n < Pow2(8 * len) && I2OSP(m, len) == I2OSP(n, len)
    ensures m == n
  {
    if len > 0 {
      var bm, bn := I2OSP(m, len), I2OSP(n, len);
      assert bm[len - 1] == bn[len - 1];
      assert bm[..len - 1] == I2OSP(m / 256, len - 1) && bn[..len - 1] == I2OSP(n / 256, len - 1);
      Pow2Step(8 * (len - 1));
      I2OSPInjective(m / 256, n / 256, len - 1);
    }
  }

  lemma Pow2Step(n: nat)
    ensures Pow2(n + 8) == 256 * Pow2(n)
  {
    assert Pow2(n + 8) == 2 * Pow2(n + 7) == 4 * Pow2(n + 6) == 8 * Pow2(n + 5) == 16 * Pow2(n + 4);
    assert Pow2(n + 4) == 2 * Pow2(n + 3) == 4 * Pow2(n + 2) == 8 * Pow2(n + 1) == 16 * Pow2(n);
  }

  /** A number of `len` bytes, padded in front with `extra` zero bytes. */
  lemma {:induction false} I2OSPPads(n: nat, len: nat, extra: nat)
    requires n < Pow2(8 * len)
    ensures I2OSP(n, len + extra) == Zeros(extra) + I2OSP(n, len)
  {
    if len == 0 {
      ZeroBytes(extra);
    } else {
      Pow2Step(8 * (len - 1));
      I2OSPPads(n / 256, len - 1, extra);
      assert len + extra - 1 == len - 1 + extra;
    }
  }

  lemma {:induction false} ZeroBytes(len: nat)
    ensures I2OSP(0, len) == Zeros(len)
  {
    if len > 0 {
      ZeroBytes(len - 1);
    }
  }

  /** The nonce of message `seq` in section 5.2 of RFC 9180: base_nonce XOR I2OSP(seq, Nn). */
  function SeqNonce(base: Bytes, n: nat): (nonce: Bytes)
    requires |base| == 12
    ensures |nonce| == 12
  {
    var s := I2OSP(n, 12);
    seq(12, i requires 0 <= i < 12 => XorByte(base[i], s[i]))
  }

  /** `seq_nonce`: only the last eight bytes are touched. */
  method ComputeSeqNonce(base: Bytes12, n: nat) returns (nonce: Bytes)
    requires n <= U64_MAX
    ensures nonce == SeqNonce(base, n)
  {
    hide XorByte;
    var out := base;
    var s := I2OSP(n, 8);
    var i := 0;
    while i < 8
      invariant 0 <= i <= 8 && |out| == 12
      invariant forall j | 0 <= j < 12 :: out[j] == if 4 <= j < 4 + i then XorByte(base[j], s[j - 4]) else base[j]
    {
      out := out[4 + i := XorByte(out[4 + i], s[i])];
      i := i + 1;
    }
    U64Bytes(n);
    forall j | 0 <= j < 4 ensures XorByte(base[j], 0) == base[j] {
      XorByteZero(base[j]);
    }
    nonce := out;
  }

  lemma XorByteZero(a: byte)
    ensures XorByte(a, 0) == a
  {
    assert Pow2(8) == 256;
    XorZero(a, 8);
  }

  lemma U64Bytes(n: nat)
    requires n <= U64_MAX
    ensures n < Pow2(64)
    ensures I2OSP(n, 12) == Zeros(4) + I2OSP(n, 8)
  {
    Pow2Step(0);
    Pow2Step(8);
    Pow2Step(16);
    Pow2Step(24);
    Pow2Step(32);
    Pow2Step(40);
    Pow2Step(48);
    Pow2Step(56);
    I2OSPPads(n, 8, 4);
  }

  /** Nonces of one session are pairwise distinct. */
  lemma NoncesDistinct(base: Bytes12, m: nat, n: nat)
    requires m <= U64_MAX && n <= U64_MAX && SeqNonce(base, m) == SeqNonce(base, n)
    ensures m == n
  {
    U64Bytes(m);
    U64Bytes(n);
    var sm, sn := I2OSP(m, 12), I2OSP(n, 12);
    forall i | 0 <= i < 12 ensures sm[i] == sn[i] {
      assert SeqNonce(base, m)[i] == SeqNonce(base, n)[i];
      assert Pow2(8) == 256;
      XorInjective(base[i], sm[i], sn[i], 8);
    }
    assert sm[4..] == I2OSP(m, 8) && sn[4..] == I2OSP(n, 8);
    I2OSPInjective(m, n, 8);
  }

  // ---------------------------------------------------------------------------
  // Sender and receiver
  // ---------------------------------------------------------------------------

  /** The part of `HpkeContext` that encryption uses. */
  datatype Ctx = Ctx(key: Bytes, base: Bytes12)

  /** `HpkeSenderContext::seal`: the new counter and the ciphertext, if any. */
  function SealSpec(c: Suite, x: Ctx, n: nat, aad: Bytes, pt: Bytes): (nat, Option<Bytes>) {
    if n >= U64_MAX then (n, None) else (n + 1, Some(c.enc(x.key, SeqNonce(x.base, n), aad, pt)))
  }

  /** `HpkeReceiverContext::open`: the new counter, the poison flag, and the plaintext, if any. */
  function OpenSpec(c: Suite, x: Ctx, n: nat, poisoned: bool, aad: Bytes, ct: Bytes): (nat, bool, Option<Bytes>) {
    if poisoned || n >= U64_MAX then (n, true, None)
    else
      var pt := c.dec(x.key, SeqNonce(x.base, n), aad, ct);
      if pt.None? then (n, true, None) else (n + 1, false, pt)
  }

  class HpkeSenderContext {
    const suite: Suite
    const ctx: Ctx
    var n: nat

    constructor (c: Suite, x: Ctx)
      ensures suite == c && ctx == x && n == 0
    {
      suite, ctx, n := c, x, 0;
    }

    method Seal(aad: Bytes, plaintext: Bytes) returns (ct: Option<Bytes>)
      requires n <= U64_MAX
      modifies this
      ensures n <= U64_MAX && (n, ct) == SealSpec(suite, ctx, old(n), aad, plaintext)
    {
      if n == U64_MAX {
        return None;
      }
      var nonce := ComputeSeqNonce(ctx.base, n);
      ct := Some(suite.enc(ctx.key, nonce, aad, plaintext));
      n := n + 1;
    }
  }

  class HpkeReceiverContext {
    const suite: Suite
    const ctx: Ctx
    var n: nat
    var poisoned: bool

    constructor (c: Suite, x: Ctx)
      ensures suite == c && ctx == x && n == 0 && !poisoned
    {
      suite, ctx, n, poisoned := c, x, 0, false;
    }

    method Open(aad: Bytes, ciphertext: Bytes) returns (pt: Option<Bytes>)
      requires n <= U64_MAX
      modifies this
      ensures n <= U64_MAX && (n, poisoned, pt) == OpenSpec(suite, ctx, old(n), old(poisoned), aad, ciphertext)
    {
      if poisoned {
        return None;
      }
      if n == U64_MAX {
        poisoned := true;
        return None;
      }
      var nonce := ComputeSeqNonce(ctx.base, n);
      pt := suite.dec(ctx.key, nonce, aad, ciphertext);
      if pt.None? {
        poisoned := true;
        return;
      }
      n := n + 1;
    }
  }

  // ---------------------------------------------------------------------------
  // A sender and a receiver with everything in between
  // ---------------------------------------------------------------------------

  datatype Msg = Msg(aad: Bytes, pt: Bytes)

  /** The sender seals a message, or the network hands the receiver some bytes of its choice. */
  datatype Event = Send(msg: Msg) | Deliver(aad: Bytes, ct: Bytes)

  datatype Sess = Sess(sendSeq: nat, sent: seq<Msg>, wire: seq<Bytes>, recvSeq: nat, poisoned: bool, accepted: seq<Msg>)

  const START := Sess(0, [], [], 0, false, [])

  function After(c: Suite, x: Ctx, s: Sess, ev: Event): Sess {
    match ev
    case Send(m) =>
      var (n, ct) := SealSpec(c, x, s.sendSeq, m.aad, m.pt);
      if ct.None? then s.(sendSeq := n) else s.(sendSeq := n, sent := s.sent + [m], wire := s.wire + [ct.value])
    case Deliver(aad, ct) =>
      var (n, poisoned, pt) := OpenSpec(c, x, s.recvSeq, s.poisoned, aad, ct);
      s.(recvSeq := n, poisoned := poisoned, accepted := if pt.Some? then s.accepted + [Msg(aad, pt.value)]
          else s.accepted)
  }

  function Play(c: Suite, x: Ctx, s: Sess, evs: seq<Event>): Sess
    decreases |evs|
  {
    if evs == [] then s else Play(c, x, After(c, x, s, evs[0]), evs[1..])
  }

  /**
   The ideal AEAD: what opens under the session key with this nonce and associated
   data was sealed by the sender with them.
   */
  ghost predicate Authentic(c: Suite, x: Ctx, s: Sess, ev: Event) {
    ev.Deliver? && s.recvSeq < U64_MAX && |s.wire| == |s.sent|
        && c.dec(x.key, SeqNonce(x.base, s.recvSeq), ev.aad, ev.ct).Some? ==>
      exists i | 0 <= i < |s.sent| ::
        i <= U64_MAX && SeqNonce(x.base, i) == SeqNonce(x.base, s.recvSeq) && s.sent[i].aad == ev.aad
            && s.wire[i] == ev.ct
  }

  ghost predicate AllAuthentic(c: Suite, x: Ctx, s: Sess, evs: seq<Event>)
    decreases |evs|
  {
    evs != [] ==> Authentic(c, x, s, evs[0]) && AllAuthentic(c, x, After(c, x, s, evs[0]), evs[1..])
  }

  /** The ciphertexts are the sealed messages in order; what was accepted is a prefix of them. */
  ghost predicate SessOk(c: Suite, x: Ctx, s: Sess) {
    && s.sendSeq == |s.sent| == |s.wire| <= U64_MAX
    && (forall i | 0 <= i < |s.wire| :: s.wire[i] == c.enc(x.key, SeqNonce(x.base, i), s.sent[i].aad, s.sent[i].pt))
    && s.recvSeq == |s.accepted| && s.accepted <= s.sent
  }

  lemma EventKeeps(c: Suite, x: Ctx, s: Sess, ev: Event)
    requires SuiteOk(c) && SessOk(c, x, s) && Authentic(c, x, s, ev)
    ensures SessOk(c, x, After(c, x, s, ev)) && s.sent <= After(c, x, s, ev).sent
  {
    hide SeqNonce;
    if ev.Deliver? && !s.poisoned && s.recvSeq < U64_MAX
        && c.dec(x.key, SeqNonce(x.base, s.recvSeq), ev.aad, ev.ct).Some? {
      var n := s.recvSeq;
      var i :| 0 <= i < |s.sent| && i <= U64_MAX && SeqNonce(x.base, i) == SeqNonce(x.base, n)
        && s.sent[i].aad == ev.aad && s.wire[i] == ev.ct;
      NoncesDistinct(x.base, i, n);
      assert c.dec(x.key, SeqNonce(x.base, n), ev.aad, ev.ct) == Some(s.sent[n].pt);
      assert s.accepted + [s.sent[n]] <= s.sent;
    }
  }

  /**
   For arbitrary reordered, dropped, replayed or altered input, what the receiver
   has accepted is always a prefix of what the sender has sealed.
   */
  lemma {:induction false} AcceptedIsPrefix(c: Suite, x: Ctx, s: Sess, evs: seq<Event>)
    requires SuiteOk(c) && SessOk(c, x, s) && AllAuthentic(c, x, s, evs)
    ensures SessOk(c, x, Play(c, x, s, evs)) && Play(c, x, s, evs).accepted <= Play(c, x, s, evs).sent
    decreases |evs|
  {
    hide After, SuiteOk;
    if evs != [] {
      EventKeeps(c, x, s, evs[0]);
      AcceptedIsPrefix(c, x, After(c, x, s, evs[0]), evs[1..]);
    }
  }

  /** From a fresh pair of contexts. */
  lemma SessionSafe(c: Suite, x: Ctx, evs: seq<Event>)
    requires SuiteOk(c) && AllAuthentic(c, x, START, evs)
    ensures Play(c, x, START, evs).accepted <= Play(c, x, START, evs).sent
  {
    AcceptedIsPrefix(c, x, START, evs);
  }

  /** A failed open stops the receiver for good. */
  lemma {:induction false} PoisonedStays(c: Suite, x: Ctx, s: Sess, evs: seq<Event>)
    requires s.poisoned
    ensures Play(c, x, s, evs).poisoned && Play(c, x, s, evs).accepted == s.accepted
    decreases |evs|
  {
    if evs != [] {
      PoisonedStays(c, x, After(c, x, s, evs[0]), evs[1..]);
    }
  }

  /** The first delivery that is not accepted is the last thing the receiver looks at. */
  lemma RejectionIsFinal(c: Suite, x: Ctx, s: Sess, aad: Bytes, ct: Bytes, evs: seq<Event>)
    requires After(c, x, s, Deliver(aad, ct)).accepted == s.accepted
    ensures Play(c, x, s, [Deliver(aad, ct)] + evs).accepted == s.accepted
  {
    var first := [Deliver(aad, ct)];
    assert (first + evs)[1..] == evs;
    assert |s.accepted + [Msg(aad, ct)]| != |s.accepted|;
    PoisonedStays(c, x, After(c, x, s, first[0]), evs);
  }

  /** Delivery of the sealed messages from the `k`-th on, in order. */
  function Deliveries(sent: seq<Msg>, wire: seq<Bytes>, k: nat): seq<Event>
    requires |sent| == |wire| && k <= |sent|
    decreases |sent| - k
  {
    if k == |sent| then [] else [Deliver(sent[k].aad, wire[k])] + Deliveries(sent, wire, k + 1)
  }

  /** In-order delivery of everything that was sealed yields all of it. */
  lemma {:induction false} InOrderDelivery(c: Suite, x: Ctx, s: Sess)
    requires SuiteOk(c) && SessOk(c, x, s) && !s.poisoned
    ensures Play(c, x, s, Deliveries(s.sent, s.wire, s.recvSeq)).accepted == s.sent
    decreases |s.sent| - s.recvSeq
  {
    hide SeqNonce;
    var k := s.recvSeq;
    if k == |s.sent| {
      assert s.accepted == s.sent;
    } else {
      var evs := Deliveries(s.sent, s.wire, k);
      assert evs[0] == Deliver(s.sent[k].aad, s.wire[k]) && evs[1..] == Deliveries(s.sent, s.wire, k + 1);
      assert c.dec(x.key, SeqNonce(x.base, k), s.sent[k].aad, s.wire[k]) == Some(s.sent[k].pt);
      var s' := After(c, x, s, evs[0]);
      assert s'.accepted == s.accepted + [s.sent[k]] <= s.sent;
      InOrderDelivery(c, x, s');
    }
  }

  /** The messages for which there is room. */
  function Kept(room: nat, msgs: seq<Msg>): seq<Msg> {
    if |msgs| <= room then msgs else msgs[..room]
  }

  lemma KeptStep(room: nat, msgs: seq<Msg>)
    requires msgs != []
    ensures Kept(room, msgs) == if room == 0 then [] else [msgs[0]] + Kept(room - 1, msgs[1..])
  {
  }

  /** The sender seals exactly the first 2^64 - 1 messages it is given, and its counter never wraps. */
  lemma {:induction false} SenderSealsAll(c: Suite, x: Ctx, s: Sess, msgs: seq<Msg>)
    requires SessOk(c, x, s)
    ensures var s' := Play(c, x, s, Sends(msgs));
      && SessOk(c, x, s') && s'.recvSeq == s.recvSeq && s'.poisoned == s.poisoned
      && s'.sent == s.sent + Kept(0xFFFF_FFFF_FFFF_FFFF - |s.sent|, msgs)
    decreases |msgs|
  {
    hide After, SessOk, Kept, Play, Sends;
    SentInRange(c, x, s);
    PlaySends(c, x, s, msgs);
    if msgs == [] {
      NothingKept(U64_MAX - |s.sent|);
    } else {
      var s1 := After(c, x, s, Send(msgs[0]));
      SealsOne(c, x, s, msgs[0]);
      SentInRange(c, x, s1);
      SenderSealsAll(c, x, s1, msgs[1..]);
      KeptAfterOne(s.sent, s1.sent, msgs);
    }
  }

  lemma KeptAfterOne(sent: seq<Msg>, sent': seq<Msg>, msgs: seq<Msg>)
    requires msgs != [] && |sent| <= U64_MAX && sent' == if |sent| < U64_MAX then sent + [msgs[0]] else sent
    ensures sent' + Kept(U64_MAX - |sent'|, msgs[1..]) == sent + Kept(U64_MAX - |sent|, msgs)
  {
    hide Kept;
    var room, rest := U64_MAX - |sent|, msgs[1..];
    KeptStep(room, msgs);
    if room > 0 {
      assert sent + [msgs[0]] + Kept(room - 1, rest) == sent + ([msgs[0]] + Kept(room - 1, rest));
    } else {
      NoRoom(rest);
    }
  }

  lemma PlaySends(c: Suite, x: Ctx, s: Sess, msgs: seq<Msg>)
    ensures Play(c, x, s, Sends(msgs)) ==
      if msgs == [] then s else Play(c, x, After(c, x, s, Send(msgs[0])), Sends(msgs[1..]))
  {
    hide After;
    if msgs != [] {
      assert Sends(msgs)[0] == Send(msgs[0]) && Sends(msgs)[1..] == Sends(msgs[1..]);
    }
  }

  lemma NothingKept(room: nat)
    ensures Kept(room, []) == []
  {
  }

  lemma NoRoom(msgs: seq<Msg>)
    ensures Kept(0, msgs) == []
  {
  }

  lemma SentInRange(c: Suite, x: Ctx, s: Sess)
    requires SessOk(c, x, s)
    ensures |s.sent| <= U64_MAX
  {
  }

  lemma SealsOne(c: Suite, x: Ctx, s: Sess, m: Msg)
    requires SessOk(c, x, s)
    ensures var s' := After(c, x, s, Send(m));
      && SessOk(c, x, s') && s'.recvSeq == s.recvSeq && s'.poisoned == s.poisoned
      && s'.sent == if |s.sent| < U64_MAX then s.sent + [m] else s.sent
  {
    hide SeqNonce;
  }

  function Sends(msgs: seq<Msg>): seq<Event> {
    if msgs == [] then [] else [Send(msgs[0])] + Sends(msgs[1..])
  }
}
