/** The `.keyf` record: its byte layout, parser, and the load, save and rewrap built on it. */
module Keyfile {
  import opened Wrappers
  import opened ByteStrings

  // ---------------------------------------------------------------------------
  // Big-endian integers
  // ---------------------------------------------------------------------------

  /** `u16::to_be_bytes`. */
  function U16(n: nat): (b: Bytes)
    requires n < 0x1_0000
    ensures |b| == 2 && FromU16(b) == n
  {
    [n / 256, n % 256]
  }

  function FromU16(b: Bytes): (n: nat)
    requires |b| == 2
    ensures n < 0x1_0000
  {
    (b[0] as int) * 256 + b[1]
  }

  /** `u32::to_be_bytes`. */
  function U32(n: nat): (b: Bytes)
    requires n < 0x1_0000_0000
    ensures |b| == 4 && FromU32(b) == n
  {
    var b := U16(n / 0x1_0000) + U16(n % 0x1_0000);
    assert b[..2] == U16(n / 0x1_0000) && b[2..] == U16(n % 0x1_0000);
    b
  }

  function FromU32(b: Bytes): (n: nat)
    requires |b| == 4
    ensures n < 0x1_0000_0000
  {
    FromU16(b[..2]) * 0x1_0000 + FromU16(b[2..])
  }

  lemma U16Canonical(b: Bytes)
    requires |b| == 2
    ensures U16(FromU16(b)) == b
  {
    var n := FromU16(b);
    assert n / 256 == b[0] && n % 256 == b[1];
  }

  lemma U32Canonical(b: Bytes)
    requires |b| == 4
    ensures U32(FromU32(b)) == b
  {
    hide U16, FromU16;
    U16Canonical(b[..2]);
    U16Canonical(b[2..]);
    var hi, lo := FromU16(b[..2]), FromU16(b[2..]);
    assert FromU32(b) / 0x1_0000 == hi && FromU32(b) % 0x1_0000 == lo;
    assert b == b[..2] + b[2..];
  }

  // ---------------------------------------------------------------------------
  // The record
  // ---------------------------------------------------------------------------

  const MAGIC: Bytes := [75, 69, 89, 70]
  const VERSION: byte := 1
  const ALG_AES256_GCM_SIV: byte := 1
  const DEK_LEN := 32
  const CT_WRAP_LEN := 48
  const HEADER_LEN := 124
  const MAX_KEYFILE_SIZE := 65536
  const TAG_LEN := 16

  datatype Record = Record(
    version: byte, alg: byte, dekLen: nat,
    salt: Bytes, nonceWrap: Bytes, ctWrap: Bytes, noncePayload: Bytes, ctPayload: Bytes)

  /** The records that `build_record` writes without truncating a length. */
  predicate WellFormed(r: Record) {
    && r.dekLen < 0x1_0000 && |r.salt| == 32 && |r.nonceWrap| == 12 && |r.ctWrap| == CT_WRAP_LEN
    && |r.noncePayload| == 12 && |r.ctPayload| < 0x1_0000_0000
  }

  /** The fixed part of a record up to the wrapped key. */
  function PrintWrap(r: Record): (b: Bytes)
    requires r.dekLen < 0x1_0000
    ensures |b| == 16 + |r.salt| + |r.nonceWrap| - 2
  {
    MAGIC + [r.version, r.alg] + U16(r.dekLen) + U16(|r.salt| % 0x1_0000) + r.salt
    + U16(|r.nonceWrap| % 0x1_0000) + r.nonceWrap + U16(|r.ctWrap| % 0x1_0000)
  }

  /** `build_record`: every length is cut to the width of its field. */
  function Print(r: Record): (b: Bytes)
    requires r.dekLen < 0x1_0000
  {
    PrintWrap(r) + r.ctWrap
    + (U16(|r.noncePayload| % 0x1_0000) + r.noncePayload + U32(|r.ctPayload| % 0x1_0000_0000)) + r.ctPayload
  }

  datatype Error = InvalidLen(want: nat, got: nat) | Malformed

  /** What a buffer must look like at the fixed offsets of the layout. */
  predicate Layout(buf: Bytes) {
    && HEADER_LEN <= |buf|
    && FromU16(buf[8..10]) == 32 && FromU16(buf[42..44]) == 12 && FromU16(buf[56..58]) == CT_WRAP_LEN
    && FromU16(buf[106..108]) == 12 && FromU32(buf[120..124]) == |buf| - HEADER_LEN
  }

  /** `parse_keyfile` by fixed offsets. */
  function Parse(buf: Bytes): Result<Record, Error> {
    if |buf| < 8 then Err(InvalidLen(8, |buf|))
    else if buf[0..4] != MAGIC || !Layout(buf) then Err(Malformed)
    else
      Ok(Record(buf[4], buf[5], FromU16(buf[6..8]), buf[10..42], buf[44..56], buf[58..106], buf[108..120], buf[124..]))
  }

  lemma WrapSlices(r: Record, b: Bytes)
    requires WellFormed(r) && b == PrintWrap(r)
    ensures |b| == 58 && b[0..4] == MAGIC && b[4] == r.version && b[5] == r.alg && b[6..8] == U16(r.dekLen)
    ensures b[8..10] == U16(32) && b[10..42] == r.salt && b[42..44] == U16(12) && b[44..56] == r.nonceWrap
    ensures b[56..58] == U16(CT_WRAP_LEN)
  {
    hide U16;
  }

  /** A slice of the middle of three parts. */
  lemma Inner(pre: Bytes, mid: Bytes, post: Bytes, b: Bytes, i: nat, j: nat)
    requires b == pre + mid + post && i <= j <= |mid|
    ensures b[|pre| + i..|pre| + j] == mid[i..j]
  {
  }

  lemma PrintedWrap(r: Record)
    requires WellFormed(r)
    ensures var b, w := Print(r), PrintWrap(r);
      && |b| == HEADER_LEN + |r.ctPayload| && |w| == 58 && b[0..4] == w[0..4] && b[4] == w[4] && b[5] == w[5]
      && b[6..8] == w[6..8] && b[8..10] == w[8..10] && b[10..42] == w[10..42] && b[42..44] == w[42..44]
      && b[44..56] == w[44..56] && b[56..58] == w[56..58] && b[58..106] == r.ctWrap
  {
    hide U16, U32, PrintWrap;
    var w := PrintWrap(r);
    var mid := U16(12) + r.noncePayload + U32(|r.ctPayload|);
    var b := Print(r);
    var tail := mid + r.ctPayload;
    assert b == w + r.ctWrap + tail;
    Inner(w, r.ctWrap, tail, b, 0, CT_WRAP_LEN);
    assert b == [] + w + (r.ctWrap + tail);
    Inner([], w, r.ctWrap + tail, b, 0, 4);
    Inner([], w, r.ctWrap + tail, b, 6, 8);
    Inner([], w, r.ctWrap + tail, b, 8, 10);
    Inner([], w, r.ctWrap + tail, b, 10, 42);
    Inner([], w, r.ctWrap + tail, b, 42, 44);
    Inner([], w, r.ctWrap + tail, b, 44, 56);
    Inner([], w, r.ctWrap + tail, b, 56, 58);
  }

  lemma PrintedPayload(r: Record)
    requires WellFormed(r)
    ensures var b := Print(r);
      && |b| == HEADER_LEN + |r.ctPayload| && b[106..108] == U16(12) && b[108..120] == r.noncePayload
      && b[120..124] == U32(|r.ctPayload|) && b[124..] == r.ctPayload
  {
    hide U16, U32, PrintWrap;
    var head := PrintWrap(r) + r.ctWrap;
    var mid := U16(12) + r.noncePayload + U32(|r.ctPayload|);
    var b := Print(r);
    assert b == head + mid + r.ctPayload;
    Inner(head, mid, r.ctPayload, b, 0, 2);
    Inner(head, mid, r.ctPayload, b, 2, 14);
    Inner(head, mid, r.ctPayload, b, 14, 18);
    Inner([], U16(12), r.noncePayload + U32(|r.ctPayload|), mid, 0, 2);
    Inner(U16(12), r.noncePayload, U32(|r.ctPayload|), mid, 0, 12);
    assert mid[14..18] == U32(|r.ctPayload|);
  }

  /** Every well-formed record parses back to its fields. */
  lemma ParsePrint(r: Record)
    requires WellFormed(r)
    ensures Parse(Print(r)) == Ok(r)
    ensures |Print(r)| == HEADER_LEN + |r.ctPayload|
  {
    hide U16, U32, FromU16, FromU32, Print, PrintWrap;
    var b := Print(r);
    WrapSlices(r, PrintWrap(r));
    PrintedWrap(r);
    PrintedPayload(r);
    assert FromU16(b[6..8]) == r.dekLen && FromU16(b[8..10]) == 32 && FromU16(b[42..44]) == 12;
    assert FromU16(b[56..58]) == CT_WRAP_LEN && FromU16(b[106..108]) == 12 && FromU32(b[120..124]) == |r.ctPayload|;
  }

  /** Any buffer that parses is the print of what it parsed to. */
  lemma PrintParse(buf: Bytes)
    requires Parse(buf).Ok?
    ensures WellFormed(Parse(buf).value) && Print(Parse(buf).value) == buf
  {
    var r := Parse(buf).value;
    U16Canonical(buf[6..8]);
    U16Canonical(buf[8..10]);
    U16Canonical(buf[42..44]);
    U16Canonical(buf[56..58]);
    U16Canonical(buf[106..108]);
    U32Canonical(buf[120..124]);
    PrintSlices(buf, r);
  }

  lemma PrintWrapSlices(buf: Bytes, r: Record)
    requires WellFormed(r) && |buf| >= 58
    requires buf[0..4] == MAGIC && buf[4] == r.version && buf[5] == r.alg && buf[6..8] == U16(r.dekLen)
    requires buf[8..10] == U16(32) && buf[10..42] == r.salt && buf[42..44] == U16(12) && buf[44..56] == r.nonceWrap
    requires buf[56..58] == U16(CT_WRAP_LEN)
    ensures buf[..58] == PrintWrap(r)
  {
    hide U16;
    assert buf[..58] == buf[0..4] + [buf[4], buf[5]] + buf[6..8] + buf[8..10] + buf[10..42] + buf[42..44]
                        + buf[44..56] + buf[56..58];
  }

  lemma PrintSlices(buf: Bytes, r: Record)
    requires WellFormed(r) && |buf| == HEADER_LEN + |r.ctPayload|
    requires buf[0..4] == MAGIC && buf[4] == r.version && buf[5] == r.alg && buf[6..8] == U16(r.dekLen)
    requires buf[8..10] == U16(32) && buf[10..42] == r.salt && buf[42..44] == U16(12) && buf[44..56] == r.nonceWrap
    requires buf[56..58] == U16(CT_WRAP_LEN) && buf[58..106] == r.ctWrap
    requires buf[106..108] == U16(12) && buf[108..120] == r.noncePayload && buf[120..124] == U32(|r.ctPayload|)
    requires buf[124..] == r.ctPayload
    ensures Print(r) == buf
  {
    hide U16, U32, PrintWrap;
    PrintWrapSlices(buf, r);
    assert buf[106..124] == buf[106..108] + buf[108..120] + buf[120..124];
    assert buf == buf[..58] + buf[58..106] + buf[106..124] + buf[124..];
  }

  // ---------------------------------------------------------------------------
  // The writer and the parser as they run
  // ---------------------------------------------------------------------------

  /** `build_record`. */
  method BuildRecord(r: Record) returns (out: Bytes)
    requires r.dekLen < 0x1_0000
    ensures out == Print(r)
  {
    hide U16, U32;
    out := MAGIC;
    out := out + [r.version];
    out := out + [r.alg];
    out := out + U16(r.dekLen);
    assert out == MAGIC + [r.version, r.alg] + U16(r.dekLen);
    out := out + U16(|r.salt| % 0x1_0000);
    out := out + r.salt;
    out := out + U16(|r.nonceWrap| % 0x1_0000);
    out := out + r.nonceWrap;
    out := out + U16(|r.ctWrap| % 0x1_0000);
    assert out == PrintWrap(r);
    out := out + r.ctWrap;
    ghost var head := out;
    out := out + U16(|r.noncePayload| % 0x1_0000);
    out := out + r.noncePayload;
    out := out + U32(|r.ctPayload| % 0x1_0000_0000);
    assert out == head + (U16(|r.noncePayload| % 0x1_0000) + r.noncePayload + U32(|r.ctPayload| % 0x1_0000_0000));
    out := out + r.ctPayload;
  }

  /** `take`: the next `len` bytes, or an error that leaves the cursor where it was. */
  method Take(buf: Bytes, idx: nat, len: nat) returns (r: Result<Bytes, Error>, idx': nat)
    requires idx <= |buf|
    ensures r.Ok? <==> idx + len <= |buf|
    ensures r.Ok? ==> idx' == idx + len && r.value == buf[idx..idx']
    ensures r.Err? ==> idx' == idx && r.error == Malformed
  {
    if idx + len <= |buf| {
      return Ok(buf[idx..idx + len]), idx + len;
    }
    return Err(Malformed), idx;
  }

  /** A two-byte length, the value it must have, and that many bytes. */
  method TakeField(buf: Bytes, idx: nat, want: nat) returns (r: Result<Bytes, Error>, idx': nat)
    requires idx <= |buf|
    ensures r.Ok? <==> idx + 2 + want <= |buf| && FromU16(buf[idx..idx + 2]) == want
    ensures r.Ok? ==> idx' == idx + 2 + want && r.value == buf[idx + 2..idx']
    ensures r.Err? ==> idx' <= |buf| && r.error == Malformed
  {
    var len;
    len, idx' := Take(buf, idx, 2);
    if len.Err? || FromU16(len.value) != want {
      return Err(Malformed), idx';
    }
    r, idx' := Take(buf, idx', want);
  }

  /** `parse_keyfile`. */
  method ParseKeyfile(buf: Bytes) returns (r: Result<Record, Error>)
    ensures r == Parse(buf)
  {
    hide FromU16, FromU32;
    if |buf| < 8 {
      return Err(InvalidLen(8, |buf|));
    }
    if buf[0..4] != MAGIC {
      return Err(Malformed);
    }
    var idx := 4;
    var version := buf[idx];
    idx := idx + 1;
    var alg := buf[idx];
    idx := idx + 1;
    var dekLen, salt, nonceWrap, ctWrap, noncePayload, lenPayload, ctPayload;
    dekLen, idx := Take(buf, idx, 2);
    assert dekLen.Ok?;
    salt, idx := TakeField(buf, idx, 32);
    if salt.Err? { return Err(salt.error); }
    nonceWrap, idx := TakeField(buf, idx, 12);
    if nonceWrap.Err? { return Err(nonceWrap.error); }
    ctWrap, idx := TakeField(buf, idx, CT_WRAP_LEN);
    if ctWrap.Err? { return Err(ctWrap.error); }
    noncePayload, idx := TakeField(buf, idx, 12);
    if noncePayload.Err? { return Err(noncePayload.error); }
    lenPayload, idx := Take(buf, idx, 4);
    if lenPayload.Err? { return Err(lenPayload.error); }
    ctPayload, idx := Take(buf, idx, FromU32(lenPayload.value));
    if ctPayload.Err? { return Err(ctPayload.error); }
    if idx != |buf| {
      return Err(Malformed);
    }
    assert buf[HEADER_LEN..|buf|] == buf[HEADER_LEN..];
    return Ok(Record(version, alg, FromU16(dekLen.value), salt.value, nonceWrap.value, ctWrap.value,
                     noncePayload.value, ctPayload.value));
  }

  // ---------------------------------------------------------------------------
  // Load, save, rewrap
  // ---------------------------------------------------------------------------

  /** AES-256-GCM-SIV and HKDF-SHA256, as functions. */
  datatype Suite = Suite(
    enc: (Bytes, Bytes, Bytes, Bytes) -> Bytes,
    dec: (Bytes, Bytes, Bytes, Bytes) -> Option<Bytes>,
    hkdf: (Bytes, Bytes, Bytes) -> Bytes)

  /**
   What is used of them.  Derived keys are 32 bytes.  A ciphertext is 16 bytes longer than its plaintext and
   decrypts to it.  What decrypts is the encryption of the result: the tag of
   AES-GCM-SIV is recomputed from the plaintext (section 5 of RFC 8452).
   */
  ghost predicate SuiteOk(c: Suite) {
    && (forall k, n, a, p: Bytes :: |c.enc(k, n, a, p)| == |p| + TAG_LEN)
    && (forall k, n, a, p: Bytes :: c.dec(k, n, a, c.enc(k, n, a, p)) == Some(p))
    && (forall salt, ikm, info :: |c.hkdf(salt, ikm, info)| == 32)
    && (forall k, n, a, ct: Bytes :: c.dec(k, n, a, ct).Some? ==> c.enc(k, n, a, c.dec(k, n, a, ct).value) == ct)
  }

  /** `aad_for`, for the one version there is. */
  function AadFor(keyType: string): Bytes {
    Ascii("keyfile:v1|" + keyType)
  }

  function DeriveKek(c: Suite, mk: Bytes, salt: Bytes): Bytes {
    c.hkdf(salt, mk, Ascii("kek/v1"))
  }

  predicate Supported(r: Record) {
    r.version == VERSION && r.alg == ALG_AES256_GCM_SIV && r.dekLen == DEK_LEN
  }

  /** `read_keyfile_bytes` and `parse_keyfile`, with the checks every caller makes next. */
  function ReadRecord(buf: Bytes): Option<Record> {
    if |buf| > MAX_KEYFILE_SIZE then None
    else
      var r := Parse(buf);
      if r.Ok? && Supported(r.value) then Some(r.value) else None
  }

  /** `unwrap_dek`. */
  function UnwrapDek(c: Suite, mk: Bytes, r: Record, aad: Bytes): (unwrapped: Option<Bytes>)
    ensures unwrapped.Some? ==> |unwrapped.value| == 32
  {
    var dek := c.dec(DeriveKek(c, mk, r.salt), r.nonceWrap, aad, r.ctWrap);
    if dek.Some? && |dek.value| == DEK_LEN then dek else None
  }

  /** `load_bytes_decrypted` on the bytes of the file. */
  function Load(c: Suite, buf: Bytes, mk: Bytes, keyType: string): Option<Bytes> {
    var r := ReadRecord(buf);
    if r.None? then None
    else
      var dek := UnwrapDek(c, mk, r.value, AadFor(keyType));
      if dek.None? then None
      else c.dec(dek.value, r.value.noncePayload, AadFor(keyType), r.value.ctPayload)
  }

  /** Random values drawn for one record. */
  datatype Draw = Draw(dek: Bytes32, salt: Bytes32, nonceWrap: Bytes12, noncePayload: Bytes12)

  /** The record that saves `payload` under `mk`. */
  function Sealed(c: Suite, mk: Bytes, payload: Bytes, keyType: string, g: Draw): Record {
    var aad := AadFor(keyType);
    Record(VERSION, ALG_AES256_GCM_SIV, DEK_LEN, g.salt, g.nonceWrap,
           c.enc(DeriveKek(c, mk, g.salt), g.nonceWrap, aad, g.dek),
           g.noncePayload, c.enc(g.dek, g.noncePayload, aad, payload))
  }

  /** `encode_encrypted`. */
  function Encode(c: Suite, mk: Bytes, payload: Bytes, keyType: string, g: Draw): Bytes {
    Print(Sealed(c, mk, payload, keyType, g))
  }

  /** A record with its key wrapped under `mk`, and nothing else changed. */
  function Rewrapped(c: Suite, r: Record, mk: Bytes, dek: Bytes, aad: Bytes, g: Draw): Record {
    r.(salt := g.salt, nonceWrap := g.nonceWrap, ctWrap := c.enc(DeriveKek(c, mk, g.salt), g.nonceWrap, aad, dek))
  }

  /** `rewrap_keyfile_dek_to_bytes` on the bytes of the file. */
  function Rewrap(c: Suite, buf: Bytes, oldMk: Bytes, newMk: Bytes, keyType: string, g: Draw): Option<Bytes> {
    var r := ReadRecord(buf);
    if r.None? then None
    else
      var dek := UnwrapDek(c, oldMk, r.value, AadFor(keyType));
      if dek.None? then None
      else Some(Print(Rewrapped(c, r.value, newMk, dek.value, AadFor(keyType), g)))
  }

  /** Largest payload whose record can be read back. */
  const MAX_PAYLOAD := MAX_KEYFILE_SIZE - HEADER_LEN - TAG_LEN

  /** What a saved payload loads back as: a record over the read limit cannot be read. */
  function Readable(payload: Bytes): Option<Bytes> {
    if |payload| <= MAX_PAYLOAD then Some(payload) else None
  }

  /**
   The real size limit: what was saved loads back exactly if it is at most 65,396
   bytes, and exactly then the file can ever be rewrapped.
   */
  lemma SavedLoadsIffSmall(c: Suite, mk: Bytes, newMk: Bytes, payload: Bytes, keyType: string, g: Draw, g': Draw)
    requires SuiteOk(c)
    ensures MAX_PAYLOAD == 65396
    ensures var buf := Encode(c, mk, payload, keyType, g);
      && |buf| == |payload| + 140
      && Load(c, buf, mk, keyType) == Readable(payload)
      && (Rewrap(c, buf, mk, newMk, keyType, g').Some? <==> |payload| <= MAX_PAYLOAD)
  {
    hide AadFor, DeriveKek, Parse, Print;
    var r := Sealed(c, mk, payload, keyType, g);
    PrintLength(r);
    assert |r.ctWrap| == CT_WRAP_LEN && |r.ctPayload| == |payload| + TAG_LEN;
    if |payload| <= MAX_PAYLOAD {
      ParsePrint(r);
    }
  }

  /** A saved file byte for byte: every field at its offset, every length big-endian in front of its field. */
  lemma RecordBytes(c: Suite, mk: Bytes, payload: Bytes, keyType: string, g: Draw)
    requires SuiteOk(c) && |payload| + 16 < 0x1_0000_0000
    ensures var b := Encode(c, mk, payload, keyType, g);
      && |b| == |payload| + 140
      && b[..6] == Ascii("KEYF") + [1, 1] && b[6..10] == [0, 32, 0, 32] && b[10..42] == g.salt
      && b[42..44] == [0, 12] && b[44..56] == g.nonceWrap && b[56..58] == [0, 48]
      && b[106..108] == [0, 12] && b[108..120] == g.noncePayload
      && BigEndian(b[120..124]) == |payload| + 16
  {
    hide AadFor, DeriveKek, Parse, Print, PrintWrap, FromU16, FromU32;
    var r := Sealed(c, mk, payload, keyType, g);
    assert |r.ctWrap| == CT_WRAP_LEN && |r.ctPayload| == |payload| + TAG_LEN;
    var b, w := Print(r), PrintWrap(r);
    PrintedWrap(r);
    PrintedPayload(r);
    WrapSlices(r, w);
    assert Ascii("KEYF") == [75, 69, 89, 70];
    assert b[..6] == b[0..4] + [b[4], b[5]] && b[6..10] == b[6..8] + b[8..10];
    U32IsBigEndian(|payload| + 16);
  }

  /** Four bytes, the highest first, as a number. */
  function BigEndian(b: Bytes): int
    requires |b| == 4
  {
    (b[0] as int) * 16_777_216 + (b[1] as int) * 65_536 + (b[2] as int) * 256 + b[3]
  }

  lemma U32IsBigEndian(n: nat)
    requires n < 0x1_0000_0000
    ensures BigEndian(U32(n)) == n
  {
  }

  /** A file loads to `payload` exactly if saving `payload` under this key and key type can write it. */
  lemma LoadExactly(c: Suite, buf: Bytes, mk: Bytes, keyType: string, payload: Bytes)
    requires SuiteOk(c)
    ensures Load(c, buf, mk, keyType) == Some(payload) <==>
      |payload| <= MAX_PAYLOAD && exists g: Draw :: buf == Encode(c, mk, payload, keyType, g)
  {
    hide AadFor, DeriveKek, Parse, Print;
    if Load(c, buf, mk, keyType) == Some(payload) {
      PrintParse(buf);
      var r, aad := ReadRecord(buf).value, AadFor(keyType);
      var dek := UnwrapDek(c, mk, r, aad).value;
      var g := Draw(dek, r.salt, r.nonceWrap, r.noncePayload);
      assert r == Sealed(c, mk, payload, keyType, g);
      assert buf == Encode(c, mk, payload, keyType, g);
      PrintLength(r);
    }
    forall g: Draw | buf == Encode(c, mk, payload, keyType, g) && |payload| <= MAX_PAYLOAD
      ensures Load(c, buf, mk, keyType) == Some(payload)
    {
      SavedLoadsIffSmall(c, mk, mk, payload, keyType, g, g);
    }
  }

  lemma PrintLength(r: Record)
    requires r.dekLen < 0x1_0000
    ensures |Print(r)| == 20 + |r.salt| + |r.nonceWrap| + |r.ctWrap| + |r.noncePayload| + |r.ctPayload|
  {
    hide U16, U32;
  }

  /**
   Rewrapping preserves meaning: whatever the file held, loading it under the new
   master key gives what loading the original under the old one gave; the payload's
   nonce and ciphertext and the length of the file are unchanged; and it works on
   every file that loads.
   */
  lemma RewrapPreserves(c: Suite, buf: Bytes, oldMk: Bytes, newMk: Bytes, keyType: string, g: Draw)
    requires SuiteOk(c)
    ensures Load(c, buf, oldMk, keyType).Some? ==> Rewrap(c, buf, oldMk, newMk, keyType, g).Some?
    ensures Rewrap(c, buf, oldMk, newMk, keyType, g).Some? ==>
      var out := Rewrap(c, buf, oldMk, newMk, keyType, g).value;
      && Load(c, out, newMk, keyType) == Load(c, buf, oldMk, keyType)
      && |out| == |buf|
      && ReadRecord(buf).Some? && ReadRecord(out).Some?
      && ReadRecord(out).value.noncePayload == ReadRecord(buf).value.noncePayload
      && ReadRecord(out).value.ctPayload == ReadRecord(buf).value.ctPayload
      && ReadRecord(out).value.salt == g.salt && ReadRecord(out).value.nonceWrap == g.nonceWrap
  {
    hide AadFor, DeriveKek, Parse, Print;
    var got := Rewrap(c, buf, oldMk, newMk, keyType, g);
    if got.Some? {
      var r, aad := ReadRecord(buf).value, AadFor(keyType);
      var dek := UnwrapDek(c, oldMk, r, aad).value;
      PrintParse(buf);
      var r' := Rewrapped(c, r, newMk, dek, aad, g);
      ParsePrint(r);
      ParsePrint(r');
      assert UnwrapDek(c, newMk, r', aad) == Some(dek);
    }
  }

  /** A record whose wrapped key does not decrypt under a master key and key type does not load under them. */
  lemma LoadRefused(c: Suite, r: Record, mk: Bytes, keyType: string)
    requires WellFormed(r) && |r.ctPayload| <= MAX_PAYLOAD + TAG_LEN
    requires c.dec(DeriveKek(c, mk, r.salt), r.nonceWrap, AadFor(keyType), r.ctWrap) == None
    ensures Load(c, Print(r), mk, keyType) == None
  {
    hide AadFor, DeriveKek, Parse, Print;
    ParsePrint(r);
  }

  /** Nor does one whose payload does not decrypt under the wrapped key. */
  lemma PayloadRefused(c: Suite, r: Record, mk: Bytes, keyType: string)
    requires WellFormed(r) && |r.ctPayload| <= MAX_PAYLOAD + TAG_LEN
    requires forall dek | UnwrapDek(c, mk, r, AadFor(keyType)) == Some(dek) ::
      c.dec(dek, r.noncePayload, AadFor(keyType), r.ctPayload) == None
    ensures Load(c, Print(r), mk, keyType) == None
  {
    hide AadFor, UnwrapDek, Parse, Print;
    ParsePrint(r);
  }

  /** A suite with all of these properties exists. */
  lemma SuiteExists()
    ensures SuiteOk(Suite((k, n, a, p: Bytes) => p + Zeros(TAG_LEN),
                          (k, n, a, ct: Bytes) =>
                            if |ct| >= TAG_LEN && ct[|ct| - TAG_LEN..] == Zeros(TAG_LEN) then Some(ct[..|ct| - TAG_LEN])
                                else None,
                          (salt, ikm, info) => Zeros(32)))
  {
    assert forall p: Bytes :: (p + Zeros(TAG_LEN))[|p|..] == Zeros(TAG_LEN) && (p + Zeros(TAG_LEN))[..|p|] == p;
    assert forall ct: Bytes | |ct| >= TAG_LEN && ct[|ct| - TAG_LEN..] == Zeros(TAG_LEN) ::
        ct[..|ct| - TAG_LEN] + Zeros(TAG_LEN) == ct;
  }
}
