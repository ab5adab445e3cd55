/** Domain-separation contexts: slash-joined segments, and how they are bound to associated data. */
module Contexts {
  import opened Wrappers
  import opened ByteStrings

  const SLASH: byte := 0x2F
  const MAX_CONTEXT_LEN := 255

  /** `/v1`. */
  const VERSION_SUFFIX: Bytes := [0x2F, 0x76, 0x31]

  datatype Error = EmptySegment | SegmentCharset | TooLong

  predicate Printable(b: byte) {
    0x21 <= b <= 0x7E && b != SLASH
  }

  predicate ValidSegment(seg: Bytes) {
    seg != [] && forall i | 0 <= i < |seg| :: Printable(seg[i])
  }

  /** `validate_segment`. */
  function ValidateSegment(seg: Bytes): Option<Error> {
    if seg == [] then Some(EmptySegment)
    else if !ValidSegment(seg) then Some(SegmentCharset)
    else None
  }

  /** `Context::base`. */
  function Base(root: Bytes): Result<Bytes, Error> {
    var bad := ValidateSegment(root);
    if bad.Some? then Err(bad.value)
    else if |root| > MAX_CONTEXT_LEN then Err(TooLong)
    else Ok(root)
  }

  /** `Context::add`. */
  function Add(ctx: Bytes, seg: Bytes): Result<Bytes, Error> {
    var bad := ValidateSegment(seg);
    if bad.Some? then Err(bad.value)
    else if |ctx + [SLASH] + seg| > MAX_CONTEXT_LEN then Err(TooLong)
    else Ok(ctx + [SLASH] + seg)
  }

  /** `Context::label`. */
  function Label(ctx: Bytes): Bytes {
    ctx + VERSION_SUFFIX
  }

  /** `Context::bind_aad`. */
  function BindAad(ctx: Bytes, aad: Bytes): Bytes {
    if aad == [] then Label(ctx) else Label(ctx) + [0] + aad
  }

  // ---------------------------------------------------------------------------
  // Contexts as lists of segments
  // ---------------------------------------------------------------------------

  /** Segments with a slash between any two. */
  function Join(segs: seq<Bytes>): Bytes
    requires segs != []
  {
    if |segs| == 1 then segs[0] else segs[0] + [SLASH] + Join(segs[1..])
  }

  predicate AllValid(segs: seq<Bytes>) {
    segs != [] && forall i | 0 <= i < |segs| :: ValidSegment(segs[i])
  }

  /** The context `ctx` consists of these segments. */
  predicate IsContext(ctx: Bytes, segs: seq<Bytes>) {
    AllValid(segs) && ctx == Join(segs) && |ctx| <= MAX_CONTEXT_LEN
  }

  lemma {:induction false} JoinSnoc(segs: seq<Bytes>, seg: Bytes)
    requires segs != []
    ensures Join(segs + [seg]) == Join(segs) + [SLASH] + seg
  {
    if |segs| == 1 {
      assert (segs + [seg])[1..] == [seg];
    } else {
      assert (segs + [seg])[1..] == segs[1..] + [seg];
      JoinSnoc(segs[1..], seg);
      assert segs[0] + [SLASH] + (Join(segs[1..]) + [SLASH] + seg)
          == segs[0] + [SLASH] + Join(segs[1..]) + [SLASH] + seg;
    }
  }

  /** Printable ASCII without the space and the slash. */
  predicate Plain(seg: Bytes) {
    forall i | 0 <= i < |seg| :: 33 <= seg[i] <= 126 && seg[i] != 47
  }

  /** What `base` and `add` do with a text that would make a context of `len` bytes. */
  function Verdict(text: Bytes, len: nat): Option<Error> {
    if text == [] then Some(EmptySegment)
    else if !Plain(text) then Some(SegmentCharset)
    else if len > 255 then Some(TooLong)
    else None
  }

  lemma PlainIsValid(seg: Bytes)
    ensures ValidSegment(seg) <==> seg != [] && Plain(seg)
  {
  }

  /**
   `base` accepts exactly one segment of at most 255 printable bytes, and `add` extends
   the list by one; everything else is refused with the error that fits.
   */
  lemma BaseAndAddBuildLists(root: Bytes, ctx: Bytes, segs: seq<Bytes>, seg: Bytes)
    requires IsContext(ctx, segs)
    ensures Base(root) == if Verdict(root, |root|).None? then Ok(root) else Err(Verdict(root, |root|).value)
    ensures Base(root).Ok? ==> IsContext(root, [root])
    ensures var verdict := Verdict(seg, |ctx| + 1 + |seg|);
      Add(ctx, seg) == if verdict.None? then Ok(ctx + [47] + seg) else Err(verdict.value)
    ensures Add(ctx, seg).Ok? ==> IsContext(Add(ctx, seg).value, segs + [seg])
  {
    hide ValidSegment, Plain;
    PlainIsValid(root);
    PlainIsValid(seg);
    JoinSnoc(segs, seg);
    assert AllValid([root]) <==> ValidSegment([root][0]);
  }

  /** No byte of a context is NUL. */
  lemma {:induction false} JoinHasNoNul(segs: seq<Bytes>, i: nat)
    requires AllValid(segs) && i < |Join(segs)|
    ensures Join(segs)[i] != 0
  {
    var a := segs[0];
    if i >= |a| + 1 {
      var rest := Join(segs[1..]);
      assert Join(segs)[i] == rest[i - |a| - 1];
      assert AllValid(segs[1..]);
      JoinHasNoNul(segs[1..], i - |a| - 1);
    } else if i < |a| {
      assert Printable(a[i]);
    }
  }

  /** The first segment of a context ends at its first slash, if there is one. */
  lemma FirstSegment(segs: seq<Bytes>, other: seq<Bytes>)
    requires AllValid(segs) && AllValid(other) && Join(segs) == Join(other)
    ensures |segs[0]| <= |other[0]|
  {
    var a, b := segs[0], other[0];
    assert forall i | 0 <= i < |a| :: Join(segs)[i] == a[i] && Printable(a[i]);
    assert |other| > 1 ==> Join(other)[|b|] == SLASH;
  }

  /** Different segment lists give different contexts. */
  lemma {:induction false} JoinInjective(segs: seq<Bytes>, other: seq<Bytes>)
    requires AllValid(segs) && AllValid(other) && Join(segs) == Join(other)
    ensures segs == other
  {
    FirstSegment(segs, other);
    FirstSegment(other, segs);
    var n := |segs[0]|;
    assert Join(segs)[..n] == segs[0] && Join(other)[..n] == other[0];
    if |segs| > 1 && |other| > 1 {
      assert Join(segs)[n + 1..] == Join(segs[1..]) && Join(other)[n + 1..] == Join(other[1..]);
      assert AllValid(segs[1..]) && AllValid(other[1..]);
      JoinInjective(segs[1..], other[1..]);
      assert segs == [segs[0]] + segs[1..] && other == [other[0]] + other[1..];
    }
  }

  lemma LabelHasNoNul(segs: seq<Bytes>)
    requires AllValid(segs)
    ensures forall i | 0 <= i < |Label(Join(segs))| :: Label(Join(segs))[i] != 0
  {
    forall i | 0 <= i < |Label(Join(segs))| ensures Label(Join(segs))[i] != 0 {
      if i < |Join(segs)| {
        JoinHasNoNul(segs, i);
      }
    }
  }

  /** The label of a sub-context, as text. */
  lemma LabelOf(ctx: Bytes, seg: string)
    ensures Label(ctx + [SLASH] + Ascii(seg)) == ctx + Ascii("/" + seg + "/v1")
  {
    AsciiJoin("/" + seg, "/v1");
    AsciiJoin("/", seg);
    assert Ascii("/") == [47] && Ascii("/v1") == [47, 118, 49];
  }

  /** Bound data byte for byte: the label, and a NUL in front of caller data that is not empty. */
  lemma BindAadBytes(ctx: Bytes, aad: Bytes)
    ensures BindAad(ctx, []) == ctx + Ascii("/v1")
    ensures aad != [] ==> BindAad(ctx, aad) == ctx + Ascii("/v1") + [0] + aad
  {
    assert Ascii("/v1") == [47, 118, 49];
  }

  /** The associated data bound under a context determines the segment list and the caller's data. */
  lemma BindAadInjective(segs: seq<Bytes>, aad: Bytes, segs': seq<Bytes>, aad': Bytes)
    requires AllValid(segs) && AllValid(segs') && BindAad(Join(segs), aad) == BindAad(Join(segs'), aad')
    ensures segs == segs' && aad == aad'
  {
    var l, l' := Label(Join(segs)), Label(Join(segs'));
    var b := BindAad(Join(segs), aad);
    LabelHasNoNul(segs);
    LabelHasNoNul(segs');
    assert forall i | 0 <= i < |l| :: b[i] == l[i];
    assert forall i | 0 <= i < |l'| :: b[i] == l'[i];
    assert |b| > |l| ==> b[|l|] == 0;
    assert |b| > |l'| ==> b[|l'|] == 0;
    assert l == b[..|l|] == l';
    LabelDeterminesContext(Join(segs), Join(segs'));
    JoinInjective(segs, segs');
    if |b| > |l| {
      assert b[|l| + 1..] == aad && b[|l| + 1..] == aad';
    }
  }

  lemma LabelDeterminesContext(ctx: Bytes, ctx': Bytes)
    requires Label(ctx) == Label(ctx')
    ensures ctx == ctx'
  {
    assert ctx == Label(ctx)[..|Label(ctx)| - 3] && ctx' == Label(ctx')[..|Label(ctx')| - 3];
  }

  /** `bind_aad` as it runs. */
  method ComputeBindAad(ctx: Bytes, aad: Bytes) returns (out: Bytes)
    ensures out == BindAad(ctx, aad)
  {
    out := Label(ctx);
    if aad != [] {
      out := out + [0];
      out := out + aad;
    }
  }
}
