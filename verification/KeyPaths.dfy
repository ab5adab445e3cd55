/** Labels, file names and key types: which record lies where and what is bound into it. */
module KeyPaths {
  import opened ByteStrings
  import opened Rotation

  function HexDigit(n: nat): char
    requires n < 16
  {
    "0123456789abcdef"[n]
  }

  /** `hex::encode`. */
  function Hex(b: Bytes): (h: string)
    ensures |h| == 2 * |b|
  {
    if b == [] then "" else [HexDigit(b[0] / 16), HexDigit(b[0] % 16)] + Hex(b[1..])
  }

  /** The value of a lower-case hexadecimal digit. */
  function DigitValue(c: char): nat {
    if '0' <= c <= '9' then c as int - '0' as int
    else if 'a' <= c <= 'f' then c as int - 'a' as int + 10
    else 0
  }

  lemma HexDigitValue(n: nat)
    requires n < 16
    ensures DigitValue(HexDigit(n)) == n
    ensures '0' <= HexDigit(n) <= '9' || 'a' <= HexDigit(n) <= 'f'
  {
  }

  /** The name read as lower-case hexadecimal, high digit first, is the label. */
  lemma {:induction false} HexReads(b: Bytes, i: nat)
    requires i < |b|
    ensures b[i] == 16 * DigitValue(Hex(b)[2 * i]) + DigitValue(Hex(b)[2 * i + 1])
  {
    hide HexDigit, DigitValue;
    if i == 0 {
      HexDigitValue(b[0] / 16);
      HexDigitValue(b[0] % 16);
    } else {
      HexReads(b[1..], i - 1);
      assert Hex(b)[2 * i] == Hex(b[1..])[2 * (i - 1)] && Hex(b)[2 * i + 1] == Hex(b[1..])[2 * (i - 1) + 1];
    }
  }

  lemma {:induction false} HexInjective(a: Bytes, b: Bytes)
    requires Hex(a) == Hex(b)
    ensures a == b
  {
    hide Hex, DigitValue;
    assert |a| == |b|;
    forall i | 0 <= i < |a| ensures a[i] == b[i] {
      HexReads(a, i);
      HexReads(b, i);
    }
  }

  /** `label_key_type`. */
  function LabelKeyType(name: Bytes): string {
    "secret32:" + Hex(name)
  }

  /** `label_key_type_from_hex`. */
  function KeyTypeFromStem(stem: string): string {
    "secret32:" + stem
  }

  /** The file name of a labelled secret. */
  function FileName(name: Bytes): string {
    Hex(name) + ".keyf"
  }

  /** `Path::file_stem`: the name up to its last dot. */
  function FileStem(file: string): string {
    if file == "" then ""
    else if file[|file| - 1] == '.' then file[..|file| - 1]
    else if '.' !in file then file
    else FileStem(file[..|file| - 1])
  }

  /** The path of a live key file below the store's root. */
  function RelativePath(p: KeyPath): string {
    match p
    case EdSeed => "priv/ed25519.keyf"
    case DiliSeed => "priv/dilithium-mldsa87.keyf"
    case Secret(name) => "secrets/" + FileName(name)
  }

  /** The key type bound into a record when it is created. */
  function KeyTypeOf(kind: Kind): string {
    match kind
    case NextOld => "rotate-next-mk-old-v1"
    case NextNew => "rotate-next-mk-new-v1"
    case Live(EdSeed) => "ed25519-seed-v1"
    case Live(DiliSeed) => "dilithium-mldsa87-seed-v1"
    case Live(Secret(name)) => LabelKeyType(name)
  }

  /** The key type `collect_rewrap_targets` works out from what it finds on disk. */
  function CollectedKeyType(p: KeyPath): string {
    match p
    case EdSeed => "ed25519-seed-v1"
    case DiliSeed => "dilithium-mldsa87-seed-v1"
    case Secret(name) => KeyTypeFromStem(FileStem(FileName(name)))
  }

  lemma StemOfFileName(h: string)
    ensures FileStem(h + ".keyf") == h
  {
    var f := h + ".keyf";
    assert f[..|f| - 1] == h + ".key" && (h + ".key")[..|h| + 3] == h + ".ke" && (h + ".ke")[..|h| + 2] == h + ".k"
        && (h + ".k")[..|h| + 1] == h + "." && (h + ".")[..|h|] == h;
    assert f[|h|] == '.' && (h + ".key")[|h|] == '.' && (h + ".ke")[|h|] == '.' && (h + ".k")[|h|] == '.';
    assert FileStem(h + ".") == h;
    assert FileStem(h + ".k") == h;
    assert FileStem(h + ".ke") == h;
    assert FileStem(h + ".key") == h;
  }

  /** A rotation rewraps every file under the key type it was created with. */
  lemma CollectedKeyTypeIsOriginal(p: KeyPath)
    ensures CollectedKeyType(p) == KeyTypeOf(Live(p))
  {
    if p.Secret? {
      StemOfFileName(Hex(p.name));
    }
  }

  /** Every record is bound to what it is for: no two kinds of record share a key type. */
  lemma KeyTypesDistinct(a: Kind, b: Kind)
    requires KeyTypeOf(a) == KeyTypeOf(b)
    ensures a == b
  {
    var s, t := KeyTypeOf(a), KeyTypeOf(b);
    assert s[0] == t[0];
    assert KeyTypeOf(NextOld)[15] == 'o' && KeyTypeOf(NextNew)[15] == 'n';
    if a.Live? && a.path.Secret? && b.Live? && b.path.Secret? {
      assert s[9..] == Hex(a.path.name) && t[9..] == Hex(b.path.name);
      HexInjective(a.path.name, b.path.name);
    }
  }

  /** Distinct live files have distinct paths; in particular distinct labels do. */
  lemma PathsDistinct(p: KeyPath, q: KeyPath)
    requires RelativePath(p) == RelativePath(q)
    ensures p == q
  {
    if p.Secret? && q.Secret? {
      var a, b := RelativePath(p), RelativePath(q);
      assert a[8..|a| - 5] == Hex(p.name) && b[8..|b| - 5] == Hex(q.name);
      HexInjective(p.name, q.name);
    } else {
      assert |RelativePath(EdSeed)| == 17 && |RelativePath(DiliSeed)| == 27;
      assert RelativePath(p)[0] == RelativePath(q)[0];
    }
  }

  /** The fixed names on disk and in records. */
  lemma FixedNames()
    ensures RelativePath(EdSeed) == "priv/ed25519.keyf" && RelativePath(DiliSeed) == "priv/dilithium-mldsa87.keyf"
    ensures KeyTypeOf(Live(EdSeed)) == "ed25519-seed-v1" && KeyTypeOf(Live(DiliSeed)) == "dilithium-mldsa87-seed-v1"
    ensures KeyTypeOf(NextOld) == "rotate-next-mk-old-v1" && KeyTypeOf(NextNew) == "rotate-next-mk-new-v1"
  {
  }

  /** The names of a label, by example. */
  lemma LabelNames()
    ensures RelativePath(Secret([0x0F, 0xA1])) == "secrets/0fa1.keyf"
    ensures KeyTypeOf(Live(Secret([0x0F, 0xA1]))) == "secret32:0fa1"
  {
    assert [0x0F, 0xA1][1..] == [0xA1] && [0xA1][1..] == [];
    assert Hex([0xA1]) == "a1";
    assert Hex([0x0F, 0xA1]) == "0fa1";
  }
}
