/**
 Ciphers and key derivations that tell chosen inputs apart.  Real ones do so up to
 chance; these do so outright, and have every property that is asked of a suite.
 */
module Suites {
  import opened Wrappers
  import opened ByteStrings
  import opened Keyfile

  // ---------------------------------------------------------------------------
  // Ciphers
  // ---------------------------------------------------------------------------

  /** 16 bytes of one or of zero. */
  function Tag(marked: bool): (t: Bytes)
    ensures |t| == TAG_LEN && t[0] == (if marked then 1 else 0)
  {
    if marked then seq(TAG_LEN, _ => 1) else Zeros(TAG_LEN)
  }

  /** A cipher whose tag tells whether key, nonce and associated data are among the marked ones. */
  function MarkingSuite(marked: (Bytes, Bytes, Bytes) -> bool, kdf: (Bytes, Bytes, Bytes) -> Bytes): Suite {
    Suite((k, n, a, p: Bytes) => p + Tag(marked(k, n, a)),
          (k, n, a, ct: Bytes) =>
            if |ct| >= TAG_LEN && ct[|ct| - TAG_LEN..] == Tag(marked(k, n, a)) then Some(ct[..|ct| - TAG_LEN])
            else None,
          kdf)
  }

  lemma MarkingSuiteOk(marked: (Bytes, Bytes, Bytes) -> bool, kdf: (Bytes, Bytes, Bytes) -> Bytes)
    requires forall salt, ikm, info :: |kdf(salt, ikm, info)| == 32
    ensures SuiteOk(MarkingSuite(marked, kdf))
  {
    hide Tag;
    var c := MarkingSuite(marked, kdf);
    forall k, n, a, p: Bytes ensures c.dec(k, n, a, c.enc(k, n, a, p)) == Some(p) {
      var t := Tag(marked(k, n, a));
      assert (p + t)[|p|..] == t && (p + t)[..|p|] == p;
    }
    forall k, n, a, ct: Bytes | c.dec(k, n, a, ct).Some? ensures c.enc(k, n, a, c.dec(k, n, a, ct).value) == ct {
      assert ct == ct[..|ct| - TAG_LEN] + ct[|ct| - TAG_LEN..];
    }
  }

  /** What is sealed under marked inputs does not open under others, nor the other way round. */
  lemma MarkingSuiteRefuses(marked: (Bytes, Bytes, Bytes) -> bool, kdf: (Bytes, Bytes, Bytes) -> Bytes,
                            k: Bytes, n: Bytes, a: Bytes, k': Bytes, n': Bytes, a': Bytes, p: Bytes)
    requires marked(k, n, a) != marked(k', n', a')
    ensures var c := MarkingSuite(marked, kdf); c.dec(k', n', a', c.enc(k, n, a, p)) == None
  {
    hide Tag;
    var t, t' := Tag(marked(k, n, a)), Tag(marked(k', n', a'));
    assert t[0] != t'[0];
    assert (p + t)[|p|..] == t;
  }

  // ---------------------------------------------------------------------------
  // Key derivations
  // ---------------------------------------------------------------------------

  /** The inputs of one derivation. */
  datatype Derivation = Derivation(salt: Bytes, ikm: Bytes, info: Bytes)

  /** The place of `d` in `ds`, counted from one; zero if it is not there. */
  function Place(ds: seq<Derivation>, d: Derivation): (n: nat)
    ensures n <= |ds|
    ensures n > 0 ==> ds[n - 1] == d
    ensures n == 0 ==> d !in ds
  {
    if ds == [] then 0
    else if ds[|ds| - 1] == d then |ds|
    else Place(ds[..|ds| - 1], d)
  }

  /** 32 times the same byte. */
  function Fill(n: nat): Bytes32
    requires n < 256
  {
    seq(32, _ => n)
  }

  lemma FillInjective(m: nat, n: nat)
    requires m < 256 && n < 256 && Fill(m) == Fill(n)
    ensures m == n
  {
    assert Fill(m)[0] == m && Fill(n)[0] == n;
  }

  /** A derivation that gives each of `ds` a key of its own, and one key to everything else. */
  function MarkingKdf(ds: seq<Derivation>): (Bytes, Bytes, Bytes) -> Bytes
    requires |ds| < 256
  {
    (salt, ikm, info) => Fill(Place(ds, Derivation(salt, ikm, info)))
  }

  /** The key of the `n`-th marked derivation comes from that derivation only. */
  lemma MarkedKeyTells(ds: seq<Derivation>, n: nat, d: Derivation)
    requires n < |ds| < 256 && forall i | 0 <= i < |ds| && i != n :: ds[i] != ds[n]
    ensures MarkingKdf(ds)(d.salt, d.ikm, d.info) == Fill(n + 1) <==> d == ds[n]
  {
    if MarkingKdf(ds)(d.salt, d.ikm, d.info) == Fill(n + 1) {
      FillInjective(Place(ds, d), n + 1);
    }
  }

  /** The derivation that hands on a 32-byte key as it is. */
  function Passing(): (Bytes, Bytes, Bytes) -> Bytes {
    (salt, ikm, info) => if |ikm| == 32 then ikm else Zeros(32)
  }
}
