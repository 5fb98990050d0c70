/** Deriving the many components of a Pointcheval-Sanders key from one seed. */
module KeyGeneration {
  import opened Bytes

  // ---------- Public keys: one alternating chain of hashes ----------

  /** Hashing to the two groups, elements as their bytes. */
  datatype Groups = Groups(toG1: seq<Byte> -> seq<Byte>, toG2: seq<Byte> -> seq<Byte>)

  datatype PublicKey = PublicKey(ys: seq<seq<Byte>>, yTildas: seq<seq<Byte>>, xTilda: seq<Byte>)

  /** The chain: link `k` hashes the previous one, into the first group when `k` is odd. */
  function Link(groups: Groups, seed: seq<Byte>, k: nat): seq<Byte> {
    if k == 0 then seed
    else if k % 2 == 1 then groups.toG1(Link(groups, seed, k - 1))
    else groups.toG2(Link(groups, seed, k - 1))
  }

  /** `generate_ps_pk`: odd links, even links, and the next even link hashed again into the
      second group. */
  method GeneratePublicKey(groups: Groups, n: nat, seed: seq<Byte>) returns (pk: PublicKey)
    ensures |pk.ys| == n && |pk.yTildas| == n
    ensures forall i :: 0 <= i < n ==> pk.ys[i] == Link(groups, seed, 2 * i + 1)
    ensures forall i :: 0 <= i < n ==> pk.yTildas[i] == Link(groups, seed, 2 * i + 2)
    ensures pk.xTilda == groups.toG2(Link(groups, seed, 2 * n + 2))
  {
    var ys: seq<seq<Byte>>, yTildas: seq<seq<Byte>> := [], [];
    var g1 := groups.toG1(seed);
    var g2 := groups.toG2(g1);
    for i := 0 to n
      invariant |ys| == i && |yTildas| == i
      invariant forall j :: 0 <= j < i ==> ys[j] == Link(groups, seed, 2 * j + 1)
      invariant forall j :: 0 <= j < i ==> yTildas[j] == Link(groups, seed, 2 * j + 2)
      invariant g1 == Link(groups, seed, 2 * i + 1) && g2 == Link(groups, seed, 2 * i + 2)
    {
      ys := ys + [g1];
      yTildas := yTildas + [g2];
      g1 := groups.toG1(g2);
      g2 := groups.toG2(g1);
    }
    return PublicKey(ys, yTildas, groups.toG2(g2));
  }

  /** A larger bound on the same seed only appends. */
  method PublicKeysAreNested(groups: Groups, m: nat, n: nat, seed: seq<Byte>)
    returns (small: PublicKey, large: PublicKey)
    requires m <= n
    ensures |small.ys| == m && |large.ys| == |large.yTildas| == n
    ensures small.ys <= large.ys && small.yTildas <= large.yTildas
    ensures m < n ==> small.xTilda == groups.toG2(large.yTildas[m])
  {
    small := GeneratePublicKey(groups, m, seed);
    large := GeneratePublicKey(groups, n, seed);
  }

  // ---------- Secret keys: one derivation per index ----------

  datatype SecretKey = SecretKey(ys: seq<nat>, x: nat)

  /** The `key_info` of the scalars: four bytes for each `ys`, none for `x`. */
  function KeyInfo(i: Option<nat>): seq<Byte> {
    match i case Some(n) => BigEndian(n, 4) case None => []
  }

  /** `generate_ps_sk`; `derive` is the key derivation from the seed, the legacy one or not,
      and fails for some lengths. */
  method GenerateSecretKey(n: nat, derive: seq<Byte> -> Option<nat>) returns (r: Option<SecretKey>)
    requires n < Pow256(4)
    ensures r.Some? <==> derive(KeyInfo(None)).Some? && forall i: nat :: i < n ==> derive(KeyInfo(Some(i))).Some?
    ensures r.Some? ==> |r.value.ys| == n && Some(r.value.x) == derive(KeyInfo(None))
    ensures r.Some? ==> forall i: nat :: i < n ==> Some(r.value.ys[i]) == derive(KeyInfo(Some(i)))
  {
    var ys: seq<nat> := [];
    for i := 0 to n
      invariant |ys| == i
      invariant forall j: nat :: j < i ==> derive(KeyInfo(Some(j))) == Some(ys[j])
    {
      assert KeyInfo(Some(i)) == BigEndian(i, 4);
      var key :- derive(BigEndian(i, 4));
      ys := ys + [key];
    }
    assert KeyInfo(None) == [];
    var x :- derive([]);
    return Some(SecretKey(ys, x));
  }

  /** The information of `x` is empty; that of a `ys` is its index in four bytes. */
  lemma KeyInfoReads(i: nat)
    requires i < Pow256(4)
    ensures KeyInfo(None) == [] && |KeyInfo(Some(i))| == 4 && FromBigEndian(KeyInfo(Some(i))) == i
  {
    BigEndianRoundTrip(i, 4);
  }

  /** No two scalars of a key are derived from the same information. */
  lemma KeyInfosDiffer(i: Option<nat>, j: Option<nat>)
    requires i.Some? ==> i.value < Pow256(4)
    requires j.Some? ==> j.value < Pow256(4)
    requires KeyInfo(i) == KeyInfo(j)
    ensures i == j
  {
    if i.Some? && j.Some? {
      BigEndianInjective(i.value, j.value, 4);
    }
  }

  /** A larger bound on the same seed only appends, and keeps `x`. */
  method SecretKeysAreNested(m: nat, n: nat, derive: seq<Byte> -> Option<nat>)
    returns (small: Option<SecretKey>, large: Option<SecretKey>)
    requires m <= n < Pow256(4)
    ensures large.Some? ==> small.Some? && |small.value.ys| == m && |large.value.ys| == n
    ensures large.Some? ==> small.value.ys <= large.value.ys && small.value.x == large.value.x
  {
    small := GenerateSecretKey(m, derive);
    large := GenerateSecretKey(n, derive);
    if large.Some? {
      forall i: nat | i < m ensures small.value.ys[i] == large.value.ys[i] {
        assert Some(small.value.ys[i]) == derive(KeyInfo(Some(i))) == Some(large.value.ys[i]);
      }
    }
  }
}
