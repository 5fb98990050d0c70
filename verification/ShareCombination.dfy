/** The anonymity revocation tool: decrypted shares, one file per anonymity revoker, are combined
    into the value they were dealt from. */
module ShareCombination {
  import opened Bytes
  import opened Fields
  import opened SecretSharing

  const U32 := 0x1_0000_0000

  /** What a share file holds: the revoker's identity and the decrypted share. */
  datatype Decrypted<+V> = Decrypted(arIdentity: nat, share: V)

  /** `None` is a file that cannot be read; `ArIdentity` is a nonzero 32-bit number. */
  type File<V> = Option<Decrypted<V>>

  predicate Readable<V>(file: File<V>) {
    file.Some? && 0 < file.value.arIdentity < U32
  }

  predicate AllReadable<V>(files: seq<File<V>>) {
    forall i | 0 <= i < |files| :: files[i].Some? && Readable(files[i])
  }

  datatype Outcome<+R> =
    | WrongVersion
    | InitialAccount
    | Panic                       // more than 255 share files
    | Insufficient
    | Unreadable(file: nat)
    | Duplicates
    | Combined(value: R)

  // ---------- Sorting and removing repetitions ----------

  predicate Sorted(s: seq<nat>) {
    forall i, j :: 0 <= i < j < |s| ==> s[i] <= s[j]
  }

  /** `sort` on the identities. */
  method Sort(s: seq<nat>) returns (r: seq<nat>)
    ensures Sorted(r) && multiset(r) == multiset(s)
  {
    r := [];
    for n := 0 to |s|
      invariant Sorted(r) && multiset(r) == multiset(s[..n])
    {
      assert s[..n + 1] == s[..n] + [s[n]];
      r := Insert(r, s[n]);
    }
    assert s[..|s|] == s;
  }

  method Insert(s: seq<nat>, x: nat) returns (r: seq<nat>)
    requires Sorted(s)
    ensures Sorted(r) && multiset(r) == multiset(s) + multiset{x}
  {
    var i := 0;
    while i < |s| && s[i] < x
      invariant i <= |s| && forall k :: 0 <= k < i ==> s[k] < x
    {
      i := i + 1;
    }
    r := s[..i] + [x] + s[i..];
    assert s == s[..i] + s[i..];
  }

  /** `dedup`: every run of equal neighbours becomes one. */
  method Dedup(s: seq<nat>) returns (r: seq<nat>)
    ensures Sorted(s) ==> Sorted(r) && Distinct(r) && (forall x :: x in r <==> x in s)
    ensures |r| <= |s| && (|r| == |s| <==> forall i :: 0 < i < |s| ==> s[i - 1] != s[i])
  {
    r := [];
    for n := 0 to |s|
      invariant (r == [] <==> n == 0) && (n > 0 ==> r[|r| - 1] == s[n - 1])
      invariant Sorted(s) ==> Sorted(r) && Distinct(r)
      invariant forall x :: x in r <==> x in s[..n]
      invariant |r| <= n && (|r| == n <==> forall i :: 0 < i < n ==> s[i - 1] != s[i])
    {
      assert s[..n + 1] == s[..n] + [s[n]];
      if n == 0 || r[|r| - 1] != s[n] {
        if Sorted(s) {
          Above(s, n, r);
        }
        r := r + [s[n]];
      }
    }
    assert s[..|s|] == s;
  }

  lemma Above(s: seq<nat>, n: nat, r: seq<nat>)
    requires Sorted(s) && n < |s| && Sorted(r) && Distinct(r) && forall x :: x in r ==> x in s[..n]
    requires r != [] ==> r[|r| - 1] != s[n]
    ensures Sorted(r + [s[n]]) && Distinct(r + [s[n]])
  {
    forall i | 0 <= i < |r| ensures r[i] < s[n] {
      assert r[|r| - 1] in s[..n];
      assert r[i] <= r[|r| - 1] <= s[n];
    }
  }

  /** Sorting shows repetitions as equal neighbours. */
  lemma RepetitionsMeet(s: seq<nat>, sorted: seq<nat>)
    requires Sorted(sorted) && multiset(sorted) == multiset(s)
    ensures Distinct(s) <==> forall i :: 0 < i < |sorted| ==> sorted[i - 1] != sorted[i]
  {
    Multiplicity(s);
    Multiplicity(sorted);
    if forall i :: 0 < i < |sorted| ==> sorted[i - 1] != sorted[i] {
      forall i, j | 0 <= i < j < |sorted| ensures sorted[i] != sorted[j] {
        assert sorted[j - 1] != sorted[j] && sorted[i] <= sorted[j - 1];
      }
    }
  }

  /** Distinct means every element occurs once. */
  lemma {:induction false} Multiplicity(s: seq<nat>)
    ensures Distinct(s) <==> forall x :: multiset(s)[x] <= 1
  {
    if s != [] {
      var front, last := s[..|s| - 1], s[|s| - 1];
      assert s == front + [last];
      Multiplicity(front);
      assert multiset(s) == multiset(front) + multiset{last};
      if Distinct(s) {
        LastIsNew(front, last);
        assert last !in multiset(front);
        assert Distinct(front);
      } else if Distinct(front) {
        assert last in front;
        assert multiset(s)[last] >= 2;
      } else {
        var x :| multiset(front)[x] > 1;
        assert multiset(s)[x] > 1;
      }
    }
  }

  // ---------- Combining ----------

  function Identities<V>(files: seq<File<V>>): (ids: seq<nat>)
    requires AllReadable(files)
    ensures |ids| == |files| && forall i :: 0 <= i < |files| ==> ids[i] == files[i].value.arIdentity
  {
    seq(|files|, (i: nat) requires i < |files| => files[i].value.arIdentity)
  }

  function Shares<V>(files: seq<File<V>>): (vs: seq<V>)
    requires AllReadable(files)
    ensures |vs| == |files| && forall i :: 0 <= i < |files| ==> vs[i] == files[i].value.share
  {
    seq(|files|, i requires 0 <= i < |files| => files[i].value.share)
  }

  /** The files that may be combined under the threshold. */
  ghost predicate Combinable<V>(files: seq<File<V>>, threshold: nat) {
    && threshold <= |files| <= 255
    && AllReadable(files)
    && Distinct(Identities(files))
  }

  /** The part the two commands share: the number of files, reading them, and no identity twice. */
  method Gather<V>(files: seq<File<V>>, threshold: nat) returns (r: Outcome<seq<Decrypted<V>>>)
    ensures r.Combined? <==> Combinable(files, threshold)
    ensures r.Combined? ==> |r.value| == |files| && forall i :: 0 <= i < |files| ==> files[i] == Some(r.value[i])
    ensures r.Combined? ==> forall i :: 0 <= i < |r.value| ==> 0 < r.value[i].arIdentity < 0x1_0000_0000
    ensures r.Panic? <==> |files| > 255
    ensures r.Insufficient? <==> |files| <= 255 && |files| < threshold
    ensures r.Unreadable? ==>
              && r.file < |files|
              && (files[r.file].Some? ==> files[r.file].value.arIdentity == 0
                                          || files[r.file].value.arIdentity >= 0x1_0000_0000)
              && AllReadable(files[..r.file])
    ensures r.Duplicates? ==>
              && threshold <= |files| <= 255
              && AllReadable(files) && !Distinct(Identities(files))
    ensures !r.WrongVersion? && !r.InitialAccount?
  {
    if |files| > 255 {
      return Panic;
    }
    if |files| < threshold {
      return Insufficient;
    }
    var shares := [];
    var identities := [];
    for n := 0 to |files|
      invariant |shares| == |identities| == n
      invariant forall i :: 0 <= i < n ==>
        Readable(files[i]) && files[i] == Some(shares[i]) && identities[i] == files[i].value.arIdentity
    {
      if !Readable(files[n]) {
        return Unreadable(n);
      }
      shares := shares + [files[n].value];
      identities := identities + [files[n].value.arIdentity];
    }
    assert identities == Identities(files);
    var sorted := Sort(identities);
    RepetitionsMeet(identities, sorted);
    SameLength(identities, sorted);
    var deduplicated := Dedup(sorted);
    if |deduplicated| < |shares| {
      return Duplicates;
    }
    return Combined(shares);
  }

  lemma SameLength(s: seq<nat>, t: seq<nat>)
    requires multiset(s) == multiset(t)
    ensures |s| == |t|
  {
    assert |multiset(s)| == |s| && |multiset(t)| == |t|;
  }

  /** `handle_combine_prf`: interpolating the shares of the PRF key. */
  method CombinePrf<F(!new,==)>(K: Field<F>, embed: nat -> F, version: nat, files: seq<File<F>>, threshold: nat)
    returns (r: Outcome<F>)
    ensures version != 0 <==> r.WrongVersion?
    ensures r.Combined? <==> version == 0 && Combinable(files, threshold)
    ensures r.Combined? ==> r.value == Reveal(K, Points(embed, Identities(files)), Shares(files))
  {
    if version != 0 {
      return WrongVersion;
    }
    var gathered := Gather(files, threshold);
    match gathered {
      case Combined(shares) =>
        var xs := seq(|shares|, i requires 0 <= i < |shares| => embed(shares[i].arIdentity));
        var vs := seq(|shares|, i requires 0 <= i < |shares| => shares[i].share);
        assert xs == Points(embed, Identities(files)) && vs == Shares(files);
        r := Combined(Reveal(K, xs, vs));
      case Unreadable(file) => r := Unreadable(file);
      case WrongVersion => r := WrongVersion;
      case InitialAccount => r := InitialAccount;
      case Panic => r := Panic;
      case Insufficient => r := Insufficient;
      case Duplicates => r := Duplicates;
    }
  }

  /** `handle_combine_id`: the shares of `idCredPub` are points of the curve. */
  method CombineId<F(!new,==), G(!new)>(K: Field<F>, C: Group<F, G>, embed: nat -> F, version: nat, initial: bool,
                                        files: seq<File<G>>, threshold: nat)
    returns (r: Outcome<G>)
    ensures version != 0 <==> r.WrongVersion?
    ensures version == 0 && initial <==> r.InitialAccount?
    ensures r.Combined? <==> version == 0 && !initial && Combinable(files, threshold)
    ensures r.Combined? ==> r.value == RevealInGroup(K, C, Points(embed, Identities(files)), Shares(files))
  {
    if version != 0 {
      return WrongVersion;
    }
    if initial {
      return InitialAccount;
    }
    var gathered := Gather(files, threshold);
    match gathered {
      case Combined(shares) =>
        var xs := seq(|shares|, i requires 0 <= i < |shares| => embed(shares[i].arIdentity));
        var ps := seq(|shares|, i requires 0 <= i < |shares| => shares[i].share);
        assert xs == Points(embed, Identities(files)) && ps == Shares(files);
        r := Combined(RevealInGroup(K, C, xs, ps));
      case Unreadable(file) => r := Unreadable(file);
      case WrongVersion => r := WrongVersion;
      case InitialAccount => r := InitialAccount;
      case Panic => r := Panic;
      case Insufficient => r := Insufficient;
      case Duplicates => r := Duplicates;
    }
  }

  // ---------- What combining gives back ----------

  /** The files hold what the polynomial deals to each identity. */
  ghost predicate Dealt<F>(K: Field<F>, embed: nat -> F, c: seq<F>, files: seq<File<F>>) {
    && AllReadable(files)
    && forall i | 0 <= i < |files| :: files[i].value.share == Eval(K, c, embed(files[i].value.arIdentity))
  }

  /** Files the command accepts reveal the PRF key they were dealt from. */
  lemma CombinedPrfKey<F(!new)>(K: Field<F>, embed: nat -> F, files: seq<File<F>>, threshold: nat,
                                secret: F, coefficients: seq<F>)
    requires IsField(K) && Embeds(K, embed)
    requires |coefficients| + 1 == threshold && Dealt(K, embed, [secret] + coefficients, files)
    requires Combinable(files, threshold)
    ensures Reveal(K, Points(embed, Identities(files)), Shares(files)) == secret
  {
    var ids := Identities(files);
    PointsAreDistinct(K, embed, ids);
    assert Shares(files) == Values(K, [secret] + coefficients, Points(embed, ids));
    ThresholdReveals(K, Points(embed, ids), secret, coefficients);
  }

  /** Files that the command accepts for a smaller threshold, one less than the key needs, give
      something else. */
  lemma OneFileShort<F(!new)>(K: Field<F>, embed: nat -> F, files: seq<File<F>>, threshold: nat,
                              secret: F, coefficients: seq<F>)
    requires IsField(K) && Embeds(K, embed)
    requires |coefficients| == |files| > 0 && coefficients[|files| - 1] != K.zero
    requires Dealt(K, embed, [secret] + coefficients, files) && Combinable(files, threshold)
    ensures Reveal(K, Points(embed, Identities(files)), Shares(files)) != secret
  {
    var ids := Identities(files);
    PointsAreDistinct(K, embed, ids);
    assert Shares(files) == Values(K, [secret] + coefficients, Points(embed, ids));
    OneShareShort(K, Points(embed, ids), [secret] + coefficients);
  }

  /** As `CombinedPrfKey`, for the shares of `idCredPub`, which are the shares of `idCredSec` in the exponent. */
  lemma CombinedIdCredPub<F(!new), G(!new)>(K: Field<F>, C: Group<F, G>, g: G, embed: nat -> F,
                                            exponents: seq<File<F>>, files: seq<File<G>>, threshold: nat,
                                            secret: F, coefficients: seq<F>)
    requires IsField(K) && Embeds(K, embed) && Acts(K, C, g)
    requires |coefficients| + 1 == threshold && Dealt(K, embed, [secret] + coefficients, exponents)
    requires |files| == |exponents|
    requires forall i :: 0 <= i < |files| ==>
      files[i] == Some(Decrypted(exponents[i].value.arIdentity, C.scale(exponents[i].value.share, g)))
    requires Combinable(files, threshold)
    ensures RevealInGroup(K, C, Points(embed, Identities(files)), Shares(files)) == C.scale(secret, g)
  {
    assert Identities(files) == Identities(exponents);
    CombinedPrfKey(K, embed, exponents, threshold, secret, coefficients);
    RevealInExponent(K, C, g, Points(embed, Identities(files)), Shares(exponents), Shares(files));
  }
}
