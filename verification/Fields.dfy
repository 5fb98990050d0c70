/** Fields, as records of operations, with the few identities that interpolation needs. */
module Fields {

  datatype Field<!F> = Field(
    zero: F, one: F,
    add: (F, F) -> F, mul: (F, F) -> F,
    neg: F -> F, inv: F -> F)

  // The laws are used only where they are called for, by name of their arguments.
  ghost predicate Use1<F>(a: F) { true }
  ghost predicate Use2<F>(a: F, b: F) { true }
  ghost predicate Use3<F>(a: F, b: F, c: F) { true }

  // (The name for the whole keeps a proof of it in one piece; see the note in `Bytes`.)
  ghost predicate IsField<F(!new)>(K: Field<F>) {
    var laws :=
      && K.zero != K.one
      && (forall a, b, c {:trigger Use3(a, b, c)} ::
            && K.add(K.add(a, b), c) == K.add(a, K.add(b, c))
            && K.mul(K.mul(a, b), c) == K.mul(a, K.mul(b, c))
            && K.mul(a, K.add(b, c)) == K.add(K.mul(a, b), K.mul(a, c)))
      && (forall a, b {:trigger Use2(a, b)} ::
            && K.add(a, b) == K.add(b, a)
            && K.mul(a, b) == K.mul(b, a))
      && (forall a {:trigger Use1(a)} ::
            && K.add(a, K.zero) == a
            && K.mul(a, K.one) == a
            && K.add(a, K.neg(a)) == K.zero
            && (a != K.zero ==> K.mul(a, K.inv(a)) == K.one));
    laws
  }

  function Sub<F>(K: Field<F>, a: F, b: F): F {
    K.add(a, K.neg(b))
  }

  lemma Associative<F(!new)>(K: Field<F>, a: F, b: F, c: F)
    requires IsField(K)
    ensures K.add(K.add(a, b), c) == K.add(a, K.add(b, c))
    ensures K.mul(K.mul(a, b), c) == K.mul(a, K.mul(b, c))
  {
    assert Use3(a, b, c);
  }

  lemma Commutative<F(!new)>(K: Field<F>, a: F, b: F)
    requires IsField(K)
    ensures K.add(a, b) == K.add(b, a) && K.mul(a, b) == K.mul(b, a)
  {
    assert Use2(a, b);
  }

  lemma Distributive<F(!new)>(K: Field<F>, a: F, b: F, c: F)
    requires IsField(K)
    ensures K.mul(a, K.add(b, c)) == K.add(K.mul(a, b), K.mul(a, c))
    ensures K.mul(K.add(b, c), a) == K.add(K.mul(b, a), K.mul(c, a))
  {
    assert Use3(a, b, c) && Use2(a, K.add(b, c)) && Use2(a, b) && Use2(a, c);
  }

  lemma Units<F(!new)>(K: Field<F>, a: F)
    requires IsField(K)
    ensures K.add(a, K.zero) == a && K.add(K.zero, a) == a
    ensures K.mul(a, K.one) == a && K.mul(K.one, a) == a
    ensures K.add(a, K.neg(a)) == K.zero && K.add(K.neg(a), a) == K.zero
    ensures a != K.zero ==> K.mul(a, K.inv(a)) == K.one && K.mul(K.inv(a), a) == K.one
  {
    assert Use1(a) && Use2(a, K.zero) && Use2(a, K.one) && Use2(a, K.neg(a)) && Use2(a, K.inv(a));
  }

  lemma AddCancel<F(!new)>(K: Field<F>, a: F, b: F, c: F)
    requires IsField(K) && K.add(a, b) == K.add(a, c)
    ensures b == c
  {
    Associative(K, K.neg(a), a, b);
    Associative(K, K.neg(a), a, c);
    Units(K, a);
    Units(K, b);
    Units(K, c);
  }

  lemma ZeroTimes<F(!new)>(K: Field<F>, a: F)
    requires IsField(K)
    ensures K.mul(K.zero, a) == K.zero && K.mul(a, K.zero) == K.zero
  {
    Commutative(K, a, K.zero);
    Distributive(K, a, K.zero, K.zero);
    Units(K, K.zero);
    Units(K, K.mul(a, K.zero));
    AddCancel(K, K.mul(a, K.zero), K.mul(a, K.zero), K.zero);
  }

  lemma NegTimes<F(!new)>(K: Field<F>, a: F, b: F)
    requires IsField(K)
    ensures K.mul(K.neg(a), b) == K.neg(K.mul(a, b)) == K.mul(a, K.neg(b))
  {
    var ab := K.mul(a, b);
    Units(K, a);
    Units(K, b);
    Units(K, ab);
    Distributive(K, b, a, K.neg(a));
    Distributive(K, a, b, K.neg(b));
    ZeroTimes(K, a);
    ZeroTimes(K, b);
    AddCancel(K, ab, K.mul(K.neg(a), b), K.neg(ab));
    AddCancel(K, ab, K.mul(a, K.neg(b)), K.neg(ab));
  }

  lemma NegNeg<F(!new)>(K: Field<F>, a: F)
    requires IsField(K)
    ensures K.neg(K.neg(a)) == a
  {
    Units(K, a);
    Units(K, K.neg(a));
    AddCancel(K, K.neg(a), K.neg(K.neg(a)), a);
  }

  lemma NegAdd<F(!new)>(K: Field<F>, a: F, b: F)
    requires IsField(K)
    ensures K.neg(K.add(a, b)) == K.add(K.neg(a), K.neg(b))
  {
    Units(K, K.one);
    Units(K, a);
    Units(K, b);
    Units(K, K.add(a, b));
    NegTimes(K, K.one, a);
    NegTimes(K, K.one, b);
    NegTimes(K, K.one, K.add(a, b));
    Distributive(K, K.neg(K.one), a, b);
  }

  /** Differences change sign when swapped. */
  lemma SubSwap<F(!new)>(K: Field<F>, a: F, b: F)
    requires IsField(K)
    ensures Sub(K, b, a) == K.neg(Sub(K, a, b))
  {
    NegAdd(K, a, K.neg(b));
    NegNeg(K, b);
    Commutative(K, K.neg(a), b);
  }

  lemma SubZero<F(!new)>(K: Field<F>, a: F, b: F)
    requires IsField(K)
    ensures Sub(K, a, b) == K.zero <==> a == b
  {
    Units(K, b);
    if Sub(K, a, b) == K.zero {
      Commutative(K, a, K.neg(b));
      AddCancel(K, K.neg(b), a, b);
    }
  }

  /** `(a - b) + b` */
  lemma SubAdd<F(!new)>(K: Field<F>, a: F, b: F)
    requires IsField(K)
    ensures K.add(Sub(K, a, b), b) == a && K.add(b, Sub(K, a, b)) == a
  {
    Associative(K, a, K.neg(b), b);
    Units(K, a);
    Units(K, b);
    Commutative(K, Sub(K, a, b), b);
  }

  /** A field has no zero divisors. */
  lemma NoZeroDivisors<F(!new)>(K: Field<F>, a: F, b: F)
    requires IsField(K)
    ensures K.mul(a, b) == K.zero <==> a == K.zero || b == K.zero
  {
    ZeroTimes(K, a);
    ZeroTimes(K, b);
    if K.mul(a, b) == K.zero && a != K.zero {
      Associative(K, K.inv(a), a, b);
      Units(K, a);
      Units(K, b);
      ZeroTimes(K, K.inv(a));
    }
  }

  lemma InverseIsNonZero<F(!new)>(K: Field<F>, a: F)
    requires IsField(K) && a != K.zero
    ensures K.inv(a) != K.zero
  {
    Units(K, a);
    ZeroTimes(K, a);
  }

  /** Four factors regrouped. */
  lemma Regroup<F(!new)>(K: Field<F>, a: F, b: F, c: F, d: F)
    requires IsField(K)
    ensures K.mul(K.mul(a, b), K.mul(c, d)) == K.mul(K.mul(a, c), K.mul(b, d))
    ensures K.add(K.add(a, b), K.add(c, d)) == K.add(K.add(a, c), K.add(b, d))
  {
    Associative(K, a, b, K.mul(c, d));
    Associative(K, b, c, d);
    Commutative(K, b, c);
    Associative(K, c, b, d);
    Associative(K, a, c, K.mul(b, d));
    Associative(K, a, b, K.add(c, d));
    Associative(K, a, c, K.add(b, d));
  }
}
