/** Shamir secret sharing: evaluating a random polynomial, and interpolating it at zero. */
module SecretSharing {
  import opened Bytes
  import opened Fields

  // ---------- Interpolation at zero ----------

  /** `lagrange`: the product of `x_j / (x_j - x)` over the points other than `x`. */
  function Lagrange<F(==)>(K: Field<F>, xs: seq<F>, x: F): F {
    if xs == [] then K.one else
      var front, b := xs[..|xs| - 1], xs[|xs| - 1];
      var difference := Sub(K, b, x);
      if difference == K.zero then Lagrange(K, front, x)
      else K.mul(K.mul(b, K.inv(difference)), Lagrange(K, front, x))
  }

  /** The weighted sum of the values `vs` at the points of `part`, weights taken over `all`. */
  function Interpolate<F(==)>(K: Field<F>, all: seq<F>, part: seq<F>, vs: seq<F>): F
    requires |part| == |vs|
  {
    if part == [] then K.zero else
      var n := |part| - 1;
      K.add(K.mul(Lagrange(K, all, part[n]), vs[n]), Interpolate(K, all, part[..n], vs[..n]))
  }

  /** `reveal`: the shares are points and values. */
  function Reveal<F(==)>(K: Field<F>, xs: seq<F>, vs: seq<F>): F
    requires |xs| == |vs|
  {
    Interpolate(K, xs, xs, vs)
  }

  lemma Snoc<F>(xs: seq<F>, a: F)
    ensures (xs + [a])[..|xs + [a]| - 1] == xs && (xs + [a])[|xs + [a]| - 1] == a
  {
  }

  lemma {:induction false} LagrangeSnoc<F(!new)>(K: Field<F>, xs: seq<F>, a: F, x: F)
    requires IsField(K)
    ensures Lagrange(K, xs + [a], x) ==
      if a == x then Lagrange(K, xs, x) else K.mul(K.mul(a, K.inv(Sub(K, a, x))), Lagrange(K, xs, x))
  {
    Snoc(xs, a);
    SubZero(K, a, x);
  }

  lemma {:induction false} InterpolateSnoc<F(!new)>(K: Field<F>, all: seq<F>, part: seq<F>, vs: seq<F>, x: F, v: F)
    requires |part| == |vs|
    ensures Interpolate(K, all, part + [x], vs + [v])
         == K.add(K.mul(Lagrange(K, all, x), v), Interpolate(K, all, part, vs))
  {
    Snoc(part, x);
    Snoc(vs, v);
  }

  /** `w (c u + v) + (c i + j) = c (w u + i) + (w v + j)` */
  lemma LinearTerm<F(!new)>(K: Field<F>, w: F, c: F, u: F, v: F, i: F, j: F)
    requires IsField(K)
    ensures K.add(K.mul(w, K.add(K.mul(c, u), v)), K.add(K.mul(c, i), j))
         == K.add(K.mul(c, K.add(K.mul(w, u), i)), K.add(K.mul(w, v), j))
  {
    Distributive(K, w, K.mul(c, u), v);
    Associative(K, w, c, u);
    Commutative(K, w, c);
    Associative(K, c, w, u);
    Regroup(K, K.mul(c, K.mul(w, u)), K.mul(w, v), K.mul(c, i), j);
    Distributive(K, c, K.mul(w, u), i);
  }

  /** Interpolation is linear in the values. */
  lemma {:induction false} Linear<F(!new)>(K: Field<F>, all: seq<F>, part: seq<F>, c: F,
                                           us: seq<F>, vs: seq<F>, ws: seq<F>)
    requires IsField(K) && |us| == |vs| == |ws| == |part|
    requires forall i :: 0 <= i < |part| ==> ws[i] == K.add(K.mul(c, us[i]), vs[i])
    ensures Interpolate(K, all, part, ws)
         == K.add(K.mul(c, Interpolate(K, all, part, us)), Interpolate(K, all, part, vs))
    decreases |part|
  {
    if part == [] {
      ZeroTimes(K, c);
      Units(K, K.zero);
    } else {
      var n := |part| - 1;
      Linear(K, all, part[..n], c, us[..n], vs[..n], ws[..n]);
      LinearTerm(K, Lagrange(K, all, part[n]), c, us[n], vs[n],
                 Interpolate(K, all, part[..n], us[..n]), Interpolate(K, all, part[..n], vs[..n]));
    }
  }

  /** `(a/(a-x) w) ((x-a) h) = -a (w h)` */
  lemma CancelledFactor<F(!new)>(K: Field<F>, a: F, x: F, w: F, h: F)
    requires IsField(K) && a != x
    ensures K.mul(K.mul(K.mul(a, K.inv(Sub(K, a, x))), w), K.mul(Sub(K, x, a), h)) == K.mul(K.neg(a), K.mul(w, h))
  {
    var d := Sub(K, a, x);
    var ai := K.mul(a, K.inv(d));
    SubZero(K, a, x);
    SubSwap(K, a, x);
    Regroup(K, ai, w, K.neg(d), h);
    NegTimes(K, ai, d);
    Associative(K, a, K.inv(d), d);
    Units(K, d);
    Units(K, a);
  }

  lemma {:induction false} DropPoint<F(!new)>(K: Field<F>, xs: seq<F>, a: F, part: seq<F>, hs: seq<F>, gs: seq<F>)
    requires IsField(K) && a !in part && |hs| == |gs| == |part|
    requires forall i :: 0 <= i < |part| ==> gs[i] == K.mul(Sub(K, part[i], a), hs[i])
    ensures Interpolate(K, xs + [a], part, gs) == K.mul(K.neg(a), Interpolate(K, xs, part, hs))
    decreases |part|
  {
    if part == [] {
      ZeroTimes(K, K.neg(a));
    } else {
      var n := |part| - 1;
      var x := part[n];
      DropPoint(K, xs, a, part[..n], hs[..n], gs[..n]);
      LagrangeSnoc(K, xs, a, x);
      CancelledFactor(K, a, x, Lagrange(K, xs, x), hs[n]);
      Distributive(K, K.neg(a), K.mul(Lagrange(K, xs, x), hs[n]), Interpolate(K, xs, part[..n], hs[..n]));
    }
  }

  /** Interpolating `(x - a) h(x)` with the point `a` is interpolating `h` without it. */
  lemma RemoveLast<F(!new)>(K: Field<F>, xs: seq<F>, a: F, hs: seq<F>, gs: seq<F>)
    requires IsField(K) && a !in xs && |hs| == |gs| == |xs|
    requires forall i :: 0 <= i < |xs| ==> gs[i] == K.mul(Sub(K, xs[i], a), hs[i])
    ensures Reveal(K, xs + [a], gs + [K.zero]) == K.mul(K.neg(a), Reveal(K, xs, hs))
  {
    InterpolateSnoc(K, xs + [a], xs, gs, a, K.zero);
    ZeroTimes(K, Lagrange(K, xs + [a], a));
    DropPoint(K, xs, a, xs, hs, gs);
    Units(K, Interpolate(K, xs + [a], xs, gs));
  }

  lemma {:induction false} SwapLagrange<F(!new)>(K: Field<F>, ys: seq<F>, a: F, b: F, x: F)
    requires IsField(K)
    ensures Lagrange(K, ys + [a] + [b], x) == Lagrange(K, ys + [b] + [a], x)
  {
    LagrangeSnoc(K, ys + [a], b, x);
    LagrangeSnoc(K, ys + [b], a, x);
    LagrangeSnoc(K, ys, a, x);
    LagrangeSnoc(K, ys, b, x);
    var w := Lagrange(K, ys, x);
    var fa := K.mul(a, K.inv(Sub(K, a, x)));
    var fb := K.mul(b, K.inv(Sub(K, b, x)));
    Associative(K, fa, fb, w);
    Associative(K, fb, fa, w);
    Commutative(K, fa, fb);
  }

  lemma {:induction false} SameWeights<F(!new)>(K: Field<F>, all: seq<F>, all': seq<F>, part: seq<F>, vs: seq<F>)
    requires |part| == |vs| && forall x :: Lagrange(K, all, x) == Lagrange(K, all', x)
    ensures Interpolate(K, all, part, vs) == Interpolate(K, all', part, vs)
    decreases |part|
  {
    if part != [] {
      SameWeights(K, all, all', part[..|part| - 1], vs[..|part| - 1]);
    }
  }

  lemma {:induction false} SwapTerms<F(!new)>(K: Field<F>, all: seq<F>, ys: seq<F>, vs: seq<F>, a: F, u: F, b: F, v: F)
    requires IsField(K) && |ys| == |vs|
    ensures Interpolate(K, all, ys + [a] + [b], vs + [u] + [v]) == Interpolate(K, all, ys + [b] + [a], vs + [v] + [u])
  {
    InterpolateSnoc(K, all, ys + [a], vs + [u], b, v);
    InterpolateSnoc(K, all, ys + [b], vs + [v], a, u);
    InterpolateSnoc(K, all, ys, vs, a, u);
    InterpolateSnoc(K, all, ys, vs, b, v);
    var ta, tb := K.mul(Lagrange(K, all, a), u), K.mul(Lagrange(K, all, b), v);
    var rest := Interpolate(K, all, ys, vs);
    Associative(K, ta, tb, rest);
    Associative(K, tb, ta, rest);
    Commutative(K, ta, tb);
  }

  /** The order of the last two shares does not matter. */
  lemma SwapLast<F(!new)>(K: Field<F>, ys: seq<F>, vs: seq<F>, a: F, u: F, b: F, v: F)
    requires IsField(K) && |ys| == |vs|
    ensures Reveal(K, ys + [a] + [b], vs + [u] + [v]) == Reveal(K, ys + [b] + [a], vs + [v] + [u])
  {
    var all, all' := ys + [a] + [b], ys + [b] + [a];
    forall x ensures Lagrange(K, all, x) == Lagrange(K, all', x) {
      SwapLagrange(K, ys, a, b, x);
    }
    SameWeights(K, all, all', all', vs + [v] + [u]);
    SwapTerms(K, all, ys, vs, a, u, b, v);
  }

  // ---------- The weights add up to one ----------

  function Ones<F>(K: Field<F>, n: nat): (s: seq<F>)
    ensures |s| == n && forall i :: 0 <= i < n ==> s[i] == K.one
  {
    seq(n, i => K.one)
  }

  function Minus<F>(K: Field<F>, xs: seq<F>, a: F): (s: seq<F>)
    ensures |s| == |xs| && forall i :: 0 <= i < |xs| ==> s[i] == Sub(K, xs[i], a)
  {
    seq(|xs|, i requires 0 <= i < |xs| => Sub(K, xs[i], a))
  }

  /** `x - b = (a - b) 1 + (x - a)` */
  lemma DifferenceOfDifferences<F(!new)>(K: Field<F>, a: F, b: F, x: F)
    requires IsField(K)
    ensures Sub(K, x, b) == K.add(K.mul(Sub(K, a, b), K.one), Sub(K, x, a))
  {
    Units(K, Sub(K, a, b));
    Commutative(K, Sub(K, a, b), Sub(K, x, a));
    Associative(K, x, K.neg(a), Sub(K, a, b));
    Associative(K, K.neg(a), a, K.neg(b));
    Units(K, a);
    Units(K, K.neg(b));
  }

  /** Removing `a` from the points of the values `x - a`. */
  lemma RevealMinus<F(!new)>(K: Field<F>, xs: seq<F>, a: F)
    requires IsField(K) && a !in xs && Reveal(K, xs, Ones(K, |xs|)) == K.one
    ensures Reveal(K, xs + [a], Minus(K, xs, a) + [K.zero]) == K.neg(a)
  {
    forall i | 0 <= i < |xs| ensures Minus(K, xs, a)[i] == K.mul(Sub(K, xs[i], a), Ones(K, |xs|)[i]) {
      Units(K, Sub(K, xs[i], a));
    }
    RemoveLast(K, xs, a, Ones(K, |xs|), Minus(K, xs, a));
    Units(K, K.neg(a));
  }

  lemma TwoLast<F(!new)>(K: Field<F>, ys: seq<F>, a: F, b: F)
    requires IsField(K) && a !in ys && b !in ys && a != b
    requires Reveal(K, ys + [a], Ones(K, |ys| + 1)) == K.one
    requires Reveal(K, ys + [b], Ones(K, |ys| + 1)) == K.one
    ensures Reveal(K, ys + [a] + [b], Ones(K, |ys| + 2)) == K.one
  {
    var xs := ys + [a] + [b];
    var ones := Ones(K, |ys| + 2);
    var ma, mb := Minus(K, ys, a), Minus(K, ys, b);
    var minusA := ma + [K.zero] + [Sub(K, b, a)];
    var minusB := mb + [Sub(K, a, b)] + [K.zero];
    RevealMinus(K, ys + [a], b);
    assert Minus(K, ys + [a], b) == mb + [Sub(K, a, b)];
    RevealMinus(K, ys + [b], a);
    assert Minus(K, ys + [b], a) == ma + [Sub(K, b, a)];
    SwapLast(K, ys, ma, a, K.zero, b, Sub(K, b, a));
    SubZero(K, a, a);
    SubZero(K, b, b);
    forall i | 0 <= i < |xs| ensures minusB[i] == K.add(K.mul(Sub(K, a, b), ones[i]), minusA[i]) {
      DifferenceOfDifferences(K, a, b, xs[i]);
    }
    Linear(K, xs, xs, Sub(K, a, b), ones, minusA, minusB);
    SolveForOne(K, a, b, Reveal(K, xs, ones));
  }

  /** If `-b = (a - b) r + -a` and `a` differs from `b`, then `r` is one. */
  lemma SolveForOne<F(!new)>(K: Field<F>, a: F, b: F, r: F)
    requires IsField(K) && a != b && K.neg(b) == K.add(K.mul(Sub(K, a, b), r), K.neg(a))
    ensures r == K.one
  {
    var d := Sub(K, a, b);
    Commutative(K, K.mul(d, r), K.neg(a));
    Associative(K, a, K.neg(a), K.mul(d, r));
    Units(K, a);
    Units(K, K.mul(d, r));
    assert d == K.mul(d, r);
    SubZero(K, a, b);
    Associative(K, K.inv(d), d, r);
    Units(K, d);
    Units(K, r);
  }

  /** The weights of distinct points add up to one. */
  lemma {:induction false} WeightsAddUp<F(!new)>(K: Field<F>, xs: seq<F>)
    requires IsField(K) && Distinct(xs) && xs != []
    ensures Reveal(K, xs, Ones(K, |xs|)) == K.one
    decreases |xs|
  {
    if |xs| == 1 {
      SubZero(K, xs[0], xs[0]);
      Units(K, K.one);
      assert xs[..0] == [];
      assert Lagrange(K, xs, xs[0]) == Lagrange(K, [], xs[0]);
      assert Interpolate(K, xs, [], []) == K.zero;
    } else {
      var ys, a, b := xs[..|xs| - 2], xs[|xs| - 2], xs[|xs| - 1];
      assert xs == ys + [a] + [b];
      WeightsAddUp(K, ys + [a]);
      WeightsAddUp(K, ys + [b]);
      TwoLast(K, ys, a, b);
    }
  }

  // ---------- Polynomials, constant term first ----------

  function Eval<F>(K: Field<F>, c: seq<F>, x: F): F {
    if c == [] then K.zero else K.add(c[0], K.mul(x, Eval(K, c[1..], x)))
  }

  /** The values of the polynomial at the points. */
  function Values<F>(K: Field<F>, c: seq<F>, xs: seq<F>): (vs: seq<F>)
    ensures |vs| == |xs| && forall i :: 0 <= i < |xs| ==> vs[i] == Eval(K, c, xs[i])
  {
    seq(|xs|, i requires 0 <= i < |xs| => Eval(K, c, xs[i]))
  }

  /** The quotient of the polynomial by `x - a`, up to the remainder. */
  function Quotient<F>(K: Field<F>, c: seq<F>, a: F): (q: seq<F>)
    ensures |q| == if c == [] then 0 else |c| - 1
  {
    if |c| <= 1 then [] else [Eval(K, c[1..], a)] + Quotient(K, c[1..], a)
  }

  /** `c + x (g + (x-a) q) = (c + a g) + (x-a) (g + x q)` */
  lemma DivisionStep<F(!new)>(K: Field<F>, c: F, x: F, a: F, g: F, q: F)
    requires IsField(K)
    ensures var d := Sub(K, x, a);
            K.add(c, K.mul(x, K.add(g, K.mul(d, q)))) == K.add(K.add(c, K.mul(a, g)), K.mul(d, K.add(g, K.mul(x, q))))
  {
    var d := Sub(K, x, a);
    var dq := K.mul(d, q);
    var xdq := K.mul(x, dq);
    Distributive(K, x, g, dq);
    Distributive(K, d, g, K.mul(x, q));
    Associative(K, d, x, q);
    Commutative(K, d, x);
    Associative(K, x, d, q);
    assert K.mul(d, K.mul(x, q)) == xdq;
    SubAdd(K, x, a);
    Distributive(K, g, a, d);
    assert K.add(K.mul(a, g), K.mul(d, g)) == K.mul(x, g);
    Associative(K, c, K.mul(a, g), K.add(K.mul(d, g), xdq));
    Associative(K, K.mul(a, g), K.mul(d, g), xdq);
  }

  /** `f(x) = f(a) + (x - a) q(x)` */
  lemma {:induction false} Division<F(!new)>(K: Field<F>, c: seq<F>, a: F, x: F)
    requires IsField(K)
    ensures Eval(K, c, x) == K.add(Eval(K, c, a), K.mul(Sub(K, x, a), Eval(K, Quotient(K, c, a), x)))
    decreases |c|
  {
    var d := Sub(K, x, a);
    if |c| <= 1 {
      ZeroTimes(K, d);
      ZeroTimes(K, x);
      ZeroTimes(K, a);
      Units(K, Eval(K, c, x));
      if |c| == 1 {
        assert c[1..] == [];
      }
    } else {
      Division(K, c[1..], a, x);
      var q := Quotient(K, c[1..], a);
      assert Quotient(K, c, a)[1..] == q;
      DivisionStep(K, c[0], x, a, Eval(K, c[1..], a), Eval(K, q, x));
    }
  }

  lemma {:induction false} LeadingCoefficient<F(!new)>(K: Field<F>, c: seq<F>, a: F)
    requires IsField(K) && |c| >= 2
    ensures Quotient(K, c, a)[|c| - 2] == c[|c| - 1]
    decreases |c|
  {
    if |c| == 2 {
      ZeroTimes(K, a);
      Units(K, c[1]);
      assert Eval(K, c[1..], a) == K.add(c[1], K.mul(a, Eval(K, c[1..][1..], a)));
    } else {
      LeadingCoefficient(K, c[1..], a);
    }
  }

  lemma {:induction false} EvalAtZero<F(!new)>(K: Field<F>, c: seq<F>)
    requires IsField(K) && c != []
    ensures Eval(K, c, K.zero) == c[0]
  {
    ZeroTimes(K, Eval(K, c[1..], K.zero));
    Units(K, c[0]);
  }

  // ---------- What interpolation gives ----------

  /** A constant comes out of interpolation as it went in. */
  lemma AddConstant<F(!new)>(K: Field<F>, xs: seq<F>, e: F, gs: seq<F>, ps: seq<F>)
    requires IsField(K) && Distinct(xs) && xs != [] && |gs| == |ps| == |xs|
    requires forall i :: 0 <= i < |xs| ==> ps[i] == K.add(e, gs[i])
    ensures Reveal(K, xs, ps) == K.add(e, Reveal(K, xs, gs))
  {
    Units(K, e);
    Linear(K, xs, xs, e, Ones(K, |xs|), gs, ps);
    WeightsAddUp(K, xs);
  }

  lemma LastIsNew<F>(ys: seq<F>, a: F)
    requires Distinct(ys + [a])
    ensures a !in ys
  {
    forall i | 0 <= i < |ys| ensures ys[i] != a {
      assert (ys + [a])[i] != (ys + [a])[|ys|];
    }
  }

  function Products<F>(K: Field<F>, us: seq<F>, vs: seq<F>): (s: seq<F>)
    requires |us| == |vs|
    ensures |s| == |us| && forall i :: 0 <= i < |us| ==> s[i] == K.mul(us[i], vs[i])
  {
    seq(|us|, i requires 0 <= i < |us| => K.mul(us[i], vs[i]))
  }

  /** One point less, one degree less: `reveal(f) = f(a) - a reveal(q)`. */
  lemma {:induction false} RevealStep<F(!new)>(K: Field<F>, ys: seq<F>, a: F, c: seq<F>)
    requires IsField(K) && Distinct(ys + [a])
    ensures Reveal(K, ys + [a], Values(K, c, ys + [a]))
         == K.add(Eval(K, c, a), K.mul(K.neg(a), Reveal(K, ys, Values(K, Quotient(K, c, a), ys))))
  {
    var xs := ys + [a];
    var qs := Values(K, Quotient(K, c, a), ys);
    var gs := Products(K, Minus(K, ys, a), qs);
    LastIsNew(ys, a);
    RemoveLast(K, ys, a, qs, gs);
    forall i | 0 <= i < |xs| ensures Values(K, c, xs)[i] == K.add(Eval(K, c, a), (gs + [K.zero])[i]) {
      if i < |ys| {
        Division(K, c, a, xs[i]);
      } else {
        Units(K, Eval(K, c, a));
      }
    }
    AddConstant(K, xs, Eval(K, c, a), gs + [K.zero], Values(K, c, xs));
  }

  lemma DistinctFront<F>(xs: seq<F>)
    requires Distinct(xs) && xs != []
    ensures Distinct(xs[..|xs| - 1]) && xs == xs[..|xs| - 1] + [xs[|xs| - 1]]
  {
  }

  /** `f(0) = f(a) + (-a) q(0)` */
  lemma {:induction false} DivisionAtZero<F(!new)>(K: Field<F>, c: seq<F>, a: F)
    requires IsField(K)
    ensures Eval(K, c, K.zero) == K.add(Eval(K, c, a), K.mul(K.neg(a), Eval(K, Quotient(K, c, a), K.zero)))
  {
    Division(K, c, a, K.zero);
    Units(K, K.neg(a));
  }

  /** The product of the negated points. */
  function NegatedProduct<F>(K: Field<F>, xs: seq<F>): F {
    if xs == [] then K.one else K.mul(K.neg(xs[|xs| - 1]), NegatedProduct(K, xs[..|xs| - 1]))
  }

  /** What is left of the polynomial after dividing by `x - a` for every point `a`. */
  function Remaining<F>(K: Field<F>, c: seq<F>, xs: seq<F>): (r: seq<F>)
    ensures |r| == if |xs| < |c| then |c| - |xs| else 0
    decreases |xs|
  {
    if xs == [] then c else Remaining(K, Quotient(K, c, xs[|xs| - 1]), xs[..|xs| - 1])
  }

  /** `e + n (r + l p) = (e + n r) + l (n p)` */
  lemma MissStep<F(!new)>(K: Field<F>, e: F, n: F, r: F, l: F, p: F)
    requires IsField(K)
    ensures K.add(e, K.mul(n, K.add(r, K.mul(l, p)))) == K.add(K.add(e, K.mul(n, r)), K.mul(l, K.mul(n, p)))
  {
    Distributive(K, n, r, K.mul(l, p));
    Associative(K, e, K.mul(n, r), K.mul(n, K.mul(l, p)));
    Associative(K, n, l, p);
    Commutative(K, n, l);
    Associative(K, l, n, p);
  }

  /** By how much interpolation misses the secret, for any number of distinct points. */
  lemma {:induction false} RevealMisses<F(!new)>(K: Field<F>, xs: seq<F>, c: seq<F>)
    requires IsField(K) && Distinct(xs)
    ensures Eval(K, c, K.zero)
         == K.add(Reveal(K, xs, Values(K, c, xs)), K.mul(Eval(K, Remaining(K, c, xs), K.zero), NegatedProduct(K, xs)))
    decreases |xs|
  {
    if xs == [] {
      Units(K, Eval(K, c, K.zero));
    } else {
      var ys, a := xs[..|xs| - 1], xs[|xs| - 1];
      var q := Quotient(K, c, a);
      DistinctFront(xs);
      RevealStep(K, ys, a, c);
      RevealMisses(K, ys, q);
      DivisionAtZero(K, c, a);
      MissStep(K, Eval(K, c, a), K.neg(a), Reveal(K, ys, Values(K, q, ys)),
               Eval(K, Remaining(K, c, xs), K.zero), NegatedProduct(K, ys));
    }
  }

  lemma {:induction false} NegatedProductIsZero<F(!new)>(K: Field<F>, xs: seq<F>)
    requires IsField(K)
    ensures NegatedProduct(K, xs) == K.zero <==> K.zero in xs
  {
    if xs != [] {
      var ys, a := xs[..|xs| - 1], xs[|xs| - 1];
      assert xs == ys + [a];
      NegatedProductIsZero(K, ys);
      NoZeroDivisors(K, K.neg(a), NegatedProduct(K, ys));
      SubZero(K, K.zero, a);
      Units(K, K.neg(a));
    }
  }

  /** One share too few leaves the leading coefficient. */
  lemma {:induction false} OneRemains<F(!new)>(K: Field<F>, c: seq<F>, xs: seq<F>)
    requires IsField(K) && |c| == |xs| + 1
    ensures Remaining(K, c, xs) == [c[|c| - 1]]
    decreases |xs|
  {
    if xs != [] {
      var a := xs[|xs| - 1];
      LeadingCoefficient(K, c, a);
      OneRemains(K, Quotient(K, c, a), xs[..|xs| - 1]);
    }
  }

  /** At least threshold-many shares reveal the secret. */
  lemma ThresholdReveals<F(!new)>(K: Field<F>, xs: seq<F>, secret: F, coefficients: seq<F>)
    requires IsField(K) && Distinct(xs) && |coefficients| < |xs|
    ensures Reveal(K, xs, Values(K, [secret] + coefficients, xs)) == secret
  {
    var c := [secret] + coefficients;
    RevealMisses(K, xs, c);
    EvalAtZero(K, c);
    ZeroTimes(K, NegatedProduct(K, xs));
    Units(K, Reveal(K, xs, Values(K, c, xs)));
  }

  lemma CancelAdd<F(!new)>(K: Field<F>, a: F, b: F)
    requires IsField(K)
    ensures a == K.add(a, b) <==> b == K.zero
  {
    Units(K, a);
    if a == K.add(a, b) {
      AddCancel(K, a, b, K.zero);
    }
  }

  /** `secret = r + leading p` equals `r` exactly when a factor is zero. */
  lemma MissIsZero<F(!new)>(K: Field<F>, secret: F, r: F, leading: F, p: F)
    requires IsField(K) && secret == K.add(r, K.mul(leading, p))
    ensures r == secret <==> leading == K.zero || p == K.zero
  {
    CancelAdd(K, r, K.mul(leading, p));
    NoZeroDivisors(K, leading, p);
  }

  /** One share too few reveals the secret exactly when the leading coefficient is zero or a
      point is zero. */
  lemma OneShareShort<F(!new)>(K: Field<F>, xs: seq<F>, c: seq<F>)
    requires IsField(K) && Distinct(xs) && |c| == |xs| + 1
    ensures Reveal(K, xs, Values(K, c, xs)) == c[0] <==> c[|c| - 1] == K.zero || K.zero in xs
  {
    var leading := c[|c| - 1];
    RevealMisses(K, xs, c);
    EvalAtZero(K, c);
    OneRemains(K, c, xs);
    EvalAtZero(K, [leading]);
    NegatedProductIsZero(K, xs);
    MissIsZero(K, c[0], Reveal(K, xs, Values(K, c, xs)), leading, NegatedProduct(K, xs));
  }

  // ---------- What one share too few says about the secret ----------

  /** The coefficients of `v + (x - a) q(x)`. */
  function Extend<F>(K: Field<F>, v: F, a: F, q: seq<F>): (c: seq<F>)
    ensures |c| == |q| + 1 && (q != [] ==> c[|q|] == q[|q| - 1])
    decreases |q|
  {
    if q == [] then [v] else [Sub(K, v, K.mul(a, q[0]))] + Extend(K, q[0], a, q[1..])
  }

  /** `(v - a g) + x (g + d q) = v + d (g + x q)` where `d = x - a` */
  lemma ExtendStep<F(!new)>(K: Field<F>, v: F, a: F, x: F, g: F, q: F)
    requires IsField(K)
    ensures var d := Sub(K, x, a);
            K.add(Sub(K, v, K.mul(a, g)), K.mul(x, K.add(g, K.mul(d, q)))) == K.add(v, K.mul(d, K.add(g, K.mul(x, q))))
  {
    var c := Sub(K, v, K.mul(a, g));
    DivisionStep(K, c, x, a, g, q);
    SubAdd(K, v, K.mul(a, g));
    Commutative(K, c, K.mul(a, g));
  }

  lemma {:induction false} ExtendEval<F(!new)>(K: Field<F>, v: F, a: F, q: seq<F>, x: F)
    requires IsField(K)
    ensures Eval(K, Extend(K, v, a, q), x) == K.add(v, K.mul(Sub(K, x, a), Eval(K, q, x)))
    decreases |q|
  {
    if q == [] {
      ZeroTimes(K, Sub(K, x, a));
      ZeroTimes(K, x);
      assert Extend(K, v, a, q)[1..] == [];
    } else {
      ExtendEval(K, q[0], a, q[1..], x);
      assert Extend(K, v, a, q)[1..] == Extend(K, q[0], a, q[1..]);
      ExtendStep(K, v, a, x, q[0], Eval(K, q[1..], x));
    }
  }

  /** `(u - v) / (x - a)` */
  function Slope<F>(K: Field<F>, x: F, a: F, u: F, v: F): F {
    K.mul(K.inv(Sub(K, x, a)), Sub(K, u, v))
  }

  lemma SlopeLeadsThrough<F(!new)>(K: Field<F>, x: F, a: F, u: F, v: F)
    requires IsField(K) && x != a
    ensures K.add(v, K.mul(Sub(K, x, a), Slope(K, x, a, u, v))) == u
  {
    var d := Sub(K, x, a);
    SubZero(K, x, a);
    Associative(K, d, K.inv(d), Sub(K, u, v));
    Units(K, Sub(K, u, v));
    Units(K, d);
    SubAdd(K, u, v);
  }

  /** There is a polynomial through any values at distinct points, with any further coefficients in
      Newton's form: the last of them is its leading coefficient. */
  lemma {:induction false} PolynomialThrough<F(!new)>(K: Field<F>, xs: seq<F>, vs: seq<F>, further: seq<F>)
    returns (c: seq<F>)
    requires IsField(K) && Distinct(xs) && |xs| == |vs|
    ensures |c| == |xs| + |further| && Values(K, c, xs) == vs
    ensures further != [] ==> c[|c| - 1] == further[|further| - 1]
    decreases |xs|
  {
    if xs == [] {
      c := further;
    } else {
      var n := |xs| - 1;
      var ys, a, v := xs[..n], xs[n], vs[n];
      DistinctFront(xs);
      LastIsNew(ys, a);
      var slopes := seq(n, i requires 0 <= i < n => Slope(K, xs[i], a, vs[i], v));
      var q := PolynomialThrough(K, ys, slopes, further);
      c := Extend(K, v, a, q);
      forall i | 0 <= i < |xs| ensures Eval(K, c, xs[i]) == vs[i] {
        ExtendEval(K, v, a, q, xs[i]);
        if i < n {
          assert xs[i] == ys[i];
          assert Eval(K, q, xs[i]) == Values(K, q, ys)[i] == slopes[i];
          SlopeLeadsThrough(K, xs[i], a, vs[i], v);
        } else {
          SubZero(K, a, a);
          ZeroTimes(K, Eval(K, q, a));
          Units(K, v);
        }
      }
    }
  }

  /** A polynomial with this secret that gives these shares, of the degree the threshold asks for. */
  ghost predicate Explains<F>(K: Field<F>, c: seq<F>, threshold: nat, secret: F, xs: seq<F>, vs: seq<F>) {
    && |c| == threshold > 0
    && c[0] == secret
    && Values(K, c, xs) == vs
    && (threshold > 1 ==> c[threshold - 1] != K.zero)
  }

  /** Through the shares and the secret at zero, with any further coefficients. */
  lemma ThroughSecret<F(!new)>(K: Field<F>, xs: seq<F>, vs: seq<F>, secret: F, further: seq<F>) returns (c: seq<F>)
    requires IsField(K) && Distinct(xs) && K.zero !in xs && |xs| == |vs|
    ensures |c| == |xs| + 1 + |further| && c[0] == secret && Values(K, c, xs) == vs
    ensures further != [] ==> c[|c| - 1] == further[|further| - 1]
  {
    var points, values := xs + [K.zero], vs + [secret];
    c := PolynomialThrough(K, points, values, further);
    forall i | 0 <= i < |xs| ensures Values(K, c, xs)[i] == vs[i] {
      assert points[i] == xs[i] && Values(K, c, points)[i] == values[i];
    }
    assert Values(K, c, xs) == vs;
    assert points[|xs|] == K.zero && Values(K, c, points)[|xs|] == values[|xs|] == secret;
    EvalAtZero(K, c);
  }

  /** Fewer shares than the threshold, at distinct nonzero points, are consistent with every secret;
      only with exactly one share less is there an exception, the secret that interpolating them
      gives. */
  lemma TooFewSharesHide<F(!new)>(K: Field<F>, threshold: nat, xs: seq<F>, vs: seq<F>, secret: F)
    requires IsField(K) && Distinct(xs) && K.zero !in xs && |xs| == |vs| < threshold
    ensures (exists c :: Explains(K, c, threshold, secret, xs, vs))
       <==> !(|xs| == threshold - 1 && threshold > 1 && secret == Reveal(K, xs, vs))
  {
    if |xs| == threshold - 1 {
      forall c | Explains(K, c, threshold, secret, xs, vs) && threshold > 1 ensures secret != Reveal(K, xs, vs) {
        OneShareShort(K, xs, c);
      }
      if threshold == 1 || secret != Reveal(K, xs, vs) {
        var c := ThroughSecret(K, xs, vs, secret, []);
        OneShareShort(K, xs, c);
        assert Explains(K, c, threshold, secret, xs, vs);
      }
    } else {
      var further := seq(threshold - 1 - |xs|, i => K.one);
      var c := ThroughSecret(K, xs, vs, secret, further);
      assert Explains(K, c, threshold, secret, xs, vs);
    }
  }

  // ---------- One altered share ----------

  /** `l w + r = l (w - v) + (l v + r)` */
  lemma AlteredTerm<F(!new)>(K: Field<F>, l: F, v: F, w: F, r: F)
    requires IsField(K)
    ensures K.add(K.mul(l, w), r) == K.add(K.mul(l, Sub(K, w, v)), K.add(K.mul(l, v), r))
  {
    SubAdd(K, w, v);
    Commutative(K, v, Sub(K, w, v));
    Distributive(K, l, Sub(K, w, v), v);
    Associative(K, K.mul(l, Sub(K, w, v)), K.mul(l, v), r);
  }

  lemma {:induction false} AlteredSum<F(!new)>(K: Field<F>, all: seq<F>, part: seq<F>, vs: seq<F>, i: nat, w: F)
    requires IsField(K) && i < |part| == |vs|
    ensures Interpolate(K, all, part, vs[i := w])
         == K.add(K.mul(Lagrange(K, all, part[i]), Sub(K, w, vs[i])), Interpolate(K, all, part, vs))
    decreases |part|
  {
    var n := |part| - 1;
    var d := K.mul(Lagrange(K, all, part[i]), Sub(K, w, vs[i]));
    var rest := Interpolate(K, all, part[..n], vs[..n]);
    if i == n {
      assert vs[i := w][..n] == vs[..n];
      AlteredTerm(K, Lagrange(K, all, part[n]), vs[n], w, rest);
    } else {
      assert vs[i := w][..n] == vs[..n][i := w];
      AlteredSum(K, all, part[..n], vs[..n], i, w);
      var t := K.mul(Lagrange(K, all, part[n]), vs[n]);
      Associative(K, t, d, rest);
      Commutative(K, t, d);
      Associative(K, d, t, rest);
    }
  }

  lemma {:induction false} LagrangeIsZero<F(!new)>(K: Field<F>, xs: seq<F>, x: F)
    requires IsField(K)
    ensures Lagrange(K, xs, x) == K.zero <==> x != K.zero && K.zero in xs
  {
    if xs != [] {
      var front, b := xs[..|xs| - 1], xs[|xs| - 1];
      assert xs == front + [b];
      LagrangeIsZero(K, front, x);
      SubZero(K, b, x);
      if b != x {
        InverseIsNonZero(K, Sub(K, b, x));
        NoZeroDivisors(K, b, K.inv(Sub(K, b, x)));
        NoZeroDivisors(K, K.mul(b, K.inv(Sub(K, b, x))), Lagrange(K, front, x));
      }
    }
  }

  /** Altering one share alters the result, unless another share is at the point zero. */
  lemma AlteredShare<F(!new)>(K: Field<F>, xs: seq<F>, vs: seq<F>, i: nat, w: F)
    requires IsField(K) && i < |xs| == |vs|
    ensures Reveal(K, xs, vs[i := w]) == Reveal(K, xs, vs)
       <==> w == vs[i] || (xs[i] != K.zero && K.zero in xs)
  {
    var l, difference := Lagrange(K, xs, xs[i]), Sub(K, w, vs[i]);
    AlteredSum(K, xs, xs, vs, i, w);
    Commutative(K, K.mul(l, difference), Reveal(K, xs, vs));
    CancelAdd(K, Reveal(K, xs, vs), K.mul(l, difference));
    NoZeroDivisors(K, l, difference);
    LagrangeIsZero(K, xs, xs[i]);
    SubZero(K, w, vs[i]);
  }

  // ---------- Shares in the exponent ----------

  /** The curve: a group the scalars act on. */
  datatype Group<!F, !G> = Group(zero: G, plus: (G, G) -> G, scale: (F, G) -> G)

  /** The laws of scalar multiplication, for the multiples of `g`. */
  ghost predicate Acts<F(!new), G(!new)>(K: Field<F>, C: Group<F, G>, g: G) {
    && C.scale(K.zero, g) == C.zero
    && (forall a, b :: C.plus(C.scale(a, g), C.scale(b, g)) == C.scale(K.add(a, b), g))
    && (forall a, b :: C.scale(a, C.scale(b, g)) == C.scale(K.mul(a, b), g))
  }

  function InterpolateInGroup<F(==), G>(K: Field<F>, C: Group<F, G>, all: seq<F>, part: seq<F>, ps: seq<G>): G
    requires |part| == |ps|
  {
    if part == [] then C.zero else
      var n := |part| - 1;
      C.plus(C.scale(Lagrange(K, all, part[n]), ps[n]), InterpolateInGroup(K, C, all, part[..n], ps[..n]))
  }

  /** `reveal_in_group` */
  function RevealInGroup<F(==), G>(K: Field<F>, C: Group<F, G>, xs: seq<F>, ps: seq<G>): G
    requires |xs| == |ps|
  {
    InterpolateInGroup(K, C, xs, xs, ps)
  }

  lemma {:induction false} InterpolationInExponent<F(!new), G(!new)>(
      K: Field<F>, C: Group<F, G>, g: G, all: seq<F>, part: seq<F>, vs: seq<F>, ps: seq<G>)
    requires Acts(K, C, g) && |part| == |vs| == |ps|
    requires forall i :: 0 <= i < |vs| ==> ps[i] == C.scale(vs[i], g)
    ensures InterpolateInGroup(K, C, all, part, ps) == C.scale(Interpolate(K, all, part, vs), g)
    decreases |part|
  {
    if part != [] {
      var n := |part| - 1;
      InterpolationInExponent(K, C, g, all, part[..n], vs[..n], ps[..n]);
    }
  }

  /** Interpolating in the group is interpolating in the field, in the exponent. */
  lemma RevealInExponent<F(!new), G(!new)>(K: Field<F>, C: Group<F, G>, g: G, xs: seq<F>, vs: seq<F>, ps: seq<G>)
    requires Acts(K, C, g) && |xs| == |vs| == |ps|
    requires forall i :: 0 <= i < |vs| ==> ps[i] == C.scale(vs[i], g)
    ensures RevealInGroup(K, C, xs, ps) == C.scale(Reveal(K, xs, vs), g)
  {
    InterpolationInExponent(K, C, g, xs, xs, vs, ps);
  }

  // ---------- Sharing ----------

  /** `C::scalar_from_u64`, on a field with more than `2^64` elements. */
  ghost predicate Embeds<F>(K: Field<F>, embed: nat -> F) {
    && embed(0) == K.zero
    && forall i, j | 0 <= i < j < 0x1_0000_0000_0000_0000 :: embed(i) != embed(j)
  }

  function Points<F>(embed: nat -> F, ids: seq<nat>): (xs: seq<F>)
    ensures |xs| == |ids| && forall i :: 0 <= i < |ids| ==> xs[i] == embed(ids[i])
  {
    seq(|ids|, i requires 0 <= i < |ids| => embed(ids[i]))
  }

  lemma PointsAreDistinct<F>(K: Field<F>, embed: nat -> F, ids: seq<nat>)
    requires Embeds(K, embed) && Distinct(ids) && forall i :: 0 <= i < |ids| ==> ids[i] < 0x1_0000_0000_0000_0000
    ensures Distinct(Points(embed, ids))
    ensures K.zero in Points(embed, ids) <==> 0 in ids
  {
    var xs := Points(embed, ids);
    forall i, j | 0 <= i < j < |xs| ensures xs[i] != xs[j] {
      assert ids[i] != ids[j];
      var low, high := if ids[i] < ids[j] then ids[i] else ids[j], if ids[i] < ids[j] then ids[j] else ids[i];
      assert embed(low) != embed(high);
    }
    if 0 in ids {
      var i :| 0 <= i < |ids| && ids[i] == 0;
      assert xs[i] == K.zero;
    } else {
      forall i | 0 <= i < |ids| ensures xs[i] != K.zero {
        assert ids[i] != 0;
        assert embed(0) != embed(ids[i]);
      }
    }
  }

  /** Horner's rule, from the highest coefficient. */
  method Horner<F(!new)>(K: Field<F>, secret: F, coefficients: seq<F>, x: F) returns (share: F)
    requires IsField(K)
    ensures share == Eval(K, [secret] + coefficients, x)
  {
    share := K.zero;
    for n := |coefficients| downto 0
      invariant share == Eval(K, coefficients[n..], x)
    {
      Commutative(K, K.mul(x, share), coefficients[n]);
      Commutative(K, x, share);
      assert coefficients[n..][1..] == coefficients[n + 1..];
      share := K.add(K.mul(share, x), coefficients[n]);
    }
    Commutative(K, K.mul(x, share), secret);
    Commutative(K, x, share);
    assert ([secret] + coefficients)[1..] == coefficients[0..] == coefficients;
    share := K.add(K.mul(share, x), secret);
  }

  /** The coefficients that the random number generator determines: one draw for each but the highest,
      and one that is not zero for that. */
  function Drawn<F>(threshold: nat, random: nat -> F, nonZero: F): (c: seq<F>)
    requires threshold >= 1
    ensures |c| == threshold - 1
  {
    if threshold == 1 then [] else seq(threshold - 2, (j: nat) => random(j + 1)) + [nonZero]
  }

  /** `share`: `random` and `nonZero` are what the random number generator gives. */
  method Share<F(!new)>(K: Field<F>, embed: nat -> F, secret: F, ids: seq<nat>, threshold: nat,
                        random: nat -> F, nonZero: F)
    returns (coefficients: seq<F>, shares: seq<F>)
    requires IsField(K) && threshold >= 1 && nonZero != K.zero
    ensures |coefficients| == threshold - 1
    ensures forall j: nat :: j + 2 < threshold ==> coefficients[j] == random(j + 1)
    ensures threshold > 1 ==> coefficients[threshold - 2] == nonZero
    ensures coefficients == Drawn(threshold, random, nonZero)
    ensures shares == Values(K, [secret] + coefficients, Points(embed, ids))
  {
    var degree := threshold - 1;
    coefficients := [];
    var i := 1;
    while i < degree
      invariant |coefficients| == i - 1 && i <= (if degree > 0 then degree else 1)
      invariant forall j: nat :: j < i - 1 ==> coefficients[j] == random(j + 1)
    {
      coefficients := coefficients + [random(i)];
      i := i + 1;
    }
    if degree > 0 {
      coefficients := coefficients + [nonZero];
    }
    shares := [];
    for i := 0 to |ids|
      invariant |shares| == i
      invariant forall j :: 0 <= j < i ==> shares[j] == Eval(K, [secret] + coefficients, embed(ids[j]))
    {
      var share := Horner(K, secret, coefficients, embed(ids[i]));
      shares := shares + [share];
    }
  }

  /** These are the shares dealt, with this randomness, to these identities. */
  ghost predicate Deals<F>(K: Field<F>, embed: nat -> F, secret: F, ids: seq<nat>, threshold: nat,
                           random: nat -> F, nonZero: F, shares: seq<F>)
    requires threshold >= 1
  {
    nonZero != K.zero && shares == Values(K, [secret] + Drawn(threshold, random, nonZero), Points(embed, ids))
  }

  /** Every polynomial of the right degree is dealt for some randomness. */
  lemma EveryPolynomialIsDrawn<F(!new)>(K: Field<F>, c: seq<F>) returns (random: nat -> F, nonZero: F)
    requires IsField(K) && (c != [] ==> c[|c| - 1] != K.zero)
    ensures nonZero != K.zero && Drawn(|c| + 1, random, nonZero) == c
  {
    random := i => if 1 <= i <= |c| then c[i - 1] else K.zero;
    nonZero := if c == [] then K.one else c[|c| - 1];
  }

  /** Fewer shares than the threshold, at distinct nonzero identities, are dealt for every secret with
      some randomness; only with exactly one share less is there an exception, the secret that
      interpolating them gives. */
  lemma TooFewDealtSharesHide<F(!new)>(K: Field<F>, embed: nat -> F, threshold: nat, ids: seq<nat>, shares: seq<F>,
                                       secret: F)
    requires IsField(K) && Embeds(K, embed) && Distinct(ids) && |ids| == |shares| < threshold
    requires forall i :: 0 <= i < |ids| ==> 0 < ids[i] < 0x1_0000_0000_0000_0000
    ensures (exists random, nonZero :: Deals(K, embed, secret, ids, threshold, random, nonZero, shares))
       <==> !(|ids| == threshold - 1 && threshold > 1 && secret == Reveal(K, Points(embed, ids), shares))
  {
    var xs := Points(embed, ids);
    PointsAreDistinct(K, embed, ids);
    TooFewSharesHide(K, threshold, xs, shares, secret);
    forall random, nonZero | Deals(K, embed, secret, ids, threshold, random, nonZero, shares)
      ensures exists c :: Explains(K, c, threshold, secret, xs, shares)
    {
      assert Explains(K, [secret] + Drawn(threshold, random, nonZero), threshold, secret, xs, shares);
    }
    if c :| Explains(K, c, threshold, secret, xs, shares) {
      var random, nonZero := EveryPolynomialIsDrawn(K, c[1..]);
      assert c == [secret] + c[1..];
      assert Deals(K, embed, secret, ids, threshold, random, nonZero, shares);
    }
  }

  /** What `share` deals and any subset of the points reveals: the secret, from the threshold on;
      at one share below it, never. */
  lemma SharesReveal<F(!new)>(K: Field<F>, embed: nat -> F, ids: seq<nat>, secret: F, coefficients: seq<F>)
    requires IsField(K) && Embeds(K, embed) && Distinct(ids)
    requires forall i :: 0 <= i < |ids| ==> 0 < ids[i] < 0x1_0000_0000_0000_0000
    requires coefficients != [] ==> coefficients[|coefficients| - 1] != K.zero
    ensures var xs := Points(embed, ids);
            var revealed := Reveal(K, xs, Values(K, [secret] + coefficients, xs));
            && (|ids| >= |coefficients| + 1 ==> revealed == secret)
            && (|ids| == |coefficients| > 0 ==> revealed != secret)
  {
    var xs := Points(embed, ids);
    PointsAreDistinct(K, embed, ids);
    if |coefficients| < |xs| {
      ThresholdReveals(K, xs, secret, coefficients);
    } else if |coefficients| == |xs| {
      OneShareShort(K, xs, [secret] + coefficients);
    }
  }
}
