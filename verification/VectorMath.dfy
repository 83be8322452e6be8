/**
 * Embedding vectors over the reals: normalisation in place (src/vector/faiss_service.rs)
 * and cosine similarity with given norms (src/utils/empeding.rs). The square root is a
 * parameter of which only its defining property is used.
 */
module VectorMath {
  type Vec = seq<real>

  ghost predicate IsSqrt(sqrt: real -> real) {
    forall x :: x >= 0.0 ==> sqrt(x) >= 0.0 && sqrt(x) * sqrt(x) == x
  }

  function Dot(a: Vec, b: Vec): real
    requires |a| == |b|
  {
    if |a| == 0 then 0.0 else a[0] * b[0] + Dot(a[1..], b[1..])
  }

  /** v.iter().map(|x| x * x).sum() */
  function NormSq(v: Vec): real {
    Dot(v, v)
  }

  function Norm(sqrt: real -> real, v: Vec): real {
    sqrt(NormSq(v))
  }

  function Scale(v: Vec, s: real): Vec {
    seq(|v|, i requires 0 <= i < |v| => v[i] * s)
  }

  function Divide(v: Vec, n: real): Vec
    requires n != 0.0
  {
    seq(|v|, i requires 0 <= i < |v| => v[i] / n)
  }

  function Normalized(sqrt: real -> real, v: Vec): Vec {
    var norm := Norm(sqrt, v);
    if norm > 0.0 then Divide(v, norm) else v
  }

  /** cosine_similarity_with_norm; the norms come from the caller. */
  function Cosine(a: Vec, b: Vec, normA: real, normB: real): real {
    if |a| != |b| || |a| == 0 || normA == 0.0 || normB == 0.0 then 0.0
    else Dot(a, b) / (normA * normB)
  }

  function TrueCosine(sqrt: real -> real, a: Vec, b: Vec): real {
    Cosine(a, b, Norm(sqrt, a), Norm(sqrt, b))
  }

  /** The squares are summed first, then every element is divided in place. */
  method Normalize(v: array<real>, sqrt: real -> real)
    modifies v
    ensures v[..] == Normalized(sqrt, old(v[..]))
  {
    ghost var was := v[..];
    var sum := 0.0;
    for i := 0 to v.Length
      invariant v[..] == was
      invariant sum + NormSq(was[i..]) == NormSq(was)
    {
      assert was[i..][0] == v[i] && was[i..][1..] == was[i + 1..];
      sum := sum + v[i] * v[i];
    }
    assert sum == NormSq(was);
    var norm := sqrt(sum);
    if norm > 0.0 {
      ghost var divided := Divide(was, norm);
      for i := 0 to v.Length
        invariant forall k :: 0 <= k < i ==> v[k] == divided[k]
        invariant forall k :: i <= k < v.Length ==> v[k] == was[k]
      {
        v[i] := v[i] / norm;
      }
      assert v[..] == divided;
    }
  }

  // ------------------------------------------------------------ linear algebra

  lemma ScaleTail(v: Vec, s: real)
    requires |v| > 0
    ensures Scale(v, s)[1..] == Scale(v[1..], s) && Scale(v, s)[0] == v[0] * s
  {
    var left, right := Scale(v, s)[1..], Scale(v[1..], s);
    assert |left| == |right|;
    forall i | 0 <= i < |left| ensures left[i] == right[i] {
      assert v[1..][i] == v[i + 1];
    }
  }

  lemma DivideIsScale(v: Vec, n: real)
    requires n > 0.0
    ensures Divide(v, n) == Scale(v, 1.0 / n)
  {
    forall i | 0 <= i < |v| ensures Divide(v, n)[i] == Scale(v, 1.0 / n)[i] {}
  }

  /** One coordinate more in a scaled inner product; every product is named. */
  lemma ScaledStep(x: real, y: real, s: real, t: real, k: real, d: real, p: real, q: real, e: real, f: real, r: real)
    requires p == x * s && q == y * t && k == s * t && f == k * d && r == p * q + f && e == x * y + d
    ensures r == k * e
  {
    ProductOfProducts(x, s, y, t);
    var xy := x * y;
    assert p * q == xy * k;
    assert k * e == k * xy + k * d;
  }

  lemma {:induction false} DotScale(a: Vec, b: Vec, s: real, t: real, k: real)
    requires |a| == |b| && k == s * t
    ensures Dot(Scale(a, s), Scale(b, t)) == k * Dot(a, b)
  {
    if |a| > 0 {
      DotScale(a[1..], b[1..], s, t, k);
      ScaleTail(a, s);
      ScaleTail(b, t);
      var sa, sb := Scale(a, s), Scale(b, t);
      ScaledStep(a[0], b[0], s, t, k, Dot(a[1..], b[1..]), sa[0], sb[0], Dot(a, b), Dot(sa[1..], sb[1..]), Dot(sa, sb));
    } else {
      assert Scale(a, s) == [];
    }
  }

  lemma Positive(x: real, y: real, p: real)
    requires x > 0.0 && y > 0.0 && p == x * y
    ensures p > 0.0
  {}

  /** Squares are non-negative, and zero only at zero. The product is named to keep the solver linear. */
  lemma SquareSign(x: real, s: real)
    requires s == x * x
    ensures s >= 0.0 && (s == 0.0 <==> x == 0.0)
  {
    if x > 0.0 {
      Positive(x, x, s);
    } else if x < 0.0 {
      assert s == (-x) * (-x);
      Positive(-x, -x, s);
    }
  }

  lemma {:induction false} NormSqNonNegative(v: Vec)
    ensures NormSq(v) >= 0.0
  {
    if |v| > 0 {
      NormSqNonNegative(v[1..]);
      SquareSign(v[0], v[0] * v[0]);
    }
  }

  lemma {:induction false} ZeroNormZeroDot(a: Vec, b: Vec)
    requires |a| == |b| && NormSq(a) == 0.0
    ensures Dot(a, b) == 0.0
  {
    if |a| > 0 {
      NormSqNonNegative(a[1..]);
      SquareSign(a[0], a[0] * a[0]);
      assert a[0] == 0.0;
      ZeroNormZeroDot(a[1..], b[1..]);
    }
  }

  lemma {:induction false} DotCommutes(a: Vec, b: Vec)
    requires |a| == |b|
    ensures Dot(a, b) == Dot(b, a)
  {
    if |a| > 0 {
      DotCommutes(a[1..], b[1..]);
    }
  }

  lemma SquareGrows(u: real, v: real)
    requires 0.0 <= u < v
    ensures u * u < v * v
  {
    var d := v - u;
    var a, b := u * d, d * d;
    Positive(d, d, b);
    assert v * v == u * u + 2.0 * a + b;
    if u > 0.0 {
      Positive(u, d, a);
    }
  }

  lemma AbsFromSquares(u: real, v: real)
    requires u >= 0.0 && v * v <= u * u
    ensures -u <= v <= u
  {
    if v > u {
      SquareGrows(u, v);
    }
    if -v > u {
      assert (-v) * (-v) == v * v;
      SquareGrows(u, -v);
    }
  }

  lemma ProductSign(x: real, y: real, p: real)
    requires x >= 0.0 && y >= 0.0 && p == x * y
    ensures p >= 0.0
  {
    if x > 0.0 && y > 0.0 {
      Positive(x, y, p);
    }
  }

  lemma ProductMonotone(x: real, y: real, z: real)
    requires x <= y && z >= 0.0
    ensures x * z <= y * z
  {
    ProductSign(y - x, z, (y - x) * z);
    assert (y - x) * z == y * z - x * z;
  }

  /** |2 r| <= p + q whenever r^2 <= p q, for non-negative p and q. */
  lemma GeometricBelowArithmetic(p: real, q: real, r: real)
    requires p >= 0.0 && q >= 0.0 && r * r <= p * q
    ensures 2.0 * r <= p + q
  {
    SquareSign(p - q, (p - q) * (p - q));
    assert (p + q) * (p + q) == (p - q) * (p - q) + 4.0 * (p * q);
    assert (2.0 * r) * (2.0 * r) == 4.0 * (r * r);
    AbsFromSquares(p + q, 2.0 * r);
  }

  lemma ProductOfProducts(a: real, x: real, b: real, y: real)
    ensures (a * x) * (b * y) == (a * b) * (x * y)
  {}

  /** One more coordinate: 2 D x y <= A y^2 + B x^2 whenever D^2 <= A B. */
  lemma CrossTerm(A: real, B: real, D: real, x: real, y: real)
    requires A >= 0.0 && B >= 0.0 && D * D <= A * B
    ensures 2.0 * (D * (x * y)) <= A * (y * y) + B * (x * x)
  {
    var yy, xx, xy := y * y, x * x, x * y;
    SquareSign(y, yy);
    SquareSign(x, xx);
    SquareSign(xy, xy * xy);
    ProductSign(A, yy, A * yy);
    ProductSign(B, xx, B * xx);
    ProductOfProducts(D, xy, D, xy);
    ProductOfProducts(A, yy, B, xx);
    ProductOfProducts(y, y, x, x);
    assert yy * xx == xy * xy;
    ProductMonotone(D * D, A * B, xy * xy);
    GeometricBelowArithmetic(A * yy, B * xx, D * xy);
  }

  /** The Cauchy-Schwarz inequality. */
  lemma {:induction false} CauchySchwarz(a: Vec, b: Vec)
    requires |a| == |b|
    ensures Dot(a, b) * Dot(a, b) <= NormSq(a) * NormSq(b)
  {
    if |a| > 0 {
      CauchySchwarz(a[1..], b[1..]);
      NormSqNonNegative(a[1..]);
      NormSqNonNegative(b[1..]);
      var A, B, D, x, y := NormSq(a[1..]), NormSq(b[1..]), Dot(a[1..], b[1..]), a[0], b[0];
      CrossTerm(A, B, D, x, y);
      SquareOfSum(A, B, D, x, y);
    }
  }

  lemma SquareOfSum(A: real, B: real, D: real, x: real, y: real)
    requires D * D <= A * B && 2.0 * (D * (x * y)) <= A * (y * y) + B * (x * x)
    ensures (x * y + D) * (x * y + D) <= (x * x + A) * (y * y + B)
  {
    assert (x * y + D) * (x * y + D) == (x * y) * (x * y) + 2.0 * (D * (x * y)) + D * D;
    assert (x * x + A) * (y * y + B) == (x * x) * (y * y) + B * (x * x) + A * (y * y) + A * B;
    ProductOfProducts(x, y, x, y);
  }

  /** The norm the callers compute: non-negative, and zero exactly for the zero vector. */
  lemma NormSign(sqrt: real -> real, v: Vec)
    requires IsSqrt(sqrt)
    ensures NormSq(v) >= 0.0 && Norm(sqrt, v) >= 0.0
    ensures Norm(sqrt, v) == 0.0 <==> NormSq(v) == 0.0
  {
    NormSqNonNegative(v);
    SquareSign(Norm(sqrt, v), NormSq(v));
  }

  lemma ProductGrows(x: real, y: real, n: real)
    requires n > 0.0 && x < y
    ensures x * n < y * n
  {
    Positive(y - x, n, (y - x) * n);
    assert (y - x) * n == y * n - x * n;
  }

  lemma QuotientInRange(d: real, n: real)
    requires n > 0.0 && -n <= d <= n
    ensures -1.0 <= d / n <= 1.0
  {
    var q := d / n;
    assert q * n == d;
    if q > 1.0 {
      ProductGrows(1.0, q, n);
    }
    if q < -1.0 {
      ProductGrows(q, -1.0, n);
    }
  }

  lemma BoundByNorms(c: real, d: real, m: real, n: real, p: real, A: real, B: real)
    requires m > 0.0 && n > 0.0 && p == m * n && p != 0.0 && c == d / p
    requires m * m == A && n * n == B && d * d <= A * B
    ensures -1.0 <= c <= 1.0
  {
    Positive(m, n, p);
    ProductOfProducts(m, n, m, n);
    AbsFromSquares(p, d);
    QuotientInRange(d, p);
  }

  /** Computed with the norms the callers compute, the cosine lies in [-1, 1]; the guarded cases give 0. */
  lemma CosineInRange(sqrt: real -> real, a: Vec, b: Vec)
    requires IsSqrt(sqrt)
    ensures -1.0 <= TrueCosine(sqrt, a, b) <= 1.0
    ensures |a| != |b| || |a| == 0 || NormSq(a) == 0.0 || NormSq(b) == 0.0 ==> TrueCosine(sqrt, a, b) == 0.0
  {
    NormSign(sqrt, a);
    NormSign(sqrt, b);
    var na, nb := Norm(sqrt, a), Norm(sqrt, b);
    if |a| == |b| && |a| != 0 && na != 0.0 && nb != 0.0 {
      CauchySchwarz(a, b);
      var p := na * nb;
      Positive(na, nb, p);
      BoundByNorms(TrueCosine(sqrt, a, b), Dot(a, b), na, nb, p, NormSq(a), NormSq(b));
    }
  }

  lemma Inverse(m: real, i: real)
    requires m > 0.0 && i == 1.0 / m
    ensures i * m == 1.0
  {}

  lemma InverseProduct(i: real, m: real, j: real, n: real, k: real, p: real)
    requires i * m == 1.0 && j * n == 1.0 && k == i * j && p == m * n
    ensures k * p == 1.0
  {
    ProductOfProducts(i, m, j, n);
    var u, v := i * m, j * n;
    assert u * v == 1.0;
  }

  lemma NormalizedIsScale(sqrt: real -> real, a: Vec, m: real)
    requires m == Norm(sqrt, a) > 0.0
    ensures Normalized(sqrt, a) == Scale(a, 1.0 / m)
  {
    DivideIsScale(a, m);
  }

  /** Non-zero vectors: normalising both scales the inner product by one factor k with k m n = 1. */
  lemma NormalizedDotScales(sqrt: real -> real, a: Vec, b: Vec, m: real, n: real, p: real) returns (k: real)
    requires |a| == |b| && m == Norm(sqrt, a) > 0.0 && n == Norm(sqrt, b) > 0.0 && p == m * n
    ensures k * p == 1.0 && Dot(Normalized(sqrt, a), Normalized(sqrt, b)) == k * Dot(a, b)
  {
    var i, j := 1.0 / m, 1.0 / n;
    k := i * j;
    Inverse(m, i);
    Inverse(n, j);
    InverseProduct(i, m, j, n, k, p);
    NormalizedIsScale(sqrt, a, m);
    NormalizedIsScale(sqrt, b, n);
    hide Scale;
    hide Normalized;
    hide Dot;
    hide Norm;
    DotScale(a, b, i, j, k);
  }

  lemma SameQuotient(k: real, p: real, d: real, r: real, c: real)
    requires k * p == 1.0 && p != 0.0 && r == k * d && c == d / p
    ensures r == c
  {
    assert r * p == (k * p) * d;
    assert r * p == d;
  }

  /** The inner product of normalised vectors is the cosine, zero vectors included. */
  lemma NormalizedDotIsCosine(sqrt: real -> real, a: Vec, b: Vec)
    requires IsSqrt(sqrt) && |a| == |b|
    ensures Dot(Normalized(sqrt, a), Normalized(sqrt, b)) == TrueCosine(sqrt, a, b)
  {
    NormSign(sqrt, a);
    NormSign(sqrt, b);
    var na, nb := Norm(sqrt, a), Norm(sqrt, b);
    if na == 0.0 {
      ZeroNormZeroDot(a, Normalized(sqrt, b));
    } else if nb == 0.0 {
      ZeroNormZeroDot(b, Divide(a, na));
      DotCommutes(b, Divide(a, na));
    } else {
      assert |a| == 0 ==> NormSq(a) == 0.0;
      var c, d, p := TrueCosine(sqrt, a, b), Dot(a, b), na * nb;
      Positive(na, nb, p);
      var k := NormalizedDotScales(sqrt, a, b, na, nb, p);
      SameQuotient(k, p, d, Dot(Normalized(sqrt, a), Normalized(sqrt, b)), c);
    }
  }

  /** Normalisation gives unit length to everything but the zero vector, which it keeps. */
  lemma NormalizedHasUnitLength(sqrt: real -> real, v: Vec)
    requires IsSqrt(sqrt)
    ensures NormSq(v) != 0.0 ==> NormSq(Normalized(sqrt, v)) == 1.0
    ensures NormSq(v) == 0.0 ==> Normalized(sqrt, v) == v
  {
    NormSign(sqrt, v);
    var n := Norm(sqrt, v);
    if NormSq(v) != 0.0 {
      var p := n * n;
      Positive(n, n, p);
      var k := NormalizedDotScales(sqrt, v, v, n, n, p);
    }
  }

  // -------------------------------------------------- what the operations mean

  /** The inner product adds up the products of the coordinates. */
  lemma {:induction false} DotSplits(a: Vec, b: Vec, c: Vec, d: Vec)
    requires |a| == |b| && |c| == |d|
    ensures Dot(a + c, b + d) == Dot(a, b) + Dot(c, d)
  {
    if |a| == 0 {
      assert a + c == c && b + d == d;
    } else {
      assert (a + c)[1..] == a[1..] + c && (b + d)[1..] == b[1..] + d;
      DotSplits(a[1..], b[1..], c, d);
    }
  }

  lemma DotOfOne(x: real, y: real)
    ensures Dot([x], [y]) == x * y && Dot([], []) == 0.0
  {
    var a: Vec, b: Vec := [x], [y];
    assert a[1..] == [] && b[1..] == [];
  }

  /**
   * The length is the root of the inner product with itself; stretched by it, the normalised
   * vector is the old one.
   */
  lemma NormalizedKeepsDirection(sqrt: real -> real, v: Vec, i: nat)
    requires IsSqrt(sqrt) && i < |v| && Dot(v, v) != 0.0
    ensures Norm(sqrt, v) > 0.0 && Norm(sqrt, v) * Norm(sqrt, v) == Dot(v, v)
    ensures |Normalized(sqrt, v)| == |v| && Normalized(sqrt, v)[i] * Norm(sqrt, v) == v[i]
  {
    NormSign(sqrt, v);
    var n := Norm(sqrt, v);
    var q := v[i] / n;
    assert q * n == v[i];
    hide Dot;
  }

  /** The cosine, times the two lengths, is the inner product. */
  lemma CosineMeans(sqrt: real -> real, a: Vec, b: Vec, m: real, n: real)
    requires IsSqrt(sqrt) && |a| == |b| && Dot(a, a) != 0.0 && Dot(b, b) != 0.0
    requires m > 0.0 && m * m == Dot(a, a) && n > 0.0 && n * n == Dot(b, b)
    ensures TrueCosine(sqrt, a, b) * (m * n) == Dot(a, b)
  {
    RootIsUnique(sqrt, Dot(a, a), m);
    RootIsUnique(sqrt, Dot(b, b), n);
    var p := m * n;
    Positive(m, n, p);
    var d := Dot(a, b);
    var c := d / p;
    assert c * p == d;
  }

  lemma RootIsUnique(sqrt: real -> real, s: real, m: real)
    requires IsSqrt(sqrt) && m > 0.0 && m * m == s
    ensures sqrt(s) == m
  {
    Positive(m, m, s);
    var r := sqrt(s);
    assert r >= 0.0 && r * r == s;
    if r < m {
      SquareGrows(r, m);
    }
    if r > m {
      SquareGrows(m, r);
    }
  }
}
