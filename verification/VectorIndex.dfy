/** Cosine similarity of embeddings: `src/core/vector_index.cpp`, over the reals. */
module VectorIndex {
  // Each instruction-set variant accumulates in lanes, adds the lanes up with its own shuffles and finishes with a
  // scalar tail. All variants are proved to compute the plain sums; the range of the result, which the caller's mapping
  // of scores relies on, follows from Cauchy-Schwarz.

  function Dot(a: seq<real>, b: seq<real>): real
    requires |a| == |b|
  {
    if a == [] then 0.0
    else Dot(a[..|a| - 1], b[..|b| - 1]) + a[|a| - 1] * b[|b| - 1]
  }

  function DotUpTo(a: seq<real>, b: seq<real>, n: nat): real
    requires |a| == |b| && n <= |a|
  {
    Dot(a[..n], b[..n])
  }

  lemma DotNext(a: seq<real>, b: seq<real>, n: nat)
    requires |a| == |b| && n < |a|
    ensures DotUpTo(a, b, n + 1) == DotUpTo(a, b, n) + a[n] * b[n]
  {
    assert a[..n + 1][..n] == a[..n] && b[..n + 1][..n] == b[..n];
  }

  lemma DotSnoc(a: seq<real>, b: seq<real>, x: real, y: real)
    requires |a| == |b|
    ensures Dot(a + [x], b + [y]) == Dot(a, b) + x * y
  {
    var p, q := a + [x], b + [y];
    assert p[..|p| - 1] == a && q[..|q| - 1] == b;
    assert p[|p| - 1] == x && q[|q| - 1] == y;
  }

  /** The sum of the products, place by place. */
  lemma {:induction false} DotConcat(a: seq<real>, b: seq<real>, c: seq<real>, d: seq<real>, x: real, y: real)
    requires |a| == |b| && |c| == |d|
    ensures Dot(a + c, b + d) == Dot(a, b) + Dot(c, d)
    ensures Dot([x], [y]) == x * y
  {
    assert [x][..0] == [] && [y][..0] == [];
    if c == [] {
      assert a + c == a && b + d == b;
    } else {
      var n := |c| - 1;
      DotConcat(a, b, c[..n], d[..n], x, y);
      DotSnoc(a + c[..n], b + d[..n], c[n], d[n]);
      assert a + c == a + c[..n] + [c[n]] && b + d == b + d[..n] + [d[n]];
    }
  }

  // ---------------------------------------------------------------- lanes

  /** Four lanes of a 128-bit register. */
  datatype Quad = Quad(x0: real, x1: real, x2: real, x3: real)

  /** Eight lanes of a 256-bit register, low half first. */
  datatype Oct = Oct(lo: Quad, hi: Quad)

  const ZERO4: Quad := Quad(0.0, 0.0, 0.0, 0.0)

  function Load4(a: seq<real>, i: nat): Quad
    requires i + 4 <= |a|
  {
    Quad(a[i], a[i + 1], a[i + 2], a[i + 3])
  }

  function Load8(a: seq<real>, i: nat): Oct
    requires i + 8 <= |a|
  {
    Oct(Load4(a, i), Load4(a, i + 4))
  }

  function Add4(v: Quad, w: Quad): Quad {
    Quad(v.x0 + w.x0, v.x1 + w.x1, v.x2 + w.x2, v.x3 + w.x3)
  }

  function Mul4(v: Quad, w: Quad): Quad {
    Quad(v.x0 * w.x0, v.x1 * w.x1, v.x2 * w.x2, v.x3 * w.x3)
  }

  /** _mm256_fmadd_ps: v * w + acc in every lane. */
  function Fma8(v: Oct, w: Oct, acc: Oct): Oct {
    Oct(Add4(Mul4(v.lo, w.lo), acc.lo), Add4(Mul4(v.hi, w.hi), acc.hi))
  }

  /** _mm_hadd_ps. */
  function HAdd(v: Quad, w: Quad): Quad {
    Quad(v.x0 + v.x1, v.x2 + v.x3, w.x0 + w.x1, w.x2 + w.x3)
  }

  /** _mm_movehdup_ps: the odd lanes, twice each. */
  function MoveHDup(v: Quad): Quad {
    Quad(v.x1, v.x1, v.x3, v.x3)
  }

  /** _mm_movehl_ps: the high half of the second operand below the high half of the first. */
  function MoveHL(v: Quad, w: Quad): Quad {
    Quad(w.x2, w.x3, v.x2, v.x3)
  }

  /** _mm_add_ss: the lowest lane only. */
  function AddSS(v: Quad, w: Quad): Quad {
    v.(x0 := v.x0 + w.x0)
  }

  function Sum4(v: Quad): real {
    v.x0 + v.x1 + v.x2 + v.x3
  }

  function Sum8(v: Oct): real {
    Sum4(v.lo) + Sum4(v.hi)
  }

  /** The horizontal sum of the AVX2 variant. */
  method HorizontalAvx2(v: Oct) returns (sum: real)
    ensures sum == Sum8(v)
  {
    var lo, hi := v.lo, v.hi;
    lo := Add4(lo, hi);
    lo := HAdd(lo, lo);
    lo := HAdd(lo, lo);
    sum := lo.x0;
  }

  /** The horizontal sum of the SSE2 variant. */
  method HorizontalSse2(v: Quad) returns (sum: real)
    ensures sum == Sum4(v)
  {
    var shuf := MoveHDup(v);
    var w := Add4(v, shuf);
    shuf := MoveHL(shuf, w);
    w := AddSS(w, shuf);
    sum := w.x0;
  }

  lemma FourMore(a: seq<real>, b: seq<real>, i: nat, acc: Quad)
    requires |a| == |b| && i + 4 <= |a|
    ensures DotUpTo(a, b, i + 4) - DotUpTo(a, b, i) == Sum4(Add4(acc, Mul4(Load4(a, i), Load4(b, i)))) - Sum4(acc)
    ensures DotUpTo(a, b, i + 4) - DotUpTo(a, b, i) == Sum4(Add4(Mul4(Load4(a, i), Load4(b, i)), acc)) - Sum4(acc)
  {
    hide DotUpTo;
    DotNext(a, b, i);
    DotNext(a, b, i + 1);
    DotNext(a, b, i + 2);
    DotNext(a, b, i + 3);
  }

  lemma EightMore(a: seq<real>, b: seq<real>, i: nat, acc: Oct)
    requires |a| == |b| && i + 8 <= |a|
    ensures DotUpTo(a, b, i + 8) - DotUpTo(a, b, i) == Sum8(Fma8(Load8(a, i), Load8(b, i), acc)) - Sum8(acc)
  {
    hide DotUpTo, Sum4, Add4, Mul4, Load4;
    FourMore(a, b, i, acc.lo);
    FourMore(a, b, i + 4, acc.hi);
  }

  lemma ZeroLanes()
    ensures Sum8(Oct(ZERO4, ZERO4)) == 0.0
  {
  }

  lemma DotEnds(a: seq<real>, b: seq<real>)
    requires |a| == |b|
    ensures DotUpTo(a, b, 0) == 0.0 && DotUpTo(a, b, |a|) == Dot(a, b)
  {
    assert a[..0] == [] && b[..0] == [] && a[..|a|] == a && b[..|b|] == b;
  }

  /** The scalar tail, and, from place 0, the scalar variant. */
  method ScalarTail(a: seq<real>, b: seq<real>, from: nat, dot0: real, normA0: real, normB0: real)
    returns (dot: real, normA: real, normB: real)
    requires |a| == |b| && from <= |a|
    requires dot0 == DotUpTo(a, b, from) && normA0 == DotUpTo(a, a, from) && normB0 == DotUpTo(b, b, from)
    ensures dot == Dot(a, b) && normA == Dot(a, a) && normB == Dot(b, b)
  {
    hide DotUpTo;
    dot, normA, normB := dot0, normA0, normB0;
    for i := from to |a|
      invariant dot == DotUpTo(a, b, i) && normA == DotUpTo(a, a, i) && normB == DotUpTo(b, b, i)
    {
      DotNext(a, b, i);
      DotNext(a, a, i);
      DotNext(b, b, i);
      dot := dot + a[i] * b[i];
      normA := normA + a[i] * a[i];
      normB := normB + b[i] * b[i];
    }
    DotEnds(a, b);
    DotEnds(a, a);
    DotEnds(b, b);
  }

  method SumsAvx2(a: seq<real>, b: seq<real>) returns (dot: real, normA: real, normB: real)
    requires |a| == |b|
    ensures dot == Dot(a, b) && normA == Dot(a, a) && normB == Dot(b, b)
  {
    hide DotUpTo, Fma8, Load8, Sum8;
    ZeroLanes();
    var i := 0;
    var vDot, vNa, vNb := Oct(ZERO4, ZERO4), Oct(ZERO4, ZERO4), Oct(ZERO4, ZERO4);
    DotEnds(a, b);
    DotEnds(a, a);
    DotEnds(b, b);
    while i + 8 <= |a|
      invariant 0 <= i <= |a|
      invariant Sum8(vDot) == DotUpTo(a, b, i) && Sum8(vNa) == DotUpTo(a, a, i) && Sum8(vNb) == DotUpTo(b, b, i)
    {
      EightMore(a, b, i, vDot);
      EightMore(a, a, i, vNa);
      EightMore(b, b, i, vNb);
      vDot := Fma8(Load8(a, i), Load8(b, i), vDot);
      vNa := Fma8(Load8(a, i), Load8(a, i), vNa);
      vNb := Fma8(Load8(b, i), Load8(b, i), vNb);
      i := i + 8;
    }
    dot := HorizontalAvx2(vDot);
    normA := HorizontalAvx2(vNa);
    normB := HorizontalAvx2(vNb);
    dot, normA, normB := ScalarTail(a, b, i, dot, normA, normB);
  }

  method SumsSse2(a: seq<real>, b: seq<real>) returns (dot: real, normA: real, normB: real)
    requires |a| == |b|
    ensures dot == Dot(a, b) && normA == Dot(a, a) && normB == Dot(b, b)
  {
    hide DotUpTo, Add4, Mul4, Load4;
    var i := 0;
    var vDot, vNa, vNb := ZERO4, ZERO4, ZERO4;
    DotEnds(a, b);
    DotEnds(a, a);
    DotEnds(b, b);
    while i + 4 <= |a|
      invariant 0 <= i <= |a|
      invariant Sum4(vDot) == DotUpTo(a, b, i) && Sum4(vNa) == DotUpTo(a, a, i) && Sum4(vNb) == DotUpTo(b, b, i)
    {
      FourMore(a, b, i, vDot);
      FourMore(a, a, i, vNa);
      FourMore(b, b, i, vNb);
      vDot := Add4(vDot, Mul4(Load4(a, i), Load4(b, i)));
      vNa := Add4(vNa, Mul4(Load4(a, i), Load4(a, i)));
      vNb := Add4(vNb, Mul4(Load4(b, i), Load4(b, i)));
      i := i + 4;
    }
    dot := HorizontalSse2(vDot);
    normA := HorizontalSse2(vNa);
    normB := HorizontalSse2(vNb);
    dot, normA, normB := ScalarTail(a, b, i, dot, normA, normB);
  }

  /** The NEON variant: four lanes, fused multiplication, and vaddvq_f32, which adds up the lanes. */
  method SumsNeon(a: seq<real>, b: seq<real>) returns (dot: real, normA: real, normB: real)
    requires |a| == |b|
    ensures dot == Dot(a, b) && normA == Dot(a, a) && normB == Dot(b, b)
  {
    hide DotUpTo, Add4, Mul4, Load4;
    var i := 0;
    var vDot, vNa, vNb := ZERO4, ZERO4, ZERO4;
    DotEnds(a, b);
    DotEnds(a, a);
    DotEnds(b, b);
    while i + 4 <= |a|
      invariant 0 <= i <= |a|
      invariant Sum4(vDot) == DotUpTo(a, b, i) && Sum4(vNa) == DotUpTo(a, a, i) && Sum4(vNb) == DotUpTo(b, b, i)
    {
      FourMore(a, b, i, vDot);
      FourMore(a, a, i, vNa);
      FourMore(b, b, i, vNb);
      var va, vb := Load4(a, i), Load4(b, i);
      vDot := Add4(vDot, Mul4(va, vb));
      vNa := Add4(vNa, Mul4(va, va));
      vNb := Add4(vNb, Mul4(vb, vb));
      i := i + 4;
    }
    dot, normA, normB := Sum4(vDot), Sum4(vNa), Sum4(vNb);
    dot, normA, normB := ScalarTail(a, b, i, dot, normA, normB);
  }

  // ---------------------------------------------------------------- the range of the result

  lemma {:induction false} NormNonNegative(a: seq<real>)
    ensures Dot(a, a) >= 0.0
  {
    if a == [] {
    } else {
      NormNonNegative(a[..|a| - 1]);
    }
  }

  lemma RootOrder(t: real, r: real)
    requires r >= 0.0 && t * t <= r * r
    ensures t <= r
  {
    assert (t - r) * (t + r) == t * t - r * r;
    if t > r {
      PositiveProduct(t - r, t + r);
      assert false;
    }
  }

  lemma PositiveProduct(x: real, y: real)
    ensures x > 0.0 && y > 0.0 ==> x * y > 0.0
  {
  }

  lemma CrossTerm(d: real, p: real, q: real, x: real, y: real)
    requires p >= 0.0 && q >= 0.0 && d * d <= p * q
    ensures 2.0 * (d * (x * y)) <= p * (y * y) + q * (x * x)
  {
    var u, v, z := p * (y * y), q * (x * x), x * y;
    assert u >= 0.0 && v >= 0.0;
    assert z * z == (x * x) * (y * y);
    assert u * v == (p * q) * (z * z) by {
      assert u * v == (p * (y * y)) * (q * (x * x)) == (p * q) * ((x * x) * (y * y));
    }
    assert (d * z) * (d * z) == (d * d) * (z * z);
    assert (2.0 * (d * z)) * (2.0 * (d * z)) == 4.0 * ((d * z) * (d * z));
    RootOrder(2.0 * (d * z), u + v);
  }

  lemma CauchyStep(d: real, p: real, q: real, x: real, y: real)
    requires p >= 0.0 && q >= 0.0 && d * d <= p * q
    ensures (d + x * y) * (d + x * y) <= (p + x * x) * (q + y * y)
  {
    CrossTerm(d, p, q, x, y);
    assert (d + x * y) * (d + x * y) == d * d + 2.0 * (d * (x * y)) + (x * y) * (x * y);
    assert (x * y) * (x * y) == (x * x) * (y * y);
    assert (p + x * x) * (q + y * y) == p * q + p * (y * y) + q * (x * x) + (x * x) * (y * y);
  }

  /** Cauchy-Schwarz for the sums the code computes. */
  lemma {:induction false} CauchySchwarz(a: seq<real>, b: seq<real>)
    requires |a| == |b|
    ensures Dot(a, b) * Dot(a, b) <= Dot(a, a) * Dot(b, b)
  {
    if a == [] {
    } else {
      var n := |a| - 1;
      CauchySchwarz(a[..n], b[..n]);
      NormNonNegative(a[..n]);
      NormNonNegative(b[..n]);
      CauchyStep(Dot(a[..n], b[..n]), Dot(a[..n], a[..n]), Dot(b[..n], b[..n]), a[n], b[n]);
    }
  }

  datatype Variant = Avx2 | Sse2 | Neon | Scalar

  const TINY: real := 0.0000000001

  /** CosineSimilarity, with the square roots of the norms as a parameter function. Whatever the variant,
      the result lies in [-1, 1], so that the caller's (r + 1) / 2 lies in [0, 1]. */
  method CosineSimilarity(a: seq<real>, b: seq<real>, variant: Variant, sqrt: real -> real) returns (r: real)
    requires forall x :: x >= 0.0 ==> sqrt(x) >= 0.0 && sqrt(x) * sqrt(x) == x
    ensures |a| != |b| || a == [] ==> r == 0.0
    ensures |a| == |b| ==> var d := sqrt(Dot(a, a)) * sqrt(Dot(b, b));
              (d < TINY ==> r == 0.0) && (d >= TINY && a != [] ==> r * d == Dot(a, b))
    ensures -1.0 <= r <= 1.0
    ensures 0.0 <= (r + 1.0) / 2.0 <= 1.0
  {
    hide Dot;
    if |a| != |b| || |a| == 0 {
      return 0.0;
    }
    var dot, normA, normB;
    match variant {
      case Avx2 => dot, normA, normB := SumsAvx2(a, b);
      case Sse2 => dot, normA, normB := SumsSse2(a, b);
      case Neon => dot, normA, normB := SumsNeon(a, b);
      case Scalar =>
        DotEnds(a, b);
        DotEnds(a, a);
        DotEnds(b, b);
        dot, normA, normB := ScalarTail(a, b, 0, 0.0, 0.0, 0.0);
    }
    CauchySchwarz(a, b);
    NormNonNegative(a);
    NormNonNegative(b);
    var denom := sqrt(normA) * sqrt(normB);
    if denom < TINY {
      return 0.0;
    }
    r := dot / denom;
    QuotientInRange(dot, sqrt(normA), sqrt(normB), denom, r);
  }

  lemma QuotientInRange(dot: real, ra: real, rb: real, d: real, r: real)
    requires ra >= 0.0 && rb >= 0.0 && d == ra * rb && d > 0.0 && r == dot / d
    requires dot * dot <= (ra * ra) * (rb * rb)
    ensures -1.0 <= r <= 1.0
    ensures r * d == dot
  {
    assert d * d == (ra * ra) * (rb * rb);
    RootOrder(dot, d);
    RootOrder(-dot, d);
    assert r * d == dot;
    if r > 1.0 {
      PositiveProduct(r - 1.0, d);
      assert false;
    }
    if r < -1.0 {
      PositiveProduct(-1.0 - r, d);
      assert false;
    }
  }
}
