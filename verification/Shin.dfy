/** Shin's method: recover beliefs from odds quoted against a share z of insiders. */
module Shin {
  import opened Messages
  import opened Reals
  import opened Sums
  import opened Devig

  const SHIN_TOLERANCE: real := 0.000000000000001
  const SHIN_MAX_ITERATIONS: nat := 200
  const SHIN_HI: real := 0.999999999

  /** The one fact used about the square root. */
  ghost predicate SqrtLaw(sqrt: real -> real, x: real) {
    x >= 0.0 ==> sqrt(x) >= 0.0 && sqrt(x) * sqrt(x) == x
  }

  ghost predicate IsSqrt(sqrt: real -> real) {
    forall x :: SqrtLaw(sqrt, x)
  }

  /** The probability of one outcome as a function of the insider share z. */
  function ShinProb(sqrt: real -> real, B: real, q: real, z: real): real
    requires 0.0 < B && z != 1.0
  {
    (sqrt(z * z + 4.0 * (1.0 - z) * q * q / B) - z) / (2.0 * (1.0 - z))
  }

  function ShinProbs(sqrt: real -> real, q: seq<real>, z: real): (p: seq<real>)
    requires 0.0 < Sum(q) && z != 1.0
    ensures |p| == |q|
  {
    seq(|q|, i requires 0 <= i < |q| => ShinProb(sqrt, Sum(q), q[i], z))
  }

  /** How far the probabilities at z are from summing to one. */
  function ShinExcess(sqrt: real -> real, q: seq<real>, z: real): real
    requires 0.0 < Sum(q) && z != 1.0
  {
    Sum(ShinProbs(sqrt, q, z)) - 1.0
  }

  /** A book worth solving: raw probabilities inside (0,1) that sum to more than one. */
  ghost predicate Book(q: seq<real>) {
    (forall i :: 0 <= i < |q| ==> 0.0 < q[i] < 1.0) && 1.0 < Sum(q)
  }

  // ---- one outcome: p is the root of (1-z)p^2 + zp = q^2/B ----

  function Quad(z: real, p: real): real {
    (1.0 - z) * Square(p) + z * p
  }

  lemma QuadStrict(z: real, a: real, b: real)
    requires 0.0 <= z < 1.0 && 0.0 <= a < b
    ensures Quad(z, a) < Quad(z, b)
  {
    SquareLt(a, b);
    BlendStrict(z, a, b, Square(a), Square(b));
  }

  lemma BlendStrict(z: real, a: real, b: real, sa: real, sb: real)
    requires 0.0 <= z < 1.0 && a < b && sa < sb
    ensures (1.0 - z) * sa + z * a < (1.0 - z) * sb + z * b
  {
    var w, d, e := 1.0 - z, sb - sa, b - a;
    ProductPos(w, d, w * d);
    ProductNonNeg(z, e, z * e);
    assert (1.0 - z) * sb + z * b - ((1.0 - z) * sa + z * a) == w * d + z * e;
  }

  lemma QuadInjective(z: real, a: real, b: real)
    requires 0.0 <= z < 1.0 && 0.0 <= a && 0.0 <= b && Quad(z, a) == Quad(z, b)
    ensures a == b
  {
    if a < b {
      QuadStrict(z, a, b);
    } else if b < a {
      QuadStrict(z, b, a);
    }
  }

  /** The closed form is the unique non-negative root of the quadratic. */
  lemma ShinProbIsRoot(sqrt: real -> real, B: real, q: real, z: real)
    requires IsSqrt(sqrt) && 0.0 < B && 0.0 < q && 0.0 <= z < 1.0
    ensures var p := ShinProb(sqrt, B, q, z); 0.0 < p && Quad(z, p) == Square(q) / B
    ensures forall p :: 0.0 <= p && Quad(z, p) == Square(q) / B ==> p == ShinProb(sqrt, B, q, z)
  {
    var sq := Square(q);
    var c := sq / B;
    SquarePos(q);
    DivPos(sq, B, c);
    var inner := z * z + 4.0 * (1.0 - z) * q * q / B;
    InnerForm(z, q, B, c, inner);
    SqrtAbove(sqrt, inner, z);
    var p := ShinProb(sqrt, B, q, z);
    ClosedFormRoot(sqrt, inner, z, c, p);
    forall r | 0.0 <= r && Quad(z, r) == c ensures r == p {
      QuadInjective(z, r, p);
    }
  }

  lemma InnerForm(z: real, q: real, B: real, c: real, inner: real)
    requires 0.0 <= z < 1.0 && 0.0 < B && 0.0 < c && c == Square(q) / B
    requires inner == z * z + 4.0 * (1.0 - z) * q * q / B
    ensures inner == Square(z) + 4.0 * ((1.0 - z) * c) && inner > Square(z)
  {
    var w := 1.0 - z;
    var n := 4.0 * w * q * q;
    var d, wc := n / B, w * c;
    DivMul(n, B, d);
    DivMul(Square(q), B, c);
    assert n == 4.0 * w * Square(q);
    assert n == 4.0 * w * (c * B);
    assert d * B == (4.0 * wc) * B;
    CancelEq(d, 4.0 * wc, B);
    ProductPos(w, c, wc);
  }

  lemma SqrtAbove(sqrt: real -> real, x: real, z: real)
    requires IsSqrt(sqrt) && 0.0 <= z && Square(z) < x
    ensures z < sqrt(x) && Square(sqrt(x)) == x
  {
    SquareNonNeg(z);
    assert SqrtLaw(sqrt, x);
    if sqrt(x) < z {
      SquareLt(sqrt(x), z);
    }
  }

  lemma ClosedFormRoot(sqrt: real -> real, inner: real, z: real, c: real, p: real)
    requires 0.0 <= z < 1.0 && z < sqrt(inner) && Square(sqrt(inner)) == inner
    requires inner == Square(z) + 4.0 * ((1.0 - z) * c)
    requires p == (sqrt(inner) - z) / (2.0 * (1.0 - z))
    ensures 0.0 < p && Quad(z, p) == c
  {
    var s := sqrt(inner);
    var t, w2 := s - z, 2.0 * (1.0 - z);
    DivPos(t, w2, p);
    RootFromSquare(z, 1.0 - z, p, s, c);
  }

  lemma RootFromSquare(z: real, w: real, p: real, s: real, c: real)
    requires w == 1.0 - z && 0.0 < w && s == p * (2.0 * w) + z
    requires Square(s) == Square(z) + 4.0 * (w * c)
    ensures Quad(z, p) == c
  {
    var u := p * w;
    assert Square(s) == 4.0 * (u * u) + 4.0 * (u * z) + Square(z);
    var t := w * Square(p) + z * p;
    assert u * u + u * z == w * t;
    assert w * t == w * c;
    CancelEq(t, c, w);
  }

  /** At every z the probability lies in (0,1) and below the raw implied probability. */
  lemma ShinProbRange(sqrt: real -> real, B: real, q: real, z: real)
    requires IsSqrt(sqrt) && 1.0 < B && 0.0 < q < 1.0 && 0.0 <= z < 1.0
    ensures 0.0 < ShinProb(sqrt, B, q, z) < q
  {
    ShinProbIsRoot(sqrt, B, q, z);
    var p, sq := ShinProb(sqrt, B, q, z), Square(q);
    SquarePos(q);
    ShareOfBook(sq, B, sq / B);
    QuadAtLeastSquare(z, q);
    if q < p {
      QuadStrict(z, q, p);
    }
  }

  lemma QuadAtLeastSquare(z: real, q: real)
    requires 0.0 <= z < 1.0 && 0.0 < q < 1.0
    ensures Square(q) <= Quad(z, q)
  {
    var sq := Square(q);
    var m := q - sq;
    MulLt(q, 1.0, q);
    var zm := z * m;
    ProductNonNeg(z, m, zm);
    assert Quad(z, q) == sq + zm;
  }

  /** Moving from z to a larger z' strictly lowers a probability, by at most half the move. */
  lemma ShinProbSlope(sqrt: real -> real, B: real, q: real, z: real, z': real)
    requires IsSqrt(sqrt) && 1.0 < B && 0.0 < q < 1.0 && 0.0 <= z < z' < 1.0
    ensures 0.0 < ShinProb(sqrt, B, q, z) - ShinProb(sqrt, B, q, z') <= 0.5 * (z' - z)
  {
    ShinProbIsRoot(sqrt, B, q, z);
    ShinProbIsRoot(sqrt, B, q, z');
    ShinProbRange(sqrt, B, q, z);
    ShinProbRange(sqrt, B, q, z');
    QuadSlope(z, z', ShinProb(sqrt, B, q, z), ShinProb(sqrt, B, q, z'));
  }

  lemma QuadSlope(z: real, z': real, p: real, p': real)
    requires 0.0 <= z < z' < 1.0 && 0.0 < p < 1.0 && 0.0 < p' < 1.0
    requires Quad(z, p) == Quad(z', p')
    ensures 0.0 < p - p' <= 0.5 * (z' - z)
  {
    var d, m, e, D := z' - z, p' - Square(p'), p - p', (1.0 - z) * (p + p') + z;
    MulLt(p', 1.0, p');
    QuadShift(z, z', p', d, m);
    if p < p' {
      QuadStrict(z, p, p');
    }
    DifferenceOfQuads(z, p, p', e, D);
    DenominatorBound(z, p, p', D);
    HalfSlope(e, D, d, m);
  }

  lemma QuadShift(z: real, z': real, p: real, d: real, m: real)
    requires 0.0 < d && d == z' - z && 0.0 < m && m == p - Square(p)
    ensures Quad(z, p) == Quad(z', p) - d * m && Quad(z, p) < Quad(z', p)
  {
    var dm := d * m;
    ProductPos(d, m, dm);
    assert d * m == z' * p - z' * Square(p) - z * p + z * Square(p);
  }

  lemma HalfSlope(e: real, D: real, d: real, m: real)
    requires 0.0 < e && 0.0 < m && 2.0 * m <= D && e * D == d * m
    ensures e <= 0.5 * d
  {
    var m2, e2 := 2.0 * m, 2.0 * e;
    MulLe(m2, D, e);
    assert m2 * e == e2 * m;
    CancelLe(e2, d, m);
  }

  lemma DifferenceOfQuads(z: real, p: real, p': real, e: real, D: real)
    requires e == p - p' && D == (1.0 - z) * (p + p') + z
    ensures Quad(z, p) - Quad(z, p') == e * D
  {
    var w, s := 1.0 - z, p + p';
    assert e * s == Square(p) - Square(p');
    assert Quad(z, p) - Quad(z, p') == w * (Square(p) - Square(p')) + z * e;
    assert w * (e * s) == e * (w * s);
    assert e * (w * s + z) == e * (w * s) + e * z;
  }

  lemma DenominatorBound(z: real, p: real, p': real, D: real)
    requires 0.0 <= z < 1.0 && p' < p && D == (1.0 - z) * (p + p') + z
    ensures 2.0 * (p' - Square(p')) <= D
  {
    var w, sq, s, p2 := 1.0 - z, Square(p'), p + p', 2.0 * p';
    SquareNonNeg(p');
    SquareNonNeg(1.0 - p');
    assert Square(1.0 - p') == 1.0 - p2 + sq;
    MulLe(p2, s, w);
    assert p2 * w + z <= D;
    var t := 1.0 - p2 + 2.0 * sq;
    var zt, ws := z * t, w * sq;
    ProductNonNeg(z, t, zt);
    ProductNonNeg(w, sq, ws);
    assert p2 * w == p2 - z * p2;
    assert zt == z - z * p2 + 2.0 * (z * sq);
    assert ws == sq - z * sq;
  }

  // ---- the whole book ----

  /** The excess falls strictly as z grows. */
  lemma ShinExcessFalls(sqrt: real -> real, q: seq<real>, z: real, z': real)
    requires IsSqrt(sqrt) && Book(q) && 0.0 <= z < z' < 1.0
    ensures ShinExcess(sqrt, q, z') < ShinExcess(sqrt, q, z)
  {
    var a, b := ShinProbs(sqrt, q, z), ShinProbs(sqrt, q, z');
    forall i | 0 <= i < |q| ensures b[i] < a[i] {
      ShinProbSlope(sqrt, Sum(q), q[i], z, z');
    }
    SumLt(b, a);
  }

  /** With at most four outcomes it falls by at most twice the move. */
  lemma ShinExcessSlope(sqrt: real -> real, q: seq<real>, z: real, z': real)
    requires IsSqrt(sqrt) && Book(q) && |q| <= MAX_OUTCOMES && 0.0 <= z < z' < 1.0
    ensures ShinExcess(sqrt, q, z) - ShinExcess(sqrt, q, z') <= 2.0 * (z' - z)
  {
    var a, b, h, k := ShinProbs(sqrt, q, z), ShinProbs(sqrt, q, z'), 0.5 * (z' - z), |q| as real;
    var step := seq(|q|, i => h);
    var c := seq(|q|, i requires 0 <= i < |q| => b[i] + h);
    forall i | 0 <= i < |q| ensures a[i] <= c[i] {
      ShinProbSlope(sqrt, Sum(q), q[i], z, z');
    }
    SumConst(step, h, k);
    SumAdd(b, step, c);
    SumLe(a, c);
    MulLe(k, 4.0, h);
  }

  /** The excess has at most one root in [0,1). */
  lemma ShinRootUnique(sqrt: real -> real, q: seq<real>, z: real, z': real)
    requires IsSqrt(sqrt) && Book(q) && 0.0 <= z < 1.0 && 0.0 <= z' < 1.0
    requires ShinExcess(sqrt, q, z) == 0.0 && ShinExcess(sqrt, q, z') == 0.0
    ensures z == z'
  {
    if z < z' {
      ShinExcessFalls(sqrt, q, z, z');
    } else if z' < z {
      ShinExcessFalls(sqrt, q, z', z);
    }
  }

  /** Once z reaches every raw probability, no outcome keeps more than its multiplicative share. */
  lemma ShinExcessAtLargeZ(sqrt: real -> real, q: seq<real>, z: real)
    requires IsSqrt(sqrt) && Book(q) && 0.0 < z < 1.0
    requires forall i :: 0 <= i < |q| ==> q[i] <= z
    ensures ShinExcess(sqrt, q, z) <= 0.0
  {
    var B, p := Sum(q), ShinProbs(sqrt, q, z);
    var m := seq(|q|, i requires 0 <= i < |q| => q[i] / B);
    forall i | 0 <= i < |q| ensures p[i] <= m[i] {
      ShinProbIsRoot(sqrt, B, q[i], z);
      BelowShare(B, q[i], z, p[i], m[i], Square(q[i]) / B);
    }
    SumLe(p, m);
    SharesOfBook(q, m);
  }

  lemma BelowShare(B: real, q: real, z: real, p: real, m: real, c: real)
    requires 0.0 < B && 0.0 < q <= z < 1.0 && 0.0 < p
    requires m == q / B && c == Square(q) / B && Quad(z, p) == c
    ensures p <= m
  {
    var w, sp := 1.0 - z, Square(p);
    SquarePos(p);
    ProductPos(w, sp, w * sp);
    assert p * z <= c;
    DivPos(q, B, m);
    ShareOfSquare(B, q, m, c);
    MulLe(q, z, m);
    CancelLe(p, m, z);
  }

  lemma ShareOfSquare(B: real, q: real, m: real, c: real)
    requires 0.0 < B && m * B == q && c == Square(q) / B
    ensures c == q * m
  {
    var d := q * m;
    DivMul(Square(q), B, c);
    assert d * B == Square(q);
    CancelEq(c, d, B);
  }

  /** For n equal prices the root is exactly (B-1)/(n-1), and every outcome gets 1/n. */
  lemma ShinSymmetricRoot(sqrt: real -> real, q: seq<real>, z: real)
    requires IsSqrt(sqrt) && Book(q) && forall i :: 0 <= i < |q| ==> q[i] == q[0]
    requires 2 <= |q| && z == (Sum(q) - 1.0) / (|q| as real - 1.0)
    ensures 0.0 < z < 1.0 && ShinExcess(sqrt, q, z) == 0.0
    ensures forall i :: 0 <= i < |q| ==> ShinProbs(sqrt, q, z)[i] == 1.0 / |q| as real
  {
    var n, B, u := |q| as real, Sum(q), q[0];
    var p := 1.0 / n;
    SumConst(q, u, n);
    SymmetricRange(n, B, u, z);
    SymmetricProb(sqrt, n, B, u, z, p);
    assert forall i :: 0 <= i < |q| ==> ShinProbs(sqrt, q, z)[i] == p;
    SumConst(ShinProbs(sqrt, q, z), p, n);
  }

  lemma SymmetricProb(sqrt: real -> real, n: real, B: real, u: real, z: real, p: real)
    requires IsSqrt(sqrt) && 2.0 <= n && 0.0 < u < 1.0 < B && B == n * u && 0.0 < z < 1.0
    requires z * (n - 1.0) == B - 1.0 && p == 1.0 / n
    ensures ShinProb(sqrt, B, u, z) == p && n * p == 1.0
  {
    DivPos(1.0, n, p);
    SymmetricQuad(n, B, u, z, p, Square(u) / B);
    ShinProbIsRoot(sqrt, B, u, z);
  }

  lemma SymmetricRange(n: real, B: real, u: real, z: real)
    requires 2.0 <= n && 0.0 < u < 1.0 < B && B == n * u && z == (B - 1.0) / (n - 1.0)
    ensures 0.0 < z < 1.0 && z * (n - 1.0) == B - 1.0
  {
    var v, n1 := B - 1.0, n - 1.0;
    MulLt(u, 1.0, n);
    DivPos(v, n1, z);
    if z >= 1.0 {
      MulLe(1.0, z, n1);
    }
  }

  lemma SymmetricQuad(n: real, B: real, u: real, z: real, p: real, c: real)
    requires 1.0 < n && 0.0 < B && B == n * u && z * (n - 1.0) == B - 1.0 && p * n == 1.0 && c == Square(u) / B
    ensures Quad(z, p) == c
  {
    DivMul(Square(u), B, c);
    // both sides times n^2 come to B
    var t, n2 := Quad(z, p), Square(n);
    var pn := p * n;
    SquarePos(n);
    assert t * n2 == (1.0 - z) * Square(pn) + z * pn * n;
    assert t * n2 == 1.0 - z + z * n;
    assert t * n2 == B;
    assert c * B * n2 == Square(u) * n2;
    assert Square(u) * n2 == B * B;
    assert (c * n2) * B == B * B;
    var cn := c * n2;
    CancelEq(cn, B, B);
    CancelEq(t, c, n2);
  }

  /** At every z, p/q never falls as q grows. */
  lemma ShinTilted(sqrt: real -> real, q: seq<real>, z: real)
    requires IsSqrt(sqrt) && Book(q) && 0.0 <= z < 1.0
    ensures Tilted(q, ShinProbs(sqrt, q, z))
  {
    var B, p := Sum(q), ShinProbs(sqrt, q, z);
    forall i, j | 0 <= i < |q| && 0 <= j < |q| ensures KeepsMore(q[i], p[i], q[j], p[j]) {
      ShinProbIsRoot(sqrt, B, q[i], z);
      ShinProbIsRoot(sqrt, B, q[j], z);
      RatioOrder(z, B, q[i], q[j], p[i], p[j], Square(q[i]) / B, Square(q[j]) / B);
    }
  }

  lemma RatioOrder(z: real, B: real, qa: real, qb: real, pa: real, pb: real, ca: real, cb: real)
    requires 0.0 <= z < 1.0 && 0.0 < B && 0.0 < qa && 0.0 < qb && 0.0 < pa && 0.0 < pb
    requires ca == Square(qa) / B && cb == Square(qb) / B && Quad(z, pa) == ca && Quad(z, pb) == cb
    ensures KeepsMore(qa, pa, qb, pb)
  {
    // cross-multiplied by the other price, the two quadratics agree
    var x, y, w := pa * qb, pb * qa, 1.0 - z;
    var k := ca * Square(qb);
    CrossConstants(B, qa, qb, ca, cb, k);
    CrossQuad(z, w, pa, qb, x, x * qb, k);
    CrossQuad(z, w, pb, qa, y, y * qa, k);
    ProductPos(pb, qa, y);
    if qa <= qb && y < x {
      CrossOrder(z, w, x, y, qa, qb, x * qb, y * qa, k);
    }
  }

  lemma CrossConstants(B: real, qa: real, qb: real, ca: real, cb: real, k: real)
    requires 0.0 < B && ca == Square(qa) / B && cb == Square(qb) / B && k == ca * Square(qb)
    ensures k == cb * Square(qa)
  {
    var k' := cb * Square(qa);
    DivMul(Square(qa), B, ca);
    DivMul(Square(qb), B, cb);
    assert k * B == k' * B;
    CancelEq(k, k', B);
  }

  lemma CrossQuad(z: real, w: real, p: real, q: real, x: real, xq: real, k: real)
    requires w == 1.0 - z && x == p * q && xq == x * q && k == Quad(z, p) * Square(q)
    ensures k == w * Square(x) + z * xq
  {
  }

  lemma CrossOrder(z: real, w: real, x: real, y: real, qa: real, qb: real, xq: real, yq: real, k: real)
    requires 0.0 <= z && 0.0 < w && 0.0 < qa <= qb && 0.0 < y && xq == x * qb && yq == y * qa
    requires k == w * Square(x) + z * xq && k == w * Square(y) + z * yq
    ensures x <= y
  {
    if y < x {
      var sx, sy := Square(x), Square(y);
      SquareLt(y, x);
      MulLt(sy, sx, w);
      MulLe(y, x, qb);
      MulLe(qa, qb, y);
      MulLe(yq, xq, z);
    }
  }

  // ---- the solver ----

  /** The width of the bracket after n halvings. */
  function Width(n: nat): (w: real)
    ensures 0.0 < w
  {
    if n == 0 then SHIN_HI else 0.5 * Width(n - 1)
  }

  lemma {:induction false} WidthFalls(m: nat, n: nat)
    requires m <= n
    ensures Width(n) <= Width(m)
  {
    if m < n {
      WidthFalls(m, n - 1);
    }
  }

  lemma WidthTen(n: nat)
    ensures Width(n + 10) * 1024.0 == Width(n)
  {
    assert Width(n + 2) == 0.25 * Width(n);
    assert Width(n + 4) == 0.25 * Width(n + 2);
    assert Width(n + 6) == 0.25 * Width(n + 4);
    assert Width(n + 8) == 0.25 * Width(n + 6);
    assert Width(n + 10) == 0.25 * Width(n + 8);
  }

  lemma DefaultToleranceReached()
    ensures Width(50) < SHIN_TOLERANCE
  {
    WidthTen(0);
    WidthTen(10);
    WidthTen(20);
    WidthTen(30);
    WidthTen(40);
  }

  method ProbAt(sqrt: real -> real, q: seq<real>, B: real, z: real, p: array<real>)
    requires B == Sum(q) && 0.0 < B && z != 1.0 && |q| <= p.Length
    modifies p
    ensures p[..|q|] == ShinProbs(sqrt, q, z)
    ensures forall i :: |q| <= i < p.Length ==> p[i] == old(p[i])
  {
    var i := 0;
    while i < |q|
      invariant 0 <= i <= |q|
      invariant forall j :: 0 <= j < i ==> p[j] == ShinProb(sqrt, B, q[j], z)
      invariant forall j :: |q| <= j < p.Length ==> p[j] == old(p[j])
    {
      p[i] := ShinProb(sqrt, B, q[i], z);
      i := i + 1;
    }
  }

  method Excess(sqrt: real -> real, q: seq<real>, B: real, z: real) returns (g: real)
    requires B == Sum(q) && 0.0 < B && z != 1.0 && |q| <= MAX_OUTCOMES
    ensures g == ShinExcess(sqrt, q, z)
  {
    var p := new real[MAX_OUTCOMES](_ => 0.0);
    ProbAt(sqrt, q, B, z, p);
    g := SumPrefix(p, |q|);
    g := g - 1.0;
  }

  method SumPrefix(p: array<real>, n: nat) returns (sum: real)
    requires n <= p.Length
    ensures sum == Sum(p[..n])
  {
    sum := 0.0;
    var i := 0;
    while i < n
      invariant 0 <= i <= n
      invariant sum == Sum(p[..i])
    {
      SumStep(p[..], i);
      assert p[..][..i] == p[..i] && p[..][..i + 1] == p[..i + 1];
      sum := sum + p[i];
      i := i + 1;
    }
  }

  /** The bisection bracket after `halvings` steps from [0, SHIN_HI]. */
  ghost predicate Bracket(sqrt: real -> real, q: seq<real>, lo: real, hi: real, z: real, halvings: nat)
    requires 0.0 < Sum(q)
  {
    0.0 <= lo < hi <= SHIN_HI && z == 0.5 * (lo + hi) &&
    ShinExcess(sqrt, q, hi) <= 0.0 <= ShinExcess(sqrt, q, lo) &&
    hi - lo == Width(halvings)
  }

  lemma BracketStart(sqrt: real -> real, q: seq<real>)
    requires IsSqrt(sqrt) && Book(q) && ShinExcess(sqrt, q, SHIN_HI) <= 0.0
    ensures Bracket(sqrt, q, 0.0, SHIN_HI, 0.5 * (0.0 + SHIN_HI), 0)
  {
    var B, p := Sum(q), ShinProbs(sqrt, q, 0.0);
    forall i | 0 <= i < |q| ensures q[i] / B <= p[i] {
      ShinProbIsRoot(sqrt, B, q[i], 0.0);
      AboveShareAtZero(B, q[i], p[i], q[i] / B);
    }
    var m := seq(|q|, i requires 0 <= i < |q| => q[i] / B);
    SharesOfBook(q, m);
    SumLe(m, p);
  }

  lemma AboveShareAtZero(B: real, q: real, p: real, m: real)
    requires 1.0 < B && 0.0 < q && 0.0 < p && m == q / B && Quad(0.0, p) == Square(q) / B
    ensures m <= p
  {
    var c := Square(q) / B;
    DivPos(q, B, m);
    ShareOfSquare(B, q, m, c);
    ShareOfBook(q, B, m);
    MulLt(m, q, m);
    if p < m {
      SquareLt(p, m);
    }
  }

  lemma BracketHalves(sqrt: real -> real, q: seq<real>, lo: real, hi: real, z: real, n: nat)
    requires 0.0 < Sum(q) && Bracket(sqrt, q, lo, hi, z, n)
    ensures 0.0 <= ShinExcess(sqrt, q, z) ==> Bracket(sqrt, q, z, hi, 0.5 * (z + hi), n + 1)
    ensures ShinExcess(sqrt, q, z) <= 0.0 ==> Bracket(sqrt, q, lo, z, 0.5 * (lo + z), n + 1)
  {
    assert Width(n + 1) == 0.5 * Width(n);
  }

  /** At the midpoint the residual is below the bracket's width when the book has at most four outcomes. */
  lemma MidpointResidual(sqrt: real -> real, q: seq<real>, lo: real, hi: real, z: real, n: nat)
    requires IsSqrt(sqrt) && Book(q) && |q| <= MAX_OUTCOMES && Bracket(sqrt, q, lo, hi, z, n)
    ensures -Width(n) <= ShinExcess(sqrt, q, z) <= Width(n)
  {
    ShinExcessSlope(sqrt, q, lo, z);
    ShinExcessSlope(sqrt, q, z, hi);
  }

  /** After enough halvings the residual is within tolerance. */
  lemma Converged(sqrt: real -> real, q: seq<real>, lo: real, hi: real, z: real, n: nat, tolerance: real)
    requires IsSqrt(sqrt) && Book(q) && |q| <= MAX_OUTCOMES && Bracket(sqrt, q, lo, hi, z, n)
    requires Width(n) < tolerance
    ensures -tolerance < ShinExcess(sqrt, q, z) < tolerance
  {
    MidpointResidual(sqrt, q, lo, hi, z, n);
  }

  // ---- which point the bisection stops at ----

  datatype Halving = Halving(lo: real, hi: real, z: real)

  /** The bracket and its midpoint after n halvings, each on the side of the root. */
  function Halved(sqrt: real -> real, q: seq<real>, n: nat): (h: Halving)
    requires 0.0 < Sum(q)
    ensures h.z < 1.0 && h.lo <= h.hi < 1.0 && h.z == 0.5 * (h.lo + h.hi)
  {
    if n == 0 then Halving(0.0, SHIN_HI, 0.5 * (0.0 + SHIN_HI))
    else HalvedOnce(sqrt, q, Halved(sqrt, q, n - 1))
  }

  function HalvedOnce(sqrt: real -> real, q: seq<real>, h: Halving): Halving
    requires 0.0 < Sum(q) && h.z != 1.0
  {
    if ShinExcess(sqrt, q, h.z) > 0.0 then Halving(h.z, h.hi, 0.5 * (h.z + h.hi))
    else Halving(h.lo, h.z, 0.5 * (h.lo + h.z))
  }

  ghost predicate Near(sqrt: real -> real, q: seq<real>, tolerance: real, z: real)
    requires 0.0 < Sum(q) && z != 1.0
  {
    -tolerance < ShinExcess(sqrt, q, z) < tolerance
  }

  /** Which midpoints are within tolerance. */
  ghost function Hits(sqrt: real -> real, q: seq<real>, tolerance: real): nat -> bool
    requires 0.0 < Sum(q)
  {
    (n: nat) => Near(sqrt, q, tolerance, Halved(sqrt, q, n).z)
  }

  lemma HitIsNear(sqrt: real -> real, q: seq<real>, tolerance: real, n: nat)
    requires 0.0 < Sum(q)
    ensures Hits(sqrt, q, tolerance)(n) <==> Near(sqrt, q, tolerance, Halved(sqrt, q, n).z)
  {
  }

  /** What a solver run on a book with margin returns: nothing if the bracket is refused, else the probabilities at the
      first midpoint within tolerance. */
  ghost predicate ShinOutcome(sqrt: real -> real, q: seq<real>, tolerance: real, maxIterations: nat, out: DevigResult)
    requires 0.0 < Sum(q) && |q| <= MAX_OUTCOMES
  {
    (out.normalized <==> out.status == Ok) &&
    if ShinExcess(sqrt, q, SHIN_HI) > 0.0 then
      out.status == NotConverged && out.iterations == 0 && out.param == 1.0 && out.prob == ZEROED.prob
    else
      0.0 < out.param < 1.0 && out.prob == Padded(ShinProbs(sqrt, q, out.param)) &&
      Stops(Hits(sqrt, q, tolerance), maxIterations, out.status, out.iterations) &&
      out.param == Halved(sqrt, q, LastTried(out.status, out.iterations)).z
  }

  /** The contract is complete: any two answers that meet it agree ... */
  lemma ShinDetermined(sqrt: real -> real, q: seq<real>, tolerance: real, maxIterations: nat, out: DevigResult,
                       out': DevigResult)
    requires 0.0 < Sum(q) && |q| <= MAX_OUTCOMES && out.count == out'.count
    requires ShinOutcome(sqrt, q, tolerance, maxIterations, out) && ShinOutcome(sqrt, q, tolerance, maxIterations, out')
    ensures out == out'
  {
    if ShinExcess(sqrt, q, SHIN_HI) <= 0.0 {
      StopsOnce(Hits(sqrt, q, tolerance), maxIterations, out.status, out.iterations, out'.status, out'.iterations);
    }
  }

  /** ... and it solves the equation up to the tolerance. */
  lemma OkIsNear(sqrt: real -> real, q: seq<real>, tolerance: real, maxIterations: nat, out: DevigResult)
    requires 0.0 < Sum(q) && |q| <= MAX_OUTCOMES && out.status == Ok
    requires ShinOutcome(sqrt, q, tolerance, maxIterations, out)
    ensures 0.0 < out.param < 1.0 && out.prob == Padded(ShinProbs(sqrt, q, out.param))
    ensures Near(sqrt, q, tolerance, out.param)
  {
    HitIsNear(sqrt, q, tolerance, LastTried(Ok, out.iterations));
  }

  /** The loop state before iteration `it`: halved it-1 times, and no such tolerance reached yet. */
  ghost predicate Bisecting(sqrt: real -> real, q: seq<real>, tolerance: real, lo: real, hi: real, z: real, it: nat)
    requires 0.0 < Sum(q)
  {
    1 <= it && Bracket(sqrt, q, lo, hi, z, it - 1) &&
    forall m: nat :: m < it - 1 ==> tolerance <= Width(m)
  }

  lemma BisectStep(sqrt: real -> real, q: seq<real>, tolerance: real, lo: real, hi: real, z: real, it: nat)
    requires IsSqrt(sqrt) && Book(q) && |q| <= MAX_OUTCOMES && Bisecting(sqrt, q, tolerance, lo, hi, z, it)
    requires !(-tolerance < ShinExcess(sqrt, q, z) < tolerance)
    ensures ShinExcess(sqrt, q, z) > 0.0 ==> Bisecting(sqrt, q, tolerance, z, hi, 0.5 * (z + hi), it + 1)
    ensures ShinExcess(sqrt, q, z) <= 0.0 ==> Bisecting(sqrt, q, tolerance, lo, z, 0.5 * (lo + z), it + 1)
  {
    if Width(it - 1) < tolerance {
      Converged(sqrt, q, lo, hi, z, it - 1, tolerance);
    }
    BracketHalves(sqrt, q, lo, hi, z, it - 1);
  }

  /** The loop state after n halvings that were not enough. */
  ghost predicate BisectingAt(sqrt: real -> real, q: seq<real>, tolerance: real, h: Halving, n: nat)
    requires 0.0 < Sum(q)
  {
    Bisecting(sqrt, q, tolerance, h.lo, h.hi, h.z, n + 1) && h == Halved(sqrt, q, n) &&
    NoHit(Hits(sqrt, q, tolerance), n)
  }

  lemma BisectOn(sqrt: real -> real, q: seq<real>, tolerance: real, h: Halving, n: nat)
    requires IsSqrt(sqrt) && Book(q) && |q| <= MAX_OUTCOMES && BisectingAt(sqrt, q, tolerance, h, n)
    requires !Near(sqrt, q, tolerance, h.z)
    ensures BisectingAt(sqrt, q, tolerance, HalvedOnce(sqrt, q, h), n + 1)
  {
    BisectStep(sqrt, q, tolerance, h.lo, h.hi, h.z, n + 1);
    HitIsNear(sqrt, q, tolerance, n);
    GoOn(Hits(sqrt, q, tolerance), n);
  }

  /** The loop may stop at a midpoint that is near enough ... */
  lemma BisectFinds(sqrt: real -> real, q: seq<real>, tolerance: real, maxIterations: nat, h: Halving, n: nat)
    requires 0.0 < Sum(q) && BisectingAt(sqrt, q, tolerance, h, n) && n < maxIterations && Near(sqrt, q, tolerance, h.z)
    ensures 0.0 < h.z < 1.0 && h.z == Halved(sqrt, q, LastTried(Ok, n + 1)).z
    ensures Stops(Hits(sqrt, q, tolerance), maxIterations, Ok, n + 1)
    ensures forall m: nat :: m < maxIterations && Width(m) < tolerance ==> n <= m
  {
    HitIsNear(sqrt, q, tolerance, n);
    StopHere(Hits(sqrt, q, tolerance), maxIterations, n);
  }

  /** ... and must when the iterations are used up. */
  lemma BisectGivesUp(sqrt: real -> real, q: seq<real>, tolerance: real, h: Halving, n: nat)
    requires 0.0 < Sum(q) && BisectingAt(sqrt, q, tolerance, h, n)
    ensures 0.0 < h.z < 1.0 && h.z == Halved(sqrt, q, LastTried(NotConverged, n)).z
    ensures Stops(Hits(sqrt, q, tolerance), n, NotConverged, n)
    ensures forall m: nat :: m < n ==> tolerance <= Width(m)
  {
  }

  /** One try: is the midpoint near enough, and if not, which half of the bracket is next. */
  method TryMidpoint(sqrt: real -> real, q: seq<real>, B: real, tolerance: real, lo: real, hi: real, z: real)
    returns (near: bool, lo': real, hi': real, z': real)
    requires B == Sum(q) && 0.0 < B && z != 1.0 && |q| <= MAX_OUTCOMES
    ensures near <==> Near(sqrt, q, tolerance, z)
    ensures !near ==> Halving(lo', hi', z') == HalvedOnce(sqrt, q, Halving(lo, hi, z))
  {
    lo', hi', z' := lo, hi, z;
    var gz := Excess(sqrt, q, B, z);
    near := -tolerance < gz < tolerance;
    if near { return; }
    if gz > 0.0 { lo' := z; } else { hi' := z; }
    z' := 0.5 * (lo' + hi');
  }

  /** The bisection loop: one iteration past the m-th halving is enough when its width is within tolerance. */
  method Bisect(sqrt: real -> real, q: seq<real>, B: real, tolerance: real, maxIterations: nat)
    returns (z: real, status: Status, iterations: nat)
    requires IsSqrt(sqrt) && Book(q) && B == Sum(q) && |q| <= MAX_OUTCOMES
    requires ShinExcess(sqrt, q, SHIN_HI) <= 0.0
    ensures 0.0 < z < 1.0 && z == Halved(sqrt, q, LastTried(status, iterations)).z
    ensures Stops(Hits(sqrt, q, tolerance), maxIterations, status, iterations)
    ensures forall m: nat :: m < maxIterations && Width(m) < tolerance ==> status == Ok && iterations <= m + 1
  {
    var lo, hi := 0.0, SHIN_HI;
    z := 0.5 * (lo + hi);
    BracketStart(sqrt, q);
    iterations := 0;
    while iterations < maxIterations
      invariant iterations <= maxIterations && BisectingAt(sqrt, q, tolerance, Halving(lo, hi, z), iterations)
    {
      var near, lo', hi', z' := TryMidpoint(sqrt, q, B, tolerance, lo, hi, z);
      if near {
        BisectFinds(sqrt, q, tolerance, maxIterations, Halving(lo, hi, z), iterations);
        return z, Ok, iterations + 1;
      }
      BisectOn(sqrt, q, tolerance, Halving(lo, hi, z), iterations);
      lo, hi, z := lo', hi', z';
      iterations := iterations + 1;
    }
    status := NotConverged;
    BisectGivesUp(sqrt, q, tolerance, Halving(lo, hi, z), iterations);
  }

  method Shin(sqrt: real -> real, odds: seq<real>, tolerance: real, maxIterations: nat)
    returns (out: DevigResult)
    requires IsSqrt(sqrt)
    ensures GuardedResult(odds, out)
    ensures ValidOdds(odds) && Sum(Implied(odds)) > 1.0 ==>
      ShinOutcome(sqrt, Implied(odds), tolerance, maxIterations, out)
    // with the default settings the solver fails exactly when its bracket is refused
    ensures ValidOdds(odds) && Sum(Implied(odds)) > 1.0 && tolerance == SHIN_TOLERANCE &&
      maxIterations == SHIN_MAX_ITERATIONS
      ==> (out.status == Ok <==> ShinExcess(sqrt, Implied(odds), SHIN_HI) <= 0.0) && out.iterations <= 51
  {
    if !ValidOdds(odds) {
      return ZEROED;
    }
    var B := Booksum(odds);
    if B <= 1.0 {
      out := NoMargin(odds);
      return;
    }
    var q := Implied(odds);
    var ghi := Excess(sqrt, q, B, SHIN_HI);
    if ghi > 0.0 {
      return ZEROED.(count := |odds|, status := NotConverged);
    }
    var z, status, iterations := Bisect(sqrt, q, B, tolerance, maxIterations);
    DefaultToleranceReached();
    var prob := new real[MAX_OUTCOMES](_ => 0.0);
    ProbAt(sqrt, q, B, z, prob);
    assert prob[..] == Padded(ShinProbs(sqrt, q, z));
    out := DevigResult(prob[..], z, iterations, |odds|, status, status == Ok);
  }

  /** Every accepted Shin answer is, up to the tolerance, a probability vector with longshots corrected. */
  lemma ShinAnswer(sqrt: real -> real, odds: seq<real>, tolerance: real, maxIterations: nat, out: DevigResult, k: nat)
    requires IsSqrt(sqrt) && ValidOdds(odds) && Sum(Implied(odds)) > 1.0
    requires GuardedResult(odds, out) && ShinOutcome(sqrt, Implied(odds), tolerance, maxIterations, out)
    requires out.status == Ok && k < |odds|
    ensures var q, p := Implied(odds), out.prob[..out.count];
      Tilted(q, p) && 0.0 < p[k] < q[k] && 1.0 - tolerance < Sum(p) < 1.0 + tolerance &&
      ((forall i :: 0 <= i < |q| ==> q[k] <= q[i]) ==> CrossLe(p[k], Sum(q), q[k], 1.0 + tolerance)) &&
      ((forall i :: 0 <= i < |q| ==> q[i] <= q[k]) ==> CrossLe(q[k], 1.0 - tolerance, p[k], Sum(q)))
  {
    var q, p := Implied(odds), out.prob[..out.count];
    OkIsNear(sqrt, q, tolerance, maxIterations, out);
    assert p == ShinProbs(sqrt, q, out.param);
    ShinTilted(sqrt, q, out.param);
    ShinProbRange(sqrt, Sum(q), q[k], out.param);
    TiltWithTolerance(q, p, k, tolerance);
  }

  /** Quotes of at least 1.001, the least the engine can carry, are always bracketed. */
  lemma BettableOddsAreBracketed(sqrt: real -> real, odds: seq<real>)
    requires IsSqrt(sqrt) && ValidOdds(odds) && Sum(Implied(odds)) > 1.0
    requires forall i :: 0 <= i < |odds| ==> odds[i] >= 1.001
    ensures ShinExcess(sqrt, Implied(odds), SHIN_HI) <= 0.0
  {
    var q := Implied(odds);
    forall i | 0 <= i < |q| ensures q[i] <= SHIN_HI {
      var o, u := odds[i], q[i];
      if u > SHIN_HI {
        MulLt(SHIN_HI, u, o);
      }
    }
    ShinExcessAtLargeZ(sqrt, q, SHIN_HI);
  }

  /** Not every valid book is bracketed: two prices of 1.0000000001 put the root above SHIN_HI. */
  lemma NearCertainBookIsNotBracketed(sqrt: real -> real)
    requires IsSqrt(sqrt)
    ensures var odds := [1.0000000001, 1.0000000001];
      ValidOdds(odds) && Sum(Implied(odds)) > 1.0 && ShinExcess(sqrt, Implied(odds), SHIN_HI) > 0.0
  {
    var odds := [1.0000000001, 1.0000000001];
    var q := Implied(odds);
    var u := q[0];
    SumConst(q, u, 2.0);
    assert u * 1.0000000001 == 1.0;
    var z := (Sum(q) - 1.0) / (|q| as real - 1.0);
    assert z == Sum(q) - 1.0 && z > SHIN_HI;
    ShinSymmetricRoot(sqrt, q, z);
    ShinExcessFalls(sqrt, q, SHIN_HI, z);
  }
}
