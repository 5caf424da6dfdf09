/** The power method: the exponent k with q_1^k + ... + q_n^k = 1, by Newton steps kept inside a bracket. */
module Power {
  import opened Messages
  import opened Reals
  import opened Sums
  import opened Devig

  const POWER_TOLERANCE: real := 0.0000000000001
  const POWER_MAX_ITERATIONS: nat := 100

  // ---- what is used about exp and log ----

  ghost predicate AddLaw(exp: real -> real, x: real, y: real) { exp(x + y) == exp(x) * exp(y) }

  ghost predicate TangentLaw(exp: real -> real, t: real) { t != 0.0 ==> 1.0 + t < exp(t) }

  ghost predicate LogLaw(exp: real -> real, log: real -> real, x: real) { 0.0 < x ==> exp(log(x)) == x }

  ghost predicate IsExp(exp: real -> real) {
    (forall x, y :: AddLaw(exp, x, y)) && (forall t :: TangentLaw(exp, t))
  }

  ghost predicate IsLog(exp: real -> real, log: real -> real) {
    forall x :: LogLaw(exp, log, x)
  }

  lemma ExpZero(exp: real -> real)
    requires IsExp(exp)
    ensures exp(0.0) == 1.0
  {
    assert AddLaw(exp, 1.0, 0.0) && TangentLaw(exp, 1.0);
    var a, b := exp(1.0), exp(0.0);
    assert a * b == a * 1.0;
    CancelEq(b, 1.0, a);
  }

  lemma ExpPositive(exp: real -> real, x: real)
    requires IsExp(exp)
    ensures 0.0 < exp(x)
  {
    ExpZero(exp);
    var h := 0.5 * x;
    assert AddLaw(exp, h, h) && AddLaw(exp, x, -x);
    SquareNonNeg(exp(h));
    assert exp(x) == Square(exp(h)) by { assert h + h == x; }
    assert exp(x) != 0.0 by {
      assert x + -x == 0.0;
      assert exp(x) * exp(-x) == 1.0;
    }
  }

  lemma ExpIncreasing(exp: real -> real, x: real, y: real)
    requires IsExp(exp) && x < y
    ensures exp(x) < exp(y)
  {
    var d := y - x;
    assert AddLaw(exp, x, d) && TangentLaw(exp, d);
    assert x + d == y;
    ExpPositive(exp, x);
    var a, b := exp(x), exp(d);
    MulLt(1.0, b, a);
  }

  /** Odds above one have negative logarithms of their raw probabilities. */
  lemma LogNegative(exp: real -> real, log: real -> real, q: real)
    requires IsExp(exp) && IsLog(exp, log) && 0.0 < q < 1.0
    ensures log(q) < 0.0 && exp(log(q)) == q
  {
    assert LogLaw(exp, log, q);
    ExpZero(exp);
    if 0.0 < log(q) {
      ExpIncreasing(exp, 0.0, log(q));
    }
  }

  // ---- one outcome ----

  /** q^k for q = exp(l). */
  function Term(exp: real -> real, l: real, k: real): real { exp(k * l) }

  /** Its derivative in k. */
  function TermSlope(exp: real -> real, l: real, k: real): real { l * exp(k * l) }

  lemma TermTangent(exp: real -> real, l: real, k: real, k': real, d: real)
    requires IsExp(exp) && l < 0.0 && k != k' && d == k' - k
    ensures OverTangent(Term(exp, l, k), TermSlope(exp, l, k), d, Term(exp, l, k'))
  {
    var a, b := k * l, d * l;
    assert k' * l == a + b;
    assert AddLaw(exp, a, b) && TangentLaw(exp, b);
    assert b != 0.0;
    ExpPositive(exp, a);
    var t, u, v := exp(a), exp(b), 1.0 + b;
    MulLt(v, u, t);
    assert v * t == t + d * (l * t);
  }

  lemma TermRange(exp: real -> real, l: real, k: real)
    requires IsExp(exp) && l < 0.0 && 1.0 <= k
    ensures 0.0 < Term(exp, l, k) < 1.0 && -1.0 < TermSlope(exp, l, k) < 0.0
  {
    var a, b := k * l, k * -l;
    ExpPositive(exp, a);
    ExpZero(exp);
    assert AddLaw(exp, a, b) && TangentLaw(exp, b);
    assert a + b == 0.0;
    MulLe(1.0, k, -l);
    var t, u := exp(a), exp(b);
    assert t * u == 1.0;
    var m := -l;
    MulLt(m, u, t);
    ProductPos(m, t, m * t);
    MulLt(1.0, u, t);
    assert l * t == -(m * t);
  }

  // ---- the whole book: f(k) = sum q_i^k - 1 ----

  ghost predicate Logs(l: seq<real>) {
    0 < |l| && forall i :: 0 <= i < |l| ==> l[i] < 0.0
  }

  function Terms(exp: real -> real, l: seq<real>, k: real): (t: seq<real>)
    ensures |t| == |l|
  {
    seq(|l|, i requires 0 <= i < |l| => Term(exp, l[i], k))
  }

  function Slopes(exp: real -> real, l: seq<real>, k: real): (t: seq<real>)
    ensures |t| == |l|
  {
    seq(|l|, i requires 0 <= i < |l| => TermSlope(exp, l[i], k))
  }

  function F(exp: real -> real, l: seq<real>, k: real): real { Sum(Terms(exp, l, k)) - 1.0 }

  function DF(exp: real -> real, l: seq<real>, k: real): real { Sum(Slopes(exp, l, k)) }

  ghost predicate OverTangent(t: real, s: real, d: real, t': real) { t + d * s < t' }

  lemma {:induction false} SumOverTangent(t: seq<real>, s: seq<real>, d: real, t': seq<real>, st: real, ss: real,
                                          st': real)
    requires 0 < |t| == |s| == |t'| && st == Sum(t) && ss == Sum(s) && st' == Sum(t')
    requires forall i :: 0 <= i < |t| ==> OverTangent(t[i], s[i], d, t'[i])
    ensures OverTangent(st, ss, d, st')
  {
    var m := |t| - 1;
    if m > 0 {
      SumOverTangent(t[..m], s[..m], d, t'[..m], Sum(t[..m]), Sum(s[..m]), Sum(t'[..m]));
      AddTangents(Sum(t[..m]), Sum(s[..m]), Sum(t'[..m]), t[m], s[m], t'[m], d, st, ss, st');
    }
  }

  lemma AddTangents(a: real, b: real, c: real, x: real, y: real, z: real, d: real, st: real, ss: real, st': real)
    requires OverTangent(a, b, d, c) && OverTangent(x, y, d, z)
    requires st == a + x && ss == b + y && st' == c + z
    ensures OverTangent(st, ss, d, st')
  {
    assert d * ss == d * b + d * y;
  }

  /** f lies strictly above each of its tangents: strict convexity. */
  lemma Tangent(exp: real -> real, l: seq<real>, k: real, k': real, d: real, s: real)
    requires IsExp(exp) && Logs(l) && k != k' && d == k' - k && s == DF(exp, l, k)
    ensures F(exp, l, k) + d * s < F(exp, l, k')
  {
    var a, b, c := Terms(exp, l, k), Slopes(exp, l, k), Terms(exp, l, k');
    forall i | 0 <= i < |l| ensures OverTangent(a[i], b[i], d, c[i]) {
      TermTangent(exp, l[i], k, k', d);
    }
    SumOverTangent(a, b, d, c, Sum(a), s, Sum(c));
  }

  lemma TermsRange(exp: real -> real, l: seq<real>, k: real)
    requires IsExp(exp) && Logs(l) && 1.0 <= k
    ensures forall i :: 0 <= i < |l| ==> 0.0 < Terms(exp, l, k)[i] < 1.0 && -1.0 < Slopes(exp, l, k)[i] < 0.0
  {
    forall i | 0 <= i < |l| ensures 0.0 < Terms(exp, l, k)[i] < 1.0 && -1.0 < Slopes(exp, l, k)[i] < 0.0 {
      TermRange(exp, l[i], k);
    }
  }

  lemma {:induction false} SumWithin(t: seq<real>, lo: real, hi: real)
    requires 0 < |t| && forall i :: 0 <= i < |t| ==> lo < t[i] < hi
    requires (lo == 0.0 && hi == 1.0) || (lo == -1.0 && hi == 0.0)
    ensures lo == 0.0 ==> 0.0 < Sum(t) < |t| as real
    ensures lo == -1.0 ==> -(|t| as real) < Sum(t) < 0.0
  {
    var m := |t| - 1;
    if m > 0 {
      SumWithin(t[..m], lo, hi);
    }
  }

  lemma SlopeRange(exp: real -> real, l: seq<real>, k: real)
    requires IsExp(exp) && Logs(l) && 1.0 <= k
    ensures -(|l| as real) < DF(exp, l, k) < 0.0
    ensures -1.0 < F(exp, l, k) < |l| as real - 1.0
  {
    TermsRange(exp, l, k);
    SumWithin(Terms(exp, l, k), 0.0, 1.0);
    SumWithin(Slopes(exp, l, k), -1.0, 0.0);
  }

  lemma Falls(exp: real -> real, l: seq<real>, k: real, k': real)
    requires IsExp(exp) && Logs(l) && 1.0 <= k < k'
    ensures F(exp, l, k') < F(exp, l, k)
  {
    SlopeRange(exp, l, k');
    var d, s := k - k', DF(exp, l, k');
    Tangent(exp, l, k', k, d, s);
    ProductPos(-d, -s, d * s);
  }

  // ---- one step of the guarded search ----

  datatype Search = Search(lo: real, hi: real, k: real)

  /** The Newton point, or k itself where the derivative vanishes. */
  function NewtonPoint(k: real, fk: real, dfk: real): real {
    if dfk != 0.0 then k - fk / dfk else k
  }

  /** Shrink the bracket to the side of k that holds the root, then take the Newton point
      if it falls inside and the midpoint otherwise. */
  function Next(exp: real -> real, l: seq<real>, s: Search): Search {
    var lo := if F(exp, l, s.k) > 0.0 then s.k else s.lo;
    var hi := if F(exp, l, s.k) > 0.0 then s.hi else s.k;
    var newton := NewtonPoint(s.k, F(exp, l, s.k), DF(exp, l, s.k));
    Search(lo, hi, if lo < newton < hi then newton else lo + (hi - lo) * 0.5)
  }

  /** The root is inside and so is the point about to be tried. */
  ghost predicate Bracketed(exp: real -> real, l: seq<real>, s: Search) {
    1.0 <= s.lo < s.k < s.hi && F(exp, l, s.hi) <= 0.0 < F(exp, l, s.lo)
  }

  /** Every step keeps the root and the trial point strictly inside a strictly smaller bracket. */
  lemma StepKeepsBracket(exp: real -> real, l: seq<real>, s: Search)
    requires Bracketed(exp, l, s)
    ensures var s' := Next(exp, l, s);
      Bracketed(exp, l, s') && s.lo <= s'.lo && s'.hi <= s.hi && s'.hi - s'.lo < s.hi - s.lo
  {
  }

  /** The Newton point is where the tangent at k meets zero; f is still positive there. */
  lemma NewtonLands(exp: real -> real, l: seq<real>, k: real, f: real, s: real, k': real)
    requires IsExp(exp) && Logs(l) && 1.0 <= k && f == F(exp, l, k) && s == DF(exp, l, k)
    requires f != 0.0 && k' == NewtonPoint(k, f, s)
    ensures s < 0.0 && (k' - k) * s == -f && k' != k && 0.0 < F(exp, l, k') && (0.0 < f <==> k < k')
  {
    SlopeRange(exp, l, k);
    var q, d := f / s, k' - k;
    DivMul(f, s, q);
    assert d == -q;
    assert d * s == -f;
    Tangent(exp, l, k, k', d, s);
    if d <= 0.0 {
      ProductNonNeg(-d, -s, d * s);
    } else {
      ProductPos(d, -s, -(d * s));
    }
  }

  /** Once a trial point has f > 0, the Newton point is used as it is, lies further right, and has f > 0 again. */
  lemma PositiveStep(exp: real -> real, l: seq<real>, s: Search)
    requires IsExp(exp) && Logs(l) && Bracketed(exp, l, s) && 0.0 < F(exp, l, s.k)
    ensures var s' := Next(exp, l, s);
      s'.k == NewtonPoint(s.k, F(exp, l, s.k), DF(exp, l, s.k)) &&
      s.k < s'.k < s.hi && 0.0 < F(exp, l, s'.k) && s'.hi == s.hi && s'.lo == s.k
  {
    var f, d := F(exp, l, s.k), DF(exp, l, s.k);
    var k' := NewtonPoint(s.k, f, d);
    NewtonLands(exp, l, s.k, f, d, k');
    if s.hi < k' {
      Falls(exp, l, s.hi, k');
    }
  }

  /** The state after n steps. */
  function Run(exp: real -> real, l: seq<real>, s: Search, n: nat): Search {
    if n == 0 then s else Next(exp, l, Run(exp, l, s, n - 1))
  }

  /** Inside the positive phase the state stays positive and the right end never moves. */
  lemma {:induction false} PositiveForever(exp: real -> real, l: seq<real>, s: Search, n: nat)
    requires IsExp(exp) && Logs(l) && Bracketed(exp, l, s) && 0.0 < F(exp, l, s.k)
    ensures var a := Run(exp, l, s, n); Bracketed(exp, l, a) && 0.0 < F(exp, l, a.k) && a.hi == s.hi
  {
    if n > 0 {
      PositiveForever(exp, l, s, n - 1);
      StepKeepsBracket(exp, l, Run(exp, l, s, n - 1));
      PositiveStep(exp, l, Run(exp, l, s, n - 1));
    }
  }

  /** From the first positive trial point on, for ever: the points increase and bisection never happens again. */
  lemma PositivePhase(exp: real -> real, l: seq<real>, s: Search, n: nat)
    requires IsExp(exp) && Logs(l) && Bracketed(exp, l, s) && 0.0 < F(exp, l, s.k)
    ensures var a, b := Run(exp, l, s, n), Run(exp, l, s, n + 1);
      0.0 < F(exp, l, b.k) && a.k < b.k < s.hi &&
      b.k == NewtonPoint(a.k, F(exp, l, a.k), DF(exp, l, a.k))
  {
    PositiveForever(exp, l, s, n);
    PositiveStep(exp, l, Run(exp, l, s, n));
  }

  // ---- how fast the positive phase closes in: f * |f'| falls to a quarter at every step ----

  ghost predicate Below(f: real, d: real, cap: real) { f * d < cap }

  lemma NewtonQuarters(exp: real -> real, l: seq<real>, k: real, f: real, s: real, k': real, f': real, s': real,
                       cap: real)
    requires IsExp(exp) && Logs(l) && 1.0 <= k && 0.0 < f
    requires f == F(exp, l, k) && s == DF(exp, l, k) && k' == NewtonPoint(k, f, s)
    requires f' == F(exp, l, k') && s' == DF(exp, l, k') && Below(f, -s, cap)
    ensures Below(f', -s', 0.25 * cap)
  {
    NewtonLands(exp, l, k, f, s, k');
    SlopeRange(exp, l, k');
    var d := k - k';
    Tangent(exp, l, k', k, d, s');
    Quartered(f, -s, f', -s', d, cap);
  }

  lemma Quartered(f: real, g: real, f': real, g': real, d: real, cap: real)
    requires 0.0 < f && 0.0 < g && 0.0 < f' && 0.0 < g'
    requires d * g == -f && f' - d * g' < f && Below(f, g, cap)
    ensures Below(f', g', 0.25 * cap)
  {
    var P, P', x, y := f * g, f' * g', f' * g, f * g';
    ProductPos(f, g, P);
    ProductPos(f', g, x);
    ProductPos(f, g', y);
    CrossTerms(f, g, f', g', d, x, y, P);
    QuarterOfSquare(x, y, P, P');
  }

  lemma CrossTerms(f: real, g: real, f': real, g': real, d: real, x: real, y: real, P: real)
    requires 0.0 < g && d * g == -f && f' - d * g' < f && x == f' * g && y == f * g' && P == f * g
    ensures x + y < P
  {
    var t := f' - d * g';
    MulLt(t, f, g);
    assert t * g == f' * g - (d * g) * g';
  }

  /** If x + y < P then x*y < P*P/4. */
  lemma QuarterOfSquare(x: real, y: real, P: real, P': real)
    requires 0.0 < x && 0.0 < y && x + y < P && x * y == P' * P
    ensures P' < 0.25 * P
  {
    var u, q := x + y, 4.0 * P';
    SquareLt(u, P);
    SquareNonNeg(x - y);
    assert Square(u) == Square(x - y) + 4.0 * (x * y);
    assert q * P < P * P by {
      assert q * P == 4.0 * (P' * P);
    }
    CancelLt(q, P, P);
  }

  // ---- how many steps that takes ----

  /** The most f * |f'| can be m steps into the positive phase of a four-way book. */
  function Cap(m: nat): real {
    if m == 0 then 12.0 else 0.25 * Cap(m - 1)
  }

  /** The distance from 1 to the trial point after n bisections of [1,2]. */
  function Half(n: nat): real {
    if n == 0 then 1.0 else 0.5 * Half(n - 1)
  }

  lemma CapFive(n: nat)
    ensures Cap(n + 5) * 1024.0 == Cap(n)
  {
    assert Cap(n + 2) * 16.0 == Cap(n);
    assert Cap(n + 4) * 16.0 == Cap(n + 2);
  }

  lemma HalfTen(n: nat)
    ensures Half(n + 10) * 1024.0 == Half(n)
  {
    assert Half(n + 2) * 4.0 == Half(n);
    assert Half(n + 4) * 4.0 == Half(n + 2);
    assert Half(n + 6) * 4.0 == Half(n + 4);
    assert Half(n + 8) * 4.0 == Half(n + 6);
  }

  lemma StepCounts()
    ensures 4.0 * Half(46) < POWER_TOLERANCE
    ensures Cap(45) <= POWER_TOLERANCE * POWER_TOLERANCE
    ensures 1023.0 * Cap(50) <= POWER_TOLERANCE * POWER_TOLERANCE
  {
    HalfTen(0); HalfTen(10); HalfTen(20); HalfTen(30);
    assert Half(44) * 16.0 == Half(40);
    CapFive(0); CapFive(5); CapFive(10); CapFive(15); CapFive(20);
    CapFive(25); CapFive(30); CapFive(35); CapFive(40); CapFive(45);
  }

  lemma {:induction false} CapFalls(m: nat, n: nat)
    requires m <= n
    ensures 0.0 < Cap(n) <= Cap(m)
  {
    if m < n {
      CapFalls(m, n - 1);
    } else if n > 0 {
      CapFalls(n - 1, n - 1);
    }
  }

  lemma {:induction false} HalfFalls(m: nat, n: nat)
    ensures 0.0 < Half(n) && (m <= n ==> Half(n) <= Half(m))
  {
    if n > 0 {
      HalfFalls(m, n - 1);
    }
  }

  /** The latest iteration by which the positive phase is entered, and how long it can last, for a bracket [1,top]. */
  function Entry(top: real): nat { if top == 2.0 then 46 else 2 }
  function Stay(top: real): nat { if top == 2.0 then 45 else 50 }

  /** Still bisecting towards 1: no trial point had f > 0 yet. */
  ghost predicate Descending(top: real, s: Search, it: nat) {
    s.lo == 1.0 && 1 <= it <= Entry(top) &&
    if top == 2.0 then s.k == 1.0 + Half(it) else it == 1 && s.hi == top && s.k == 1.0 + (top - 1.0) * 0.5
  }

  /** Newton from the left since iteration e. */
  ghost predicate Climbing(exp: real -> real, l: seq<real>, top: real, s: Search, it: nat, e: nat) {
    1 <= e <= it && e <= Entry(top) && 0.0 < F(exp, l, s.k) &&
    Below(F(exp, l, s.k), -DF(exp, l, s.k), Cap(it - e))
  }

  ghost predicate Underway(exp: real -> real, l: seq<real>, top: real, s: Search, it: nat) {
    Bracketed(exp, l, s) && s.hi <= top && F(exp, l, top) <= 0.0 &&
    (Descending(top, s, it) || exists e: nat :: Climbing(exp, l, top, s, it, e))
  }

  /** The doubling search ended at `top`: f is not positive there, and was at half of it unless that is 1. */
  ghost predicate FirstTop(exp: real -> real, l: seq<real>, top: real) {
    2.0 <= top <= 1024.0 && F(exp, l, top) <= 0.0 < F(exp, l, 1.0) &&
    (top == 2.0 || (4.0 <= top && 0.0 < F(exp, l, 0.5 * top)))
  }

  lemma Start(exp: real -> real, l: seq<real>, top: real)
    requires IsExp(exp) && Logs(l) && FirstTop(exp, l, top)
    ensures Underway(exp, l, top, InitialSearch(top), 1)
  {
    var s := InitialSearch(top);
    assert Half(1) == 0.5 * Half(0);
    assert Descending(top, s, 1);
  }

  /** Any positive trial point of a four-way book starts the climb. */
  lemma ClimbStarts(exp: real -> real, l: seq<real>, top: real, s: Search, it: nat)
    requires IsExp(exp) && Logs(l) && |l| <= MAX_OUTCOMES && 1.0 <= s.k && 0.0 < F(exp, l, s.k)
    requires 1 <= it <= Entry(top)
    ensures Climbing(exp, l, top, s, it, it)
  {
    SlopeRange(exp, l, s.k);
    var f, d := F(exp, l, s.k), -DF(exp, l, s.k);
    MulLt(f, 3.0, d);
    assert Below(f, d, Cap(0));
  }

  lemma ClimbStep(exp: real -> real, l: seq<real>, top: real, s: Search, it: nat, e: nat)
    requires IsExp(exp) && Logs(l) && Bracketed(exp, l, s) && Climbing(exp, l, top, s, it, e)
    ensures Climbing(exp, l, top, Next(exp, l, s), it + 1, e)
  {
    var s' := Next(exp, l, s);
    PositiveStep(exp, l, s);
    NewtonQuarters(exp, l, s.k, F(exp, l, s.k), DF(exp, l, s.k),
                   s'.k, F(exp, l, s'.k), DF(exp, l, s'.k), Cap(it - e));
  }

  /** While the residual is above tolerance the climb is short. */
  lemma ClimbEnds(exp: real -> real, l: seq<real>, top: real, s: Search, it: nat, e: nat)
    requires IsExp(exp) && Logs(l) && Bracketed(exp, l, s) && Climbing(exp, l, top, s, it, e)
    requires 2.0 <= top <= 1024.0 && F(exp, l, top) <= 0.0 && s.hi <= top
    requires POWER_TOLERANCE <= F(exp, l, s.k)
    ensures it < e + Stay(top)
  {
    var g, d := DF(exp, l, s.k), top - s.k;
    SlopeRange(exp, l, s.k);
    Tangent(exp, l, s.k, top, d, g);
    ClimbIsShort(F(exp, l, s.k), g, -g, d, top, it - e);
  }

  lemma ClimbIsShort(f: real, g: real, h: real, d: real, top: real, m: nat)
    requires POWER_TOLERANCE <= f && g < 0.0 && h == -g && 0.0 < d <= top - 1.0 && f + d * g < 0.0
    requires 2.0 <= top <= 1024.0 && Below(f, h, Cap(m))
    ensures m < Stay(top)
  {
    StepCounts();
    TooSmall(f, h, d, top - 1.0, Cap(m));
    if Stay(top) <= m {
      CapFalls(Stay(top), m);
      MulLe(top - 1.0, 1023.0, Cap(m));
    }
  }

  lemma TooSmall(f: real, g: real, d: real, w: real, cap: real)
    requires POWER_TOLERANCE <= f && 0.0 < g && 0.0 < d <= w && f + d * -g < 0.0 && Below(f, g, cap)
    ensures POWER_TOLERANCE * POWER_TOLERANCE < w * cap
  {
    var t, fg, wg := POWER_TOLERANCE, f * g, w * g;
    MulLe(d, w, g);
    MulLe(t, f, t);
    MulLe(t, f, f);
    MulLt(f, wg, f);
    assert wg * f == w * fg;
    MulLt(fg, cap, w);
  }

  /** A descending step: stop, or bisect again, or enter the climb. */
  lemma DescentStep(exp: real -> real, l: seq<real>, top: real, s: Search, it: nat)
    requires IsExp(exp) && Logs(l) && |l| <= MAX_OUTCOMES && FirstTop(exp, l, top)
    requires Bracketed(exp, l, s) && Descending(top, s, it) && F(exp, l, s.k) <= -POWER_TOLERANCE
    ensures it < Entry(top)
    ensures var s' := Next(exp, l, s); Descending(top, s', it + 1) || Climbing(exp, l, top, s', it + 1, it + 1)
  {
    var f, g, s' := F(exp, l, s.k), DF(exp, l, s.k), Next(exp, l, s);
    if top == 2.0 {
      DescentBound(exp, l, s.k - 1.0);
      FewHalvings(it);
    }
    StepKeepsBracket(exp, l, s);
    NewtonLands(exp, l, s.k, f, g, NewtonPoint(s.k, f, g));
    if 0.0 < F(exp, l, s'.k) {
      ClimbStarts(exp, l, top, s', it + 1);
    } else if top == 2.0 {
      assert Half(it + 1) == 0.5 * Half(it);
      assert Descending(top, s', it + 1);
    } else {
      Falls(exp, l, s'.k, 0.5 * top);
    }
  }

  lemma FewHalvings(it: nat)
    requires POWER_TOLERANCE < 4.0 * Half(it)
    ensures it < 46
  {
    StepCounts();
    HalfFalls(46, it);
  }

  lemma DescentBound(exp: real -> real, l: seq<real>, d: real)
    requires IsExp(exp) && Logs(l) && |l| <= MAX_OUTCOMES && 0.0 < d && 0.0 < F(exp, l, 1.0)
    ensures -4.0 * d < F(exp, l, 1.0 + d)
  {
    var g := DF(exp, l, 1.0);
    SlopeRange(exp, l, 1.0);
    Tangent(exp, l, 1.0, 1.0 + d, d, g);
    DropIsShort(F(exp, l, 1.0), F(exp, l, 1.0 + d), d, g, d * g);
  }

  lemma DropIsShort(f: real, f': real, d: real, g: real, drop: real)
    requires 0.0 < d && 0.0 < f && -4.0 < g && drop == d * g && f + drop < f'
    ensures -4.0 * d < f'
  {
    MulLt(-4.0, g, d);
  }

  /** One unfinished iteration: the search goes on, and the end is near. */
  lemma Progress(exp: real -> real, l: seq<real>, top: real, s: Search, it: nat)
    requires IsExp(exp) && Logs(l) && |l| <= MAX_OUTCOMES && FirstTop(exp, l, top)
    requires Underway(exp, l, top, s, it)
    requires !(-POWER_TOLERANCE < F(exp, l, s.k) < POWER_TOLERANCE)
    ensures Underway(exp, l, top, Next(exp, l, s), it + 1) && it < 91
  {
    var s' := Next(exp, l, s);
    StepKeepsBracket(exp, l, s);
    if exists e: nat :: Climbing(exp, l, top, s, it, e) {
      var e: nat :| Climbing(exp, l, top, s, it, e);
      ClimbStep(exp, l, top, s, it, e);
      ClimbEnds(exp, l, top, s, it, e);
    } else if 0.0 < F(exp, l, s.k) {
      ClimbStarts(exp, l, top, s, it);
      ClimbStep(exp, l, top, s, it, it);
    } else {
      DescentStep(exp, l, top, s, it);
    }
  }

  // ---- the solver ----

  method EvalF(exp: real -> real, l: seq<real>, k: real) returns (r: real)
    ensures r == F(exp, l, k)
  {
    ghost var t := Terms(exp, l, k);
    var sum, i := 0.0, 0;
    while i < |l|
      invariant 0 <= i <= |l| && sum == Sum(t[..i])
    {
      SumStep(t, i);
      sum := sum + Term(exp, l[i], k);
      i := i + 1;
    }
    assert t[..i] == t;
    r := sum - 1.0;
  }

  method EvalDF(exp: real -> real, l: seq<real>, k: real) returns (r: real)
    ensures r == DF(exp, l, k)
  {
    ghost var t := Slopes(exp, l, k);
    var i := 0;
    r := 0.0;
    while i < |l|
      invariant 0 <= i <= |l| && r == Sum(t[..i])
    {
      SumStep(t, i);
      r := r + TermSlope(exp, l[i], k);
      i := i + 1;
    }
    assert t[..i] == t;
  }

  /** The values the doubling search tries. */
  predicate IsDoubling(top: real) {
    top == 2.0 || top == 4.0 || top == 8.0 || top == 16.0 || top == 32.0 ||
    top == 64.0 || top == 128.0 || top == 256.0 || top == 512.0 || top == 1024.0
  }

  /** Double the right end until f is not positive there, up to 1024. */
  method FindTop(exp: real -> real, l: seq<real>) returns (hi: real, found: bool)
    requires IsExp(exp) && Logs(l) && 0.0 < F(exp, l, 1.0)
    ensures found <==> F(exp, l, 1024.0) <= 0.0
    ensures found ==> IsDoubling(hi) && FirstTop(exp, l, hi)
  {
    hi := 2.0;
    var fhi := EvalF(exp, l, hi);
    while fhi > 0.0 && hi < 1024.0
      invariant fhi == F(exp, l, hi) && IsDoubling(hi)
      invariant hi == 2.0 || 0.0 < F(exp, l, 0.5 * hi)
      decreases 1024.0 - hi
    {
      hi := hi * 2.0;
      fhi := EvalF(exp, l, hi);
    }
    found := fhi <= 0.0;
    if hi < 1024.0 {
      Falls(exp, l, hi, 1024.0);
    }
  }

  lemma TopUnique(exp: real -> real, l: seq<real>, top: real, top': real)
    requires IsExp(exp) && Logs(l)
    requires IsDoubling(top) && FirstTop(exp, l, top) && IsDoubling(top') && FirstTop(exp, l, top')
    ensures top == top'
  {
    if top < top' { TopNotBelow(exp, l, top, 0.5 * top'); }
    if top' < top { TopNotBelow(exp, l, top', 0.5 * top); }
  }

  lemma TopNotBelow(exp: real -> real, l: seq<real>, top: real, half: real)
    requires IsExp(exp) && Logs(l) && 2.0 <= top && F(exp, l, top) <= 0.0 < F(exp, l, half)
    ensures half < top
  {
    if top < half { Falls(exp, l, top, half); }
  }

  ghost predicate Close(exp: real -> real, l: seq<real>, tolerance: real, s: Search) {
    -tolerance < F(exp, l, s.k) < tolerance
  }

  function InitialSearch(top: real): Search { Search(1.0, top, 1.0 + (top - 1.0) * 0.5) }

  /** Which trial points are close. */
  ghost function Hits(exp: real -> real, l: seq<real>, tolerance: real, top: real): nat -> bool {
    (n: nat) => Close(exp, l, tolerance, Run(exp, l, InitialSearch(top), n))
  }

  lemma HitIsClose(exp: real -> real, l: seq<real>, tolerance: real, top: real, n: nat)
    ensures Hits(exp, l, tolerance, top)(n) <==> Close(exp, l, tolerance, Run(exp, l, InitialSearch(top), n))
  {
  }

  ghost predicate UnderwayAt(exp: real -> real, l: seq<real>, top: real, n: nat) {
    Underway(exp, l, top, Run(exp, l, InitialSearch(top), n), n + 1)
  }

  lemma UnderwayFirst(exp: real -> real, l: seq<real>, top: real)
    requires IsExp(exp) && Logs(l) && FirstTop(exp, l, top)
    ensures UnderwayAt(exp, l, top, 0)
  {
    Start(exp, l, top);
  }

  lemma RunOn(exp: real -> real, l: seq<real>, s: Search, m: nat, n: nat)
    requires n == m + 1
    ensures Run(exp, l, s, n) == Next(exp, l, Run(exp, l, s, m))
  {
  }

  lemma NotCloseYet(exp: real -> real, l: seq<real>, tolerance: real, top: real, m: nat, n: nat)
    requires m < n && NoHit(Hits(exp, l, tolerance, top), n)
    ensures !Close(exp, l, tolerance, Run(exp, l, InitialSearch(top), m))
  {
    Missed(Hits(exp, l, tolerance, top), n, m);
    HitIsClose(exp, l, tolerance, top, m);
  }

  lemma UnderwayStep(exp: real -> real, l: seq<real>, top: real, m: nat, n: nat)
    requires IsExp(exp) && Logs(l) && |l| <= MAX_OUTCOMES && FirstTop(exp, l, top)
    requires n == m + 1 && UnderwayAt(exp, l, top, m) && NoHit(Hits(exp, l, POWER_TOLERANCE, top), n)
    ensures UnderwayAt(exp, l, top, n) && n < 91
  {
    var s := Run(exp, l, InitialSearch(top), m);
    NotCloseYet(exp, l, POWER_TOLERANCE, top, m, n);
    Progress(exp, l, top, s, n);
    RunOn(exp, l, InitialSearch(top), m, n);
  }

  lemma {:induction false} StillUnderway(exp: real -> real, l: seq<real>, top: real, n: nat)
    requires IsExp(exp) && Logs(l) && |l| <= MAX_OUTCOMES && FirstTop(exp, l, top)
    requires NoHit(Hits(exp, l, POWER_TOLERANCE, top), n)
    ensures UnderwayAt(exp, l, top, n) && n < 91
  {
    if n == 0 {
      UnderwayFirst(exp, l, top);
    } else {
      var m := n - 1;
      NoHitBefore(Hits(exp, l, POWER_TOLERANCE, top), m, n);
      StillUnderway(exp, l, top, m);
      UnderwayStep(exp, l, top, m, n);
    }
  }

  /** The search comes within 1e-13 of the root in at most 91 trial points, for every bracketed book. */
  lemma SearchConverges(exp: real -> real, l: seq<real>, top: real)
    requires IsExp(exp) && Logs(l) && |l| <= MAX_OUTCOMES && FirstTop(exp, l, top)
    ensures !NoHit(Hits(exp, l, POWER_TOLERANCE, top), 91)
  {
    if NoHit(Hits(exp, l, POWER_TOLERANCE, top), 91) {
      StillUnderway(exp, l, top, 91);
    }
  }

  /** One try: is the point close, and if not, which is next. */
  method TryPoint(exp: real -> real, l: seq<real>, tolerance: real, lo: real, hi: real, k: real)
    returns (close: bool, lo': real, hi': real, k': real)
    ensures close <==> Close(exp, l, tolerance, Search(lo, hi, k))
    ensures !close ==> Search(lo', hi', k') == Next(exp, l, Search(lo, hi, k))
  {
    lo', hi', k' := lo, hi, k;
    var fk := EvalF(exp, l, k);
    close := -tolerance < fk < tolerance;
    if close { return; }
    if fk > 0.0 { lo' := k; } else { hi' := k; }
    var dfk := EvalDF(exp, l, k);
    k' := NewtonPoint(k, fk, dfk);
    if !(k' > lo' && k' < hi') {
      k' := lo' + (hi' - lo') * 0.5;
    }
  }

  /** The state before trial point n, when no point before it was close. */
  ghost predicate SearchingAt(exp: real -> real, l: seq<real>, tolerance: real, top: real, s: Search, n: nat) {
    s == Run(exp, l, InitialSearch(top), n) && NoHit(Hits(exp, l, tolerance, top), n)
  }

  lemma SearchOn(exp: real -> real, l: seq<real>, tolerance: real, top: real, s: Search, n: nat)
    requires SearchingAt(exp, l, tolerance, top, s, n) && !Close(exp, l, tolerance, s)
    ensures SearchingAt(exp, l, tolerance, top, Next(exp, l, s), n + 1)
  {
    HitIsClose(exp, l, tolerance, top, n);
    GoOn(Hits(exp, l, tolerance, top), n);
  }

  lemma SearchFinds(exp: real -> real, l: seq<real>, tolerance: real, top: real, maxIterations: nat, s: Search, n: nat)
    requires SearchingAt(exp, l, tolerance, top, s, n) && Close(exp, l, tolerance, s) && n < maxIterations
    ensures Stops(Hits(exp, l, tolerance, top), maxIterations, Ok, n + 1)
    ensures s == Run(exp, l, InitialSearch(top), LastTried(Ok, n + 1))
  {
    HitIsClose(exp, l, tolerance, top, n);
    StopHere(Hits(exp, l, tolerance, top), maxIterations, n);
  }

  lemma SearchGivesUp(exp: real -> real, l: seq<real>, tolerance: real, top: real, s: Search, n: nat)
    requires SearchingAt(exp, l, tolerance, top, s, n)
    ensures Stops(Hits(exp, l, tolerance, top), n, NotConverged, n)
    ensures s == Run(exp, l, InitialSearch(top), LastTried(NotConverged, n))
  {
  }

  /** The guarded Newton loop: each iteration is one step of `Next`, and it stops at the first close point. */
  method Solve(exp: real -> real, l: seq<real>, top: real, tolerance: real, maxIterations: nat)
    returns (k: real, status: Status, iterations: nat)
    ensures Stops(Hits(exp, l, tolerance, top), maxIterations, status, iterations)
    ensures k == Run(exp, l, InitialSearch(top), LastTried(status, iterations)).k
  {
    var lo, hi := 1.0, top;
    k := lo + (hi - lo) * 0.5;
    iterations := 0;
    while iterations < maxIterations
      invariant iterations <= maxIterations && SearchingAt(exp, l, tolerance, top, Search(lo, hi, k), iterations)
    {
      var close, lo', hi', k' := TryPoint(exp, l, tolerance, lo, hi, k);
      if close {
        SearchFinds(exp, l, tolerance, top, maxIterations, Search(lo, hi, k), iterations);
        return k, Ok, iterations + 1;
      }
      SearchOn(exp, l, tolerance, top, Search(lo, hi, k), iterations);
      lo, hi, k := lo', hi', k';
      iterations := iterations + 1;
    }
    SearchGivesUp(exp, l, tolerance, top, Search(lo, hi, k), iterations);
    status := NotConverged;
  }

  lemma {:induction false} RunBracketed(exp: real -> real, l: seq<real>, top: real, n: nat)
    requires IsExp(exp) && Logs(l) && FirstTop(exp, l, top)
    ensures Bracketed(exp, l, Run(exp, l, InitialSearch(top), n))
  {
    if n == 0 {
      Start(exp, l, top);
    } else {
      RunBracketed(exp, l, top, n - 1);
      StepKeepsBracket(exp, l, Run(exp, l, InitialSearch(top), n - 1));
    }
  }

  /** The search from [1, top] ended with this answer. */
  ghost predicate SolvedFrom(exp: real -> real, l: seq<real>, tolerance: real, maxIterations: nat, top: real,
                             out: DevigResult) {
    IsDoubling(top) && FirstTop(exp, l, top) &&
    Stops(Hits(exp, l, tolerance, top), maxIterations, out.status, out.iterations) &&
    out.param == Run(exp, l, InitialSearch(top), LastTried(out.status, out.iterations)).k
  }

  /** What a solver run on a book with margin returns: nothing if the doubling search fails, else the powers at the
      first trial exponent within tolerance. */
  ghost predicate PowerOutcome(exp: real -> real, l: seq<real>, tolerance: real, maxIterations: nat, out: DevigResult)
    requires |l| <= MAX_OUTCOMES
  {
    (out.normalized <==> out.status == Ok) &&
    if F(exp, l, 1024.0) > 0.0 then
      out.status == NotConverged && out.iterations == 0 && out.param == 1.0 && out.prob == ZEROED.prob
    else
      1.0 < out.param && out.prob == Padded(Terms(exp, l, out.param)) &&
      exists top :: SolvedFrom(exp, l, tolerance, maxIterations, top, out)
  }

  /** The contract is complete: any two answers that meet it agree ... */
  lemma PowerDetermined(exp: real -> real, l: seq<real>, tolerance: real, maxIterations: nat, out: DevigResult,
                        out': DevigResult)
    requires IsExp(exp) && Logs(l) && |l| <= MAX_OUTCOMES && out.count == out'.count
    requires PowerOutcome(exp, l, tolerance, maxIterations, out) && PowerOutcome(exp, l, tolerance, maxIterations, out')
    ensures out == out'
  {
    if F(exp, l, 1024.0) <= 0.0 {
      var top :| SolvedFrom(exp, l, tolerance, maxIterations, top, out);
      var top' :| SolvedFrom(exp, l, tolerance, maxIterations, top', out');
      TopUnique(exp, l, top, top');
      StopsOnce(Hits(exp, l, tolerance, top), maxIterations, out.status, out.iterations, out'.status, out'.iterations);
    }
  }

  /** ... and it solves the equation up to the tolerance. */
  lemma OkIsClose(exp: real -> real, l: seq<real>, tolerance: real, maxIterations: nat, out: DevigResult)
    requires |l| <= MAX_OUTCOMES && out.status == Ok && PowerOutcome(exp, l, tolerance, maxIterations, out)
    ensures 1.0 < out.param && out.prob == Padded(Terms(exp, l, out.param))
    ensures -tolerance < F(exp, l, out.param) < tolerance
  {
    var top :| SolvedFrom(exp, l, tolerance, maxIterations, top, out);
    HitIsClose(exp, l, tolerance, top, LastTried(Ok, out.iterations));
  }

  function Logarithms(log: real -> real, odds: seq<real>): (l: seq<real>)
    requires forall i :: 0 <= i < |odds| ==> odds[i] > 1.0
    ensures |l| == |odds|
  {
    seq(|odds|, i requires 0 <= i < |odds| => log(1.0 / odds[i]))
  }

  method Power(exp: real -> real, log: real -> real, odds: seq<real>, tolerance: real, maxIterations: nat)
    returns (out: DevigResult)
    requires IsExp(exp) && IsLog(exp, log)
    ensures GuardedResult(odds, out)
    ensures ValidOdds(odds) && Sum(Implied(odds)) > 1.0 ==>
      PowerOutcome(exp, Logarithms(log, odds), tolerance, maxIterations, out)
    // with the default settings the solver fails exactly when the doubling search does
    ensures ValidOdds(odds) && Sum(Implied(odds)) > 1.0 && tolerance == POWER_TOLERANCE &&
      maxIterations == POWER_MAX_ITERATIONS
      ==> (out.status == Ok <==> F(exp, Logarithms(log, odds), 1024.0) <= 0.0) && out.iterations <= 91
  {
    if !ValidOdds(odds) {
      return ZEROED;
    }
    var l := Logarithms(log, odds);
    LogsOfBook(exp, log, odds);
    var f1 := EvalF(exp, l, 1.0);
    if f1 <= 0.0 {
      out := NoMargin(odds);
      return;
    }
    var top, found := FindTop(exp, l);
    if !found {
      return ZEROED.(count := |odds|, status := NotConverged);
    }
    var k, status, iterations := Solve(exp, l, top, tolerance, maxIterations);
    RunBracketed(exp, l, top, LastTried(status, iterations));
    SearchConverges(exp, l, top);
    if top < 1024.0 {
      Falls(exp, l, top, 1024.0);
    }
    var prob := TermsAt(exp, l, k);
    out := DevigResult(prob[..], k, iterations, |odds|, status, status == Ok);
    assert SolvedFrom(exp, l, tolerance, maxIterations, top, out);
  }

  method TermsAt(exp: real -> real, l: seq<real>, k: real) returns (prob: array<real>)
    requires |l| <= MAX_OUTCOMES
    ensures fresh(prob) && prob[..] == Padded(Terms(exp, l, k))
  {
    ghost var t := Terms(exp, l, k);
    prob := new real[MAX_OUTCOMES](_ => 0.0);
    var i := 0;
    while i < |l|
      invariant 0 <= i <= |l|
      invariant prob[..i] == t[..i]
      invariant forall j :: i <= j < MAX_OUTCOMES ==> prob[j] == 0.0
    {
      prob[i] := Term(exp, l[i], k);
      i := i + 1;
    }
    assert t[..|l|] == t;
    assert prob[..] == Padded(t);
  }

  /** At k = 1 the terms are the raw probabilities themselves. */
  lemma LogsOfBook(exp: real -> real, log: real -> real, odds: seq<real>)
    requires IsExp(exp) && IsLog(exp, log) && ValidOdds(odds)
    ensures Logs(Logarithms(log, odds)) && F(exp, Logarithms(log, odds), 1.0) == Sum(Implied(odds)) - 1.0
    ensures forall i :: 0 <= i < |odds| ==> exp(Logarithms(log, odds)[i]) == Implied(odds)[i]
  {
    var l, q := Logarithms(log, odds), Implied(odds);
    forall i | 0 <= i < |odds| ensures l[i] < 0.0 && exp(l[i]) == q[i] && Term(exp, l[i], 1.0) == q[i] {
      LogNegative(exp, log, q[i]);
      assert 1.0 * l[i] == l[i];
    }
    assert Terms(exp, l, 1.0) == q;
  }

  /** For every exponent above one, p/q never falls as q grows. */
  lemma PowerTilted(exp: real -> real, l: seq<real>, q: seq<real>, k: real)
    requires IsExp(exp) && Logs(l) && 1.0 <= k && |q| == |l|
    requires forall i :: 0 <= i < |l| ==> exp(l[i]) == q[i]
    ensures Tilted(q, Terms(exp, l, k))
  {
    var p := Terms(exp, l, k);
    forall i, j | 0 <= i < |q| && 0 <= j < |q| ensures KeepsMore(q[i], p[i], q[j], p[j]) {
      RatioOrder(exp, l[i], l[j], k, k * l[i], k * l[j]);
    }
  }

  lemma RatioOrder(exp: real -> real, a: real, b: real, k: real, ka: real, kb: real)
    requires IsExp(exp) && 1.0 <= k && ka == k * a && kb == k * b
    ensures KeepsMore(exp(a), exp(ka), exp(b), exp(kb))
  {
    assert AddLaw(exp, ka, b) && AddLaw(exp, kb, a);
    if exp(a) <= exp(b) {
      if b < a { ExpIncreasing(exp, b, a); }
      var d := b - a;
      MulLe(1.0, k, d);
      if ka + b < kb + a { ExpIncreasing(exp, ka + b, kb + a); }
      assert ka + b == kb + a || ka + b < kb + a;
    }
  }

  /** Every accepted answer is, up to the tolerance, a probability vector with the favourite-longshot correction. */
  lemma PowerAnswer(exp: real -> real, log: real -> real, odds: seq<real>, tolerance: real, maxIterations: nat,
                    out: DevigResult, j: nat)
    requires IsExp(exp) && IsLog(exp, log) && ValidOdds(odds) && Sum(Implied(odds)) > 1.0
    requires GuardedResult(odds, out) && PowerOutcome(exp, Logarithms(log, odds), tolerance, maxIterations, out)
    requires out.status == Ok && j < |odds|
    ensures var q, p := Implied(odds), out.prob[..out.count];
      Tilted(q, p) && 0.0 < p[j] < 1.0 && 1.0 - tolerance < Sum(p) < 1.0 + tolerance &&
      ((forall i :: 0 <= i < |q| ==> q[j] <= q[i]) ==> CrossLe(p[j], Sum(q), q[j], 1.0 + tolerance)) &&
      ((forall i :: 0 <= i < |q| ==> q[i] <= q[j]) ==> CrossLe(q[j], 1.0 - tolerance, p[j], Sum(q)))
  {
    var q, p, l := Implied(odds), out.prob[..out.count], Logarithms(log, odds);
    OkIsClose(exp, l, tolerance, maxIterations, out);
    assert p == Terms(exp, l, out.param);
    LogsOfBook(exp, log, odds);
    PowerTilted(exp, l, q, out.param);
    TermRange(exp, l[j], out.param);
    TiltWithTolerance(q, p, j, tolerance);
  }

  // ---- on which books the doubling search succeeds ----

  /** The logarithm of 1/o lies strictly between 1 - o and 1/o - 1. */
  lemma LogBetween(exp: real -> real, log: real -> real, o: real, q: real, l: real)
    requires IsExp(exp) && IsLog(exp, log) && 1.0 < o && 0.0 < q < 1.0 && q * o == 1.0 && l == log(q)
    ensures exp(l) == q && 1.0 - o < l < q - 1.0
  {
    assert LogLaw(exp, log, q);
    ExpZero(exp);
    assert TangentLaw(exp, l) && TangentLaw(exp, -l) && AddLaw(exp, l, -l);
    assert l + -l == 0.0;
    CancelEq(exp(-l), o, q);
  }

  /** The search succeeds whenever 1024 times every gap 1 - q reaches the number of outcomes less one. */
  lemma WideBooksAreBracketed(exp: real -> real, log: real -> real, odds: seq<real>)
    requires IsExp(exp) && IsLog(exp, log) && ValidOdds(odds)
    requires forall i :: 0 <= i < |odds| ==> |odds| as real - 1.0 <= 1024.0 * (1.0 - Implied(odds)[i])
    ensures F(exp, Logarithms(log, odds), 1024.0) <= 0.0
  {
    var l, n := Logarithms(log, odds), |odds| as real;
    var share := 1.0 / n;
    DivPos(1.0, n, share);
    var t, u := Terms(exp, l, 1024.0), seq(|odds|, i => share);
    forall i | 0 <= i < |odds| ensures t[i] <= u[i] {
      var q := Implied(odds)[i];
      LogBetween(exp, log, odds[i], q, l[i]);
      SmallPower(exp, l[i], n, share);
    }
    SumLe(t, u);
    SumConst(u, share, n);
  }

  lemma SmallPower(exp: real -> real, l: real, n: real, share: real)
    requires IsExp(exp) && l < 0.0 && 0.0 < n && n * share == 1.0 && n - 1.0 <= -1024.0 * l
    ensures Term(exp, l, 1024.0) <= share
  {
    var x := 1024.0 * l;
    ExpZero(exp);
    ExpPositive(exp, x);
    assert TangentLaw(exp, -x) && AddLaw(exp, x, -x);
    assert x + -x == 0.0;
    var a, b := exp(x), exp(-x);
    MulLe(n, b, a);
    assert n * a <= n * share;
    CancelLe(a, share, n);
  }

  /** Two outcomes at odds of at least 1.001, the least a quote can carry, are always solved. */
  lemma TwoBettablePricesAreBracketed(exp: real -> real, log: real -> real, odds: seq<real>)
    requires IsExp(exp) && IsLog(exp, log) && ValidOdds(odds) && |odds| <= 2
    requires forall i :: 0 <= i < |odds| ==> odds[i] >= 1.001
    ensures F(exp, Logarithms(log, odds), 1024.0) <= 0.0
  {
    forall i | 0 <= i < |odds| ensures |odds| as real - 1.0 <= 1024.0 * (1.0 - Implied(odds)[i]) {
      var o, q := odds[i], Implied(odds)[i];
      MulLe(1.001, o, q);
      assert 1.001 * q <= 1.0;
    }
    WideBooksAreBracketed(exp, log, odds);
  }

  /** Three are not: at odds of 1.001 each, all legal quotes, the search runs past 1024 and the method gives up. */
  lemma ThreeShortPricesAreNotBracketed(exp: real -> real, log: real -> real)
    requires IsExp(exp) && IsLog(exp, log)
    ensures var odds := [1.001, 1.001, 1.001];
      ValidOdds(odds) && Sum(Implied(odds)) > 1.0 && F(exp, Logarithms(log, odds), 1024.0) > 0.0
  {
    var odds := [1.001, 1.001, 1.001];
    var q, l := Implied(odds), Logarithms(log, odds);
    var x := l[0];
    assert q[0] * 1.001 == 1.0;
    SumConst(q, q[0], 3.0);
    LogBetween(exp, log, 1.001, q[0], x);
    LargePower(exp, x);
    var t := Terms(exp, l, 1024.0);
    SumConst(t, t[0], 3.0);
  }

  lemma LargePower(exp: real -> real, l: real)
    requires IsExp(exp) && -0.001 < l < 0.0
    ensures 3.0 * Term(exp, l, 1024.0) > 1.0
  {
    var a, b, c, d := 128.0 * l, 256.0 * l, 512.0 * l, 1024.0 * l;
    assert TangentLaw(exp, a) && AddLaw(exp, a, a) && AddLaw(exp, b, b) && AddLaw(exp, c, c);
    assert a + a == b && b + b == c && c + c == d;
    assert exp(a) > 0.872;
    SquareLt(0.872, exp(a));
    SquareLt(0.76, exp(b));
    SquareLt(0.5776, exp(c));
  }
}
