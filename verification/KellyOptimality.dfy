/** The full-Kelly portfolio is log-optimal against every portfolio without leverage, for any number of outcomes. */
module KellyOptimality {
  import opened Reals
  import opened Sums
  import opened Kelly

  /** A portfolio: non-negative stakes that total at most the bankroll. */
  ghost predicate Portfolio(g: seq<real>, n: nat) {
    |g| == n && Sum(g) <= 1.0 && forall i :: 0 <= i < n ==> 0.0 <= g[i]
  }

  function Payoff(spare: real, stake: real, price: real): real { spare + stake * price }

  /** Wealth when outcome j comes in: what was not staked, plus the winning stake at its price. */
  function Wealth(g: seq<real>, o: seq<real>, j: nat): real
    requires j < |g| == |o|
  {
    Payoff(1.0 - Sum(g), g[j], o[j])
  }

  /** p * W'/W, the outcome's part of the optimality condition; outcomes thought impossible play no part. */
  function Part(p: real, w': real, w: real): real {
    if p > 0.0 && w != 0.0 then p * w' / w else 0.0
  }

  function Parts(p: seq<real>, o: seq<real>, f: seq<real>, g: seq<real>): (r: seq<real>)
    requires |p| == |o| == |f| == |g|
    ensures |r| == |p|
  {
    seq(|p|, j requires 0 <= j < |p| => Part(p[j], Wealth(g, o, j), Wealth(f, o, j)))
  }

  /** The wealth the reserve rate leads to: p*o for a staked outcome, R for the others. */
  lemma KellyWealth(p: real, o: real, R: real, w: real)
    requires o > 1.0 && w == Payoff(R, Stake(p, o, R), o)
    ensures w == if Edge(p, o) > R then Edge(p, o) else R
  {
    var q := R / o;
    DivMul(R, o, q);
    assert (p - q) * o == p * o - q * o;
  }

  ghost predicate PartBound(t: real, spare: real, c: real, g: real) { t <= spare * c + g }

  ghost predicate Scaled(c: real, R: real, x: real) { c * R == x }

  /** What one unit kept in reserve is worth to the outcome's part: 1/o if staked, p/R if not. */
  function Multiplier(p: real, o: real, R: real): real
    requires o > 1.0
  {
    if Edge(p, o) > R then 1.0 / o else if R > 0.0 then p / R else 0.0
  }

  /** One outcome's part is at most spare * c + g, where c * R is the belief that is not staked. */
  lemma OnePart(p: real, o: real, R: real, spare: real, g: real, w: real, w': real, c: real)
    requires o > 1.0 && c == Multiplier(p, o, R) && 0.0 <= p && 0.0 <= R && 0.0 <= spare && 0.0 <= g
    requires w == Payoff(R, Stake(p, o, R), o) && w' == Payoff(spare, g, o)
    ensures PartBound(Part(p, w', w), spare, c, g) && Scaled(c, R, p - Stake(p, o, R))
    ensures R == 0.0 ==> c == BetShare(p, o, R)
  {
    KellyWealth(p, o, R, w);
    if Edge(p, o) > R {
      DivMul(1.0, o, c);
      if p > 0.0 {
        StakedPart(p, o, spare, g, w, w', c, Part(p, w', w));
      } else {
        DivPos(1.0, o, c);
        ProductNonNeg(spare, c, spare * c);
      }
      var q := R / o;
      DivMul(R, o, q);
      assert (c * R) * o == q * o;
      CancelEq(c * R, q, o);
    } else if R > 0.0 {
      DivMul(p, R, c);
      UnstakedPart(p, o, R, spare, g, w', c, Part(p, w', w));
    } else {
      if p > 0.0 { ProductPos(p, o, Edge(p, o)); }
    }
  }

  lemma StakedPart(p: real, o: real, spare: real, g: real, w: real, w': real, c: real, t: real)
    requires 0.0 < p && o > 1.0 && w == p * o && w' == spare + g * o && c * o == 1.0 && t == Part(p, w', w)
    ensures t == spare * c + g
  {
    ProductPos(p, o, w);
    var n, u := p * w', spare * c + g;
    DivMul(n, w, t);
    assert u * o == w' by { assert u * o == spare * (c * o) + g * o; }
    assert u * w == p * (u * o);
    CancelEq(t, u, w);
  }

  lemma UnstakedPart(p: real, o: real, R: real, spare: real, g: real, w': real, c: real, t: real)
    requires 0.0 <= p && o > 1.0 && 0.0 < R && 0.0 <= spare && 0.0 <= g && Edge(p, o) <= R
    requires w' == spare + g * o && c * R == p && t == Part(p, w', R)
    ensures PartBound(t, spare, c, g)
  {
    if p > 0.0 {
      var n, e := p * w', Edge(p, o);
      DivMul(n, R, t);
      var u, sc := spare * c + g, spare * c;
      MulLe(e, R, g);
      assert n == p * spare + e * g by { assert n == p * spare + p * (g * o); assert p * (g * o) == e * g; }
      assert u * R == spare * p + g * R by { assert u * R == spare * (c * R) + g * R; }
      CancelLe(t, u, R);
    } else {
      assert c == 0.0;
    }
  }

  lemma {:induction false} SumPartBound(t: seq<real>, spare: real, c: seq<real>, g: seq<real>, st: real, sc: real,
                                        sg: real)
    requires |t| == |c| == |g| && st == Sum(t) && sc == Sum(c) && sg == Sum(g)
    requires forall i :: 0 <= i < |t| ==> PartBound(t[i], spare, c[i], g[i])
    ensures PartBound(st, spare, sc, sg)
  {
    if t != [] {
      var m := |t| - 1;
      SumPartBound(t[..m], spare, c[..m], g[..m], Sum(t[..m]), Sum(c[..m]), Sum(g[..m]));
      AddPartBounds(Sum(t[..m]), Sum(c[..m]), Sum(g[..m]), t[m], c[m], g[m], spare, st, sc, sg);
    }
  }

  lemma AddPartBounds(a: real, b: real, c: real, x: real, y: real, z: real, spare: real, sx: real, sy: real, sz: real)
    requires PartBound(a, spare, b, c) && PartBound(x, spare, y, z)
    requires sx == a + x && sy == b + y && sz == c + z
    ensures PartBound(sx, spare, sy, sz)
  {
    assert spare * sy == spare * b + spare * y;
  }

  lemma {:induction false} SumScaled(c: seq<real>, R: real, x: seq<real>, sc: real, sx: real)
    requires |c| == |x| && sc == Sum(c) && sx == Sum(x)
    requires forall i :: 0 <= i < |c| ==> Scaled(c[i], R, x[i])
    ensures Scaled(sc, R, sx)
  {
    if c != [] {
      var m := |c| - 1;
      SumScaled(c[..m], R, x[..m], Sum(c[..m]), Sum(x[..m]));
      AddScaled(Sum(c[..m]), c[m], R, Sum(x[..m]), x[m], sc, sx);
    }
  }

  lemma AddScaled(a: real, b: real, R: real, x: real, y: real, s: real, sx: real)
    requires Scaled(a, R, x) && Scaled(b, R, y) && s == a + b && sx == x + y
    ensures Scaled(s, R, sx)
  {
    assert s * R == a * R + b * R;
  }

  /** Scaled by R, the multipliers c of all outcomes come to R and what the beliefs exceed one. */
  lemma MultipliersScaled(p: seq<real>, o: seq<real>, R: real, c: seq<real>)
    requires Market(p, o) && IsReserve(p, o, R) && |c| == |p|
    requires forall i :: 0 <= i < |p| ==> Scaled(c[i], R, p[i] - Stakes(p, o, R)[i])
    ensures Scaled(Sum(c), R, R + (Sum(p) - 1.0))
  {
    var f := Stakes(p, o, R);
    var x := seq(|p|, i requires 0 <= i < |p| => p[i] - f[i]);
    SumAdd(f, x, p);
    SumScaled(c, R, x, Sum(c), Sum(x));
  }

  /** While beliefs total at most one, the multipliers do too. */
  lemma MultipliersTotal(p: seq<real>, o: seq<real>, R: real, c: seq<real>)
    requires Market(p, o) && Sum(p) <= 1.0 && IsReserve(p, o, R) && 0.0 <= R && |c| == |p|
    requires forall i :: 0 <= i < |p| ==> Scaled(c[i], R, p[i] - Stakes(p, o, R)[i])
    requires R == 0.0 ==> c == BetShares(p, o, R)
    ensures Sum(c) <= 1.0
  {
    if R != 0.0 {
      MultipliersScaled(p, o, R, c);
      UnitScale(Sum(c), R, R + (Sum(p) - 1.0));
    }
  }

  lemma UnitScale(s: real, R: real, x: real)
    requires 0.0 < R && x <= R && Scaled(s, R, x)
    ensures s <= 1.0
  {
    CancelLe(s, 1.0, R);
  }

  function Multipliers(p: seq<real>, o: seq<real>, R: real): (c: seq<real>)
    requires Market(p, o)
    ensures |c| == |p|
  {
    seq(|p|, j requires 0 <= j < |p| => Multiplier(p[j], o[j], R))
  }

  lemma PartsBounded(p: seq<real>, o: seq<real>, R: real, g: seq<real>, spare: real)
    requires Market(p, o) && IsReserve(p, o, R) && 0.0 <= R && Portfolio(g, |p|) && spare == 1.0 - Sum(g)
    ensures forall j :: 0 <= j < |p| ==>
      PartBound(Parts(p, o, Stakes(p, o, R), g)[j], spare, Multipliers(p, o, R)[j], g[j])
    ensures forall j :: 0 <= j < |p| ==> Scaled(Multipliers(p, o, R)[j], R, p[j] - Stakes(p, o, R)[j])
    ensures R == 0.0 ==> Multipliers(p, o, R) == BetShares(p, o, R)
  {
    var f, c := Stakes(p, o, R), Multipliers(p, o, R);
    assert 1.0 - Sum(f) == R;
    forall j | 0 <= j < |p|
      ensures PartBound(Parts(p, o, f, g)[j], spare, c[j], g[j]) && Scaled(c[j], R, p[j] - f[j])
      ensures R == 0.0 ==> c[j] == BetShares(p, o, R)[j]
    {
      assert Wealth(f, o, j) == Payoff(R, Stake(p[j], o[j], R), o[j]);
      OnePart(p[j], o[j], R, spare, g[j], Wealth(f, o, j), Wealth(g, o, j), c[j]);
    }
  }

  /** The optimality condition against every competing portfolio g, for any number of outcomes and any beliefs that
      total at most one. */
  lemma KellyOptimal(p: seq<real>, o: seq<real>, R: real, g: seq<real>)
    requires Market(p, o) && Sum(p) <= 1.0 && IsReserve(p, o, R) && 0.0 <= R && Portfolio(g, |p|)
    ensures Sum(Parts(p, o, Stakes(p, o, R), g)) <= 1.0
  {
    var t, spare, c := Parts(p, o, Stakes(p, o, R), g), 1.0 - Sum(g), Multipliers(p, o, R);
    PartsBounded(p, o, R, g, spare);
    MultipliersTotal(p, o, R, c);
    SumPartBound(t, spare, c, g, Sum(t), Sum(c), Sum(g));
    FullySpent(Sum(t), spare, Sum(c), Sum(g));
  }

  /** For beliefs of any total: at a positive reserve rate the condition is missed by at most their excess over one,
      divided by R. */
  lemma KellyNearlyOptimal(p: seq<real>, o: seq<real>, R: real, g: seq<real>)
    requires Market(p, o) && IsReserve(p, o, R) && 0.0 < R && Portfolio(g, |p|)
    ensures NearlyMet(Sum(Parts(p, o, Stakes(p, o, R), g)), R, 1.0 - Sum(g), Sum(p) - 1.0)
  {
    var t, spare, c := Parts(p, o, Stakes(p, o, R), g), 1.0 - Sum(g), Multipliers(p, o, R);
    PartsBounded(p, o, R, g, spare);
    SumPartBound(t, spare, c, g, Sum(t), Sum(c), Sum(g));
    MultipliersScaled(p, o, R, c);
    MissBounded(Sum(t), R, spare, Sum(c), Sum(g), Sum(p) - 1.0);
  }

  ghost predicate NearlyMet(t: real, R: real, spare: real, excess: real) { R * (t - 1.0) <= spare * excess }

  lemma MissBounded(t: real, R: real, spare: real, c: real, g: real, excess: real)
    requires 0.0 < R && PartBound(t, spare, c, g) && spare == 1.0 - g && Scaled(c, R, R + excess)
    ensures NearlyMet(t, R, spare, excess)
  {
    var u := spare * c + g;
    MulLe(t, u, R);
    assert u * R == spare * (c * R) + g * R;
    assert spare * (R + excess) == spare * R + spare * excess;
  }

  /** Full Kelly never goes broke on an outcome thought possible. */
  lemma KellySolvent(p: seq<real>, o: seq<real>, R: real, j: nat)
    requires Market(p, o) && IsReserve(p, o, R) && 0.0 <= R && j < |p| && p[j] > 0.0
    ensures Wealth(Stakes(p, o, R), o, j) > 0.0
  {
    KellyWealth(p[j], o[j], R, Wealth(Stakes(p, o, R), o, j));
    ProductPos(p[j], o[j], Edge(p[j], o[j]));
  }

  lemma FullySpent(t: real, spare: real, c: real, g: real)
    requires PartBound(t, spare, c, g) && 0.0 <= spare && c <= 1.0 && spare == 1.0 - g
    ensures t <= 1.0
  {
    MulLe(c, 1.0, spare);
  }

  // ---- expected log wealth ----

  ghost predicate LogOfProduct(L: real -> real, x: real, y: real) {
    0.0 < x && 0.0 < y ==> L(x * y) == L(x) + L(y)
  }

  ghost predicate LogBelowLine(L: real -> real, x: real) { 0.0 < x ==> L(x) <= x - 1.0 }

  /** All that is used of the logarithm. */
  ghost predicate IsLogLike(L: real -> real) {
    (forall x, y :: LogOfProduct(L, x, y)) && forall x :: LogBelowLine(L, x)
  }

  /** p * L(w), with nothing for an outcome thought impossible. */
  function Weighted(L: real -> real, p: real, w: real): real {
    if p > 0.0 then p * L(w) else 0.0
  }

  function ExpectedLog(L: real -> real, p: seq<real>, o: seq<real>, g: seq<real>): real
    requires |p| == |o| == |g|
  {
    Sum(seq(|p|, j requires 0 <= j < |p| => Weighted(L, p[j], Wealth(g, o, j))))
  }

  /** Never broke on an outcome thought possible. */
  ghost predicate Solvent(p: seq<real>, o: seq<real>, g: seq<real>)
    requires |p| == |o| == |g|
  {
    forall j :: 0 <= j < |p| && p[j] > 0.0 ==> Wealth(g, o, j) > 0.0
  }

  lemma LogOfOne(L: real -> real)
    requires IsLogLike(L)
    ensures L(1.0) == 0.0
  {
    assert LogOfProduct(L, 1.0, 1.0);
    assert 1.0 * 1.0 == 1.0;
  }

  lemma LogGain(L: real -> real, p: real, w: real, w': real)
    requires IsLogLike(L) && 0.0 <= p && (p > 0.0 ==> 0.0 < w && 0.0 < w')
    ensures Weighted(L, p, w') <= Weighted(L, p, w) + (Part(p, w', w) - p)
  {
    if p > 0.0 {
      var r := w' / w;
      DivPos(w', w, r);
      assert LogOfProduct(L, r, w) && LogBelowLine(L, r);
      assert r * w == w';
      var a, b, d := L(w'), L(w), r - 1.0;
      MulLe(a - b, d, p);
      var t, n := Part(p, w', w), p * w';
      DivMul(n, w, t);
      var pr := p * r;
      assert pr * w == p * (r * w);
      CancelEq(t, pr, w);
      assert (a - b) * p == p * a - p * b;
      assert d * p == pr - p;
    }
  }

  /** What one portfolio's expected log wealth exceeds another's by is bounded by the sum of the parts. */
  lemma ExpectedLogGain(L: real -> real, p: seq<real>, o: seq<real>, f: seq<real>, g: seq<real>)
    requires IsLogLike(L) && |p| == |o| == |f| == |g| && forall j :: 0 <= j < |p| ==> 0.0 <= p[j]
    requires Solvent(p, o, f) && Solvent(p, o, g)
    ensures ExpectedLog(L, p, o, g) <= ExpectedLog(L, p, o, f) + (Sum(Parts(p, o, f, g)) - Sum(p))
  {
    var t := Parts(p, o, f, g);
    var ef := seq(|p|, j requires 0 <= j < |p| => Weighted(L, p[j], Wealth(f, o, j)));
    var eg := seq(|p|, j requires 0 <= j < |p| => Weighted(L, p[j], Wealth(g, o, j)));
    var d := seq(|p|, j requires 0 <= j < |p| => t[j] - p[j]);
    var b := seq(|p|, j requires 0 <= j < |p| => ef[j] + d[j]);
    forall j | 0 <= j < |p| ensures eg[j] <= b[j] {
      LogGain(L, p[j], Wealth(f, o, j), Wealth(g, o, j));
    }
    SumLe(eg, b);
    SumAdd(ef, d, b);
    SumAdd(p, d, t);
  }

  /** No portfolio that stays solvent on every possible outcome has a higher expected log wealth, beyond what the
      beliefs fall short of one. */
  lemma KellyMaximisesLogWealth(L: real -> real, p: seq<real>, o: seq<real>, R: real, g: seq<real>)
    requires IsLogLike(L) && Market(p, o) && Sum(p) <= 1.0 && IsReserve(p, o, R) && 0.0 <= R && Portfolio(g, |p|)
    requires Solvent(p, o, g)
    ensures ExpectedLog(L, p, o, g) <= ExpectedLog(L, p, o, Stakes(p, o, R)) + (1.0 - Sum(p))
  {
    KellyOptimal(p, o, R, g);
    forall j | 0 <= j < |p| && p[j] > 0.0 ensures Wealth(Stakes(p, o, R), o, j) > 0.0 {
      KellySolvent(p, o, R, j);
    }
    ExpectedLogGain(L, p, o, Stakes(p, o, R), g);
  }

  // ---- betting a fraction ----

  /** v is c parts w and the rest one. */
  ghost predicate Blend(v: real, c: real, w: real) { v == c * w + (1.0 - c) }

  ghost predicate AtLeastPart(c: real, x: real, y: real) { c * x <= y }

  lemma BlendPositive(v: real, c: real, w: real)
    requires Blend(v, c, w) && 0.0 <= c <= 1.0 && 0.0 < w
    ensures 0.0 < v
  {
    var cw := c * w;
    if c > 0.0 { ProductPos(c, w, cw); } else { assert cw == 0.0; }
  }

  /** Betting the fraction c of every stake keeps at least that fraction of the expected log wealth. */
  lemma OneFraction(L: real -> real, p: real, w: real, v: real, c: real)
    requires IsLogLike(L) && 0.0 <= p && 0.0 <= c <= 1.0 && (p > 0.0 ==> 0.0 < w) && Blend(v, c, w)
    ensures p > 0.0 ==> 0.0 < v
    ensures AtLeastPart(c, Weighted(L, p, w), Weighted(L, p, v))
  {
    if p > 0.0 {
      BlendPositive(v, c, w);
      var r, u, a, b := w / v, 1.0 / v, L(w), L(v);
      DivPos(w, v, r);
      DivPos(1.0, v, u);
      assert r * v == w && u * v == 1.0;
      assert LogBelowLine(L, r) && LogBelowLine(L, u);
      LogOfNamedProduct(L, r, v, w);
      LogOfNamedProduct(L, u, v, 1.0);
      LogOfOne(L);
      FractionGains(c, 1.0 - c, r, u, v, w, a, b);
      var ac := a * c;
      MulLe(ac, b, p);
      assert c * (p * a) == ac * p;
    }
  }

  lemma LogOfNamedProduct(L: real -> real, x: real, y: real, m: real)
    requires IsLogLike(L) && 0.0 < x && 0.0 < y && m == x * y
    ensures L(m) == L(x) + L(y)
  {
    assert LogOfProduct(L, x, y);
  }

  lemma FractionGains(c: real, d: real, r: real, u: real, v: real, w: real, a: real, b: real)
    requires 0.0 <= c && 0.0 <= d && d == 1.0 - c && 0.0 < v && r * v == w && u * v == 1.0 && Blend(v, c, w)
    requires a - b <= r - 1.0 && -b <= u - 1.0
    ensures a * c <= b
  {
    var rc, ud := r * c, u * d;
    PartsOfOne(c, d, r, u, v, w, rc, ud);
    var x, y, nb, t := a - b, r - 1.0, -b, u - 1.0;
    var xc, yc, nd, td := x * c, y * c, nb * d, t * d;
    assert xc <= yc by { MulLe(x, y, c); }
    assert nd <= td by { MulLe(nb, t, d); }
    var ac, bc, bd := a * c, b * c, b * d;
    assert xc == ac - bc;
    assert yc == rc - c;
    assert nd == -bd;
    assert td == ud - d;
    assert bd == b - bc;
  }

  lemma PartsOfOne(c: real, d: real, r: real, u: real, v: real, w: real, rc: real, ud: real)
    requires d == 1.0 - c && 0.0 < v && r * v == w && u * v == 1.0 && Blend(v, c, w) && rc == r * c && ud == u * d
    ensures rc + ud == 1.0
  {
    assert rc * v == c * w by { assert rc * v == (r * v) * c; }
    assert ud * v == d by { assert ud * v == (u * v) * d; }
    var s := rc + ud;
    assert s * v == rc * v + ud * v;
    CancelEq(s, 1.0, v);
  }

  ghost predicate IsPart(x: real, c: real, y: real) { x == c * y }

  ghost predicate IsFraction(s: seq<real>, c: real, f: seq<real>) {
    |s| == |f| && forall i :: 0 <= i < |s| ==> IsPart(s[i], c, f[i])
  }

  lemma FractionWealth(o: seq<real>, s: seq<real>, c: real, f: seq<real>, j: nat)
    requires IsFraction(s, c, f) && j < |o| == |f|
    ensures Blend(Wealth(s, o, j), c, Wealth(f, o, j))
  {
    var t := Sum(f);
    forall i | 0 <= i < |s| ensures s[i] == c * f[i] { assert IsPart(s[i], c, f[i]); }
    SumScale(f, s, c, t);
    BlendPayoff(c, t, c * t, f[j], s[j], o[j]);
  }

  lemma BlendPayoff(c: real, t: real, ct: real, x: real, cx: real, q: real)
    requires ct == c * t && cx == c * x
    ensures Blend(Payoff(1.0 - ct, cx, q), c, Payoff(1.0 - t, x, q))
  {
    var xq := x * q;
    assert cx * q == c * xq;
    assert c * (1.0 - t + xq) == c - ct + c * xq;
  }

  lemma FractionKeepsGrowth(L: real -> real, p: seq<real>, o: seq<real>, s: seq<real>, c: real, f: seq<real>)
    requires IsLogLike(L) && Market(p, o) && |f| == |p| && Solvent(p, o, f) && IsFraction(s, c, f) && 0.0 <= c <= 1.0
    ensures Solvent(p, o, s) && AtLeastPart(c, ExpectedLog(L, p, o, f), ExpectedLog(L, p, o, s))
  {
    var ef := seq(|p|, j requires 0 <= j < |p| => Weighted(L, p[j], Wealth(f, o, j)));
    var es := seq(|p|, j requires 0 <= j < |p| => Weighted(L, p[j], Wealth(s, o, j)));
    forall j | 0 <= j < |p| ensures AtLeastPart(c, ef[j], es[j]) && (p[j] > 0.0 ==> Wealth(s, o, j) > 0.0) {
      FractionWealth(o, s, c, f, j);
      OneFraction(L, p[j], Wealth(f, o, j), Wealth(s, o, j), c);
    }
    SumAtLeastPart(c, ef, es, Sum(ef), Sum(es));
  }

  lemma {:induction false} SumAtLeastPart(c: real, a: seq<real>, b: seq<real>, sa: real, sb: real)
    requires |a| == |b| && sa == Sum(a) && sb == Sum(b)
    requires forall i :: 0 <= i < |a| ==> AtLeastPart(c, a[i], b[i])
    ensures AtLeastPart(c, sa, sb)
  {
    if a != [] {
      var m := |a| - 1;
      SumAtLeastPart(c, a[..m], b[..m], Sum(a[..m]), Sum(b[..m]));
      AddAtLeastParts(c, Sum(a[..m]), Sum(b[..m]), a[m], b[m], sa, sb);
    }
  }

  lemma AtLeastPartOfLess(c: real, x: real, e: real, y: real)
    requires 0.0 <= c && x <= e && AtLeastPart(c, e, y)
    ensures AtLeastPart(c, x, y)
  {
    MulLe(x, e, c);
  }

  lemma AddAtLeastParts(c: real, a: real, b: real, x: real, y: real, s: real, t: real)
    requires AtLeastPart(c, a, b) && AtLeastPart(c, x, y) && s == a + x && t == b + y
    ensures AtLeastPart(c, s, t)
  {
    assert c * s == c * a + c * x;
  }

  /** Betting nothing leaves the bankroll as it is. */
  lemma NothingGainsNothing(L: real -> real, p: seq<real>, o: seq<real>, g: seq<real>)
    requires IsLogLike(L) && |p| == |o| == |g| && forall j :: 0 <= j < |p| ==> g[j] == 0.0
    ensures Portfolio(g, |p|) && Solvent(p, o, g) && ExpectedLog(L, p, o, g) == 0.0
  {
    SumConst(g, 0.0, |p| as real);
    LogOfOne(L);
    var e := seq(|p|, j requires 0 <= j < |p| => Weighted(L, p[j], Wealth(g, o, j)));
    forall j | 0 <= j < |p| ensures Wealth(g, o, j) == 1.0 && e[j] == 0.0 {
      assert Wealth(g, o, j) == 1.0 - 0.0 + 0.0 * o[j];
    }
    SumConst(e, 0.0, |p| as real);
  }

  /** Full Kelly loses at most what the beliefs fall short of one; with beliefs that total one it never loses. */
  lemma KellyGrows(L: real -> real, p: seq<real>, o: seq<real>, R: real)
    requires IsLogLike(L) && Market(p, o) && Sum(p) <= 1.0 && IsReserve(p, o, R) && 0.0 <= R
    ensures Sum(p) - 1.0 <= ExpectedLog(L, p, o, Stakes(p, o, R))
  {
    var nothing := seq(|p|, i => 0.0);
    NothingGainsNothing(L, p, o, nothing);
    KellyMaximisesLogWealth(L, p, o, R, nothing);
  }
}
