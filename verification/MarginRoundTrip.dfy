/** From belief to price and back: what the multiplicative method recovers from a proportionally shaded quote. */
module MarginRoundTrip {
  import opened Messages
  import opened Reals
  import opened Sums
  import opened Devig
  import opened Bookmaker

  /** The relative error of a recovered probability. */
  const RECOVERY: real := 2.0 * DELTA / (1.0 - DELTA)

  /** The decimal odds a consumer reads from a quote. */
  function Decimal(odds: OddsArray): (o: seq<real>)
    ensures |o| == OUTCOMES && forall i :: 0 <= i < OUTCOMES ==> o[i] == odds[i] as real / 1000.0
  {
    seq(OUTCOMES, i requires 0 <= i < OUTCOMES => odds[i] as real / 1000.0)
  }

  lemma DecimalIsValid(odds: OddsArray)
    requires forall i :: 0 <= i < OUTCOMES ==> MIN_ODDS_MILLI <= odds[i]
    ensures ValidOdds(Decimal(odds))
    ensures forall i :: 0 <= i < OUTCOMES ==> Implied(Decimal(odds))[i] == ImpliedBy(odds[i])
  {
    forall i | 0 <= i < OUTCOMES ensures Decimal(odds)[i] > 1.0 {}
    forall i | 0 <= i < OUTCOMES ensures Implied(Decimal(odds))[i] == ImpliedBy(odds[i]) {
      SameImplied(odds[i] as real, Decimal(odds)[i], Implied(Decimal(odds))[i], ImpliedBy(odds[i]));
    }
  }

  lemma SameImplied(o: real, d: real, u: real, w: real)
    requires 0.0 < o && d == o / 1000.0 && u * d == 1.0 && w == 1000.0 / o
    ensures u == w
  {
    DivMul(1000.0, o, w);
    assert u * o == 1000.0;
    CancelEq(u, w, o);
  }

  function HeldAll(q: Probs): Probs { seq(OUTCOMES, i requires 0 <= i < OUTCOMES => Held(q[i])) }

  /** For every shading model the quoted book sum is within DELTA of what the clamp leaves of the intended one, and of
      the whole intended one if the clamp leaves all prices alone. */
  lemma BooksumWithin(pow: (real, real) -> real, cfg: BookConfig, p: Probs, q: Probs, odds: OddsArray)
    requires QuotedFrom(pow, cfg, p, q, odds)
    ensures ValidOdds(Decimal(odds)) && Within(Sum(Implied(Decimal(odds))), Sum(HeldAll(q)), DELTA)
    ensures forall i :: 0 <= i < OUTCOMES ==> Within(Implied(Decimal(odds))[i], Held(q[i]), DELTA)
    ensures Unclamped(q) ==> Sum(HeldAll(q)) == 1.0 + cfg.overround
  {
    forall i | 0 <= i < OUTCOMES ensures MIN_ODDS_MILLI <= odds[i] { LegalPrice(q[i]); }
    DecimalIsValid(odds);
    var u, h := Implied(Decimal(odds)), HeldAll(q);
    forall i | 0 <= i < OUTCOMES ensures Within(u[i], h[i], DELTA) {
      RoundingError(q[i], odds[i], u[i]);
    }
    SumOfThree(u);
    SumOfThree(h);
    SumWithin(u[0], u[1], u[2], h[0], h[1], h[2]);
    if Unclamped(q) { assert h == q; }
  }

  lemma SumWithin(a: real, b: real, c: real, x: real, y: real, z: real)
    requires Within(a, x, DELTA) && Within(b, y, DELTA) && Within(c, z, DELTA)
    ensures Within(a + b + c, x + y + z, DELTA)
  {
  }

  /** The multiplicative method, applied to an unclamped quote of a proportionally shading book, gives back every
      probability the book believed in, up to a relative error of 2 delta / (1 - delta) with delta = 0.5 / 1001. */
  lemma BeliefRecovered(pow: (real, real) -> real, cfg: BookConfig, p: Probs, q: Probs, odds: OddsArray,
                        v: seq<real>, i: nat)
    requires cfg.vigModel == Proportional && 0.0 < cfg.overround
    requires IsBelief(p) && QuotedFrom(pow, cfg, p, q, odds) && Unclamped(q)
    requires ValidOdds(Decimal(odds)) && EqualShares(Implied(Decimal(odds)), v) && i < OUTCOMES
    ensures Within(v[i], p[i], RECOVERY)
  {
    BooksumWithin(pow, cfg, p, q, odds);
    var u, scale := Implied(Decimal(odds)), 1.0 + cfg.overround;
    ProportionalAt(pow, cfg, p, q, i, scale);
    SharesAt(u, v, i);
    ShareWithin(u[i], Sum(u), v[i], q[i], scale, p[i]);
  }

  lemma ProportionalAt(pow: (real, real) -> real, cfg: BookConfig, p: Probs, q: Probs, i: nat, scale: real)
    requires cfg.vigModel == Proportional && Shaded(pow, cfg, p, q)
    requires i < OUTCOMES && scale == 1.0 + cfg.overround
    ensures Scaled(q[i], p[i], scale)
  {
    assert ShadedAt(Weights(pow, cfg, p), cfg, q, i);
  }

  ghost predicate Scaled(q: real, p: real, scale: real) { q == p * scale }

  lemma {:induction false} SharesAt(u: seq<real>, v: seq<real>, i: nat)
    requires EqualShares(u, v) && i < |u|
    ensures 0.0 < v[i] && Scaled(u[i], v[i], Sum(u))
  {
  }

  /** A quote devigs to a distribution unless rounding ate the margin, which it cannot once the overround exceeds delta
      / (1 - delta). */
  lemma MarginSurvives(pow: (real, real) -> real, cfg: BookConfig, p: Probs, q: Probs, odds: OddsArray)
    requires QuotedFrom(pow, cfg, p, q, odds) && Unclamped(q)
    requires DELTA / (1.0 - DELTA) < cfg.overround
    ensures ValidOdds(Decimal(odds)) && 1.0 < Sum(Implied(Decimal(odds)))
  {
    BooksumWithin(pow, cfg, p, q, odds);
  }

  lemma ShareWithin(u: real, U: real, v: real, q: real, Q: real, p: real)
    requires 0.0 < Q && 0.0 < p && 0.0 < v && Scaled(u, v, U) && Scaled(q, p, Q)
    requires Within(u, q, DELTA) && Within(U, Q, DELTA)
    ensures Within(v, p, RECOVERY)
  {
    var c, d := 1.0 - DELTA, 1.0 + DELTA;
    ShareAtMost(u, U, v, q, Q, p, c, d);
    ShareAtLeast(u, U, v, q, Q, p, c, d);
    ShareBounds(v, p, c, d);
  }

  lemma ShareBounds(v: real, p: real, c: real, d: real)
    requires 0.0 < p && c == 1.0 - DELTA && d == 1.0 + DELTA && v * c <= p * d && p * c <= v * d
    ensures Within(v, p, RECOVERY)
  {
  }

  lemma ShareAtMost(u: real, U: real, v: real, q: real, Q: real, p: real, c: real, d: real)
    requires 0.0 < Q && 0.0 < v && Scaled(u, v, U) && Scaled(q, p, Q) && Q * c <= U && u <= q * d
    ensures v * c <= p * d
  {
    var x, left, right := Q * c, v * c, p * d;
    MulLe(x, U, v);
    assert left * Q == x * v && right * Q == q * d;
    CancelLe(left, right, Q);
  }

  lemma ShareAtLeast(u: real, U: real, v: real, q: real, Q: real, p: real, c: real, d: real)
    requires 0.0 < Q && 0.0 < v && Scaled(u, v, U) && Scaled(q, p, Q) && U <= Q * d && q * c <= u
    ensures p * c <= v * d
  {
    var x, left, right := Q * d, p * c, v * d;
    MulLe(U, x, v);
    assert right * Q == x * v && left * Q == q * c;
    CancelLe(left, right, Q);
  }

  /** Were prices not rounded, recovery would be exact. */
  lemma {:induction false} ExactWithoutRounding(u: seq<real>, v: seq<real>, p: Probs, scale: real, i: nat)
    requires |u| == OUTCOMES && 1.0 < scale && IsBelief(p) && i < OUTCOMES
    requires forall j :: 0 <= j < OUTCOMES ==> u[j] == scale * p[j]
    requires EqualShares(u, v)
    ensures v[i] == p[i]
  {
    SumScale(p, u, scale, 1.0);
    SameShare(Sum(u), v[i], u[i], p[i], scale);
  }

  lemma SameShare(U: real, v: real, u: real, p: real, scale: real)
    requires U == scale && 1.0 < scale && u == U * v && u == scale * p
    ensures v == p
  {
    assert v * scale == u && p * scale == u;
    CancelEq(v, p, scale);
  }
}
