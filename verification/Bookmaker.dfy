/** A simulated book: it looks at the market with a lag, shades its belief into a price with margin, and rounds. */
module Bookmaker {
  import opened Messages
  import opened Reals
  import opened Sums

  const OUTCOMES: nat := 3
  const MAX_LAG: nat := 512

  ghost predicate IsBelief(p: seq<real>) {
    |p| == OUTCOMES && Sum(p) == 1.0 && forall i :: 0 <= i < OUTCOMES ==> 0.0 < p[i]
  }

  /** A 32-bit signed lag, as configured. */
  type Lag = x: int | -0x8000_0000 <= x < 0x8000_0000

  /** A skew of zero would divide by zero. */
  type Skew = x: real | x != 0.0 witness 1.0

  datatype VigModel = Power | Additive | Proportional

  datatype BookConfig = BookConfig(bookId: u16, lagTicks: Lag, overround: real, skew: Skew, vigModel: VigModel)

  // ---- the lagged view ----

  /** What 64-bit arithmetic makes of the configured lag when n observations exist: never further back than the first.
      A negative lag becomes a huge one. */
  function Back(lag: Lag, n: nat): (back: nat)
    requires 0 < n
    ensures back < n
    ensures 0 <= lag < n ==> back == lag
    ensures n <= lag ==> back == n - 1
  {
    var l := lag % TWO_64;
    if l >= n then n - 1 else l
  }

  // ---- from belief to price ----

  /** The one law needed of the library's power: powers of positive numbers are positive. */
  ghost predicate PowerLaw(pow: (real, real) -> real, x: real, y: real) { 0.0 < x ==> 0.0 < pow(x, y) }

  ghost predicate IsPower(pow: (real, real) -> real) { forall x, y :: PowerLaw(pow, x, y) }

  type Probs = p: seq<real> | |p| == OUTCOMES witness [0.0, 0.0, 0.0]

  /** What the belief is scaled from: itself, or its powers. */
  function Weights(pow: (real, real) -> real, cfg: BookConfig, p: Probs): (w: Probs)
  {
    if cfg.vigModel == Power then seq(OUTCOMES, i requires 0 <= i < OUTCOMES => pow(p[i], 1.0 / cfg.skew)) else p
  }

  /** q carries the margin of the book: in total one plus the overround, spread as the model says. */
  ghost predicate Shaded(pow: (real, real) -> real, cfg: BookConfig, p: Probs, q: Probs)
  {
    Sum(q) == 1.0 + cfg.overround && forall i :: 0 <= i < OUTCOMES ==> ShadedAt(Weights(pow, cfg, p), cfg, q, i)
  }

  ghost predicate ShadedAt(w: Probs, cfg: BookConfig, q: Probs, i: int)
    requires 0 <= i < OUTCOMES
  {
    match cfg.vigModel
    case Proportional => q[i] == w[i] * (1.0 + cfg.overround)
    case Additive => q[i] == w[i] + cfg.overround / 3.0
    case Power => Share(q[i], Sum(w), w[i], 1.0 + cfg.overround)
  }

  /** q is the part of the target that w is of the total. */
  ghost predicate Share(q: real, total: real, w: real, target: real) { q * total == w * target }

  /** What of an intended probability a legal price can stand for. */
  function Held(q: real): (h: real)
    ensures 0.001 <= h <= 1000.0 / 1001.0
  {
    if q < 0.001 then 0.001 else if q > 1000.0 / 1001.0 then 1000.0 / 1001.0 else q
  }

  /** Thousandths of decimal odds, clamped to the legal range and rounded half up. */
  function Clamped(q: real): (milli: real)
    ensures 1001.0 <= milli <= 1000000.0 && milli * Held(q) == 1000.0
  {
    if q <= 0.0 then 1000000.0
    else
      var m := 1000.0 / q;
      ClampExact(q, m);
      if m > 1000000.0 then 1000000.0 else if m < 1001.0 then 1001.0 else m
  }

  /** The price leaves the range exactly when the probability does. */
  lemma ClampExact(q: real, m: real)
    requires 0.0 < q && m == 1000.0 / q
    ensures m * q == 1000.0
    ensures m > 1000000.0 <==> q < 0.001
    ensures m < 1001.0 <==> q > 1000.0 / 1001.0
  {
    DivMul(1000.0, q, m);
    ClampsTogether(q, m, 0.001, 1000000.0);
    ClampsTogether(q, m, 1000.0 / 1001.0, 1001.0);
  }

  lemma ClampsTogether(q: real, m: real, h: real, limit: real)
    requires 0.0 < q && 0.0 < limit && m * q == 1000.0 && limit * h == 1000.0
    ensures m > limit <==> q < h
    ensures m < limit <==> q > h
  {
    if m > limit { MulLt(limit, m, q); }
    if m < limit { MulLt(m, limit, q); }
    if q < h { MulLt(q, h, limit); }
    if q > h { MulLt(h, q, limit); }
  }

  function Rounded(milli: real): (odds: int)
    ensures odds as real - 0.5 <= milli < odds as real + 0.5
  {
    (milli + 0.5).Floor
  }

  class Book {
    const cfg: BookConfig
    const history: array<seq<real>>
    var writeIdx: u64
    /** Everything ever observed. */
    ghost var seen: seq<seq<real>>

    ghost predicate Valid()
      reads this, history
    {
      history.Length == MAX_LAG && writeIdx == |seen| &&
      forall k :: 0 <= k < |seen| && |seen| - MAX_LAG <= k ==> history[k % MAX_LAG] == seen[k]
    }

    constructor (cfg: BookConfig)
      ensures Valid() && fresh(history) && seen == [] && this.cfg == cfg
    {
      this.cfg := cfg;
      history := new seq<real>[MAX_LAG](_ => [0.0, 0.0, 0.0]);
      writeIdx, seen := 0, [];
    }

    method Observe(latent: seq<real>)
      requires Valid() && |seen| + 1 < TWO_64
      modifies this, history
      ensures Valid() && seen == old(seen) + [latent]
    {
      history[writeIdx % MAX_LAG] := latent;
      ghost var n := |seen|;
      forall k | 0 <= k < n && n + 1 - MAX_LAG <= k ensures k % MAX_LAG != n % MAX_LAG {
        Apart(k, n);
      }
      writeIdx := writeIdx + 1;
      seen := seen + [latent];
    }

    /** The ring of 512 agrees with the unbounded history up to a lag of 511; past that it is short by whole turns. */
    method LaggedView() returns (p: seq<real>)
      requires Valid() && 0 < |seen|
      ensures p == seen[|seen| - 1 - Back(cfg.lagTicks, |seen|) % MAX_LAG]
      ensures 0 <= cfg.lagTicks < 512 ==> p == seen[if cfg.lagTicks < |seen| then |seen| - 1 - cfg.lagTicks else 0]
    {
      var available: u64 := writeIdx;
      var back: u64 := cfg.lagTicks % TWO_64;
      if back >= available { back := available - 1; }
      p := history[(writeIdx - 1 - back) % MAX_LAG];
      WholeTurns(|seen| - 1, back);
    }

    /** One quote: the noisy belief about the lagged view, with margin, as thousandths of decimal odds. */
    method Quote(pow: (real, real) -> real, belief: seq<real> -> Probs) returns (odds: OddsArray)
      requires Valid() && 0 < |seen|
      requires IsPower(pow) && forall v :: IsBelief(belief(v))
      ensures exists q: Probs :: QuotedFrom(pow, cfg, belief(Viewed()), q, odds)
    {
      var lagged := LaggedView();
      var p := belief(lagged);
      var q := Shade(pow, cfg, p);
      odds := RoundAll(q);
      assert QuotedFrom(pow, cfg, belief(Viewed()), q, odds);
    }

    /** The observation a quote is based on. */
    ghost function Viewed(): seq<real>
      requires Valid() && 0 < |seen|
      reads this, history
    {
      seen[|seen| - 1 - Back(cfg.lagTicks, |seen|) % MAX_LAG]
    }
  }

  ghost predicate QuotedFrom(pow: (real, real) -> real, cfg: BookConfig, p: Probs, q: Probs, odds: OddsArray)
  {
    Shaded(pow, cfg, p, q) && odds[3] == 0 && forall i :: 0 <= i < OUTCOMES ==> odds[i] == Rounded(Clamped(q[i]))
  }

  method RoundAll(q: Probs) returns (odds: OddsArray)
    ensures odds[3] == 0 && forall i :: 0 <= i < OUTCOMES ==> odds[i] == Rounded(Clamped(q[i]))
  {
    var out := new u32[4](_ => 0);
    var i := 0;
    while i < OUTCOMES
      invariant 0 <= i <= OUTCOMES && out[3] == 0
      invariant forall j :: 0 <= j < i ==> out[j] == Rounded(Clamped(q[j]))
    {
      var milli := if q[i] > 0.0 then 1000.0 / q[i] else 1000000.0;
      if milli > 1000000.0 { milli := 1000000.0; }
      if milli < 1001.0 { milli := 1001.0; }
      out[i] := (milli + 0.5).Floor;
      i := i + 1;
    }
    odds := out[..];
  }

  method Shade(pow: (real, real) -> real, cfg: BookConfig, p: Probs) returns (q: Probs)
    requires IsPower(pow) && IsBelief(p)
    ensures Shaded(pow, cfg, p, q)
  {
    match cfg.vigModel {
      case Power => q := ShadeByPower(pow, cfg, p);
      case Proportional =>
        q := ScaleAll(p, 1.0 + cfg.overround);
        SumScale(p, q, 1.0 + cfg.overround, 1.0);
      case Additive =>
        q := AddToAll(p, cfg.overround / 3.0);
        AddEach(p, q, cfg.overround / 3.0);
    }
  }

  method ScaleAll(p: Probs, scale: real) returns (q: Probs)
    ensures forall i :: 0 <= i < OUTCOMES ==> q[i] == p[i] * scale
  {
    var out := new real[OUTCOMES](_ => 0.0);
    var i := 0;
    while i < OUTCOMES
      invariant 0 <= i <= OUTCOMES && forall j :: 0 <= j < i ==> out[j] == p[j] * scale
    {
      out[i] := p[i] * scale;
      i := i + 1;
    }
    q := out[..];
  }

  method AddToAll(p: Probs, per: real) returns (q: Probs)
    ensures forall i :: 0 <= i < OUTCOMES ==> q[i] == p[i] + per
  {
    var out := new real[OUTCOMES](_ => 0.0);
    var i := 0;
    while i < OUTCOMES
      invariant 0 <= i <= OUTCOMES && forall j :: 0 <= j < i ==> out[j] == p[j] + per
    {
      out[i] := p[i] + per;
      i := i + 1;
    }
    q := out[..];
  }

  method ShadeByPower(pow: (real, real) -> real, cfg: BookConfig, p: Probs) returns (q: Probs)
    requires IsPower(pow) && IsBelief(p) && cfg.vigModel == Power
    ensures Shaded(pow, cfg, p, q)
  {
    ghost var w := Weights(pow, cfg, p);
    var out := new real[OUTCOMES](_ => 0.0);
    var sum := RaiseAll(pow, cfg, p, out);
    PowersSumPositive(pow, cfg, p);
    ScaleParts(out, sum, 1.0 + cfg.overround);
    q := out[..];
    SharesAddUp(w, q, sum, 1.0 + cfg.overround, Sum(q));
  }

  /** The powers of the belief, and their sum. */
  method RaiseAll(pow: (real, real) -> real, cfg: BookConfig, p: Probs, out: array<real>) returns (sum: real)
    requires out.Length == OUTCOMES && cfg.vigModel == Power
    modifies out
    ensures out[..] == Weights(pow, cfg, p) && sum == Sum(out[..])
  {
    ghost var w := Weights(pow, cfg, p);
    sum := 0.0;
    var i := 0;
    while i < OUTCOMES
      invariant 0 <= i <= OUTCOMES && out[..i] == w[..i] && sum == Sum(w[..i])
    {
      out[i] := pow(p[i], 1.0 / cfg.skew);
      SumStep(w, i);
      sum := sum + out[i];
      i := i + 1;
    }
    assert w[..i] == w && out[..i] == out[..];
  }

  /** Each part of the sum becomes the same part of the target. */
  method ScaleParts(out: array<real>, sum: real, target: real)
    requires out.Length == OUTCOMES && 0.0 < sum
    modifies out
    ensures forall j :: 0 <= j < OUTCOMES ==> Share(out[j], sum, old(out[j]), target)
  {
    var i := 0;
    while i < OUTCOMES
      invariant 0 <= i <= OUTCOMES
      invariant forall j :: 0 <= j < i ==> Share(out[j], sum, old(out[j]), target)
      invariant forall j :: i <= j < OUTCOMES ==> out[j] == old(out[j])
    {
      ScaledPart(out[i], sum, target, out[i] / sum);
      out[i] := (out[i] / sum) * target;
      i := i + 1;
    }
  }

  lemma ScaledPart(w: real, sum: real, target: real, part: real)
    requires 0.0 < sum && part == w / sum
    ensures Share(part * target, sum, w, target)
  {
    DivMul(w, sum, part);
    assert part * target * sum == part * sum * target;
  }

  lemma PowersSumPositive(pow: (real, real) -> real, cfg: BookConfig, p: Probs)
    requires IsPower(pow) && IsBelief(p) && cfg.vigModel == Power
    ensures 0.0 < Sum(Weights(pow, cfg, p))
  {
    var w := Weights(pow, cfg, p);
    forall i | 0 <= i < OUTCOMES ensures 0.0 < w[i] {
      assert PowerLaw(pow, p[i], 1.0 / cfg.skew);
    }
    SumOfThree(w);
  }

  lemma SumOfThree(s: seq<real>)
    requires |s| == 3
    ensures Sum(s) == s[0] + s[1] + s[2]
  {
    SumStep(s, 0);
    SumStep(s, 1);
    SumStep(s, 2);
    assert s[..0] == [] && s[..3] == s;
  }

  lemma AddEach(p: Probs, q: Probs, per: real)
    requires forall i :: 0 <= i < OUTCOMES ==> q[i] == p[i] + per
    ensures Sum(q) == Sum(p) + 3.0 * per
  {
    SumOfThree(p);
    SumOfThree(q);
  }

  lemma SharesAddUp(w: seq<real>, q: seq<real>, sum: real, target: real, total: real)
    requires |w| == |q| == 3 && sum == Sum(w) && 0.0 < sum && total == Sum(q)
    requires forall i :: 0 <= i < 3 ==> Share(q[i], sum, w[i], target)
    ensures total == target
  {
    SumOfThree(w);
    SumOfThree(q);
    assert total * sum == q[0] * sum + q[1] * sum + q[2] * sum;
    assert sum * target == w[0] * target + w[1] * target + w[2] * target;
    assert Share(q[0], sum, w[0], target) && Share(q[1], sum, w[1], target) && Share(q[2], sum, w[2], target);
    CancelEq(total, target, sum);
  }

  lemma Apart(k: nat, n: nat)
    requires k < n < k + MAX_LAG
    ensures k % MAX_LAG != n % MAX_LAG
  {
  }

  lemma WholeTurns(last: nat, back: nat)
    requires back <= last
    ensures back % MAX_LAG <= last && (last - back) % MAX_LAG == (last - back % MAX_LAG) % MAX_LAG
  {
    var turns := back / MAX_LAG;
    assert last - back % MAX_LAG == (last - back) + turns * MAX_LAG;
  }

  /** The specification is complete: any two quotes of a belief that meet it agree. */
  lemma QuoteDetermined(pow: (real, real) -> real, cfg: BookConfig, p: Probs, q: Probs, odds: OddsArray, q': Probs,
                        odds': OddsArray)
    requires IsPower(pow) && IsBelief(p) && QuotedFrom(pow, cfg, p, q, odds) && QuotedFrom(pow, cfg, p, q', odds')
    ensures odds == odds'
  {
    var w := Weights(pow, cfg, p);
    forall i | 0 <= i < OUTCOMES ensures q[i] == q'[i] {
      assert ShadedAt(w, cfg, q, i) && ShadedAt(w, cfg, q', i);
      if cfg.vigModel == Power {
        PowersSumPositive(pow, cfg, p);
        SameShare(q[i], q'[i], Sum(w), w[i], 1.0 + cfg.overround);
      }
    }
    assert forall i :: 0 <= i < 4 ==> odds[i] == odds'[i];
  }

  lemma SameShare(a: real, b: real, total: real, w: real, target: real)
    requires 0.0 < total && Share(a, total, w, target) && Share(b, total, w, target)
    ensures a == b
  {
    CancelEq(a, b, total);
  }

  // ---- where the margin goes ----

  /** Laws of a power function on positive numbers: it turns products into products, leaves numbers alone at exponent
      one, and falls as the exponent grows when the base is below one. */
  ghost predicate IsMonotonePower(pow: (real, real) -> real) {
    IsPower(pow) && (forall x, y, z, a :: ProductLaw(pow, x, y, z, a)) && (forall x :: OneLaw(pow, x)) &&
    forall x, a, b :: FallingLaw(pow, x, a, b)
  }

  ghost predicate ProductLaw(pow: (real, real) -> real, x: real, y: real, z: real, a: real) {
    0.0 < x && 0.0 < y && z == x * y ==> pow(z, a) == pow(x, a) * pow(y, a)
  }

  ghost predicate OneLaw(pow: (real, real) -> real, x: real) { 0.0 < x ==> pow(x, 1.0) == x }

  ghost predicate FallingLaw(pow: (real, real) -> real, x: real, a: real, b: real) {
    0.0 < x < 1.0 && a < b ==> pow(x, b) < pow(x, a)
  }

  /** Going from x to v is a larger factor than going from y to w. */
  ghost predicate LargerFactor(x: real, v: real, y: real, w: real) { w * x < v * y }

  /** Of two probabilities, an exponent below one raises the smaller by the larger factor, one above one by the
      smaller. */
  lemma PowerFavours(pow: (real, real) -> real, x: real, y: real, a: real)
    requires IsMonotonePower(pow) && 0.0 < x < y
    ensures a < 1.0 ==> LargerFactor(x, pow(x, a), y, pow(y, a))
    ensures a > 1.0 ==> LargerFactor(y, pow(y, a), x, pow(x, a))
  {
    var r := x / y;
    DivPos(x, y, r);
    if r >= 1.0 { MulLe(1.0, r, y); }
    assert ProductLaw(pow, r, y, x, a) && OneLaw(pow, r) && PowerLaw(pow, y, a);
    var f, w := pow(r, a), pow(y, a);
    PowerOfRatio(x, y, r, w, f, pow(x, a));
    if a < 1.0 { assert FallingLaw(pow, r, a, 1.0); }
    if a > 1.0 { assert FallingLaw(pow, r, 1.0, a); }
  }

  lemma PowerOfRatio(x: real, y: real, r: real, w: real, f: real, v: real)
    requires 0.0 < y && 0.0 < w && r * y == x && v == f * w
    ensures r < f ==> LargerFactor(x, v, y, w)
    ensures f < r ==> LargerFactor(y, w, x, v)
  {
    var m := w * y;
    ProductPos(w, y, m);
    assert v * y == f * m && w * x == r * m;
    if r < f { MulLt(r, f, m); }
    if f < r { MulLt(f, r, m); }
  }

  /** Outcome k has strictly the smallest probability. */
  ghost predicate IsLongshot(p: Probs, k: int) {
    0 <= k < OUTCOMES && forall i :: 0 <= i < OUTCOMES && i != k ==> p[k] < p[i]
  }

  /** The margin falls on the longshot: at a skew above one it is quoted at more than its proportional share of the
      total, at one between zero and one at less. */
  lemma PowerMarginOnLongshot(pow: (real, real) -> real, cfg: BookConfig, p: Probs, q: Probs, k: nat)
    requires IsMonotonePower(pow) && IsBelief(p) && cfg.vigModel == Power && Shaded(pow, cfg, p, q)
    requires IsLongshot(p, k) && 0.0 < 1.0 + cfg.overround
    ensures cfg.skew > 1.0 ==> p[k] * (1.0 + cfg.overround) < q[k]
    ensures 0.0 < cfg.skew < 1.0 ==> q[k] < p[k] * (1.0 + cfg.overround)
  {
    var w, target := Weights(pow, cfg, p), 1.0 + cfg.overround;
    forall i | 0 <= i < OUTCOMES && i != k
      ensures cfg.skew > 1.0 ==> LargerFactor(p[k], w[k], p[i], w[i])
      ensures 0.0 < cfg.skew < 1.0 ==> LargerFactor(p[i], w[i], p[k], w[k])
    {
      FactorOf(pow, cfg, p, k, i);
    }
    PowersSumPositive(pow, cfg, p);
    assert ShadedAt(w, cfg, q, k);
    LongshotAmongThree(p, w, k, q[k], target);
  }

  lemma LongshotAmongThree(p: Probs, w: Probs, k: nat, q: real, target: real)
    requires Sum(p) == 1.0 && 0.0 < Sum(w) && 0.0 < target && k < OUTCOMES && Share(q, Sum(w), w[k], target)
    ensures (forall i :: 0 <= i < OUTCOMES && i != k ==> LargerFactor(p[k], w[k], p[i], w[i])) ==> p[k] * target < q
    ensures (forall i :: 0 <= i < OUTCOMES && i != k ==> LargerFactor(p[i], w[i], p[k], w[k])) ==> q < p[k] * target
  {
    var i, j := if k == 0 then 1 else 0, if k == 2 then 1 else 2;
    var sum := Sum(w);
    assert sum == w[k] + w[i] + w[j] by { SumOfThree(w); }
    assert p[k] + p[i] + p[j] == 1.0 by { SumOfThree(p); }
    LongshotShare(p[k], p[i], p[j], w[k], w[i], w[j], sum, q, target);
  }

  lemma FactorOf(pow: (real, real) -> real, cfg: BookConfig, p: Probs, k: nat, i: nat)
    requires IsMonotonePower(pow) && IsBelief(p) && cfg.vigModel == Power && IsLongshot(p, k) && i < OUTCOMES && i != k
    ensures cfg.skew > 1.0 ==> LargerFactor(p[k], Weights(pow, cfg, p)[k], p[i], Weights(pow, cfg, p)[i])
    ensures 0.0 < cfg.skew < 1.0 ==> LargerFactor(p[i], Weights(pow, cfg, p)[i], p[k], Weights(pow, cfg, p)[k])
  {
    InverseSkew(cfg.skew, 1.0 / cfg.skew);
    PowerFavours(pow, p[k], p[i], 1.0 / cfg.skew);
  }

  lemma InverseSkew(skew: real, a: real)
    requires skew != 0.0 && a == 1.0 / skew
    ensures skew > 1.0 ==> a < 1.0
    ensures 0.0 < skew < 1.0 ==> a > 1.0
  {
    DivMul(1.0, skew, a);
    if skew > 1.0 && a >= 1.0 { MulLe(1.0, a, skew); }
    if 0.0 < skew < 1.0 && a <= 1.0 { MulLe(a, 1.0, skew); }
  }

  lemma LongshotShare(p: real, p': real, p'': real, w: real, w': real, w'': real, sum: real, q: real, target: real)
    requires p + p' + p'' == 1.0 && sum == w + w' + w'' && 0.0 < sum && 0.0 < target && Share(q, sum, w, target)
    ensures LargerFactor(p, w, p', w') && LargerFactor(p, w, p'', w'') ==> p * target < q
    ensures LargerFactor(p', w', p, w) && LargerFactor(p'', w'', p, w) ==> q < p * target
  {
    var s := sum * p;
    assert s == w * p + w' * p + w'' * p && w == w * p + w * p' + w * p'';
    var x := p * target;
    assert x * sum == s * target;
    if s < w {
      MulLt(s, w, target);
      CancelLt(x, q, sum);
    }
    if w < s {
      MulLt(w, s, target);
      CancelLt(q, x, sum);
    }
  }

  /** Equal absolute margins do the same to every outcome below one third. */
  lemma AdditiveMarginOnLongshots(pow: (real, real) -> real, cfg: BookConfig, p: Probs, q: Probs, k: nat)
    requires cfg.vigModel == Additive && Shaded(pow, cfg, p, q) && k < OUTCOMES && 0.0 < cfg.overround
    ensures p[k] * (1.0 + cfg.overround) < q[k] <==> p[k] < 1.0 / 3.0
  {
    assert ShadedAt(Weights(pow, cfg, p), cfg, q, k);
    var third, x, y := 1.0 / 3.0, p[k] * cfg.overround, cfg.overround / 3.0;
    SameOrder(p[k], third, cfg.overround, x, y);
    assert p[k] * (1.0 + cfg.overround) == p[k] + x;
  }

  // ---- how much of the belief rounding costs ----

  /** Half a thousandth against the smallest legal price. */
  const DELTA: real := 0.5 / 1001.0

  /** a is within the given fraction of b. */
  ghost predicate Within(a: real, b: real, fraction: real) {
    b * (1.0 - fraction) <= a <= b * (1.0 + fraction)
  }

  /** The prices are in the range the clamp leaves alone. */
  ghost predicate Unclamped(q: Probs) {
    forall i :: 0 <= i < OUTCOMES ==> 0.001 <= q[i] <= 1000.0 / 1001.0
  }

  /** The probability a quoted price stands for. */
  function ImpliedBy(odds: int): real
    requires odds != 0
  {
    1000.0 / odds as real
  }

  /** Whatever is quoted is a legal price. */
  lemma LegalPrice(q: real)
    ensures MIN_ODDS_MILLI <= Rounded(Clamped(q)) <= MAX_ODDS_MILLI
  {
  }

  /** Rounding moves an implied probability by at most a fraction DELTA of what the clamp leaves of it. */
  lemma RoundingError(q: real, odds: int, u: real)
    requires odds == Rounded(Clamped(q)) && odds != 0 && u == ImpliedBy(odds)
    ensures Within(u, Held(q), DELTA)
  {
    LegalPrice(q);
    var m, o := Clamped(q), odds as real;
    DivMul(1000.0, o, u);
    RatioWithin(Held(q), m, u, o);
  }

  lemma RatioWithin(q: real, m: real, u: real, o: real)
    requires 0.0 < q && 1001.0 <= o && o - 0.5 <= m <= o + 0.5 && m * q == 1000.0 && u * o == 1000.0
    ensures Within(u, q, DELTA)
  {
    // u o = m q with m within DELTA of o
    var lo, hi := o * (1.0 - DELTA), o * (1.0 + DELTA);
    assert o * DELTA >= 0.5;
    assert lo <= m <= hi;
    MulLe(lo, m, q);
    MulLe(m, hi, q);
    assert (q * (1.0 - DELTA)) * o == lo * q && (q * (1.0 + DELTA)) * o == hi * q;
    CancelLe(q * (1.0 - DELTA), u, o);
    CancelLe(u, q * (1.0 + DELTA), o);
  }
}
