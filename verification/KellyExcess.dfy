/** Beliefs that total a little more than one, as a consensus of computed probabilities may: how near the stakes are. */
module KellyExcess {
  import opened Reals
  import opened Sums
  import opened Kelly
  import opened KellyPrefix
  import opened KellyOptimality
  import opened KellyAllocator
  import opened KellyTheorems

  // ---- stakes that are Kelly up to a slack ----

  /** A member is staked down to the rate; an outsider beats it by no more than the slack. */
  ghost predicate NearStake(p: real, o: real, R: real, slack: real, f: real)
    requires o != 0.0
  {
    (Edge(p, o) > R && f == p - R / o) || (Edge(p, o) <= R + slack && f == 0.0)
  }

  ghost predicate NearReserve(p: seq<real>, o: seq<real>, R: real, slack: real, f: seq<real>)
    requires Market(p, o)
  {
    |f| == |p| && Sum(f) == 1.0 - R && forall i :: 0 <= i < |p| ==> NearStake(p[i], o[i], R, slack, f[i])
  }

  ghost predicate NearPart(t: real, R: real, spare: real, x: real, g: real, y: real) { t * R <= spare * x + g * y }

  lemma NearWealth(p: real, o: real, R: real, slack: real, f: real, w: real)
    requires o > 1.0 && 0.0 <= p && 0.0 < R && NearStake(p, o, R, slack, f) && w == Payoff(R, f, o)
    ensures 0.0 < w
    ensures Edge(p, o) > R && f == p - R / o ==> w == Edge(p, o)
    ensures f == 0.0 ==> w == R
  {
    var q := R / o;
    DivMul(R, o, q);
    assert (p - q) * o == p * o - q * o;
  }

  /** One outcome's part of the optimality condition. */
  lemma OneNearPart(p: real, o: real, R: real, slack: real, f: real, spare: real, g: real, w: real, w': real, t: real)
    requires o > 1.0 && 0.0 <= p && 0.0 < R && 0.0 <= slack && 0.0 <= spare && 0.0 <= g
    requires NearStake(p, o, R, slack, f) && w == Payoff(R, f, o) && w' == Payoff(spare, g, o) && t == Part(p, w', w)
    ensures NearPart(t, R, spare, p - f, g, R + slack)
  {
    NearWealth(p, o, R, slack, f, w);
    if p == 0.0 {
      ImpossiblePart(p, o, R, slack, f, spare, g);
    } else if f == 0.0 {
      OutsiderPart(p, o, R, slack, spare, g, w', t);
    } else {
      MemberPart(p, o, R, R / o, slack, spare, g, w, w', t);
    }
  }

  lemma ImpossiblePart(p: real, o: real, R: real, slack: real, f: real, spare: real, g: real)
    requires o > 1.0 && p == 0.0 && 0.0 < R && 0.0 <= slack && 0.0 <= spare && 0.0 <= g && NearStake(p, o, R, slack, f)
    ensures NearPart(0.0, R, spare, p - f, g, R + slack)
  {
    ProductNonNeg(g, R + slack, g * (R + slack));
  }

  lemma OutsiderPart(p: real, o: real, R: real, slack: real, spare: real, g: real, w': real, t: real)
    requires o > 1.0 && 0.0 < p && 0.0 < R && 0.0 <= slack && 0.0 <= spare && 0.0 <= g
    requires Edge(p, o) <= R + slack || Edge(p, o) <= R
    requires w' == spare + g * o && t == Part(p, w', R)
    ensures NearPart(t, R, spare, p, g, R + slack)
  {
    var n, e := p * w', Edge(p, o);
    DivMul(n, R, t);
    MulLe(e, R + slack, g);
    assert n == spare * p + e * g by { assert n == p * spare + p * (g * o); assert p * (g * o) == e * g; }
  }

  lemma MemberPart(p: real, o: real, R: real, q: real, slack: real, spare: real, g: real, w: real, w': real, t: real)
    requires o > 1.0 && 0.0 < p && 0.0 < R && q == R / o && 0.0 <= slack && 0.0 <= spare && 0.0 <= g
    requires w == Edge(p, o) && w' == spare + g * o && t == Part(p, w', w)
    ensures NearPart(t, R, spare, q, g, R + slack)
  {
    ProductPos(p, o, w);
    DivMul(R, o, q);
    var n, u := p * w', spare * q + g * R;
    DivMul(n, w, t);
    assert t * o == w' by { assert (t * o) * p == w' * p; CancelEq(t * o, w', p); }
    assert u * o == R * w' by { assert u * o == spare * (q * o) + (g * o) * R; }
    assert (t * R) * o == (t * o) * R;
    CancelEq(t * R, u, o);
    MulLe(R, R + slack, g);
  }

  lemma {:induction false} SumNearPart(t: seq<real>, R: real, spare: real, x: seq<real>, g: seq<real>, y: real,
                                       st: real, sx: real, sg: real)
    requires |t| == |x| == |g| && st == Sum(t) && sx == Sum(x) && sg == Sum(g)
    requires forall i :: 0 <= i < |t| ==> NearPart(t[i], R, spare, x[i], g[i], y)
    ensures NearPart(st, R, spare, sx, sg, y)
  {
    if t != [] {
      var m := |t| - 1;
      SumNearPart(t[..m], R, spare, x[..m], g[..m], y, Sum(t[..m]), Sum(x[..m]), Sum(g[..m]));
      AddNearParts(Sum(t[..m]), Sum(x[..m]), Sum(g[..m]), t[m], x[m], g[m], R, spare, y, st, sx, sg);
    }
  }

  lemma AddNearParts(a: real, b: real, c: real, d: real, e: real, f: real, R: real, spare: real, y: real,
                     st: real, sx: real, sg: real)
    requires NearPart(a, R, spare, b, c, y) && NearPart(d, R, spare, e, f, y)
    requires st == a + d && sx == b + e && sg == c + f
    ensures NearPart(st, R, spare, sx, sg, y)
  {
    assert st * R == a * R + d * R && spare * sx == spare * b + spare * e && sg * y == c * y + f * y;
  }

  /** The optimality condition is missed by at most the slack. */
  ghost predicate NearlyBest(t: real, R: real, slack: real) { (t - 1.0) * R <= slack }

  lemma NearPartAt(p: seq<real>, o: seq<real>, R: real, slack: real, f: seq<real>, g: seq<real>, spare: real, j: nat)
    requires Market(p, o) && 0.0 < R && 0.0 <= slack && Portfolio(g, |p|) && spare == 1.0 - Sum(g)
    requires NearReserve(p, o, R, slack, f) && j < |p|
    ensures NearPart(Parts(p, o, f, g)[j], R, spare, p[j] - f[j], g[j], R + slack) && Wealth(f, o, j) > 0.0
  {
    var w, w' := Wealth(f, o, j), Wealth(g, o, j);
    assert w == Payoff(R, f[j], o[j]);
    NearWealth(p[j], o[j], R, slack, f[j], w);
    OneNearPart(p[j], o[j], R, slack, f[j], spare, g[j], w, w', Part(p[j], w', w));
  }

  /** What is not staked on each outcome. */
  function Unstaked(p: seq<real>, f: seq<real>): (x: seq<real>)
    requires |p| == |f|
    ensures |x| == |p| && forall i :: 0 <= i < |p| ==> x[i] == p[i] - f[i]
  {
    seq(|p|, i requires 0 <= i < |p| => p[i] - f[i])
  }

  lemma NearParts(p: seq<real>, o: seq<real>, R: real, slack: real, f: seq<real>, g: seq<real>, spare: real)
    requires Market(p, o) && 0.0 < R && 0.0 <= slack && Portfolio(g, |p|) && spare == 1.0 - Sum(g)
    requires NearReserve(p, o, R, slack, f)
    ensures NearPart(Sum(Parts(p, o, f, g)), R, spare, Sum(Unstaked(p, f)), Sum(g), R + slack)
  {
    var t, x := Parts(p, o, f, g), Unstaked(p, f);
    forall j | 0 <= j < |p| ensures NearPart(t[j], R, spare, x[j], g[j], R + slack) {
      NearPartAt(p, o, R, slack, f, g, spare, j);
    }
    SumNearPart(t, R, spare, x, g, R + slack, Sum(t), Sum(x), Sum(g));
  }

  lemma NearlyOptimal(p: seq<real>, o: seq<real>, R: real, slack: real, f: seq<real>, g: seq<real>)
    requires Market(p, o) && 0.0 < R && 0.0 <= Sum(p) - 1.0 <= slack && Portfolio(g, |p|)
    requires NearReserve(p, o, R, slack, f)
    ensures NearlyBest(Sum(Parts(p, o, f, g)), R, slack)
    ensures Solvent(p, o, f)
  {
    NearParts(p, o, R, slack, f, g, 1.0 - Sum(g));
    SumAdd(f, Unstaked(p, f), p);
    MissAtMost(Sum(Parts(p, o, f, g)), R, 1.0 - Sum(g), Sum(p) - 1.0, Sum(g), slack);
    forall j | 0 <= j < |p| && p[j] > 0.0 ensures Wealth(f, o, j) > 0.0 {
      NearPartAt(p, o, R, slack, f, g, 1.0 - Sum(g), j);
    }
  }

  lemma MissAtMost(t: real, R: real, spare: real, excess: real, g: real, slack: real)
    requires NearPart(t, R, spare, R + excess, g, R + slack) && spare == 1.0 - g && 0.0 <= spare && excess <= slack
    ensures NearlyBest(t, R, slack)
  {
    MulLe(excess, slack, spare);
    assert spare * (R + excess) == spare * R + spare * excess && g * (R + slack) == g * R + g * slack;
    assert spare * R + g * R == R && spare * slack + g * slack == slack;
    assert (t - 1.0) * R == t * R - R;
  }

  // ---- the longest admissible prefix is such a portfolio ----

  ghost predicate AtMost(o: seq<real>, M: real) { forall j :: 0 <= j < |o| ==> o[j] <= M }

  lemma PickAtMost(o: seq<real>, order: seq<nat>, M: real)
    requires AtMost(o, M) && forall t :: 0 <= t < |order| ==> order[t] < |o|
    ensures AtMost(Pick(o, order), M)
  {
  }

  /** The first outcome left out beats the rate by at most the excess times its odds. */
  lemma FirstOutsiderNear(p: seq<real>, o: seq<real>, k: nat, k': nat, R: real, excess: real, slack: real)
    requires Market(p, o) && k' == k + 1 && k' <= |p| && Sum(Inverses(o)[..k]) < 1.0 && !Admissible(p, o, k')
    requires R == PrefixRate(p, o, k) && 0.0 < R && 0.0 <= slack && Sum(p) <= 1.0 + excess
    requires Scaled(excess, o[k], slack)
    ensures Edge(p[k], o[k]) <= R + slack
  {
    if Sum(Inverses(o)[..k']) < 1.0 {
      PrefixStep(p, o, k, k');
    } else {
      SureThingLeftOut(p, o, k, k', R, excess, slack);
    }
  }

  lemma SureThingLeftOut(p: seq<real>, o: seq<real>, k: nat, k': nat, R: real, excess: real, slack: real)
    requires Market(p, o) && k' == k + 1 && k' <= |p| && Sum(Inverses(o)[..k]) < 1.0 <= Sum(Inverses(o)[..k'])
    requires R == PrefixRate(p, o, k) && 0.0 < R && Sum(p) <= 1.0 + excess && Scaled(excess, o[k], slack)
    ensures Edge(p[k], o[k]) <= R + slack
  {
    PrefixRateIsRate(p, o, k);
    PrefixGrows(p, o, k, k');
    PrefixTotals(p, k');
    var b := Inverses(o)[k];
    DivMul(1.0, o[k], b);
    SureThingNear(Sum(p[..k]), Sum(Inverses(o)[..k]), R, Edge(p[k], o[k]), b, o[k], Sum(p[..k']), excess, slack);
  }

  lemma SureThingNear(P: real, B: real, R: real, e: real, b: real, o: real, P': real, excess: real, slack: real)
    requires IsRate(R, P, B) && 0.0 < R && 0.0 < b && b * o == 1.0 && 1.0 <= B + b && Grown(P', P, e, b)
    requires P' <= 1.0 + excess && Scaled(excess, o, slack)
    ensures e <= R + slack
  {
    var c := 1.0 - B;
    MulLe(c, b, R);
    var u := R + slack;
    assert u * b == R * b + slack * b;
    assert slack * b == excess * (b * o);
    CancelLe(e, u, b);
  }

  lemma ChosenIsPrefixRate(p: seq<real>, o: seq<real>, k: nat)
    requires Market(p, o) && LongestAdmissible(p, o, k)
    ensures Sum(Inverses(o)[..k]) < 1.0 && ChosenRate(p, o, k) == PrefixRate(p, o, k)
    ensures !Admissible(p, o, k + 1)
  {
    EmptyPrefix(p, o);
  }

  lemma OutsidersNear(p: seq<real>, o: seq<real>, k: nat, i: nat, R: real, excess: real, M: real, slack: real)
    requires Market(p, o) && ByEdge(p, o) && LongestAdmissible(p, o, k) && R == ChosenRate(p, o, k) && 0.0 < R
    requires 0.0 <= excess && Sum(p) <= 1.0 + excess && k <= i < |p| && o[k] <= M && Scaled(excess, M, slack)
    ensures Edge(p[i], o[i]) <= R + slack
  {
    ChosenIsPrefixRate(p, o, k);
    var x := excess * o[k];
    FirstBelow(p, o, k, R, excess, x, M, slack);
    assert i == k || Edge(p[i], o[i]) <= Edge(p[k], o[k]);
  }

  lemma FirstBelow(p: seq<real>, o: seq<real>, k: nat, R: real, excess: real, x: real, M: real, slack: real)
    requires Market(p, o) && k < |p| && Sum(Inverses(o)[..k]) < 1.0 && !Admissible(p, o, k + 1)
    requires R == PrefixRate(p, o, k) && 0.0 < R && 0.0 <= excess && Sum(p) <= 1.0 + excess && o[k] <= M
    requires Scaled(excess, o[k], x) && Scaled(excess, M, slack)
    ensures Edge(p[k], o[k]) <= R + slack
  {
    ProductNonNeg(excess, o[k], x);
    SmallerScaled(excess, o[k], M, x, slack);
    FirstOutsiderNear(p, o, k, k + 1, R, excess, x);
  }

  lemma SmallerScaled(excess: real, o: real, M: real, x: real, slack: real)
    requires 0.0 <= excess && o <= M && Scaled(excess, o, x) && Scaled(excess, M, slack)
    ensures x <= slack
  {
    MulLe(o, M, excess);
  }

  lemma MembersStaked(p: seq<real>, o: seq<real>, k: nat, i: nat, R: real)
    requires Market(p, o) && ByEdge(p, o) && LongestAdmissible(p, o, k) && R == ChosenRate(p, o, k) && i < k
    ensures Edge(p[i], o[i]) > R && PrefixStakeSeq(p, o, k, R)[i] == p[i] - R / o[i]
  {
    MembersBeatRate(p, o, k, i);
    StakeSign(p[i], o[i], R, R / o[i]);
  }

  /** The stakes on the prefix leave exactly the rate. */
  lemma {:induction false} PrefixStakeSum(p: seq<real>, o: seq<real>, k: nat, R: real, m: nat)
    requires Market(p, o) && ByEdge(p, o) && LongestAdmissible(p, o, k) && R == ChosenRate(p, o, k) && m <= k
    ensures StakeTotal(Sum(PrefixStakeSeq(p, o, k, R)[..m]), Sum(p[..m]), R, Sum(Inverses(o)[..m]))
  {
    var f := PrefixStakeSeq(p, o, k, R);
    if m == 0 {
      EmptyPrefix(p, o);
      assert f[..0] == [];
    } else {
      var i := m - 1;
      PrefixStakeSum(p, o, k, R, i);
      MembersStaked(p, o, k, i, R);
      SumStep(f, i);
      SumStep(p, i);
      SumStep(Inverses(o), i);
      AddStake(Sum(f[..i]), Sum(p[..i]), R, Sum(Inverses(o)[..i]), p[i], o[i], Inverses(o)[i],
               Sum(f[..m]), Sum(p[..m]), Sum(Inverses(o)[..m]));
    }
  }

  lemma PrefixIsNear(p: seq<real>, o: seq<real>, k: nat, R: real, excess: real, M: real, slack: real)
    requires Market(p, o) && ByEdge(p, o) && LongestAdmissible(p, o, k) && R == ChosenRate(p, o, k) && 0.0 < R
    requires 0.0 <= excess && Sum(p) <= 1.0 + excess && Scaled(excess, M, slack) && AtMost(o, M)
    ensures NearReserve(p, o, R, slack, PrefixStakeSeq(p, o, k, R))
  {
    var f := PrefixStakeSeq(p, o, k, R);
    PrefixStakeSum(p, o, k, R, k);
    ZeroTail(f, k);
    EmptyPrefix(p, o);
    PrefixRateIsRate(p, o, k);
    StakesTotal(Sum(p[..k]), Sum(Inverses(o)[..k]), R, Sum(f));
    forall i | 0 <= i < |p| ensures NearStake(p[i], o[i], R, slack, f[i]) {
      if i < k { MembersStaked(p, o, k, i, R); } else { OutsidersNear(p, o, k, i, R, excess, M, slack); }
    }
  }

  /** The same in the order the outcomes were given in. */
  lemma RelabelNear(fair: seq<real>, odds: seq<real>, order: seq<nat>, R: real, slack: real, s0: seq<real>)
    requires Market(fair, odds) && Permutation(order, |fair|) && |order| == |fair| == |s0|
    requires forall t :: 0 <= t < |order| ==> order[t] < |fair|
    requires Market(Pick(fair, order), Pick(odds, order))
    requires NearReserve(Pick(fair, order), Pick(odds, order), R, slack, Pick(s0, order))
    ensures NearReserve(fair, odds, R, slack, s0)
  {
    SumReordered(s0, order);
    forall i | 0 <= i < |fair| ensures NearStake(fair[i], odds[i], R, slack, s0[i]) {
      var t := Position(order, |fair|, i);
      assert NearStake(Pick(fair, order)[t], Pick(odds, order)[t], R, slack, Pick(s0, order)[t]);
    }
  }

  lemma SortedIsNear(fair: seq<real>, odds: seq<real>, order: seq<nat>, p: seq<real>, o: seq<real>, k: nat, R: real,
                     s0: seq<real>, excess: real, M: real, slack: real)
    requires Market(fair, odds) && Permutation(order, |fair|) && |order| == |fair| == |s0|
    requires forall t :: 0 <= t < |order| ==> order[t] < |fair|
    requires p == Pick(fair, order) && o == Pick(odds, order) && Market(p, o) && ByEdge(p, o)
    requires LongestAdmissible(p, o, k) && R == ChosenRate(p, o, k) && 0.0 < R
    requires Pick(s0, order) == PrefixStakeSeq(p, o, k, R)
    requires 0.0 <= excess && Sum(p) <= 1.0 + excess && Scaled(excess, M, slack) && AtMost(o, M)
    ensures NearReserve(fair, odds, R, slack, s0)
  {
    PrefixIsNear(p, o, k, R, excess, M, slack);
    RelabelNear(fair, odds, order, R, slack, s0);
  }

  lemma AlongIsNear(fair: seq<real>, odds: seq<real>, kellyFraction: real, maxExposure: real, out: AllocationResult,
                    order: seq<nat>, k: nat, s0: seq<real>, excess: real, M: real, slack: real)
    requires Market(fair, odds) && StakedAlong(fair, odds, kellyFraction, maxExposure, out, order, k, s0)
    requires 0.0 < out.reserveRate && 0.0 <= excess && Sum(fair) <= 1.0 + excess && Scaled(excess, M, slack)
    requires AtMost(odds, M)
    ensures NearReserve(fair, odds, out.reserveRate, slack, s0) && forall i :: 0 <= i < |s0| ==> 0.0 <= s0[i]
  {
    var p, o, R := Pick(fair, order), Pick(odds, order), out.reserveRate;
    SortedMarket(fair, odds, order, p, o);
    PlacedTotal(s0, order, PrefixStakeSeq(p, o, k, R));
    PickAtMost(odds, order, M);
    SortedIsNear(fair, odds, order, p, o, k, R, s0, excess, M, slack);
  }

  /** Whatever the beliefs total: the full stakes of an answer with a positive rate are Kelly up to the excess at the
      longest odds, and what is returned is scaled from them. */
  lemma AllocationIsNear(fair: seq<real>, odds: seq<real>, kellyFraction: real, maxExposure: real,
                         out: AllocationResult, excess: real, M: real, slack: real) returns (f: seq<real>)
    requires Market(fair, odds) && PrefixResult(fair, odds, kellyFraction, maxExposure, out) && 0.0 < out.reserveRate
    requires 0.0 <= excess && Sum(fair) <= 1.0 + excess && Scaled(excess, M, slack)
    requires AtMost(odds, M)
    ensures NearReserve(fair, odds, out.reserveRate, slack, f)
    ensures ScaledFrom(f, Sum(f), kellyFraction, maxExposure, out) && forall i :: 0 <= i < |f| ==> 0.0 <= f[i]
  {
    var order, k, s0 :| StakedAlong(fair, odds, kellyFraction, maxExposure, out, order, k, s0);
    AlongIsNear(fair, odds, kellyFraction, maxExposure, out, order, k, s0, excess, M, slack);
    f := s0;
  }

  // ---- and what that costs ----

  /** What a competing portfolio may be ahead by: excess * (M - R) / R. */
  ghost predicate CostsAtMost(cost: real, R: real, excess: real, M: real) { cost * R == excess * (M - R) }

  lemma GainAtMost(t: real, R: real, excess: real, M: real, slack: real, cost: real)
    requires 0.0 < R && NearlyBest(t, R, slack) && Scaled(excess, M, slack) && CostsAtMost(cost, R, excess, M)
    ensures t - (1.0 + excess) <= cost
  {
    var d := t - (1.0 + excess);
    assert d * R == (t - 1.0) * R - excess * R;
    assert excess * (M - R) == excess * M - excess * R;
    CancelLe(d, cost, R);
  }

  /** The full stakes against any solvent portfolio without leverage. */
  lemma NearlyMaximises(L: real -> real, p: seq<real>, o: seq<real>, R: real, f: seq<real>, g: seq<real>, excess: real,
                        M: real, slack: real, cost: real)
    requires IsLogLike(L) && Market(p, o) && 0.0 < R && 0.0 <= excess == Sum(p) - 1.0 && 1.0 <= M
    requires Scaled(excess, M, slack)
    requires NearReserve(p, o, R, slack, f) && Portfolio(g, |p|) && Solvent(p, o, g) && CostsAtMost(cost, R, excess, M)
    ensures Solvent(p, o, f) && ExpectedLog(L, p, o, g) - cost <= ExpectedLog(L, p, o, f)
  {
    SmallerScaled(excess, 1.0, M, excess, slack);
    NearlyOptimal(p, o, R, slack, f, g);
    ExpectedLogGain(L, p, o, f, g);
    GainAtMost(Sum(Parts(p, o, f, g)), R, excess, M, slack, cost);
  }

  /** What scaling leaves of the growth of the full stakes. */
  lemma ScaledKeepsGrowth(L: real -> real, p: seq<real>, o: seq<real>, kellyFraction: real, maxExposure: real,
                          out: AllocationResult, f: seq<real>, growth: real) returns (c: real)
    requires IsLogLike(L) && Market(p, o) && |f| == |p| && Solvent(p, o, f) && 0.0 < kellyFraction <= 1.0
    requires 0.0 < maxExposure
    requires WithinExposure(|p|, maxExposure, out) && ScaledFrom(f, Sum(f), kellyFraction, maxExposure, out)
    requires (forall i :: 0 <= i < |f| ==> 0.0 <= f[i]) && growth <= ExpectedLog(L, p, o, f)
    ensures 0.0 <= c <= 1.0 && IsFraction(out.stake[..|p|], c, f) && Solvent(p, o, out.stake[..|p|])
    ensures AtLeastPart(c, growth, ExpectedLog(L, p, o, out.stake[..|p|]))
  {
    var s := out.stake[..|p|];
    c := FractionOfTotal(s, f, Sum(f), out.totalStake, kellyFraction, maxExposure, out.capped);
    FractionKeepsGrowth(L, p, o, s, c, f);
    AtLeastPartOfLess(c, growth, ExpectedLog(L, p, o, f), ExpectedLog(L, p, o, s));
  }

  lemma NearAllocationKeepsGrowth(L: real -> real, fair: seq<real>, odds: seq<real>, kellyFraction: real,
                                  maxExposure: real,
                                  out: AllocationResult, f: seq<real>, g: seq<real>, excess: real, M: real, slack: real,
                                  cost: real, growth: real)
    returns (c: real)
    requires IsLogLike(L) && ValidInput(fair, odds, kellyFraction, maxExposure) && kellyFraction <= 1.0
    requires WithinExposure(|fair|, maxExposure, out) && ScaledFrom(f, Sum(f), kellyFraction, maxExposure, out)
    requires 0.0 < out.reserveRate && NearReserve(fair, odds, out.reserveRate, slack, f)
    requires forall i :: 0 <= i < |f| ==> 0.0 <= f[i]
    requires 0.0 <= excess == Sum(fair) - 1.0 && 1.0 <= M && Scaled(excess, M, slack)
    requires CostsAtMost(cost, out.reserveRate, excess, M)
    requires Portfolio(g, |fair|) && Solvent(fair, odds, g) && growth == ExpectedLog(L, fair, odds, g)
    ensures 0.0 <= c <= 1.0 && IsFraction(out.stake[..|fair|], c, f) && Solvent(fair, odds, out.stake[..|fair|])
    ensures AtLeastPart(c, growth - cost, ExpectedLog(L, fair, odds, out.stake[..|fair|]))
  {
    NearlyMaximises(L, fair, odds, out.reserveRate, f, g, excess, M, slack, cost);
    c := ScaledKeepsGrowth(L, fair, odds, kellyFraction, maxExposure, out, f, growth - cost);
  }

  /** For beliefs totalling one or more, every Kelly fraction up to one and every cap: the allocation stays solvent and
      keeps at least its fraction c of the growth of every solvent portfolio without leverage, up to excess * (M - R) /
      R, where the excess is what the beliefs total beyond one and M bounds the odds. */
  lemma AllocationNearlyKeepsGrowth(L: real -> real, fair: seq<real>, odds: seq<real>, kellyFraction: real,
                                    maxExposure: real, out: AllocationResult, g: seq<real>, excess: real, M: real,
                                    slack: real, cost: real, growth: real)
    returns (c: real, f: seq<real>)
    requires IsLogLike(L) && ValidInput(fair, odds, kellyFraction, maxExposure) && kellyFraction <= 1.0
    requires WithinExposure(|fair|, maxExposure, out) && PrefixResult(fair, odds, kellyFraction, maxExposure, out)
    requires 0.0 <= excess == Sum(fair) - 1.0 && AtMost(odds, M) && 1.0 <= M && Scaled(excess, M, slack)
    requires 0.0 < out.reserveRate && CostsAtMost(cost, out.reserveRate, excess, M)
    requires Portfolio(g, |fair|) && Solvent(fair, odds, g) && growth == ExpectedLog(L, fair, odds, g)
    ensures |f| == |fair| && Sum(f) == 1.0 - out.reserveRate && 0.0 <= c <= 1.0 && IsFraction(out.stake[..|fair|], c, f)
    ensures Solvent(fair, odds, out.stake[..|fair|])
    ensures AtLeastPart(c, growth - cost, ExpectedLog(L, fair, odds, out.stake[..|fair|]))
  {
    f := AllocationIsNear(fair, odds, kellyFraction, maxExposure, out, excess, M, slack);
    c := NearAllocationKeepsGrowth(L, fair, odds, kellyFraction, maxExposure, out, f, g, excess, M, slack, cost,
                                   growth);
  }
}
