/** What the allocator's answer is worth: log-optimality and indifference to labels. */
module KellyTheorems {
  import opened Reals
  import opened Sums
  import opened Kelly
  import opened KellyOptimality
  import opened KellyAllocator
  import opened KellyPrefix

  lemma ProportionOfNothing(s: seq<real>)
    requires Sum(s) == 0.0 && forall i :: 0 <= i < |s| ==> 0.0 <= s[i]
    ensures forall i :: 0 <= i < |s| ==> s[i] == 0.0
  {
    forall i | 0 <= i < |s| ensures s[i] == 0.0 {
      SumAtLeastTerm(s, i);
    }
  }

  /** Stakes are fixed by their proportions and their total. */
  lemma StakesDetermined(f: seq<real>, full: real, total: real, s: seq<real>, s': seq<real>)
    requires |f| == |s| == |s'| && full == Sum(f) && Sum(s) == total && Sum(s') == total
    requires forall i :: 0 <= i < |f| ==> 0.0 <= f[i] && 0.0 <= s[i] && 0.0 <= s'[i]
    requires InProportion(s, full, total, f) && InProportion(s', full, total, f)
    requires full == 0.0 ==> total == 0.0
    ensures s == s'
  {
    if full == 0.0 {
      ProportionOfNothing(s);
      ProportionOfNothing(s');
    }
    forall i | 0 <= i < |f| ensures s[i] == s'[i] {
      if full != 0.0 {
        SameProportion(s[i], s'[i], full, total, f[i]);
      }
    }
  }

  lemma SameProportion(x: real, y: real, a: real, t: real, b: real)
    requires a != 0.0 && Proportion(x, a, t, b) && Proportion(y, a, t, b)
    ensures x == y
  {
    CancelEq(x, y, a);
  }

  lemma StakesNonNegative(p: seq<real>, o: seq<real>, R: real)
    requires Market(p, o)
    ensures forall i :: 0 <= i < |p| ==> 0.0 <= Stakes(p, o, R)[i]
  {
    forall i | 0 <= i < |p| ensures 0.0 <= Stakes(p, o, R)[i] {
      StakeSign(p[i], o[i], R, R / o[i]);
    }
  }

  /** The answer in full, for beliefs that total at most one: the total is the Kelly fraction of what the reserve rate R
      leaves, or the cap if that is less, and it is split in proportion to p - R/o among the outcomes with p*o > R. */
  lemma AnswerInFull(fair: seq<real>, odds: seq<real>, kellyFraction: real, maxExposure: real, out: AllocationResult,
                     full: real)
    requires Market(fair, odds) && WithinExposure(|fair|, maxExposure, out)
    requires KellyResult(fair, odds, kellyFraction, maxExposure, out) && full == 1.0 - out.reserveRate
    ensures IsCapped(out.totalStake, full, kellyFraction, maxExposure)
    ensures out.capped <==> full * kellyFraction > maxExposure
    ensures InParts(out.stake[..|fair|], full, out.totalStake, fair, odds, out.reserveRate)
  {
    var x, f := out.stake[..|fair|], Stakes(fair, odds, out.reserveRate);
    assert ScaledFrom(f, Sum(f), kellyFraction, maxExposure, out);
    PartsOfAnswer(x, full, out.totalStake, fair, odds, out.reserveRate, f);
  }

  lemma PartsOfAnswer(x: seq<real>, full: real, total: real, p: seq<real>, o: seq<real>, R: real, f: seq<real>)
    requires Market(p, o) && f == Stakes(p, o, R) && InProportion(x, full, total, f)
    ensures InParts(x, full, total, p, o, R)
  {
    forall i | 0 <= i < |p| ensures PartOf(x[i], full, total, p[i], o[i], R) {
      assert Proportion(x[i], full, total, f[i]);
      StakeInFull(x[i], full, total, p[i], o[i], R);
    }
  }

  /** The Kelly fraction of the full total, or the cap if that is less. */
  ghost predicate IsCapped(total: real, full: real, kellyFraction: real, maxExposure: real) {
    total == if full * kellyFraction > maxExposure then maxExposure else full * kellyFraction
  }

  ghost predicate InParts(x: seq<real>, full: real, total: real, p: seq<real>, o: seq<real>, R: real)
    requires |x| == |p| == |o| && forall i :: 0 <= i < |o| ==> o[i] > 1.0
  {
    forall i :: 0 <= i < |x| ==> PartOf(x[i], full, total, p[i], o[i], R)
  }

  /** x is to `total` as p - R/o, or nothing if p*o is at most R, is to `full`. */
  ghost predicate PartOf(x: real, full: real, total: real, p: real, o: real, R: real)
    requires o > 1.0
  {
    x * full == total * if p * o > R then p - R / o else 0.0
  }

  lemma StakeInFull(x: real, full: real, total: real, p: real, o: real, R: real)
    requires o > 1.0 && Proportion(x, full, total, Stake(p, o, R))
    ensures PartOf(x, full, total, p, o, R)
  {
  }

  /** At full Kelly with a cap that does not bind, the answer is the full-Kelly portfolio. */
  lemma FullKellyStakes(fair: seq<real>, odds: seq<real>, maxExposure: real, out: AllocationResult)
    requires Market(fair, odds) && WithinExposure(|fair|, maxExposure, out)
    requires KellyResult(fair, odds, 1.0, maxExposure, out) && !out.capped
    ensures out.stake[..|fair|] == Stakes(fair, odds, out.reserveRate)
  {
    var f := Stakes(fair, odds, out.reserveRate);
    StakesNonNegative(fair, odds, out.reserveRate);
    assert out.totalStake == Sum(f);
    assert InProportion(f, Sum(f), out.totalStake, f);
    StakesDetermined(f, Sum(f), out.totalStake, out.stake[..|fair|], f);
  }

  /** At full Kelly with a cap that does not bind, no solvent portfolio without leverage has a higher expected log
      wealth than the allocator's, beyond what the beliefs fall short of one, whatever logarithm-like function measures
      it. */
  lemma AllocationMaximisesLogWealth(L: real -> real, fair: seq<real>, odds: seq<real>, maxExposure: real,
                                     out: AllocationResult, g: seq<real>)
    requires IsLogLike(L) && Market(fair, odds) && Sum(fair) <= 1.0 && WithinExposure(|fair|, maxExposure, out)
    requires KellyResult(fair, odds, 1.0, maxExposure, out) && !out.capped
    requires Portfolio(g, |fair|) && Solvent(fair, odds, g)
    ensures Portfolio(out.stake[..|fair|], |fair|)
    ensures ExpectedLog(L, fair, odds, g) <= ExpectedLog(L, fair, odds, out.stake[..|fair|]) + (1.0 - Sum(fair))
  {
    FullKellyStakes(fair, odds, maxExposure, out);
    StakesNonNegative(fair, odds, out.reserveRate);
    KellyMaximisesLogWealth(L, fair, odds, out.reserveRate, g);
  }

  /** For every Kelly fraction up to one and every cap, the stakes are one fraction of the full Kelly stakes: the
      reported total over the full one. */
  lemma StakesAreFraction(fair: seq<real>, odds: seq<real>, kellyFraction: real, maxExposure: real,
                          out: AllocationResult)
    returns (c: real)
    requires Market(fair, odds) && 0.0 < kellyFraction <= 1.0 && 0.0 < maxExposure
    requires WithinExposure(|fair|, maxExposure, out) && KellyResult(fair, odds, kellyFraction, maxExposure, out)
    ensures 0.0 <= c <= 1.0 && IsPart(out.totalStake, c, Sum(Stakes(fair, odds, out.reserveRate)))
    ensures IsFraction(out.stake[..|fair|], c, Stakes(fair, odds, out.reserveRate))
  {
    var f, s := Stakes(fair, odds, out.reserveRate), out.stake[..|fair|];
    StakesNonNegative(fair, odds, out.reserveRate);
    assert ScaledFrom(f, Sum(f), kellyFraction, maxExposure, out);
    c := FractionOfTotal(s, f, Sum(f), out.totalStake, kellyFraction, maxExposure, out.capped);
  }

  lemma FractionOfTotal(s: seq<real>, f: seq<real>, full: real, total: real, kellyFraction: real, maxExposure: real,
                        capped: bool)
    returns (c: real)
    requires full == Sum(f) && total == Sum(s) && InProportion(s, full, total, f)
    requires forall i :: 0 <= i < |f| ==> 0.0 <= f[i] && 0.0 <= s[i]
    requires 0.0 < kellyFraction <= 1.0 && 0.0 < maxExposure
    requires CappedTotal(full, kellyFraction, maxExposure, total, capped)
    ensures 0.0 <= c <= 1.0 && IsPart(total, c, full) && IsFraction(s, c, f)
  {
    SumNonNegative(f);
    SumNonNegative(s);
    if full == 0.0 {
      c := 1.0;
      NothingToScale(kellyFraction, maxExposure, total, capped);
      ProportionOfNothing(f);
      ProportionOfNothing(s);
    } else {
      c := total / full;
      DivMul(total, full, c);
      PartOfTotal(full, total, c, kellyFraction, maxExposure, capped);
      forall i | 0 <= i < |f| ensures IsPart(s[i], c, f[i]) {
        assert Proportion(s[i], full, total, f[i]);
        SamePart(s[i], full, total, f[i], c);
      }
    }
  }

  lemma NothingToScale(kellyFraction: real, maxExposure: real, total: real, capped: bool)
    requires 0.0 < maxExposure && CappedTotal(0.0, kellyFraction, maxExposure, total, capped)
    ensures total == 0.0
  {
  }

  lemma PartOfTotal(full: real, total: real, c: real, kellyFraction: real, maxExposure: real, capped: bool)
    requires 0.0 < full && 0.0 <= total && IsPart(total, c, full) && kellyFraction <= 1.0
    requires CappedTotal(full, kellyFraction, maxExposure, total, capped)
    ensures 0.0 <= c <= 1.0
  {
    MulLe(kellyFraction, 1.0, full);
    CancelLe(0.0, c, full);
    CancelLe(c, 1.0, full);
  }

  lemma SamePart(x: real, full: real, total: real, y: real, c: real)
    requires full != 0.0 && Proportion(x, full, total, y) && IsPart(total, c, full)
    ensures IsPart(x, c, y)
  {
    var cy := c * y;
    assert cy * full == total * y;
    CancelEq(x, cy, full);
  }

  /** What fractional Kelly and the cap leave of the growth: the allocation stays solvent and keeps at least its
      fraction of the full Kelly growth, hence of the growth of any solvent portfolio, up to what the beliefs fall short
      of one. */
  lemma AllocationKeepsGrowth(L: real -> real, fair: seq<real>, odds: seq<real>, kellyFraction: real, maxExposure: real,
                              out: AllocationResult, g: seq<real>) returns (c: real)
    requires IsLogLike(L) && Market(fair, odds) && Sum(fair) <= 1.0 && 0.0 < kellyFraction <= 1.0 && 0.0 < maxExposure
    requires WithinExposure(|fair|, maxExposure, out) && KellyResult(fair, odds, kellyFraction, maxExposure, out)
    requires Portfolio(g, |fair|) && Solvent(fair, odds, g)
    ensures 0.0 <= c <= 1.0 && IsPart(out.totalStake, c, Sum(Stakes(fair, odds, out.reserveRate)))
    ensures Solvent(fair, odds, out.stake[..|fair|])
    ensures AtLeastPart(c, ExpectedLog(L, fair, odds, g) - (1.0 - Sum(fair)),
                        ExpectedLog(L, fair, odds, out.stake[..|fair|]))
    ensures AtLeastPart(c, Sum(fair) - 1.0, ExpectedLog(L, fair, odds, out.stake[..|fair|]))
  {
    var f, s := Stakes(fair, odds, out.reserveRate), out.stake[..|fair|];
    c := StakesAreFraction(fair, odds, kellyFraction, maxExposure, out);
    forall j | 0 <= j < |fair| && fair[j] > 0.0 ensures Wealth(f, odds, j) > 0.0 {
      KellySolvent(fair, odds, out.reserveRate, j);
    }
    FractionKeepsGrowth(L, fair, odds, s, c, f);
    KellyMaximisesLogWealth(L, fair, odds, out.reserveRate, g);
    KellyGrows(L, fair, odds, out.reserveRate);
    var e, y := ExpectedLog(L, fair, odds, f), ExpectedLog(L, fair, odds, s);
    AtLeastPartOfLess(c, ExpectedLog(L, fair, odds, g) - (1.0 - Sum(fair)), e, y);
    AtLeastPartOfLess(c, Sum(fair) - 1.0, e, y);
  }

  /** Relabelling the outcomes, ties in edge included, relabels the stakes and changes nothing else. */
  lemma RelabelAllocation(fair: seq<real>, odds: seq<real>, order: seq<nat>, kellyFraction: real, maxExposure: real,
                          out: AllocationResult, out': AllocationResult)
    requires Market(fair, odds) && Permutation(order, |fair|) && |order| == |fair|
    requires forall t :: 0 <= t < |order| ==> order[t] < |fair|
    requires WithinExposure(|fair|, maxExposure, out) && WithinExposure(|fair|, maxExposure, out') && 0.0 < maxExposure
    requires KellyResult(fair, odds, kellyFraction, maxExposure, out)
    requires Market(Pick(fair, order), Pick(odds, order))
    requires KellyResult(Pick(fair, order), Pick(odds, order), kellyFraction, maxExposure, out')
    ensures out'.reserveRate == out.reserveRate && out'.totalStake == out.totalStake && out'.capped == out.capped
    ensures out'.stake[..|fair|] == Pick(out.stake[..|fair|], order) && out'.bets == out.bets
  {
    var R := out.reserveRate;
    assert BetFlags(Pick(fair, order), Pick(odds, order), R) == Pick(BetFlags(fair, odds, R), order);
    SumReordered(BetFlags(fair, odds, R), order);
    RelabelStakes(fair, odds, order, R);
    ReserveUnique(Pick(fair, order), Pick(odds, order), R, out'.reserveRate);
    StakesNonNegative(fair, odds, R);
    RelabelScaled(Stakes(fair, odds, R), order, kellyFraction, maxExposure, out, out');
  }

  lemma RelabelScaled(f: seq<real>, order: seq<nat>, kellyFraction: real, maxExposure: real,
                      out: AllocationResult, out': AllocationResult)
    requires Permutation(order, |f|) && |order| == |f| && forall t :: 0 <= t < |order| ==> order[t] < |f|
    requires forall i :: 0 <= i < |f| ==> 0.0 <= f[i]
    requires WithinExposure(|f|, maxExposure, out) && WithinExposure(|f|, maxExposure, out') && 0.0 < maxExposure
    requires ScaledFrom(f, Sum(f), kellyFraction, maxExposure, out)
    requires ScaledFrom(Pick(f, order), Sum(Pick(f, order)), kellyFraction, maxExposure, out')
    ensures out'.totalStake == out.totalStake && out'.capped == out.capped
    ensures out'.stake[..|f|] == Pick(out.stake[..|f|], order)
  {
    SumReordered(f, order);
    SameScale(Sum(f), Sum(Pick(f, order)), kellyFraction, maxExposure, out, out');
    RelabelTotals(f, order, Sum(f), out.totalStake, out.stake[..|f|], out'.stake[..|f|]);
  }

  lemma RelabelTotals(f: seq<real>, order: seq<nat>, full: real, total: real, s: seq<real>, s': seq<real>)
    requires Permutation(order, |f|) && |order| == |f| == |s| == |s'| && forall t :: 0 <= t < |order| ==> order[t] < |f|
    requires forall i :: 0 <= i < |f| ==> 0.0 <= f[i] && 0.0 <= s[i] && 0.0 <= s'[i]
    requires full == Sum(f) && Sum(s) == total && Sum(s') == total && (full == 0.0 ==> total == 0.0)
    requires InProportion(s, full, total, f) && InProportion(s', full, total, Pick(f, order))
    ensures s' == Pick(s, order)
  {
    SumReordered(f, order);
    SumReordered(s, order);
    RelabelShares(f, order, full, total, s, s');
  }

  lemma RelabelShares(f: seq<real>, order: seq<nat>, full: real, total: real, s: seq<real>, s': seq<real>)
    requires |order| == |f| == |s| == |s'| && forall t :: 0 <= t < |order| ==> order[t] < |f|
    requires forall i :: 0 <= i < |f| ==> 0.0 <= f[i] && 0.0 <= s[i] && 0.0 <= s'[i]
    requires full == Sum(Pick(f, order)) && Sum(Pick(s, order)) == total && Sum(s') == total
    requires full == 0.0 ==> total == 0.0
    requires InProportion(s, full, total, f) && InProportion(s', full, total, Pick(f, order))
    ensures s' == Pick(s, order)
  {
    RelabelProportions(f, s, order, full, total);
    StakesDetermined(Pick(f, order), full, total, Pick(s, order), s');
  }

  lemma SameScale(full: real, full': real, kellyFraction: real, maxExposure: real, out: AllocationResult,
                  out': AllocationResult)
    requires full == full' && 0.0 < maxExposure
    requires CappedTotal(full, kellyFraction, maxExposure, out.totalStake, out.capped)
    requires CappedTotal(full', kellyFraction, maxExposure, out'.totalStake, out'.capped)
    ensures out'.totalStake == out.totalStake && out'.capped == out.capped
    ensures full == 0.0 ==> out.totalStake == 0.0
  {
  }

  lemma RelabelProportions(f: seq<real>, s: seq<real>, order: seq<nat>, full: real, total: real)
    requires |f| == |s| == |order| && forall t :: 0 <= t < |order| ==> order[t] < |f|
    requires InProportion(s, full, total, f)
    ensures InProportion(Pick(s, order), full, total, Pick(f, order))
  {
  }

  // ---- ties staked in the order they came in leave no choice, whatever the beliefs total ----

  lemma LongestUnique(p: seq<real>, o: seq<real>, k: nat, k': nat)
    requires Market(p, o) && LongestAdmissible(p, o, k) && LongestAdmissible(p, o, k')
    ensures k == k'
  {
  }

  lemma SameScaled(f: seq<real>, kellyFraction: real, maxExposure: real, out: AllocationResult, out': AllocationResult)
    requires (forall i :: 0 <= i < |f| ==> 0.0 <= f[i]) && 0.0 < maxExposure
    requires WithinExposure(|f|, maxExposure, out) && WithinExposure(|f|, maxExposure, out')
    requires ScaledFrom(f, Sum(f), kellyFraction, maxExposure, out)
    requires ScaledFrom(f, Sum(f), kellyFraction, maxExposure, out')
    ensures out'.totalStake == out.totalStake && out'.capped == out.capped && out'.stake == out.stake
  {
    SameScale(Sum(f), Sum(f), kellyFraction, maxExposure, out, out');
    StakesDetermined(f, Sum(f), out.totalStake, out.stake[..|f|], out'.stake[..|f|]);
    forall i | 0 <= i < |out.stake| ensures out'.stake[i] == out.stake[i] {
      if i < |f| { assert out'.stake[..|f|][i] == out.stake[..|f|][i]; }
    }
  }

  /** Two answers staked along the same order. */
  lemma SameAlong(fair: seq<real>, odds: seq<real>, kellyFraction: real, maxExposure: real, out: AllocationResult,
                  out': AllocationResult, order: seq<nat>, k: nat, s0: seq<real>, k': nat, s0': seq<real>)
    requires Market(fair, odds) && WithinExposure(|fair|, maxExposure, out) && WithinExposure(|fair|, maxExposure, out')
    requires 0.0 < maxExposure && StakedAlong(fair, odds, kellyFraction, maxExposure, out, order, k, s0)
    requires StakedAlong(fair, odds, kellyFraction, maxExposure, out', order, k', s0')
    ensures out == out'
  {
    var p, o := Pick(fair, order), Pick(odds, order);
    LongestUnique(p, o, k, k');
    PickInjective(s0, s0', order);
    PlacedTotal(s0, order, PrefixStakeSeq(p, o, k, out.reserveRate));
    SameScaled(s0, kellyFraction, maxExposure, out, out');
  }

  lemma SameOrderOf(fair: seq<real>, odds: seq<real>, order: seq<nat>, order': seq<nat>)
    requires Market(fair, odds) && Permutation(order, |fair|) && Permutation(order', |fair|)
    requires Sorted(Edges(fair, odds), order) && Sorted(Edges(fair, odds), order')
    ensures order == order'
  {
    SortedUnique(Edges(fair, odds), order, order');
  }

  lemma OrderOfResult(fair: seq<real>, odds: seq<real>, kellyFraction: real, maxExposure: real, out: AllocationResult)
    returns (order: seq<nat>, k: nat, s0: seq<real>)
    requires Market(fair, odds) && SortedResult(fair, odds, kellyFraction, maxExposure, out)
    ensures StakedAlong(fair, odds, kellyFraction, maxExposure, out, order, k, s0)
    ensures Permutation(order, |fair|) && Sorted(Edges(fair, odds), order)
  {
    order, k, s0 :| StakedAlong(fair, odds, kellyFraction, maxExposure, out, order, k, s0) &&
    TiesInOrder(Edges(fair, odds), order);
  }

  lemma SortedIsPrefix(fair: seq<real>, odds: seq<real>, kellyFraction: real, maxExposure: real, out: AllocationResult)
    requires Market(fair, odds) && SortedResult(fair, odds, kellyFraction, maxExposure, out)
    ensures PrefixResult(fair, odds, kellyFraction, maxExposure, out)
  {
    var order, k, s0 := OrderOfResult(fair, odds, kellyFraction, maxExposure, out);
  }

  /** The contract of `Allocate` is complete for valid input: any two answers that meet it agree. */
  lemma AllocationDetermined(fair: seq<real>, odds: seq<real>, kellyFraction: real, maxExposure: real,
                             out: AllocationResult, out': AllocationResult)
    requires Market(fair, odds) && 0.0 < maxExposure
    requires WithinExposure(|fair|, maxExposure, out) && SortedResult(fair, odds, kellyFraction, maxExposure, out)
    requires WithinExposure(|fair|, maxExposure, out') && SortedResult(fair, odds, kellyFraction, maxExposure, out')
    ensures out == out'
  {
    var order, k, s0 := OrderOfResult(fair, odds, kellyFraction, maxExposure, out);
    var order', k', s0' := OrderOfResult(fair, odds, kellyFraction, maxExposure, out');
    SameOrderOf(fair, odds, order, order');
    SameAlong(fair, odds, kellyFraction, maxExposure, out, out', order, k, s0, k', s0');
  }
}
