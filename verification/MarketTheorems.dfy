/** One market at one tick from end to end: what the quotes' own prices say about the price and the bets. */
module MarketTheorems {
  import opened Messages
  import opened BookTable
  import opened EngineConfig
  import opened EngineTick
  import opened EngineLoop
  import opened EngineTheorems
  import Reals
  import Sums
  import Devig
  import Shin
  import Power
  import Consensus
  import Bookmaker
  import MarginRoundTrip
  import KellyAllocator
  import KellyTheorems

  // ---- which quotes count ----

  ghost predicate Underway(sqrt: real -> real, q: seq<real>, tolerance: real, n: nat)
    requires Shin.Book(q)
  {
    Shin.BisectingAt(sqrt, q, tolerance, Shin.Halved(sqrt, q, n), n)
  }

  /** While no midpoint hits, the bracket goes on halving. */
  lemma StillBisecting(sqrt: real -> real, q: seq<real>, tolerance: real, n: nat)
    requires Shin.IsSqrt(sqrt) && Shin.Book(q) && |q| <= MAX_OUTCOMES && Shin.ShinExcess(sqrt, q, Shin.SHIN_HI) <= 0.0
    requires Devig.NoHit(Shin.Hits(sqrt, q, tolerance), n)
    ensures Underway(sqrt, q, tolerance, n)
  {
    FirstHalving(sqrt, q, tolerance);
    var m := 0;
    while m < n
      invariant m <= n && Underway(sqrt, q, tolerance, m)
    {
      Devig.Missed(Shin.Hits(sqrt, q, tolerance), n, m);
      NextHalving(sqrt, q, tolerance, m, m + 1);
      m := m + 1;
    }
  }

  lemma FirstHalving(sqrt: real -> real, q: seq<real>, tolerance: real)
    requires Shin.IsSqrt(sqrt) && Shin.Book(q) && Shin.ShinExcess(sqrt, q, Shin.SHIN_HI) <= 0.0
    ensures Underway(sqrt, q, tolerance, 0)
  {
    Shin.BracketStart(sqrt, q);
  }

  lemma NextHalving(sqrt: real -> real, q: seq<real>, tolerance: real, m: nat, n: nat)
    requires Shin.IsSqrt(sqrt) && Shin.Book(q) && |q| <= MAX_OUTCOMES && n == m + 1
    requires Underway(sqrt, q, tolerance, m) && !Shin.Hits(sqrt, q, tolerance)(m)
    ensures Underway(sqrt, q, tolerance, n)
  {
    Shin.HitIsNear(sqrt, q, tolerance, m);
    Shin.BisectOn(sqrt, q, tolerance, Shin.Halved(sqrt, q, m), m);
    assert Shin.Halved(sqrt, q, n) == Shin.HalvedOnce(sqrt, q, Shin.Halved(sqrt, q, m));
  }

  /** With the default settings Shin's method fails only when its bracket is refused ... */
  lemma ShinOk(sqrt: real -> real, q: seq<real>, r: Devig.DevigResult)
    requires Shin.IsSqrt(sqrt) && Shin.Book(q) && |q| <= MAX_OUTCOMES && Shin.ShinExcess(sqrt, q, Shin.SHIN_HI) <= 0.0
    requires Shin.ShinOutcome(sqrt, q, Shin.SHIN_TOLERANCE, Shin.SHIN_MAX_ITERATIONS, r)
    ensures r.UsableAsDistribution()
  {
    if r.status != Devig.Ok {
      var hits := Shin.Hits(sqrt, q, Shin.SHIN_TOLERANCE);
      Devig.NoHitBefore(hits, 51, Shin.SHIN_MAX_ITERATIONS);
      StillBisecting(sqrt, q, Shin.SHIN_TOLERANCE, 51);
      Shin.DefaultToleranceReached();
    }
  }

  /** ... and the power method exactly when no power up to the 1024th brings the total down to one. */
  lemma PowerOk(exp: real -> real, l: seq<real>, r: Devig.DevigResult)
    requires Power.IsExp(exp) && Power.Logs(l) && |l| <= MAX_OUTCOMES
    requires Power.PowerOutcome(exp, l, Power.POWER_TOLERANCE, Power.POWER_MAX_ITERATIONS, r)
    ensures r.UsableAsDistribution() <==> Power.F(exp, l, 1024.0) <= 0.0
  {
    if Power.F(exp, l, 1024.0) <= 0.0 {
      var top :| Power.SolvedFrom(exp, l, Power.POWER_TOLERANCE, Power.POWER_MAX_ITERATIONS, top, r);
      if r.status != Devig.Ok {
        Devig.NoHitBefore(Power.Hits(exp, l, Power.POWER_TOLERANCE, top), 91, Power.POWER_MAX_ITERATIONS);
        Power.SearchConverges(exp, l, top);
      }
    }
  }

  lemma UsableIff(lib: Library, m: Method, odds: seq<real>, r: Devig.DevigResult)
    requires lib.Valid() && DevigAnswer(lib, m, odds, r)
    requires 1 <= |odds| <= MAX_OUTCOMES && forall i :: 0 <= i < |odds| ==> odds[i] >= 1.001
    ensures r.UsableAsDistribution() <==> Sums.Sum(Devig.Implied(odds)) > 1.0 && Bracketed(lib, m, odds)
  {
    if Sums.Sum(Devig.Implied(odds)) > 1.0 {
      match m {
        case UseMultiplicative =>
        case UsePower =>
          Power.LogsOfBook(lib.exp, lib.log, odds);
          PowerOk(lib.exp, Power.Logarithms(lib.log, odds), r);
        case UseShin =>
          Shin.BettableOddsAreBracketed(lib.sqrt, odds);
          ShinOk(lib.sqrt, Devig.Implied(odds), r);
      }
    }
  }

  /** The one method that can fail on legal prices is the power method: when the 1024th powers of the implied
      probabilities still total more than one. */
  ghost predicate Bracketed(lib: Library, m: Method, odds: seq<real>)
    requires |odds| <= MAX_OUTCOMES && forall i :: 0 <= i < |odds| ==> odds[i] > 1.0
  {
    m == UsePower ==> Power.F(lib.exp, Power.Logarithms(lib.log, odds), 1024.0) <= 0.0
  }

  /** A fresh quote of one to four prices of at least 1.001 counts exactly when its implied probabilities total more
      than one and the power method, if that is in force, does not fail. */
  lemma QuoteCountsIff(lib: Library, s: Settings, ts: u64, q: CleanQuote, odds: seq<real>, input: Consensus.BookInput)
    requires lib.Valid() && InputFor(lib, s, ts, q, input) && !Stale(q, ts, StaleAfter(s))
    requires 1 <= q.outcomeCount == |odds|
    requires forall i :: 0 <= i < |odds| ==> 1001 <= q.oddsMilli[i] && odds[i] == q.oddsMilli[i] as real / 1000.0
    ensures input.available <==> Sums.Sum(Devig.Implied(odds)) > 1.0 && Bracketed(lib, s.devigMethod, odds)
  {
    assert odds == DecimalOdds(q);
    var r: Devig.DevigResult :|
      DevigAnswer(lib, s.devigMethod, odds, r) && |r.prob| == MAX_OUTCOMES && r.count <= MAX_OUTCOMES &&
      input == InputOf(r);
    UsableIff(lib, s.devigMethod, odds, r);
  }

  // ---- the price against the quotes ----

  /** Book b is among those averaged, by the counts and weights of the books alone. */
  ghost predicate Counts(e: Entry, b: nat) {
    b < |e.inputs| == |e.quotes| && Consensus.Counts(e.inputs[b], e.fair.count)
  }

  /** If every book that counts offers at most as much on outcome i as on outcome j, the price makes i at least as
      likely as j. */
  lemma PriceFollowsQuotes(lib: Library, betting: bool, e: Entry, i: nat, j: nat)
    requires lib.Valid() && SoundEntry(lib, betting, e) && e.fair.hasFairPrice && i < e.fair.count && j < e.fair.count
    requires forall b: nat :: Counts(e, b) ==> e.quotes[b].oddsMilli[i] <= e.quotes[b].oddsMilli[j]
    ensures e.fair.prob[j] <= e.fair.prob[i]
  {
    var n := e.fair.count;
    var f := Consensus.SomeFirst(e.inputs);
    Consensus.FairPriceAverages(e.inputs, e.fair, f);
    var x, y := Consensus.CountedOpinions(e.inputs, n, i), Consensus.CountedOpinions(e.inputs, n, j);
    SumsInOrder(lib, betting, e, i, j, x, y);
    AverageInOrder(Sums.Sum(x), Sums.Sum(y), e.fair.prob[i], e.fair.prob[j], e.fair.totalWeight);
  }

  lemma SumsInOrder(lib: Library, betting: bool, e: Entry, i: nat, j: nat, x: seq<real>, y: seq<real>)
    requires lib.Valid() && SoundEntry(lib, betting, e) && i < e.fair.count && j < e.fair.count
    requires forall b: nat :: Counts(e, b) ==> e.quotes[b].oddsMilli[i] <= e.quotes[b].oddsMilli[j]
    requires x == Consensus.CountedOpinions(e.inputs, e.fair.count, i)
    requires y == Consensus.CountedOpinions(e.inputs, e.fair.count, j)
    ensures Sums.Sum(y) <= Sums.Sum(x)
  {
    forall b | 0 <= b < |e.inputs| ensures y[b] <= x[b] {
      if Counts(e, b) { OpinionsInOrder(lib, betting, e, b, i, j); }
    }
    Sums.SumLe(y, x);
  }

  lemma OpinionsInOrder(lib: Library, betting: bool, e: Entry, b: nat, i: nat, j: nat)
    requires lib.Valid() && SoundEntry(lib, betting, e) && Counts(e, b) && i < e.fair.count && j < e.fair.count
    requires e.quotes[b].oddsMilli[i] <= e.quotes[b].oddsMilli[j]
    ensures Consensus.Contribution(e.inputs[b], j) <= Consensus.Contribution(e.inputs[b], i)
  {
    assert InputFor(lib, e.settings, e.group.ts, e.quotes[b], e.inputs[b]);
    InputFollowsQuote(lib, e.settings, e.group.ts, e.quotes[b], e.inputs[b]);
    Reals.MulLe(e.inputs[b].prob[j], e.inputs[b].prob[i], e.inputs[b].weight);
  }

  lemma AverageInOrder(x: real, y: real, p: real, p': real, total: real)
    requires 0.0 < total && Consensus.IsProduct(x, p, total) && Consensus.IsProduct(y, p', total) && y <= x
    ensures p' <= p
  {
    Reals.CancelLe(p', p, total);
  }

  /** A price totals one up to the tolerance of the method in force: exactly one under the multiplicative method, within
      1e-13 under the power method and within 1e-15 under Shin's. */
  lemma PriceTotalsOne(lib: Library, betting: bool, e: Entry)
    requires lib.Valid() && SoundEntry(lib, betting, e) && e.fair.hasFairPrice
    ensures var total := Sums.Sum(e.fair.prob[..e.fair.count]);
      match e.settings.devigMethod
      case UseMultiplicative => total == 1.0
      case UsePower => 1.0 - 0.000_000_000_000_1 <= total <= 1.0 + 0.000_000_000_000_1
      case UseShin => 1.0 - 0.000_000_000_000_001 <= total <= 1.0 + 0.000_000_000_000_001
  {
    Consensus.TotalAmongBooks(e.inputs, e.fair);
    var n, total := e.fair.count, Sums.Sum(e.fair.prob[..e.fair.count]);
    var least :| least in Consensus.Chosen(e.inputs) && Sums.Sum(least.prob[..n]) <= total;
    var most :| most in Consensus.Chosen(e.inputs) && total <= Sums.Sum(most.prob[..n]);
    ChosenTotalsOne(lib, betting, e, least);
    ChosenTotalsOne(lib, betting, e, most);
  }

  lemma ChosenTotalsOne(lib: Library, betting: bool, e: Entry, input: Consensus.BookInput)
    requires lib.Valid() && SoundEntry(lib, betting, e) && e.fair.hasFairPrice && input in Consensus.Chosen(e.inputs)
    ensures 1.0 - Slack(e.settings.devigMethod) <= Sums.Sum(input.prob[..e.fair.count]) <=
      1.0 + Slack(e.settings.devigMethod)
  {
    var b := FreshSource(lib, e, input);
    assert InputFor(lib, e.settings, e.group.ts, e.quotes[b], e.inputs[b]);
    InputTotalsOne(lib, e.settings, e.group.ts, e.quotes[b], e.inputs[b]);
  }

  /** The prices are an unclamped proportional quote of the belief p. */
  ghost predicate QuotesBelief(pow: (real, real) -> real, cfg: Bookmaker.BookConfig, p: Bookmaker.Probs,
                               odds: OddsArray) {
    cfg.vigModel == Bookmaker.Proportional && 0.0 < cfg.overround && Bookmaker.IsBelief(p) &&
    exists q: Bookmaker.Probs :: Bookmaker.QuotedFrom(pow, cfg, p, q, odds) && Bookmaker.Unclamped(q)
  }

  /** What a book's quote is devigged to is what the book believed of that same outcome. */
  lemma OpinionIsBelief(lib: Library, s: Settings, ts: u64, q: CleanQuote, input: Consensus.BookInput,
                        pow: (real, real) -> real, cfg: Bookmaker.BookConfig, p: Bookmaker.Probs, k: nat)
    requires lib.Valid() && InputFor(lib, s, ts, q, input) && input.available && s.devigMethod == UseMultiplicative
    requires q.outcomeCount == 3 && QuotesBelief(pow, cfg, p, q.oddsMilli) && k < 3
    ensures Bookmaker.Within(input.prob[k], p[k], MarginRoundTrip.RECOVERY)
  {
    var v := OpinionIsShare(lib, s, ts, q, MarginRoundTrip.Decimal(q.oddsMilli), input);
    var shaded: Bookmaker.Probs :|
      Bookmaker.QuotedFrom(pow, cfg, p, shaded, q.oddsMilli) && Bookmaker.Unclamped(shaded);
    MarginRoundTrip.BeliefRecovered(pow, cfg, p, shaded, q.oddsMilli, v, k);
  }

  lemma OpinionIsShare(lib: Library, s: Settings, ts: u64, q: CleanQuote, odds: seq<real>, input: Consensus.BookInput)
    returns (v: seq<real>)
    requires lib.Valid() && InputFor(lib, s, ts, q, input) && input.available && s.devigMethod == UseMultiplicative
    requires |odds| == q.outcomeCount && forall i :: 0 <= i < |odds| ==> odds[i] == q.oddsMilli[i] as real / 1000.0
    ensures v == input.prob[..q.outcomeCount] && Devig.ValidOdds(odds) && Devig.EqualShares(Devig.Implied(odds), v)
  {
    assert odds == DecimalOdds(q);
    var r: Devig.DevigResult :|
      DevigAnswer(lib, s.devigMethod, odds, r) && |r.prob| == MAX_OUTCOMES && r.count <= MAX_OUTCOMES &&
      input == InputOf(r);
    UsableIsTilted(lib, s.devigMethod, odds, r);
    v := r.prob[..r.count];
  }

  /** Every book that counts quotes its own belief. */
  ghost predicate AllQuoteBeliefs(e: Entry, pow: (real, real) -> real, cfgs: nat -> Bookmaker.BookConfig,
                                  beliefs: nat -> Bookmaker.Probs) {
    forall b: nat :: Contributes(e, b) ==>
      e.quotes[b].outcomeCount == 3 && QuotesBelief(pow, cfgs(b), beliefs(b), e.quotes[b].oddsMilli)
  }

  ghost predicate BelievesAtMost(e: Entry, beliefs: nat -> Bookmaker.Probs, k: nat, b: nat)
    requires k < 3 && k < e.fair.count
  {
    Contributes(e, b) && beliefs(b)[k] * (1.0 - MarginRoundTrip.RECOVERY) <= e.fair.prob[k]
  }

  ghost predicate BelievesAtLeast(e: Entry, beliefs: nat -> Bookmaker.Probs, k: nat, b: nat)
    requires k < 3 && k < e.fair.count
  {
    Contributes(e, b) && e.fair.prob[k] <= beliefs(b)[k] * (1.0 + MarginRoundTrip.RECOVERY)
  }

  /** From belief to price: when the books that count shade proportionally and the multiplicative method is in force,
      each consensus probability lies, up to the relative error of rounding, between what two of them believe of that
      same outcome. */
  lemma ConsensusRecoversBeliefs(lib: Library, betting: bool, e: Entry, pow: (real, real) -> real,
                                 cfgs: nat -> Bookmaker.BookConfig, beliefs: nat -> Bookmaker.Probs, k: nat)
    requires lib.Valid() && SoundEntry(lib, betting, e) && e.fair.hasFairPrice && k < 3 && k < e.fair.count
    requires e.settings.devigMethod == UseMultiplicative && AllQuoteBeliefs(e, pow, cfgs, beliefs)
    ensures exists b :: BelievesAtMost(e, beliefs, k, b)
    ensures exists b :: BelievesAtLeast(e, beliefs, k, b)
  {
    PriceLiesAmongBooks(lib, betting, e, k);
    var b :| BoundsBelow(e, k, b);
    var c :| BoundsAbove(e, k, c);
    ContributorBelieves(lib, betting, e, pow, cfgs, beliefs, k, b);
    ContributorBelieves(lib, betting, e, pow, cfgs, beliefs, k, c);
    assert BelievesAtMost(e, beliefs, k, b) && BelievesAtLeast(e, beliefs, k, c);
  }

  lemma ContributorBelieves(lib: Library, betting: bool, e: Entry, pow: (real, real) -> real,
                            cfgs: nat -> Bookmaker.BookConfig, beliefs: nat -> Bookmaker.Probs, k: nat, b: nat)
    requires lib.Valid() && SoundEntry(lib, betting, e) && k < 3 && Contributes(e, b)
    requires e.settings.devigMethod == UseMultiplicative && AllQuoteBeliefs(e, pow, cfgs, beliefs)
    ensures Bookmaker.Within(e.inputs[b].prob[k], beliefs(b)[k], MarginRoundTrip.RECOVERY)
  {
    assert InputFor(lib, e.settings, e.group.ts, e.quotes[b], e.inputs[b]);
    OpinionIsBelief(lib, e.settings, e.group.ts, e.quotes[b], e.inputs[b], pow, cfgs(b), beliefs(b), k);
  }

  // ---- the bets against the prices ----

  /** One record for each positive stake, with everything it should carry, and no others. */
  lemma {:induction false} StakesAreLogged(ts: u64, m: nat, prob: seq<real>, best: BestOdds, stake: seq<real>, n: nat)
    requires n <= MAX_OUTCOMES == |stake| == |prob|
    ensures forall i :: 0 <= i < n && stake[i] > 0.0 ==>
      BetRecord(ts, m, i, stake[i], best[i], prob[i]) in BetsOf(ts, m, prob, best, stake, n)
    ensures forall bet :: bet in BetsOf(ts, m, prob, best, stake, n) ==>
      bet.outcome < n && stake[bet.outcome] > 0.0 &&
      bet == BetRecord(ts, m, bet.outcome, stake[bet.outcome], best[bet.outcome], prob[bet.outcome])
  {
    if n > 0 { StakesAreLogged(ts, m, prob, best, stake, n - 1); }
  }

  /** With legal prices for every outcome and positive limits, a market is bet on exactly when some outcome's price
      beats its probability; without a legal price for every outcome it is never bet on. */
  lemma BetsNeedAnEdge(s: Settings, ts: u64, m: nat, fair: Consensus.ConsensusResult, best: BestOdds,
                       bets: seq<BetRecord>)
    requires BetsFrom(s, ts, m, fair, best, bets) && fair.hasFairPrice && 1 <= fair.count
    requires s.kellyFraction > 0.0 && s.maxExposure > 0.0 && forall i :: 0 <= i < fair.count ==> 0.0 <= fair.prob[i]
    ensures (exists i :: 0 <= i < fair.count && best[i] < 1001) ==> bets == []
    ensures (forall i :: 0 <= i < fair.count ==> 1001 <= best[i]) ==>
      (bets != [] <==> exists i :: 0 <= i < fair.count && Beats(best[i], fair.prob[i]))
  {
    if HaveAll(best, fair.count) { BetsIffBeaten(s, ts, m, fair, best, bets); }
  }

  ghost predicate SomeBeaten(best: BestOdds, p: seq<real>) {
    |p| <= MAX_OUTCOMES && exists i :: 0 <= i < |p| && Beats(best[i], p[i])
  }

  lemma BetsIffBeaten(s: Settings, ts: u64, m: nat, fair: Consensus.ConsensusResult, best: BestOdds,
                      bets: seq<BetRecord>)
    requires BetsFrom(s, ts, m, fair, best, bets) && fair.hasFairPrice && 1 <= fair.count && HaveAll(best, fair.count)
    requires s.kellyFraction > 0.0 && s.maxExposure > 0.0 && forall i :: 0 <= i < fair.count ==> 0.0 <= fair.prob[i]
    ensures bets != [] <==> SomeBeaten(best, fair.prob[..fair.count])
  {
    var alloc := SomeAnswer(s, ts, m, fair, best, bets);
    AnswerBetsOnAnEdge(s, fair.count, best, fair.prob[..fair.count], BestDecimal(best, fair.count), alloc);
    NonEmptyIff(ts, m, fair.prob, best, alloc.stake, fair.count);
  }

  /** The decimal price times the probability is more than one. */
  ghost predicate Beats(odds: u32, p: real) { p * odds as real > 1000.0 }

  lemma SomeAnswer(s: Settings, ts: u64, m: nat, fair: Consensus.ConsensusResult, best: BestOdds, bets: seq<BetRecord>)
    returns (alloc: KellyAllocator.AllocationResult)
    requires BetsFrom(s, ts, m, fair, best, bets) && fair.hasFairPrice && HaveAll(best, fair.count)
    ensures
      AllocationAnswer(fair.prob[..fair.count], BestDecimal(best, fair.count), s.kellyFraction, s.maxExposure, alloc)
    ensures |alloc.stake| == MAX_OUTCOMES && bets == BetsOf(ts, m, fair.prob, best, alloc.stake, fair.count)
  {
    alloc :|
      AllocationAnswer(fair.prob[..fair.count], BestDecimal(best, fair.count), s.kellyFraction, s.maxExposure, alloc) &&
      |alloc.stake| == MAX_OUTCOMES && bets == BetsOf(ts, m, fair.prob, best, alloc.stake, fair.count);
  }

  lemma NonEmptyIff(ts: u64, m: nat, prob: seq<real>, best: BestOdds, stake: seq<real>, n: nat)
    requires n <= MAX_OUTCOMES == |stake| == |prob|
    ensures BetsOf(ts, m, prob, best, stake, n) != [] <==> exists i :: 0 <= i < n && stake[i] > 0.0
  {
    StakesAreLogged(ts, m, prob, best, stake, n);
    var bets := BetsOf(ts, m, prob, best, stake, n);
    if bets != [] { assert bets[0] in bets; }
  }

  lemma AnswerBetsOnAnEdge(s: Settings, n: nat, best: BestOdds, p: seq<real>, o: seq<real>,
                           alloc: KellyAllocator.AllocationResult)
    requires 1 <= n == |p| <= MAX_OUTCOMES && HaveAll(best, n) && o == BestDecimal(best, n)
    requires s.kellyFraction > 0.0 && s.maxExposure > 0.0 && forall i :: 0 <= i < n ==> 0.0 <= p[i]
    requires AllocationAnswer(p, o, s.kellyFraction, s.maxExposure, alloc)
    ensures |alloc.stake| == MAX_OUTCOMES
    ensures (exists i :: 0 <= i < n && alloc.stake[i] > 0.0) <==> SomeBeaten(best, p)
  {
    assert KellyAllocator.ValidInput(p, o, s.kellyFraction, s.maxExposure);
    HasBetIff(p, o, s.kellyFraction, s.maxExposure, alloc);
    SomeEdgeIff(n, best, p, o);
    SomeStakeIff(alloc.stake[..n], alloc.totalStake);
    assert forall i :: 0 <= i < n ==> alloc.stake[..n][i] == alloc.stake[i];
  }

  lemma HasBetIff(p: seq<real>, o: seq<real>, kellyFraction: real, maxExposure: real,
                  alloc: KellyAllocator.AllocationResult)
    requires KellyAllocator.ValidInput(p, o, kellyFraction, maxExposure)
    requires AllocationAnswer(p, o, kellyFraction, maxExposure, alloc)
    ensures alloc.hasBet <==> KellyAllocator.SomeEdge(p, o)
  {
    KellyTheorems.SortedIsPrefix(p, o, kellyFraction, maxExposure, alloc);
    KellyAllocator.BetsOnAnEdge(p, o, kellyFraction, maxExposure, alloc);
  }

  lemma SomeEdgeIff(n: nat, best: BestOdds, p: seq<real>, o: seq<real>)
    requires n == |p| <= MAX_OUTCOMES && o == BestDecimal(best, n)
    ensures KellyAllocator.SomeEdge(p, o) <==> SomeBeaten(best, p)
  {
    forall i | 0 <= i < n ensures Beats(best[i], p[i]) <==> KellyAllocator.HasEdge(p[i], o[i]) {
      BeatsInDecimal(best[i], p[i], o[i]);
    }
  }

  lemma BeatsInDecimal(odds: u32, p: real, o: real)
    requires o == odds as real / 1000.0
    ensures Beats(odds, p) <==> KellyAllocator.HasEdge(p, o)
  {
    var x, y := p * odds as real, p * o;
    assert x == 1000.0 * y;
  }

  lemma SomeStakeIff(stake: seq<real>, total: real)
    requires total == Sums.Sum(stake) && forall i :: 0 <= i < |stake| ==> 0.0 <= stake[i]
    ensures total > 0.0 <==> exists i :: 0 <= i < |stake| && stake[i] > 0.0
  {
    if i :| 0 <= i < |stake| && stake[i] > 0.0 { Sums.SumAtLeastTerm(stake, i); }
    if forall i :: 0 <= i < |stake| ==> stake[i] == 0.0 { KellyAllocator.NothingStaked(stake); }
  }

  /** The positive ones of these stakes are logged, each at the best price of its own outcome, and nothing else is. */
  ghost predicate Logged(bets: seq<BetRecord>, ts: u64, m: nat, prob: seq<real>, best: BestOdds, x: seq<real>)
    requires |x| <= MAX_OUTCOMES == |prob|
  {
    (forall i :: 0 <= i < |x| && x[i] > 0.0 ==> BetRecord(ts, m, i, x[i], best[i], prob[i]) in bets) &&
    forall bet :: bet in bets ==>
      bet.outcome < |x| && x[bet.outcome] > 0.0 &&
      bet == BetRecord(ts, m, bet.outcome, x[bet.outcome], best[bet.outcome], prob[bet.outcome])
  }

  /** Decimal prices from thousandths. */
  ghost predicate InDecimal(o: seq<real>, best: BestOdds, n: nat) {
    |o| == n <= MAX_OUTCOMES && forall i :: 0 <= i < n ==> o[i] > 1.0 && o[i] == best[i] as real / 1000.0
  }

  /** The bets in full, when the price totals at most one: the stakes x share out the Kelly fraction of what the reserve
      rate R leaves, or the exposure limit if that is less, in proportion to p - R/o among the outcomes with p*o > R;
      the positive ones are logged. */
  lemma BetsAreKelly(s: Settings, ts: u64, m: nat, fair: Consensus.ConsensusResult, best: BestOdds,
                     bets: seq<BetRecord>, o: seq<real>)
    returns (x: seq<real>, R: real)
    requires BetsFrom(s, ts, m, fair, best, bets) && fair.hasFairPrice && 1 <= fair.count
    requires s.kellyFraction > 0.0 && s.maxExposure > 0.0 && Sums.Sum(fair.prob[..fair.count]) <= 1.0
    requires InDecimal(o, best, fair.count)
    requires forall i :: 0 <= i < fair.count ==> 0.0 <= fair.prob[i] && 1001 <= best[i]
    ensures |x| == fair.count && 0.0 <= R <= 1.0 && forall i :: 0 <= i < |x| ==> 0.0 <= x[i]
    ensures KellyTheorems.IsCapped(Sums.Sum(x), 1.0 - R, s.kellyFraction, s.maxExposure)
    ensures KellyTheorems.InParts(x, 1.0 - R, Sums.Sum(x), fair.prob[..fair.count], o, R)
    ensures Logged(bets, ts, m, fair.prob, best, x)
  {
    DecimalIsBest(o, best, fair.count);
    var alloc := SomeAnswer(s, ts, m, fair, best, bets);
    x, R := AnswerInParts(s, fair.prob[..fair.count], o, alloc);
    AnswerIsLogged(ts, m, fair.prob, best, alloc.stake, x);
  }

  lemma DecimalIsBest(o: seq<real>, best: BestOdds, n: nat)
    requires InDecimal(o, best, n)
    ensures o == BestDecimal(best, n)
  {
  }

  lemma AnswerInParts(s: Settings, p: seq<real>, o: seq<real>, alloc: KellyAllocator.AllocationResult)
    returns (x: seq<real>, R: real)
    requires KellyAllocator.ValidInput(p, o, s.kellyFraction, s.maxExposure) && Sums.Sum(p) <= 1.0
    requires AllocationAnswer(p, o, s.kellyFraction, s.maxExposure, alloc)
    ensures |alloc.stake| == MAX_OUTCOMES && x == alloc.stake[..|p|]
    ensures 0.0 <= R <= 1.0 && forall i :: 0 <= i < |x| ==> 0.0 <= x[i]
    ensures KellyTheorems.IsCapped(Sums.Sum(x), 1.0 - R, s.kellyFraction, s.maxExposure)
    ensures KellyTheorems.InParts(x, 1.0 - R, Sums.Sum(x), p, o, R)
  {
    x, R := alloc.stake[..|p|], alloc.reserveRate;
    KellyTheorems.AnswerInFull(p, o, s.kellyFraction, s.maxExposure, alloc, 1.0 - R);
  }

  lemma AnswerIsLogged(ts: u64, m: nat, prob: seq<real>, best: BestOdds, stake: seq<real>, x: seq<real>)
    requires |x| <= MAX_OUTCOMES == |prob| == |stake| && x == stake[..|x|]
    ensures Logged(BetsOf(ts, m, prob, best, stake, |x|), ts, m, prob, best, x)
  {
    StakesAreLogged(ts, m, prob, best, stake, |x|);
  }
}
