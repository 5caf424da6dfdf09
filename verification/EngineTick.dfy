/** What the engine does with one market at one tick: collect fresh quotes, price them, size bets. */
module EngineTick {
  import opened Messages
  import opened BookTable
  import opened EngineConfig
  import Reals
  import Sums
  import Devig
  import Shin
  import Power
  import Consensus
  import KellyAllocator
  import KellyTheorems

  type EightBytes = b: seq<bv8> | |b| == 8 witness [0, 0, 0, 0, 0, 0, 0, 0]

  /** The library functions the solvers use, and how a number is laid out in memory. */
  datatype Library = Library(sqrt: real -> real, exp: real -> real, log: real -> real, bits: real -> EightBytes) {
    ghost predicate Valid() { Shin.IsSqrt(sqrt) && Power.IsExp(exp) && Power.IsLog(exp, log) }
  }

  // ---- removing the margin ----

  /** What the configured method answers. */
  ghost predicate DevigAnswer(lib: Library, m: Method, odds: seq<real>, r: Devig.DevigResult) {
    Devig.GuardedResult(odds, r) &&
    (Devig.ValidOdds(odds) && Sums.Sum(Devig.Implied(odds)) > 1.0 ==>
      match m
      case UseMultiplicative => Devig.MultiplicativeOutcome(Devig.Implied(odds), r)
      case UsePower =>
        Power.PowerOutcome(lib.exp, Power.Logarithms(lib.log, odds), Power.POWER_TOLERANCE,
                           Power.POWER_MAX_ITERATIONS, r)
      case UseShin => Shin.ShinOutcome(lib.sqrt, Devig.Implied(odds), Shin.SHIN_TOLERANCE, Shin.SHIN_MAX_ITERATIONS, r))
  }

  /** The contracts of the three methods are complete: any two answers to the same odds that meet them agree. */
  lemma DevigDetermined(lib: Library, m: Method, odds: seq<real>, r: Devig.DevigResult, r': Devig.DevigResult)
    requires lib.Valid() && DevigAnswer(lib, m, odds, r) && DevigAnswer(lib, m, odds, r')
    ensures r == r'
  {
    if Devig.ValidOdds(odds) && Sums.Sum(Devig.Implied(odds)) > 1.0 {
      var q := Devig.Implied(odds);
      match m {
        case UseMultiplicative =>
          Devig.EqualSharesUnique(q, r.prob[..r.count], r'.prob[..r'.count]);
          SamePadding(r.prob, r'.prob, r.count);
        case UsePower =>
          Power.LogsOfBook(lib.exp, lib.log, odds);
          Power.PowerDetermined(lib.exp, Power.Logarithms(lib.log, odds), Power.POWER_TOLERANCE,
                                Power.POWER_MAX_ITERATIONS, r, r');
        case UseShin =>
          Shin.ShinDetermined(lib.sqrt, q, Shin.SHIN_TOLERANCE, Shin.SHIN_MAX_ITERATIONS, r, r');
      }
    }
  }

  lemma SamePadding(a: seq<real>, b: seq<real>, n: nat)
    requires n <= |a| == |b| && a[..n] == b[..n] && forall i :: n <= i < |a| ==> a[i] == b[i]
    ensures a == b
  {
    forall i | 0 <= i < |a| ensures a[i] == b[i] {
      if i < n { assert a[..n][i] == b[..n][i]; }
    }
  }

  method RunDevig(lib: Library, m: Method, odds: seq<real>) returns (r: Devig.DevigResult)
    requires lib.Valid()
    ensures DevigAnswer(lib, m, odds, r)
  {
    match m {
      case UseMultiplicative => r := Devig.Multiplicative(odds);
      case UsePower => r := Power.Power(lib.exp, lib.log, odds, Power.POWER_TOLERANCE, Power.POWER_MAX_ITERATIONS);
      case UseShin => r := Shin.Shin(lib.sqrt, odds, Shin.SHIN_TOLERANCE, Shin.SHIN_MAX_ITERATIONS);
    }
  }

  // ---- the books of a market ----

  /** Records carry at most four outcomes. */
  ghost predicate Clean(h: seq<Receipt>) {
    forall i :: 0 <= i < |h| ==> h[i].update.outcomeCount <= MAX_OUTCOMES
  }

  type CleanQuote = q: Quote | q.outcomeCount <= MAX_OUTCOMES witness NO_QUOTE

  lemma {:induction false} SlotsAreClean(h: seq<Receipt>, m: nat, b: nat)
    requires Clean(h)
    ensures SlotAfter(h, m, b).outcomeCount <= MAX_OUTCOMES
  {
    if h != [] {
      SlotsAreClean(h[..|h| - 1], m, b);
    }
  }

  /** The staleness limit in nanoseconds, in 64-bit arithmetic. */
  function StaleAfter(s: Settings): u64 { (s.staleMs * 1_000_000) % TWO_64 }

  /** In ticks of 100 ms: a quote taken in at one tick is stale at another exactly when that is later by at least the
      configured milliseconds. */
  lemma StaleInTicks(s: Settings, q: Quote, taken: nat, now: nat)
    requires s.staleMs <= 3_600_000 && q.seqNo != 0xFFFF_FFFF_FFFF_FFFF
    requires q.recvTimestamp == taken * 100_000_000 && now * 100_000_000 < TWO_64
    ensures Stale(q, now * 100_000_000, StaleAfter(s)) <==> taken < now && 100 * (now - taken) >= s.staleMs
  {
    assert StaleAfter(s) == s.staleMs * 1_000_000;
  }

  function DecimalOdds(q: CleanQuote): (o: seq<real>)
    ensures |o| == q.outcomeCount
  {
    seq(q.outcomeCount, i requires 0 <= i < q.outcomeCount => q.oddsMilli[i] as real / 1000.0)
  }

  /** A devigged book as input to the consensus, if its answer is a distribution. */
  function InputOf(r: Devig.DevigResult): Consensus.BookInput
    requires |r.prob| == MAX_OUTCOMES && r.count <= MAX_OUTCOMES
  {
    if r.UsableAsDistribution() then Consensus.BookInput(r.prob, r.count, 1.0, true) else Consensus.NO_INPUT
  }

  ghost predicate InputFor(lib: Library, s: Settings, ts: u64, q: CleanQuote, input: Consensus.BookInput) {
    if Stale(q, ts, StaleAfter(s)) then input == Consensus.NO_INPUT
    else exists r: Devig.DevigResult ::
      DevigAnswer(lib, s.devigMethod, DecimalOdds(q), r) && |r.prob| == MAX_OUTCOMES && r.count <= MAX_OUTCOMES &&
      input == InputOf(r)
  }

  /** Read off the quote's own prices: a book that counts is fresh, has one to four prices above 1.000, and gives the
      shorter price the higher probability, in inverse proportion under the multiplicative method. */
  ghost predicate FollowsQuote(s: Settings, ts: u64, q: CleanQuote, input: Consensus.BookInput) {
    input.available ==>
      !Stale(q, ts, StaleAfter(s)) && 1 <= q.outcomeCount && input.count == q.outcomeCount && input.weight == 1.0 &&
      (forall i :: 0 <= i < q.outcomeCount ==> 1000 < q.oddsMilli[i] && 0.0 < input.prob[i]) &&
      (forall i, j :: 0 <= i < q.outcomeCount && 0 <= j < q.outcomeCount && q.oddsMilli[i] <= q.oddsMilli[j] ==>
        input.prob[j] <= input.prob[i]) &&
      (s.devigMethod == UseMultiplicative ==>
        forall i, j :: 0 <= i < q.outcomeCount && 0 <= j < q.outcomeCount ==>
          SamePayout(input.prob[i], q.oddsMilli[i], input.prob[j], q.oddsMilli[j]))
  }

  ghost predicate SamePayout(p: real, odds: u32, p': real, odds': u32) { p * odds as real == p' * odds' as real }

  lemma InputFollowsQuote(lib: Library, s: Settings, ts: u64, q: CleanQuote, input: Consensus.BookInput)
    requires lib.Valid() && InputFor(lib, s, ts, q, input)
    ensures FollowsQuote(s, ts, q, input)
  {
    if input.available {
      var r: Devig.DevigResult :|
        DevigAnswer(lib, s.devigMethod, DecimalOdds(q), r) && |r.prob| == MAX_OUTCOMES && r.count <= MAX_OUTCOMES &&
        input == InputOf(r);
      AnswerFollowsQuote(lib, s.devigMethod, q, DecimalOdds(q), r);
    }
  }

  lemma AnswerFollowsQuote(lib: Library, m: Method, q: CleanQuote, odds: seq<real>, r: Devig.DevigResult)
    requires lib.Valid() && odds == DecimalOdds(q) && DevigAnswer(lib, m, odds, r) && r.UsableAsDistribution()
    ensures 1 <= q.outcomeCount == r.count && |r.prob| == MAX_OUTCOMES
    ensures forall i :: 0 <= i < q.outcomeCount ==> 1000 < q.oddsMilli[i] && 0.0 < r.prob[i]
    ensures forall i, j :: 0 <= i < q.outcomeCount && 0 <= j < q.outcomeCount && q.oddsMilli[i] <= q.oddsMilli[j] ==>
      r.prob[j] <= r.prob[i]
    ensures m == UseMultiplicative ==>
      forall i, j :: 0 <= i < q.outcomeCount && 0 <= j < q.outcomeCount ==>
        SamePayout(r.prob[i], q.oddsMilli[i], r.prob[j], q.oddsMilli[j])
  {
    UsableIsTilted(lib, m, odds, r);
    var u := Devig.Implied(odds);
    forall i | 0 <= i < q.outcomeCount ensures 1000 < q.oddsMilli[i] { assert odds[i] > 1.0; }
    forall i, j | 0 <= i < q.outcomeCount && 0 <= j < q.outcomeCount && q.oddsMilli[i] <= q.oddsMilli[j]
      ensures r.prob[j] <= r.prob[i]
    {
      PairInOrder(q, odds, u, r.prob, i, j);
    }
    if m == UseMultiplicative {
      forall i, j | 0 <= i < q.outcomeCount && 0 <= j < q.outcomeCount
        ensures SamePayout(r.prob[i], q.oddsMilli[i], r.prob[j], q.oddsMilli[j])
      {
        SharesOf(q, odds, u, r.prob, Sums.Sum(u), i);
        SharesOf(q, odds, u, r.prob, Sums.Sum(u), j);
        PaysTheBook(q, odds, u, r.prob, Sums.Sum(u), i);
        PaysTheBook(q, odds, u, r.prob, Sums.Sum(u), j);
        SamePayoutIn(Sums.Sum(u), r.prob[i], q.oddsMilli[i], r.prob[j], q.oddsMilli[j]);
      }
    }
  }

  lemma PairInOrder(q: CleanQuote, odds: seq<real>, u: seq<real>, p: seq<real>, i: nat, j: nat)
    requires odds == DecimalOdds(q) && Devig.ValidOdds(odds) && u == Devig.Implied(odds)
    requires |odds| <= |p| && (forall k :: 0 <= k < |odds| ==> 0.0 < p[k]) && Devig.Tilted(u, p[..|odds|])
    requires i < q.outcomeCount && j < q.outcomeCount && q.oddsMilli[i] <= q.oddsMilli[j]
    ensures p[j] <= p[i]
  {
    assert Devig.KeepsMore(u[j], p[..|odds|][j], u[i], p[..|odds|][i]);
    ShorterIsLikelier(odds[i], odds[j], u[i], u[j], p[i], p[j]);
  }

  lemma PaysTheBook(q: CleanQuote, odds: seq<real>, u: seq<real>, p: seq<real>, B: real, i: nat)
    requires |odds| == |u| <= |p| && i < |odds| == q.outcomeCount && InThousandths(odds[i], q.oddsMilli[i])
    requires Inverse(u[i], odds[i]) && Devig.IsShare(u[i], B, p[i])
    ensures Payout(B, p[i], q.oddsMilli[i])
  {
    PayoutOf(B, u[i], p[i], odds[i], q.oddsMilli[i]);
  }

  ghost predicate InThousandths(o: real, odds: u32) { o == odds as real / 1000.0 }

  ghost predicate Inverse(u: real, o: real) { u * o == 1.0 }

  lemma SharesOf(q: CleanQuote, odds: seq<real>, u: seq<real>, p: seq<real>, B: real, i: nat)
    requires odds == DecimalOdds(q) && Devig.ValidOdds(odds) && u == Devig.Implied(odds) && B == Sums.Sum(u)
    requires |odds| <= |p| && Devig.EqualShares(u, p[..|odds|]) && i < q.outcomeCount
    ensures InThousandths(odds[i], q.oddsMilli[i]) && Inverse(u[i], odds[i]) && Devig.IsShare(u[i], B, p[i])
  {
    assert p[..|odds|][i] == p[i];
    InverseAt(odds, u, i);
  }

  lemma InverseAt(odds: seq<real>, u: seq<real>, i: nat)
    requires Devig.ValidOdds(odds) && u == Devig.Implied(odds) && i < |odds|
    ensures Inverse(u[i], odds[i])
  {
    Reals.DivMul(1.0, odds[i], u[i]);
  }

  /** Whatever the method, an answer that is a distribution is positive and tilted towards the favourites. */
  lemma UsableIsTilted(lib: Library, m: Method, odds: seq<real>, r: Devig.DevigResult)
    requires lib.Valid() && DevigAnswer(lib, m, odds, r) && r.UsableAsDistribution()
    ensures Devig.ValidOdds(odds) && Sums.Sum(Devig.Implied(odds)) > 1.0
    ensures r.count == |odds| && |r.prob| == MAX_OUTCOMES && forall i :: 0 <= i < |odds| ==> 0.0 < r.prob[i]
    ensures Devig.Tilted(Devig.Implied(odds), r.prob[..r.count])
    ensures m == UseMultiplicative ==> Devig.EqualShares(Devig.Implied(odds), r.prob[..r.count])
  {
    var u, p := Devig.Implied(odds), r.prob[..r.count];
    match m {
      case UseMultiplicative =>
        forall i | 0 <= i < |odds| ensures 0.0 < p[i] { assert Devig.IsShare(u[i], Sums.Sum(u), p[i]); }
        SharesAreTilted(u, p);
      case UsePower =>
        forall i | 0 <= i < |odds| ensures 0.0 < p[i] {
          Power.PowerAnswer(lib.exp, lib.log, odds, Power.POWER_TOLERANCE, Power.POWER_MAX_ITERATIONS, r, i);
        }
        Power.PowerAnswer(lib.exp, lib.log, odds, Power.POWER_TOLERANCE, Power.POWER_MAX_ITERATIONS, r, 0);
      case UseShin =>
        forall i | 0 <= i < |odds| ensures 0.0 < p[i] {
          Shin.ShinAnswer(lib.sqrt, odds, Shin.SHIN_TOLERANCE, Shin.SHIN_MAX_ITERATIONS, r, i);
        }
        Shin.ShinAnswer(lib.sqrt, odds, Shin.SHIN_TOLERANCE, Shin.SHIN_MAX_ITERATIONS, r, 0);
    }
  }

  /** How far from one a method's probabilities may total. */
  function Slack(m: Method): real {
    match m
    case UseMultiplicative => 0.0
    case UsePower => 0.000_000_000_000_1
    case UseShin => 0.000_000_000_000_001
  }

  /** Whatever the method, an answer that is a distribution totals one up to the method's tolerance. */
  lemma UsableTotalsOne(lib: Library, m: Method, odds: seq<real>, r: Devig.DevigResult)
    requires lib.Valid() && DevigAnswer(lib, m, odds, r) && r.UsableAsDistribution()
    ensures r.count == |odds| && |r.prob| == MAX_OUTCOMES && r.count <= MAX_OUTCOMES
    ensures 1.0 - Slack(m) <= Sums.Sum(r.prob[..r.count]) <= 1.0 + Slack(m)
  {
    UsableIsTilted(lib, m, odds, r);
    match m {
      case UseMultiplicative =>
      case UsePower =>
        Power.PowerAnswer(lib.exp, lib.log, odds, Power.POWER_TOLERANCE, Power.POWER_MAX_ITERATIONS, r, 0);
      case UseShin =>
        Shin.ShinAnswer(lib.sqrt, odds, Shin.SHIN_TOLERANCE, Shin.SHIN_MAX_ITERATIONS, r, 0);
    }
  }

  lemma InputTotalsOne(lib: Library, s: Settings, ts: u64, q: CleanQuote, input: Consensus.BookInput)
    requires lib.Valid() && InputFor(lib, s, ts, q, input) && input.available
    ensures 1.0 - Slack(s.devigMethod) <= Sums.Sum(input.prob[..input.count]) <= 1.0 + Slack(s.devigMethod)
  {
    var r: Devig.DevigResult :|
      DevigAnswer(lib, s.devigMethod, DecimalOdds(q), r) && |r.prob| == MAX_OUTCOMES && r.count <= MAX_OUTCOMES &&
      input == InputOf(r);
    UsableTotalsOne(lib, s.devigMethod, DecimalOdds(q), r);
  }

  /** Equal shares are tilted, just barely. */
  lemma SharesAreTilted(u: seq<real>, p: seq<real>)
    requires Devig.EqualShares(u, p) && 0.0 < Sums.Sum(u)
    ensures Devig.Tilted(u, p)
  {
    forall i, j | 0 <= i < |u| && 0 <= j < |u| ensures Devig.KeepsMore(u[i], p[i], u[j], p[j]) {
      assert Devig.IsShare(u[i], Sums.Sum(u), p[i]) && Devig.IsShare(u[j], Sums.Sum(u), p[j]);
      SharesKeepTheSame(Sums.Sum(u), u[i], p[i], u[j], p[j]);
    }
  }

  lemma SharesKeepTheSame(B: real, u: real, p: real, u': real, p': real)
    requires Devig.IsShare(u, B, p) && Devig.IsShare(u', B, p')
    ensures Devig.KeepsMore(u, p, u', p')
  {
    assert p * (B * p') == p' * (B * p);
  }

  lemma ShorterIsLikelier(o: real, o': real, u: real, u': real, p: real, p': real)
    requires 0.0 < o <= o' && 0.0 < u && 0.0 < u' && u * o == 1.0 && u' * o' == 1.0 && 0.0 < p && 0.0 < p'
    requires Devig.KeepsMore(u', p', u, p)
    ensures p' <= p
  {
    if u < u' {
      Reals.MulLt(u, u', o);
      Reals.MulLe(o, o', u');
    }
    Reals.MulLe(u', u, p');
    Reals.CancelLe(p', p, u');
  }

  /** A unit staked on a share of the book B returns 1/B on average. */
  ghost predicate Payout(B: real, p: real, odds: u32) { B * (p * odds as real) == 1000.0 }

  lemma PayoutOf(B: real, u: real, p: real, o: real, odds: u32)
    requires Devig.IsShare(u, B, p) && Inverse(u, o) && InThousandths(o, odds)
    ensures Payout(B, p, odds)
  {
    assert B * (p * (o * 1000.0)) == (B * p) * o * 1000.0;
  }

  lemma SamePayoutIn(B: real, p: real, odds: u32, p': real, odds': u32)
    requires Payout(B, p, odds) && Payout(B, p', odds') && 0.0 < B
    ensures SamePayout(p, odds, p', odds')
  {
    Reals.CancelEq(p * odds as real, p' * odds' as real, B);
  }

  lemma InputDetermined(lib: Library, s: Settings, ts: u64, q: CleanQuote, input: Consensus.BookInput,
                        input': Consensus.BookInput)
    requires lib.Valid() && InputFor(lib, s, ts, q, input) && InputFor(lib, s, ts, q, input')
    ensures input == input'
  {
    if !Stale(q, ts, StaleAfter(s)) {
      var odds := DecimalOdds(q);
      var r: Devig.DevigResult :|
        DevigAnswer(lib, s.devigMethod, odds, r) && |r.prob| == MAX_OUTCOMES && r.count <= MAX_OUTCOMES &&
        input == InputOf(r);
      var r': Devig.DevigResult :|
        DevigAnswer(lib, s.devigMethod, odds, r') && |r'.prob| == MAX_OUTCOMES && r'.count <= MAX_OUTCOMES &&
        input' == InputOf(r');
      DevigDetermined(lib, s.devigMethod, odds, r, r');
    }
  }

  /** The price a quote offers for outcome i right now: none if it is stale or does not list the outcome. */
  function Offered(q: CleanQuote, ts: u64, staleAfter: u64, i: nat): u32
    requires i < MAX_OUTCOMES
  {
    if !Stale(q, ts, staleAfter) && i < q.outcomeCount then q.oddsMilli[i] else 0
  }

  /** The best of them over some books. */
  function Best(qs: seq<CleanQuote>, ts: u64, staleAfter: u64, i: nat): (best: u32)
    requires i < MAX_OUTCOMES
    ensures forall b :: 0 <= b < |qs| ==> Offered(qs[b], ts, staleAfter, i) <= best
    ensures best != 0 ==> exists b :: 0 <= b < |qs| && Offered(qs[b], ts, staleAfter, i) == best
  {
    if qs == [] then 0
    else
      var before, last := Best(qs[..|qs| - 1], ts, staleAfter, i), Offered(qs[|qs| - 1], ts, staleAfter, i);
      if last > before then last else before
  }

  type BestOdds = s: seq<u32> | |s| == MAX_OUTCOMES witness [0, 0, 0, 0]

  ghost predicate AreBest(qs: seq<CleanQuote>, ts: u64, staleAfter: u64, best: seq<u32>) {
    |best| == MAX_OUTCOMES && forall i :: 0 <= i < MAX_OUTCOMES ==> best[i] == Best(qs, ts, staleAfter, i)
  }

  /** The quotes of a market after a history. */
  ghost function QuotesAfter(h: seq<Receipt>, m: nat, books: nat): (qs: seq<CleanQuote>)
    requires Clean(h)
    ensures |qs| == books && forall b :: 0 <= b < books ==> qs[b] == SlotAfter(h, m, b)
  {
    seq(books, b requires 0 <= b < books => CleanSlot(h, m, b))
  }

  ghost function CleanSlot(h: seq<Receipt>, m: nat, b: nat): CleanQuote
    requires Clean(h)
  {
    SlotsAreClean(h, m, b);
    SlotAfter(h, m, b)
  }

  /** One more quote raises the best prices to its own where those are higher. */
  lemma BestNext(qs: seq<CleanQuote>, q: CleanQuote, ts: u64, staleAfter: u64, before: seq<u32>, after: seq<u32>)
    requires AreBest(qs, ts, staleAfter, before) && |after| == MAX_OUTCOMES
    requires forall i :: 0 <= i < MAX_OUTCOMES ==>
      after[i] == if Offered(q, ts, staleAfter, i) > before[i] then Offered(q, ts, staleAfter, i) else before[i]
    ensures AreBest(qs + [q], ts, staleAfter, after)
  {
    assert (qs + [q])[..|qs|] == qs;
  }

  /** Raise the best prices by what one fresh quote offers. */
  method RaiseBest(best: array<u32>, q: CleanQuote, ts: u64, staleAfter: u64, ghost qs: seq<CleanQuote>)
    requires best.Length == MAX_OUTCOMES && AreBest(qs, ts, staleAfter, best[..]) && !Stale(q, ts, staleAfter)
    modifies best
    ensures AreBest(qs + [q], ts, staleAfter, best[..])
  {
    ghost var before := best[..];
    RaiseAll(best, q);
    BestNext(qs, q, ts, staleAfter, before, best[..]);
  }

  method RaiseAll(best: array<u32>, q: CleanQuote)
    requires best.Length == MAX_OUTCOMES
    modifies best
    ensures forall j :: 0 <= j < MAX_OUTCOMES ==>
      best[j] == if j < q.outcomeCount && q.oddsMilli[j] > old(best[j]) then q.oddsMilli[j] else old(best[j])
  {
    var i := 0;
    while i < q.outcomeCount
      invariant 0 <= i <= q.outcomeCount
      invariant forall j :: 0 <= j < MAX_OUTCOMES ==>
        best[j] == if j < i && q.oddsMilli[j] > old(best[j]) then q.oddsMilli[j] else old(best[j])
    {
      if q.oddsMilli[i] > best[i] { best[i] := q.oddsMilli[i]; }
      i := i + 1;
    }
  }

  lemma StaleOffersNothing(qs: seq<CleanQuote>, q: CleanQuote, ts: u64, staleAfter: u64, best: seq<u32>)
    requires AreBest(qs, ts, staleAfter, best) && Stale(q, ts, staleAfter)
    ensures AreBest(qs + [q], ts, staleAfter, best)
  {
    BestNext(qs, q, ts, staleAfter, best, best);
  }

  /** Devig one fresh book. */
  method BookOpinion(lib: Library, s: Settings, ts: u64, q: CleanQuote) returns (input: Consensus.BookInput)
    requires lib.Valid() && !Stale(q, ts, StaleAfter(s))
    ensures InputFor(lib, s, ts, q, input)
  {
    var r := RunDevig(lib, s.devigMethod, DecimalOdds(q));
    AnswerFits(lib, s.devigMethod, DecimalOdds(q), r);
    if !r.UsableAsDistribution() { return Consensus.NO_INPUT; }
    return Consensus.BookInput(r.prob, r.count, 1.0, true);
  }

  lemma AnswerFits(lib: Library, m: Method, odds: seq<real>, r: Devig.DevigResult)
    requires DevigAnswer(lib, m, odds, r)
    ensures |r.prob| == MAX_OUTCOMES && r.count <= MAX_OUTCOMES
  {
  }

  /** The first b books of a market have been walked. */
  ghost predicate Collected(lib: Library, s: Settings, ts: u64, qs: seq<CleanQuote>, b: nat,
                            inputs: seq<Consensus.BookInput>, best: seq<u32>) {
    b <= |qs| == |inputs| && AreBest(qs[..b], ts, StaleAfter(s), best) &&
    forall i :: 0 <= i < b ==> InputFor(lib, s, ts, qs[i], inputs[i])
  }

  lemma CollectedNext(lib: Library, s: Settings, ts: u64, qs: seq<CleanQuote>, b: nat,
                      inputs: seq<Consensus.BookInput>, best: seq<u32>, input: Consensus.BookInput, best': seq<u32>)
    requires Collected(lib, s, ts, qs, b, inputs, best) && b < |qs|
    requires InputFor(lib, s, ts, qs[b], input) && AreBest(qs[..b] + [qs[b]], ts, StaleAfter(s), best')
    ensures Collected(lib, s, ts, qs, b + 1, inputs[b := input], best')
  {
    assert qs[..b + 1] == qs[..b] + [qs[b]];
  }

  lemma NoneCollected(lib: Library, s: Settings, ts: u64, qs: seq<CleanQuote>, inputs: seq<Consensus.BookInput>,
                      best: seq<u32>)
    requires |inputs| == |qs| && |best| == MAX_OUTCOMES && forall i :: 0 <= i < MAX_OUTCOMES ==> best[i] == 0
    ensures Collected(lib, s, ts, qs, 0, inputs, best)
  {
  }

  lemma AllCollected(lib: Library, s: Settings, ts: u64, qs: seq<CleanQuote>, inputs: seq<Consensus.BookInput>,
                     best: seq<u32>)
    requires Collected(lib, s, ts, qs, |qs|, inputs, best)
    ensures AreBest(qs, ts, StaleAfter(s), best) && AllInputs(lib, s, ts, qs, inputs)
  {
    assert qs[..|qs|] == qs;
  }

  /** Every book of a market, in order: its input to the consensus, and the best fresh prices along the way. */
  method CollectBooks(lib: Library, s: Settings, table: Table, m: nat, ts: u64, inputs: array<Consensus.BookInput>)
    returns (best: BestOdds)
    requires lib.Valid() && table.Valid() && Clean(table.history) && m < table.markets && inputs.Length <= table.books
    modifies inputs
    ensures AreBest(QuotesAfter(table.history, m, inputs.Length), ts, StaleAfter(s), best)
    ensures AllInputs(lib, s, ts, QuotesAfter(table.history, m, inputs.Length), inputs[..])
    ensures AllFollow(s, ts, QuotesAfter(table.history, m, inputs.Length), inputs[..])
  {
    var top := new u32[MAX_OUTCOMES](_ => 0);
    ghost var qs := QuotesAfter(table.history, m, inputs.Length);
    var b := 0;
    NoneCollected(lib, s, ts, qs, inputs[..], top[..]);
    while b < inputs.Length
      invariant b <= inputs.Length && Collected(lib, s, ts, qs, b, inputs[..], top[..])
    {
      CollectNext(lib, s, table, m, b, ts, inputs, top, qs);
      b := b + 1;
    }
    AllCollected(lib, s, ts, qs, inputs[..], top[..]);
    InputsFollowQuotes(lib, s, ts, qs, inputs[..]);
    best := top[..];
  }

  method CollectNext(lib: Library, s: Settings, table: Table, m: nat, b: nat, ts: u64,
                     inputs: array<Consensus.BookInput>, top: array<u32>, ghost qs: seq<CleanQuote>)
    requires lib.Valid() && table.Valid() && Clean(table.history) && m < table.markets
    requires b < inputs.Length <= table.books
    requires qs == QuotesAfter(table.history, m, inputs.Length) && top.Length == MAX_OUTCOMES
    requires Collected(lib, s, ts, qs, b, inputs[..], top[..])
    modifies inputs, top
    ensures Collected(lib, s, ts, qs, b + 1, inputs[..], top[..])
  {
    ghost var before, was := inputs[..], top[..];
    var q := table.Get(m, b);
    var input := CollectBook(lib, s, table, m, b, ts, q, top, qs[..b]);
    inputs[b] := input;
    CollectedNext(lib, s, ts, qs, b, before, was, input, top[..]);
    assert inputs[..] == before[b := input];
  }

  ghost predicate AllInputs(lib: Library, s: Settings, ts: u64, qs: seq<CleanQuote>, inputs: seq<Consensus.BookInput>) {
    |inputs| == |qs| && forall b :: 0 <= b < |qs| ==> InputFor(lib, s, ts, qs[b], inputs[b])
  }

  ghost predicate AllFollow(s: Settings, ts: u64, qs: seq<CleanQuote>, inputs: seq<Consensus.BookInput>) {
    |inputs| == |qs| && forall b :: 0 <= b < |qs| ==> FollowsQuote(s, ts, qs[b], inputs[b])
  }

  lemma InputsFollowQuotes(lib: Library, s: Settings, ts: u64, qs: seq<CleanQuote>, inputs: seq<Consensus.BookInput>)
    requires lib.Valid() && AllInputs(lib, s, ts, qs, inputs)
    ensures AllFollow(s, ts, qs, inputs)
  {
    forall b | 0 <= b < |qs| ensures FollowsQuote(s, ts, qs[b], inputs[b]) {
      InputFollowsQuote(lib, s, ts, qs[b], inputs[b]);
    }
  }

  method CollectBook(lib: Library, s: Settings, table: Table, m: nat, b: nat, ts: u64, q: CleanQuote, top: array<u32>,
                     ghost qs: seq<CleanQuote>)
    returns (input: Consensus.BookInput)
    requires lib.Valid() && table.Valid() && m < table.markets && b < table.books && q == SlotAfter(table.history, m, b)
    requires top.Length == MAX_OUTCOMES && AreBest(qs, ts, StaleAfter(s), top[..])
    modifies top
    ensures AreBest(qs + [q], ts, StaleAfter(s), top[..]) && InputFor(lib, s, ts, q, input)
  {
    var stale := table.IsStale(m, b, ts, StaleAfter(s));
    if stale {
      StaleOffersNothing(qs, q, ts, StaleAfter(s), top[..]);
      return Consensus.NO_INPUT;
    }
    RaiseBest(top, q, ts, StaleAfter(s), qs);
    input := BookOpinion(lib, s, ts, q);
  }

  // ---- sizing ----

  datatype BetRecord = BetRecord(ts: u64, market: nat, outcome: nat, stake: real, odds: u32, fairProb: real)

  predicate HaveAll(best: BestOdds, n: nat)
    requires n <= MAX_OUTCOMES
  {
    forall i :: 0 <= i < n ==> best[i] >= MIN_ODDS_MILLI
  }

  function BestDecimal(best: BestOdds, n: nat): (o: seq<real>)
    requires n <= MAX_OUTCOMES
    ensures |o| == n
  {
    seq(n, i requires 0 <= i < n => best[i] as real / 1000.0)
  }

  /** What the allocator may answer. */
  ghost predicate AllocationAnswer(fair: seq<real>, odds: seq<real>, kellyFraction: real, maxExposure: real,
                                   alloc: KellyAllocator.AllocationResult) {
    if !KellyAllocator.ValidInput(fair, odds, kellyFraction, maxExposure) then alloc == KellyAllocator.NO_ALLOCATION
    else
      KellyAllocator.WithinExposure(|fair|, maxExposure, alloc) &&
      KellyAllocator.SortedResult(fair, odds, kellyFraction, maxExposure, alloc) &&
      (Sums.Sum(fair) <= 1.0 ==> KellyAllocator.KellyResult(fair, odds, kellyFraction, maxExposure, alloc))
  }

  /** That leaves no choice, whatever the price totals. */
  lemma AnswerDetermined(fair: seq<real>, odds: seq<real>, kellyFraction: real, maxExposure: real,
                         alloc: KellyAllocator.AllocationResult, alloc': KellyAllocator.AllocationResult)
    requires AllocationAnswer(fair, odds, kellyFraction, maxExposure, alloc)
    requires AllocationAnswer(fair, odds, kellyFraction, maxExposure, alloc')
    ensures alloc == alloc'
  {
    if KellyAllocator.ValidInput(fair, odds, kellyFraction, maxExposure) {
      KellyTheorems.AllocationDetermined(fair, odds, kellyFraction, maxExposure, alloc, alloc');
    }
  }

  /** One record for each outcome with a positive stake, at the best price. */
  function BetsOf(ts: u64, m: nat, prob: seq<real>, best: BestOdds, stake: seq<real>, n: nat): seq<BetRecord>
    requires n <= MAX_OUTCOMES == |stake| == |prob|
  {
    if n == 0 then []
    else
      BetsOf(ts, m, prob, best, stake, n - 1) +
      if stake[n - 1] > 0.0 then [BetRecord(ts, m, n - 1, stake[n - 1], best[n - 1], prob[n - 1])] else []
  }

  /** The bets of one market at one tick, given its price and the best odds. */
  ghost predicate BetsFrom(s: Settings, ts: u64, m: nat, fair: Consensus.ConsensusResult, best: BestOdds,
                           bets: seq<BetRecord>) {
    if !fair.hasFairPrice || !HaveAll(best, fair.count) then bets == []
    else exists alloc: KellyAllocator.AllocationResult ::
      AllocationAnswer(fair.prob[..fair.count], BestDecimal(best, fair.count), s.kellyFraction, s.maxExposure, alloc) &&
      |alloc.stake| == MAX_OUTCOMES && bets == BetsOf(ts, m, fair.prob, best, alloc.stake, fair.count)
  }

  /** The specification of a market's bets is complete: any two logs that meet it agree. */
  lemma BetsDetermined(s: Settings, ts: u64, m: nat, fair: Consensus.ConsensusResult, best: BestOdds,
                       bets: seq<BetRecord>, bets': seq<BetRecord>)
    requires BetsFrom(s, ts, m, fair, best, bets) && BetsFrom(s, ts, m, fair, best, bets')
    ensures bets == bets'
  {
    if fair.hasFairPrice && HaveAll(best, fair.count) {
      var p, o := fair.prob[..fair.count], BestDecimal(best, fair.count);
      var alloc: KellyAllocator.AllocationResult :|
        AllocationAnswer(p, o, s.kellyFraction, s.maxExposure, alloc) &&
        |alloc.stake| == MAX_OUTCOMES && bets == BetsOf(ts, m, fair.prob, best, alloc.stake, fair.count);
      var alloc': KellyAllocator.AllocationResult :|
        AllocationAnswer(p, o, s.kellyFraction, s.maxExposure, alloc') &&
        |alloc'.stake| == MAX_OUTCOMES && bets' == BetsOf(ts, m, fair.prob, best, alloc'.stake, fair.count);
      AnswerDetermined(p, o, s.kellyFraction, s.maxExposure, alloc, alloc');
    }
  }

  method SizeBets(s: Settings, ts: u64, m: nat, fair: Consensus.ConsensusResult, best: BestOdds)
    returns (bets: seq<BetRecord>)
    requires fair.hasFairPrice
    ensures BetsFrom(s, ts, m, fair, best, bets)
  {
    var haveAll := true;
    var i := 0;
    while i < fair.count && haveAll
      invariant 0 <= i <= fair.count && (haveAll ==> HaveAll(best, i)) && (!haveAll ==> !HaveAll(best, fair.count))
      decreases fair.count - i, haveAll
    {
      if best[i] < MIN_ODDS_MILLI { haveAll := false; } else { i := i + 1; }
    }
    if !haveAll { return []; }
    var p, o := fair.prob[..fair.count], BestDecimal(best, fair.count);
    var alloc := SizeStakes(p, o, s.kellyFraction, s.maxExposure);
    NoBetNoStake(p, o, s.kellyFraction, s.maxExposure, alloc);
    bets := LogBets(ts, m, fair, best, alloc);
  }

  method SizeStakes(fair: seq<real>, odds: seq<real>, kellyFraction: real, maxExposure: real)
    returns (alloc: KellyAllocator.AllocationResult)
    ensures AllocationAnswer(fair, odds, kellyFraction, maxExposure, alloc)
  {
    alloc := KellyAllocator.Allocate(fair, odds, kellyFraction, maxExposure);
  }

  lemma NoBetNoStake(fair: seq<real>, odds: seq<real>, kellyFraction: real, maxExposure: real,
                     alloc: KellyAllocator.AllocationResult)
    requires |fair| <= MAX_OUTCOMES && AllocationAnswer(fair, odds, kellyFraction, maxExposure, alloc)
    ensures |alloc.stake| == MAX_OUTCOMES && forall i :: 0 <= i < |fair| ==> 0.0 <= alloc.stake[i]
    ensures !alloc.hasBet ==> forall i :: 0 <= i < |fair| ==> alloc.stake[i] == 0.0
  {
    if KellyAllocator.ValidInput(fair, odds, kellyFraction, maxExposure) && !alloc.hasBet {
      forall i | 0 <= i < |fair| ensures alloc.stake[i] <= 0.0 {
        Sums.SumAtLeastTerm(alloc.stake[..|fair|], i);
      }
    }
  }

  method LogBets(ts: u64, m: nat, fair: Consensus.ConsensusResult, best: BestOdds,
                 alloc: KellyAllocator.AllocationResult)
    returns (bets: seq<BetRecord>)
    requires |alloc.stake| == MAX_OUTCOMES
    requires !alloc.hasBet ==> forall i :: 0 <= i < fair.count ==> alloc.stake[i] <= 0.0
    ensures bets == BetsOf(ts, m, fair.prob, best, alloc.stake, fair.count)
  {
    bets := [];
    var i := 0;
    if !alloc.hasBet {
      NoStakesNoBets(ts, m, fair.prob, best, alloc.stake, fair.count);
      return [];
    }
    while i < fair.count
      invariant 0 <= i <= fair.count && bets == BetsOf(ts, m, fair.prob, best, alloc.stake, i)
    {
      if alloc.stake[i] > 0.0 {
        bets := bets + [BetRecord(ts, m, i, alloc.stake[i], best[i], fair.prob[i])];
      }
      i := i + 1;
    }
  }

  lemma {:induction false} NoStakesNoBets(ts: u64, m: nat, prob: seq<real>, best: BestOdds, stake: seq<real>, n: nat)
    requires n <= MAX_OUTCOMES == |stake| == |prob| && forall i :: 0 <= i < n ==> stake[i] <= 0.0
    ensures BetsOf(ts, m, prob, best, stake, n) == []
  {
    if n > 0 { NoStakesNoBets(ts, m, prob, best, stake, n - 1); }
  }

  // ---- what every logged bet satisfies ----

  /** A bet at the best fresh price, for one outcome of the market, at the consensus probability. */
  ghost predicate SoundBet(bet: BetRecord, ts: u64, m: nat, fair: Consensus.ConsensusResult, best: BestOdds) {
    bet.ts == ts && bet.market == m && bet.outcome < fair.count && bet.stake > 0.0 &&
    bet.odds == best[bet.outcome] >= MIN_ODDS_MILLI && bet.fairProb == fair.prob[bet.outcome]
  }

  function StakesOf(bets: seq<BetRecord>): (f: seq<real>)
    ensures |f| == |bets| && forall i :: 0 <= i < |bets| ==> f[i] == bets[i].stake
  {
    seq(|bets|, i requires 0 <= i < |bets| => bets[i].stake)
  }

  /** At most one bet per outcome, in order. */
  ghost predicate OneEach(bets: seq<BetRecord>, n: nat) {
    (forall i :: 0 <= i < |bets| ==> bets[i].outcome < n) &&
    forall i, j :: 0 <= i < j < |bets| ==> bets[i].outcome < bets[j].outcome
  }

  ghost predicate AllSound(bets: seq<BetRecord>, ts: u64, m: nat, fair: Consensus.ConsensusResult, best: BestOdds) {
    forall i :: 0 <= i < |bets| ==> SoundBet(bets[i], ts, m, fair, best)
  }

  lemma OneMoreBet(bets: seq<BetRecord>, bet: BetRecord, ts: u64, m: nat, fair: Consensus.ConsensusResult,
                   best: BestOdds)
    requires AllSound(bets, ts, m, fair, best) && OneEach(bets, bet.outcome) && SoundBet(bet, ts, m, fair, best)
    ensures AllSound(bets + [bet], ts, m, fair, best) && OneEach(bets + [bet], bet.outcome + 1)
  {
  }

  lemma {:induction false} BetsAreSound(ts: u64, m: nat, fair: Consensus.ConsensusResult, best: BestOdds,
                                        stake: seq<real>, n: nat)
    requires n <= fair.count && |stake| == MAX_OUTCOMES && HaveAll(best, n)
    ensures var bets := BetsOf(ts, m, fair.prob, best, stake, n);
      AllSound(bets, ts, m, fair, best) && OneEach(bets, n)
  {
    if n > 0 {
      var k := n - 1;
      BetsAreSound(ts, m, fair, best, stake, k);
      if stake[k] > 0.0 {
        OneMoreBet(BetsOf(ts, m, fair.prob, best, stake, k), BetRecord(ts, m, k, stake[k], best[k], fair.prob[k]), ts,
                   m, fair, best);
      }
    }
  }

  lemma OneMoreStake(bets: seq<BetRecord>, bet: BetRecord)
    ensures Sums.Sum(StakesOf(bets + [bet])) == Sums.Sum(StakesOf(bets)) + bet.stake
  {
    assert StakesOf(bets + [bet])[..|bets|] == StakesOf(bets);
  }

  lemma {:induction false} BetsTotal(ts: u64, m: nat, prob: seq<real>, best: BestOdds, stake: seq<real>, n: nat)
    requires n <= MAX_OUTCOMES == |stake| == |prob| && forall i :: 0 <= i < n ==> 0.0 <= stake[i]
    ensures Sums.Sum(StakesOf(BetsOf(ts, m, prob, best, stake, n))) == Sums.Sum(stake[..n])
  {
    if n == 0 {
      assert stake[..0] == [] && StakesOf(BetsOf(ts, m, prob, best, stake, 0)) == [];
    } else {
      var k := n - 1;
      BetsTotal(ts, m, prob, best, stake, k);
      Sums.SumStep(stake, k);
      if stake[k] > 0.0 {
        OneMoreStake(BetsOf(ts, m, prob, best, stake, k), BetRecord(ts, m, k, stake[k], best[k], prob[k]));
      } else {
        assert BetsOf(ts, m, prob, best, stake, n) == BetsOf(ts, m, prob, best, stake, k);
      }
    }
  }

  /** Every bet of a market at a tick is sound, no outcome is bet twice, and together they stay within the exposure
      limit in force. */
  lemma BetsWithinExposure(s: Settings, ts: u64, m: nat, fair: Consensus.ConsensusResult, best: BestOdds,
                           bets: seq<BetRecord>)
    requires BetsFrom(s, ts, m, fair, best, bets)
    ensures AllSound(bets, ts, m, fair, best)
    ensures OneEach(bets, fair.count) && (bets == [] || Sums.Sum(StakesOf(bets)) <= s.maxExposure)
  {
    if fair.hasFairPrice && HaveAll(best, fair.count) {
      var p, o := fair.prob[..fair.count], BestDecimal(best, fair.count);
      var alloc: KellyAllocator.AllocationResult :|
        AllocationAnswer(p, o, s.kellyFraction, s.maxExposure, alloc) &&
        |alloc.stake| == MAX_OUTCOMES && bets == BetsOf(ts, m, fair.prob, best, alloc.stake, fair.count);
      NoBetNoStake(p, o, s.kellyFraction, s.maxExposure, alloc);
      BetsAreSound(ts, m, fair, best, alloc.stake, fair.count);
      BetsTotal(ts, m, fair.prob, best, alloc.stake, fair.count);
      if !KellyAllocator.ValidInput(p, o, s.kellyFraction, s.maxExposure) {
        NoStakesNoBets(ts, m, fair.prob, best, alloc.stake, fair.count);
      }
    }
  }
}
