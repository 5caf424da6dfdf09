/** The consensus price: a weighted average over the books that can be trusted right now. */
module Consensus {
  import opened Messages
  import opened Reals
  import opened Sums

  type Vector = p: seq<real> | |p| == MAX_OUTCOMES witness [0.0, 0.0, 0.0, 0.0]
  type Count = n: u8 | n <= MAX_OUTCOMES

  datatype BookInput = BookInput(prob: Vector, count: Count, weight: real, available: bool)

  datatype ConsensusResult = ConsensusResult(prob: Vector, count: Count, hasFairPrice: bool, totalWeight: real,
                                             booksUsed: nat)

  const NO_INPUT := BookInput([0.0, 0.0, 0.0, 0.0], 0, 0.0, false)
  const NO_PRICE := ConsensusResult([0.0, 0.0, 0.0, 0.0], 0, false, 0.0, 0)

  predicate Eligible(b: BookInput) { b.available && b.weight > 0.0 }

  /** The books that count: the eligible ones that agree on the number of outcomes with the first of them. */
  function Chosen(books: seq<BookInput>): (r: seq<BookInput>)
    ensures forall i :: 0 <= i < |r| ==> Eligible(r[i]) && r[i].count == r[0].count && r[i] in books
    ensures r == [] ==> forall b :: b in books ==> !Eligible(b)
  {
    if books == [] then []
    else
      var init, last := Chosen(books[..|books| - 1]), books[|books| - 1];
      assert books == books[..|books| - 1] + [last];
      if Eligible(last) && (init == [] || last.count == init[0].count) then init + [last] else init
  }

  function Weights(books: seq<BookInput>): (w: seq<real>)
    ensures |w| == |books| && forall i :: 0 <= i < |books| ==> w[i] == books[i].weight
  {
    seq(|books|, i requires 0 <= i < |books| => books[i].weight)
  }

  /** What the books say about outcome k, and what that weighs. */
  function Opinions(books: seq<BookInput>, k: nat): (x: seq<real>)
    requires k < MAX_OUTCOMES
    ensures |x| == |books| && forall i :: 0 <= i < |books| ==> x[i] == books[i].prob[k]
  {
    seq(|books|, i requires 0 <= i < |books| => books[i].prob[k])
  }

  function Contribution(b: BookInput, k: nat): real
    requires k < MAX_OUTCOMES
  {
    b.prob[k] * b.weight
  }

  function Weighted(books: seq<BookInput>, k: nat): (x: seq<real>)
    requires k < MAX_OUTCOMES
    ensures |x| == |books| && forall i :: 0 <= i < |books| ==> x[i] == Contribution(books[i], k)
  {
    seq(|books|, i requires 0 <= i < |books| => Contribution(books[i], k))
  }

  ghost predicate IsProduct(p: real, a: real, b: real) { p == a * b }

  /** m is the average: weighed by the total it gives the weighted sum, and it lies between two opinions. */
  ghost predicate IsAverage(books: seq<BookInput>, k: nat, m: real)
    requires k < MAX_OUTCOMES
  {
    IsProduct(Sum(Weighted(books, k)), m, Sum(Weights(books))) &&
    (exists i :: 0 <= i < |books| && Opinions(books, k)[i] <= m) &&
    exists i :: 0 <= i < |books| && m <= Opinions(books, k)[i]
  }

  /** The price of the chosen books, or no price at all if there are none. */
  ghost predicate IsFairPrice(books: seq<BookInput>, out: ConsensusResult) {
    var chosen := Chosen(books);
    if chosen == [] then out == NO_PRICE
    else
      out.hasFairPrice && out.count == chosen[0].count && out.booksUsed == |chosen| &&
      out.totalWeight == Sum(Weights(chosen)) > 0.0 &&
      forall k :: 0 <= k < MAX_OUTCOMES ==>
        if k < out.count then IsAverage(chosen, k, out.prob[k]) else out.prob[k] == 0.0
  }

  // ---- the price in terms of the books as given ----

  /** f is the first book that is available and weighs something. */
  ghost predicate IsFirst(books: seq<BookInput>, f: nat) {
    f < |books| && books[f].available && books[f].weight > 0.0 &&
    forall i :: 0 <= i < f ==> !books[i].available || books[i].weight <= 0.0
  }

  /** The book counts when the market has n outcomes. */
  predicate Counts(b: BookInput, n: Count) { b.available && b.weight > 0.0 && b.count == n }

  function Counted(books: seq<BookInput>, n: Count): set<nat> {
    set i: nat | i < |books| && Counts(books[i], n)
  }

  /** What each book weighs, nothing if it does not count. */
  function CountedWeights(books: seq<BookInput>, n: Count): (w: seq<real>)
    ensures |w| == |books| && forall i :: 0 <= i < |w| ==> w[i] == if Counts(books[i], n) then books[i].weight else 0.0
  {
    seq(|books|, i requires 0 <= i < |books| => if Counts(books[i], n) then books[i].weight else 0.0)
  }

  /** What each book says about outcome k times what it weighs, nothing if it does not count. */
  function CountedOpinions(books: seq<BookInput>, n: Count, k: nat): (x: seq<real>)
    requires k < MAX_OUTCOMES
    ensures |x| == |books|
    ensures forall i :: 0 <= i < |x| ==> x[i] == if Counts(books[i], n) then Contribution(books[i], k) else 0.0
  {
    seq(|books|, i requires 0 <= i < |books| => if Counts(books[i], n) then books[i].prob[k] * books[i].weight else 0.0)
  }

  /** The weighted average of all the books that agree on the number of outcomes with the first available one. */
  ghost predicate Averages(books: seq<BookInput>, f: nat, out: ConsensusResult)
    requires f < |books|
  {
    var n := books[f].count;
    out.hasFairPrice && out.count == n && out.booksUsed == |Counted(books, n)| &&
    out.totalWeight == Sum(CountedWeights(books, n)) &&
    forall k :: 0 <= k < MAX_OUTCOMES ==>
      if k < n then IsProduct(Sum(CountedOpinions(books, n, k)), out.prob[k], out.totalWeight) else out.prob[k] == 0.0
  }

  lemma {:induction false} NoneChosen(books: seq<BookInput>)
    requires forall i :: 0 <= i < |books| ==> !books[i].available || books[i].weight <= 0.0
    ensures Chosen(books) == []
  {
    if books != [] { NoneChosen(books[..|books| - 1]); }
  }

  lemma {:induction false} ZerosSumToZero(a: seq<real>)
    requires forall i :: 0 <= i < |a| ==> a[i] == 0.0
    ensures Sum(a) == 0.0
  {
    SumConst(a, 0.0, |a| as real);
  }

  /** What the last book adds. */
  lemma CountedOneMore(books: seq<BookInput>, init: seq<BookInput>, last: BookInput, n: Count, k: nat)
    requires books == init + [last] && k < MAX_OUTCOMES
    ensures Sum(CountedWeights(books, n)) ==
      Sum(CountedWeights(init, n)) + if Counts(last, n) then last.weight else 0.0
    ensures Sum(CountedOpinions(books, n, k)) ==
      Sum(CountedOpinions(init, n, k)) + if Counts(last, n) then Contribution(last, k) else 0.0
  {
    SumOneMore(CountedWeights(init, n), CountedWeights(books, n), if Counts(last, n) then last.weight else 0.0);
    SumOneMore(CountedOpinions(init, n, k), CountedOpinions(books, n, k),
               if Counts(last, n) then Contribution(last, k) else 0.0);
  }

  lemma OneMoreCounted(books: seq<BookInput>, init: seq<BookInput>, last: BookInput, n: Count)
    requires books == init + [last]
    ensures |Counted(books, n)| == |Counted(init, n)| + if Counts(last, n) then 1 else 0
  {
    var before, m := Counted(init, n), |init|;
    assert books[m] == last && m !in before;
    assert Counted(books, n) == if Counts(last, n) then before + {m} else before;
  }

  lemma NoneCounted(books: seq<BookInput>, n: Count, k: nat)
    requires forall i :: 0 <= i < |books| ==> !books[i].available || books[i].weight <= 0.0
    requires k < MAX_OUTCOMES
    ensures Counted(books, n) == {} && Sum(CountedWeights(books, n)) == Sum(CountedOpinions(books, n, k)) == 0.0
  {
    ZerosSumToZero(CountedWeights(books, n));
    ZerosSumToZero(CountedOpinions(books, n, k));
  }

  /** The chosen books are the counted ones, and so are their sums. */
  ghost predicate ChosenAre(books: seq<BookInput>, chosen: seq<BookInput>, n: Count, k: nat)
    requires k < MAX_OUTCOMES
  {
    |chosen| == |Counted(books, n)| && Sum(Weights(chosen)) == Sum(CountedWeights(books, n)) &&
    Sum(Weighted(chosen, k)) == Sum(CountedOpinions(books, n, k))
  }

  lemma {:induction false} ChosenAreCounted(books: seq<BookInput>, f: nat, n: Count, k: nat)
    requires IsFirst(books, f) && n == books[f].count && k < MAX_OUTCOMES
    ensures Chosen(books) != [] && Chosen(books)[0].count == n && ChosenAre(books, Chosen(books), n, k)
  {
    var m := |books| - 1;
    var init, last := books[..m], books[m];
    var before := Chosen(init);
    if f < m {
      ChosenAreCounted(init, f, n, k);
      ChosenStep(books, init, last, n);
    } else {
      NoneChosen(init);
      NoneCounted(init, n, k);
      NothingChosen(init, n, k);
      ChosenStep(books, init, last, n);
    }
    ChosenOneMore(books, init, last, before, n, k);
  }

  lemma ChosenStep(books: seq<BookInput>, init: seq<BookInput>, last: BookInput, n: Count)
    requires books != [] && init == books[..|books| - 1] && last == books[|books| - 1]
    requires if Chosen(init) == [] then Counts(last, n) else Chosen(init)[0].count == n
    ensures Chosen(books) == if Counts(last, n) then Chosen(init) + [last] else Chosen(init)
  {
  }

  lemma NothingChosen(books: seq<BookInput>, n: Count, k: nat)
    requires k < MAX_OUTCOMES
    requires Counted(books, n) == {} && Sum(CountedWeights(books, n)) == Sum(CountedOpinions(books, n, k)) == 0.0
    ensures ChosenAre(books, [], n, k)
  {
    ZerosSumToZero(Weights([]));
    ZerosSumToZero(Weighted([], k));
  }

  lemma ChosenOneMore(books: seq<BookInput>, init: seq<BookInput>, last: BookInput, chosen: seq<BookInput>, n: Count,
                      k: nat)
    requires books != [] && init == books[..|books| - 1] && last == books[|books| - 1] && k < MAX_OUTCOMES
    requires ChosenAre(init, chosen, n, k)
    ensures ChosenAre(books, if Counts(last, n) then chosen + [last] else chosen, n, k)
  {
    assert books == init + [last];
    OneMoreCounted(books, init, last, n);
    CountedOneMore(books, init, last, n, k);
    if Counts(last, n) { OneMoreBook(chosen, last, k); }
  }

  /** If any book is chosen, some available book of positive weight comes first. */
  lemma {:induction false} SomeFirst(books: seq<BookInput>) returns (f: nat)
    requires Chosen(books) != []
    ensures IsFirst(books, f)
  {
    var m := |books| - 1;
    var init := books[..m];
    assert forall i :: 0 <= i < m ==> init[i] == books[i] && books[i] in init;
    if Chosen(init) == [] { f := m; } else { f := SomeFirst(init); }
  }

  /** Whatever meets the specification of a price averages the books. */
  lemma FairPriceAverages(books: seq<BookInput>, out: ConsensusResult, f: nat)
    requires IsFairPrice(books, out) && IsFirst(books, f)
    ensures Averages(books, f, out)
  {
    var n, chosen := books[f].count, Chosen(books);
    ChosenAreCounted(books, f, n, 0);
    forall k | 0 <= k < MAX_OUTCOMES
      ensures if k < n then IsProduct(Sum(CountedOpinions(books, n, k)), out.prob[k], out.totalWeight)
        else out.prob[k] == 0.0
    {
      ChosenAreCounted(books, f, n, k);
      assert k < n ==> IsAverage(chosen, k, out.prob[k]);
    }
  }

  // ---- a weighted mean lies among its values ----

  /** The mean is m, and every value times its weight is compared with m times the weight. */
  ghost predicate Mean(w: seq<real>, x: seq<real>, wx: seq<real>, total: real, m: real) {
    |w| == |x| == |wx| > 0 && total == Sum(w) && IsProduct(Sum(wx), m, total) &&
    forall i :: 0 <= i < |w| ==> 0.0 < w[i] && IsProduct(wx[i], x[i], w[i])
  }

  lemma {:induction false} SomeValueAtMost(w: seq<real>, x: seq<real>, wx: seq<real>, total: real, m: real)
    requires Mean(w, x, wx, total, m)
    ensures exists i :: 0 <= i < |x| && x[i] <= m
  {
    var wm := Scaled(w, m);
    SumScale(w, wm, m, total);
    if forall i :: 0 <= i < |x| ==> m < x[i] {
      forall i | 0 <= i < |w| ensures wm[i] < wx[i] { AgainstMean(w, x, wx, total, m, i); }
      SumLt(wm, wx);
    }
  }

  lemma {:induction false} SomeValueAtLeast(w: seq<real>, x: seq<real>, wx: seq<real>, total: real, m: real)
    requires Mean(w, x, wx, total, m)
    ensures exists i :: 0 <= i < |x| && m <= x[i]
  {
    var wm := Scaled(w, m);
    SumScale(w, wm, m, total);
    if forall i :: 0 <= i < |x| ==> x[i] < m {
      forall i | 0 <= i < |w| ensures wx[i] < wm[i] { AgainstMean(w, x, wx, total, m, i); }
      SumLt(wx, wm);
    }
  }

  /** Weighing two values by the same weight keeps their order. */
  lemma AgainstMean(w: seq<real>, x: seq<real>, wx: seq<real>, total: real, m: real, i: nat)
    requires Mean(w, x, wx, total, m) && i < |w|
    ensures m < x[i] <==> Scaled(w, m)[i] < wx[i]
    ensures x[i] < m <==> wx[i] < Scaled(w, m)[i]
  {
    var a, b := Scaled(w, m)[i], wx[i];
    SameOrder(m, x[i], w[i], a, b);
    SameOrder(x[i], m, w[i], b, a);
  }

  function Scaled(w: seq<real>, m: real): (r: seq<real>)
    ensures |r| == |w| && forall i :: 0 <= i < |w| ==> r[i] == m * w[i]
  {
    seq(|w|, i requires 0 <= i < |w| => m * w[i])
  }

  lemma WeightsPositive(books: seq<BookInput>)
    requires books != [] && forall i :: 0 <= i < |books| ==> Eligible(books[i])
    ensures Sum(Weights(books)) > 0.0
  {
    var zeros := seq(|books|, i => 0.0);
    SumConst(zeros, 0.0, |books| as real);
    SumLt(zeros, Weights(books));
  }

  lemma AverageOf(books: seq<BookInput>, k: nat, sum: real, total: real, m: real)
    requires books != [] && k < MAX_OUTCOMES && forall i :: 0 <= i < |books| ==> Eligible(books[i])
    requires total == Sum(Weights(books)) > 0.0 && sum == Sum(Weighted(books, k)) && m == sum / total
    ensures IsAverage(books, k, m)
  {
    DivMul(sum, total, m);
    assert Mean(Weights(books), Opinions(books, k), Weighted(books, k), total, m);
    SomeValueAtMost(Weights(books), Opinions(books, k), Weighted(books, k), total, m);
    SomeValueAtLeast(Weights(books), Opinions(books, k), Weighted(books, k), total, m);
  }

  /** The contract is complete: any two prices of the same books that meet it agree. */
  lemma FairPriceDetermined(books: seq<BookInput>, out: ConsensusResult, out': ConsensusResult)
    requires IsFairPrice(books, out) && IsFairPrice(books, out')
    ensures out == out'
  {
    var chosen := Chosen(books);
    if chosen != [] {
      forall k | 0 <= k < MAX_OUTCOMES ensures out.prob[k] == out'.prob[k] {
        if k < out.count { AverageUnique(Sum(Weighted(chosen, k)), out.prob[k], out'.prob[k], Sum(Weights(chosen))); }
      }
    }
  }

  lemma AverageUnique(sum: real, m: real, m': real, total: real)
    requires 0.0 < total && IsProduct(sum, m, total) && IsProduct(sum, m', total)
    ensures m == m'
  {
    CancelEq(m, m', total);
  }

  // ---- the loop ----

  /** The running sums after some books. */
  ghost predicate Accumulated(chosen: seq<BookInput>, prob: seq<real>, totalWeight: real, count: nat) {
    |prob| == MAX_OUTCOMES && totalWeight == Sum(Weights(chosen)) &&
    (chosen != [] ==> count == chosen[0].count <= MAX_OUTCOMES) &&
    forall k :: 0 <= k < MAX_OUTCOMES ==>
      prob[k] == if chosen != [] && k < chosen[0].count then Sum(Weighted(chosen, k)) else 0.0
  }

  lemma SumOneMore(a: seq<real>, b: seq<real>, x: real)
    requires b == a + [x]
    ensures Sum(b) == Sum(a) + x
  {
    assert b[..|b| - 1] == a;
  }

  lemma {:induction false} OneMoreBook(chosen: seq<BookInput>, b: BookInput, k: nat)
    requires k < MAX_OUTCOMES
    ensures Sum(Weights(chosen + [b])) == Sum(Weights(chosen)) + b.weight
    ensures Sum(Weighted(chosen + [b], k)) == Sum(Weighted(chosen, k)) + Contribution(b, k)
  {
    SumOneMore(Weights(chosen), Weights(chosen + [b]), b.weight);
    SumOneMore(Weighted(chosen, k), Weighted(chosen + [b], k), Contribution(b, k));
  }

  method AddBook(prob: array<real>, b: BookInput, ghost chosen: seq<BookInput>, ghost totalWeight: real)
    requires prob.Length == MAX_OUTCOMES && Accumulated(chosen, prob[..], totalWeight, b.count)
    modifies prob
    ensures Accumulated(chosen + [b], prob[..], totalWeight + b.weight, b.count)
  {
    ghost var before := prob[..];
    AddContributions(prob, b);
    AccumulatedNext(chosen, b, before, prob[..], totalWeight);
  }

  method AddContributions(prob: array<real>, b: BookInput)
    requires prob.Length == MAX_OUTCOMES
    modifies prob
    ensures forall k ::
      0 <= k < MAX_OUTCOMES ==> prob[k] == old(prob[k]) + if k < b.count then Contribution(b, k) else 0.0
  {
    var i := 0;
    while i < b.count
      invariant 0 <= i <= b.count
      invariant forall k ::
        0 <= k < MAX_OUTCOMES ==> prob[k] == old(prob[k]) + if k < i then Contribution(b, k) else 0.0
    {
      prob[i] := prob[i] + b.weight * b.prob[i];
      i := i + 1;
    }
  }

  lemma AccumulatedNext(chosen: seq<BookInput>, b: BookInput, before: seq<real>, after: seq<real>, totalWeight: real)
    requires Accumulated(chosen, before, totalWeight, b.count) && |after| == MAX_OUTCOMES
    requires forall k ::
      0 <= k < MAX_OUTCOMES ==> after[k] == before[k] + if k < b.count then Contribution(b, k) else 0.0
    ensures Accumulated(chosen + [b], after, totalWeight + b.weight, b.count)
  {
    OneMoreBook(chosen, b, 0);
    forall k | 0 <= k < MAX_OUTCOMES
      ensures after[k] == if k < b.count then Sum(Weighted(chosen + [b], k)) else 0.0
    {
      OneMoreBook(chosen, b, k);
      if chosen == [] { assert Weighted(chosen, k) == []; }
    }
    assert (chosen + [b])[0].count == b.count;
  }

  method Accumulate(books: seq<BookInput>) returns (prob: array<real>, count: Count, totalWeight: real, booksUsed: nat)
    ensures fresh(prob) && booksUsed == |Chosen(books)| && Accumulated(Chosen(books), prob[..], totalWeight, count)
  {
    prob := new real[MAX_OUTCOMES](_ => 0.0);
    count, totalWeight, booksUsed := 0, 0.0, 0;
    ghost var chosen := [];
    var n := 0;
    while n < |books|
      invariant 0 <= n <= |books| && chosen == Chosen(books[..n]) && booksUsed == |chosen|
      invariant Accumulated(chosen, prob[..], totalWeight, count)
    {
      var b := books[n];
      assert books[..n + 1][..n] == books[..n];
      if b.available && b.weight > 0.0 && (booksUsed == 0 || b.count == count) {
        if booksUsed == 0 { count := b.count; }
        AddBook(prob, b, chosen, totalWeight);
        totalWeight := totalWeight + b.weight;
        booksUsed := booksUsed + 1;
        chosen := chosen + [b];
      }
      n := n + 1;
    }
    assert books[..n] == books;
  }

  /** No price without an available book of positive weight; else the average, with the first such book setting the
      number of outcomes. */
  method FairPrice(books: seq<BookInput>) returns (out: ConsensusResult)
    ensures IsFairPrice(books, out)
    ensures (forall i :: 0 <= i < |books| ==> !books[i].available || books[i].weight <= 0.0) ==>
      out == ConsensusResult([0.0, 0.0, 0.0, 0.0], 0, false, 0.0, 0)
    ensures forall f: nat :: IsFirst(books, f) ==> Averages(books, f, out)
  {
    out := Average(books);
    if forall i :: 0 <= i < |books| ==> !books[i].available || books[i].weight <= 0.0 { NoneChosen(books); }
    forall f: nat | IsFirst(books, f) ensures Averages(books, f, out) { FairPriceAverages(books, out, f); }
  }

  method Average(books: seq<BookInput>) returns (out: ConsensusResult)
    ensures IsFairPrice(books, out)
  {
    var prob, count, totalWeight, booksUsed := Accumulate(books);
    ghost var chosen := Chosen(books);
    if chosen != [] { WeightsPositive(chosen); }
    if totalWeight <= 0.0 {
      return NO_PRICE;
    }
    Divide(prob, count, totalWeight, chosen);
    out := ConsensusResult(prob[..], count, true, totalWeight, booksUsed);
  }

  method Divide(prob: array<real>, count: Count, totalWeight: real, ghost chosen: seq<BookInput>)
    requires prob.Length == MAX_OUTCOMES && Accumulated(chosen, prob[..], totalWeight, count) && chosen != []
    requires totalWeight > 0.0 && forall i :: 0 <= i < |chosen| ==> Eligible(chosen[i])
    modifies prob
    ensures forall k :: 0 <= k < MAX_OUTCOMES ==> if k < count then IsAverage(chosen, k, prob[k]) else prob[k] == 0.0
  {
    var i := 0;
    while i < count
      invariant 0 <= i <= count
      invariant forall k :: 0 <= k < i ==> IsAverage(chosen, k, prob[k])
      invariant forall k :: i <= k < MAX_OUTCOMES ==> prob[k] == old(prob[k])
    {
      AverageOf(chosen, i, prob[i], totalWeight, prob[i] / totalWeight);
      prob[i] := prob[i] / totalWeight;
      i := i + 1;
    }
  }

  // ---- the total of a consensus ----

  /** Each book's total over the first n outcomes, and what that weighs. */
  function Totals(books: seq<BookInput>, n: nat): (x: seq<real>)
    requires n <= MAX_OUTCOMES
    ensures |x| == |books| && forall i :: 0 <= i < |books| ==> x[i] == Sum(books[i].prob[..n])
  {
    seq(|books|, i requires 0 <= i < |books| => Sum(books[i].prob[..n]))
  }

  function WeightedTotals(books: seq<BookInput>, n: nat): (x: seq<real>)
    requires n <= MAX_OUTCOMES
    ensures |x| == |books| && forall i :: 0 <= i < |books| ==> IsProduct(x[i], Sum(books[i].prob[..n]), books[i].weight)
  {
    seq(|books|, i requires 0 <= i < |books| => Sum(books[i].prob[..n]) * books[i].weight)
  }

  lemma {:induction false} TotalsOneMore(books: seq<BookInput>, n: nat)
    requires n < MAX_OUTCOMES
    ensures Sum(WeightedTotals(books, n + 1)) == Sum(WeightedTotals(books, n)) + Sum(Weighted(books, n))
  {
    var a, b, c := WeightedTotals(books, n), Weighted(books, n), WeightedTotals(books, n + 1);
    forall i | 0 <= i < |books| ensures c[i] == a[i] + b[i] {
      SumStep(books[i].prob, n);
      ProductOfSum(Sum(books[i].prob[..n]), books[i].prob[n], books[i].weight, Sum(books[i].prob[..n + 1]), a[i], b[i],
                   c[i]);
    }
    SumAdd(a, b, c);
  }

  lemma ProductOfSum(x: real, y: real, w: real, s: real, a: real, b: real, c: real)
    requires s == x + y && IsProduct(a, x, w) && b == y * w && IsProduct(c, s, w)
    ensures c == a + b
  {
  }

  /** Averaging outcome by outcome averages the totals. */
  lemma {:induction false} TotalIsAverage(books: seq<BookInput>, p: Vector, n: nat, total: real)
    requires n <= MAX_OUTCOMES && total == Sum(Weights(books))
    requires forall k :: 0 <= k < n ==> IsProduct(Sum(Weighted(books, k)), p[k], total)
    ensures IsProduct(Sum(WeightedTotals(books, n)), Sum(p[..n]), total)
  {
    if n == 0 {
      TotalOfNone(books);
      assert p[..0] == [];
    } else {
      var m := n - 1;
      TotalIsAverage(books, p, m, total);
      TotalsOneMore(books, m);
      SumStep(p, m);
      AddProducts(Sum(WeightedTotals(books, m)), Sum(p[..m]), Sum(Weighted(books, m)), p[m], total,
                  Sum(WeightedTotals(books, n)), Sum(p[..n]));
    }
  }

  lemma TotalOfNone(books: seq<BookInput>)
    ensures Sum(WeightedTotals(books, 0)) == 0.0
  {
    var x := WeightedTotals(books, 0);
    forall i | 0 <= i < |books| ensures x[i] == 0.0 { assert books[i].prob[..0] == []; }
    SumConst(x, 0.0, |books| as real);
  }

  lemma AddProducts(a: real, s: real, b: real, y: real, w: real, c: real, t: real)
    requires IsProduct(a, s, w) && IsProduct(b, y, w) && c == a + b && t == s + y
    ensures IsProduct(c, t, w)
  {
  }

  /** The consensus total lies between the least and the greatest total of the contributing books; in particular it is
      one when each of theirs is. */
  lemma {:induction false} TotalAmongBooks(books: seq<BookInput>, out: ConsensusResult)
    requires IsFairPrice(books, out) && out.hasFairPrice
    ensures var n := out.count;
      (exists b :: b in Chosen(books) && Sum(b.prob[..n]) <= Sum(out.prob[..n])) &&
      exists b :: b in Chosen(books) && Sum(out.prob[..n]) <= Sum(b.prob[..n])
  {
    var chosen, n, m := Chosen(books), out.count, Sum(out.prob[..out.count]);
    TotalIsAverage(chosen, out.prob, n, out.totalWeight);
    assert Mean(Weights(chosen), Totals(chosen, n), WeightedTotals(chosen, n), out.totalWeight, m);
    SomeValueAtMost(Weights(chosen), Totals(chosen, n), WeightedTotals(chosen, n), out.totalWeight, m);
    SomeValueAtLeast(Weights(chosen), Totals(chosen, n), WeightedTotals(chosen, n), out.totalWeight, m);
    var i :| 0 <= i < |chosen| && Totals(chosen, n)[i] <= m;
    var j :| 0 <= j < |chosen| && m <= Totals(chosen, n)[j];
    assert chosen[i] in chosen && chosen[j] in chosen;
  }
}
