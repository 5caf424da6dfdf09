/** What the three margin-removal methods share: validation, book sums, and the multiplicative method. */
module Devig {
  import opened Messages
  import opened Reals
  import opened Sums

  datatype Status = Ok | NoMarginToRemove | InvalidInput | NotConverged

  datatype DevigResult = DevigResult(prob: seq<real>, param: real, iterations: nat, count: nat,
                                     status: Status, normalized: bool)
  {
    predicate UsableAsDistribution() { status == Ok && normalized }
  }

  const ZEROED := DevigResult([0.0, 0.0, 0.0, 0.0], 1.0, 0, 0, InvalidInput, false)

  predicate ValidOdds(odds: seq<real>) {
    0 < |odds| <= MAX_OUTCOMES && forall i :: 0 <= i < |odds| ==> odds[i] > 1.0
  }

  /** The raw implied probabilities 1/o. */
  function Implied(odds: seq<real>): (q: seq<real>)
    requires forall i :: 0 <= i < |odds| ==> odds[i] > 1.0
    ensures |q| == |odds|
    ensures forall i :: 0 <= i < |odds| ==> 0.0 < q[i] < 1.0 && q[i] * odds[i] == 1.0
  {
    seq(|odds|, i requires 0 <= i < |odds| => 1.0 / odds[i])
  }

  /** A vector of up to four entries laid out in the fixed-size result array. */
  function Padded(p: seq<real>): (r: seq<real>)
    requires |p| <= MAX_OUTCOMES
    ensures |r| == MAX_OUTCOMES && r[..|p|] == p
    ensures forall i :: |p| <= i < MAX_OUTCOMES ==> r[i] == 0.0
  {
    p + seq(MAX_OUTCOMES - |p|, i => 0.0)
  }

  method Booksum(odds: seq<real>) returns (sum: real)
    requires forall i :: 0 <= i < |odds| ==> odds[i] > 1.0
    ensures sum == Sum(Implied(odds))
  {
    sum := 0.0;
    var i := 0;
    while i < |odds|
      invariant 0 <= i <= |odds|
      invariant sum == Sum(Implied(odds)[..i])
    {
      SumStep(Implied(odds), i);
      sum := sum + 1.0 / odds[i];
      i := i + 1;
    }
    assert Implied(odds)[..i] == Implied(odds);
  }

  /** With no positive margin the raw implied probabilities come back unchanged, marked as no distribution. */
  method NoMargin(odds: seq<real>) returns (out: DevigResult)
    requires ValidOdds(odds)
    ensures out == DevigResult(Padded(Implied(odds)), 1.0, 0, |odds|, NoMarginToRemove, false)
  {
    var prob := new real[MAX_OUTCOMES](_ => 0.0);
    var i := 0;
    while i < |odds|
      invariant 0 <= i <= |odds|
      invariant prob[..i] == Implied(odds)[..i]
      invariant forall j :: i <= j < MAX_OUTCOMES ==> prob[j] == 0.0
    {
      prob[i] := 1.0 / odds[i];
      i := i + 1;
    }
    assert prob[..] == Padded(Implied(odds));
    out := DevigResult(prob[..], 1.0, 0, |odds|, NoMarginToRemove, false);
  }

  /** A method's answer in the two cases every method decides before solving anything. */
  ghost predicate GuardedResult(odds: seq<real>, out: DevigResult) {
    if !ValidOdds(odds) then out == ZEROED
    else if Sum(Implied(odds)) <= 1.0 then
      out == DevigResult(Padded(Implied(odds)), 1.0, 0, |odds|, NoMarginToRemove, false)
    else
      out.count == |odds| && |out.prob| == MAX_OUTCOMES &&
      forall i :: |odds| <= i < MAX_OUTCOMES ==> out.prob[i] == 0.0
  }

  // ---- how the iterative methods stop ----

  /** A solver tries points 0, 1, 2, ...: it stops with Ok at the first that hits, and otherwise gives up after `limit`
      of them. */
  ghost predicate Stops(hit: nat -> bool, limit: nat, status: Status, iterations: nat) {
    iterations <= limit &&
    if status == Ok then 1 <= iterations && hit(iterations - 1) && NoHit(hit, iterations - 1)
    else status == NotConverged && iterations == limit && NoHit(hit, limit)
  }

  ghost predicate NoHit(hit: nat -> bool, n: nat) {
    forall m: nat :: m < n ==> !hit(m)
  }

  /** The point the answer is made from: the one that hit, or the one that would have been tried next. */
  function LastTried(status: Status, iterations: nat): nat {
    if status == Ok && 1 <= iterations then iterations - 1 else iterations
  }

  lemma StopHere(hit: nat -> bool, limit: nat, n: nat)
    requires NoHit(hit, n) && n < limit && hit(n)
    ensures Stops(hit, limit, Ok, n + 1) && LastTried(Ok, n + 1) == n
  {
  }

  lemma GoOn(hit: nat -> bool, n: nat)
    requires NoHit(hit, n) && !hit(n)
    ensures NoHit(hit, n + 1)
  {
  }

  lemma Missed(hit: nat -> bool, n: nat, m: nat)
    requires NoHit(hit, n) && m < n
    ensures !hit(m)
  {
  }

  lemma NoHitBefore(hit: nat -> bool, m: nat, n: nat)
    requires NoHit(hit, n) && m <= n
    ensures NoHit(hit, m)
  {
  }

  /** There is only one way to stop. */
  lemma StopsOnce(hit: nat -> bool, limit: nat, status: Status, n: nat, status': Status, n': nat)
    requires Stops(hit, limit, status, n) && Stops(hit, limit, status', n')
    ensures status == status' && n == n'
  {
    if status == Ok { assert hit(n - 1); }
    if status' == Ok { assert hit(n' - 1); }
  }

  /** Every outcome surrenders the same fraction of its raw probability, down to a total of one. */
  ghost predicate EqualShares(q: seq<real>, p: seq<real>) {
    |p| == |q| && Sum(p) == 1.0 && forall i :: 0 <= i < |q| ==> IsShare(q[i], Sum(q), p[i])
  }

  ghost predicate IsShare(q: real, B: real, p: real) { 0.0 < p < q && q == B * p }

  /** What the multiplicative method answers on a book with margin. */
  ghost predicate MultiplicativeOutcome(q: seq<real>, out: DevigResult) {
    out.UsableAsDistribution() && out.param == 1.0 && out.iterations == 0 &&
    out.count <= |out.prob| && EqualShares(q, out.prob[..out.count])
  }

  method Multiplicative(odds: seq<real>) returns (out: DevigResult)
    ensures GuardedResult(odds, out)
    ensures ValidOdds(odds) && Sum(Implied(odds)) > 1.0 ==> MultiplicativeOutcome(Implied(odds), out)
  {
    if !ValidOdds(odds) {
      return ZEROED;
    }
    var B := Booksum(odds);
    if B <= 1.0 {
      out := NoMargin(odds);
      return;
    }
    ghost var q := Implied(odds);
    var prob := new real[MAX_OUTCOMES](_ => 0.0);
    var i := 0;
    while i < |odds|
      invariant 0 <= i <= |odds|
      invariant forall j :: 0 <= j < i ==> prob[j] == q[j] / B
      invariant forall j :: i <= j < MAX_OUTCOMES ==> prob[j] == 0.0
    {
      prob[i] := (1.0 / odds[i]) / B;
      i := i + 1;
    }
    out := DevigResult(prob[..], 1.0, 0, |odds|, Ok, true);
    SharesOfBook(q, prob[..][..|odds|]);
  }

  lemma SharesOfBook(q: seq<real>, p: seq<real>)
    requires |p| == |q| && 1.0 < Sum(q)
    requires forall i :: 0 <= i < |q| ==> 0.0 < q[i] && p[i] == q[i] / Sum(q)
    ensures EqualShares(q, p)
  {
    var B := Sum(q);
    forall i | 0 <= i < |q| ensures IsShare(q[i], B, p[i]) {
      ShareOfBook(q[i], B, p[i]);
    }
    SharesSumToOne(q, p, B, Sum(p));
  }

  lemma SharesSumToOne(q: seq<real>, p: seq<real>, B: real, s: real)
    requires |p| == |q| && 1.0 < B && B == Sum(q) && s == Sum(p)
    requires forall i :: 0 <= i < |q| ==> IsShare(q[i], B, p[i])
    ensures s == 1.0
  {
    forall i | 0 <= i < |q| ensures q[i] == B * p[i] { assert IsShare(q[i], B, p[i]); }
    SumScale(p, q, B, s);
    WholeShare(s, B, Sum(q));
  }

  /** No other probabilities are such shares of the book. */
  lemma EqualSharesUnique(q: seq<real>, p: seq<real>, p': seq<real>)
    requires EqualShares(q, p) && EqualShares(q, p') && 0.0 < Sum(q)
    ensures p == p'
  {
    forall i | 0 <= i < |q| ensures p[i] == p'[i] {
      assert IsShare(q[i], Sum(q), p[i]) && IsShare(q[i], Sum(q), p'[i]);
      SameShare(q[i], Sum(q), p[i], p'[i]);
    }
  }

  lemma SameShare(q: real, B: real, p: real, p': real)
    requires 0.0 < B && IsShare(q, B, p) && IsShare(q, B, p')
    ensures p == p'
  {
    CancelEq(p, p', B);
  }

  lemma WholeShare(s: real, B: real, m: real)
    requires 0.0 < B && m == B && m == B * s
    ensures s == 1.0
  {
  }

  lemma ShareOfBook(q: real, B: real, p: real)
    requires 0.0 < q && 1.0 < B && p == q / B
    ensures IsShare(q, B, p)
  {
    DivPos(q, B, p);
    MulLt(1.0, B, p);
  }

  /** Of two outcomes, the one with the larger raw probability keeps at least as large a part of it. */
  ghost predicate KeepsMore(q: real, p: real, q': real, p': real) {
    q <= q' ==> p * q' <= p' * q
  }

  /** The favourite-longshot correction: p/q never falls as q grows. */
  ghost predicate Tilted(q: seq<real>, p: seq<real>) {
    |p| == |q| &&
    forall i, j :: 0 <= i < |q| && 0 <= j < |q| ==> KeepsMore(q[i], p[i], q[j], p[j])
  }

  ghost predicate CrossLe(c: real, x: real, d: real, y: real) { c * x <= d * y }

  /** Against the multiplicative share q/B, the longest shot loses ... */
  lemma TiltedLongshot(q: seq<real>, p: seq<real>, k: nat)
    requires Tilted(q, p) && k < |q|
    requires forall i :: 0 <= i < |q| ==> q[k] <= q[i]
    ensures CrossLe(p[k], Sum(q), q[k], Sum(p))
  {
    forall i | 0 <= i < |q| ensures CrossLe(p[k], q[i], q[k], p[i]) {
      assert KeepsMore(q[k], p[k], q[i], p[i]);
    }
    CrossSum(q, p, p[k], q[k], Sum(q), Sum(p));
  }

  /** ... and the favourite gains. */
  lemma TiltedFavourite(q: seq<real>, p: seq<real>, k: nat)
    requires Tilted(q, p) && k < |q|
    requires forall i :: 0 <= i < |q| ==> q[i] <= q[k]
    ensures CrossLe(q[k], Sum(p), p[k], Sum(q))
  {
    forall i | 0 <= i < |q| ensures CrossLe(q[k], p[i], p[k], q[i]) {
      assert KeepsMore(q[i], p[i], q[k], p[k]);
    }
    CrossSum(p, q, q[k], p[k], Sum(p), Sum(q));
  }

  /** With a total within tolerance of one, the same comparison up to that tolerance. */
  lemma TiltWithTolerance(q: seq<real>, p: seq<real>, k: nat, tolerance: real)
    requires Tilted(q, p) && k < |q| && 0.0 < q[k] && 1.0 - tolerance < Sum(p) < 1.0 + tolerance
    ensures (forall i :: 0 <= i < |q| ==> q[k] <= q[i]) ==> CrossLe(p[k], Sum(q), q[k], 1.0 + tolerance)
    ensures (forall i :: 0 <= i < |q| ==> q[i] <= q[k]) ==> CrossLe(q[k], 1.0 - tolerance, p[k], Sum(q))
  {
    if forall i :: 0 <= i < |q| ==> q[k] <= q[i] {
      TiltedLongshot(q, p, k);
      CrossRaise(p[k], Sum(q), q[k], Sum(p), 1.0 + tolerance);
    }
    if forall i :: 0 <= i < |q| ==> q[i] <= q[k] {
      TiltedFavourite(q, p, k);
      CrossLower(q[k], Sum(p), p[k], Sum(q), 1.0 - tolerance);
    }
  }

  lemma CrossRaise(c: real, x: real, d: real, y: real, y': real)
    requires CrossLe(c, x, d, y) && 0.0 < d && y <= y'
    ensures CrossLe(c, x, d, y')
  {
    MulLe(y, y', d);
  }

  lemma CrossLower(c: real, x: real, d: real, y: real, x': real)
    requires CrossLe(c, x, d, y) && 0.0 < c && x' <= x
    ensures CrossLe(c, x', d, y)
  {
    MulLe(x', x, c);
  }

  lemma {:induction false} CrossSum(x: seq<real>, y: seq<real>, c: real, d: real, sx: real, sy: real)
    requires |x| == |y| && sx == Sum(x) && sy == Sum(y)
    requires forall i :: 0 <= i < |x| ==> CrossLe(c, x[i], d, y[i])
    ensures CrossLe(c, sx, d, sy)
  {
    if x != [] {
      var m := |x| - 1;
      CrossSum(x[..m], y[..m], c, d, Sum(x[..m]), Sum(y[..m]));
      CrossStep(c, d, Sum(x[..m]), Sum(y[..m]), x[m], y[m], sx, sy);
    }
  }

  lemma CrossStep(c: real, d: real, a: real, b: real, x: real, y: real, sx: real, sy: real)
    requires CrossLe(c, a, d, b) && CrossLe(c, x, d, y) && sx == a + x && sy == b + y
    ensures CrossLe(c, sx, d, sy)
  {
    assert c * sx == c * a + c * x;
    assert d * sy == d * b + d * y;
  }
}
