/** The allocator itself: sort by edge, scan prefixes downward, stake, scale, cap. */
module KellyAllocator {
  import opened Messages
  import opened Reals
  import opened Sums
  import opened Kelly
  import opened KellyPrefix

  datatype AllocationResult = AllocationResult(stake: seq<real>, count: nat, totalStake: real, reserveRate: real,
                                               bets: nat, hasBet: bool, capped: bool)

  const NO_ALLOCATION := AllocationResult([0.0, 0.0, 0.0, 0.0], 0, 0.0, 1.0, 0, false, false)

  predicate ValidInput(fair: seq<real>, odds: seq<real>, kellyFraction: real, maxExposure: real) {
    0 < |fair| <= MAX_OUTCOMES && |odds| == |fair| && kellyFraction > 0.0 && maxExposure > 0.0 &&
    forall i :: 0 <= i < |fair| ==> fair[i] >= 0.0 && odds[i] > 1.0
  }

  // ---- the sort ----

  function Edges(fair: seq<real>, odds: seq<real>): (e: seq<real>)
    requires |fair| == |odds|
    ensures |e| == |fair| && forall i :: 0 <= i < |e| ==> e[i] == Edge(fair[i], odds[i])
  {
    seq(|fair|, i requires 0 <= i < |fair| => Edge(fair[i], odds[i]))
  }

  /** The entries of `order` are indices, and the keys fall along it. */
  ghost predicate Falling(e: seq<real>, order: seq<nat>) {
    (forall t :: 0 <= t < |order| ==> order[t] < |e|) &&
    forall s, t :: 0 <= s < t < |order| ==> e[order[t]] <= e[order[s]]
  }

  /** Equal keys keep the order they came in. */
  ghost predicate TiesInOrder(e: seq<real>, order: seq<nat>)
    requires forall t :: 0 <= t < |order| ==> order[t] < |e|
  {
    forall s, t :: 0 <= s < t < |order| && e[order[s]] == e[order[t]] ==> order[s] < order[t]
  }

  ghost predicate Sorted(e: seq<real>, order: seq<nat>) { Falling(e, order) && TiesInOrder(e, order) }

  /** The first i entries are sorted among themselves, and the others have not moved. */
  ghost predicate SortedUpTo(e: seq<real>, order: seq<nat>, i: nat) {
    i <= |order| == |e| && Sorted(e, order[..i]) && (forall t :: 0 <= t < i ==> order[t] < i) &&
    forall t :: i <= t < |order| ==> order[t] == t
  }

  method SortByEdge(e: seq<real>) returns (order: array<nat>)
    ensures fresh(order) && order.Length == |e|
    ensures Permutation(order[..], |e|) && Sorted(e, order[..])
    ensures forall s, t :: 0 <= s < t < order.Length ==>
      e[order[t]] < e[order[s]] || (e[order[t]] == e[order[s]] && order[s] < order[t])
  {
    var n := |e|;
    order := new nat[n](i => i);
    assert order[..] == Identity(n);
    var i := 1;
    while i < n
      invariant 1 <= i && (i <= n || n == 0)
      invariant Permutation(order[..], n)
      invariant n > 0 ==> SortedUpTo(e, order[..], i)
    {
      Insert(e, order, i);
      i := i + 1;
    }
    if n > 0 { assert order[..][..i] == order[..]; }
  }

  /** One pass of the insertion sort: entry i moves left past every smaller edge. */
  method Insert(e: seq<real>, order: array<nat>, i: nat)
    requires 0 < i < order.Length && SortedUpTo(e, order[..], i)
    modifies order
    ensures SortedUpTo(e, order[..], i + 1)
    ensures multiset(order[..]) == multiset(old(order[..]))
  {
    var key := order[i];
    var j := i;
    ghost var start := order[..];
    assert start[i := key] == start;
    while j > 0 && e[order[j - 1]] < e[key]
      invariant j <= i && Inserting(e, order[..], start, i, j, key) && order[i + 1..] == start[i + 1..]
    {
      InsertStep(e, order[..], start, i, j, key);
      order[j] := order[j - 1];
      j := j - 1;
    }
    InsertDone(e, order[..], start, i, j, key);
    order[j] := key;
  }

  /** Entries j to i-1 of `start` have moved one to the right, past the smaller key that leaves entry i for entry j. */
  ghost predicate Inserting(e: seq<real>, s: seq<nat>, start: seq<nat>, i: nat, j: nat, key: nat) {
    |s| == |start| && j <= i < |s| && key < |e| && (forall t :: 0 <= t < |s| ==> s[t] < |e| && start[t] < |e|) &&
    s[..j] == start[..j] && s[j + 1..i + 1] == start[j..i] &&
    (forall t :: j <= t < i ==> e[start[t]] < e[key]) &&
    multiset(s[j := key]) == multiset(start)
  }

  lemma InsertStep(e: seq<real>, s: seq<nat>, start: seq<nat>, i: nat, j: nat, key: nat)
    requires 0 < j && Inserting(e, s, start, i, j, key) && e[s[j - 1]] < e[key]
    ensures Inserting(e, s[j := s[j - 1]], start, i, j - 1, key)
  {
    var s' := s[j := s[j - 1]];
    assert s[..j][j - 1] == start[..j][j - 1];
    assert s'[j..i + 1] == [s[j - 1]] + s[j + 1..i + 1];
    assert start[j - 1..i] == [start[j - 1]] + start[j..i];
    assert s'[..j - 1] == s[..j][..j - 1];
    assert start[..j][..j - 1] == start[..j - 1];
    SwapKeepsEntries(s, j, key);
  }

  /** Moving the gap one to the left exchanges two entries. */
  lemma {:induction false} SwapKeepsEntries(s: seq<nat>, j: nat, key: nat)
    requires 0 < j < |s|
    ensures multiset(s[j := s[j - 1]][j - 1 := key]) == multiset(s[j := key])
  {
    var a, b := s[j := s[j - 1]][j - 1 := key], s[j := key];
    assert a == b[j := b[j - 1]][j - 1 := b[j]];
  }

  lemma InsertDone(e: seq<real>, s: seq<nat>, start: seq<nat>, i: nat, j: nat, key: nat)
    requires Inserting(e, s, start, i, j, key) && SortedUpTo(e, start, i) && key == start[i]
    requires s[i + 1..] == start[i + 1..]
    requires j == 0 || e[key] <= e[s[j - 1]]
    ensures SortedUpTo(e, s[j := key], i + 1) && multiset(s[j := key]) == multiset(start)
  {
    var was, now := start[..i], s[j := key];
    assert j > 0 ==> s[..j][j - 1] == was[j - 1];
    InsertedSorted(e, was, j, key);
    assert was[..j] == start[..j] && was[j..] == start[j..i];
    assert now[..i + 1] == s[..j] + [key] + s[j + 1..i + 1];
    forall t | 0 <= t < i + 1 ensures now[t] < i + 1 {
      assert now[..i + 1][t] == (was[..j] + [key] + was[j..])[t];
    }
    forall t | i + 1 <= t < |now| ensures now[t] == t {
      assert now[t] == s[i + 1..][t - i - 1] == start[t];
    }
  }

  lemma InsertedSorted(e: seq<real>, s: seq<nat>, j: nat, key: nat)
    requires Sorted(e, s) && j <= |s| && key < |e| && forall t :: 0 <= t < |s| ==> s[t] < key
    requires j == 0 || e[key] <= e[s[j - 1]]
    requires forall t :: j <= t < |s| ==> e[s[t]] < e[key]
    ensures Sorted(e, s[..j] + [key] + s[j..])
  {
    InsertedFalling(e, s, j, key);
    InsertedTies(e, s, j, key);
  }

  lemma InsertedFalling(e: seq<real>, s: seq<nat>, j: nat, key: nat)
    requires Falling(e, s) && j <= |s| && key < |e|
    requires j == 0 || e[key] <= e[s[j - 1]]
    requires forall t :: j <= t < |s| ==> e[s[t]] < e[key]
    ensures Falling(e, s[..j] + [key] + s[j..])
  {
  }

  lemma InsertedTies(e: seq<real>, s: seq<nat>, j: nat, key: nat)
    requires Sorted(e, s) && j <= |s| && key < |e| && Falling(e, s[..j] + [key] + s[j..])
    requires forall t :: 0 <= t < |s| ==> s[t] < key
    requires forall t :: j <= t < |s| ==> e[s[t]] < e[key]
    ensures TiesInOrder(e, s[..j] + [key] + s[j..])
  {
  }

  /** Keys and places together leave only one sorted order. */
  lemma {:induction false} SortedUnique(e: seq<real>, a: seq<nat>, b: seq<nat>)
    requires Sorted(e, a) && Sorted(e, b) && multiset(a) == multiset(b)
    ensures a == b
  {
    SameLength(a, b);
    if a != [] {
      var m := |a| - 1;
      LastIsLast(e, a, b, m);
      LastIsLast(e, b, a, m);
      SameFront(a, b, m);
      SortedUnique(e, a[..m], b[..m]);
      assert a == a[..m] + [a[m]] && b == b[..m] + [b[m]];
    }
  }

  lemma SameLength(a: seq<nat>, b: seq<nat>)
    requires multiset(a) == multiset(b)
    ensures |a| == |b|
  {
    assert |multiset(a)| == |multiset(b)|;
  }

  lemma SameFront(a: seq<nat>, b: seq<nat>, m: nat)
    requires |a| == |b| == m + 1 && a[m] == b[m] && multiset(a) == multiset(b)
    ensures multiset(a[..m]) == multiset(b[..m])
  {
    assert a == a[..m] + [a[m]] && b == b[..m] + [b[m]];
    assert multiset(a[..m]) == multiset(a) - multiset{a[m]};
  }

  /** The last of one order is at the end of the other: nothing it holds comes after it. */
  lemma LastIsLast(e: seq<real>, a: seq<nat>, b: seq<nat>, m: nat)
    requires Sorted(e, a) && Sorted(e, b) && multiset(a) == multiset(b) && |a| == |b| == m + 1
    ensures a[m] == b[m]
  {
    assert a[m] in multiset(b) && b[m] in multiset(a);
    var t :| 0 <= t < |b| && b[t] == a[m];
    var s :| 0 <= s < |a| && a[s] == b[m];
  }

  // ---- the prefix scan ----

  method PrefixSums(p: seq<real>, o: seq<real>, k: nat) returns (P: real, B: real)
    requires Market(p, o) && k <= |p|
    ensures P == Sum(p[..k]) && B == Sum(Inverses(o)[..k])
  {
    P, B := 0.0, 0.0;
    ghost var b := Inverses(o);
    var t := 0;
    while t < k
      invariant 0 <= t <= k && P == Sum(p[..t]) && B == Sum(b[..t])
    {
      SumStep(p, t);
      SumStep(b, t);
      P := P + p[t];
      B := B + 1.0 / o[t];
      t := t + 1;
    }
  }

  /** Scan prefix lengths from n down to 1 and stop at the first admissible one. */
  method BestPrefix(p: seq<real>, o: seq<real>) returns (k: nat, R: real)
    requires Market(p, o)
    ensures LongestAdmissible(p, o, k) && R == ChosenRate(p, o, k)
  {
    k := |p|;
    while k >= 1
      invariant k <= |p|
      invariant forall j: nat :: k < j ==> !Admissible(p, o, j)
    {
      var P, B := PrefixSums(p, o, k);
      var denom := 1.0 - B;
      if denom > 0.0 {
        R := (1.0 - P) / denom;
        if Edge(p[k - 1], o[k - 1]) > R {
          return;
        }
      }
      k := k - 1;
    }
    R := 1.0;
  }

  // ---- the stakes ----

  /** The stake placed on a member of the betting set, with the floor at zero. */
  function Floored(p: real, o: real, R: real): (f: real)
    requires o > 1.0
    ensures 0.0 <= f
  {
    var f := p - R / o;
    if f < 0.0 then 0.0 else f
  }

  /** Full stakes along the sorted order: the first k outcomes, floored. */
  function PrefixStakeSeq(p: seq<real>, o: seq<real>, k: nat, R: real): (f: seq<real>)
    requires Market(p, o) && k <= |p|
    ensures |f| == |p|
  {
    seq(|p|, t requires 0 <= t < |p| => if t < k then Floored(p[t], o[t], R) else 0.0)
  }

  /** Place the first k stakes of the order, each at its own outcome's index. */
  method PlaceStakes(f: seq<real>, order: seq<nat>, k: nat, stake: array<real>) returns (total: real, bets: nat)
    requires k <= |f| <= stake.Length && forall i :: 0 <= i < stake.Length ==> stake[i] == 0.0
    requires forall t :: k <= t < |f| ==> f[t] == 0.0
    requires Permutation(order, |f|) && |order| == |f| && forall t :: 0 <= t < |order| ==> order[t] < |f|
    modifies stake
    ensures Pick(stake[..|f|], order) == f && total == Sum(f) && bets == k
    ensures forall i :: |f| <= i < stake.Length ==> stake[i] == 0.0
  {
    PermutationDistinct(order, |f|);
    ZeroTail(f, k);
    total, bets := 0.0, 0;
    while bets < k
      invariant 0 <= bets <= k && total == Sum(f[..bets])
      invariant forall s :: 0 <= s < |order| ==> stake[order[s]] == if s < bets then f[s] else 0.0
      invariant forall i :: |f| <= i < stake.Length ==> stake[i] == 0.0
    {
      SumStep(f, bets);
      stake[order[bets]] := f[bets];
      total := total + f[bets];
      bets := bets + 1;
    }
  }

  lemma PermutationDistinct(order: seq<nat>, n: nat)
    requires Permutation(order, n)
    ensures forall s, t :: 0 <= s < t < |order| ==> order[s] != order[t]
  {
    forall s, t | 0 <= s < t < |order| ensures order[s] != order[t] {
      if order[s] == order[t] {
        var x := order[s];
        assert order == order[..s] + [x] + order[s + 1..t] + [x] + order[t + 1..];
        assert multiset(order)[x] >= 2;
        IdentityOnce(n, x);
      }
    }
  }

  lemma {:induction false} IdentityOnce(n: nat, x: nat)
    ensures multiset(Identity(n))[x] <= 1
    ensures x >= n ==> multiset(Identity(n))[x] == 0
  {
    if n > 0 {
      IdentityOnce(n - 1, x);
      assert Identity(n) == Identity(n - 1) + [n - 1];
    } else {
      assert Identity(0) == [];
    }
  }

  lemma {:induction false} ZeroTail(f: seq<real>, k: nat)
    requires k <= |f| && forall t :: k <= t < |f| ==> f[t] == 0.0
    ensures Sum(f) == Sum(f[..k])
  {
    if k == |f| {
      assert f[..k] == f;
    } else {
      var m := |f| - 1;
      ZeroTail(f[..m], k);
      assert f[..m][..k] == f[..k];
    }
  }

  /** Multiply every stake by one factor. */
  method Scale(stake: array<real>, n: nat, factor: real)
    requires n <= stake.Length
    modifies stake
    ensures forall i :: 0 <= i < n ==> Times(stake[i], factor, old(stake[i]))
    ensures forall i :: n <= i < stake.Length ==> stake[i] == old(stake[i])
  {
    var i := 0;
    while i < n
      invariant 0 <= i <= n
      invariant forall j :: 0 <= j < i ==> Times(stake[j], factor, old(stake[j]))
      invariant forall j :: i <= j < stake.Length ==> stake[j] == old(stake[j])
    {
      stake[i] := stake[i] * factor;
      i := i + 1;
    }
  }

  // ---- what the allocator promises ----

  /** Whatever the beliefs: stakes are non-negative, add up to the reported total, and stay within the cap. */
  ghost predicate WithinExposure(n: nat, maxExposure: real, out: AllocationResult) {
    n <= MAX_OUTCOMES == |out.stake| && out.count == n &&
    (forall i :: 0 <= i < MAX_OUTCOMES ==> 0.0 <= out.stake[i] && (n <= i ==> out.stake[i] == 0.0)) &&
    Sum(out.stake[..n]) == out.totalStake <= maxExposure && (out.hasBet <==> out.totalStake > 0.0)
  }

  ghost predicate Proportion(x: real, a: real, y: real, b: real) { x * a == y * b }

  ghost predicate InProportion(s: seq<real>, full: real, total: real, f: seq<real>) {
    |s| == |f| && forall i :: 0 <= i < |s| ==> Proportion(s[i], full, total, f[i])
  }

  ghost predicate CappedTotal(full: real, kellyFraction: real, maxExposure: real, total: real, capped: bool) {
    (capped <==> full * kellyFraction > maxExposure) && total == if capped then maxExposure else full * kellyFraction
  }

  /** Stakes in the proportions of s0, which total `full`: scaled to the Kelly fraction of that total, or to the cap. */
  ghost predicate ScaledFrom(s0: seq<real>, full: real, kellyFraction: real, maxExposure: real, out: AllocationResult) {
    |s0| <= |out.stake| && full == Sum(s0) &&
    CappedTotal(full, kellyFraction, maxExposure, out.totalStake, out.capped) &&
    InProportion(out.stake[..|s0|], full, out.totalStake, s0)
  }

  /** One for each outcome that beats the reserve rate, nothing for the others. */
  function BetFlags(p: seq<real>, o: seq<real>, R: real): (b: seq<real>)
    requires |p| == |o|
    ensures |b| == |p| && forall i :: 0 <= i < |p| ==> b[i] == if Edge(p[i], o[i]) > R then 1.0 else 0.0
  {
    seq(|p|, i requires 0 <= i < |p| => if Edge(p[i], o[i]) > R then 1.0 else 0.0)
  }

  /** When beliefs total at most one: the scaled full-Kelly stakes at the market's reserve rate, and the number of
      outcomes that beat it. */
  ghost predicate KellyResult(fair: seq<real>, odds: seq<real>, kellyFraction: real, maxExposure: real,
                              out: AllocationResult)
    requires Market(fair, odds)
  {
    var f := Stakes(fair, odds, out.reserveRate);
    IsReserve(fair, odds, out.reserveRate) && 0.0 <= out.reserveRate <= 1.0 &&
    out.bets as real == Sum(BetFlags(fair, odds, out.reserveRate)) &&
    ScaledFrom(f, Sum(f), kellyFraction, maxExposure, out)
  }

  /** What the answer is, whatever the beliefs total: along this order of falling edges the longest admissible prefix
      is staked, and s0 are those stakes at their own outcomes before scaling. */
  ghost predicate StakedAlong(fair: seq<real>, odds: seq<real>, kellyFraction: real, maxExposure: real,
                              out: AllocationResult, order: seq<nat>, k: nat, s0: seq<real>)
    requires Market(fair, odds)
  {
    Permutation(order, |fair|) && |order| == |fair| && Falling(Edges(fair, odds), order) &&
    var p, o := Pick(fair, order), Pick(odds, order);
    LongestAdmissible(p, o, k) && out.reserveRate == ChosenRate(p, o, k) && out.bets == k &&
    |s0| == |fair| && Pick(s0, order) == PrefixStakeSeq(p, o, k, out.reserveRate) &&
    ScaledFrom(s0, Sum(s0), kellyFraction, maxExposure, out)
  }

  /** The same with ties staked in the order they came in, which leaves no choice. */
  ghost predicate SortedResult(fair: seq<real>, odds: seq<real>, kellyFraction: real, maxExposure: real,
                               out: AllocationResult)
    requires Market(fair, odds)
  {
    exists order, k, s0 ::
      StakedAlong(fair, odds, kellyFraction, maxExposure, out, order, k, s0) && TiesInOrder(Edges(fair, odds), order)
  }

  ghost predicate PrefixResult(fair: seq<real>, odds: seq<real>, kellyFraction: real, maxExposure: real,
                               out: AllocationResult)
    requires Market(fair, odds)
  {
    exists order, k, s0 :: StakedAlong(fair, odds, kellyFraction, maxExposure, out, order, k, s0)
  }

  /** Nothing is allocated unless there are one to four outcomes with as many prices, no belief is negative, every price
      is above one, and fraction and cap are positive. Otherwise there is a bet exactly when some outcome has an edge,
      whatever the beliefs total, and when they total at most one the stakes are Kelly's. */
  method Allocate(fair: seq<real>, odds: seq<real>, kellyFraction: real, maxExposure: real)
    returns (out: AllocationResult)
    ensures !ValidInput(fair, odds, kellyFraction, maxExposure) ==> out == NO_ALLOCATION
    ensures ValidInput(fair, odds, kellyFraction, maxExposure) ==>
      WithinExposure(|fair|, maxExposure, out) && SortedResult(fair, odds, kellyFraction, maxExposure, out)
    ensures ValidInput(fair, odds, kellyFraction, maxExposure) && Sum(fair) <= 1.0 ==>
      KellyResult(fair, odds, kellyFraction, maxExposure, out)
    ensures (|fair| == 0 || |fair| > 4 || |odds| != |fair| || kellyFraction <= 0.0 || maxExposure <= 0.0 ||
             exists i :: 0 <= i < |fair| && (fair[i] < 0.0 || odds[i] <= 1.0)) ==>
      out == AllocationResult([0.0, 0.0, 0.0, 0.0], 0, 0.0, 1.0, 0, false, false)
    ensures (1 <= |fair| <= 4 && |odds| == |fair| && kellyFraction > 0.0 && maxExposure > 0.0 &&
             forall i :: 0 <= i < |fair| ==> fair[i] >= 0.0 && odds[i] > 1.0) ==>
      out.count == |fair| && (out.hasBet <==> exists i :: 0 <= i < |fair| && fair[i] * odds[i] > 1.0) &&
      (Sum(fair) <= 1.0 ==> KellyResult(fair, odds, kellyFraction, maxExposure, out))
  {
    if !ValidInput(fair, odds, kellyFraction, maxExposure) {
      return NO_ALLOCATION;
    }
    var sorted := SortByEdge(Edges(fair, odds));
    var order := sorted[..];
    PermutationBounds(order, |fair|);
    var p, o := Pick(fair, order), Pick(odds, order);
    var k, R := BestPrefix(p, o);
    if k == 0 {
      out := NO_ALLOCATION.(count := |fair|);
      NoBet(fair, odds, order, kellyFraction, maxExposure, out);
    } else {
      var f := PrefixStakeSeq(p, o, k, R);
      ghost var s0: seq<real>;
      out, s0 := StakePrefix(f, order, k, R, kellyFraction, maxExposure);
      assert StakedAlong(fair, odds, kellyFraction, maxExposure, out, order, k, s0);
    }
    BetsOnAnEdge(fair, odds, kellyFraction, maxExposure, out);
    if Sum(fair) <= 1.0 { PrefixIsKelly(fair, odds, kellyFraction, maxExposure, out); }
  }

  ghost predicate SomeEdge(fair: seq<real>, odds: seq<real>)
    requires |fair| == |odds|
  {
    exists i :: 0 <= i < |fair| && HasEdge(fair[i], odds[i])
  }

  ghost predicate HasEdge(p: real, o: real) { p * o > 1.0 }

  lemma EdgeOverOne(p: real, o: real)
    ensures HasEdge(p, o) <==> Edge(p, o) > 1.0
  {
    var e := p * o;
    assert e == Edge(p, o);
  }

  /** There is a bet exactly when some outcome has an edge: one then has a prefix of length one to start from. */
  lemma BetsOnAnEdge(fair: seq<real>, odds: seq<real>, kellyFraction: real, maxExposure: real, out: AllocationResult)
    requires Market(fair, odds) && 0.0 < kellyFraction && 0.0 < maxExposure
    requires WithinExposure(|fair|, maxExposure, out) && PrefixResult(fair, odds, kellyFraction, maxExposure, out)
    ensures out.hasBet <==> SomeEdge(fair, odds)
  {
    var order, k, s0 :| StakedAlong(fair, odds, kellyFraction, maxExposure, out, order, k, s0);
    SortedMarket(fair, odds, order, Pick(fair, order), Pick(odds, order));
    StakedOnAnEdge(fair, odds, out, order, Pick(fair, order), Pick(odds, order), k, s0);
    CappedSign(Sum(s0), kellyFraction, maxExposure, out.totalStake, out.capped);
  }

  lemma StakedOnAnEdge(fair: seq<real>, odds: seq<real>, out: AllocationResult, order: seq<nat>, p: seq<real>,
                       o: seq<real>, k: nat, s0: seq<real>)
    requires Market(fair, odds) && Permutation(order, |fair|) && |order| == |fair| == |s0|
    requires forall t :: 0 <= t < |order| ==> order[t] < |fair|
    requires p == Pick(fair, order) && o == Pick(odds, order) && Market(p, o) && ByEdge(p, o)
    requires LongestAdmissible(p, o, k) && out.reserveRate == ChosenRate(p, o, k)
    requires Pick(s0, order) == PrefixStakeSeq(p, o, k, out.reserveRate)
    ensures 0.0 <= Sum(s0) && (0.0 < Sum(s0) <==> SomeEdge(fair, odds))
  {
    PrefixHasStake(p, o, k, out.reserveRate);
    PlacedTotal(s0, order, PrefixStakeSeq(p, o, k, out.reserveRate));
    PrefixHasEdge(p, o, k);
    EdgeAnywhere(fair, odds, order, p, o);
  }

  lemma CappedSign(full: real, kellyFraction: real, maxExposure: real, total: real, capped: bool)
    requires 0.0 <= full && 0.0 < kellyFraction && 0.0 < maxExposure
    requires CappedTotal(full, kellyFraction, maxExposure, total, capped)
    ensures 0.0 < total <==> 0.0 < full
  {
    if 0.0 < full { ProductPos(full, kellyFraction, full * kellyFraction); }
  }

  /** A longest prefix of some length has a positive stake in it, one of length zero has none. */
  lemma PrefixHasStake(p: seq<real>, o: seq<real>, k: nat, R: real)
    requires Market(p, o) && ByEdge(p, o) && LongestAdmissible(p, o, k) && R == ChosenRate(p, o, k)
    ensures forall t :: 0 <= t < |p| ==> 0.0 <= PrefixStakeSeq(p, o, k, R)[t]
    ensures 0.0 <= Sum(PrefixStakeSeq(p, o, k, R)) && (0.0 < Sum(PrefixStakeSeq(p, o, k, R)) <==> 0 < k)
  {
    var f := PrefixStakeSeq(p, o, k, R);
    SumNonNegative(f);
    if k == 0 {
      NothingStaked(f);
    } else {
      MembersBeatRate(p, o, k, 0);
      StakeSign(p[0], o[0], R, R / o[0]);
      SumAtLeastTerm(f, 0);
    }
  }

  lemma {:induction false} PrefixHasEdge(p: seq<real>, o: seq<real>, k: nat)
    requires Market(p, o) && ByEdge(p, o) && LongestAdmissible(p, o, k)
    ensures 0 < k <==> 0 < |p| && Edge(p[0], o[0]) > 1.0
  {
    if 0 < |p| {
      EmptyPrefix(p, o);
      PrefixGrows(p, o, 0, 1);
      DivPos(1.0, o[0], Inverses(o)[0]);
      MulLt(1.0, o[0], Inverses(o)[0]);
      AdmissibleDownward(p, o, 0, 1);
      if 0 < k { AdmissibleToOne(p, o, k); }
    }
  }

  lemma {:induction false} AdmissibleToOne(p: seq<real>, o: seq<real>, k: nat)
    requires Market(p, o) && ByEdge(p, o) && Admissible(p, o, k)
    ensures Admissible(p, o, 1)
  {
    if k > 1 {
      AdmissibleDownward(p, o, k - 1, k);
      AdmissibleToOne(p, o, k - 1);
    }
  }

  /** The first along the order has an edge if any outcome has. */
  lemma EdgeAnywhere(fair: seq<real>, odds: seq<real>, order: seq<nat>, p: seq<real>, o: seq<real>)
    requires Market(fair, odds) && Permutation(order, |fair|) && |order| == |fair|
    requires forall t :: 0 <= t < |order| ==> order[t] < |fair|
    requires p == Pick(fair, order) && o == Pick(odds, order) && ByEdge(p, o)
    ensures SomeEdge(fair, odds) <==> 0 < |p| && Edge(p[0], o[0]) > 1.0
  {
    if i :| 0 <= i < |fair| && HasEdge(fair[i], odds[i]) {
      var t := Position(order, |fair|, i);
      EdgeOverOne(fair[i], odds[i]);
      assert Edge(p[t], o[t]) == Edge(fair[i], odds[i]);
      assert t == 0 || Edge(p[t], o[t]) <= Edge(p[0], o[0]);
    }
    if 0 < |p| && Edge(p[0], o[0]) > 1.0 { EdgeOverOne(fair[order[0]], odds[order[0]]); }
  }

  /** Stake the chosen prefix, scale by the Kelly fraction, and cap. */
  method StakePrefix(f: seq<real>, order: seq<nat>, k: nat, R: real, kellyFraction: real, maxExposure: real)
    returns (out: AllocationResult, ghost s0: seq<real>)
    requires k <= |f| <= MAX_OUTCOMES && 0.0 < kellyFraction && 0.0 < maxExposure
    requires |order| == |f| && Permutation(order, |f|) && forall t :: 0 <= t < |order| ==> order[t] < |f|
    requires forall t :: 0 <= t < |f| ==> 0.0 <= f[t] && (k <= t ==> f[t] == 0.0)
    ensures WithinExposure(|f|, maxExposure, out)
    ensures |s0| == |f| && Pick(s0, order) == f && ScaledFrom(s0, Sum(s0), kellyFraction, maxExposure, out)
    ensures out.reserveRate == R
    ensures out.bets == k
  {
    var n := |f|;
    var stake := new real[MAX_OUTCOMES](_ => 0.0);
    var full, bets := PlaceStakes(f, order, k, stake);
    s0 := stake[..n];
    PlacedTotal(s0, order, f);
    var total, capped := ScaleAndCap(stake, n, kellyFraction, maxExposure, full);
    out := AllocationResult(stake[..], n, total, R, bets, total > 0.0, capped);
    assert out.stake[..n] == stake[..n];
    assert ScaledFrom(s0, full, kellyFraction, maxExposure, out);
  }

  lemma PlacedTotal(s: seq<real>, order: seq<nat>, f: seq<real>)
    requires |s| == |f| && Permutation(order, |f|) && (forall t :: 0 <= t < |order| ==> order[t] < |f|)
    requires Pick(s, order) == f
    requires forall t :: 0 <= t < |f| ==> 0.0 <= f[t]
    ensures Sum(s) == Sum(f) && forall i :: 0 <= i < |s| ==> 0.0 <= s[i]
  {
    SumReordered(s, order);
    forall i | 0 <= i < |s| ensures 0.0 <= s[i] {
      var t := Position(order, |s|, i);
      assert s[i] == f[t];
    }
  }

  /** While beliefs total at most one, staking the longest admissible prefix is Kelly at the reserve rate, with no
      order in sight. */
  lemma PrefixIsKelly(fair: seq<real>, odds: seq<real>, kellyFraction: real, maxExposure: real, out: AllocationResult)
    requires Market(fair, odds) && Sum(fair) <= 1.0 && PrefixResult(fair, odds, kellyFraction, maxExposure, out)
    ensures KellyResult(fair, odds, kellyFraction, maxExposure, out)
  {
    var order, k, s0 :| StakedAlong(fair, odds, kellyFraction, maxExposure, out, order, k, s0);
    var p, o, R := Pick(fair, order), Pick(odds, order), out.reserveRate;
    RateOfMarket(fair, odds, order, p, o, k, R);
    FloorNeverFires(p, o, k, R);
    PickInjective(s0, Stakes(fair, odds, R), order);
    CountOfMarket(fair, odds, order, p, o, k, R);
  }

  /** The betting set, as large as the chosen prefix, is counted the same in either order. */
  lemma CountOfMarket(fair: seq<real>, odds: seq<real>, order: seq<nat>, p: seq<real>, o: seq<real>, k: nat, R: real)
    requires |fair| == |odds| == |order| && Permutation(order, |fair|)
    requires forall t :: 0 <= t < |order| ==> order[t] < |fair|
    requires p == Pick(fair, order) && o == Pick(odds, order) && Market(p, o) && ByEdge(p, o)
    requires LongestAdmissible(p, o, k) && R == ChosenRate(p, o, k) && Sum(p) <= 1.0
    ensures k as real == Sum(BetFlags(fair, odds, R))
  {
    var flags, all := BetFlags(p, o, R), BetFlags(fair, odds, R);
    assert flags == Pick(all, order);
    SumReordered(all, order);
    FlagsOfPrefix(p, o, k, R, flags);
  }

  lemma FlagsOfPrefix(p: seq<real>, o: seq<real>, k: nat, R: real, flags: seq<real>)
    requires Market(p, o) && ByEdge(p, o) && LongestAdmissible(p, o, k) && R == ChosenRate(p, o, k) && Sum(p) <= 1.0
    requires flags == BetFlags(p, o, R)
    ensures Sum(flags) == k as real
  {
    forall t | 0 <= t < |p| ensures flags[t] == if t < k then 1.0 else 0.0 {
      if t < k { MembersBeatRate(p, o, k, t); } else { OutsidersDoNot(p, o, k, t); }
    }
    CountOnes(flags, k);
  }

  lemma {:induction false} CountOnes(flags: seq<real>, k: nat)
    requires k <= |flags| && forall t :: 0 <= t < |flags| ==> flags[t] == if t < k then 1.0 else 0.0
    ensures Sum(flags) == k as real
  {
    ZeroTail(flags, k);
    SumConst(flags[..k], 1.0, k as real);
  }

  lemma PickInjective(a: seq<real>, b: seq<real>, order: seq<nat>)
    requires |a| == |b| && Permutation(order, |a|) && forall t :: 0 <= t < |order| ==> order[t] < |a|
    requires Pick(a, order) == Pick(b, order)
    ensures a == b
  {
    forall i | 0 <= i < |a| ensures a[i] == b[i] {
      var t := Position(order, |a|, i);
      assert Pick(a, order)[t] == Pick(b, order)[t];
    }
  }

  ghost predicate Times(y: real, c: real, x: real) { y == c * x }

  /** Scaling by the Kelly fraction: still non-negative, the total scales along, proportions are kept. */
  lemma FirstScaling(s: seq<real>, s': seq<real>, c: real, full: real, total: real)
    requires |s| == |s'| && 0.0 < c && full == Sum(s) && Times(total, full, c)
    requires forall i :: 0 <= i < |s| ==> 0.0 <= s[i] && Times(s'[i], c, s[i])
    ensures Sum(s') == total
    ensures forall i :: 0 <= i < |s| ==> 0.0 <= s'[i] && Proportion(s'[i], full, total, s[i])
  {
    SumScale(s, s', c, full);
    forall i | 0 <= i < |s| ensures 0.0 <= s'[i] && Proportion(s'[i], full, total, s[i]) {
      OneFirstScaling(s[i], s'[i], c, full, total);
    }
  }

  lemma OneFirstScaling(x: real, y: real, c: real, full: real, total: real)
    requires 0.0 <= x && 0.0 < c && Times(y, c, x) && Times(total, full, c)
    ensures 0.0 <= y && Proportion(y, full, total, x)
  {
    ProductNonNeg(c, x, y);
    assert (c * x) * full == (full * c) * x;
  }

  /** Scaling down to the cap keeps the proportions too. */
  lemma SecondScaling(s0: seq<real>, s: seq<real>, s': seq<real>, c: real, full: real, total: real, cap: real)
    requires |s0| == |s| == |s'| && 0.0 < c && total == Sum(s) && Times(cap, c, total)
    requires forall i :: 0 <= i < |s| ==> 0.0 <= s[i] && Times(s'[i], c, s[i]) && Proportion(s[i], full, total, s0[i])
    ensures Sum(s') == cap
    ensures forall i :: 0 <= i < |s| ==> 0.0 <= s'[i] && Proportion(s'[i], full, cap, s0[i])
  {
    SumScale(s, s', c, total);
    forall i | 0 <= i < |s| ensures 0.0 <= s'[i] && Proportion(s'[i], full, cap, s0[i]) {
      OneSecondScaling(s0[i], s[i], s'[i], c, full, total, cap);
    }
  }

  lemma OneSecondScaling(x: real, y: real, z: real, c: real, full: real, total: real, cap: real)
    requires 0.0 <= y && 0.0 < c && Times(z, c, y) && Times(cap, c, total) && Proportion(y, full, total, x)
    ensures 0.0 <= z && Proportion(z, full, cap, x)
  {
    ProductNonNeg(c, y, z);
    assert (c * y) * full == c * (y * full);
    assert (c * total) * x == c * (total * x);
  }

  /** Fractional Kelly, then the exposure cap: every stake keeps its proportion to the total. */
  method ScaleAndCap(stake: array<real>, n: nat, kellyFraction: real, maxExposure: real, full: real)
    returns (total: real, capped: bool)
    requires n <= stake.Length && 0.0 < kellyFraction && 0.0 < maxExposure && full == Sum(stake[..n])
    requires forall i :: 0 <= i < n ==> 0.0 <= stake[i]
    modifies stake
    ensures CappedTotal(full, kellyFraction, maxExposure, total, capped)
    ensures total <= maxExposure
    ensures Sum(stake[..n]) == total
    ensures (forall i :: 0 <= i < n ==> 0.0 <= stake[i]) && InProportion(stake[..n], full, total, old(stake[..n]))
    ensures forall i :: n <= i < stake.Length ==> stake[i] == old(stake[i])
  {
    ghost var s0 := stake[..n];
    Scale(stake, n, kellyFraction);
    ghost var s1 := stake[..n];
    total, capped := full * kellyFraction, false;
    FirstScaling(s0, s1, kellyFraction, full, total);
    if total > maxExposure {
      var scale := maxExposure / total;
      DivPos(maxExposure, total, scale);
      Scale(stake, n, scale);
      SecondScaling(s0, s1, stake[..n], scale, full, total, maxExposure);
      total, capped := maxExposure, true;
    }
  }

  lemma SortedMarket(fair: seq<real>, odds: seq<real>, order: seq<nat>, p: seq<real>, o: seq<real>)
    requires Market(fair, odds) && Permutation(order, |fair|) && Falling(Edges(fair, odds), order)
    requires p == Pick(fair, order) && o == Pick(odds, order)
    ensures |p| == |fair| && Market(p, o) && ByEdge(p, o) && Sum(p) == Sum(fair)
  {
    PermutationBounds(order, |fair|);
    SumReordered(fair, order);
    var e := Edges(fair, odds);
    forall i, j | 0 <= i < j < |p| ensures Edge(p[j], o[j]) <= Edge(p[i], o[i]) {
      assert e[order[j]] <= e[order[i]];
    }
  }

  /** The rate found along the sorted order is the reserve rate of the market as given. */
  lemma RateOfMarket(fair: seq<real>, odds: seq<real>, order: seq<nat>, p: seq<real>, o: seq<real>, k: nat, R: real)
    requires Market(fair, odds) && Permutation(order, |fair|) && Falling(Edges(fair, odds), order)
    requires p == Pick(fair, order) && o == Pick(odds, order) && Market(p, o)
    requires LongestAdmissible(p, o, k) && R == ChosenRate(p, o, k) && Sum(fair) <= 1.0
    ensures ByEdge(p, o) && Sum(p) <= 1.0
    ensures IsReserve(fair, odds, R) && 0.0 <= R <= 1.0 && Stakes(p, o, R) == Pick(Stakes(fair, odds, R), order)
  {
    SortedMarket(fair, odds, order, p, o);
    ChosenRateIsReserve(p, o, k);
    RelabelStakes(fair, odds, order, R);
  }

  lemma NoBet(fair: seq<real>, odds: seq<real>, order: seq<nat>, kellyFraction: real, maxExposure: real,
              out: AllocationResult)
    requires ValidInput(fair, odds, kellyFraction, maxExposure)
    requires Permutation(order, |fair|) && |order| == |fair| && Sorted(Edges(fair, odds), order)
    requires LongestAdmissible(Pick(fair, order), Pick(odds, order), 0) && out == NO_ALLOCATION.(count := |fair|)
    ensures WithinExposure(|fair|, maxExposure, out) && SortedResult(fair, odds, kellyFraction, maxExposure, out)
  {
    NothingWithinExposure(|fair|, maxExposure, out);
    var s0 := out.stake[..|fair|];
    NothingStaked(s0);
    assert Pick(s0, order) == PrefixStakeSeq(Pick(fair, order), Pick(odds, order), 0, 1.0);
    assert StakedAlong(fair, odds, kellyFraction, maxExposure, out, order, 0, s0);
  }

  lemma NothingWithinExposure(n: nat, maxExposure: real, out: AllocationResult)
    requires n <= MAX_OUTCOMES && 0.0 < maxExposure && out == NO_ALLOCATION.(count := n)
    ensures WithinExposure(n, maxExposure, out)
  {
    NothingStaked(out.stake[..n]);
  }

  lemma NothingStaked(stake: seq<real>)
    requires forall i :: 0 <= i < |stake| ==> stake[i] == 0.0
    ensures Sum(stake) == 0.0
  {
    ZeroTail(stake, 0);
    assert stake[..0] == [];
  }

  lemma Position(order: seq<nat>, n: nat, i: nat) returns (t: nat)
    requires Permutation(order, n) && i < n
    ensures t < |order| && order[t] == i
  {
    assert Identity(n)[i] == i;
    assert i in multiset(order);
    t :| t < |order| && order[t] == i;
  }

  /** The numerical floor changes nothing in exact arithmetic. */
  lemma FloorNeverFires(p: seq<real>, o: seq<real>, k: nat, R: real)
    requires Market(p, o) && ByEdge(p, o) && LongestAdmissible(p, o, k) && R == ChosenRate(p, o, k) && Sum(p) <= 1.0
    ensures PrefixStakeSeq(p, o, k, R) == Stakes(p, o, R)
  {
    forall t | 0 <= t < |p| ensures PrefixStakeSeq(p, o, k, R)[t] == Stakes(p, o, R)[t] {
      if t < k {
        MembersBeatRate(p, o, k, t);
        StakeSign(p[t], o[t], R, R / o[t]);
      } else {
        OutsidersDoNot(p, o, k, t);
      }
    }
  }
}
