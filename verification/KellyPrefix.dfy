/** Prefixes of the outcomes in order of falling edge, and why the longest admissible one is the betting set. */
module KellyPrefix {
  import opened Reals
  import opened Sums
  import opened Kelly

  /** 1/o for every price. */
  function Inverses(o: seq<real>): (b: seq<real>)
    requires forall i :: 0 <= i < |o| ==> o[i] > 1.0
    ensures |b| == |o|
  {
    seq(|o|, i requires 0 <= i < |o| => 1.0 / o[i])
  }

  /** The reserve rate of the first k outcomes. */
  function PrefixRate(p: seq<real>, o: seq<real>, k: nat): real
    requires Market(p, o) && k <= |p| && Sum(Inverses(o)[..k]) != 1.0
  {
    (1.0 - Sum(p[..k])) / (1.0 - Sum(Inverses(o)[..k]))
  }

  /** The first k leave room for a reserve, and the weakest of them beats it. */
  predicate Admissible(p: seq<real>, o: seq<real>, k: nat)
    requires Market(p, o)
  {
    1 <= k <= |p| && Sum(Inverses(o)[..k]) < 1.0 && Edge(p[k - 1], o[k - 1]) > PrefixRate(p, o, k)
  }

  ghost predicate ByEdge(p: seq<real>, o: seq<real>) {
    |p| == |o| && forall i, j :: 0 <= i < j < |p| ==> Edge(p[j], o[j]) <= Edge(p[i], o[i])
  }

  // ---- adding one outcome of edge e and inverse price b to a prefix with sums P, B ----

  ghost predicate IsRate(R: real, P: real, B: real) { B < 1.0 && R * (1.0 - B) == 1.0 - P }

  ghost predicate Grown(P': real, P: real, e: real, b: real) { P' == P + e * b }

  lemma OneMore(P: real, B: real, R: real, e: real, b: real, P': real, B': real, R': real)
    requires IsRate(R, P, B) && IsRate(R', P', B') && 0.0 < b && B' == B + b && Grown(P', P, e, b)
    ensures e > R' <==> e > R
    ensures e > R ==> R' < R
  {
    var c, c' := 1.0 - B, 1.0 - B';
    Shrunk(e, b, c, c');
    Shrunk(R, b, c, c');
    OneMoreNamed(R, R', e, b, c, c', R * c, R' * c', e * c, e * c', e * b, R * c', R * b);
  }

  lemma Shrunk(x: real, b: real, c: real, c': real)
    requires c' == c - b
    ensures x * c' == x * c - x * b
  {
  }

  lemma OneMoreNamed(R: real, R': real, e: real, b: real, c: real, c': real,
                     Rc: real, R'c': real, ec: real, ec': real, eb: real, Rc': real, Rb: real)
    requires 0.0 < b && 0.0 < c && 0.0 < c' && c' == c - b
    requires Rc == R * c && R'c' == R' * c' && ec == e * c && ec' == e * c' && eb == e * b && Rc' == R * c'
    requires Rb == R * b
    requires R'c' == Rc - eb && ec' == ec - eb && Rc' == Rc - Rb
    ensures e > R' <==> e > R
    ensures e > R ==> R' < R
  {
    SameOrder(R, e, c, Rc, ec);
    SameOrder(R', e, c', R'c', ec');
    SameOrder(R, e, b, Rb, eb);
    SameOrder(R', R, c', R'c', Rc');
  }

  /** An outcome that would make the book a sure thing cannot beat the reserve while beliefs total at most one. */
  lemma SureThingHasNoEdge(P: real, B: real, R: real, e: real, b: real, P': real)
    requires IsRate(R, P, B) && 0.0 < b && 1.0 <= B + b && Grown(P', P, e, b) && P' <= 1.0 && P <= 1.0
    ensures e <= R
  {
    var c, x := 1.0 - B, b - (1.0 - B);
    RateSign(R, P, B);
    var rx := R * x;
    ProductNonNeg(R, x, rx);
    assert R * b == R * c + rx;
    if e > R {
      MulLt(R, e, b);
    }
  }

  lemma RateSign(R: real, P: real, B: real)
    requires IsRate(R, P, B) && P <= 1.0
    ensures 0.0 <= R
  {
    var c := 1.0 - B;
    if R < 0.0 {
      ProductPos(-R, c, (-R) * c);
    }
  }

  lemma PrefixRateIsRate(p: seq<real>, o: seq<real>, k: nat)
    requires Market(p, o) && k <= |p| && Sum(Inverses(o)[..k]) < 1.0
    ensures IsRate(PrefixRate(p, o, k), Sum(p[..k]), Sum(Inverses(o)[..k]))
  {
    DivMul(1.0 - Sum(p[..k]), 1.0 - Sum(Inverses(o)[..k]), PrefixRate(p, o, k));
  }

  lemma PrefixGrows(p: seq<real>, o: seq<real>, k: nat, k': nat)
    requires Market(p, o) && k' == k + 1 && k' <= |p|
    ensures var b := Inverses(o)[k];
      0.0 < b && Sum(Inverses(o)[..k']) == Sum(Inverses(o)[..k]) + b &&
      Grown(Sum(p[..k']), Sum(p[..k]), Edge(p[k], o[k]), b)
  {
    SumStep(p, k);
    SumStep(Inverses(o), k);
    DivPos(1.0, o[k], Inverses(o)[k]);
    EdgeTimesInverse(p[k], o[k], Inverses(o)[k]);
  }

  lemma EdgeTimesInverse(p: real, o: real, b: real)
    requires b * o == 1.0
    ensures Edge(p, o) * b == p
  {
    assert p * o * b == p * (b * o);
  }

  lemma {:induction false} PrefixTotals(a: seq<real>, k: nat)
    requires k <= |a| && forall i :: 0 <= i < |a| ==> 0.0 <= a[i]
    ensures 0.0 <= Sum(a[..k]) <= Sum(a)
    decreases |a| - k
  {
    SumNonNegative(a[..k]);
    if k == |a| {
      assert a[..k] == a;
    } else {
      SumStep(a, k);
      PrefixTotals(a, k + 1);
    }
  }

  /** Extending a prefix by one outcome that leaves room for a reserve. */
  lemma PrefixStep(p: seq<real>, o: seq<real>, j: nat, k: nat)
    requires Market(p, o) && k == j + 1 && k <= |p| && Sum(Inverses(o)[..k]) < 1.0
    ensures Sum(Inverses(o)[..j]) < 1.0
    ensures Edge(p[j], o[j]) > PrefixRate(p, o, k) <==> Edge(p[j], o[j]) > PrefixRate(p, o, j)
    ensures Edge(p[j], o[j]) > PrefixRate(p, o, j) ==> PrefixRate(p, o, k) < PrefixRate(p, o, j)
  {
    PrefixGrows(p, o, j, k);
    PrefixRateIsRate(p, o, k);
    PrefixRateIsRate(p, o, j);
    OneMore(Sum(p[..j]), Sum(Inverses(o)[..j]), PrefixRate(p, o, j), Edge(p[j], o[j]), Inverses(o)[j],
            Sum(p[..k]), Sum(Inverses(o)[..k]), PrefixRate(p, o, k));
  }

  /** Admissible lengths are downward closed, their reserve rates fall, and a member beats the rate
      with it exactly when it beats the rate without it. */
  lemma AdmissibleDownward(p: seq<real>, o: seq<real>, j: nat, k: nat)
    requires Market(p, o) && ByEdge(p, o) && k == j + 1 && k <= |p| && Sum(Inverses(o)[..k]) < 1.0
    ensures Sum(Inverses(o)[..j]) < 1.0
    ensures Admissible(p, o, k) <==> Edge(p[j], o[j]) > PrefixRate(p, o, j)
    ensures Admissible(p, o, k) ==> PrefixRate(p, o, k) < PrefixRate(p, o, j)
    ensures Admissible(p, o, k) && 1 <= j ==> Admissible(p, o, j)
  {
    PrefixStep(p, o, j, k);
    if 1 <= j {
      var i := j - 1;
      PrefixStep(p, o, i, j);
      assert Edge(p[j], o[j]) <= Edge(p[i], o[i]);
    }
  }

  lemma {:induction false} AdmissibleRateBelowOne(p: seq<real>, o: seq<real>, k: nat)
    requires Market(p, o) && ByEdge(p, o) && Admissible(p, o, k)
    ensures PrefixRate(p, o, k) < 1.0
  {
    AdmissibleDownward(p, o, k - 1, k);
    if k == 1 {
      EmptyPrefix(p, o);
    } else {
      AdmissibleRateBelowOne(p, o, k - 1);
    }
  }

  /** No longer prefix than k is admissible, and k itself is unless it is empty. */
  ghost predicate LongestAdmissible(p: seq<real>, o: seq<real>, k: nat)
    requires Market(p, o)
  {
    k <= |p| && (k == 0 || Admissible(p, o, k)) && forall j: nat :: k < j ==> !Admissible(p, o, j)
  }

  /** The rate that goes with it: 1 when nothing is bet on. */
  function ChosenRate(p: seq<real>, o: seq<real>, k: nat): real
    requires Market(p, o) && (k == 0 || Admissible(p, o, k))
  {
    if k == 0 then 1.0 else PrefixRate(p, o, k)
  }

  /** Members of the chosen prefix beat its rate. */
  lemma MembersBeatRate(p: seq<real>, o: seq<real>, k: nat, i: nat)
    requires Market(p, o) && ByEdge(p, o) && Admissible(p, o, k) && i < k
    ensures Edge(p[i], o[i]) > PrefixRate(p, o, k)
  {
  }

  lemma EmptyPrefix(p: seq<real>, o: seq<real>)
    requires Market(p, o)
    ensures Sum(p[..0]) == 0.0 && Sum(Inverses(o)[..0]) == 0.0 && PrefixRate(p, o, 0) == 1.0
  {
    assert p[..0] == [] && Inverses(o)[..0] == [];
  }

  /** The first outcome left out does not beat the rate, while beliefs total at most one. */
  lemma FirstOutsider(p: seq<real>, o: seq<real>, k: nat, k': nat)
    requires Market(p, o) && k' == k + 1 && k' <= |p| && Sum(Inverses(o)[..k]) < 1.0
    requires !Admissible(p, o, k') && Sum(p) <= 1.0
    ensures Edge(p[k], o[k]) <= PrefixRate(p, o, k)
  {
    if Sum(Inverses(o)[..k']) < 1.0 {
      PrefixStep(p, o, k, k');
    } else {
      PrefixRateIsRate(p, o, k);
      PrefixGrows(p, o, k, k');
      PrefixTotals(p, k);
      PrefixTotals(p, k');
      SureThingHasNoEdge(Sum(p[..k]), Sum(Inverses(o)[..k]), PrefixRate(p, o, k), Edge(p[k], o[k]), Inverses(o)[k],
                         Sum(p[..k']));
    }
  }

  /** Outcomes left out do not beat it. */
  lemma OutsidersDoNot(p: seq<real>, o: seq<real>, k: nat, i: nat)
    requires Market(p, o) && ByEdge(p, o) && LongestAdmissible(p, o, k) && Sum(p) <= 1.0 && k <= i < |p|
    ensures Edge(p[i], o[i]) <= ChosenRate(p, o, k)
  {
    EmptyPrefix(p, o);
    FirstOutsider(p, o, k, k + 1);
    assert i == k || Edge(p[i], o[i]) <= Edge(p[k], o[k]);
  }

  /** The longest admissible prefix solves the reserve equation. */
  lemma ChosenRateIsReserve(p: seq<real>, o: seq<real>, k: nat)
    requires Market(p, o) && ByEdge(p, o) && LongestAdmissible(p, o, k) && Sum(p) <= 1.0
    ensures IsReserve(p, o, ChosenRate(p, o, k)) && 0.0 <= ChosenRate(p, o, k) <= 1.0
  {
    var R := ChosenRate(p, o, k);
    forall i | 0 <= i < |p| ensures i < k <==> Edge(p[i], o[i]) > R {
      if i < k { MembersBeatRate(p, o, k, i); } else { OutsidersDoNot(p, o, k, i); }
    }
    PrefixStakes(p, o, k, R, |p|);
    assert Stakes(p, o, R)[..|p|] == Stakes(p, o, R) && BetShares(p, o, R)[..|p|] == BetShares(p, o, R);
    if k == 0 {
      EmptyPrefix(p, o);
    } else {
      PrefixRateIsRate(p, o, k);
      PrefixTotals(p, k);
      RateSign(R, Sum(p[..k]), Sum(Inverses(o)[..k]));
      AdmissibleRateBelowOne(p, o, k);
      StakesTotal(Sum(p[..k]), Sum(Inverses(o)[..k]), R, Sum(Stakes(p, o, R)));
    }
  }

  ghost predicate StakeTotal(s: real, P: real, R: real, B: real) { s == P - R * B }

  lemma StakesTotal(P: real, B: real, R: real, s: real)
    requires IsRate(R, P, B) && StakeTotal(s, P, R, B)
    ensures s == 1.0 - R
  {
  }

  /** Over the first m outcomes, with the betting set the first k: the stakes come to P - R*B. */
  lemma {:induction false} PrefixStakes(p: seq<real>, o: seq<real>, k: nat, R: real, m: nat)
    requires Market(p, o) && k <= |p| && m <= |p|
    requires forall i :: 0 <= i < |p| ==> (i < k <==> Edge(p[i], o[i]) > R)
    ensures var n := if m < k then m else k;
      StakeTotal(Sum(Stakes(p, o, R)[..m]), Sum(p[..n]), R, Sum(Inverses(o)[..n])) &&
      Sum(BetShares(p, o, R)[..m]) == Sum(Inverses(o)[..n])
  {
    if m > 0 {
      var i := m - 1;
      PrefixStakes(p, o, k, R, i);
      SumStep(Stakes(p, o, R), i);
      SumStep(BetShares(p, o, R), i);
      if i < k {
        SumStep(p, i);
        SumStep(Inverses(o), i);
        AddStake(Sum(Stakes(p, o, R)[..i]), Sum(p[..i]), R, Sum(Inverses(o)[..i]), p[i], o[i], Inverses(o)[i],
                 Sum(Stakes(p, o, R)[..m]), Sum(p[..m]), Sum(Inverses(o)[..m]));
      }
    }
  }

  lemma AddStake(s: real, P: real, R: real, B: real, p: real, o: real, b: real, s': real, P': real, B': real)
    requires o > 1.0 && b == 1.0 / o && StakeTotal(s, P, R, B)
    requires s' == s + (p - R / o) && P' == P + p && B' == B + b
    ensures StakeTotal(s', P', R, B')
  {
    var q, rb := R / o, R * b;
    DivMul(R, o, q);
    DivMul(1.0, o, b);
    assert rb * o == R * (b * o);
    CancelEq(q, rb, o);
    assert R * B' == R * B + rb;
  }
}
