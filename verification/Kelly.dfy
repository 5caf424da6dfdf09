/** The Kelly allocation described without any order: a reserve rate R and stakes max(0, p - R/o). */
module Kelly {
  import opened Reals
  import opened Sums

  /** Expected revenue rate. */
  function Edge(p: real, o: real): real { p * o }

  /** The full-Kelly stake at reserve rate R: p - R/o where the outcome beats the reserve, else nothing. */
  function Stake(p: real, o: real, R: real): real
    requires o > 1.0
  {
    if Edge(p, o) > R then p - R / o else 0.0
  }

  /** What the outcome contributes to the book sum of the betting set. */
  function BetShare(p: real, o: real, R: real): real
    requires o > 1.0
  {
    if Edge(p, o) > R then 1.0 / o else 0.0
  }

  /** Beliefs and prices as the allocator accepts them. */
  ghost predicate Market(p: seq<real>, o: seq<real>) {
    |p| == |o| && forall i :: 0 <= i < |p| ==> 0.0 <= p[i] && o[i] > 1.0
  }

  function Stakes(p: seq<real>, o: seq<real>, R: real): (f: seq<real>)
    requires Market(p, o)
    ensures |f| == |p|
  {
    seq(|p|, i requires 0 <= i < |p| => Stake(p[i], o[i], R))
  }

  function BetShares(p: seq<real>, o: seq<real>, R: real): (f: seq<real>)
    requires Market(p, o)
    ensures |f| == |p|
  {
    seq(|p|, i requires 0 <= i < |p| => BetShare(p[i], o[i], R))
  }

  /** R is the reserve rate: what is not staked is R itself, and the betting set is not a sure thing. */
  ghost predicate IsReserve(p: seq<real>, o: seq<real>, R: real)
    requires Market(p, o)
  {
    Sum(Stakes(p, o, R)) == 1.0 - R && Sum(BetShares(p, o, R)) < 1.0
  }

  // ---- there is at most one reserve rate, so relabelling outcomes relabels stakes ----

  ghost predicate StakeDrop(f: real, d: real, b: real, f': real) { f - d * b <= f' }

  lemma StakeSlope(p: real, o: real, R: real, R': real, d: real)
    requires o > 1.0 && R < R' && d == R' - R
    ensures StakeDrop(Stake(p, o, R), d, BetShare(p, o, R), Stake(p, o, R'))
    ensures 0.0 <= Stake(p, o, R')
  {
    var u, s, s' := 1.0 / o, R / o, R' / o;
    DivMul(1.0, o, u);
    DivMul(R, o, s);
    DivMul(R', o, s');
    assert (s' - s) * o == (d * u) * o;
    CancelEq(s' - s, d * u, o);
    StakeSign(p, o, R', s');
    assert Stake(p, o, R') >= p - s';
  }

  lemma StakeSign(p: real, o: real, R: real, s: real)
    requires o > 1.0 && s == R / o
    ensures Edge(p, o) > R ==> p > s
    ensures Edge(p, o) <= R ==> p <= s
  {
    DivMul(R, o, s);
    CompareScaled(p, s, o, Edge(p, o), R);
  }

  lemma CompareScaled(p: real, s: real, o: real, e: real, m: real)
    requires 0.0 < o && e == p * o && m == s * o
    ensures e > m ==> p > s
    ensures e <= m ==> p <= s
  {
    if p <= s { MulLe(p, s, o); } else { MulLt(s, p, o); }
  }

  lemma {:induction false} SumStakeDrop(f: seq<real>, d: real, b: seq<real>, f': seq<real>, sf: real, sb: real,
                                        sf': real)
    requires |f| == |b| == |f'| && sf == Sum(f) && sb == Sum(b) && sf' == Sum(f')
    requires forall i :: 0 <= i < |f| ==> StakeDrop(f[i], d, b[i], f'[i])
    ensures StakeDrop(sf, d, sb, sf')
  {
    if f != [] {
      var m := |f| - 1;
      SumStakeDrop(f[..m], d, b[..m], f'[..m], Sum(f[..m]), Sum(b[..m]), Sum(f'[..m]));
      AddStakeDrops(Sum(f[..m]), Sum(b[..m]), Sum(f'[..m]), f[m], b[m], f'[m], d, sf, sb, sf');
    }
  }

  lemma AddStakeDrops(a: real, b: real, c: real, x: real, y: real, z: real, d: real, sx: real, sy: real, sz: real)
    requires StakeDrop(a, d, b, c) && StakeDrop(x, d, y, z)
    requires sx == a + x && sy == b + y && sz == c + z
    ensures StakeDrop(sx, d, sy, sz)
  {
    assert d * sy == d * b + d * y;
  }

  lemma ReserveNotBelow(p: seq<real>, o: seq<real>, R: real, R': real)
    requires Market(p, o) && IsReserve(p, o, R) && IsReserve(p, o, R')
    ensures R' <= R
  {
    if R < R' {
      var d, f, b, f' := R' - R, Stakes(p, o, R), BetShares(p, o, R), Stakes(p, o, R');
      forall i | 0 <= i < |p| ensures StakeDrop(f[i], d, b[i], f'[i]) {
        StakeSlope(p[i], o[i], R, R', d);
      }
      var B := Sum(b);
      SumStakeDrop(f, d, b, f', 1.0 - R, B, 1.0 - R');
      assert (1.0 - R) - d * B <= 1.0 - R';
      MulLt(B, 1.0, d);
    }
  }

  lemma ReserveUnique(p: seq<real>, o: seq<real>, R: real, R': real)
    requires Market(p, o) && IsReserve(p, o, R) && IsReserve(p, o, R')
    ensures R == R'
  {
    ReserveNotBelow(p, o, R, R');
    ReserveNotBelow(p, o, R', R);
  }

  /** Relabelling the outcomes leaves the reserve rate alone and relabels the stakes. */
  lemma RelabelStakes(p: seq<real>, o: seq<real>, order: seq<nat>, R: real)
    requires Market(p, o) && Permutation(order, |p|)
    requires forall t :: 0 <= t < |order| ==> order[t] < |p|
    ensures Market(Pick(p, order), Pick(o, order))
    ensures Stakes(Pick(p, order), Pick(o, order), R) == Pick(Stakes(p, o, R), order)
    ensures IsReserve(Pick(p, order), Pick(o, order), R) <==> IsReserve(p, o, R)
  {
    PermutationBounds(order, |p|);
    var f, b := Stakes(p, o, R), BetShares(p, o, R);
    SumReordered(f, order);
    SumReordered(b, order);
    assert Stakes(Pick(p, order), Pick(o, order), R) == Pick(f, order);
    assert BetShares(Pick(p, order), Pick(o, order), R) == Pick(b, order);
  }
}
