/** The receiver's sequence accounting, as a function of the numbers of the datagrams it accepted. */
module LossAccounting {
  import opened Messages

  /** `expected` and `lost` are 64-bit words that wrap; the other counters only ever step by one. */
  datatype Accounting = Accounting(expected: u64, lost: u64, reordered: nat, datagrams: nat)

  function Account(a: Accounting, s: u64): Accounting {
    if s > a.expected then
      Accounting((s + 1) % TWO_64, (a.lost + s - a.expected) % TWO_64, a.reordered, a.datagrams + 1)
    else if s < a.expected then
      Accounting(a.expected, a.lost, a.reordered + 1, a.datagrams + 1)
    else
      Accounting((a.expected + 1) % TWO_64, a.lost, a.reordered, a.datagrams + 1)
  }

  function AccountAll(a: Accounting, ss: seq<u64>): Accounting {
    if ss == [] then a else Account(AccountAll(a, ss[..|ss| - 1]), ss[|ss| - 1])
  }

  lemma AccountOneMore(a: Accounting, ss: seq<u64>, s: u64)
    ensures AccountAll(a, ss + [s]) == Account(AccountAll(a, ss), s)
  {
    assert (ss + [s])[..|ss|] == ss;
  }

  /** The state right after the first announce reset the loss counters. */
  ghost predicate Baseline(a: Accounting) { a.lost == 0 && a.reordered == 0 }

  ghost predicate Congruent(x: int, y: int) { exists k: int :: x == y + k * TWO_64 }

  /** After every datagram: expected = baseline + lost + (accepted - reordered), in 64-bit arithmetic. */
  lemma {:induction false} ExpectedBalances(a: Accounting, ss: seq<u64>)
    requires Baseline(a)
    ensures var b := AccountAll(a, ss);
      b.datagrams == a.datagrams + |ss| && Congruent(b.expected, a.expected + b.lost + (|ss| - b.reordered))
  {
    if ss == [] {
      assert a.expected == a.expected + 0 * TWO_64;
    } else {
      var init := ss[..|ss| - 1];
      ExpectedBalances(a, init);
      BalanceStep(a.expected, |init|, AccountAll(a, init), ss[|ss| - 1]);
    }
  }

  lemma BalanceStep(base: u64, n: nat, b: Accounting, s: u64)
    requires Congruent(b.expected, base + b.lost + (n - b.reordered))
    ensures var c := Account(b, s); Congruent(c.expected, base + c.lost + (n + 1 - c.reordered))
  {
    var k :| b.expected == base + b.lost + (n - b.reordered) + k * TWO_64;
    var c := Account(b, s);
    if s < b.expected {
      assert c.expected == base + c.lost + (n + 1 - c.reordered) + k * TWO_64;
    } else {
      var p, q := (s + 1) / TWO_64, (b.lost + s - b.expected) / TWO_64;
      assert s + 1 == p * TWO_64 + c.expected;
      assert b.lost + s - b.expected == q * TWO_64 + c.lost;
      assert c.expected == base + c.lost + (n + 1 - c.reordered) + (k - p + q) * TWO_64;
    }
  }

  // ---- when the loss counter is exact ----

  // The sender counts its datagrams without end; a datagram carries what 64 bits keep of its count.

  function Carried(ns: seq<nat>): (ss: seq<u64>)
    ensures |ss| == |ns| && forall i :: 0 <= i < |ns| ==> ss[i] == ns[i] % TWO_64
  {
    seq(|ns|, i requires 0 <= i < |ns| => ns[i] % TWO_64)
  }

  ghost predicate Distinct(ns: seq<nat>) {
    forall i, j :: 0 <= i < j < |ns| ==> ns[i] != ns[j]
  }

  /** Fewer than 2^64 datagrams were sent since the baseline. */
  ghost predicate WithinALap(base: nat, ns: seq<nat>) {
    forall i :: 0 <= i < |ns| ==> ns[i] < base + TWO_64
  }

  function Seen(ns: seq<nat>): set<nat> { set n | n in ns }

  /** One past the highest count that came, or the baseline. */
  function Reach(base: nat, ns: seq<nat>): (e: nat)
    ensures base <= e && forall i :: 0 <= i < |ns| ==> ns[i] < e
  {
    if ns == [] then base
    else
      var e, n := Reach(base, ns[..|ns| - 1]), ns[|ns| - 1];
      if n < e then e else n + 1
  }

  /** The counts from the baseline up to e that never came. */
  function Missing(base: nat, e: nat, seen: set<nat>): set<nat> {
    set n: nat | base <= n < e && n !in seen
  }

  /** How many came after a higher one, numbered at or above the baseline. */
  function LateCount(base: nat, ns: seq<nat>): nat {
    if ns == [] then 0
    else
      var init, n := ns[..|ns| - 1], ns[|ns| - 1];
      LateCount(base, init) + if base <= n < Reach(base, init) then 1 else 0
  }

  /** With the receiver in state b: it expects the count e next, and lost, less the late arrivals, is the number
      missing. */
  ghost predicate ExactAt(base: nat, b: Accounting, e: nat, seen: set<nat>, late: nat) {
    b.expected == e % TWO_64 && |Missing(base, e, seen)| == b.lost - late
  }

  ghost predicate Exact(a: Accounting, base: nat, ns: seq<nat>) {
    ExactAt(base, AccountAll(a, Carried(ns)), Reach(base, ns), Seen(ns), LateCount(base, ns))
  }

  ghost predicate ExactThroughout(a: Accounting, base: nat, ns: seq<nat>) {
    forall k :: 0 <= k <= |ns| ==> Exact(a, base, ns[..k])
  }

  /** The datagram counted n comes in the same turn of the 64-bit numbers as the one expected, or so late that it is
      behind in both. */
  ghost predicate InStep(n: nat, e: nat) {
    n / TWO_64 == e / TWO_64 || (n < e && n % TWO_64 < e % TWO_64)
  }

  ghost predicate InStepAt(base: nat, ns: seq<nat>, k: nat)
    requires k < |ns|
  {
    InStep(ns[k], Reach(base, ns[..k]))
  }

  ghost predicate InStepThroughout(base: nat, ns: seq<nat>) {
    forall k :: 0 <= k < |ns| ==> InStepAt(base, ns, k)
  }

  lemma NextArrives(base: nat, e: nat, seen: set<nat>)
    requires base <= e
    ensures Missing(base, e + 1, seen + {e}) == Missing(base, e, seen)
  {
  }

  lemma OneMoreSkipped(base: nat, n: nat, seen: set<nat>)
    requires base < n && n - 1 !in seen
    ensures Missing(base, n + 1, seen + {n}) == Missing(base, n, seen + {n - 1}) + {n - 1}
    ensures n - 1 !in Missing(base, n, seen + {n - 1})
  {
  }

  lemma MissingGrows(base: nat, e: nat, n: nat, seen: set<nat>)
    requires base <= e <= n && forall x :: x in seen ==> x < e
    ensures |Missing(base, n + 1, seen + {n})| == |Missing(base, e, seen)| + (n - e)
    decreases n - e
  {
    if n == e {
      NextArrives(base, e, seen);
    } else {
      MissingGrows(base, e, n - 1, seen);
      OneMoreSkipped(base, n, seen);
    }
  }

  lemma MissingFilled(base: nat, e: nat, n: nat, seen: set<nat>)
    requires base <= e && n < e && n !in seen
    ensures |Missing(base, e, seen)| == |Missing(base, e, seen + {n})| + if base <= n then 1 else 0
  {
    var m, m' := Missing(base, e, seen), Missing(base, e, seen + {n});
    assert m == if base <= n then m' + {n} else m';
  }

  /** The loss counter cannot have wrapped: the highest arrival was not lost. */
  ghost predicate Bounded(base: nat, b: Accounting, e: nat) {
    base <= e <= base + TWO_64 && b.lost <= e - base && (base < e ==> b.lost < e - base)
  }

  /** Counts less than 2^64 apart compare as their 64-bit numbers do exactly when they are in the same turn. */
  lemma SameTurn(n: nat, e: nat, s: nat, x: nat)
    requires e <= n < e + TWO_64 && s == n % TWO_64 && x == e % TWO_64
    ensures if n / TWO_64 == e / TWO_64 then s - x == n - e else s < x
  {
    assert n == n / TWO_64 * TWO_64 + s && e == e / TWO_64 * TWO_64 + x;
  }

  lemma NextCount(n: nat)
    ensures (n % TWO_64 + 1) % TWO_64 == (n + 1) % TWO_64
  {
  }

  /** What one arrival makes of the counters when it is not behind ... */
  lemma AheadIfSameTurn(base: nat, b: Accounting, e: nat, n: nat)
    requires Bounded(base, b, e) && b.expected == e % TWO_64 && e <= n < base + TWO_64
    ensures var c := Account(b, n % TWO_64);
      if InStep(n, e) then c.expected == (n + 1) % TWO_64 && c.lost == b.lost + (n - e) else c.lost == b.lost && n != e
  {
    SameTurn(n, e, n % TWO_64, e % TWO_64);
    NextCount(n);
  }

  /** ... and when it is. */
  lemma BehindInBoth(b: Accounting, e: nat, n: nat)
    requires b.expected == e % TWO_64 && n < e
    ensures var c := Account(b, n % TWO_64);
      InStep(n, e) <==> c.expected == b.expected && c.lost == b.lost
  {
    var s, x := n % TWO_64, e % TWO_64;
    if n / TWO_64 == e / TWO_64 { SameTurn(e, n, x, s); }
    if s > x { LostChanges(b.lost, s - x); }
  }

  lemma LostChanges(lost: u64, d: nat)
    requires 0 < d < TWO_64
    ensures (lost + d) % TWO_64 != lost
  {
  }

  /** One arrival keeps the counter exact exactly when it is in step. */
  lemma LossStep(base: nat, b: Accounting, e: nat, seen: set<nat>, late: nat, n: nat)
    requires ExactAt(base, b, e, seen, late) && Bounded(base, b, e)
    requires n !in seen && n < base + TWO_64 && forall x :: x in seen ==> x < e
    ensures var c, e' := Account(b, n % TWO_64), if n < e then e else n + 1;
      (ExactAt(base, c, e', seen + {n}, late + if base <= n < e then 1 else 0) <==> InStep(n, e)) &&
      (InStep(n, e) ==> Bounded(base, c, e'))
  {
    if n < e {
      MissingFilled(base, e, n, seen);
      BehindInBoth(b, e, n);
    } else {
      MissingGrows(base, e, n, seen);
      AheadIfSameTurn(base, b, e, n);
    }
  }

  lemma OneMoreCarried(a: Accounting, init: seq<nat>, n: nat)
    ensures AccountAll(a, Carried(init + [n])) == Account(AccountAll(a, Carried(init)), n % TWO_64)
  {
    assert Carried(init + [n]) == Carried(init) + [n % TWO_64];
    AccountOneMore(a, Carried(init), n % TWO_64);
  }

  lemma OneMoreReached(base: nat, init: seq<nat>, n: nat)
    ensures var e := Reach(base, init);
      Reach(base, init + [n]) == (if n < e then e else n + 1) &&
      LateCount(base, init + [n]) == LateCount(base, init) + if base <= n < e then 1 else 0
  {
    assert (init + [n])[..|init|] == init;
  }

  lemma OneMoreSeen(init: seq<nat>, n: nat)
    ensures Seen(init + [n]) == Seen(init) + {n}
  {
  }

  ghost predicate Kept(a: Accounting, base: nat, ns: seq<nat>) {
    Exact(a, base, ns) && Bounded(base, AccountAll(a, Carried(ns)), Reach(base, ns))
  }

  lemma KeptNext(a: Accounting, base: nat, init: seq<nat>, n: nat)
    requires Kept(a, base, init) && n !in init && n < base + TWO_64
    ensures Exact(a, base, init + [n]) <==> InStep(n, Reach(base, init))
    ensures InStep(n, Reach(base, init)) ==> Kept(a, base, init + [n])
  {
    OneMoreCarried(a, init, n);
    OneMoreReached(base, init, n);
    OneMoreSeen(init, n);
    LossStep(base, AccountAll(a, Carried(init)), Reach(base, init), Seen(init), LateCount(base, init), n);
  }

  /** The same of the first k + 1 arrivals. */
  lemma KeptAt(a: Accounting, base: nat, ns: seq<nat>, k: nat)
    requires Distinct(ns) && WithinALap(base, ns) && k < |ns| && Kept(a, base, ns[..k])
    ensures Exact(a, base, ns[..k + 1]) <==> InStepAt(base, ns, k)
    ensures InStepAt(base, ns, k) ==> Kept(a, base, ns[..k + 1])
  {
    assert ns[..k + 1] == ns[..k] + [ns[k]];
    KeptNext(a, base, ns[..k], ns[k]);
  }

  lemma KeptAtStart(a: Accounting, base: nat)
    requires Baseline(a) && a.expected == base % TWO_64
    ensures Kept(a, base, [])
  {
    assert Missing(base, base, Seen([])) == {};
  }

  lemma {:induction false} KeptWhileInStep(a: Accounting, base: nat, ns: seq<nat>, k: nat)
    requires Baseline(a) && a.expected == base % TWO_64 && Distinct(ns) && WithinALap(base, ns)
    requires k <= |ns| && forall i :: 0 <= i < k ==> InStepAt(base, ns, i)
    ensures Kept(a, base, ns[..k])
  {
    if k == 0 {
      KeptAtStart(a, base);
    } else {
      KeptWhileInStep(a, base, ns, k - 1);
      KeptAt(a, base, ns, k - 1);
    }
  }

  lemma InStepIsExact(a: Accounting, base: nat, ns: seq<nat>)
    requires Baseline(a) && a.expected == base % TWO_64 && Distinct(ns) && WithinALap(base, ns)
    requires InStepThroughout(base, ns)
    ensures Exact(a, base, ns)
  {
    KeptWhileInStep(a, base, ns, |ns|);
    assert ns[..|ns|] == ns;
  }

  /** Without duplicates, and whatever is dropped or reordered: after every arrival the counter is exact, if and only if
      every arrival is in step. */
  lemma LossIsExact(a: Accounting, base: nat, ns: seq<nat>)
    requires Baseline(a) && a.expected == base % TWO_64 && Distinct(ns) && WithinALap(base, ns)
    ensures ExactThroughout(a, base, ns) <==> InStepThroughout(base, ns)
  {
    if InStepThroughout(base, ns) {
      forall k | 0 <= k <= |ns| ensures Exact(a, base, ns[..k]) {
        KeptWhileInStep(a, base, ns, k);
      }
    } else {
      var j :| 0 <= j < |ns| && !InStepAt(base, ns, j);
      var k := FirstOutOfStep(base, ns, j);
      KeptWhileInStep(a, base, ns, k);
      KeptAt(a, base, ns, k);
      assert !Exact(a, base, ns[..k + 1]);
    }
  }

  lemma {:induction false} FirstOutOfStep(base: nat, ns: seq<nat>, j: nat) returns (k: nat)
    requires j < |ns| && !InStepAt(base, ns, j)
    ensures k <= j && !InStepAt(base, ns, k) && forall i :: 0 <= i < k ==> InStepAt(base, ns, i)
  {
    k := j;
    if i :| 0 <= i < j && !InStepAt(base, ns, i) {
      k := FirstOutOfStep(base, ns, i);
    }
  }

  /** No number but the last to come is 2^64 - 1. */
  ghost predicate EndComesLast(ns: seq<nat>) {
    forall i :: 0 <= i < |ns| - 1 ==> ns[i] != TWO_64 - 1
  }

  /** As long as the numbers have not started again, that is: the counter is exact after every arrival, if and only if
      number 2^64 - 1 has not come before another. */
  lemma FirstTurnIsExact(a: Accounting, base: nat, ns: seq<nat>)
    requires Baseline(a) && a.expected == base < TWO_64 && Distinct(ns) && FirstTurn(ns)
    ensures ExactThroughout(a, base, ns) <==> EndComesLast(ns)
  {
    LossIsExact(a, base, ns);
    FirstTurnInStep(base, ns);
  }

  ghost predicate FirstTurn(ns: seq<nat>) {
    forall i :: 0 <= i < |ns| ==> ns[i] < TWO_64
  }

  lemma FirstTurnInStep(base: nat, ns: seq<nat>)
    requires base < TWO_64 && Distinct(ns) && FirstTurn(ns)
    ensures InStepThroughout(base, ns) <==> EndComesLast(ns)
  {
    if EndComesLast(ns) {
      forall k | 0 <= k < |ns| ensures InStepAt(base, ns, k) {
        ReachBelowEnd(base, ns[..k]);
      }
    } else {
      var i :| 0 <= i < |ns| - 1 && ns[i] == TWO_64 - 1;
      ReachAtEnd(base, ns[..i + 1]);
      NotInStepAtEnd(ns[i + 1]);
      assert !InStepAt(base, ns, i + 1);
    }
  }

  lemma NotInStepAtEnd(n: nat)
    requires n < TWO_64
    ensures !InStep(n, TWO_64)
  {
  }

  lemma {:induction false} ReachBelowEnd(base: nat, ns: seq<nat>)
    requires base < TWO_64 && forall i :: 0 <= i < |ns| ==> ns[i] < TWO_64 - 1
    ensures Reach(base, ns) < TWO_64
  {
    if ns != [] { ReachBelowEnd(base, ns[..|ns| - 1]); }
  }

  lemma {:induction false} ReachAtEnd(base: nat, ns: seq<nat>)
    requires base < TWO_64 && ns != [] && ns[|ns| - 1] == TWO_64 - 1 && forall i :: 0 <= i < |ns| ==> ns[i] < TWO_64
    ensures Reach(base, ns) == TWO_64
  {
    ReachAtMost(base, ns, TWO_64);
  }

  lemma {:induction false} ReachAtMost(base: nat, ns: seq<nat>, limit: nat)
    requires base <= limit && forall i :: 0 <= i < |ns| ==> ns[i] < limit
    ensures Reach(base, ns) <= limit
  {
    if ns != [] { ReachAtMost(base, ns[..|ns| - 1], limit); }
  }

  /** Numbers below the expected one, in whatever turn, all count as reordered: so it goes once the last number of a
      turn has been lost, until the expected one comes round again. */
  lemma {:induction false} BelowIsReordered(b: Accounting, ss: seq<u64>)
    requires forall i :: 0 <= i < |ss| ==> ss[i] < b.expected
    ensures AccountAll(b, ss) ==
      b.(reordered := b.reordered + |ss|, datagrams := b.datagrams + |ss|)
  {
    if ss != [] { BelowIsReordered(b, ss[..|ss| - 1]); }
  }

  /** A datagram that comes only after the numbers have started again looks like one ahead, and the rest as lost. */
  lemma LateLooksLost(b: Accounting, e: nat, n: nat)
    requires b.expected == e % TWO_64 && n < e && e % TWO_64 < n % TWO_64
    ensures !InStep(n, e)
    ensures Account(b, n % TWO_64).lost == (b.lost + n % TWO_64 - e % TWO_64) % TWO_64 != b.lost
  {
    BehindInBoth(b, e, n);
    LostChanges(b.lost, n % TWO_64 - e % TWO_64);
  }

  // ---- a network that only drops ----

  ghost predicate Increasing(base: nat, ns: seq<nat>) {
    (forall i :: 0 <= i < |ns| ==> base <= ns[i]) && forall i, j :: 0 <= i < j < |ns| ==> ns[i] < ns[j]
  }

  lemma {:induction false} IncreasingReach(base: nat, ns: seq<nat>)
    requires Increasing(base, ns)
    ensures Reach(base, ns) == (if ns == [] then base else ns[|ns| - 1] + 1) && LateCount(base, ns) == 0
  {
    if ns != [] {
      var init := ns[..|ns| - 1];
      IncreasingReach(base, init);
      assert init != [] ==> init[|init| - 1] < ns[|ns| - 1];
    }
  }

  ghost predicate DropOnlyExact(base: nat, b: Accounting, e: nat, seen: set<nat>) {
    b.reordered == 0 && b.expected == e % TWO_64 && b.lost == |Missing(base, e, seen)|
  }

  /** On a network that only drops, nothing is ever counted as reordered, and lost is the number of datagrams that never
      came, as long as the arrivals are in step; they are until the numbers start again. */
  lemma DropOnlyLossIsExact(a: Accounting, base: nat, ns: seq<nat>)
    requires Baseline(a) && a.expected == base % TWO_64 && Increasing(base, ns) && WithinALap(base, ns)
    ensures InStepThroughout(base, ns) ==> DropOnlyExact(base, AccountAll(a, Carried(ns)), Reach(base, ns), Seen(ns))
    ensures base < TWO_64 && FirstTurn(ns) ==> InStepThroughout(base, ns)
  {
    if InStepThroughout(base, ns) {
      InStepIsExact(a, base, ns);
      IncreasingReach(base, ns);
      NeverReordered(a, base, ns, |ns|);
      assert ns[..|ns|] == ns;
    }
    if base < TWO_64 && FirstTurn(ns) {
      forall i | 0 <= i < |ns| - 1 ensures ns[i] != TWO_64 - 1 { assert ns[i] < ns[|ns| - 1]; }
      FirstTurnInStep(base, ns);
    }
  }

  lemma OnTimeIsNotReordered(b: Accounting, e: nat, n: nat)
    requires b.expected == e % TWO_64 && e <= n && InStep(n, e)
    ensures Account(b, n % TWO_64).reordered == b.reordered
  {
    assert n == n / TWO_64 * TWO_64 + n % TWO_64 && e == e / TWO_64 * TWO_64 + e % TWO_64;
  }

  lemma NextNotReordered(a: Accounting, base: nat, init: seq<nat>, n: nat)
    requires Kept(a, base, init) && Increasing(base, init + [n]) && InStep(n, Reach(base, init))
    ensures AccountAll(a, Carried(init + [n])).reordered == AccountAll(a, Carried(init)).reordered
  {
    assert forall i :: 0 <= i < |init| ==> (init + [n])[i] == init[i];
    assert (init + [n])[|init|] == n;
    IncreasingReach(base, init);
    OnTimeIsNotReordered(AccountAll(a, Carried(init)), Reach(base, init), n);
    OneMoreCarried(a, init, n);
  }

  lemma {:induction false} NeverReordered(a: Accounting, base: nat, ns: seq<nat>, k: nat)
    requires Baseline(a) && a.expected == base % TWO_64 && Increasing(base, ns) && WithinALap(base, ns)
    requires InStepThroughout(base, ns) && k <= |ns|
    ensures AccountAll(a, Carried(ns[..k])).reordered == 0
  {
    if k > 0 {
      var init, n := ns[..k - 1], ns[k - 1];
      NeverReordered(a, base, ns, k - 1);
      KeptWhileInStep(a, base, ns, k - 1);
      assert InStepAt(base, ns, k - 1);
      assert ns[..k] == init + [n];
      NextNotReordered(a, base, init, n);
    }
  }
}
