/** Finite sums of real sequences, accumulated left to right as the source's loops do. */
module Sums {
  function Sum(s: seq<real>): real {
    if s == [] then 0.0 else Sum(s[..|s| - 1]) + s[|s| - 1]
  }

  lemma SumStep(s: seq<real>, i: nat)
    requires i < |s|
    ensures Sum(s[..i + 1]) == Sum(s[..i]) + s[i]
  {
    assert s[..i + 1][..i] == s[..i];
  }

  lemma {:induction false} SumConcat(a: seq<real>, b: seq<real>)
    ensures Sum(a + b) == Sum(a) + Sum(b)
  {
    if b == [] {
      assert a + b == a;
    } else {
      var m := |b| - 1;
      SumConcat(a, b[..m]);
      assert (a + b)[..|a + b| - 1] == a + b[..m];
    }
  }

  lemma {:induction false} SumLe(a: seq<real>, b: seq<real>)
    requires |a| == |b|
    requires forall i :: 0 <= i < |a| ==> a[i] <= b[i]
    ensures Sum(a) <= Sum(b)
  {
    if a != [] {
      SumLe(a[..|a| - 1], b[..|b| - 1]);
    }
  }

  lemma {:induction false} SumLt(a: seq<real>, b: seq<real>)
    requires |a| == |b| > 0
    requires forall i :: 0 <= i < |a| ==> a[i] < b[i]
    ensures Sum(a) < Sum(b)
  {
    if |a| > 1 {
      SumLt(a[..|a| - 1], b[..|b| - 1]);
    } else {
      assert a[..0] == [] && b[..0] == [];
    }
  }

  /** Term by term, `b` is `c` times `a`; the caller names the sum of `a`. */
  lemma {:induction false} SumScale(a: seq<real>, b: seq<real>, c: real, s: real)
    requires |a| == |b| && s == Sum(a)
    requires forall i :: 0 <= i < |a| ==> b[i] == c * a[i]
    ensures Sum(b) == c * s
  {
    if a != [] {
      var m := |a| - 1;
      var t, x := Sum(a[..m]), a[m];
      SumScale(a[..m], b[..m], c, t);
      assert s == t + x;
      assert c * s == c * t + c * x;
    }
  }

  /** Term by term, `c` is `a + b`. */
  lemma {:induction false} SumAdd(a: seq<real>, b: seq<real>, c: seq<real>)
    requires |a| == |b| == |c|
    requires forall i :: 0 <= i < |a| ==> c[i] == a[i] + b[i]
    ensures Sum(c) == Sum(a) + Sum(b)
  {
    if a != [] {
      SumAdd(a[..|a| - 1], b[..|b| - 1], c[..|c| - 1]);
    }
  }

  lemma {:induction false} SumConst(a: seq<real>, c: real, n: real)
    requires n == |a| as real
    requires forall i :: 0 <= i < |a| ==> a[i] == c
    ensures Sum(a) == n * c
  {
    if a != [] {
      var m := n - 1.0;
      SumConst(a[..|a| - 1], c, m);
      assert n * c == m * c + c;
    }
  }

  lemma SumNonNegative(a: seq<real>)
    requires forall i :: 0 <= i < |a| ==> 0.0 <= a[i]
    ensures 0.0 <= Sum(a)
  {
    var zeros := seq(|a|, i => 0.0);
    SumConst(zeros, 0.0, |a| as real);
    SumLe(zeros, a);
  }

  /** Each term of a sum of non-negative numbers is at most the sum. */
  lemma {:induction false} SumAtLeastTerm(a: seq<real>, k: nat)
    requires k < |a|
    requires forall i :: 0 <= i < |a| ==> 0.0 <= a[i]
    ensures a[k] <= Sum(a)
  {
    var m := |a| - 1;
    SumNonNegative(a[..m]);
    if k < m {
      SumAtLeastTerm(a[..m], k);
    }
  }

  lemma SumWithout(a: seq<real>, b: seq<real>, k: nat)
    requires k < |a| && b == a[..k] + a[k + 1..]
    ensures Sum(a) == Sum(b) + a[k]
  {
    SumConcat(a[..k], a[k + 1..]);
    SumConcat(a[..k + 1], a[k + 1..]);
    assert a == a[..k + 1] + a[k + 1..];
    SumStep(a, k);
  }

  // ---- rearranging the terms ----

  /** The entries of `a` in the order given by `order`. */
  function Pick(a: seq<real>, order: seq<nat>): (r: seq<real>)
    requires forall t :: 0 <= t < |order| ==> order[t] < |a|
    ensures |r| == |order| && forall t :: 0 <= t < |order| ==> r[t] == a[order[t]]
  {
    seq(|order|, t requires 0 <= t < |order| => a[order[t]])
  }

  function Identity(n: nat): (s: seq<nat>)
    ensures |s| == n && forall i :: 0 <= i < n ==> s[i] == i
  {
    seq(n, i => i)
  }

  ghost predicate Permutation(order: seq<nat>, n: nat) {
    multiset(order) == multiset(Identity(n))
  }

  lemma PermutationBounds(order: seq<nat>, n: nat)
    requires Permutation(order, n)
    ensures |order| == n && forall t :: 0 <= t < n ==> order[t] < n
  {
    assert |multiset(order)| == |multiset(Identity(n))|;
    forall t | 0 <= t < |order| ensures order[t] < n {
      assert order[t] in multiset(order);
      assert order[t] in Identity(n);
    }
  }

  lemma RemoveAt(s: seq<nat>, k: nat) returns (rest: seq<nat>)
    requires k < |s|
    ensures rest == s[..k] + s[k + 1..] && multiset(rest) == multiset(s) - multiset{s[k]}
  {
    assert s == s[..k] + [s[k]] + s[k + 1..];
    rest := s[..k] + s[k + 1..];
  }

  lemma {:induction false} SumPick(a: seq<real>, s: seq<nat>, t: seq<nat>)
    requires multiset(s) == multiset(t)
    requires forall k :: 0 <= k < |s| ==> s[k] < |a|
    requires forall k :: 0 <= k < |t| ==> t[k] < |a|
    ensures Sum(Pick(a, s)) == Sum(Pick(a, t))
    decreases |s|
  {
    if s == [] {
      assert |multiset(t)| == 0;
    } else {
      var x := s[0];
      assert x in multiset(t);
      var k :| 0 <= k < |t| && t[k] == x;
      var s' := RemoveAt(s, 0);
      var t' := RemoveAt(t, k);
      SumPick(a, s', t');
      PickWithout(a, s, s', 0);
      PickWithout(a, t, t', k);
    }
  }

  lemma PickWithout(a: seq<real>, s: seq<nat>, rest: seq<nat>, k: nat)
    requires k < |s| && rest == s[..k] + s[k + 1..]
    requires forall i :: 0 <= i < |s| ==> s[i] < |a|
    ensures forall i :: 0 <= i < |rest| ==> rest[i] < |a|
    ensures Sum(Pick(a, s)) == Sum(Pick(a, rest)) + a[s[k]]
  {
    assert Pick(a, rest) == Pick(a, s)[..k] + Pick(a, s)[k + 1..];
    SumWithout(Pick(a, s), Pick(a, rest), k);
  }

  /** A sum does not depend on the order of its terms. */
  lemma SumReordered(a: seq<real>, order: seq<nat>)
    requires Permutation(order, |a|)
    requires forall t :: 0 <= t < |order| ==> order[t] < |a|
    ensures Sum(Pick(a, order)) == Sum(a)
  {
    var id := Identity(|a|);
    SumPick(a, order, id);
    assert Pick(a, id) == a;
  }
}
