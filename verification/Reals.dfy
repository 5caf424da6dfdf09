/** Elementary facts about products and quotients of reals; a product to be compared with zero comes in under a name. */
module Reals {
  lemma ProductPos(a: real, b: real, m: real)
    requires 0.0 < a && 0.0 < b && m == a * b
    ensures 0.0 < m
  {
  }

  lemma ProductNonNeg(a: real, b: real, m: real)
    requires 0.0 <= a && 0.0 <= b && m == a * b
    ensures 0.0 <= m
  {
  }

  lemma MulLe(a: real, b: real, c: real)
    requires a <= b && 0.0 <= c
    ensures a * c <= b * c
  {
    var m := (b - a) * c;
    ProductNonNeg(b - a, c, m);
    assert m == b * c - a * c;
  }

  lemma MulLt(a: real, b: real, c: real)
    requires a < b && 0.0 < c
    ensures a * c < b * c
  {
    var m := (b - a) * c;
    ProductPos(b - a, c, m);
    assert m == b * c - a * c;
  }

  lemma DivMul(a: real, b: real, d: real)
    requires b != 0.0 && d == a / b
    ensures d * b == a
  {
  }

  lemma DivPos(a: real, b: real, d: real)
    requires 0.0 < a && 0.0 < b && d == a / b
    ensures 0.0 < d && d * b == a
  {
    DivMul(a, b, d);
    if d <= 0.0 {
      var e, m := -d, -d * b;
      ProductNonNeg(e, b, m);
    }
  }

  /** A common positive factor cancels. */
  lemma CancelLt(a: real, b: real, c: real)
    requires 0.0 < c && a * c < b * c
    ensures a < b
  {
    if b <= a {
      MulLe(b, a, c);
    }
  }

  lemma CancelLe(a: real, b: real, c: real)
    requires 0.0 < c && a * c <= b * c
    ensures a <= b
  {
    if b < a {
      MulLt(b, a, c);
    }
  }

  lemma CancelEq(a: real, b: real, c: real)
    requires c != 0.0 && a * c == b * c
    ensures a == b
  {
    assert (a - b) * c == 0.0;
  }

  /** Multiplying by a positive number keeps the order, both ways; the products come with names. */
  lemma SameOrder(a: real, b: real, c: real, ac: real, bc: real)
    requires 0.0 < c && ac == a * c && bc == b * c
    ensures a < b <==> ac < bc
  {
    var d, m := b - a, bc - ac;
    assert m == d * c;
    if 0.0 < d {
      ProductPos(d, c, m);
    } else {
      ProductNonNeg(-d, c, -m);
    }
  }

  function Square(a: real): real { a * a }

  lemma SquareNonNeg(a: real)
    ensures 0.0 <= Square(a)
  {
    if 0.0 <= a { ProductNonNeg(a, a, Square(a)); } else { ProductNonNeg(-a, -a, Square(a)); }
  }

  lemma SquarePos(a: real)
    requires 0.0 < a
    ensures 0.0 < Square(a)
  {
    var h := a / 2.0;
    var m := h * a;
    ProductPos(h, a, m);
    assert Square(a) == 2.0 * m;
  }

  lemma SquareLt(a: real, b: real)
    requires 0.0 <= a < b
    ensures Square(a) < Square(b)
  {
    var d, s := b - a, b + a;
    var m := d * s;
    ProductPos(d, s, m);
    assert (b - a) * (b + a) == b * b - a * a;
  }
}
