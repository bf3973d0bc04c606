/**
 * `numpy.tanh`, seen only through the properties the vote rule and the
 * consistency score rely on. The model takes the squashing function as a
 * parameter `tanh: real -> real` and assumes of it no more than TanhLike.
 */
module Squash {

  function Abs(x: real): real
  {
    if x < 0.0 then -x else x
  }

  /** Odd, strictly increasing, zero at zero and strictly inside (-1, 1). */
  ghost predicate TanhLike(tanh: real -> real)
  {
    && tanh(0.0) == 0.0
    && (forall x, y :: x + y == 0.0 ==> tanh(x) + tanh(y) == 0.0)
    && (forall x, y :: x < y ==> tanh(x) < tanh(y))
    && (forall x :: -1.0 < tanh(x) < 1.0)
  }

  /** The sign of `tanh(x)` is the sign of `x`. */
  lemma TanhSign(tanh: real -> real, x: real)
    requires TanhLike(tanh)
    ensures tanh(x) > 0.0 <==> x > 0.0
    ensures tanh(x) < 0.0 <==> x < 0.0
  {
    if x > 0.0 {
      assert tanh(0.0) < tanh(x);
    } else if x < 0.0 {
      assert tanh(x) < tanh(0.0);
    }
  }

  /** A squashing function with every property TanhLike asks for: the assumption is consistent. */
  function Softsign(x: real): (r: real)
    ensures -1.0 < r < 1.0
  {
    x / (1.0 + Abs(x))
  }

  lemma CrossLess(x: real, y: real)
    requires x < y
    ensures x * (1.0 + Abs(y)) < y * (1.0 + Abs(x))
  {
    if 0.0 <= x {
      assert x * (1.0 + y) == x + x * y && y * (1.0 + x) == y + x * y;
    } else if y < 0.0 {
      assert x * (1.0 - y) == x - x * y && y * (1.0 - x) == y - x * y;
    } else {
      assert x * (1.0 + y) == x + x * y && y * (1.0 - x) == y - x * y;
      assert x * y <= 0.0;
    }
  }

  lemma Rescale(a: real, d: real, q: real)
    requires d > 0.0 && q > 0.0
    ensures a / d == (a * q) / (d * q)
  {
  }

  lemma DivLess(a: real, b: real, p: real)
    requires a < b && p > 0.0
    ensures a / p < b / p
  {
    assert b / p - a / p == (b - a) / p;
  }

  lemma SoftsignIncreasing(x: real, y: real)
    requires x < y
    ensures Softsign(x) < Softsign(y)
  {
    var dx, dy := 1.0 + Abs(x), 1.0 + Abs(y);
    CrossLess(x, y);
    Rescale(x, dx, dy);
    Rescale(y, dy, dx);
    assert dy * dx == dx * dy;
    DivLess(x * dy, y * dx, dx * dy);
  }

  lemma {:induction false} TanhLikeSatisfiable()
    ensures TanhLike(Softsign)
  {
    forall x, y | x + y == 0.0 ensures Softsign(x) + Softsign(y) == 0.0 {
      assert Abs(x) == Abs(y);
    }
    forall x, y | x < y ensures Softsign(x) < Softsign(y) {
      SoftsignIncreasing(x, y);
    }
  }
}
