module Common {
  datatype Option<+T> = None | Some(value: T)
}

/** Facts about division that the solver does not find by itself. */
module Arithmetic {
  lemma {:induction false} DivModUnique(x: int, n: int, q: int, r: int)
    requires 0 <= r < n && x == n * q + r
    ensures x / n == q && x % n == r
  {
    var q', r' := x / n, x % n;
    assert x == n * q' + r';
    assert n * (q - q') == r' - r;
    SmallMultiple(n, q - q');
  }

  lemma {:induction false} SmallMultiple(n: int, t: int)
    requires -n < n * t < n
    ensures t == 0
  {
    if t >= 1 {
      MulMonotone(n, 1, t);
    } else if t <= -1 {
      MulMonotone(n, t, -1);
    }
  }

  lemma {:induction false} MulMonotone(n: int, a: int, b: int)
    requires 0 < n && a <= b
    ensures n * a <= n * b
  {
  }

  lemma {:induction false} DivDiv(a: nat, x: nat, y: nat)
    requires x > 0 && y > 0
    ensures x * y > 0 && a / x / y == a / (x * y)
  {
    var q, r := a / x / y, a / x % y;
    var s := a % x;
    assert a == x * (y * q + r) + s;
    MulMonotone(x, 0, r);
    MulMonotone(x, r, y - 1);
    MulMonotone(x, 1, y);
    assert a == (x * y) * q + (x * r + s);
    DivModUnique(a, x * y, q, x * r + s);
  }
}
