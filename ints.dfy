// C++ integer division and remainder, which truncate toward zero, written
// over Dafny's Euclidean `/` and `%`.

module Ints {

  function Abs(x: int): (r: int)
    ensures r >= 0 && (r == x || r == -x)
  {
    if x < 0 then -x else x
  }

  lemma DivBounds(x: nat, y: int)
    requires y > 0
    ensures (x / y) * y <= x < (x / y) * y + y
  {
  }

  lemma MulAtLeast(d: int, y: int)
    requires y > 0
    ensures d >= 1 ==> d * y >= y
    ensures d <= -1 ==> d * y <= -y
  {
    if d >= 1 {
      assert d * y == (d - 1) * y + y;
      assert (d - 1) * y >= 0;
    } else if d <= -1 {
      assert d * y == (d + 1) * y - y;
      assert (d + 1) * y <= 0;
    }
  }

  lemma DivOfMultiple(x: nat, y: int)
    requires y > 0
    ensures (x * y) / y == x
  {
    var m := (x * y) / y;
    DivBounds(x * y, y);
    assert (x - m) * y == x * y - m * y;
    MulAtLeast(x - m, y);
  }

  /** `a / b` in C++: the quotient of the magnitudes, negated when the
      signs differ, so rounded toward zero. */
  function Quot(a: int, b: int): (q: int)
    requires b != 0
    ensures Abs(q) * Abs(b) <= Abs(a) < Abs(q) * Abs(b) + Abs(b)
    ensures (a < 0) == (b < 0) ==> q >= 0
    ensures (a < 0) != (b < 0) ==> q <= 0
  {
    var m := Abs(a) / Abs(b);
    DivBounds(Abs(a), Abs(b));
    assert Abs(-m) == m;
    if (a < 0) == (b < 0) then m else -m
  }

  lemma MulSigns(x: int, y: int)
    ensures (x < 0) == (y < 0) ==> x * y == Abs(x) * Abs(y)
    ensures (x < 0) != (y < 0) ==> x * y == -(Abs(x) * Abs(y))
  {
    if x < 0 && y < 0 {
      assert x * y == (-x) * (-y);
    } else if x < 0 {
      assert x * y == -((-x) * y);
    } else if y < 0 {
      assert x * y == -(x * (-y));
    }
  }

  /** `a % b` in C++: what `Quot` leaves over, carrying the sign of `a`. */
  function Rem(a: int, b: int): (r: int)
    requires b != 0
    ensures Quot(a, b) * b + r == a
    ensures a >= 0 ==> 0 <= r < Abs(b)
    ensures a < 0 ==> -Abs(b) < r <= 0
  {
    var q := Quot(a, b);
    MulSigns(q, b);
    a - q * b
  }

  /** Dividing an exact multiple gives the factor back, whatever the signs. */
  lemma QuotOfMultiple(k: int, b: int)
    requires b != 0
    ensures Quot(k * b, b) == k && Rem(k * b, b) == 0
  {
    MulSigns(k, b);
    assert Abs(k * b) == Abs(k) * Abs(b);
    DivOfMultiple(Abs(k), Abs(b));
  }

  lemma DivUnique(x: nat, y: int, d: int, rest: int)
    requires y > 0 && x == d * y + rest && 0 <= rest < y
    ensures x / y == d
  {
    DivBounds(x, y);
    assert (x / y - d) * y == x / y * y - d * y;
    MulAtLeast(x / y - d, y);
  }

  /** Dividing by `a` and then by `b` is dividing by `a * b`. */
  lemma DivDiv(x: nat, a: int, b: int)
    requires a > 0 && b > 0
    ensures x / a / b == x / (a * b)
  {
    var q := x / a;
    DivBounds(x, a);
    DivBounds(q, b);
    var rest := x - q * a + (q - q / b * b) * a;
    assert x == (q / b) * (a * b) + rest;
    MulAtLeast(b - (q - q / b * b), a);
    assert rest < a * b;
    DivUnique(x, a * b, q / b, rest);
  }

  /** On non-negative operands C++ division is Dafny's. */
  lemma QuotOfNat(a: nat, b: int)
    requires b > 0
    ensures Quot(a, b) == a / b && Rem(a, b) == a % b
  {
  }

  /** C++ division is odd in its dividend: it truncates toward zero. */
  lemma QuotNegate(a: int, b: int)
    requires b != 0
    ensures Quot(-a, b) == -Quot(a, b)
  {
  }

  /** Euclidean division by a positive divisor is monotone on naturals. */
  lemma DivMonotone(x: nat, y: nat, b: int)
    requires b > 0 && x <= y
    ensures x / b <= y / b
  {
    DivBounds(x, b);
    DivBounds(y, b);
    if x / b > y / b {
      assert (x / b - y / b) * b == (x / b) * b - (y / b) * b;
      MulAtLeast(x / b - y / b, b);
    }
  }

  /** C++ division by a positive divisor is monotone in the dividend. */
  lemma QuotMonotone(a: int, c: int, b: int)
    requires b > 0 && a <= c
    ensures Quot(a, b) <= Quot(c, b)
  {
    if 0 <= a {
      QuotOfNat(a, b);
      QuotOfNat(c, b);
      DivMonotone(a, c, b);
    } else if c < 0 {
      assert Quot(a, b) == -(Abs(a) / Abs(b));
      assert Quot(c, b) == -(Abs(c) / Abs(b));
      DivMonotone(Abs(c), Abs(a), b);
    }
  }
}
