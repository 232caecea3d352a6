/** Exact decimals and Python's rounding to cents: to the nearest, ties to even. */
module Money {

  function Nearest(x: real): int {
    var f := x.Floor;
    var d := x - f as real;
    if d < 0.5 then f else if d > 0.5 then f + 1 else if f % 2 == 0 then f else f + 1
  }

  /** The value in whole cents. */
  function Round2(x: real): real {
    Cents(Nearest(x * 100.0))
  }

  function Abs(x: real): real {
    if x < 0.0 then -x else x
  }

  function Cents(n: int): real {
    n as real / 100.0
  }

  ghost predicate IsCents(x: real) {
    exists n: int :: x == Cents(n)
  }

  /** Rounding moves a value by half a cent at most. */
  lemma Round2IsNear(x: real)
    ensures Abs(Round2(x) - x) <= 0.005 && IsCents(Round2(x))
  {
    assert Round2(x) == Cents(Nearest(x * 100.0));
  }

  /** Half a cent goes to the even neighbour. */
  lemma HalfGoesToEven(n: int)
    ensures Round2((n as real + 0.5) / 100.0) == Cents(if n % 2 == 0 then n else n + 1)
  {
    var x := n as real + 0.5;
    assert x / 100.0 * 100.0 == x;
    assert x.Floor == n;
  }

  /** Rounding never turns the order of two values around. */
  lemma Round2IsMonotone(x: real, y: real)
    requires x <= y
    ensures Round2(x) <= Round2(y)
  {
    NearestIsMonotone(x * 100.0, y * 100.0);
  }

  lemma NearestIsMonotone(x: real, y: real)
    requires x <= y
    ensures Nearest(x) <= Nearest(y)
  {
    if x.Floor < y.Floor {
      assert x.Floor + 1 <= y.Floor;
    } else {
      assert x.Floor == y.Floor;
    }
  }

  /** Whatever is closer to zero than half a cent is rounded to nothing. */
  lemma Round2OfLittle(x: real)
    requires -0.005 < x < 0.005
    ensures Round2(x) == 0.0
  {
    var y := x * 100.0;
    assert -0.5 < y < 0.5;
    if y >= 0.0 {
      assert y.Floor == 0;
    } else {
      assert y.Floor == -1;
    }
  }

  // ----- products -------------------------------------------------------------------

  lemma QuotientTimes(v: real, s: real)
    requires s != 0.0
    ensures (v / s) * s == v
  {
  }

  lemma MulMonotone(a: real, b: real, s: real)
    requires a <= b && s >= 0.0
    ensures a * s <= b * s
  {
    assert (b - a) * s >= 0.0;
  }
}
