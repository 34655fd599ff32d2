/** Money amounts as reals, with the two roundings the backend uses.

    `Math.round(x * 100) / 100` rounds half up; `Number(x.toFixed(2))` rounds half away from
    zero. The binary representation error of a double is not modelled. */
module Money {

  /** `Math.round(x * 100)`: the nearest whole number of cents, halves rounded up. */
  function Cents(x: real): int {
    (x * 100.0 + 0.5).Floor
  }

  /** `Math.round(x * 100) / 100`. */
  function Round2(x: real): real {
    Cents(x) as real / 100.0
  }

  /** `Number(x.toFixed(2))`: halves are rounded away from zero. */
  function Fixed2(x: real): real {
    if x >= 0.0 then Round2(x) else -Round2(-x)
  }

  /** `Number(x.toFixed(n))`, where `scale` is ten to the n. */
  function FixedAt(x: real, scale: real): real
    requires scale > 0.0
  {
    if x >= 0.0 then (x * scale + 0.5).Floor as real / scale else -((-x * scale + 0.5).Floor as real / scale)
  }

  /** `x` is a whole number of cents. */
  predicate WholeCents(x: real) {
    x * 100.0 == (x * 100.0).Floor as real
  }

  function Max(x: real, y: real): real {
    if x >= y then x else y
  }

  function Abs(x: real): real {
    if x >= 0.0 then x else -x
  }

  /** Rounding moves an amount by at most half a cent, and only downwards by exactly half. */
  lemma Round2Near(x: real)
    ensures Round2(x) - 0.005 <= x < Round2(x) + 0.005
  {
  }

  lemma Round2Whole(x: real)
    ensures WholeCents(Round2(x))
    ensures WholeCents(x) <==> Round2(x) == x
  {
    assert Round2(x) * 100.0 == Cents(x) as real;
    assert (Cents(x) as real).Floor == Cents(x);
    if WholeCents(x) {
      assert (x * 100.0 + 0.5).Floor == (x * 100.0).Floor;
    }
  }

  /** Whole cents pass through the rounding untouched. */
  lemma Round2Shift(x: real, d: real)
    requires WholeCents(d)
    ensures Round2(x + d) == Round2(x) + d
  {
    var n := (d * 100.0).Floor;
    assert (x + d) * 100.0 + 0.5 == (x * 100.0 + 0.5) + n as real;
    assert Cents(x + d) == Cents(x) + n;
  }

  lemma Round2Monotone(x: real, y: real)
    requires x <= y
    ensures Round2(x) <= Round2(y)
  {
    assert x * 100.0 + 0.5 <= y * 100.0 + 0.5;
    assert Cents(x) <= Cents(y);
  }

  lemma WholeCentsClosed(x: real, y: real)
    requires WholeCents(x) && WholeCents(y)
    ensures WholeCents(x + y) && WholeCents(x - y)
  {
    CentsAreWhole(x + y, (x * 100.0).Floor + (y * 100.0).Floor);
    CentsAreWhole(x - y, (x * 100.0).Floor - (y * 100.0).Floor);
  }

  lemma CentsAreWhole(x: real, cents: int)
    requires x * 100.0 == cents as real
    ensures WholeCents(x)
  {
  }

  /** Rounding to the last decimal shown keeps the sign or gives zero. */
  lemma FixedAtSign(x: real, scale: real)
    requires scale > 0.0
    ensures x >= 0.0 ==> FixedAt(x, scale) >= 0.0
    ensures FixedAt(x, scale) < 0.0 <==> x < 0.0 && -x * scale >= 0.5
  {
    if x >= 0.0 {
      assert x * scale >= 0.0;
      QuotientSign((x * scale + 0.5).Floor, scale);
    } else {
      assert -x * scale > 0.0;
      QuotientSign((-x * scale + 0.5).Floor, scale);
    }
  }

  lemma QuotientSign(n: int, scale: real)
    requires scale > 0.0 && n >= 0
    ensures n > 0 <==> n as real / scale > 0.0
    ensures n as real / scale >= 0.0
  {
  }

  /** `n` units of the last decimal. */
  predicate OnGrid(x: real, scale: real, n: int)
    requires scale > 0.0
  {
    x == n as real / scale
  }

  /** Rounding to a number of decimals moves by at most half of the last one. */
  lemma FixedAtNear(x: real, scale: real)
    requires scale > 0.0
    ensures Abs(FixedAt(x, scale) - x) * scale <= 0.5
  {
    if x >= 0.0 {
      NearQuotient((x * scale + 0.5).Floor, x, scale);
    } else {
      NearQuotient((-x * scale + 0.5).Floor, -x, scale);
    }
  }

  lemma FixedAtOnGrid(x: real, scale: real)
    requires scale > 0.0
    ensures exists n: int :: OnGrid(FixedAt(x, scale), scale, n)
  {
    if x >= 0.0 {
      assert OnGrid(FixedAt(x, scale), scale, (x * scale + 0.5).Floor);
    } else {
      var n := (-x * scale + 0.5).Floor;
      assert (-n) as real / scale == -(n as real / scale);
      assert OnGrid(FixedAt(x, scale), scale, -n);
    }
  }

  lemma NearQuotient(n: int, x: real, scale: real)
    requires scale > 0.0 && n == (x * scale + 0.5).Floor
    ensures Abs(n as real / scale - x) * scale <= 0.5
  {
    var q := n as real / scale;
    assert q * scale == n as real;
    assert (q - x) * scale == n as real - x * scale;
    assert (x - q) * scale == x * scale - n as real;
  }
}
