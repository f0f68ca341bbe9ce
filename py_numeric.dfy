/**
  The two pieces of Python integer semantics the modulo branch of the calculator relies on:
  `int(x)` applied to a float (truncation toward zero) and `%` on two Python ints (floor
  modulo: the remainder takes the sign of the divisor). Dafny's own `/` and `%` are Euclidean,
  so neither can stand in for Python's; both are written out here and tied to their
  mathematical definitions by lemmas.
 */
module PyNumeric {

  /** `int(x)` for a float `x`: the integer part, rounding toward zero. */
  function Trunc(x: real): (n: int)
    ensures x >= 0.0 ==> 0 <= n && n as real <= x < n as real + 1.0
    ensures x < 0.0 ==> n <= 0 && n as real - 1.0 < x <= n as real
  {
    if x >= 0.0 then x.Floor else -((-x).Floor)
  }

  /** The conditions above pin `int(x)` down: no other integer meets them. */
  lemma TruncUnique(x: real, n: int)
    requires x >= 0.0 ==> 0 <= n && n as real <= x < n as real + 1.0
    requires x < 0.0 ==> n <= 0 && n as real - 1.0 < x <= n as real
    ensures n == Trunc(x)
  {
    var t := Trunc(x);
    assert n < t ==> (n + 1) as real <= t as real;
    assert t < n ==> (t + 1) as real <= n as real;
  }

  /** Truncation is odd, unlike `Floor`: `int(-x) == -int(x)`. */
  lemma TruncNegate(x: real)
    ensures Trunc(-x) == -Trunc(x)
  {
    if x != 0.0 {
      TruncUnique(-x, -Trunc(x));
    }
  }

  /** `int(x)` is zero exactly on the open interval (-1, 1). */
  lemma TruncZeroIff(x: real)
    ensures Trunc(x) == 0 <==> -1.0 < x < 1.0
  {
    if -1.0 < x < 1.0 {
      TruncUnique(x, 0);
    }
  }

  /** Python's `a // b` on ints: the quotient rounded toward negative infinity. */
  function FloorDiv(a: int, b: int): (q: int)
    requires b != 0
    ensures b > 0 ==> b * q <= a < b * q + b
    ensures b < 0 ==> b * q + b < a <= b * q
  {
    if b > 0 || a % b == 0 then a / b else a / b - 1
  }

  /**
    Python's `a % b` on ints. The remainder is zero or has the sign of the divisor, is smaller
    in magnitude than the divisor, and completes the division identity with `FloorDiv`.
   */
  function FloorMod(a: int, b: int): (r: int)
    requires b != 0
    ensures b > 0 ==> 0 <= r < b
    ensures b < 0 ==> b < r <= 0
    ensures a == b * FloorDiv(a, b) + r
  {
    if b > 0 || a % b == 0 then a % b else a % b + b
  }

  /** A positive multiple of `b` is at least `b`. */
  lemma MulAtLeast(b: nat, k: nat)
    ensures k >= 1 ==> b * k >= b
  {
    assert b * k == b * (k - 1) + b;
  }

  /** A multiple of `b` smaller in magnitude than `b` is zero. */
  lemma SmallMultipleIsZero(b: int, k: int)
    requires b != 0
    requires -(if b > 0 then b else -b) < b * k < (if b > 0 then b else -b)
    ensures k == 0
  {
    var bb: nat := if b > 0 then b else -b;
    var kk: nat := if k > 0 then k else -k;
    assert b * k == bb * kk || b * k == -(bb * kk);
    MulAtLeast(bb, kk);
  }

  /**
    Floor division is characterised by its remainder: any `q`, `r` with `a == b * q + r` and `r`
    zero or of the divisor's sign and smaller than it are Python's `a // b` and `a % b`.
   */
  lemma FloorDivModUnique(a: int, b: int, q: int, r: int)
    requires b != 0
    requires a == b * q + r
    requires b > 0 ==> 0 <= r < b
    requires b < 0 ==> b < r <= 0
    ensures q == FloorDiv(a, b) && r == FloorMod(a, b)
  {
    var q0, r0 := FloorDiv(a, b), FloorMod(a, b);
    assert b * (q - q0) == r0 - r by {
      assert b * (q - q0) == b * q - b * q0;
    }
    SmallMultipleIsZero(b, q - q0);
  }

  /** Python defines `a // b` as the floor of the exact quotient; `FloorDiv` agrees. */
  lemma FloorDivIsFloorOfQuotient(a: int, b: int)
    requires b != 0
    ensures FloorDiv(a, b) == ((a as real) / (b as real)).Floor
  {
    var q, r := FloorDiv(a, b), FloorMod(a, b);
    var x := (a as real) / (b as real);
    assert a as real == (b as real) * (q as real) + r as real;
    assert x == q as real + (r as real) / (b as real);
    if b > 0 {
      assert 0.0 <= (r as real) / (b as real) < 1.0;
    } else {
      assert 0.0 <= (r as real) / (b as real) < 1.0 by {
        assert (r as real) / (b as real) == (-r as real) / (-b as real);
      }
    }
    assert q as real <= x < q as real + 1.0;
  }
}
