/**
 What becomes of a size in bytes on its way through a JSON reply: the client decodes every JSON
 number into a float64 and converts that back to an int64 (parseVolumeResponse in
 pkg/vcloud/client/client.go). A float64 holds 53 significant bits and rounds to the nearest value,
 ties to even (IEEE 754-2019, section 4.3.1).
 */
module WireSizes {

  const TWO53 := 0x20_0000_0000_0000

  function Pow2(e: nat): (p: nat)
    ensures p >= 1
  {
    if e == 0 then 1 else 2 * Pow2(e - 1)
  }

  /** The integers a float64 represents: a significand of at most 53 bits, scaled. */
  ghost predicate Representable(m: int) {
    exists q: int, e: nat :: Scaled(m, q, e)
  }

  ghost predicate Scaled(m: int, q: int, e: nat) {
    -TWO53 <= q <= TWO53 && m == q * Pow2(e)
  }

  /** The exponent of the float64 format at n: the least e with n < 2^(53+e). */
  function Exponent(n: nat): (e: nat)
    decreases n
  {
    if n < TWO53 then 0 else 1 + Exponent(n / 2)
  }

  /** Rounds to a multiple of `unit`, to the even one when there is a tie. */
  function RoundTo(n: nat, unit: nat): nat
    requires unit >= 1
  {
    var q, r := n / unit, n % unit;
    if 2 * r < unit || (2 * r == unit && q % 2 == 0) then q * unit else (q + 1) * unit
  }

  function Float64(n: int): int {
    if n < 0 then -(RoundTo(-n, Pow2(Exponent(-n))) as int) else RoundTo(n, Pow2(Exponent(n)))
  }

  // ---------------------------------------------------------------- exactness

  lemma {:induction false} ExponentBounds(n: nat)
    ensures n < TWO53 * Pow2(Exponent(n))
    ensures Exponent(n) > 0 ==> TWO53 * Pow2(Exponent(n) - 1) <= n
    decreases n
  {
    if n >= TWO53 {
      ExponentBounds(n / 2);
      var e := Exponent(n / 2);
      assert Pow2(e + 1) == 2 * Pow2(e);
      if e > 0 {
        assert Pow2(e) == 2 * Pow2(e - 1);
      }
    }
  }

  lemma RoundToUnit(n: nat)
    ensures RoundTo(n, 1) == n
  {
  }

  /** Every size of magnitude at most 2^53 survives exactly. */
  lemma ExactUpTo2Pow53(n: int)
    requires -TWO53 <= n <= TWO53
    ensures Float64(n) == n
  {
    var a := if n < 0 then -n else n;
    if a < TWO53 {
      RoundToUnit(a);
    } else {
      assert Exponent(TWO53 / 2) == 0;
      assert Exponent(a) == 1 && Pow2(1) == 2 * Pow2(0) == 2;
      assert RoundTo(TWO53, 2) == TWO53;
    }
  }

  // ---------------------------------------------------------------- nearest value

  lemma {:induction false} Pow2Monotone(d: nat, e: nat)
    requires d <= e
    ensures Pow2(d) <= Pow2(e)
    decreases e
  {
    if d < e {
      Pow2Monotone(d, e - 1);
    }
  }

  lemma {:induction false} Pow2Split(d: nat, e: nat)
    ensures Pow2(d + e) == Pow2(d) * Pow2(e)
    decreases e
  {
    if e > 0 {
      Pow2Split(d, e - 1);
      assert d + e - 1 == d + (e - 1);
    }
  }

  lemma Associate(a: int, b: int, c: int)
    ensures a * (b * c) == (a * b) * c
  {
  }

  lemma MulMonotone(a: int, b: int, c: int)
    requires a <= b && 0 <= c
    ensures a * c <= b * c
  {
    assert (b - a) * c >= 0;
  }

  /** Multiples of a unit have no neighbour closer than the unit. */
  lemma NoMultipleBetween(k: int, q: int, unit: nat)
    requires unit >= 1
    ensures k * unit <= q * unit || k * unit >= (q + 1) * unit
  {
    if k <= q {
      MulMonotone(k, q, unit);
    } else {
      MulMonotone(q + 1, k, unit);
    }
  }

  /** No representable value lies strictly between two neighbouring multiples of n's unit. */
  lemma NoneBetween(n: nat, m: int)
    requires Representable(m)
    ensures var u := Pow2(Exponent(n)); m <= n / u * u || m >= (n / u + 1) * u
  {
    var e := Exponent(n);
    var u := Pow2(e);
    var q := n / u;
    var k: int, d: nat :| Scaled(m, k, d);
    if d >= e {
      Pow2Split(d - e, e);
      assert d - e + e == d;
      Associate(k, Pow2(d - e), u);
      NoMultipleBetween(k * Pow2(d - e), q, u);
    } else {
      ExponentBounds(n);
      Pow2Monotone(d, e - 1);
      MulMonotone(k, TWO53, Pow2(d));
      MulMonotone(TWO53, TWO53, Pow2(d));
      var half := Pow2(e - 1);
      assert u == 2 * half;
      assert m <= TWO53 * Pow2(d) <= TWO53 * half by {
        assert TWO53 * Pow2(d) <= TWO53 * half;
      }
      // TWO53 * half is a multiple of u that is at most n, so it is at most the lower neighbour
      var c := TWO53 / 2;
      assert TWO53 * half == c * u by {
        Associate(c, 2, half);
      }
      FloorIsGreatest(n, c, u);
    }
  }

  lemma FloorIsGreatest(n: nat, c: int, u: nat)
    requires u >= 1 && c * u <= n
    ensures c * u <= n / u * u
  {
    assert n == n / u * u + n % u;
    if c > n / u {
      MulMonotone(n / u + 1, c, u);
    } else {
      MulMonotone(c, n / u, u);
    }
  }

  function Distance(a: int, b: int): nat {
    if a < b then b - a else a - b
  }

  lemma QuotientBound(n: nat)
    ensures n / Pow2(Exponent(n)) < TWO53
  {
    var u := Pow2(Exponent(n));
    ExponentBounds(n);
    assert n == n / u * u + n % u;
    if n / u >= TWO53 {
      MulMonotone(TWO53, n / u, u);
    }
  }

  /** Rounding goes to the nearer of the two neighbouring multiples. */
  lemma RoundToCases(n: nat, u: nat)
    requires u >= 1
    ensures var low, r := n / u * u, n % u;
      && n == low + r && r < u
      && (n / u + 1) * u == low + u
      && ((RoundTo(n, u) == low && 2 * r <= u) || (RoundTo(n, u) == low + u && 2 * r >= u))
  {
    var q := n / u;
    assert (q + 1) * u == q * u + u;
  }

  lemma NearerOfTwo(n: int, low: int, u: nat, r: nat, x: int, m: int)
    requires n == low + r && r < u
    requires (x == low && 2 * r <= u) || (x == low + u && 2 * r >= u)
    requires m <= low || m >= low + u
    ensures Distance(x, n) <= Distance(m, n)
  {
  }

  lemma ResultRepresentable(n: nat)
    ensures Representable(Float64(n))
  {
    var e := Exponent(n);
    var q := n / Pow2(e);
    QuotientBound(n);
    RoundToCases(n, Pow2(e));
    if RoundTo(n, Pow2(e)) == q * Pow2(e) {
      assert Scaled(Float64(n), q, e);
    } else {
      assert Scaled(Float64(n), q + 1, e);
    }
  }

  /** For a non-negative size, no representable value is closer. */
  lemma NearestNat(n: nat, m: int)
    requires Representable(m)
    ensures Distance(Float64(n), n) <= Distance(m, n)
  {
    var u := Pow2(Exponent(n));
    NoneBetween(n, m);
    RoundToCases(n, u);
    NearerOfTwo(n, n / u * u, u, n % u, RoundTo(n, u), m);
  }

  lemma RepresentableNegation(m: int)
    requires Representable(m)
    ensures Representable(-m)
  {
    var q: int, e: nat :| Scaled(m, q, e);
    assert (-q) * Pow2(e) == -(q * Pow2(e));
    assert Scaled(-m, -q, e);
  }

  /** Rounding picks a nearest representable value, for either sign. */
  lemma Nearest(n: int, m: int)
    requires Representable(m)
    ensures Representable(Float64(n))
    ensures Distance(Float64(n), n) <= Distance(m, n)
  {
    if n >= 0 {
      ResultRepresentable(n);
      NearestNat(n, m);
    } else {
      RepresentableNegation(m);
      ResultRepresentable(-n);
      NearestNat(-n, -m);
      assert Float64(n) == -Float64(-n);
      RepresentableNegation(Float64(-n));
    }
  }

  /** A size survives exactly if and only if a float64 represents it. */
  lemma ExactIffRepresentable(n: int)
    ensures Float64(n) == n <==> Representable(n)
  {
    assert Scaled(0, 0, 0);
    Nearest(n, 0);
    if Representable(n) {
      Nearest(n, n);
    }
  }

  /** Rounding never reverses an order. */
  lemma Monotone(a: int, b: int)
    requires a <= b
    ensures Float64(a) <= Float64(b)
  {
    assert Scaled(0, 0, 0);
    Nearest(a, 0);
    Nearest(b, 0);
    Nearest(a, Float64(b));
    Nearest(b, Float64(a));
  }

  /**
   A tie goes to the even significand: when n lies halfway between two neighbours q * 2^e and
   (q + 1) * 2^e, the one with the even factor is taken.
   */
  lemma TiesToEven(q: nat, e: nat)
    requires TWO53 / 2 <= q < TWO53
    ensures Float64(q * Pow2(e + 1) + Pow2(e)) == (if q % 2 == 0 then q else q + 1) * Pow2(e + 1)
  {
    var half := Pow2(e);
    var u := Pow2(e + 1);
    var n := q * u + half;
    ExponentIs(n, q, e + 1, half);
    DivideBack(q, u, half);
    assert u == 2 * half;
  }

  lemma DivideBack(q: nat, u: nat, r: nat)
    requires r < u
    ensures (q * u + r) / u == q && (q * u + r) % u == r
  {
    var n := q * u + r;
    var k := n / u;
    assert n == k * u + n % u;
    if k < q {
      MulMonotone(k + 1, q, u);
    } else if k > q {
      MulMonotone(q + 1, k, u);
    }
  }

  /** The exponent of a number with a full 53-bit significand. */
  lemma {:induction false} ExponentIs(n: nat, q: nat, e: nat, r: nat)
    requires TWO53 / 2 <= q < TWO53
    requires r < Pow2(e) && n == q * Pow2(e) + r
    ensures Exponent(n) == e
    decreases e
  {
    if e > 0 {
      var h := Pow2(e - 1);
      assert q * Pow2(e) == 2 * (q * h) by {
        Associate(q, 2, h);
        Associate(2, q, h);
      }
      assert n / 2 == q * h + r / 2;
      ExponentIs(n / 2, q, e - 1, r / 2);
      MulMonotone(TWO53 / 2, q, h);
      assert n >= 2 * (q * h) >= 2 * (TWO53 / 2 * h) >= TWO53;
    }
  }
}
