/** Whole numbers as IEEE 754 doubles: to the nearest one, and to the even one of two. */
module Doubles {
  const PRECISION: nat := 0x20_0000_0000_0000

  function Power2(k: nat): (p: nat)
    ensures p >= 1
  {
    if k == 0 then 1 else 2 * Power2(k - 1)
  }

  /** A double is a number of 53 bits times a power of two; whole numbers have no need of negative powers. */
  ghost predicate IsDouble(n: nat) {
    exists m: nat, k: nat :: Times(m, k) == n && m < PRECISION
  }

  function Times(m: nat, k: nat): nat {
    m * Power2(k)
  }

  // ---- Rounding ---------------------------------------------------------------------------

  /** The leading 53 bits of a number, the exponent they are scaled by, and what is left over. */
  datatype Scaled = Scaled(leading: nat, exponent: nat, rest: nat)

  function Scale(n: nat): (s: Scaled)
    ensures s.rest <= n
  {
    if n < PRECISION then Scaled(n, 0, 0)
    else
      var half := Scale(n / 2);
      Scaled(half.leading, half.exponent + 1, 2 * half.rest + n % 2)
  }

  lemma Doubled(m: nat, k: nat)
    ensures Times(m, k + 1) == 2 * Times(m, k)
  {
  }

  lemma {:induction false} Scales(n: nat, s: Scaled)
    requires s == Scale(n)
    ensures n == Times(s.leading, s.exponent) + s.rest && s.rest < Power2(s.exponent) && s.leading < PRECISION
    ensures n < PRECISION ==> s.rest == 0
    ensures s.exponent > 0 ==> 2 * s.leading >= PRECISION
  {
    if n >= PRECISION {
      var half := Scale(n / 2);
      Scales(n / 2, half);
      Doubled(half.leading, half.exponent);
      if half.exponent == 0 {
        assert n / 2 == half.leading;
      }
    }
  }

  function Nearest(n: nat): nat {
    var s := Scale(n);
    var unit := Power2(s.exponent);
    if 2 * s.rest < unit || (2 * s.rest == unit && s.leading % 2 == 0) then n - s.rest else n - s.rest + unit
  }

  // ---- The neighbours of a number -----------------------------------------------------------

  lemma {:induction false} PowersAdd(a: nat, b: nat)
    ensures Power2(a + b) == Power2(a) * Power2(b)
  {
    if a > 0 {
      PowersAdd(a - 1, b);
      Associate(2, Power2(a - 1), Power2(b));
    }
  }

  lemma Associate(a: nat, b: nat, c: nat)
    ensures (a * b) * c == a * (b * c)
  {
  }

  lemma Ordered(a: nat, b: nat, c: nat)
    requires a <= b
    ensures a * c <= b * c
  {
  }

  /** A larger power is a multiple of a smaller one. */
  lemma Rescaled(m: nat, k: nat, e: nat) returns (q: nat)
    requires e <= k
    ensures Times(q, e) == Times(m, k)
  {
    q := m * Power2(k - e);
    PowersAdd(k - e, e);
    Associate(m, Power2(k - e), Power2(e));
  }

  lemma NextTimes(m: nat, k: nat)
    ensures Times(m + 1, k) == Times(m, k) + Power2(k)
  {
  }

  lemma TimesOrdered(a: nat, b: nat, k: nat)
    requires a <= b
    ensures Times(a, k) <= Times(b, k)
  {
    Ordered(a, b, Power2(k));
  }

  lemma NoMultipleBetween(leading: nat, q: nat, e: nat)
    ensures Times(q, e) <= Times(leading, e) || Times(leading, e) + Power2(e) <= Times(q, e)
  {
    NextTimes(leading, e);
    if q <= leading {
      TimesOrdered(q, leading, e);
    } else {
      TimesOrdered(leading + 1, q, e);
    }
  }

  /** With a smaller power of two, a number of 53 bits stays below. */
  lemma Finer(leading: nat, e: nat, m: nat, k: nat)
    requires k < e && 2 * leading >= PRECISION && m < PRECISION
    ensures Times(m, k) <= Times(leading, e)
  {
    var more := Power2(e - k - 1);
    PowersAdd(e - k - 1, k + 1);
    Ordered(1, more, Power2(k + 1));
    Ordered(Power2(k + 1), Power2(e), leading);
    Doubled(leading, k);
    Associate(2, leading, Power2(k));
    TimesOrdered(m, 2 * leading, k);
  }

  /** No double lies strictly between the two neighbours. */
  lemma NothingBetween(n: nat, d: nat, s: Scaled)
    requires IsDouble(d) && s == Scale(n)
    ensures d <= Times(s.leading, s.exponent) || Times(s.leading, s.exponent) + Power2(s.exponent) <= d
  {
    Scales(n, s);
    var m: nat, k: nat :| Times(m, k) == d && m < PRECISION;
    if s.exponent <= k {
      var q := Rescaled(m, k, s.exponent);
      NoMultipleBetween(s.leading, q, s.exponent);
    } else {
      Finer(s.leading, s.exponent, m, k);
    }
  }

  lemma NeighboursAreDoubles(leading: nat, e: nat)
    requires leading < PRECISION
    ensures IsDouble(Times(leading, e)) && IsDouble(Times(leading, e) + Power2(e))
  {
    NextTimes(leading, e);
    if leading + 1 == PRECISION {
      Halved(leading + 1, PRECISION / 2, e);
    }
  }

  lemma Halved(m: nat, half: nat, k: nat)
    requires m == 2 * half && half < PRECISION
    ensures IsDouble(Times(m, k))
  {
    Doubled(half, k);
    Associate(2, half, Power2(k));
    assert Times(half, k + 1) == Times(m, k);
  }

  // ---- What rounding is ------------------------------------------------------------------------

  function Distance(a: nat, b: nat): nat {
    if a <= b then b - a else a - b
  }

  /** The result is a double, and no double is nearer. */
  lemma NearestIsNearest(n: nat, d: nat)
    requires IsDouble(d)
    ensures IsDouble(Nearest(n)) && Distance(n, Nearest(n)) <= Distance(n, d)
  {
    var s := Scale(n);
    Scales(n, s);
    NeighboursAreDoubles(s.leading, s.exponent);
    NothingBetween(n, d, s);
  }

  /** Of two doubles that are equally near the even one is taken: an even multiple of their distance. */
  lemma TiesToEven(n: nat, d: nat) returns (q: nat, k: nat)
    requires IsDouble(d) && d != Nearest(n) && Distance(n, Nearest(n)) == Distance(n, d)
    ensures q % 2 == 0 && Nearest(n) == Times(q, k) && Distance(d, Nearest(n)) == Power2(k)
  {
    var s := Scale(n);
    Scales(n, s);
    NothingBetween(n, d, s);
    NextTimes(s.leading, s.exponent);
    k := s.exponent;
    q := if s.leading % 2 == 0 then s.leading else s.leading + 1;
  }

  /** Exactly the doubles stay as they are; every number below 2^53 is one. */
  lemma NearestIff(n: nat)
    ensures Nearest(n) == n <==> IsDouble(n)
    ensures n < PRECISION ==> IsDouble(n)
  {
    assert Times(n, 0) == n;
    assert Times(0, 0) == 0;
    NearestIsNearest(n, 0);
    if IsDouble(n) {
      NearestIsNearest(n, n);
    }
  }

  /** No number but zero becomes zero. */
  lemma NearestPositive(n: nat)
    ensures Nearest(n) == 0 <==> n == 0
  {
    var s := Scale(n);
    Scales(n, s);
    if s.exponent > 0 {
      Ordered(1, s.leading, Power2(s.exponent));
    }
  }
}
