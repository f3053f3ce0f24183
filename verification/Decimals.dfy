/**
 Exact decimals in the manner of big.js with `DP = 10` and `RM = roundHalfUp`: sums,
 differences and products are exact, a quotient is rounded to ten decimals, and rounding
 takes the nearest value, a tie going away from zero.
 */
module Decimals {
  import opened DecimalText

  /** The number `units / 10^scale`. */
  datatype Decimal = Decimal(units: int, scale: nat)

  const DP: nat := 10

  function Abs(n: int): nat {
    if n < 0 then -n else n
  }

  /** `n / d` rounded to an integer. */
  function RoundHalfUp(n: int, d: int): int
    requires d > 0
  {
    if n >= 0 then (2 * n + d) / (2 * d) else -((2 * -n + d) / (2 * d))
  }

  function Rescale(a: Decimal, scale: nat): int
    requires a.scale <= scale
  {
    a.units * PowerOfTen(scale - a.scale)
  }

  function Max(a: nat, b: nat): nat {
    if a < b then b else a
  }

  function Plus(a: Decimal, b: Decimal): Decimal {
    var scale := Max(a.scale, b.scale);
    Decimal(Rescale(a, scale) + Rescale(b, scale), scale)
  }

  function Minus(a: Decimal, b: Decimal): Decimal {
    Plus(a, Decimal(-b.units, b.scale))
  }

  function Times(a: Decimal, b: Decimal): Decimal {
    Decimal(a.units * b.units, a.scale + b.scale)
  }

  function Div(a: Decimal, b: Decimal): Decimal
    requires b.units != 0
  {
    var n := a.units * PowerOfTen(DP + b.scale);
    if b.units > 0 then Decimal(RoundHalfUp(n, b.units * PowerOfTen(a.scale)), DP)
    else Decimal(RoundHalfUp(-n, -b.units * PowerOfTen(a.scale)), DP)
  }

  function Round(a: Decimal, scale: nat): Decimal {
    if a.scale <= scale then Decimal(Rescale(a, scale), scale)
    else Decimal(RoundHalfUp(a.units, PowerOfTen(a.scale - scale)), scale)
  }

  // ------------------------------------------------------------------------
  // Rounding once
  // ------------------------------------------------------------------------

  /** `r` is at most half a unit from `n / d`, and at exactly half it is the one farther from zero. */
  predicate IsNearest(n: int, d: int, r: int) {
    && -d <= 2 * (r * d - n) <= d
    && (2 * (r * d - n) == d ==> n >= 0)
    && (2 * (r * d - n) == -d ==> n < 0)
  }

  lemma RoundIsNearest(n: int, d: int)
    requires d > 0
    ensures IsNearest(n, d, RoundHalfUp(n, d))
  {
    var a := Abs(n);
    var r := (2 * a + d) / (2 * d);
    assert 2 * a + d == (2 * d) * r + (2 * a + d) % (2 * d);
    assert (2 * d) * r == 2 * (r * d);
    if n < 0 {
      assert (-r) * d == -(r * d);
    }
  }

  lemma MulOrder(a: int, b: int, d: int)
    requires a <= b && d >= 0
    ensures a * d <= b * d && d * a <= d * b
  {
  }

  lemma MulGap(a: int, b: int, d: int)
    requires a < b && d >= 0
    ensures a * d + d <= b * d
  {
    MulOrder(a + 1, b, d);
    assert (a + 1) * d == a * d + d;
  }

  lemma NearestIsUnique(n: int, d: int, r: int, s: int)
    requires d > 0 && IsNearest(n, d, r) && IsNearest(n, d, s)
    ensures r == s
  {
    if r < s {
      MulGap(r, s, d);
    } else if s < r {
      MulGap(s, r, d);
    }
  }

  /** `RoundHalfUp` is the only rounding with that description. */
  lemma RoundIff(n: int, d: int, r: int)
    requires d > 0
    ensures r == RoundHalfUp(n, d) <==> IsNearest(n, d, r)
  {
    RoundIsNearest(n, d);
    if IsNearest(n, d, r) {
      NearestIsUnique(n, d, r, RoundHalfUp(n, d));
    }
  }

  lemma RoundOdd(n: int, d: int)
    requires d > 0
    ensures RoundHalfUp(-n, d) == -RoundHalfUp(n, d)
  {
  }

  lemma RoundExact(k: int, d: int)
    requires d > 0
    ensures RoundHalfUp(k * d, d) == k
  {
    RoundIff(k * d, d, k);
  }

  lemma RoundMonotone(n: int, m: int, d: int)
    requires d > 0 && n <= m
    ensures RoundHalfUp(n, d) <= RoundHalfUp(m, d)
  {
    var r, s := RoundHalfUp(n, d), RoundHalfUp(m, d);
    RoundIsNearest(n, d);
    RoundIsNearest(m, d);
    if r > s {
      MulGap(s, r, d);
    }
  }

  lemma RoundShift(n: int, k: int, d: int)
    requires d > 0 && n >= 0 && k >= 0
    ensures RoundHalfUp(n + k * d, d) == RoundHalfUp(n, d) + k
  {
    var r := RoundHalfUp(n, d);
    RoundIsNearest(n, d);
    assert (r + k) * d == r * d + k * d;
    RoundIff(n + k * d, d, r + k);
  }

  lemma ScaleOrder(k: int, e: int, d: int)
    requires k > 0 && -d <= 2 * e <= d
    ensures -(k * d) <= 2 * (k * e) <= k * d
    ensures 2 * (k * e) == k * d ==> 2 * e == d
    ensures 2 * (k * e) == -(k * d) ==> 2 * e == -d
  {
    assert 2 * (k * e) == k * (2 * e) && -(k * d) == k * -d;
    MulOrder(-d, 2 * e, k);
    MulOrder(2 * e, d, k);
    if 2 * e < d { MulGap(2 * e, d, k); }
    if -d < 2 * e { MulGap(-d, 2 * e, k); }
  }

  /** Fractions in lower or higher terms round alike. */
  lemma RoundCancel(n: int, d: int, k: int)
    requires d > 0 && k > 0
    ensures k * d > 0 && RoundHalfUp(k * n, k * d) == RoundHalfUp(n, d)
  {
    var r := RoundHalfUp(n, d);
    RoundIsNearest(n, d);
    ScaleOrder(k, r * d - n, d);
    ScaleNearest(n, d, k, r);
    RoundIff(k * n, k * d, r);
  }

  lemma ScaleNearest(n: int, d: int, k: int, r: int)
    requires d > 0 && k > 0
    ensures k * d > 0 && r * (k * d) - k * n == k * (r * d - n)
    ensures k * n >= 0 <==> n >= 0
  {
    assert r * (k * d) == k * (r * d);
    assert k * (r * d - n) == k * (r * d) - k * n;
  }

  /** A larger denominator never gives a larger quotient of the same non-negative numerator. */
  lemma RoundAntitone(n: int, d: int, e: int)
    requires n >= 0 && 0 < d <= e
    ensures RoundHalfUp(n, e) <= RoundHalfUp(n, d)
  {
    var r, s := RoundHalfUp(n, d), RoundHalfUp(n, e);
    RoundIsNearest(n, d);
    RoundIsNearest(n, e);
    RoundNonNegative(n, d);
    MulOrder(d, e, r);
    if s > r {
      MulGap(r, s, e);
    }
  }

  lemma RoundNonNegative(n: int, d: int)
    requires d > 0 && n >= 0
    ensures RoundHalfUp(n, d) >= 0
  {
    RoundMonotone(0, n, d);
    RoundExact(0, d);
  }

  // ------------------------------------------------------------------------
  // Rounding twice
  // ------------------------------------------------------------------------

  /** The finer rounding landed on a tie of the coarser one that the exact value does not reach. */
  predicate LandsOnTie(n: int, d: int, half: int)
    requires d > 0 && half > 0
  {
    var q := Abs(RoundHalfUp(n * (2 * half), d));
    q % (2 * half) == half && q * d > Abs(n) * (2 * half)
  }

  /** `n / d` falls short of a tie by at most half a fine step: what is left over of whole units is that close to half of one. */
  predicate FalseTie(n: int, d: int, half: int)
    requires d > 0 && half > 0
  {
    assert 2 * half * d > 0;
    var rest := (Abs(n) * (2 * half)) % (2 * half * d);
    (2 * half - 1) * d <= 2 * rest < 2 * half * d
  }

  lemma TieDistance(d: int, half: int, j: int, rest: int)
    ensures 2 * ((2 * half * j + half) * d - (j * (2 * half * d) + rest)) == 2 * half * d - 2 * rest
    ensures (2 * half - 1) * d == 2 * half * d - d
  {
    assert (2 * half * j + half) * d == j * (2 * half * d) + half * d;
  }

  lemma RestOfTie(m: int, d: int, half: int, q: int)
    requires d > 0 && half > 0 && m >= 0 && IsNearest(m, d, q) && q % (2 * half) == half && q * d > m
    ensures 2 * half * d > 0 && (2 * half - 1) * d <= 2 * (m % (2 * half * d)) < 2 * half * d
  {
    var step := 2 * half * d;
    var j := TieIndex(q, half);
    var rest := m - j * step;
    TieDistance(d, half, j, rest);
    MulOrder(1, 2 * half, d);
    RestIsMod(m, j, step, rest, d, 2 * (q * d - m));
  }

  lemma RestIsMod(m: int, j: int, step: int, rest: int, d: int, short: int)
    requires m == j * step + rest && short == step - 2 * rest && 0 < short <= d <= step
    ensures m % step == rest && step - d <= 2 * rest < step
  {
    ModOf(m, j, step, rest);
  }

  lemma TieOfRest(m: int, d: int, half: int)
    requires d > 0 && half > 0 && m >= 0 && 2 * half * d > 0
    requires (2 * half - 1) * d <= 2 * (m % (2 * half * d)) < 2 * half * d
    ensures var q := RoundHalfUp(m, d); q % (2 * half) == half && q * d > m
  {
    var j, rest := m / (2 * half * d), m % (2 * half * d);
    var tie := 2 * half * j + half;
    assert m == j * (2 * half * d) + rest;
    TieDistance(d, half, j, rest);
    RoundIff(m, d, tie);
    ModOf(tie, j, 2 * half, half);
  }

  /** That is when the finer rounding lands on the tie. */
  lemma FalseTieIff(n: int, d: int, half: int)
    requires d > 0 && half > 0
    ensures FalseTie(n, d, half) <==> LandsOnTie(n, d, half)
  {
    var m := Abs(n) * (2 * half);
    AbsRound(n, d, 2 * half);
    RoundIsNearest(m, d);
    assert 2 * half * d > 0;
    if LandsOnTie(n, d, half) { RestOfTie(m, d, half, RoundHalfUp(m, d)); }
    if FalseTie(n, d, half) { TieOfRest(m, d, half); }
  }

  /**
   Rounding `n / d` first to steps of `1 / (2 * half)` and then to an integer gives what
   rounding once gives, except exactly when the first rounding makes a false tie.
   */
  lemma DoubleRoundingIff(n: int, d: int, half: int)
    requires d > 0 && half > 0
    ensures RoundHalfUp(RoundHalfUp(n * (2 * half), d), 2 * half) == RoundHalfUp(n, d) <==> !FalseTie(n, d, half)
  {
    FalseTieIff(n, d, half);
    if n < 0 {
      assert n * (2 * half) == -((-n) * (2 * half));
      RoundOdd((-n) * (2 * half), d);
      RoundOdd(-n, d);
      RoundOdd(RoundHalfUp((-n) * (2 * half), d), 2 * half);
      DoubleRoundingNonNegative(-n, d, half);
    } else {
      DoubleRoundingNonNegative(n, d, half);
    }
  }

  lemma DoubleRoundingNonNegative(n: int, d: int, half: int)
    requires d > 0 && half > 0 && n >= 0
    ensures RoundHalfUp(RoundHalfUp(n * (2 * half), d), 2 * half) == RoundHalfUp(n, d) <==> !LandsOnTie(n, d, half)
  {
    var big := 2 * half;
    var q := RoundHalfUp(n * big, d);
    var once := RoundHalfUp(n, d);
    RoundNonNegative(n * big, d);
    AtMostTheTie(n, d, half);
    AtLeastTheTieBelow(n, d, half);
    if q == once * big + half {
      TieRoundsUp(q, once, half);
      ModOf(q, once, big, half);
    } else {
      BetweenTies(q, once, half);
      if q % big == half && q * d > n * big {
        ReachesTie(n, d, half, q / big);
        MulOrder(once, q / big, big);
      }
    }
  }

  lemma TieRoundsUp(q: int, once: int, half: int)
    requires half > 0 && q == once * (2 * half) + half && q >= 0
    ensures RoundHalfUp(q, 2 * half) == once + 1
  {
    assert (once + 1) * (2 * half) == once * (2 * half) + 2 * half;
    RoundIff(q, 2 * half, once + 1);
  }

  lemma BetweenTies(q: int, once: int, half: int)
    requires half > 0 && q >= 0 && once * (2 * half) - half <= q < once * (2 * half) + half
    ensures RoundHalfUp(q, 2 * half) == once
  {
    RoundIff(q, 2 * half, once);
  }

  lemma ModOf(q: int, j: int, big: int, rest: int)
    requires big > 0 && 0 <= rest < big && q == j * big + rest
    ensures q % big == rest
  {
    var m := q % big;
    assert q == big * (q / big) + m;
    assert big * (q / big - j) == rest - m by {
      assert big * (q / big - j) == big * (q / big) - j * big;
    }
    if q / big > j { MulOrder(1, q / big - j, big); }
    if q / big < j { MulOrder(q / big - j, -1, big); }
  }

  /** The exact value is below the tie above `once`, so the fine rounding is at most that tie, reached only from below. */
  lemma AtMostTheTie(n: int, d: int, half: int)
    requires d > 0 && half > 0 && n >= 0
    ensures var q, tie := RoundHalfUp(n * (2 * half), d), RoundHalfUp(n, d) * (2 * half) + half;
            q <= tie && tie * d > n * (2 * half)
  {
    var big, once := 2 * half, RoundHalfUp(n, d);
    var tie := once * big + half;
    RoundIsNearest(n, d);
    assert 2 * n < 2 * (once * d) + d;
    assert tie * d == half * (2 * (once * d) + d) by {
      assert tie == half * (2 * once + 1);
      assert tie * d == half * ((2 * once + 1) * d);
    }
    assert n * big == half * (2 * n);
    assert half * (2 * n) < half * (2 * (once * d) + d);
    RoundMonotone(n * big, tie * d, d);
    RoundExact(tie, d);
  }

  /** The exact value is not below the tie under `once`, so neither is the fine rounding. */
  lemma AtLeastTheTieBelow(n: int, d: int, half: int)
    requires d > 0 && half > 0 && n >= 0
    ensures RoundHalfUp(n * (2 * half), d) >= RoundHalfUp(n, d) * (2 * half) - half
  {
    var big, once := 2 * half, RoundHalfUp(n, d);
    var tie := once * big - half;
    RoundIsNearest(n, d);
    assert 2 * n >= 2 * (once * d) - d;
    assert tie * d == half * (2 * (once * d) - d) by {
      assert tie == half * (2 * once - 1);
      assert tie * d == half * ((2 * once - 1) * d);
    }
    assert n * big == half * (2 * n);
    MulOrder(2 * (once * d) - d, 2 * n, half);
    RoundMonotone(tie * d, n * big, d);
    RoundExact(tie, d);
  }

  /** A tie the exact value does not reach is at or above the one over `once`. */
  lemma ReachesTie(n: int, d: int, half: int, j: int)
    requires d > 0 && half > 0 && n >= 0 && (2 * half * j + half) * d > n * (2 * half)
    ensures j >= RoundHalfUp(n, d)
  {
    var once := RoundHalfUp(n, d);
    RoundIsNearest(n, d);
    TieInHalves(n, d, half, j);
    if (2 * j + 1) * d <= 2 * n {
      MulOrder((2 * j + 1) * d, 2 * n, half);
    } else {
      assert (2 * j + 1) * d == 2 * (j * d) + d;
      if j < once { MulGap(j, once, d); }
    }
  }

  lemma TieInHalves(n: int, d: int, half: int, j: int)
    ensures (2 * half * j + half) * d == half * ((2 * j + 1) * d)
    ensures n * (2 * half) == half * (2 * n)
  {
    assert 2 * half * j + half == half * (2 * j + 1);
  }

  lemma AbsRound(n: int, d: int, big: int)
    requires d > 0 && big > 0
    ensures Abs(RoundHalfUp(n * big, d)) == RoundHalfUp(Abs(n) * big, d) && Abs(n) * big >= 0
  {
    RoundNonNegative(Abs(n) * big, d);
    if n < 0 {
      assert n * big == -(Abs(n) * big);
      RoundOdd(Abs(n) * big, d);
    }
  }

  lemma TieIndex(q: int, half: int) returns (j: int)
    requires half > 0 && q % (2 * half) == half
    ensures q == 2 * half * j + half
  {
    j := q / (2 * half);
  }

  /** A value short of the tie `q` is short of it by a whole `half / d`. */
  lemma ShortOfTie(m: int, d: int, half: int, q: int)
    requires d > 0 && half > 0 && q % (2 * half) == half && m * (2 * half) < q * d
    ensures m * (2 * half) + half <= q * d
  {
    var j := TieIndex(q, half);
    TieInHalves(m, d, half, j);
    var tie := (2 * j + 1) * d;
    if 2 * m < tie {
      MulGap(2 * m, tie, half);
    } else {
      MulOrder(tie, 2 * m, half);
    }
  }

  /** No false tie is possible while the denominator does not exceed the number of fine steps. */
  lemma SmallDenominator(n: int, d: int, half: int)
    requires 0 < d <= 2 * half
    ensures RoundHalfUp(RoundHalfUp(n * (2 * half), d), 2 * half) == RoundHalfUp(n, d)
  {
    if d == 2 * half {
      RoundExact(n, d);
      return;
    }
    DoubleRoundingIff(n, d, half);
    AbsRound(n, d, 2 * half);
    var q := Abs(RoundHalfUp(n * (2 * half), d));
    RoundIsNearest(Abs(n) * (2 * half), d);
    FalseTieIff(n, d, half);
    if LandsOnTie(n, d, half) {
      ShortOfTie(Abs(n), d, half, q);
    }
  }

  /** The errors of two roundings in a row add up. */
  lemma ErrorsAdd(n: int, d: int, steps: int, q: int, r: int)
    requires d > 0 && steps > 0 && IsNearest(n, d, q) && IsNearest(q, steps, r)
    ensures -(steps * d + d) <= 2 * (r * steps * d - n) <= steps * d + d
  {
    var e := r * steps - q;
    ScaleOrder(d, e, steps);
    assert r * steps * d == q * d + d * e;
  }
}
