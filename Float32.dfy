/** Single-precision (IEEE 754 binary32) rounding, restricted to zero and the
    positive normal range [1/16, 2) that the texture offsets live in.
    A float in [2^e, 2^(e+1)) is a multiple of 2^(e-23); an operation
    computes the exact real result and rounds it to the nearest such
    multiple, ties to the even one. */
module Float32 {

  /** The values this model can round: zero, or a positive real in [1/16, 2). */
  predicate InRange(x: real) {
    x == 0.0 || (1.0 / 16.0 <= x < 2.0)
  }

  /** The distance between adjacent floats around `x`. */
  function Ulp(x: real): (u: real)
    requires 1.0 / 16.0 <= x < 2.0
    ensures 0.0 < u <= 1.0 / 8388608.0
    ensures u * 8388608.0 <= x < u * 16777216.0
  {
    if x >= 1.0 then 1.0 / 8388608.0          // 2^-23
    else if x >= 0.5 then 1.0 / 16777216.0    // 2^-24
    else if x >= 0.25 then 1.0 / 33554432.0   // 2^-25
    else if x >= 0.125 then 1.0 / 67108864.0  // 2^-26
    else 1.0 / 134217728.0                    // 2^-27
  }

  /** The integer nearest to `m`, ties to even. */
  function RoundHalfEven(m: real): (n: int)
    ensures -0.5 <= n as real - m <= 0.5
    ensures n as real - m == 0.5 || n as real - m == -0.5 ==> n % 2 == 0
  {
    var f := m.Floor;
    var frac := m - f as real;
    if frac < 0.5 then f
    else if frac > 0.5 then f + 1
    else if f % 2 == 0 then f
    else f + 1
  }

  /** The float nearest to `x` (round to nearest, ties to even). */
  function Round(x: real): (r: real)
    requires InRange(x)
    ensures x == 0.0 ==> r == 0.0
    ensures x != 0.0 ==> -Ulp(x) / 2.0 <= r - x <= Ulp(x) / 2.0
  {
    if x == 0.0 then 0.0
    else
      var u := Ulp(x);
      var n := RoundHalfEven(x / u);
      ScaledError(n, x / u, u);
      n as real * u
  }

  /** Rounding the scaled value to within one half keeps the error within
      half a unit. */
  lemma ScaledError(n: int, m: real, u: real)
    requires u > 0.0
    requires -0.5 <= n as real - m <= 0.5
    ensures -u / 2.0 <= n as real * u - m * u <= u / 2.0
  {
    var d := n as real - m;
    assert n as real * u - m * u == d * u;
    assert -0.5 * u <= d * u <= 0.5 * u;
  }

  /** Single-precision addition of two floats. */
  function Add(a: real, b: real): real
    requires InRange(a + b)
  {
    Round(a + b)
  }

  /** The float literals the texture matrix compares with and adds, by their
      exact values; `LiteralsRounded` shows each is the float nearest to its
      decimal spelling. */
  const Tenth: real := 13421773.0 / 134217728.0         // 0.1f
  const TwoTenths: real := 13421773.0 / 67108864.0      // 0.2f
  const FourTenths: real := 13421773.0 / 33554432.0     // 0.4f
  const ElevenTenths: real := 9227469.0 / 8388608.0     // 1.1f

  lemma LiteralsRounded()
    ensures Tenth == Round(0.1)
    ensures TwoTenths == Round(0.2)
    ensures FourTenths == Round(0.4)
    ensures ElevenTenths == Round(1.1)
  {
    assert Tenth == Round(0.1);
    assert TwoTenths == Round(0.2);
    assert FourTenths == Round(0.4);
  }

  /** The float that `n` single-precision additions of 0.1f to 0 produce, as
      an exact value; `TenthsStep` checks each addition. */
  function TenthsTable(n: nat): real
    requires n <= 11
  {
    if n == 0 then 0.0 else
    if n == 1 then 13421773.0 / 134217728.0 else
    if n == 2 then 13421773.0 / 67108864.0 else
    if n == 3 then 5033165.0 / 16777216.0 else
    if n == 4 then 13421773.0 / 33554432.0 else
    if n == 5 then 1.0 / 2.0 else
    if n == 6 then 5033165.0 / 8388608.0 else
    if n == 7 then 2936013.0 / 4194304.0 else
    if n == 8 then 6710887.0 / 8388608.0 else
    if n == 9 then 1887437.0 / 2097152.0 else
    if n == 10 then 8388609.0 / 8388608.0 else
    4613735.0 / 4194304.0
  }

  lemma TenthsStep(n: nat)
    requires 1 <= n <= 11
    ensures Round(TenthsTable(n - 1) + Tenth) == TenthsTable(n)
  {
    if n == 1 {
    } else if n == 2 {
    } else if n == 3 {
    } else if n == 4 {
    } else if n == 5 {
    } else if n == 6 {
    } else if n == 7 {
    } else if n == 8 {
    } else if n == 9 {
    } else if n == 10 {
    } else if n == 11 {
    }
  }

  /** Adding 0.2f to one of the first five tabulated floats lands exactly
      two entries further on, as two additions of 0.1f do. */
  lemma TwoTenthsStep(n: nat)
    requires n <= 4
    ensures Round(TenthsTable(n) + TwoTenths) == TenthsTable(n + 2)
  {
    if n == 0 {
    } else if n == 1 {
    } else if n == 2 {
    } else if n == 3 {
    } else {
    }
  }

  /** Where the tabulated floats fall against the thresholds of the offset
      wrap-around tests. */
  lemma TenthsThresholds(n: nat)
    requires n <= 11
    ensures TenthsTable(n) > TwoTenths <==> n > 2
    ensures TenthsTable(n) > FourTenths <==> n > 4
    ensures TenthsTable(n) >= ElevenTenths <==> n == 11
  {
  }
}
