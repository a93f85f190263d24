/**
 * Translation between the raw sysfs scale (0 up to the ceiling `max_brightness`) and the
 * 0-100 percentage the controller presents. The source computes with floats and Python's
 * `round`, which rounds a tie to the even neighbour; here the quotients are exact rationals.
 */
module Scaling {
  import opened Failures

  /** The nearest integer to n / d; of two equally near, the even one. */
  function RoundHalfEven(n: int, d: int): (r: int)
    requires d > 0
    ensures -d <= 2 * (n - d * r) <= d
    ensures 2 * (n - d * r) == d || 2 * (n - d * r) == -d ==> r % 2 == 0
  {
    var q, m := n / d, n % d;
    assert n - d * q == m && 0 <= m < d;
    assert n - d * (q + 1) == m - d;
    if 2 * m < d then q
    else if 2 * m > d then q + 1
    else if q % 2 == 0 then q
    else q + 1
  }

  /** `max(min(hi, x), lo)` */
  function Clamp(x: int, lo: int, hi: int): (r: int)
    requires lo <= hi
    ensures lo <= r <= hi
    ensures lo <= x <= hi ==> r == x
  {
    if x > hi then hi else if x < lo then lo else x
  }

  /** `_normalize_brightness`: round(raw / ceiling * 100), clamped to 0-100. */
  function Normalize(raw: int, ceiling: int): (r: Result<int>)
    ensures r.Err? <==> ceiling == 0
    ensures r.Err? ==> r.error == DivisionByZero
    ensures r.Ok? ==> 0 <= r.value <= 100
  {
    if ceiling == 0 then Err(DivisionByZero)
    else if ceiling > 0 then Ok(Clamp(RoundHalfEven(raw * 100, ceiling), 0, 100))
    else Ok(Clamp(RoundHalfEven(-raw * 100, -ceiling), 0, 100))
  }

  /** `_denormalize_brightness`: round(percent * ceiling / 100), clamped to 0-255 (a literal, not the ceiling). */
  function Denormalize(percent: int, ceiling: int): (r: int)
    ensures 0 <= r <= 255
  {
    Clamp(RoundHalfEven(percent * ceiling, 100), 0, 255)
  }

  /** RoundHalfEven is the only integer within half a unit of n / d, so an integer strictly nearer than that is it. */
  lemma RoundHalfEvenUnique(n: int, d: int, k: int)
    requires d > 0
    requires -d < 2 * (n - d * k) < d
    ensures RoundHalfEven(n, d) == k
  {
    var r := RoundHalfEven(n, d);
    assert d * r - d * k == d * (r - k);
    OnlyMultipleBelow(d, r - k);
  }

  /** The only multiple of a positive c strictly between -c and c is 0. */
  lemma OnlyMultipleBelow(c: int, z: int)
    requires c > 0 && -c < c * z < c
    ensures z == 0
  {
  }

  /** A product with a positive factor is positive only when the other factor is. */
  lemma PositiveFactor(c: int, z: int)
    requires c > 0 && c * z > 0
    ensures z > 0
  {
  }

  lemma MulMonotone(d: int, a: int, b: int)
    requires d >= 0 && a <= b
    ensures d * a <= d * b
  {
    assert d * b - d * a == d * (b - a);
  }

  /**
   * For a raw value within the ceiling, normalising is never clamped: the percentage is
   * within half a point of raw / ceiling * 100.
   */
  lemma NormalizeNearest(raw: int, ceiling: int)
    requires 0 <= raw <= ceiling && ceiling > 0
    ensures Normalize(raw, ceiling).Ok?
    ensures var p := Normalize(raw, ceiling).value;
      -ceiling <= 2 * (100 * raw - ceiling * p) <= ceiling
  {
    PercentInRange(raw, ceiling, RoundHalfEven(raw * 100, ceiling));
  }

  /** An integer within half a unit of raw / ceiling * 100, for raw within the ceiling, is a percentage. */
  lemma PercentInRange(raw: int, ceiling: int, p: int)
    requires 0 <= raw <= ceiling && ceiling > 0
    requires -ceiling <= 2 * (raw * 100 - ceiling * p) <= ceiling
    ensures 0 <= p <= 100
  {
    assert ceiling * (2 * p + 1) > 0 - ceiling by {
      assert ceiling * (2 * p + 1) == 2 * (ceiling * p) + ceiling;
      MulMonotone(ceiling, 0, raw);
    }
    PositiveFactor(ceiling, 2 * p + 2);
    assert ceiling * (201 - 2 * p) > 0 - ceiling by {
      assert ceiling * (201 - 2 * p) == 201 * ceiling - 2 * (ceiling * p);
      MulMonotone(ceiling, raw, ceiling);
    }
    PositiveFactor(ceiling, 202 - 2 * p);
  }

  /**
   * For a ceiling of at most 255 and a percentage in 0-100, denormalising is never clamped:
   * the raw value is within half a unit of percent * ceiling / 100.
   */
  lemma DenormalizeNearest(percent: int, ceiling: int)
    requires 0 <= percent <= 100 && 0 <= ceiling <= 255
    ensures var r := Denormalize(percent, ceiling);
      -100 <= 2 * (ceiling * percent - 100 * r) <= 100
  {
    var r := RoundHalfEven(percent * ceiling, 100);
    assert 0 <= percent * ceiling <= 100 * 255 by {
      MulMonotone(ceiling, 0, percent);
      MulMonotone(ceiling, percent, 100);
    }
  }

  /**
   * Setting a percentage and reading it back gives that percentage, for every ceiling
   * from 100 to 255 (the official display's 255 among them).
   */
  lemma NormalizeDenormalize(percent: int, ceiling: int)
    requires 0 <= percent <= 100 && 100 <= ceiling <= 255
    ensures Normalize(Denormalize(percent, ceiling), ceiling) == Ok(percent)
  {
    var r := Denormalize(percent, ceiling);
    DenormalizeNearest(percent, ceiling);
    if ceiling == 100 {
      assert -100 <= 200 * (percent - r) <= 100;
      assert r == percent;
    }
    assert -ceiling < 2 * (r * 100 - ceiling * percent) < ceiling;
    RoundHalfEvenUnique(r * 100, ceiling, percent);
  }

  /** Normalising a raw value and denormalising the percentage lands within one raw unit of it. */
  lemma DenormalizeNormalize(raw: int, ceiling: int)
    requires 0 <= raw <= ceiling && 0 < ceiling <= 255
    ensures Normalize(raw, ceiling).Ok?
    ensures var back := Denormalize(Normalize(raw, ceiling).value, ceiling);
      raw - 1 <= back <= raw + 1
  {
    NormalizeNearest(raw, ceiling);
    var p := Normalize(raw, ceiling).value;
    DenormalizeNearest(p, ceiling);
    var back := Denormalize(p, ceiling);
    WithinOneRawUnit(raw, back, ceiling, ceiling * p);
  }

  /** The two rounding errors of a round trip add up to less than two raw units. */
  lemma WithinOneRawUnit(raw: int, back: int, ceiling: int, scaled: int)
    requires ceiling <= 255
    requires -ceiling <= 2 * (100 * raw - scaled) <= ceiling
    requires -100 <= 2 * (scaled - 100 * back) <= 100
    ensures raw - 1 <= back <= raw + 1
  {
  }

  /** Over ceilings from 100 to 255 distinct percentages give distinct raw values, in the same order. */
  lemma DenormalizeStrictlyIncreasing(p: int, q: int, ceiling: int)
    requires 0 <= p < q <= 100 && 100 <= ceiling <= 255
    ensures Denormalize(p, ceiling) < Denormalize(q, ceiling)
  {
    DenormalizeNearest(p, ceiling);
    DenormalizeNearest(q, ceiling);
    if ceiling == 100 {
      RoundsToItself(p, Denormalize(p, ceiling));
      RoundsToItself(q, Denormalize(q, ceiling));
    } else {
      ScaledGap(p, q, ceiling);
      RawGap(ceiling * p, ceiling * q, Denormalize(p, ceiling), Denormalize(q, ceiling));
    }
  }

  /** Scaling by more than 100 puts distinct integers more than 100 apart. */
  lemma ScaledGap(p: int, q: int, c: int)
    requires p < q && c > 100
    ensures c * q - c * p > 100
  {
    assert c * q - c * p == c * (q - p);
    MulMonotone(c, 1, q - p);
  }

  /** A multiple of 100 rounds to itself: a raw value within half a unit of 100 * p / 100 is p. */
  lemma RoundsToItself(p: int, r: int)
    requires -100 <= 2 * (100 * p - 100 * r) <= 100
    ensures r == p
  {
  }

  /** Scaled values more than one raw unit apart round to different raw values. */
  lemma RawGap(x: int, y: int, a: int, b: int)
    requires -100 <= 2 * (x - 100 * a) <= 100 && -100 <= 2 * (y - 100 * b) <= 100
    requires y - x > 100
    ensures a < b
  {
  }

  /**
   * With an odd ceiling such as 255 and a raw value within it, the normalised percentage
   * is strictly nearer than half a point to raw / ceiling * 100. The quotient stays at least
   * 1 / (2 * ceiling) away from every halfway point, so the tie-breaking rule of `round`
   * never decides the result.
   */
  lemma NormalizeNeverTiesForOddCeiling(raw: int, ceiling: int)
    requires ceiling > 0 && ceiling % 2 == 1 && 0 <= raw <= ceiling
    ensures Normalize(raw, ceiling).Ok?
    ensures var p := Normalize(raw, ceiling).value;
      -ceiling + 1 <= 2 * (100 * raw - ceiling * p) <= ceiling - 1
  {
    NormalizeNearest(raw, ceiling);
  }

  /** The values the test suite expects with the fake directory's ceiling of 255. */
  lemma ExpectedValuesAt255()
    ensures Normalize(255, 255) == Ok(100)
    ensures Normalize(128, 255) == Ok(50)
    ensures Normalize(0, 255) == Ok(0)
    ensures Denormalize(100, 255) == 255
    ensures Denormalize(50, 255) == 128
    ensures Denormalize(0, 255) == 0
  {
  }

  /** With a ceiling above 255 the top percentage still writes only 255: the upper clamp is the literal. */
  lemma DenormalizeCapsAt255(ceiling: int)
    requires ceiling >= 255
    ensures Denormalize(100, ceiling) == 255
  {
  }
}
