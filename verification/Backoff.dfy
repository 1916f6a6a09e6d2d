/** Retry delays in two's-complement 64-bit arithmetic, as Go's `int` and `time.Duration` compute them. */
module Backoff {
  import opened Basics

  const TWO_63: int := 0x8000_0000_0000_0000
  const TWO_64: int := 0x1_0000_0000_0000_0000
  const SECOND: int := 1_000_000_000
  const FIVE_MINUTES: int := 300 * SECOND
  const HOUR: int := 3600 * SECOND
  const DAY: int := 24 * HOUR

  /** Integer division of non-negative numbers. */
  function Quotient(x: nat, n: nat): (q: nat)
    requires n >= 1
    ensures q * n <= x < (q + 1) * n
  {
    QuotientNonNegative(x, n);
    x / n
  }

  lemma {:induction false} QuotientNonNegative(x: nat, n: nat)
    requires n >= 1
    ensures 0 <= x / n && (x / n) * n <= x < (x / n + 1) * n
  {
    var q := x / n;
    assert x == q * n + x % n && 0 <= x % n < n;
  }

  lemma {:induction false} ScaleBoth(x: int, y: int, n: int)
    requires n >= 0 && x <= y
    ensures x * n <= y * n
  {
  }

  lemma {:induction false} CancelFactor(x: int, y: int, n: int)
    requires n >= 1 && x * n < y * n
    ensures x < y
  {
  }

  function Pow(b: int, n: nat): int {
    if n == 0 then 1 else b * Pow(b, n - 1)
  }

  /** The value a 64-bit register holds after computing the mathematical integer x. */
  function Wrap64(x: int): (r: int)
    ensures -TWO_63 <= r < TWO_63
    ensures exists q :: x == r + q * TWO_64
    ensures -TWO_63 <= x < TWO_63 ==> r == x
  {
    var q := (x + TWO_63) / TWO_64;
    assert x == (x - q * TWO_64) + q * TWO_64;
    x - q * TWO_64
  }

  /** A register value is the only 64-bit number congruent to x. */
  lemma {:induction false} Wrap64Unique(x: int, r: int, q: int)
    requires -TWO_63 <= r < TWO_63 && x == r + q * TWO_64
    ensures Wrap64(x) == r
  {
    var p :| x == Wrap64(x) + p * TWO_64;
    assert Wrap64(x) - r == (q - p) * TWO_64;
  }

  /** Wrapping an operand first does not change a wrapped product. */
  lemma {:induction false} Wrap64Product(a: int, b: int)
    ensures Wrap64(a * Wrap64(b)) == Wrap64(a * b)
  {
    var q :| b == Wrap64(b) + q * TWO_64;
    var p :| a * Wrap64(b) == Wrap64(a * Wrap64(b)) + p * TWO_64;
    var w := Wrap64(b);
    calc {
      a * b;
      a * (w + q * TWO_64);
      a * w + a * (q * TWO_64);
      a * w + (a * q) * TWO_64;
      Wrap64(a * w) + p * TWO_64 + (a * q) * TWO_64;
      Wrap64(a * w) + (p + a * q) * TWO_64;
    }
    Wrap64Unique(a * b, Wrap64(a * w), p + a * q);
  }

  lemma {:induction false} PowAdd(b: int, m: nat, n: nat)
    ensures Pow(b, m + n) == Pow(b, m) * Pow(b, n)
  {
    if m > 0 {
      PowAdd(b, m - 1, n);
      assert b * (Pow(b, m - 1) * Pow(b, n)) == (b * Pow(b, m - 1)) * Pow(b, n);
    }
  }

  lemma {:induction false} PowPositive(b: int, n: nat)
    requires b >= 1
    ensures Pow(b, n) >= 1
  {
    if n > 0 {
      PowPositive(b, n - 1);
      assert b * Pow(b, n - 1) >= 1 * Pow(b, n - 1);
    }
  }

  lemma {:induction false} PowMonotone(b: int, m: nat, n: nat)
    requires b >= 1 && m <= n
    ensures Pow(b, m) <= Pow(b, n)
  {
    PowAdd(b, m, n - m);
    PowPositive(b, m);
    PowPositive(b, n - m);
    assert Pow(b, m) * 1 <= Pow(b, m) * Pow(b, n - m);
  }

  lemma {:induction false} PowValues()
    ensures Pow(2, 24) == 0x100_0000 && Pow(2, 25) == 0x200_0000 && Pow(2, 53) == 0x20_0000_0000_0000
    ensures Pow(3, 15) == 14_348_907 && Pow(3, 16) == 43_046_721
  {
    assert Pow(2, 1) == 2 && Pow(2, 3) == 8 && Pow(2, 5) == 32;
    PowAdd(2, 3, 5);
    PowAdd(2, 8, 8);
    PowAdd(2, 8, 16);
    PowAdd(2, 1, 24);
    PowAdd(2, 5, 24);
    PowAdd(2, 24, 29);
    assert Pow(3, 3) == 27 && Pow(3, 5) == 243;
    PowAdd(3, 5, 5);
    PowAdd(3, 10, 5);
    PowAdd(3, 1, 15);
  }

  /** Go's `1 << k` on a 64-bit int. */
  function ShiftOne(k: nat): int { Wrap64(Pow(2, k)) }

  /** The shared shape of all the source's exponential back-offs: base * 2^(attempt-1), capped. */
  function CappedDelay(base: int, attempt: int, cap: int): int {
    if attempt <= 0 then base
    else
      var delay := Wrap64(base * ShiftOne(attempt - 1));
      if delay > cap then cap else delay
  }

  /** `CalculateRetryDelay` of the job queue and of domain validation: the two forms multiply in
      opposite orders and both cap at 24 hours. */
  function CalculateRetryDelay(attempt: int, baseDelay: int): int { CappedDelay(baseDelay, attempt, DAY) }

  /** What the back-off is documented to be: the exact product, capped. */
  ghost function IdealDelay(base: int, attempt: int, cap: int): int
    requires attempt >= 1
  {
    Min(base * Pow(2, attempt - 1), cap)
  }

  /** Exactly when the 64-bit code meets the documented back-off: no overflow, or an overflow that
      happens to land at or above the cap. */
  lemma {:induction false} CappedDelayExact(base: int, attempt: int, cap: int)
    requires attempt >= 1 && 0 <= base && 0 <= cap < TWO_63
    ensures CappedDelay(base, attempt, cap) == IdealDelay(base, attempt, cap)
       <==> base * Pow(2, attempt - 1) < TWO_63 || Wrap64(base * Pow(2, attempt - 1)) >= cap
  {
    Wrap64Product(base, Pow(2, attempt - 1));
    PowPositive(2, attempt - 1);
    assert 0 <= base * Pow(2, attempt - 1);
  }

  lemma {:induction false} CappedDelayMonotone(base: int, m: int, n: int, cap: int)
    requires 1 <= m <= n && 0 <= base && 0 <= cap < TWO_63 && base * Pow(2, n - 1) < TWO_63
    ensures CappedDelay(base, m, cap) <= CappedDelay(base, n, cap)
  {
    PowMonotone(2, m - 1, n - 1);
    assert base * Pow(2, m - 1) <= base * Pow(2, n - 1);
    CappedDelayExact(base, m, cap);
    CappedDelayExact(base, n, cap);
  }

  /** The 64-bit product for attempt k + 1, before the cap. */
  function FiveMinutesShifted(k: nat): int { Wrap64(FIVE_MINUTES * Pow(2, k)) }

  /** The attempts for which the five-minute back-off is what it is documented to be. */
  predicate IsExactAttempt(attempt: int) {
    attempt <= 25 || attempt in {27, 28, 29, 31, 35, 38, 39, 41, 44, 45, 47, 48, 50}
  }

  lemma {:induction false} Doubles(k: nat, v: int, w: int)
    requires FiveMinutesShifted(k) == v && w == Wrap64(2 * v)
    ensures FiveMinutesShifted(k + 1) == w
  {
    Wrap64Product(2, FIVE_MINUTES * Pow(2, k));
    assert FIVE_MINUTES * (2 * Pow(2, k)) == 2 * (FIVE_MINUTES * Pow(2, k));
  }

  lemma {:induction false} OverflowedFirst()
    ensures FiveMinutesShifted(25) < 0 && FiveMinutesShifted(26) >= DAY && FiveMinutesShifted(27) >= DAY
    ensures FiveMinutesShifted(28) >= DAY && FiveMinutesShifted(29) < 0 && FiveMinutesShifted(30) >= DAY
    ensures FiveMinutesShifted(31) < 0 && FiveMinutesShifted(32) < 0 && FiveMinutesShifted(33) < 0
    ensures FiveMinutesShifted(34) >= DAY
    ensures FiveMinutesShifted(34) == 7_319_158_635_035_099_136
  {
    PowValues();
    Wrap64Unique(FIVE_MINUTES * Pow(2, 25), -8_380_414_473_709_551_616, 1);
    Doubles(25, -8_380_414_473_709_551_616, 1_685_915_126_290_448_384);
    Doubles(26, 1_685_915_126_290_448_384, 3_371_830_252_580_896_768);
    Doubles(27, 3_371_830_252_580_896_768, 6_743_660_505_161_793_536);
    Doubles(28, 6_743_660_505_161_793_536, -4_959_423_063_385_964_544);
    Doubles(29, -4_959_423_063_385_964_544, 8_527_897_946_937_622_528);
    Doubles(30, 8_527_897_946_937_622_528, -1_390_948_179_834_306_560);
    Doubles(31, -1_390_948_179_834_306_560, -2_781_896_359_668_613_120);
    Doubles(32, -2_781_896_359_668_613_120, -5_563_792_719_337_226_240);
    Doubles(33, -5_563_792_719_337_226_240, 7_319_158_635_035_099_136);
  }

  lemma {:induction false} OverflowedSecond()
    requires FiveMinutesShifted(34) == 7_319_158_635_035_099_136
    ensures FiveMinutesShifted(35) < 0 && FiveMinutesShifted(36) < 0 && FiveMinutesShifted(37) >= DAY
    ensures FiveMinutesShifted(38) >= DAY && FiveMinutesShifted(39) < 0 && FiveMinutesShifted(40) >= DAY
    ensures FiveMinutesShifted(41) < 0 && FiveMinutesShifted(42) < 0 && FiveMinutesShifted(43) >= DAY
    ensures FiveMinutesShifted(43) == 2_720_174_174_931_779_584
  {
    Doubles(34, 7_319_158_635_035_099_136, -3_808_426_803_639_353_344);
    Doubles(35, -3_808_426_803_639_353_344, -7_616_853_607_278_706_688);
    Doubles(36, -7_616_853_607_278_706_688, 3_213_036_859_152_138_240);
    Doubles(37, 3_213_036_859_152_138_240, 6_426_073_718_304_276_480);
    Doubles(38, 6_426_073_718_304_276_480, -5_594_596_637_100_998_656);
    Doubles(39, -5_594_596_637_100_998_656, 7_257_550_799_507_554_304);
    Doubles(40, 7_257_550_799_507_554_304, -3_931_642_474_694_443_008);
    Doubles(41, -3_931_642_474_694_443_008, -7_863_284_949_388_886_016);
    Doubles(42, -7_863_284_949_388_886_016, 2_720_174_174_931_779_584);
  }

  lemma {:induction false} OverflowedThird()
    requires FiveMinutesShifted(43) == 2_720_174_174_931_779_584
    ensures FiveMinutesShifted(44) >= DAY && FiveMinutesShifted(45) < 0 && FiveMinutesShifted(46) >= DAY
    ensures FiveMinutesShifted(47) >= DAY && FiveMinutesShifted(48) < 0 && FiveMinutesShifted(49) >= DAY
    ensures FiveMinutesShifted(50) < 0 && FiveMinutesShifted(51) < 0 && FiveMinutesShifted(52) < 0
    ensures FiveMinutesShifted(52) == -9_223_372_036_854_775_808
  {
    Doubles(43, 2_720_174_174_931_779_584, 5_440_348_349_863_559_168);
    Doubles(44, 5_440_348_349_863_559_168, -7_566_047_373_982_433_280);
    Doubles(45, -7_566_047_373_982_433_280, 3_314_649_325_744_685_056);
    Doubles(46, 3_314_649_325_744_685_056, 6_629_298_651_489_370_112);
    Doubles(47, 6_629_298_651_489_370_112, -5_188_146_770_730_811_392);
    Doubles(48, -5_188_146_770_730_811_392, 8_070_450_532_247_928_832);
    Doubles(49, 8_070_450_532_247_928_832, -2_305_843_009_213_693_952);
    Doubles(50, -2_305_843_009_213_693_952, -4_611_686_018_427_387_904);
    Doubles(51, -4_611_686_018_427_387_904, -9_223_372_036_854_775_808);
  }

  /** After the first overflow the product is either negative or, by luck, above the cap. */
  lemma {:induction false} OverflowedDelays(k: nat)
    requires 25 <= k <= 52
    ensures if IsExactAttempt(k + 1) then FiveMinutesShifted(k) >= DAY else FiveMinutesShifted(k) < 0
  {
    hide FiveMinutesShifted;
    OverflowedFirst();
    OverflowedSecond();
    OverflowedThird();
  }

  lemma {:induction false} ShiftedToZero(k: nat)
    requires k >= 53
    ensures FiveMinutesShifted(k) == 0
  {
    PowValues();
    PowAdd(2, k - 53, 53);
    var p := Pow(2, k - 53);
    assert FIVE_MINUTES * 0x20_0000_0000_0000 == 146_484_375 * TWO_64;
    assert FIVE_MINUTES * (p * 0x20_0000_0000_0000) == p * (FIVE_MINUTES * 0x20_0000_0000_0000);
    assert p * (146_484_375 * TWO_64) == (p * 146_484_375) * TWO_64;
    Wrap64Unique(FIVE_MINUTES * Pow(2, k), 0, p * 146_484_375);
  }

  /** The default five-minute base, for every attempt: exact up to attempt 25 and at thirteen later
      ones; negative at the other attempts up to 53, and zero from 54 on, so an immediate retry. */
  lemma {:induction false} FiveMinuteDelays(attempt: int)
    requires attempt >= 1
    ensures CalculateRetryDelay(attempt, FIVE_MINUTES) == IdealDelay(FIVE_MINUTES, attempt, DAY) <==> IsExactAttempt(attempt)
    ensures attempt <= 53 && !IsExactAttempt(attempt) ==> CalculateRetryDelay(attempt, FIVE_MINUTES) < 0
    ensures attempt >= 54 ==> CalculateRetryDelay(attempt, FIVE_MINUTES) == 0
  {
    var k := attempt - 1;
    hide Pow;
    Wrap64Product(FIVE_MINUTES, Pow(2, k));
    PowerRange(k);
    if attempt >= 26 {
      LateDelay(k);
    }
  }

  lemma {:induction false} PowerRange(k: nat)
    ensures 1 <= Pow(2, k) && (k <= 24 ==> Pow(2, k) <= 0x100_0000) && (k >= 25 ==> 0x200_0000 <= Pow(2, k))
  {
    PowValues();
    PowPositive(2, k);
    if k <= 24 {
      PowMonotone(2, k, 24);
    } else {
      PowMonotone(2, 25, k);
    }
  }

  /** The same delays in nanoseconds: 5 minutes doubled up to attempt 9, then 24 hours. */
  lemma {:induction false} FiveMinuteValues(attempt: int, base: int)
    ensures attempt <= 0 ==> CalculateRetryDelay(attempt, base) == base
    ensures 1 <= attempt <= 9 ==>
              CalculateRetryDelay(attempt, 300_000_000_000) == 300_000_000_000 * Pow(2, attempt - 1) <= 76_800_000_000_000
    ensures 10 <= attempt <= 25 ==> CalculateRetryDelay(attempt, 300_000_000_000) == 86_400_000_000_000
  {
    assert FIVE_MINUTES == 300_000_000_000 && DAY == 86_400_000_000_000;
    if 1 <= attempt <= 25 {
      FiveMinuteDelays(attempt);
      ShortPowers(attempt - 1);
    }
  }

  lemma {:induction false} ShortPowers(k: nat)
    ensures if k <= 8 then Pow(2, k) <= 256 else Pow(2, k) >= 512
  {
    assert Pow(2, 8) == 256 by { PowAdd(2, 4, 4); assert Pow(2, 4) == 16; }
    if k <= 8 {
      PowMonotone(2, k, 8);
    } else {
      PowMonotone(2, 9, k);
    }
  }

  lemma {:induction false} LateDelay(k: nat)
    requires k >= 25
    ensures if IsExactAttempt(k + 1) then FiveMinutesShifted(k) >= DAY else FiveMinutesShifted(k) <= 0
    ensures k <= 52 && !IsExactAttempt(k + 1) ==> FiveMinutesShifted(k) < 0
    ensures k >= 53 ==> FiveMinutesShifted(k) == 0
  {
    hide FiveMinutesShifted;
    if k <= 52 {
      OverflowedDelays(k);
    } else {
      ShiftedToZero(k);
    }
  }

  /** The tripling accumulator of `calculateNextRetryTime`, one wrapped multiplication per failure. */
  function Tripled(k: nat): int {
    if k == 0 then 1 else Wrap64(Tripled(k - 1) * 3)
  }

  function SentEmailDelay(retryCount: nat): int { Wrap64(Tripled(retryCount) * FIVE_MINUTES) }

  lemma {:induction false} TripledIsWrappedPower(k: nat)
    ensures Tripled(k) == Wrap64(Pow(3, k))
  {
    if k > 0 {
      TripledIsWrappedPower(k - 1);
      Wrap64Product(3, Pow(3, k - 1));
    }
  }

  /** The sent-email delay is 3^k * 5 minutes exactly for the first fifteen failures and never after. */
  lemma {:induction false} SentEmailDelayExact(k: nat)
    ensures SentEmailDelay(k) == Pow(3, k) * FIVE_MINUTES <==> k <= 15
  {
    SentEmailDelayWrapped(k);
    SmallPowersOfThree(k);
  }

  lemma {:induction false} SentEmailDelayWrapped(k: nat)
    ensures SentEmailDelay(k) == Wrap64(Pow(3, k) * FIVE_MINUTES)
  {
    TripledIsWrappedPower(k);
    Wrap64Product(FIVE_MINUTES, Pow(3, k));
  }

  lemma {:induction false} SmallPowersOfThree(k: nat)
    ensures 1 <= Pow(3, k)
    ensures k <= 15 <==> Pow(3, k) <= 14_348_907
    ensures k >= 16 <==> Pow(3, k) >= 43_046_721
  {
    PowPositive(3, k);
    PowValues();
    if k <= 15 {
      PowMonotone(3, k, 15);
    } else {
      PowMonotone(3, 16, k);
    }
  }

  /** The same delays in nanoseconds: 5 minutes, 15, 45, 2 hours 15, ... */
  lemma {:induction false} SentEmailDelayValues(k: nat)
    ensures k <= 15 ==> SentEmailDelay(k) == Pow(3, k) * 300_000_000_000
    ensures SentEmailDelay(0) == 300_000_000_000 && SentEmailDelay(1) == 900_000_000_000
    ensures SentEmailDelay(2) == 2_700_000_000_000 && SentEmailDelay(3) == 8_100_000_000_000
  {
    SentEmailDelayExact(k);
    SentEmailDelayExact(0);
    SentEmailDelayExact(1);
    SentEmailDelayExact(2);
    SentEmailDelayExact(3);
    assert Pow(3, 1) == 3 && Pow(3, 2) == 9 && Pow(3, 3) == 27;
  }

  lemma {:induction false} SentEmailDelayIncreasing(j: nat, k: nat)
    requires j < k <= 15
    ensures SentEmailDelay(j) < SentEmailDelay(k)
  {
    hide SentEmailDelay, Pow;
    SentEmailDelayExact(j);
    SentEmailDelayExact(k);
    PowerOfThreeIncreasing(j, k);
  }

  lemma {:induction false} PowerOfThreeIncreasing(j: nat, k: nat)
    requires j < k
    ensures Pow(3, j) < Pow(3, k)
  {
    PowMonotone(3, j + 1, k);
    PowPositive(3, j);
  }
}
