/** Capped exponential backoff over the reals. */
module Retry {

  datatype RetryPolicy = RetryPolicy(
    maxAttempts: int, baseDelaySeconds: real, maximumDelaySeconds: real, multiplier: real)
  {
    /** What __post_init__ accepts. */
    predicate Valid() {
      && maxAttempts >= 1
      && 0.0 < baseDelaySeconds <= maximumDelaySeconds
      && multiplier >= 1.0
    }
  }

  function Pow(base: real, exponent: nat): (power: real)
    ensures base > 0.0 ==> power > 0.0
  {
    if exponent == 0 then 1.0 else base * Pow(base, exponent - 1)
  }

  // ---------------------------------------------------------------- doubles

  const EXACT_INTEGERS := 0x20_0000_0000_0000  // 2^53

  /** The distance of the doubles around an integer, at least 1. */
  function Unit(n: nat): (unit: nat)
    ensures unit >= 1
  {
    if n < EXACT_INTEGERS then 1 else 2 * Unit(n / 2)
  }

  /** `n` rounded to a multiple of `unit`, halves to even. */
  function RoundTo(n: nat, unit: nat): nat
    requires unit >= 1
  {
    var low, rest := n / unit, n % unit;
    if 2 * rest < unit || (2 * rest == unit && low % 2 == 0) then low * unit else (low + 1) * unit
  }

  /** An integer exponent becomes a double before `**`. */
  function NearestDouble(n: nat): nat {
    RoundTo(n, Unit(n))
  }

  /** From halfway between the largest double and 2^1024 on, a number rounds to infinity. */
  predicate BeyondDoubles(x: real) {
    x >= Pow(2.0, 1024) - Pow(2.0, 970)
  }

  /** `**` raises OverflowError when the exponent has no double, or when the power has none. */
  predicate PowerOverflows(multiplier: real, exponent: nat) {
    BeyondDoubles(exponent as real) || BeyondDoubles(Pow(multiplier, NearestDouble(exponent)))
  }

  lemma {:induction false} UnitBounds(n: nat)
    ensures n < EXACT_INTEGERS * Unit(n)
    ensures Unit(n) > 1 ==> EXACT_INTEGERS * Unit(n) <= 2 * n
    decreases n
  {
    if n >= EXACT_INTEGERS {
      UnitBounds(n / 2);
    }
  }

  lemma {:induction false} UnitGrows(low: nat, high: nat)
    requires low <= high
    ensures Unit(low) == Unit(high) || 2 * Unit(low) <= Unit(high)
    decreases high
  {
    if low >= EXACT_INTEGERS {
      UnitGrows(low / 2, high / 2);
    } else if high >= EXACT_INTEGERS {
      assert Unit(high) == 2 * Unit(high / 2);
    }
  }

  /** The rounded number is the multiple below or the one above, whichever is nearer. */
  lemma RoundToNearest(n: nat, unit: nat)
    requires unit >= 1
    ensures var r := RoundTo(n, unit);
            && 2 * n - unit <= 2 * r <= 2 * n + unit
            && (r == n / unit * unit || r == (n / unit + 1) * unit)
  {
    assert n == n / unit * unit + n % unit;
    assert (n / unit + 1) * unit == n / unit * unit + unit;
  }

  lemma MultipleGrows(a: int, b: int, factor: int)
    requires a <= b && factor >= 0
    ensures a * factor <= b * factor
  {
  }

  lemma LessMultiple(a: int, b: int, factor: int)
    requires a * factor < b * factor && factor >= 0
    ensures a < b
  {
    if a >= b {
      MultipleGrows(b, a, factor);
    }
  }

  lemma QuotientGrows(low: nat, high: nat, unit: nat)
    requires unit >= 1 && low <= high
    ensures low / unit <= high / unit
    ensures low / unit == high / unit ==> low % unit <= high % unit
  {
    var p, q := low / unit, high / unit;
    assert low == p * unit + low % unit && high == q * unit + high % unit;
    assert (q + 1) * unit == q * unit + unit;
    LessMultiple(p, q + 1, unit);
  }

  lemma RoundToGrows(low: nat, high: nat, unit: nat)
    requires unit >= 1 && low <= high
    ensures RoundTo(low, unit) <= RoundTo(high, unit)
  {
    QuotientGrows(low, high, unit);
    var p, q := low / unit, high / unit;
    if p < q {
      RoundToNearest(low, unit);
      RoundToNearest(high, unit);
      MultipleGrows(p, p + 1, unit);
      MultipleGrows(p + 1, q, unit);
      MultipleGrows(q, q + 1, unit);
    } else {
      MultipleGrows(p, p + 1, unit);
    }
  }

  /** A multiple of the unit is a bound that rounding respects. */
  lemma RoundToBounded(n: nat, unit: nat, k: nat)
    requires unit >= 1
    ensures n <= k * unit ==> RoundTo(n, unit) <= k * unit
    ensures n >= k * unit ==> RoundTo(n, unit) >= k * unit
  {
    assert RoundTo(k * unit, unit) == k * unit by {
      ExactMultiple(k, unit);
    }
    if n <= k * unit {
      RoundToGrows(n, k * unit, unit);
    }
    if n >= k * unit {
      RoundToGrows(k * unit, n, unit);
    }
  }

  lemma ExactMultiple(k: nat, unit: nat)
    requires unit >= 1
    ensures k * unit / unit == k && k * unit % unit == 0
    ensures RoundTo(k * unit, unit) == k * unit
  {
    var n := k * unit;
    assert n == n / unit * unit + n % unit;
    assert (n / unit + 1) * unit == n / unit * unit + unit && (k + 1) * unit == n + unit;
    LessMultiple(k, n / unit + 1, unit);
    LessMultiple(n / unit, k + 1, unit);
  }

  lemma NearestDoubleGrows(low: nat, high: nat)
    requires low <= high
    ensures NearestDouble(low) <= NearestDouble(high)
  {
    var u, v := Unit(low), Unit(high);
    UnitGrows(low, high);
    hide Unit, RoundTo;
    if u == v {
      RoundToGrows(low, high, u);
    } else {
      UnitBounds(low);
      UnitBounds(high);
      RoundToBounded(low, u, EXACT_INTEGERS);
      RoundToBounded(high, v, EXACT_INTEGERS / 2);
    }
  }

  /** Up to 2^53 every integer is a double; beyond, the nearest one is at most half a unit away. */
  lemma {:induction false} NearestDoubleIsNear(n: nat)
    ensures n <= EXACT_INTEGERS ==> NearestDouble(n) == n
    ensures 2 * n - Unit(n) <= 2 * NearestDouble(n) <= 2 * n + Unit(n)
  {
    RoundToNearest(n, Unit(n));
    if n < EXACT_INTEGERS {
      ExactMultiple(n, 1);
    } else if n == EXACT_INTEGERS {
      assert Unit(n / 2) == 1;
      ExactMultiple(n / 2, 2);
    }
  }

  function PowerOfTwo(exponent: nat): (power: nat)
    ensures power >= 1
  {
    if exponent == 0 then 1 else 2 * PowerOfTwo(exponent - 1)
  }

  function Scale(m: nat, e: nat): nat {
    m * PowerOfTwo(e)
  }

  /** A whole number with a significand of at most `bits` binary digits. */
  ghost predicate Representable(n: nat, bits: nat) {
    exists m: nat, e: nat :: m < PowerOfTwo(bits) && Scale(m, e) == n
  }

  function Distance(a: int, b: int): nat {
    if a <= b then b - a else a - b
  }

  lemma {:induction false} UnitIsPower(n: nat) returns (e: nat)
    ensures Unit(n) == PowerOfTwo(e)
  {
    if n < EXACT_INTEGERS {
      e := 0;
    } else {
      var half := UnitIsPower(n / 2);
      e := half + 1;
    }
  }

  lemma {:induction false} PowersMultiply(a: nat, b: nat)
    ensures PowerOfTwo(a + b) == PowerOfTwo(a) * PowerOfTwo(b)
  {
    if a > 0 {
      PowersMultiply(a - 1, b);
      Reassociate(2, PowerOfTwo(a - 1), PowerOfTwo(b));
    }
  }

  lemma Reassociate(a: int, b: int, c: int)
    ensures a * b * c == a * (b * c)
  {
  }

  lemma SignificandBits()
    ensures PowerOfTwo(53) == EXACT_INTEGERS && PowerOfTwo(52) == EXACT_INTEGERS / 2
  {
    assert PowerOfTwo(13) == 8192;
    PowersMultiply(13, 13);
    PowersMultiply(26, 26);
  }

  /** A multiple of a power of two, up to the largest significand and the next power of two. */
  lemma {:induction false} MultipleIsRepresentable(m: nat, e: nat, bits: nat)
    requires m <= PowerOfTwo(bits) && PowerOfTwo(bits) > 1
    ensures Representable(m * PowerOfTwo(e), bits)
  {
    hide PowerOfTwo;
    if m < PowerOfTwo(bits) {
      assert Scale(m, e) == m * PowerOfTwo(e);
    } else {
      PowersMultiply(bits, e);
      assert Scale(1, bits + e) == m * PowerOfTwo(e);
    }
  }

  /** `below` is the last multiple of the unit up to `n`, `other` any multiple. */
  lemma NearerOfTwo(n: nat, below: nat, unit: nat, up: bool, other: nat)
    requires below <= n < below + unit
    requires if up then 2 * (n - below) >= unit else 2 * (n - below) <= unit
    requires other + unit <= below || other == below || other >= below + unit
    ensures var r := if up then below + unit else below;
            && Distance(r, n) <= Distance(other, n)
            && (Distance(r, n) == Distance(other, n) && other != r ==> 2 * (n - below) == unit)
  {
  }

  lemma MultiplesApart(k: nat, j: nat, unit: nat)
    ensures k * unit + unit <= j * unit || k == j || k * unit >= j * unit + unit
  {
    assert (k + 1) * unit == k * unit + unit && (j + 1) * unit == j * unit + unit;
    if k < j {
      MultipleGrows(k + 1, j, unit);
    } else if k > j {
      MultipleGrows(j + 1, k, unit);
    }
  }

  /** RoundTo answers the multiple below, or the next one; in the middle, the even one. */
  lemma RoundToCases(n: nat, unit: nat) returns (below: nat, up: bool, j: nat)
    requires unit >= 1
    ensures below == n / unit * unit && below <= n < below + unit
    ensures j == if up then n / unit + 1 else n / unit
    ensures RoundTo(n, unit) == j * unit == if up then below + unit else below
    ensures if up then 2 * (n - below) >= unit else 2 * (n - below) <= unit
    ensures 2 * (n - below) == unit ==> j % 2 == 0
  {
    var low, rest := n / unit, n % unit;
    below := low * unit;
    assert n == below + rest;
    assert (low + 1) * unit == below + unit;
    up := !(2 * rest < unit || (2 * rest == unit && low % 2 == 0));
    j := if up then low + 1 else low;
  }

  /** RoundTo answers the nearest multiple, of two the even one. */
  lemma NearestMultiple(n: nat, unit: nat, k: nat) returns (j: nat)
    requires unit >= 1
    ensures RoundTo(n, unit) == j * unit && j <= n / unit + 1
    ensures Distance(j * unit, n) <= Distance(k * unit, n)
    ensures Distance(j * unit, n) == Distance(k * unit, n) && k * unit != j * unit ==> j % 2 == 0
  {
    hide RoundTo, Distance;
    var below, up, i := RoundToCases(n, unit);
    j := i;
    MultiplesApart(k, n / unit, unit);
    NearerOfTwo(n, below, unit, up, k * unit);
  }

  /** Next to `n` every double is a multiple of the unit, or lies below where the unit begins to hold. */
  lemma DoubleIsMultiple(n: nat, m: nat, e: nat) returns (k: nat)
    requires m < EXACT_INTEGERS
    ensures Scale(m, e) == k * Unit(n) || (Unit(n) > 1 && 2 * Scale(m, e) < EXACT_INTEGERS * Unit(n))
  {
    var u := UnitIsPower(n);
    k := 0;
    if e >= u {
      PowersMultiply(e - u, u);
      k := m * PowerOfTwo(e - u);
      Reassociate(m, PowerOfTwo(e - u), PowerOfTwo(u));
    } else {
      PowersMultiply(u - e - 1, e);
      MultipleGrows(1, PowerOfTwo(u - e - 1), PowerOfTwo(e));
      assert Unit(n) == 2 * PowerOfTwo(u - 1) >= 2 * PowerOfTwo(e);
      StrictMultiple(m, EXACT_INTEGERS, PowerOfTwo(e));
      MultipleGrows(2 * PowerOfTwo(e), Unit(n), EXACT_INTEGERS);
    }
  }

  lemma StrictMultiple(a: int, b: int, factor: int)
    requires a < b && factor >= 1
    ensures a * factor < b * factor
  {
    MultipleGrows(a + 1, b, factor);
    assert (a + 1) * factor == a * factor + factor;
  }

  lemma FartherBelow(n: nat, base: nat, d: nat, r: nat)
    requires d < base <= n && Distance(r, n) <= Distance(base, n)
    ensures Distance(r, n) < Distance(d, n)
  {
  }

  lemma NearerThanBelow(n: nat, unit: nat, d: nat) returns (j: nat)
    requires unit >= 1 && 2 * d < EXACT_INTEGERS * unit <= 2 * n
    ensures RoundTo(n, unit) == j * unit && j <= n / unit + 1
    ensures Distance(j * unit, n) < Distance(d, n)
  {
    hide RoundTo;
    var half := EXACT_INTEGERS / 2;
    j := NearestMultiple(n, unit, half);
    FartherBelow(n, half * unit, d, j * unit);
  }

  lemma NearestOfAll(n: nat, m: nat, e: nat)
    requires m < EXACT_INTEGERS
    ensures var r, d := NearestDouble(n), Scale(m, e);
            && Representable(r, 53)
            && Distance(r, n) <= Distance(d, n)
            && (Distance(r, n) == Distance(d, n) && d != r ==> Representable(r, 52))
  {
    hide PowerOfTwo, Representable, Unit, RoundTo, Scale, Distance;
    var u := UnitIsPower(n);
    var k := DoubleIsMultiple(n, m, e);
    UnitBounds(n);
    if Scale(m, e) == k * Unit(n) {
      var j := NearestMultiple(n, Unit(n), k);
      RoundedIsRepresentable(n, u, j);
    } else {
      var j := NearerThanBelow(n, Unit(n), Scale(m, e));
      RoundedIsRepresentable(n, u, j);
    }
  }

  /**
   The exponent becomes a double of 53 bits that no other is nearer to; of two equally near ones it is the
   one that 52 bits suffice for.
   */
  lemma NearestDoubleIsNearest(n: nat, d: nat)
    requires Representable(d, 53)
    ensures Representable(NearestDouble(n), 53)
    ensures Distance(NearestDouble(n), n) <= Distance(d, n)
    ensures Distance(NearestDouble(n), n) == Distance(d, n) && d != NearestDouble(n) ==>
              Representable(NearestDouble(n), 52)
  {
    SignificandBits();
    var m: nat, e: nat :| m < PowerOfTwo(53) && Scale(m, e) == d;
    hide PowerOfTwo, Scale, NearestDouble, Representable, Distance;
    NearestOfAll(n, m, e);
  }

  lemma QuotientBelow(n: nat, unit: nat, bound: nat)
    requires unit >= 1 && n < bound * unit
    ensures n / unit < bound
  {
    assert n == n / unit * unit + n % unit;
    LessMultiple(n / unit, bound, unit);
  }

  lemma {:induction false} RoundedIsRepresentable(n: nat, u: nat, j: nat)
    requires Unit(n) == PowerOfTwo(u) && j <= n / Unit(n) + 1 && n < EXACT_INTEGERS * Unit(n)
    ensures Representable(j * Unit(n), 53)
    ensures j % 2 == 0 ==> Representable(j * Unit(n), 52)
  {
    SignificandBits();
    assert PowerOfTwo(u + 1) == 2 * PowerOfTwo(u);
    hide PowerOfTwo, Unit, Representable;
    QuotientBelow(n, Unit(n), EXACT_INTEGERS);
    MultipleIsRepresentable(j, u, 53);
    if j % 2 == 0 {
      MultipleIsRepresentable(j / 2, u + 1, 52);
      Reassociate(j / 2, 2, PowerOfTwo(u));
    }
  }

  lemma {:induction false} SomePowers()
    ensures Pow(2.0, 53) == 9_007_199_254_740_992.0
    ensures Pow(2.0, 971) == 2.0 * Pow(2.0, 970)
  {
    assert Pow(2.0, 13) == 8192.0;
    PowersOfTwo(13, 13);
    PowersOfTwo(26, 26);
  }

  /** Beyond the doubles is what is nearer to 2^1024 than to the largest double, or as near. */
  lemma {:induction false} BeyondIsNearerToInfinity(x: real)
    ensures var largest := 9_007_199_254_740_991.0 * Pow(2.0, 971);
            BeyondDoubles(x) <==> x - largest >= Pow(2.0, 1024) - x
  {
    hide Pow;
    SomePowers();
    PowersOfTwo(53, 971);
  }

  lemma {:induction false} PowersOfTwo(a: nat, b: nat)
    ensures Pow(2.0, a + b) == Pow(2.0, a) * Pow(2.0, b)
  {
    if a > 0 {
      PowersOfTwo(a - 1, b);
    }
  }

  // ---------------------------------------------------------------- the delay

  function Cap(delay: real, maximum: real): real {
    if delay <= maximum then delay else maximum
  }

  /** base * multiplier^exponent. */
  function Product(policy: RetryPolicy, exponent: nat): real {
    policy.baseDelaySeconds * Pow(policy.multiplier, exponent)
  }

  function CappedPower(policy: RetryPolicy, exponent: nat): real {
    Cap(Product(policy, exponent), policy.maximumDelaySeconds)
  }

  function DelayForFailure(policy: RetryPolicy, failureNumber: int): real
    requires policy.Valid() && failureNumber >= 1
  {
    if PowerOverflows(policy.multiplier, failureNumber - 1) then policy.maximumDelaySeconds
    else CappedPower(policy, NearestDouble(failureNumber - 1))
  }

  /** base * multiplier^(n-1), capped at the maximum. */
  function CappedExponential(policy: RetryPolicy, failureNumber: int): real
    requires policy.Valid() && failureNumber >= 1
  {
    CappedPower(policy, failureNumber - 1)
  }

  lemma {:induction false} PowGrows(base: real, low: nat, high: nat)
    requires base >= 1.0 && low <= high
    ensures 1.0 <= Pow(base, low) <= Pow(base, high)
    decreases high
  {
    if low < high {
      PowGrows(base, low, high - 1);
      assert Pow(base, high) == base * Pow(base, high - 1);
      Scaled(1.0, base, Pow(base, high - 1));
    } else if low > 0 {
      PowGrows(base, low - 1, high - 1);
      Scaled(1.0, base, Pow(base, high - 1));
    }
  }

  lemma Scaled(a: real, b: real, factor: real)
    requires a <= b && factor >= 0.0
    ensures a * factor <= b * factor
  {
  }

  /** The delay lies between base and maximum, and never shrinks from one failure to a later one. */
  lemma DelayBoundedAndMonotone(policy: RetryPolicy, early: int, late: int)
    requires policy.Valid() && 1 <= early <= late
    ensures policy.baseDelaySeconds <= DelayForFailure(policy, early)
    ensures DelayForFailure(policy, early) <= DelayForFailure(policy, late) <= policy.maximumDelaySeconds
  {
    hide PowerOverflows, CappedPower, NearestDouble;
    NearestDoubleGrows(early - 1, late - 1);
    OverflowGrows(policy.multiplier, early - 1, late - 1);
    CappedGrows(policy, NearestDouble(early - 1), NearestDouble(late - 1));
  }

  lemma OverflowGrows(multiplier: real, low: nat, high: nat)
    requires multiplier >= 1.0 && low <= high
    ensures PowerOverflows(multiplier, low) ==> PowerOverflows(multiplier, high)
  {
    hide Pow, NearestDouble;
    NearestDoubleGrows(low, high);
    PowGrows(multiplier, NearestDouble(low), NearestDouble(high));
  }

  lemma CappedGrows(policy: RetryPolicy, early: nat, late: nat)
    requires policy.Valid() && early <= late
    ensures policy.baseDelaySeconds <= CappedPower(policy, early)
    ensures CappedPower(policy, early) <= CappedPower(policy, late) <= policy.maximumDelaySeconds
  {
    hide Product;
    ProductGrows(policy, early, late);
  }

  lemma ProductGrows(policy: RetryPolicy, early: nat, late: nat)
    requires policy.Valid() && early <= late
    ensures policy.baseDelaySeconds <= Product(policy, early) <= Product(policy, late)
  {
    PowGrows(policy.multiplier, early, late);
    hide Pow;
    Scaled(1.0, Pow(policy.multiplier, early), policy.baseDelaySeconds);
    Scaled(Pow(policy.multiplier, early), Pow(policy.multiplier, late), policy.baseDelaySeconds);
  }

  lemma {:induction false} PowStrict(base: real, low: nat, high: nat)
    requires base > 1.0 && low < high
    ensures Pow(base, low) < Pow(base, high)
  {
    PowGrows(base, low, high - 1);
    var power := Pow(base, high - 1);
    assert Pow(base, high) == base * power;
    StrictlyScaled(1.0, base, power);
  }

  lemma StrictlyScaled(a: real, b: real, factor: real)
    requires a < b && factor > 0.0
    ensures a * factor < b * factor
  {
  }

  lemma SameProduct(policy: RetryPolicy, i: nat, j: nat)
    requires policy.Valid()
    ensures Product(policy, i) == Product(policy, j) <==> i == j || policy.multiplier == 1.0
  {
    var m := policy.multiplier;
    hide Pow;
    if m == 1.0 {
      PowOfOne(i);
      PowOfOne(j);
    } else if i < j {
      PowStrict(m, i, j);
      StrictlyScaled(Pow(m, i), Pow(m, j), policy.baseDelaySeconds);
    } else if j < i {
      PowStrict(m, j, i);
      StrictlyScaled(Pow(m, j), Pow(m, i), policy.baseDelaySeconds);
    }
  }

  /** The product reaches the maximum. */
  predicate Reaches(policy: RetryPolicy, exponent: nat) {
    Product(policy, exponent) >= policy.maximumDelaySeconds
  }

  /** Two capped products are the same when the products are, or when both reach the maximum. */
  lemma SameCappedPower(policy: RetryPolicy, i: nat, j: nat)
    requires policy.Valid()
    ensures CappedPower(policy, i) == CappedPower(policy, j)
            <==> i == j || policy.multiplier == 1.0 || (Reaches(policy, i) && Reaches(policy, j))
  {
    hide Product;
    SameProduct(policy, i, j);
  }

  lemma MaximumWhenReached(policy: RetryPolicy, exponent: nat)
    ensures CappedPower(policy, exponent) == policy.maximumDelaySeconds <==> Reaches(policy, exponent)
  {
    hide Product;
  }

  /**
   When `**` overflows, the answer is the maximum although the product with a small base may still be
   below it; and an exponent that is no double is rounded first. The delay is the capped exponential
   exactly when the product reaches the maximum all the same, or when neither happens: there is no
   overflow, and the exponent is a double or makes no difference.
   */
  lemma {:induction false} DelayIsCappedExponentialIff(policy: RetryPolicy, n: int)
    requires policy.Valid() && n >= 1
    ensures var rounded := NearestDouble(n - 1);
            DelayForFailure(policy, n) == CappedExponential(policy, n)
            <==> if PowerOverflows(policy.multiplier, n - 1) then Reaches(policy, n - 1)
                 else rounded == n - 1 || policy.multiplier == 1.0
                      || (Reaches(policy, n - 1) && Reaches(policy, rounded))
  {
    var rounded := NearestDouble(n - 1);
    hide PowerOverflows, NearestDouble, Reaches, CappedPower;
    SameCappedPower(policy, rounded, n - 1);
    MaximumWhenReached(policy, n - 1);
  }

  /** For failure numbers of up to 2^53 only the overflow matters. */
  lemma {:induction false} SmallFailureNumbers(policy: RetryPolicy, n: int)
    requires policy.Valid() && 1 <= n <= EXACT_INTEGERS + 1
    ensures DelayForFailure(policy, n) == CappedExponential(policy, n)
            <==> !PowerOverflows(policy.multiplier, n - 1) || Reaches(policy, n - 1)
  {
    hide PowerOverflows, NearestDouble, Reaches, CappedPower;
    NearestDoubleIsNear(n - 1);
    DelayIsCappedExponentialIff(policy, n);
  }

  /** A policy whose base is the smallest power of two that still doubles up to 1. */
  lemma OverflowAnswersMaximumTooEarly()
    ensures var policy := RetryPolicy(2000, 1.0 / Pow(2.0, 1024), 2.0, 2.0);
            && policy.Valid()
            && CappedExponential(policy, 1025) == 1.0
            && DelayForFailure(policy, 1025) == 2.0
  {
    PowGrows(2.0, 0, 1024);
    var power := Pow(2.0, 1024);
    Reciprocal(power);
    assert Pow(2.0, 1025 - 1) == power;
    assert BeyondDoubles(power);
    NearestDoubleIsNear(1024);
    hide Pow, BeyondDoubles, NearestDouble;
  }

  lemma {:induction false} PowOfOne(exponent: nat)
    ensures Pow(1.0, exponent) == 1.0
  {
    if exponent > 0 {
      PowOfOne(exponent - 1);
    }
  }

  /** With multiplier 1 every delay is the base, but for a failure number that has no double. */
  lemma {:induction false} HugeFailureNumberAnswersMaximum(n: int)
    requires n >= 1
    ensures var policy := RetryPolicy(n, 1.0, 2.0, 1.0);
            && policy.Valid()
            && CappedExponential(policy, n) == 1.0
            && (DelayForFailure(policy, n) == 2.0 <==> BeyondDoubles((n - 1) as real))
  {
    PowOfOne(n - 1);
    PowOfOne(NearestDouble(n - 1));
    assert !BeyondDoubles(1.0) by {
      PowGrows(2.0, 970, 1023);
      assert Pow(2.0, 1024) == 2.0 * Pow(2.0, 1023);
      PowGrows(2.0, 1, 1023);
    }
    hide BeyondDoubles, Pow, NearestDouble;
  }

  lemma Reciprocal(x: real)
    requires x >= 1.0
    ensures 0.0 < 1.0 / x <= 1.0 && (1.0 / x) * x == 1.0
  {
  }

  // ---------------------------------------------------------------- retry times

  /** timedelta(seconds=...) rounds to microseconds, halves to even. */
  function RoundHalfEven(x: real): int {
    var low := x.Floor;
    var rest := x - low as real;
    if rest < 0.5 || (rest == 0.5 && low % 2 == 0) then low else low + 1
  }

  function DelayMicros(policy: RetryPolicy, failureNumber: int): (micros: nat)
    requires policy.Valid() && failureNumber >= 1
  {
    DelayBoundedAndMonotone(policy, failureNumber, failureNumber);
    RoundHalfEven(DelayForFailure(policy, failureNumber) * 1_000_000.0)
  }

  /** `micros` is the nearest whole number of microseconds to `seconds`, the even one of two. */
  ghost predicate RoundsTo(micros: int, seconds: real) {
    var exact := 1_000_000.0 * seconds;
    && exact - 0.5 <= micros as real <= exact + 0.5
    && (micros as real == exact + 0.5 || micros as real == exact - 0.5 ==> micros % 2 == 0)
  }

  lemma RoundsHalfEven(x: real)
    ensures var r := RoundHalfEven(x);
            && x - 0.5 <= r as real <= x + 0.5
            && (r as real == x + 0.5 || r as real == x - 0.5 ==> r % 2 == 0)
  {
  }

  /** The backoff in microseconds is the delay in seconds, rounded. */
  lemma BackoffIsDelay(policy: RetryPolicy, failureNumber: int)
    requires policy.Valid() && failureNumber >= 1
    ensures RoundsTo(DelayMicros(policy, failureNumber), DelayForFailure(policy, failureNumber))
  {
    hide DelayForFailure;
    RoundsHalfEven(DelayForFailure(policy, failureNumber) * 1_000_000.0);
  }

  /** The first delay is the base, the second one multiplier later, both capped. */
  lemma {:induction false} FirstDelays(policy: RetryPolicy)
    requires policy.Valid()
    ensures CappedExponential(policy, 1) == policy.baseDelaySeconds
    ensures var second := policy.baseDelaySeconds * policy.multiplier;
            CappedExponential(policy, 2) == if second <= policy.maximumDelaySeconds then second
                                            else policy.maximumDelaySeconds
    ensures DelayForFailure(policy, 1) == policy.baseDelaySeconds
  {
    assert Pow(policy.multiplier, 0) == 1.0 && Pow(policy.multiplier, 1) == policy.multiplier * 1.0;
    assert !PowerOverflows(policy.multiplier, 0) by {
      NearestDoubleIsNear(0);
      PowGrows(2.0, 970, 1023);
      assert Pow(2.0, 1024) == 2.0 * Pow(2.0, 1023);
      PowGrows(2.0, 1, 1023);
    }
    NearestDoubleIsNear(0);
    hide PowerOverflows, NearestDouble, Pow;
  }
}
