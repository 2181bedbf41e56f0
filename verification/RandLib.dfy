/** The arithmetic of `randLIB.c`: exactly uniform ranges and the randomised base. */
module RandLib {
  import opened Bytes
  import opened M2MString

  // ----- uniform values in a range

  const TWO32 := 0x1_0000_0000
  const RAND_MAX := 0xFFFF_FFFF

  /** `max + 1 - min` in 32 unsigned bits. */
  function Needed(min: nat, max: nat): (n: nat)
    requires min < 0x1_0000 && max < 0x1_0000
    ensures n <= RAND_MAX && (n == 0 <==> min == max + 1)
  {
    if min <= max + 1 then max + 1 - min else TWO32 + max + 1 - min
  }

  function BandSize(min: nat, max: nat): (b: nat)
    requires min < 0x1_0000 && max < 0x1_0000 && min != max + 1
  {
    RAND_MAX / Needed(min, max)
  }

  function TopOfBands(min: nat, max: nat): (t: nat)
    requires min < 0x1_0000 && max < 0x1_0000 && min != max + 1
  {
    BandSize(min, max) * Needed(min, max)
  }

  /** A random value, no usable draw so far, or a division by zero. */
  datatype Random = Value(value: nat) | Exhausted | DividedByZero

  /**
   * `randLIB_get_random_in_range` on the raw 32-bit draws it makes. Nothing keeps a caller from passing a
   * minimum above the maximum.
   */
  method GetRandomInRange(min: nat, max: nat, draws: seq<nat>) returns (result: Random, used: nat)
    requires min < 0x1_0000 && max < 0x1_0000
    requires forall i :: 0 <= i < |draws| ==> draws[i] <= RAND_MAX
    ensures used <= |draws|
    ensures result.DividedByZero? <==> min == max + 1
    ensures min == max ==> result == Value(min) && used == 0
    ensures min <= max && result.Value? ==> min <= result.value <= max
    ensures min < max && result.Value? ==> used > 0 && Gives(min, max, draws[used - 1], result.value)
    ensures min > max + 1 && result.Value? ==>
              used > 0 && result.value == (min + draws[used - 1] % 0x1_0000) % 0x1_0000
    ensures min != max && result.Value? ==> draws[used - 1] < TopOfBands(min, max)
    ensures min != max && min != max + 1 ==>
              forall i :: 0 <= i < (if result.Value? then used - 1 else |draws|) ==> draws[i] >= TopOfBands(min, max)
  {
    if min == max {
      return Value(min), 0;
    }
    if min == max + 1 {
      return DividedByZero, 0;
    }
    hide BandSize, TopOfBands, Gives, Narrowed;
    var bandSize := BandSize(min, max);
    BandIsPositive(min, max);
    var topOfBands := TopOfBands(min, max);
    used := 0;
    while used < |draws|
      invariant used <= |draws|
      invariant forall i :: 0 <= i < used ==> draws[i] >= topOfBands
    {
      var draw := draws[used];
      used := used + 1;
      if draw < topOfBands {
        if min < max {
          InRange(min, max, draw);
        } else {
          Exchanged(min, max, draw);
        }
        return Value(Narrowed(min, draw, bandSize)), used;
      }
    }
    return Exhausted, used;
  }

  /** The offset cast to 16 bits, added to the minimum and returned in 16 bits. */
  function Narrowed(min: nat, draw: nat, bandSize: nat): (v: nat)
    requires bandSize > 0
    ensures v < 0x1_0000
  {
    (min + draw / bandSize % 0x1_0000) % 0x1_0000
  }

  /** The casts lose nothing of a value in range. */
  lemma InRange(min: nat, max: nat, draw: nat)
    requires min < max < 0x1_0000 && draw < TopOfBands(min, max)
    ensures BandSize(min, max) > 0
    ensures var v := Narrowed(min, draw, BandSize(min, max)); min <= v <= max && Gives(min, max, draw, v)
  {
    hide BandSize, TopOfBands;
    BandOf(min, max, draw);
    SmallOffset(min, draw / BandSize(min, max));
  }

  lemma SmallOffset(min: nat, x: nat)
    requires min + x < 0x1_0000
    ensures (min + x % 0x1_0000) % 0x1_0000 == min + x
  {
  }

  /** With the bounds exchanged, every draw is a band of its own. */
  lemma Exchanged(min: nat, max: nat, draw: nat)
    requires max + 1 < min < 0x1_0000
    ensures BandSize(min, max) == 1
    ensures Narrowed(min, draw, 1) == (min + draw % 0x1_0000) % 0x1_0000
  {
    var n := Needed(min, max);
    DivModUnique(RAND_MAX, n, 1, RAND_MAX - n);
  }

  lemma BandIsPositive(min: nat, max: nat)
    requires min < 0x1_0000 && max < 0x1_0000 && min != max + 1
    ensures BandSize(min, max) > 0
  {
    if min <= max {
      TopFits(min, max);
    } else {
      Exchanged(min, max, 0);
    }
  }

  lemma BandOf(min: nat, max: nat, draw: nat)
    requires min < max < 0x1_0000 && draw < TopOfBands(min, max)
    ensures BandSize(min, max) > 0 && draw / BandSize(min, max) <= max - min
  {
    hide BandSize;
    BandIsPositive(min, max);
    DivideBelow(draw, BandSize(min, max), Needed(min, max));
  }

  lemma DivideBelow(x: nat, b: nat, n: nat)
    requires b > 0 && x < b * n
    ensures x / b < n
  {
    var q := x / b;
    if q >= n {
      MulMonotone(n, q, b);
    }
  }

  /** A raw draw gives a value. */
  predicate Gives(min: nat, max: nat, draw: nat, v: nat)
    requires min < max < 0x1_0000
  {
    BandIsPositive(min, max);
    draw < TopOfBands(min, max) && min + draw / BandSize(min, max) == v
  }

  /** The draws that give a value are one band. */
  lemma GivesExactly(min: nat, max: nat, draw: nat, v: nat)
    requires min < max < 0x1_0000 && min <= v <= max
    ensures var b := BandSize(min, max);
            Gives(min, max, draw, v) <==> (v - min) * b <= draw < (v - min) * b + b
  {
    hide BandSize;
    BandIsPositive(min, max);
    var b := BandSize(min, max);
    var lo := (v - min) * b;
    if Gives(min, max, draw, v) {
      assert draw == (draw / b) * b + draw % b;
    }
    if lo <= draw < lo + b {
      DivModUnique(draw, b, v - min, draw - lo);
      BandFits(min, max, v);
    }
  }

  lemma BandFits(min: nat, max: nat, v: nat)
    requires min <= v <= max < 0x1_0000
    ensures (v - min) * BandSize(min, max) + BandSize(min, max) <= TopOfBands(min, max)
  {
    hide BandSize;
    var b := BandSize(min, max);
    MulMonotone(v - min + 1, max + 1 - min, b);
    assert (v - min + 1) * b == (v - min) * b + b;
  }

  lemma TopFits(min: nat, max: nat)
    requires min <= max < 0x1_0000
    ensures TopOfBands(min, max) <= RAND_MAX < TopOfBands(min, max) + Needed(min, max)
  {
    var n := Needed(min, max);
    assert RAND_MAX == (RAND_MAX / n) * n + RAND_MAX % n;
  }

  /** How many of the raw draws below `n` give a value. */
  function CountGiving(min: nat, max: nat, v: nat, n: nat): (count: nat)
    requires min < max < 0x1_0000
  {
    if n == 0 then 0
    else CountGiving(min, max, v, n - 1) + if Gives(min, max, n - 1, v) then 1 else 0
  }

  /** How many of the raw draws below `n` are rolled again. */
  function CountRerolled(min: nat, max: nat, n: nat): (c: nat)
    requires min <= max < 0x1_0000
  {
    if n == 0 then 0
    else CountRerolled(min, max, n - 1) + if n - 1 >= TopOfBands(min, max) then 1 else 0
  }

  lemma {:induction false} CountsBand(min: nat, max: nat, v: nat, n: nat)
    requires min < max < 0x1_0000 && min <= v <= max
    ensures var b := BandSize(min, max);
            var lo := (v - min) * b;
            CountGiving(min, max, v, n) == if n <= lo then 0 else if n <= lo + b then n - lo else b
    decreases n
  {
    hide Gives, BandSize;
    if n > 0 {
      CountsBand(min, max, v, n - 1);
      GivesExactly(min, max, n - 1, v);
    }
  }

  lemma {:induction false} CountsRerolled(min: nat, max: nat, n: nat)
    requires min <= max < 0x1_0000
    ensures CountRerolled(min, max, n) == if n <= TopOfBands(min, max) then 0 else n - TopOfBands(min, max)
    decreases n
  {
    hide TopOfBands;
    if n > 0 {
      CountsRerolled(min, max, n - 1);
    }
  }

  /**
   * Exactly `BandSize` of the 2^32 raw draws give each value of the range, and at most as many
   * draws as there are values are rolled again.
   */
  lemma UniformExactly(min: nat, max: nat, v: nat)
    requires min < max < 0x1_0000 && min <= v <= max
    ensures CountGiving(min, max, v, TWO32) == BandSize(min, max)
    ensures CountRerolled(min, max, TWO32) <= max - min + 1
  {
    hide CountGiving, CountRerolled, BandSize, TopOfBands;
    CountsBand(min, max, v, TWO32);
    CountsRerolled(min, max, TWO32);
    TopFits(min, max);
    BandFits(min, max, v);
  }

  // ----- the randomised base

  /** The base times a factor in units of 2^-15, rounded down and saturated at 32 bits. */
  function Scaled(base: nat, factor: nat): (n: nat) {
    var t := base * factor / 0x8000;
    if t < TWO32 then t else TWO32 - 1
  }

  /** The arithmetic of `randLIB_randomise_base` in 32-bit words. */
  function Scale(base: nat, factor: nat): (n: nat) {
    var hi := base / 0x1_0000 * factor % TWO32;
    var lo := base % 0x1_0000 * factor % TWO32;
    var res := (hi + lo / 0x1_0000) % TWO32;
    if res >= 0x8000_0000 then TWO32 - 1 else (res * 2 % TWO32) + lo / 0x8000 % 2
  }

  lemma ProductBound(a: nat, f: nat)
    requires a < 0x1_0000 && f < 0x1_0000
    ensures a * f <= 0xFFFF * 0xFFFF
  {
    MulMonotone(a, 0xFFFF, f);
    MulMonotone(f, 0xFFFF, 0xFFFF);
  }

  /** The two partial products make up the whole product. */
  lemma SplitProduct(base: nat, f: nat)
    ensures base * f == base / 0x1_0000 * f * 0x1_0000 + base % 0x1_0000 * f
  {
    var h, l := base / 0x1_0000, base % 0x1_0000;
    assert base == h * 0x1_0000 + l;
    assert (h * 0x1_0000 + l) * f == h * f * 0x1_0000 + l * f;
  }

  lemma ShiftedSum(hi: nat, lo: nat)
    ensures (hi * 0x1_0000 + lo) / 0x8000 == 2 * (hi + lo / 0x1_0000) + lo / 0x8000 % 2
  {
    var h, l := lo / 0x1_0000, lo % 0x1_0000;
    var bit := if l >= 0x8000 then 1 else 0;
    DivModUnique(lo, 0x8000, 2 * h + bit, l - 0x8000 * bit);
    DivModUnique(hi * 0x1_0000 + lo, 0x8000, 2 * (hi + h) + bit, l - 0x8000 * bit);
  }

  lemma HighBound(hi: nat, lo: nat)
    requires hi <= 0xFFFF * 0xFFFF && lo <= 0xFFFF * 0xFFFF
    ensures hi + lo / 0x1_0000 < TWO32
  {
  }

  lemma SmallModulus(x: nat)
    requires x < TWO32
    ensures x % TWO32 == x
  {
  }

  /** The word arithmetic on the partial products, when nothing overflows. */
  lemma WordsAreExact(hi: nat, lo: nat)
    requires hi < TWO32 && lo < TWO32 && hi + lo / 0x1_0000 < TWO32
    ensures var t := (hi * 0x1_0000 + lo) / 0x8000;
            var res := (hi % TWO32 + lo % TWO32 / 0x1_0000) % TWO32;
            (if res >= 0x8000_0000 then TWO32 - 1 else (res * 2 % TWO32) + lo % TWO32 / 0x8000 % 2) ==
            (if t < TWO32 then t else TWO32 - 1)
  {
    ShiftedSum(hi, lo);
    var res := hi + lo / 0x1_0000;
    SmallModulus(hi);
    SmallModulus(lo);
    SmallModulus(res);
    if res < 0x8000_0000 {
      SmallModulus(res * 2);
    }
  }

  /** The split multiplication never overflows, and the result is the scaled base, saturated. */
  lemma ScaleIsExact(base: nat, factor: nat)
    requires base < TWO32 && factor < 0x1_0000
    ensures base / 0x1_0000 * factor < TWO32 && base % 0x1_0000 * factor < TWO32
    ensures base / 0x1_0000 * factor + base % 0x1_0000 * factor / 0x1_0000 < TWO32
    ensures Scale(base, factor) == Scaled(base, factor)
  {
    var h, l := base / 0x1_0000, base % 0x1_0000;
    var hi, lo := h * factor, l * factor;
    ProductBound(h, factor);
    ProductBound(l, factor);
    HighBound(hi, lo);
    SplitProduct(base, factor);
    WordsAreExact(hi, lo);
  }

  /** The factor is the minimum of an empty range, or comes from the first draw that is not rolled again. */
  predicate FactorOf(min: nat, max: nat, draws: seq<nat>, f: nat)
    requires min < 0x1_0000 && max < 0x1_0000 && min != max + 1
  {
    if min == max then f == min
    else exists i ::
      && 0 <= i < |draws| && draws[i] < TopOfBands(min, max)
      && (forall j :: 0 <= j < i ==> draws[j] >= TopOfBands(min, max))
      && if min < max then Gives(min, max, draws[i], f) else f == (min + draws[i] % 0x1_0000) % 0x1_0000
  }

  /** `randLIB_randomise_base`: the base scaled by a random factor from the range. */
  method RandomiseBase(base: nat, minFactor: nat, maxFactor: nat, draws: seq<nat>) returns (result: Random)
    requires base < TWO32 && minFactor < 0x1_0000 && maxFactor < 0x1_0000
    requires forall i :: 0 <= i < |draws| ==> draws[i] <= RAND_MAX
    ensures result.DividedByZero? <==> minFactor == maxFactor + 1
    ensures result.Value? ==> exists f: nat ::
              && f < 0x1_0000 && (minFactor <= maxFactor ==> minFactor <= f <= maxFactor)
              && FactorOf(minFactor, maxFactor, draws, f) && result.value == Scaled(base, f)
    ensures result.Exhausted? ==>
              minFactor != maxFactor && forall i :: 0 <= i < |draws| ==> draws[i] >= TopOfBands(minFactor, maxFactor)
  {
    hide TopOfBands, Gives, Scale, Scaled;
    var factor, used := GetRandomInRange(minFactor, maxFactor, draws);
    if !factor.Value? {
      return factor;
    }
    assert FactorOf(minFactor, maxFactor, draws, factor.value) by {
      if minFactor != maxFactor {
        assert draws[used - 1] < TopOfBands(minFactor, maxFactor);
      }
    }
    ScaleIsExact(base, factor.value);
    return Value(Scale(base, factor.value));
  }
}
