/** Integer and text conversions of `m2mstring.cpp` and of the C library calls they are read back with. */
module M2MString {
  import opened Bytes

  const TWO_TO_63: int := 0x8000_0000_0000_0000
  const TWO_TO_64: int := 0x1_0000_0000_0000_0000

  /** The range of `int64_t`. */
  predicate Int64(n: int) {
    -TWO_TO_63 <= n < TWO_TO_63
  }

  /** Conversion to `int64_t`: the representative of `n` modulo 2^64. */
  function AsInt64(n: int): (r: int)
    ensures Int64(r)
    ensures Int64(n) ==> r == n
  {
    (n + TWO_TO_63) % TWO_TO_64 - TWO_TO_63
  }

  // ----- decimal text

  /** Decimal digits of a natural number, most significant first. */
  function Digits(n: nat): (t: Text)
    ensures t != []
  {
    if n < 10 then [ZERO + n] else Digits(n / 10) + [ZERO + n % 10]
  }

  /** Signed decimal text without leading zeros or plus sign. */
  function Decimal(n: int): (t: Text)
    ensures t != []
  {
    if n < 0 then [MINUS] + Digits(-n) else Digits(n)
  }

  predicate IsDigit(c: byte) {
    ZERO <= c <= ZERO + 9
  }

  predicate AllDigits(t: Text) {
    forall i :: 0 <= i < |t| ==> IsDigit(t[i])
  }

  /** The number a run of digits denotes. */
  function DigitsValue(t: Text): (n: nat)
    requires AllDigits(t)
  {
    if t == [] then 0 else DigitsValue(t[..|t| - 1]) * 10 + (t[|t| - 1] - ZERO)
  }

  function DigitPrefix(t: Text): (p: Text)
    ensures AllDigits(p)
  {
    if t == [] || !IsDigit(t[0]) then [] else [t[0]] + DigitPrefix(t[1..])
  }

  function SkipSpaces(t: Text): (text: Text) {
    if t != [] && (t[0] == 32 || 9 <= t[0] <= 13) then SkipSpaces(t[1..]) else t
  }

  /** The C library's `atoll`: white space, an optional sign, then digits up to the first other byte. */
  function Atoll(t: Text): (n: int) {
    var u := SkipSpaces(t);
    if u != [] && u[0] == MINUS then 0 - DigitsValue(DigitPrefix(u[1..]))
    else if u != [] && u[0] == PLUS then 0 + DigitsValue(DigitPrefix(u[1..]))
    else 0 + DigitsValue(DigitPrefix(u))
  }

  predicate IsSpace(c: byte) {
    c == 32 || 9 <= c <= 13
  }

  lemma {:induction false} SpacesSkipped(spaces: Text, t: Text)
    requires (forall i :: 0 <= i < |spaces| ==> IsSpace(spaces[i])) && (t != [] ==> !IsSpace(t[0]))
    ensures SkipSpaces(spaces + t) == t
    decreases |spaces|
  {
    if spaces == [] {
      assert spaces + t == t;
    } else {
      assert (spaces + t)[1..] == spaces[1..] + t;
      SpacesSkipped(spaces[1..], t);
    }
  }

  lemma {:induction false} PrefixRead(digits: Text, rest: Text)
    requires AllDigits(digits) && (rest != [] ==> !IsDigit(rest[0]))
    ensures DigitPrefix(digits + rest) == digits
    decreases |digits|
  {
    if digits == [] {
      assert digits + rest == rest;
    } else {
      assert (digits + rest)[1..] == digits[1..] + rest;
      PrefixRead(digits[1..], rest);
    }
  }

  /** What `atoll` reads: the digits after white space and a sign, up to the first byte that is none. */
  lemma AtollReads(spaces: Text, sign: Text, digits: Text, rest: Text)
    requires forall i :: 0 <= i < |spaces| ==> IsSpace(spaces[i])
    requires sign == [] || sign == [PLUS] || sign == [MINUS]
    requires digits != [] && AllDigits(digits) && (rest != [] ==> !IsDigit(rest[0]))
    ensures Atoll(spaces + (sign + (digits + rest))) == if sign == [MINUS] then 0 - DigitsValue(digits) else 0 + DigitsValue(digits)
  {
    hide DigitsValue;
    var number := digits + rest;
    var t := sign + number;
    assert IsDigit(number[0]);
    assert sign == [] ==> t == number;
    assert sign != [] ==> t[0] == sign[0] && t[1..] == number;
    SpacesSkipped(spaces, t);
    PrefixRead(digits, rest);
  }

  lemma {:induction false} DigitsDenote(n: nat)
    ensures AllDigits(Digits(n))
    ensures DigitsValue(Digits(n)) == n
  {
    if n >= 10 {
      DigitsDenote(n / 10);
      var t := Digits(n);
      assert t[..|t| - 1] == Digits(n / 10);
    } else {
      assert Digits(n)[..0] == [];
    }
  }

  lemma {:induction false} DigitPrefixOfDigits(t: Text)
    requires AllDigits(t)
    ensures DigitPrefix(t) == t
  {
    if t != [] {
      DigitPrefixOfDigits(t[1..]);
    }
  }

  /** Decimal parsing inverts decimal printing, for every integer. */
  lemma AtollInvertsDecimal(n: int)
    ensures Atoll(Decimal(n)) == n
  {
    var m := if n < 0 then -n else n;
    DigitsDenote(m);
    DigitPrefixOfDigits(Digits(m));
    assert IsDigit(Digits(m)[0]);
    if n < 0 {
      assert Decimal(n)[1..] == Digits(m);
    }
  }

  function Pow10(k: nat): (n: nat) {
    if k == 0 then 1 else 10 * Pow10(k - 1)
  }

  lemma {:induction false} DigitsLength(n: nat, k: nat)
    requires k > 0 && n < Pow10(k)
    ensures |Digits(n)| <= k
  {
    if n >= 10 {
      DigitsLength(n / 10, k - 1);
    }
  }

  /** Every 64-bit integer fits 20 characters, so 21 bytes with the terminator. */
  lemma DecimalLength(n: int)
    requires Int64(n)
    ensures |Decimal(n)| <= 20
  {
    Pow10Of19();
    DigitsLength(if n < 0 then -n else n, 19);
  }

  lemma Pow10Of19()
    ensures Pow10(19) == 10_000_000_000_000_000_000
  {
    assert Pow10(4) == 10_000;
    assert Pow10(8) == 100_000_000;
    assert Pow10(12) == 1_000_000_000_000;
    assert Pow10(16) == 10_000_000_000_000_000;
  }

  function Reversed(s: Text): (r: Text)
    ensures |r| == |s|
  {
    seq(|s|, i requires 0 <= i < |s| => s[|s| - 1 - i])
  }

  /** C's remainder by ten, which takes the sign of the dividend. */
  function RemainderByTen(n: int): (r: int)
    ensures -10 < r < 10 && (n >= 0 ==> r == n % 10)
  {
    if n >= 0 then n % 10 else -((-n) % 10)
  }

  function QuotientByTen(n: int): (q: int)
    ensures (n >= 0 ==> q == n / 10) && (n < 0 ==> q <= 0)
  {
    if n >= 0 then n / 10 else -((-n) / 10)
  }

  /** What the printing loop writes: least significant digit first, and one character for a negative number. */
  function DigitsUpwards(n: int): (t: Text)
    ensures t != []
  {
    if n < 10 then [ZERO + RemainderByTen(n)] else [ZERO + n % 10] + DigitsUpwards(n / 10)
  }

  lemma {:induction false} UpwardsIsReversed(n: nat)
    ensures |DigitsUpwards(n)| == |Digits(n)|
    ensures Reversed(DigitsUpwards(n)) == Digits(n)
  {
    if n >= 10 {
      UpwardsIsReversed(n / 10);
      ReversedCons(ZERO + n % 10, DigitsUpwards(n / 10));
    }
  }

  lemma ReversedCons(c: byte, t: Text)
    ensures Reversed([c] + t) == Reversed(t) + [c]
  {
    var s := [c] + t;
    forall i | 0 <= i < |s|
      ensures Reversed(s)[i] == (Reversed(t) + [c])[i]
    {
    }
  }

  /** `reverse`: swaps the first `length` characters end for end in place. */
  method Reverse(s: array<byte>, length: nat)
    requires 0 < length <= s.Length
    modifies s
    ensures s[..length] == Reversed(old(s[..length]))
    ensures s[length..] == old(s[length..])
  {
    var i, j := 0, length - 1;
    while i < j
      invariant 0 <= i <= j + 1 && j == length - 1 - i
      invariant forall k :: 0 <= k < i || j < k < length ==> s[k] == old(s[length - 1 - k])
      invariant forall k :: i <= k <= j || length <= k < s.Length ==> s[k] == old(s[k])
    {
      var c := s[i];
      s[i] := s[j];
      s[j] := c;
      i, j := i + 1, j - 1;
    }
  }

  /** What `n = -n` leaves: the smallest integer is its own negation in two's complement. */
  function Negated(n: int): (r: int)
    requires Int64(n)
    ensures Int64(r) && (r == -n <==> n != -TWO_TO_63)
  {
    AsInt64(-n)
  }

  /** What `itoa_c` prints: the signed decimal, except for the smallest integer. */
  function Printed(n: int): (t: Text)
    requires Int64(n)
    ensures n != -TWO_TO_63 ==> t == Decimal(n)
  {
    if n == -TWO_TO_63 then [MINUS, ZERO - 8] else Decimal(n)
  }

  /** Reading back what was printed gives the integer exactly unless it is the smallest. */
  lemma PrintedExactly(n: int)
    requires Int64(n)
    ensures Atoll(Printed(n)) == n <==> n != -TWO_TO_63
    ensures |Printed(n)| <= 20
  {
    DecimalLength(n);
    AtollInvertsDecimal(n);
  }

  /** `itoa_c`: writes the text and a terminating zero, and returns its length. */
  method ItoaC(n: int, s: array<byte>) returns (length: nat)
    requires Int64(n)
    requires s.Length >= 21
    modifies s
    ensures length == |Printed(n)| <= 20
    ensures s[..length] == Printed(n)
    ensures s[length] == NUL
  {
    hide DigitsUpwards, Decimal, Reversed;
    var m := if n < 0 then Negated(n) else n;
    PrintedReversed(n);
    var i := WriteDigits(m, s);
    if n < 0 {
      s[i] := MINUS;
      i := i + 1;
    }
    s[i] := NUL;
    assert s[..i] == if n < 0 then DigitsUpwards(m) + [MINUS] else DigitsUpwards(m);
    ghost var tail := s[i..];
    assert tail[0] == NUL;
    Reverse(s, i);
    assert s[i] == s[i..][0];
    length := i;
  }

  lemma PrintedReversed(n: int)
    requires Int64(n)
    ensures var up := DigitsUpwards(if n < 0 then Negated(n) else n);
            var all := if n < 0 then up + [MINUS] else up;
            Reversed(all) == Printed(n) && |all| == |Printed(n)| <= 20
  {
    hide DigitsUpwards, Reversed, Negated, Digits;
    if n == -TWO_TO_63 {
      SmallestUpwards();
    } else {
      DecimalLength(n);
      UpwardsIsReversed(if n < 0 then -n else n);
      if n < 0 {
        SignFirst(DigitsUpwards(-n));
      }
    }
  }

  lemma SmallestUpwards()
    ensures Negated(-TWO_TO_63) == -TWO_TO_63
    ensures DigitsUpwards(-TWO_TO_63) == [ZERO - 8]
    ensures Reversed([ZERO - 8] + [MINUS]) == [MINUS, ZERO - 8]
  {
  }

  /** The `do`-`while` loop of `itoa_c`. */
  method WriteDigits(n: int, s: array<byte>) returns (i: nat)
    requires |DigitsUpwards(n)| <= s.Length
    modifies s
    ensures i == |DigitsUpwards(n)|
    ensures s[..i] == DigitsUpwards(n)
  {
    hide DigitsUpwards;
    ghost var all := DigitsUpwards(n);
    var m := n;
    i := 0;
    var more := true;
    while more
      invariant 0 <= i <= |all| && s[..i] == all[..i]
      invariant if more then all[i..] == DigitsUpwards(m) else i == |all|
      decreases more, if m < 0 then 0 else m
    {
      UpwardsStep(all, i, m);
      s[i] := RemainderByTen(m) + ZERO;
      i := i + 1;
      m := QuotientByTen(m);
      more := m > 0;
    }
  }

  lemma UpwardsStep(all: Text, i: nat, m: int)
    requires i <= |all| && all[i..] == DigitsUpwards(m)
    ensures i < |all| && all[i] == ZERO + RemainderByTen(m) && all[..i + 1] == all[..i] + [all[i]]
    ensures if QuotientByTen(m) > 0 then all[i + 1..] == DigitsUpwards(QuotientByTen(m)) else i + 1 == |all|
  {
    var rest := all[i..];
    assert rest[0] == all[i] && all[i + 1..] == rest[1..];
  }

  lemma SignFirst(up: Text)
    ensures Reversed(up + [MINUS]) == [MINUS] + Reversed(up)
  {
    forall i | 0 <= i < |up| + 1
      ensures Reversed(up + [MINUS])[i] == ([MINUS] + Reversed(up))[i]
    {
    }
  }

  // ----- big-endian bytes

  function Pow256(k: nat): (p: nat)
    ensures p > 0
  {
    if k == 0 then 1 else 256 * Pow256(k - 1)
  }

  lemma Pow256Values()
    ensures Pow256(1) == 0x100
    ensures Pow256(2) == 0x1_0000
    ensures Pow256(3) == 0x100_0000
    ensures Pow256(4) == 0x1_0000_0000
    ensures Pow256(5) == 0x100_0000_0000
    ensures Pow256(6) == 0x1_0000_0000_0000
    ensures Pow256(7) == 0x100_0000_0000_0000
    ensures Pow256(8) == TWO_TO_64
  {
    assert Pow256(2) == 0x1_0000;
    assert Pow256(4) == 0x1_0000_0000;
    assert Pow256(6) == 0x1_0000_0000_0000;
  }

  /** The unsigned number that big-endian bytes denote. */
  function BigEndian(s: seq<byte>): (n: nat) {
    if s == [] then 0 else s[0] * Pow256(|s| - 1) + BigEndian(s[1..])
  }

  /** The low `size` bytes of a two's-complement integer, most significant first. */
  function LowBytes(v: int, size: nat): (s: seq<byte>)
    ensures |s| == size
  {
    seq(size, i requires 0 <= i < size => v / Pow256(size - 1 - i) % 256)
  }

  lemma DivModUnique(x: int, d: int, q: int, r: int)
    requires 0 <= r < d && x == q * d + r
    ensures x / d == q && x % d == r
  {
    var q', r' := x / d, x % d;
    assert x == q' * d + r';
    assert (q - q') * d == r' - r && (q' - q) * d == r - r';
    if q' < q {
      MulAtLeast(q - q', d);
    } else if q' > q {
      MulAtLeast(q' - q, d);
    }
  }

  lemma MulAtLeast(k: int, d: int)
    requires k >= 1 && d > 0
    ensures k * d >= d
  {
  }

  lemma Distribute(a: int, b: int, p: int)
    ensures (256 * a + b) * p == a * (256 * p) + b * p
  {
  }

  lemma MulMonotone(a: nat, b: nat, p: nat)
    requires a <= b
    ensures a * p <= b * p
  {
  }

  lemma ModOfProduct(v: int, p: int)
    requires p > 0
    ensures v % (256 * p) == (v / p % 256) * p + v % p
  {
    var q, r := v / p, v % p;
    var a, b := q / 256, q % 256;
    assert v == (256 * a + b) * p + r;
    Distribute(a, b, p);
    MulMonotone(b, 255, p);
    MulMonotone(0, b, p);
    DivModUnique(v, 256 * p, a, b * p + r);
  }

  /** Reading `size` low bytes back gives the integer modulo 256^size. */
  lemma {:induction false} BigEndianOfLowBytes(v: int, size: nat)
    ensures BigEndian(LowBytes(v, size)) == v % Pow256(size)
  {
    if size > 0 {
      BigEndianOfLowBytes(v, size - 1);
      assert LowBytes(v, size)[1..] == LowBytes(v, size - 1);
      ModOfProduct(v, Pow256(size - 1));
    }
  }

  /** How many bytes `convert_integer_to_array` uses. */
  function ArraySize(v: int): (size: nat)
    requires Int64(v)
    ensures 1 <= size <= 8
    ensures v < 0 ==> size == 1
    ensures v >= 0 ==> v < Pow256(size)
  {
    Pow256Values();
    if v < 0xFF then 1
    else if v < 0xFFFF then 2
    else if v < 0xFF_FFFF then 3
    else if v < 0xFFFF_FFFF then 4
    else if v < 0xFF_FFFF_FFFF then 5
    else if v < 0xFFFF_FFFF_FFFF then 6
    else if v < 0xFF_FFFF_FFFF_FFFF then 7
    else 8
  }

  /** The fewest bytes that hold the integer with all their bits set only at the full width. */
  lemma ArraySizeExactly(v: int, k: nat)
    requires Int64(v) && 1 <= k <= 8
    ensures ArraySize(v) == k <==> (k > 1 ==> v >= Pow256(k - 1) - 1) && (k < 8 ==> v < Pow256(k) - 1)
  {
    Pow256Values();
  }

  /**
   * `convert_integer_to_array`: the shortest big-endian array by the source's thresholds.
   * When `bytes` is given the value is read from it first.
   */
  method ConvertIntegerToArray(value: int, bytes: Option<seq<byte>>) returns (buffer: seq<byte>)
    requires Int64(value)
    ensures bytes.None? ==> buffer == LowBytes(value, ArraySize(value))
    ensures bytes.Some? ==> var v := AsInt64(BigEndian(bytes.value)); buffer == LowBytes(v, ArraySize(v))
  {
    var v := value;
    if bytes.Some? {
      v := ConvertArrayToInteger(bytes.value);
    }
    var size := ArraySize(v);
    buffer := [];
    for i := 0 to size
      invariant |buffer| == i
      invariant forall k :: 0 <= k < i ==> buffer[k] == v / Pow256(size - 1 - k) % 256
    {
      buffer := buffer + [v / Pow256(size - i - 1) % 256];
    }
  }

  /** `convert_array_to_integer`: sums shifted bytes in 64-bit arithmetic. */
  method ConvertArrayToInteger(value: seq<byte>) returns (r: int)
    ensures r == AsInt64(BigEndian(value))
  {
    r := 0;
    var p := 0;
    var i := |value| - 1;
    assert value[0..] == value;
    while i >= 0
      invariant p + i == |value| - 1 && 0 <= p <= |value|
      invariant Int64(r)
      invariant AsInt64(r + BigEndian(value[p..])) == AsInt64(BigEndian(value))
    {
      Absorb(r, value[p] * Pow256(i), BigEndian(value[p + 1..]));
      assert value[p..][1..] == value[p + 1..];
      r := AsInt64(r + value[p] * Pow256(i) % TWO_TO_64);
      p, i := p + 1, i - 1;
    }
    assert value[p..] == [];
  }

  lemma Absorb(a: int, x: nat, r: int)
    ensures AsInt64(AsInt64(a + x % TWO_TO_64) + r) == AsInt64(a + x + r)
  {
  }

  /** What reading back the array that `convert_integer_to_array` produced gives. */
  lemma ArrayRoundTrip(v: int)
    requires Int64(v)
    ensures BigEndian(LowBytes(v, ArraySize(v))) == if v < 0 then v % 256 else v
    ensures AsInt64(BigEndian(LowBytes(v, ArraySize(v)))) == v <==> v >= 0
  {
    BigEndianOfLowBytes(v, ArraySize(v));
    Pow256Values();
    if v >= 0 {
      DivModUnique(v, Pow256(ArraySize(v)), 0, v);
    }
  }

  /** The eight-byte form the TLV serializer writes is read back unchanged, negative values included. */
  lemma EightByteRoundTrip(v: int)
    requires Int64(v)
    ensures AsInt64(BigEndian(LowBytes(v, 8))) == v
  {
    hide BigEndian, LowBytes, Pow256, AsInt64;
    BigEndianOfLowBytes(v, 8);
    Pow256Values();
    SameResidue(v);
  }

  lemma SameResidue(v: int)
    requires Int64(v)
    ensures AsInt64(v % TWO_TO_64) == v
  {
    var m := if v < 0 then v + TWO_TO_64 else v;
    DivModUnique(v, TWO_TO_64, if v < 0 then -1 else 0, m);
    DivModUnique(m + TWO_TO_63, TWO_TO_64, if v < 0 then 1 else 0, v + TWO_TO_63);
  }
}
