/** Width computation and bit-string helpers of the loop-control-unit generator:
    `log2`, `ipow`, `dectobin` and `itob`, together with the decimal rendering that
    `printf("%d")` / `printf("%0Nd")` performs on their results.

    Unsigned 32-bit arithmetic is written out explicitly with `WORD`. */
module Bits {

  /** 2^32: the modulus of the source's `unsigned` arithmetic. */
  const WORD: nat := 0x1_0000_0000

  function Pow2(k: nat): (r: nat)
    ensures r >= 1
  {
    if k == 0 then 1 else 2 * Pow2(k - 1)
  }

  /** x^y over the unbounded integers (the reference for `ipow`). */
  function Pow(x: nat, y: nat): nat
  {
    if y == 0 then 1 else Pow(x, y - 1) * x
  }

  /** Bit k of v (bit 0 is the least significant). */
  function Bit(v: nat, k: nat): (b: nat)
    ensures b <= 1
  {
    if k == 0 then v % 2 else Bit(v / 2, k - 1)
  }

  // ---------------------------------------------------------------------------
  // Division facts used throughout
  // ---------------------------------------------------------------------------

  lemma MulAtLeast(a: int, d: int)
    requires a >= 1 && d > 0
    ensures a * d >= d
  {
  }

  /** Quotient and remainder are unique. */
  lemma DivModUnique(v: int, d: int, q: int, r: int)
    requires d > 0 && 0 <= r < d && v == q * d + r
    ensures v / d == q && v % d == r
  {
    var q', r' := v / d, v % d;
    assert v == q' * d + r';
    assert (q - q') * d == r' - r;
    if q > q' {
      MulAtLeast(q - q', d);
    } else if q < q' {
      MulAtLeast(q' - q, d);
    }
  }

  lemma DivDiv(v: nat, a: nat, b: nat)
    requires a > 0 && b > 0
    ensures v / a / b == v / (a * b)
  {
    var q := v / a / b;
    var r := (v / a) % b;
    var s := v % a;
    assert v / a == q * b + r;
    assert v == (q * b + r) * a + s;
    assert v == q * (a * b) + (r * a + s);
    assert r * a + s < a * b by {
      assert r <= b - 1;
      assert r * a <= (b - 1) * a;
    }
    DivModUnique(v, a * b, q, r * a + s);
  }

  /** Shifting right by one moves every bit down by one position. */
  lemma BitHalf(v: nat, k: nat)
    ensures Bit(v, k + 1) == Bit(v / 2, k)
  {
  }

  /** Bit k is what the source's mask test `(v & (1 << k)) != 0` reads. */
  lemma {:induction false} BitAsMask(v: nat, k: nat)
    ensures Bit(v, k) == (v / Pow2(k)) % 2
  {
    if k > 0 {
      BitAsMask(v / 2, k - 1);
      DivDiv(v, 2, Pow2(k - 1));
    }
  }

  /** Shifting left by one moves every bit up by one position. */
  lemma BitDouble(v: nat, k: nat)
    ensures Bit(2 * v, k + 1) == Bit(v, k)
  {
    BitHalf(2 * v, k);
  }

  /** Reducing modulo 2^m keeps the bits below m. */
  lemma {:induction false} BitOfMod(v: nat, m: nat, k: nat)
    requires k < m
    ensures Bit(v % Pow2(m), k) == Bit(v, k)
  {
    var p := Pow2(m - 1);
    assert Pow2(m) == 2 * p;
    var q, r := v / (2 * p), v % (2 * p);
    assert v == (2 * (q * p)) + r;
    if k == 0 {
      DivModUnique(v, 2, q * p + r / 2, r % 2);
    } else {
      BitHalf(r, k - 1);
      BitHalf(v, k - 1);
      // r / 2 == (v / 2) % p
      assert v / 2 == q * p + r / 2 by {
        DivModUnique(v, 2, q * p + r / 2, r % 2);
      }
      assert r / 2 < p;
      DivModUnique(v / 2, p, q, r / 2);
      BitOfMod(v / 2, m - 1, k - 1);
    }
  }

  /** The test `(v & (1 << k)) != 0` with a one-bit mask. */
  method AndMask(v: nat, k: nat) returns (nonzero: bool)
    ensures nonzero <==> Bit(v, k) == 1
  {
    BitAsMask(v, k);
    nonzero := (v / Pow2(k)) % 2 != 0;
  }

  lemma SplitProduct(a: nat, b: nat, c: nat, p: nat)
    requires a == 2 * b + c && c <= 1
    ensures a * p == b * (2 * p) + c * p
    ensures c * p <= p
  {
  }

  /** Splitting x modulo 2p at the bit of weight p. */
  lemma ModDoubleSplit(x: nat, p: nat)
    requires p > 0
    ensures x % (2 * p) == ((x / p) % 2) * p + x % p
  {
    var a, r := x / p, x % p;
    assert x == a * p + r;
    var b, c := a / 2, a % 2;
    SplitProduct(a, b, c, p);
    DivModUnique(x, 2 * p, b, c * p + r);
  }

  /** The top bit of x modulo 2^(n+1) splits off as Bit(x, n) * 2^n. */
  lemma ModSplit(x: nat, n: nat)
    ensures x % Pow2(n + 1) == Bit(x, n) * Pow2(n) + x % Pow2(n)
  {
    BitAsMask(x, n);
    ModDoubleSplit(x, Pow2(n));
  }

  // ---------------------------------------------------------------------------
  // log2 (lcugen.cpp:727-742)
  // ---------------------------------------------------------------------------

  /** Number of halvings that bring t down to zero (the bit length of t). */
  function BitLength(t: nat): nat
  {
    if t == 0 then 0 else 1 + BitLength(t / 2)
  }

  lemma {:induction false} BitLengthBounds(t: nat)
    ensures t < Pow2(BitLength(t))
    ensures t > 0 ==> Pow2(BitLength(t) - 1) <= t
  {
    if t > 0 {
      BitLengthBounds(t / 2);
    }
  }

  lemma {:induction false} BitLengthUnique(t: nat, r: nat)
    requires t < Pow2(r) && (r == 0 || Pow2(r - 1) <= t)
    ensures BitLength(t) == r
  {
    if r > 0 {
      assert t > 0;
      if r == 1 {
        assert t / 2 == 0;
      } else {
        assert Pow2(r - 2) <= t / 2 < Pow2(r - 1);
        BitLengthUnique(t / 2, r - 1);
      }
    } else {
      assert t == 0;
    }
  }

  lemma Pow2Word()
    ensures Pow2(32) == WORD
  {
    assert Pow2(10) == 1024;
    assert Pow2(20) == 1048576;
    assert Pow2(30) == 1073741824;
  }

  /** The value `log2(operand)` returns: the halving count of `operand - 1` taken as
      an unsigned 32-bit number. For operand >= 1 this is the least r with
      2^r >= operand, i.e. the minimal field width for values 0..operand-1; for
      operand 0 the subtraction wraps and the result is 32. */
  function Log2Of(operand: nat): (r: nat)
    requires operand < WORD
    ensures operand >= 1 ==> operand <= Pow2(r) && (r == 0 || Pow2(r - 1) < operand)
    ensures operand == 0 ==> r == 32
  {
    var temp: nat := if operand == 0 then WORD - 1 else operand - 1;
    BitLengthBounds(temp);
    if operand == 0 then
      Pow2Word();
      BitLengthUnique(temp, 32);
      BitLength(temp)
    else
      BitLength(temp)
  }

  /** `log2`: the source's halving loop. */
  method Log2(operand: nat) returns (logVal: nat)
    requires operand < WORD
    ensures logVal == Log2Of(operand)
  {
    var temp: nat := if operand == 0 then WORD - 1 else operand - 1;
    logVal := 0;
    while temp > 0
      invariant logVal + BitLength(temp) == Log2Of(operand)
    {
      temp := temp / 2;
      logVal := logVal + 1;
    }
  }

  /** A field holding values 0..max needs Log2Of(max + 1) bits: every value fits, and
      with one bit fewer the maximum would not; the width is minimal. */
  lemma {:induction false} FieldWidthMinimal(max: nat)
    requires max + 1 < WORD
    ensures max < Pow2(Log2Of(max + 1))
    ensures Log2Of(max + 1) == 0 <==> max == 0
    ensures Log2Of(max + 1) > 0 ==> Pow2(Log2Of(max + 1) - 1) <= max
  {
    var r := Log2Of(max + 1);
    if r == 0 {
      assert max + 1 <= 1;
    } else {
      assert 1 <= Pow2(r - 1) < max + 1;
    }
  }

  // ---------------------------------------------------------------------------
  // ipow (lcugen.cpp:712-724)
  // ---------------------------------------------------------------------------

  lemma MulMod(a: nat, b: nat, m: nat)
    requires m > 0
    ensures (a % m) * b % m == a * b % m
  {
    var q, r := a / m, a % m;
    assert a * b == (q * b) * m + r * b;
    var q2, r2 := (r * b) / m, (r * b) % m;
    assert a * b == (q * b + q2) * m + r2;
    DivModUnique(a * b, m, q * b + q2, r2);
  }

  /** `ipow`: repeated multiplication in unsigned 32-bit arithmetic, so the result is
      x^y reduced modulo 2^32. The unsigned counter runs to y inclusive, so for
      y = 2^32-1 it wraps to 0 and the loop never ends; such a y is excluded. */
  method IPow(x: nat, y: nat) returns (result: nat)
    requires y < WORD - 1
    ensures result == Pow(x, y) % WORD
  {
    result := 1;
    var i := 1;
    while i <= y
      invariant 1 <= i <= y + 1
      invariant result == Pow(x, i - 1) % WORD
    {
      MulMod(Pow(x, i - 1), x, WORD);
      result := result * x % WORD;
      i := i + 1;
    }
  }

  // ---------------------------------------------------------------------------
  // dectobin (lcugen.cpp:687-710)
  // ---------------------------------------------------------------------------

  /** The number whose decimal digits are the low n bits of x:
      the sum over k < n of Bit(x, k) * 10^k. */
  function DecDigits(x: nat, n: nat): nat
  {
    if n == 0 then 0 else DecDigits(x, n - 1) + Pow(10, n - 1) * Bit(x, n - 1)
  }

  /** 11...1 with n decimal ones: the largest value of DecDigits(_, n). */
  function Repunit(n: nat): nat
  {
    if n == 0 then 0 else Repunit(n - 1) + Pow(10, n - 1)
  }

  lemma {:induction false} DecDigitsAtMostRepunit(x: nat, n: nat)
    ensures DecDigits(x, n) <= Repunit(n)
  {
    if n > 0 {
      DecDigitsAtMostRepunit(x, n - 1);
    }
  }

  lemma {:induction false} RepunitMonotone(n: nat, m: nat)
    requires n <= m
    ensures Repunit(n) <= Repunit(m)
  {
    if n < m {
      RepunitMonotone(n, m - 1);
    }
  }

  lemma {:induction false} PowMonotone(k: nat, m: nat)
    requires k <= m
    ensures Pow(10, k) <= Pow(10, m)
  {
    if k < m {
      PowMonotone(k, m - 1);
    }
  }

  lemma TenDigitsFitAWord()
    ensures Repunit(10) < WORD
    ensures Pow(10, 9) < WORD
  {
    assert Pow(10, 3) == 1000;
    assert Pow(10, 6) == 1000000;
    assert Pow(10, 9) == 1000000000;
    assert Repunit(4) == 1111;
    assert Repunit(7) == 1111111;
    assert Repunit(10) == 1111111111;
  }

  /** Every summand and partial sum of `dectobin` with at most ten digits stays below
      2^32, so none of the unsigned operations wraps. */
  lemma NoWrapUpToTenDigits(x: nat, n: nat, k: nat)
    requires n <= 10 && k < n
    ensures DecDigits(x, n) < WORD
    ensures Pow(10, k) < WORD
  {
    DecDigitsAtMostRepunit(x, n);
    RepunitMonotone(n, 10);
    PowMonotone(k, 9);
    TenDigitsFitAWord();
  }

  /** The 32-bit word `data` holds the bits of x shifted left by `shift`. */
  predicate Tracks(data: nat, x: nat, shift: nat)
  {
    forall j: nat :: shift <= j < 32 ==> Bit(data, j) == Bit(x, j - shift)
  }

  /** One left shift of the 32-bit word moves the bits that track x up by one, and the
      mask bit `top` of the word is bit `top - shift` of x. */
  lemma ShiftKeepsBits(prev: nat, x: nat, shift: nat, top: nat)
    requires Tracks(prev, x, shift) && shift <= top < 32
    ensures Tracks(prev * 2 % WORD, x, shift + 1)
    ensures Bit(prev, top) == Bit(x, top - shift)
  {
    forall j: nat | shift + 1 <= j < 32
      ensures Bit(prev * 2 % WORD, j) == Bit(x, j - (shift + 1))
    {
      Pow2Word();
      BitOfMod(2 * prev, 32, j);
      BitDouble(prev, j - 1);
    }
  }

  /** One step of the second `dectobin` loop adds 10^count * Bit(x, count) without
      wrapping. */
  lemma AccumulateDigit(x: nat, n: nat, count: nat, result: nat)
    requires n <= 10 && count < n
    requires result + DecDigits(x, count + 1) == DecDigits(x, n)
    ensures Pow(10, count) % WORD == Pow(10, count)
    ensures (Pow(10, count) * Bit(x, count) + result) % WORD + DecDigits(x, count) == DecDigits(x, n)
  {
    NoWrapUpToTenDigits(x, n, count);
    var s := Pow(10, count) * Bit(x, count) + result;
    assert s + DecDigits(x, count) == DecDigits(x, n);
    DivModUnique(Pow(10, count), WORD, 0, Pow(10, count));
    DivModUnique(s, WORD, 0, s);
  }

  /** `dectobin`: the first loop reads the bits of `bin_data` from the top through a
      fixed mask while shifting the word left; the second sums 10^count for each set
      bit. The shift `1 << (num_bits - 1)` is undefined for num_bits 0, hence the
      lower bound; past ten digits the unsigned sum would wrap, hence the upper. */
  method DecToBin(binData: nat, numBits: nat) returns (result: nat)
    requires binData < WORD
    requires 1 <= numBits <= 10
    ensures result == DecDigits(binData, numBits)
  {
    var data: nat := binData;
    var resultArr := new nat[100];
    var count: int := numBits - 1;
    ghost var shift: nat := 0;
    while count > -1
      invariant -1 <= count <= numBits - 1 && shift == numBits - 1 - count
      invariant Tracks(data, binData, shift)
      invariant forall k :: count < k < numBits ==> resultArr[k] == Bit(binData, k)
    {
      var bitSet := AndMask(data, numBits - 1);
      ShiftKeepsBits(data, binData, shift, numBits - 1);
      resultArr[count] := if bitSet then 1 else 0;
      data, count, shift := data * 2 % WORD, count - 1, shift + 1;
    }
    result := 0;
    count := numBits - 1;
    while count > -1
      invariant -1 <= count <= numBits - 1
      invariant result + DecDigits(binData, count + 1) == DecDigits(binData, numBits)
      invariant forall k :: 0 <= k < numBits ==> resultArr[k] == Bit(binData, k)
    {
      var p := IPow(10, count);
      AccumulateDigit(binData, numBits, count, result);
      assert p == Pow(10, count) && resultArr[count] == Bit(binData, count);
      result := (p * resultArr[count] + result) % WORD;
      count := count - 1;
    }
  }

  /** Peeling the lowest bit: DecDigits(x, n) = Bit(x, 0) + 10 * DecDigits(x / 2, n - 1). */
  lemma {:induction false} DecDigitsLow(x: nat, n: nat)
    requires n >= 1
    ensures DecDigits(x, n) == Bit(x, 0) + 10 * DecDigits(x / 2, n - 1)
  {
    if n > 1 {
      DecDigitsLow(x, n - 1);
      BitHalf(x, n - 2);
      PeelDigit(DecDigits(x, n - 1), DecDigits(x / 2, n - 1), DecDigits(x / 2, n - 2),
                Pow(10, n - 2), Bit(x / 2, n - 2), Bit(x, 0));
    }
  }

  /** The arithmetic step of DecDigitsLow, over plain numbers. */
  lemma PeelDigit(low: int, high: int, shorter: int, q: int, b: int, c: int)
    requires low == c + 10 * shorter && high == shorter + q * b
    ensures low + (q * 10) * b == c + 10 * high
  {
    assert (q * 10) * b == 10 * (q * b);
  }

  // ---------------------------------------------------------------------------
  // itob (lcugen.cpp:798-807) and its decoder
  // ---------------------------------------------------------------------------

  function BitChar(b: nat): char
  {
    if b != 0 then '1' else '0'
  }

  /** `itob(i, s, n)`: the n characters written into s, most significant bit first:
      character p is '1' exactly when bit n-1-p of i is set. */
  function Itob(i: nat, n: nat): (s: string)
    ensures |s| == n
    ensures forall p :: 0 <= p < n ==> (s[p] == '1' <==> Bit(i, n - 1 - p) == 1)
    ensures forall p :: 0 <= p < n ==> (s[p] == '0' <==> Bit(i, n - 1 - p) == 0)
  {
    if n == 0 then [] else [BitChar(Bit(i, n - 1))] + Itob(i, n - 1)
  }

  /** The reference decoder: the number a string of '0'/'1' spells, most significant
      character first. */
  function BitsValue(s: string): nat
  {
    if s == [] then 0 else (if s[0] == '1' then Pow2(|s| - 1) else 0) + BitsValue(s[1..])
  }

  /** Decoding what `itob` writes yields the low n bits of the input. */
  lemma {:induction false} ItobRoundTrip(x: nat, n: nat)
    ensures BitsValue(Itob(x, n)) == x % Pow2(n)
  {
    if n > 0 {
      ItobRoundTrip(x, n - 1);
      ModSplit(x, n - 1);
      assert Itob(x, n)[1..] == Itob(x, n - 1);
    }
  }

  /** `itob` loses nothing for a value that fits its width. */
  lemma ItobDecodes(x: nat, n: nat)
    requires x < Pow2(n)
    ensures BitsValue(Itob(x, n)) == x
  {
    ItobRoundTrip(x, n);
    DivModUnique(x, Pow2(n), 0, x);
  }

  /** Peeling the lowest bit off the end of the string. */
  lemma {:induction false} ItobLow(x: nat, n: nat)
    requires n >= 1
    ensures Itob(x, n) == Itob(x / 2, n - 1) + [BitChar(Bit(x, 0))]
  {
    if n > 1 {
      ItobLow(x, n - 1);
      BitHalf(x, n - 2);
    }
  }

  /** `itob`: writes the n characters and the terminating NUL into the buffer. The
      shift `1UL << j` is defined for j below 64. */
  method ItobInto(i: nat, s: array<char>, numBits: nat)
    requires numBits < s.Length && numBits <= 64
    modifies s
    ensures s[..numBits] == Itob(i, numBits)
    ensures s[numBits] == '\0'
    ensures forall p :: numBits < p < s.Length ==> s[p] == old(s[p])
  {
    var j: int := numBits - 1;
    var pos := 0;
    while j >= 0
      invariant -1 <= j <= numBits - 1 && pos == numBits - 1 - j
      invariant forall p :: 0 <= p < pos ==> s[p] == BitChar(Bit(i, numBits - 1 - p))
      invariant forall p :: numBits <= p < s.Length ==> s[p] == old(s[p])
    {
      var bitSet := AndMask(i, j);
      s[pos] := if bitSet then '1' else '0';
      j, pos := j - 1, pos + 1;
    }
    s[pos] := '\0';
    assert forall p :: 0 <= p < numBits ==> s[..numBits][p] == Itob(i, numBits)[p];
  }

  // ---------------------------------------------------------------------------
  // Decimal rendering: printf "%d" and "%0Nd" on non-negative values
  // ---------------------------------------------------------------------------

  function DigitChar(d: nat): char
    requires d < 10
  {
    "0123456789"[d]
  }

  function DigitValue(c: char): nat
  {
    if '0' <= c <= '9' then (c as int - '0' as int) as nat else 0
  }

  /** `printf("%d", v)` for v >= 0: the shortest decimal representation. */
  function Decimal(v: nat): (s: string)
    ensures 1 <= |s|
    ensures forall k :: 0 <= k < |s| ==> '0' <= s[k] <= '9'
  {
    if v < 10 then [DigitChar(v)] else Decimal(v / 10) + [DigitChar(v % 10)]
  }

  /** `printf("%d", v)` for a signed value. */
  function SignedDecimal(v: int): string
  {
    if v < 0 then "-" + Decimal(-v) else Decimal(v)
  }

  /** `printf("%x", v)`: lower-case hexadecimal without leading zeros. */
  function Hex(v: nat): (s: string)
    ensures 1 <= |s|
    ensures forall k :: 0 <= k < |s| ==> '0' <= s[k] <= '9' || 'a' <= s[k] <= 'f'
  {
    var d := HexChar(v % 16);
    if v < 16 then [d] else Hex(v / 16) + [d]
  }

  function HexChar(d: nat): char
    requires d < 16
  {
    "0123456789abcdef"[d]
  }

  function HexValue(c: char): nat
  {
    if '0' <= c <= '9' then (c as int - '0' as int) as nat
    else if 'a' <= c <= 'f' then (c as int - 'a' as int + 10) as nat
    else 0
  }

  /** The reference decoder of lower-case hexadecimal strings. */
  function ParseHex(s: string): nat
  {
    if s == [] then 0 else ParseHex(s[..|s| - 1]) * 16 + HexValue(s[|s| - 1])
  }

  /** Reading back what `%x` prints gives the number printed. */
  lemma {:induction false} HexRoundTrip(v: nat)
    ensures ParseHex(Hex(v)) == v
  {
    if v >= 16 {
      var q, d := v / 16, v % 16;
      assert Hex(v) == Hex(q) + [HexChar(d)];
      HexRoundTrip(q);
      ParseHexSnoc(Hex(q), HexChar(d));
      HexDigitRoundTrip(d);
      assert v == q * 16 + d;
    } else {
      assert v % 16 == v;
      assert Hex(v) == [] + [HexChar(v)];
      ParseHexSnoc([], HexChar(v));
      HexDigitRoundTrip(v);
    }
  }

  /** Appending a hex digit to a numeral multiplies its value by sixteen and adds
      the digit. */
  lemma ParseHexSnoc(s: string, c: char)
    ensures ParseHex(s + [c]) == ParseHex(s) * 16 + HexValue(c)
  {
    assert (s + [c])[..|s|] == s;
  }

  lemma HexDigitRoundTrip(d: nat)
    requires d < 16
    ensures HexValue(HexChar(d)) == d
  {
  }

  lemma HexInLine(v: nat)
    ensures InLine(Hex(v))
  {
  }

  lemma HexInjective(a: nat, b: nat)
    requires Hex(a) == Hex(b)
    ensures a == b
  {
    HexRoundTrip(a);
    HexRoundTrip(b);
  }

  /** The reference decoder of decimal strings. */
  function ParseDecimal(s: string): nat
  {
    if s == [] then 0 else ParseDecimal(s[..|s| - 1]) * 10 + DigitValue(s[|s| - 1])
  }

  /** Reading back what `%d` prints gives the number printed. */
  lemma {:induction false} DecimalRoundTrip(v: nat)
    ensures ParseDecimal(Decimal(v)) == v
  {
    if v >= 10 {
      DecimalRoundTrip(v / 10);
      ParseSnoc(Decimal(v / 10), DigitChar(v % 10));
      DigitRoundTrip(v % 10);
    } else {
      ParseSnoc([], DigitChar(v));
      DigitRoundTrip(v);
    }
  }

  /** Appending a digit to a numeral multiplies its value by ten and adds the
      digit. */
  lemma ParseSnoc(s: string, c: char)
    ensures ParseDecimal(s + [c]) == ParseDecimal(s) * 10 + DigitValue(c)
  {
    assert (s + [c])[..|s|] == s;
  }

  lemma DigitRoundTrip(d: nat)
    requires d < 10
    ensures DigitValue(DigitChar(d)) == d
  {
  }

  lemma DecimalInjective(a: nat, b: nat)
    requires Decimal(a) == Decimal(b)
    ensures a == b
  {
    DecimalRoundTrip(a);
    DecimalRoundTrip(b);
  }

  // ---------------------------------------------------------------------------
  // Lines of text
  // ---------------------------------------------------------------------------

  /** The number of line ends in s. */
  function NewLines(s: string): nat
  {
    if s == [] then 0 else (if s[0] == '\n' then 1 else 0) + NewLines(s[1..])
  }

  lemma {:induction false} NewLinesAppend(a: string, b: string)
    ensures NewLines(a + b) == NewLines(a) + NewLines(b)
  {
    if a == [] {
      assert a + b == b;
    } else {
      assert (a + b)[1..] == a[1..] + b;
      NewLinesAppend(a[1..], b);
    }
  }

  /** Text made of digits and minus signs, as `%d` prints. */
  predicate Numeral(s: string)
  {
    forall k :: 0 <= k < |s| ==> s[k] == '-' || '0' <= s[k] <= '9'
  }

  /** Text without a line end. */
  predicate InLine(s: string)
  {
    forall k :: 0 <= k < |s| ==> s[k] != '\n'
  }

  lemma InLineCat(a: string, b: string)
    requires InLine(a) && InLine(b)
    ensures InLine(a + b)
  {
  }

  /** A line of text followed by a line end is one line. */
  lemma OneLine(s: string)
    requires InLine(s)
    ensures NewLines(s + "\n") == 1
  {
    InLineNoNewLines(s);
    NewLinesAppend(s, "\n");
  }

  lemma {:induction false} InLineNoNewLines(s: string)
    requires InLine(s)
    ensures NewLines(s) == 0
  {
    if s != [] {
      assert InLine(s[1..]);
      InLineNoNewLines(s[1..]);
    }
  }

  function Zeros(n: nat): (s: string)
    ensures |s| == n
    ensures forall k :: 0 <= k < n ==> s[k] == '0'
  {
    if n == 0 then [] else "0" + Zeros(n - 1)
  }

  /** `printf("%0Nd", v)` for v >= 0: the decimal representation left-padded with '0'
      to at least w characters. */
  function Padded(v: nat, w: nat): string
  {
    var d := Decimal(v);
    if |d| >= w then d else Zeros(w - |d|) + d
  }

  /** The w lowest decimal digits of v, least significant last. */
  function DigitsN(v: nat, w: nat): (s: string)
    ensures |s| == w
  {
    if w == 0 then [] else DigitsN(v / 10, w - 1) + [DigitChar(v % 10)]
  }

  lemma {:induction false} DigitsOfZero(w: nat)
    ensures DigitsN(0, w) == Zeros(w)
  {
    if w > 0 {
      DigitsOfZero(w - 1);
      assert Zeros(w) == Zeros(w - 1) + "0" by {
        assert forall k :: 0 <= k < w ==> Zeros(w)[k] == (Zeros(w - 1) + "0")[k];
      }
    }
  }

  /** Zero-padding a value below 10^w to width w spells exactly its w lowest digits. */
  lemma {:induction false} PaddedIsDigits(v: nat, w: nat)
    requires 1 <= w && v < Pow(10, w)
    ensures Padded(v, w) == DigitsN(v, w)
  {
    if v < 10 {
      PaddedOneDigit(v, w);
    } else {
      assert w >= 2 by {
        assert Pow(10, 1) == 10;
      }
      assert v / 10 < Pow(10, w - 1);
      PaddedIsDigits(v / 10, w - 1);
      PaddedNextDigit(v, w);
    }
  }

  /** A single digit padded to width w is w-1 zeros and the digit. */
  lemma PaddedOneDigit(v: nat, w: nat)
    requires 1 <= w && v < 10
    ensures Padded(v, w) == DigitsN(v, w)
  {
    var c := [DigitChar(v)];
    assert Decimal(v) == c;
    assert v / 10 == 0 && v % 10 == v;
    DigitsOfZero(w - 1);
    assert DigitsN(v, w) == Zeros(w - 1) + c;
    if w == 1 {
      assert Zeros(0) + c == c;
    }
  }

  /** Padding v to width w appends its last digit to v/10 padded to width w-1. */
  lemma PaddedNextDigit(v: nat, w: nat)
    requires 2 <= w && 10 <= v
    requires Padded(v / 10, w - 1) == DigitsN(v / 10, w - 1)
    ensures Padded(v, w) == DigitsN(v, w)
  {
    var d := Decimal(v / 10);
    var c := [DigitChar(v % 10)];
    assert Decimal(v) == d + c;
    assert DigitsN(v, w) == DigitsN(v / 10, w - 1) + c;
    if |d| < w - 1 {
      AppendAssoc(Zeros(w - 1 - |d|), d, c);
    }
  }

  lemma AppendAssoc(a: string, b: string, c: string)
    ensures a + (b + c) == (a + b) + c
  {
  }

  /** The decimal digits of DecDigits(x, n) are the n-bit string of x. */
  lemma {:induction false} DigitsOfDecDigits(x: nat, n: nat)
    ensures DigitsN(DecDigits(x, n), n) == Itob(x, n)
  {
    if n > 0 {
      var u := DecDigits(x / 2, n - 1);
      DecDigitsLow(x, n);
      DivModUnique(DecDigits(x, n), 10, u, Bit(x, 0));
      DigitsOfDecDigits(x / 2, n - 1);
      ItobLow(x, n);
    }
  }

  lemma {:induction false} DecDigitsBelowPow10(x: nat, n: nat)
    ensures DecDigits(x, n) < Pow(10, n)
  {
    if n > 0 {
      DecDigitsBelowPow10(x, n - 1);
    }
  }

  /** Printing `dectobin(x, n)` with `%0nd` (or `%d` when n is 1) shows the same
      characters `itob(x, s, n)` writes: the n-bit binary string of x. */
  lemma PrintedDecToBinIsItob(x: nat, n: nat)
    requires n >= 1
    ensures Padded(DecDigits(x, n), n) == Itob(x, n)
  {
    DecDigitsBelowPow10(x, n);
    PaddedIsDigits(DecDigits(x, n), n);
    DigitsOfDecDigits(x, n);
  }
}
