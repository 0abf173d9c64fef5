/** Hexadecimal printing (puthex in my-kernel-asa/src/main.c) and reading (my-kernel-asa/testascii.c). */
module Hex {

  /** A char, by its code as a signed char. */
  type Char = c: int | -128 <= c < 128

  const ZERO: Char := 48
  const LETTER_A: Char := 65
  const LETTER_a: Char := 97

  // ---- Printing ---------------------------------------------------------------------------------

  /** The entry of hex_digit for a value below 16. */
  function HexDigit(k: nat): Char
    requires k < 16
  {
    if k < 10 then ZERO + k else LETTER_A + (k - 10)
  }

  /** An int seen as an unsigned int. */
  function Unsigned(a: int): nat
    requires -0x8000_0000 <= a < 0x8000_0000
  {
    if a < 0 then a + 0x1_0000_0000 else a
  }

  /** The hexadecimal writing of `u` without leading zeros, empty for 0. */
  function Digits(u: nat): seq<Char> {
    if u == 0 then [] else Digits(u / 16) + [HexDigit(u % 16)]
  }

  function Pow16(k: nat): (p: nat)
    ensures p > 0
  {
    if k == 0 then 1 else 16 * Pow16(k - 1)
  }

  /** The nibble that the expression `(aNumber >> i) & 0xF` selects, for i = 4 * k: the shift of a negative
      number rounds down. */
  function Nibble(a: int, k: nat): (n: nat)
    ensures n < 16
  {
    (a / Pow16(k)) % 16
  }

  lemma MulAdd(m: int, a: int, b: int)
    ensures m * (a + b) == m * a + m * b
  {
  }

  lemma MulAtLeast(m: int, e: int)
    requires m > 0 && e >= 1
    ensures m * e >= m
  {
  }

  lemma SameQuotient(m: int, q: int, r: int, d: int, s: int)
    requires m > 0 && m * q + r == m * d + s && 0 <= r < m && 0 <= s < m
    ensures q == d
  {
    if q < d {
      MulAdd(m, q, d - q);
      MulAtLeast(m, d - q);
    } else if d < q {
      MulAdd(m, d, q - d);
      MulAtLeast(m, q - d);
    }
  }

  lemma DivNonNegative(n: nat, m: int)
    requires m > 0
    ensures n / m >= 0
  {
  }

  /** The value of the digits from the k-th on. */
  function Above(a: int, k: nat): nat
    requires -0x8000_0000 <= a < 0x8000_0000
  {
    DivNonNegative(Unsigned(a), Pow16(k));
    Unsigned(a) / Pow16(k)
  }

  lemma DivUnique(n: int, m: int, q: int, r: int)
    requires m > 0 && n == m * q + r && 0 <= r < m
    ensures n / m == q
  {
    SameQuotient(m, q, r, n / m, n % m);
  }

  lemma DivShift(a: int, m: int, j: int)
    requires m > 0
    ensures (a + m * j) / m == a / m + j
  {
    assert a + m * j == m * (a / m + j) + a % m;
    DivUnique(a + m * j, m, a / m + j, a % m);
  }

  lemma DivTwice(u: int, m: int)
    requires m > 0
    ensures (u / m) / 16 == u / (16 * m)
  {
    var q := u / m;
    TwoDigits(m, q, u % m);
    assert u == m * q + u % m;
    DivUnique(u, 16 * m, q / 16, u % m + m * (q % 16));
  }

  lemma TwoDigits(m: int, q: int, r: int)
    requires m > 0 && 0 <= r < m
    ensures m * q + r == 16 * m * (q / 16) + (r + m * (q % 16))
    ensures 0 <= r + m * (q % 16) < 16 * m
  {
  }

  lemma {:induction false} PowSplit(k: nat, n: nat)
    requires k <= n
    ensures Pow16(n) == Pow16(k) * Pow16(n - k)
  {
    if k < n {
      PowSplit(k, n - 1);
      assert Pow16(n) == 16 * (Pow16(k) * Pow16(n - 1 - k));
    }
  }

  lemma PowWord()
    ensures Pow16(8) == 0x1_0000_0000
  {
  }

  /** Seen as unsigned, a negative number keeps its first eight nibbles. */
  lemma UnsignedQuotient(a: int, k: nat)
    requires -0x8000_0000 <= a < 0x8000_0000 && k < 8
    ensures Unsigned(a) / Pow16(k) == a / Pow16(k) + (if a < 0 then 16 * Pow16(7 - k) else 0)
  {
    if a < 0 {
      PowWord();
      PowSplit(k, 8);
      DivShift(a, Pow16(k), Pow16(8 - k));
    }
  }

  lemma TopDigit(q: int, p: int)
    ensures (q + 16 * p) % 16 == q % 16
  {
  }

  /** Nibbles taken from a negative number are those of its unsigned value, and each of them extends the
      quotient by one digit. */
  lemma NibbleStep(a: int, k: nat)
    requires -0x8000_0000 <= a < 0x8000_0000 && k < 8
    ensures Above(a, k) == 16 * Above(a, k + 1) + Nibble(a, k)
  {
    var m := Pow16(k);
    var q := Unsigned(a) / m;
    DivTwice(Unsigned(a), m);
    UnsignedQuotient(a, k);
    TopDigit(a / m, if a < 0 then Pow16(7 - k) else 0);
    assert Above(a, k) == q && Above(a, k + 1) == q / 16 && Nibble(a, k) == q % 16;
  }

  lemma DigitsSnoc(q: nat, n: nat)
    requires n < 16
    ensures Digits(16 * q + n) == if n != 0 || Digits(q) != [] then Digits(q) + [HexDigit(n)] else []
  {
  }

  /** The digits printed so far. */
  lemma DigitsStep(a: int, k: nat)
    requires -0x8000_0000 <= a < 0x8000_0000 && k < 8
    ensures var high := Digits(Above(a, k + 1));
            Digits(Above(a, k)) ==
            if Nibble(a, k) != 0 || high != [] then high + [HexDigit(Nibble(a, k))] else []
  {
    NibbleStep(a, k);
    hide Nibble, Above;
    DigitsSnoc(Above(a, k + 1), Nibble(a, k));
  }

  lemma AboveAll(a: int)
    requires -0x8000_0000 <= a < 0x8000_0000
    ensures Above(a, 8) == 0 && Digits(Above(a, 8)) == [] && Above(a, 0) == Unsigned(a)
  {
  }

  // ---- Reading ----------------------------------------------------------------------------------

  /** C division and remainder, which truncate toward zero. */
  function TruncDiv(a: int, b: int): (q: int)
    requires b > 0
    ensures if a >= 0 then 0 <= a - b * q < b else -b < a - b * q <= 0
  {
    if a >= 0 then a / b else -((-a) / b)
  }

  function TruncMod(a: int, b: int): int
    requires b > 0
  {
    a - b * TruncDiv(a, b)
  }

  function HexToInt(c: Char): int {
    var first := TruncDiv(c, 16) - 3;
    var second := TruncMod(c, 16);
    var result := first * 10 + second;
    if result > 9 then result - 1 else result
  }

  function HexToAscii(c: Char, d: Char): int {
    HexToInt(c) * 16 + HexToInt(d)
  }

  predicate IsUpperHex(c: Char) {
    ZERO <= c <= ZERO + 9 || LETTER_A <= c <= LETTER_A + 5
  }

  predicate IsLowerHex(c: Char) {
    LETTER_a <= c <= LETTER_a + 5
  }

  function DigitValue(c: Char): (v: nat)
    requires IsUpperHex(c) || IsLowerHex(c)
    ensures v < 16
  {
    if c <= ZERO + 9 then c - ZERO else if c <= LETTER_A + 5 then c - LETTER_A + 10 else c - LETTER_a + 10
  }

  /** Of the hexadecimal digits, exactly the lower-case letters are misread: 'a' to 'f' as 30 to 35. */
  lemma HexToIntExact(c: Char)
    requires IsUpperHex(c) || IsLowerHex(c)
    ensures HexToInt(c) == DigitValue(c) <==> !IsLowerHex(c)
    ensures 48 <= c <= 57 ==> HexToInt(c) == c as int - 48
    ensures 65 <= c <= 70 ==> HexToInt(c) == c as int - 55
    ensures 97 <= c <= 102 ==> HexToInt(c) == c as int - 67
  {
  }

  /** The number read from a string with hex_to_int, most significant digit first. */
  function Base16(s: seq<Char>): int {
    if s == [] then 0 else 16 * Base16(s[..|s| - 1]) + HexToInt(s[|s| - 1])
  }

  /** Round trip: reading back what puthex prints gives the number, seen as unsigned. The writing has no
      leading zero, is empty only for 0, and its digits are those hex_to_int reads well. */
  lemma {:induction false} RoundTrip(u: nat)
    ensures Base16(Digits(u)) == u
    ensures Digits(u) == [] <==> u == 0
    ensures u > 0 ==> Digits(u)[0] != ZERO
    ensures forall i :: 0 <= i < |Digits(u)| ==> IsUpperHex(Digits(u)[i])
  {
    if u > 0 {
      RoundTrip(u / 16);
      var d := HexDigit(u % 16);
      assert Digits(u)[..|Digits(u)| - 1] == Digits(u / 16);
      HexToIntExact(d);
    }
  }

  // ---- The decoding loop ------------------------------------------------------------------------

  /** What printf("%c") writes for a value: its low byte. */
  function Byte(v: int): nat {
    v % 256
  }

  /** One byte for each pair of characters; a last single one is dropped. */
  function PairBytes(s: seq<Char>): (r: seq<nat>)
    ensures |r| == |s| / 2
  {
    if |s| < 2 then []
    else if |s| % 2 == 1 then PairBytes(s[..|s| - 1])
    else PairBytes(s[..|s| - 2]) + [Byte(HexToAscii(s[|s| - 2], s[|s| - 1]))]
  }

  /** One more character. */
  lemma PairOne(s: seq<Char>, i: nat)
    requires i < |s|
    ensures PairBytes(s[..i + 1]) ==
            if i % 2 == 1 then PairBytes(s[..i]) + [Byte(HexToAscii(s[i - 1], s[i]))] else PairBytes(s[..i])
  {
    assert s[..i + 1][..i] == s[..i];
    if i % 2 == 1 {
      assert s[..i + 1][..i - 1] == s[..i - 1] == s[..i][..i - 1];
    }
  }

  method DecodePairs(st: seq<Char>) returns (out: seq<nat>)
    ensures out == PairBytes(st)
  {
    var buf: Char := 0;
    out := [];
    assert st[..0] == [];
    for i := 0 to |st|
      invariant out == PairBytes(st[..i])
      invariant i % 2 == 1 ==> buf == st[i - 1]
    {
      PairOne(st, i);
      hide PairBytes, HexToAscii;
      if i % 2 != 0 {
        out := out + [Byte(HexToAscii(buf, st[i]))];
      } else {
        buf := st[i];
      }
    }
    assert st[..|st|] == st;
  }

  function Base256(s: seq<nat>): nat {
    if s == [] then 0 else 256 * Base256(s[..|s| - 1]) + s[|s| - 1]
  }

  /** On an even number of upper-case digits, the bytes written are the base 256 writing of the number the
      string denotes. */
  lemma {:induction false} PairsExact(s: seq<Char>)
    requires |s| % 2 == 0 && (forall i :: 0 <= i < |s| ==> IsUpperHex(s[i]))
    ensures Base256(PairBytes(s)) == Base16(s)
  {
    if |s| >= 2 {
      PairsExact(s[..|s| - 2]);
      TwoDigitsRead(s);
      OnePairWritten(s);
      PairValue(s[|s| - 2], s[|s| - 1]);
      hide PairBytes, Base16, Base256, HexToInt, HexToAscii, Byte;
    }
  }

  lemma TwoDigitsRead(s: seq<Char>)
    requires |s| >= 2
    ensures Base16(s) == 256 * Base16(s[..|s| - 2]) + 16 * HexToInt(s[|s| - 2]) + HexToInt(s[|s| - 1])
  {
    var t := s[..|s| - 1];
    assert t[..|t| - 1] == s[..|s| - 2] && t[|t| - 1] == s[|s| - 2];
  }

  lemma OnePairWritten(s: seq<Char>)
    requires |s| >= 2 && |s| % 2 == 0
    ensures Base256(PairBytes(s)) ==
            256 * Base256(PairBytes(s[..|s| - 2])) + Byte(HexToAscii(s[|s| - 2], s[|s| - 1]))
  {
  }

  lemma PairValue(c: Char, d: Char)
    requires IsUpperHex(c) && IsUpperHex(d)
    ensures Byte(HexToAscii(c, d)) == 16 * HexToInt(c) + HexToInt(d)
  {
  }
}
