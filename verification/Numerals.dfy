/** Positional numerals, and numbers as byte sequences. */
module Numerals {
  import opened Bits

  const DIGITS := "0123456789ABCDEF"

  function DigitChar(d: nat): char
    requires d < 16
  {
    DIGITS[d]
  }

  predicate IsDigit(c: char) {
    '0' <= c <= '9' || 'A' <= c <= 'F'
  }

  function DigitValue(c: char): nat {
    if '0' <= c <= '9' then c as int - '0' as int
    else if 'A' <= c <= 'F' then c as int - 'A' as int + 10
    else 0
  }

  lemma DigitRoundTrip(d: nat)
    requires d < 16
    ensures IsDigit(DigitChar(d)) && DigitValue(DigitChar(d)) == d
  {
  }

  /** `n` in the given base, most significant digit first, without leading zeros. */
  function Numeral(n: nat, base: nat): (s: string)
    requires 2 <= base <= 16
    ensures s != []
  {
    if n < base then [DigitChar(n)] else Numeral(n / base, base) + [DigitChar(n % base)]
  }

  function ValueOf(s: string, base: nat): nat {
    if s == [] then 0 else ValueOf(s[..|s| - 1], base) * base + DigitValue(s[|s| - 1])
  }

  predicate AllDigits(s: string) {
    forall i :: 0 <= i < |s| ==> IsDigit(s[i])
  }

  lemma ValueOfExtended(s: string, d: nat, base: nat)
    requires d < 16
    ensures ValueOf(s + [DigitChar(d)], base) == ValueOf(s, base) * base + d
  {
    DigitRoundTrip(d);
    assert (s + [DigitChar(d)])[..|s|] == s;
  }

  lemma QuotientAndRemainder(n: nat, base: nat)
    requires base > 0
    ensures n == n / base * base + n % base
  {
  }

  lemma AllDigitsExtended(s: string, c: char)
    requires AllDigits(s) && IsDigit(c)
    ensures AllDigits(s + [c])
  {
  }

  lemma {:induction false} NumeralHasDigitsOnly(n: nat, base: nat)
    requires 2 <= base <= 16
    ensures AllDigits(Numeral(n, base))
  {
    if n < base {
      DigitRoundTrip(n);
    } else {
      NumeralHasDigitsOnly(n / base, base);
      DigitRoundTrip(n % base);
      AllDigitsExtended(Numeral(n / base, base), DigitChar(n % base));
    }
  }

  lemma ZeroDigit(d: nat)
    requires d < 16
    ensures DigitChar(d) == '0' <==> d == 0
  {
  }

  /** A numeral has no leading zero. */
  lemma {:induction false} NoLeadingZero(n: nat, base: nat)
    requires 2 <= base <= 16
    ensures Numeral(n, base)[0] == '0' <==> n == 0
  {
    if n < base {
      ZeroDigit(n);
    } else {
      var rest := Numeral(n / base, base);
      NoLeadingZero(n / base, base);
      QuotientIsPositive(n, base);
      assert Numeral(n, base)[0] == rest[0];
    }
  }

  lemma QuotientIsPositive(n: nat, base: nat)
    requires n >= base > 0
    ensures n / base > 0
  {
  }

  /** Reading a numeral gives its number back. */
  lemma {:induction false} ValueOfNumeral(n: nat, base: nat)
    requires 2 <= base <= 16
    ensures ValueOf(Numeral(n, base), base) == n
  {
    if n < base {
      ValueOfExtended([], n, base);
      assert [] + [DigitChar(n)] == Numeral(n, base);
    } else {
      ValueOfNumeral(n / base, base);
      ValueOfExtended(Numeral(n / base, base), n % base, base);
      QuotientAndRemainder(n, base);
    }
  }

  /** Two hexadecimal digits. */
  function Hex2(b: byte): string {
    [DigitChar(b / 16), DigitChar(b % 16)]
  }

  function HexOf(bs: Bytes): (s: string)
    ensures |s| == 2 * |bs|
  {
    seq(2 * |bs|, j requires 0 <= j < 2 * |bs| => Hex2(bs[j / 2])[j % 2])
  }

  lemma HexOfSum(a: Bytes, b: Bytes)
    ensures HexOf(a + b) == HexOf(a) + HexOf(b)
  {
    forall j | 0 <= j < 2 * |a + b| ensures HexOf(a + b)[j] == (HexOf(a) + HexOf(b))[j] {
      if j >= 2 * |a| {
        assert (j - 2 * |a|) / 2 == j / 2 - |a|;
      }
    }
  }

  function BigEndian(bs: Bytes): nat {
    if bs == [] then 0 else BigEndian(bs[..|bs| - 1]) * 256 + bs[|bs| - 1]
  }

  function LittleEndian(bs: Bytes): nat {
    if bs == [] then 0 else bs[0] + 256 * LittleEndian(bs[1..])
  }

  function ToBigEndian(n: nat, size: nat): (bs: Bytes)
    ensures |bs| == size
  {
    if size == 0 then [] else ToBigEndian(n / 256, size - 1) + [n % 256]
  }

  function ToLittleEndian(n: nat, size: nat): (bs: Bytes)
    ensures |bs| == size
  {
    if size == 0 then [] else [n % 256] + ToLittleEndian(n / 256, size - 1)
  }

  lemma {:induction false} ToBigEndianUndoes(bs: Bytes)
    ensures ToBigEndian(BigEndian(bs), |bs|) == bs
  {
    if bs != [] {
      ToBigEndianUndoes(bs[..|bs| - 1]);
      LowByteAndRest(bs[|bs| - 1], BigEndian(bs[..|bs| - 1]));
      assert bs == bs[..|bs| - 1] + [bs[|bs| - 1]];
    }
  }

  lemma LowByteAndRest(b: byte, n: nat)
    ensures (b + 256 * n) % 256 == b && (b + 256 * n) / 256 == n
  {
  }

  lemma {:induction false} ToLittleEndianUndoes(bs: Bytes)
    ensures ToLittleEndian(LittleEndian(bs), |bs|) == bs
  {
    if bs != [] {
      ToLittleEndianUndoes(bs[1..]);
      LowByteAndRest(bs[0], LittleEndian(bs[1..]));
      assert bs == [bs[0]] + bs[1..];
    }
  }

  lemma Pow2Byte(k: nat)
    ensures Pow2(8 * (k + 1)) == 256 * Pow2(8 * k)
  {
    Pow2Of8();
    Pow2Sum(8, 8 * k);
  }

  lemma {:induction false} LittleEndianBound(bs: Bytes)
    ensures LittleEndian(bs) < Pow2(8 * |bs|)
  {
    if bs != [] {
      LittleEndianBound(bs[1..]);
      Pow2Byte(|bs| - 1);
    }
  }

  lemma ScaledProduct(b: nat, p: nat, q: nat)
    requires q == 256 * p
    ensures 256 * (b * p) == b * q
  {
  }

  /** A number grows at its upper end by a shifted byte. */
  lemma {:induction false} LittleEndianGrows(bs: Bytes, b: byte)
    ensures LittleEndian(bs + [b]) == LittleEndian(bs) + b * Pow2(8 * |bs|)
  {
    if bs == [] {
      assert [] + [b] == [b] && [b][1..] == [];
    } else {
      LittleEndianGrows(bs[1..], b);
      assert (bs + [b])[1..] == bs[1..] + [b];
      Pow2Byte(|bs| - 1);
      ScaledProduct(b, Pow2(8 * (|bs| - 1)), Pow2(8 * |bs|));
    }
  }
}
