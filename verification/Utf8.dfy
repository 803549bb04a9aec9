/** UTF-8 as RFC 3629 defines it, and as Go's runtime decodes and encodes it for the
    string routines of `utils/utilsString.go`. */
module Utf8 {
  import opened Prelude
  import opened Bits

  const RUNE_ERROR := 0xFFFD

  /** A Unicode scalar value: any code point but a surrogate. */
  predicate IsScalar(r: int) {
    0 <= r < 0xD800 || 0xE000 <= r <= 0x10FFFF
  }

  /** The octet sequence of a scalar value, section 3 of RFC 3629. */
  function Encode(r: int): (bs: Bytes)
    requires IsScalar(r)
    ensures 1 <= |bs| <= 4
  {
    if r < 0x80 then [r]
    else if r < 0x800 then [0xC0 + r / 64, 0x80 + r % 64]
    else if r < 0x10000 then [0xE0 + r / 4096, 0x80 + r / 64 % 64, 0x80 + r % 64]
    else [0xF0 + r / 262144, 0x80 + r / 4096 % 64, 0x80 + r / 64 % 64, 0x80 + r % 64]
  }

  lemma ContinuationOctet(d: int)
    requires 0 <= d < 64
    ensures (0x80 + d) / 64 == 2 && (0x80 + d) % 64 == d
  {
  }

  lemma SixBitDigits(r: nat)
    ensures r == r / 64 * 64 + r % 64
    ensures r == r / 4096 * 4096 + r / 64 % 64 * 64 + r % 64
    ensures r == r / 262144 * 262144 + r / 4096 % 64 * 4096 + r / 64 % 64 * 64 + r % 64
  {
    assert r / 64 / 64 == r / 4096 && r / 4096 / 64 == r / 262144;
  }

  /** The table of section 3 of RFC 3629: the range of the value gives the number of octets, the first starts with
      as many 1 bits as there are octets, the others with 10, and the remaining bits make up the value. */
  lemma OctetLayout(r: int)
    requires IsScalar(r)
    ensures var bs: seq<int> := Encode(r);
      if r < 0x80 then bs == [r]
      else if r < 0x800 then |bs| == 2 && bs[0] / 32 == 6 && bs[1] / 64 == 2 && r == bs[0] % 32 * 64 + bs[1] % 64
      else if r < 0x1_0000 then
        |bs| == 3 && bs[0] / 16 == 14 && bs[1] / 64 == bs[2] / 64 == 2
        && r == bs[0] % 16 * 4096 + bs[1] % 64 * 64 + bs[2] % 64
      else
        |bs| == 4 && bs[0] / 8 == 30 && bs[1] / 64 == bs[2] / 64 == bs[3] / 64 == 2
        && r == bs[0] % 8 * 262144 + bs[1] % 64 * 4096 + bs[2] % 64 * 64 + bs[3] % 64
  {
    SixBitDigits(r);
    ContinuationOctet(r % 64);
    ContinuationOctet(r / 64 % 64);
    ContinuationOctet(r / 4096 % 64);
  }

  predicate IsContinuation(b: byte) {
    0x80 <= b <= 0xBF
  }

  /** What the runtime's table says about a lead byte: the size of the sequence, 0 for none, and the range
      its second byte must lie in. */
  function Lead(b: byte): (int, byte, byte) {
    if b < 0xC2 then (0, 0, 0)
    else if b <= 0xDF then (2, 0x80, 0xBF)
    else if b == 0xE0 then (3, 0xA0, 0xBF)
    else if b == 0xED then (3, 0x80, 0x9F)
    else if b <= 0xEF then (3, 0x80, 0xBF)
    else if b == 0xF0 then (4, 0x90, 0xBF)
    else if b <= 0xF3 then (4, 0x80, 0xBF)
    else if b == 0xF4 then (4, 0x80, 0x8F)
    else (0, 0, 0)
  }

  /** The rune of two, three or four bytes: the payload bits after the markers. */
  function Rune2(b0: int, b1: int): int { (b0 - 0xC0) * 64 + (b1 - 0x80) }

  function Rune3(b0: int, b1: int, b2: int): int { (b0 - 0xE0) * 4096 + (b1 - 0x80) * 64 + (b2 - 0x80) }

  function Rune4(b0: int, b1: int, b2: int, b3: int): int {
    (b0 - 0xF0) * 262144 + (b1 - 0x80) * 4096 + (b2 - 0x80) * 64 + (b3 - 0x80)
  }

  /** `utf8.DecodeRuneInString` on a non-empty string: the rune and its size, `(RUNE_ERROR, 1)` for an invalid byte. */
  function DecodeRune(s: Bytes): (d: (int, nat))
    requires s != []
    ensures IsScalar(d.0) && 1 <= d.1 <= |s|
  {
    var invalid := (RUNE_ERROR, 1);
    var (size, lo, hi) := Lead(s[0]);
    if s[0] < 0x80 then (s[0] as int, 1)
    else if size == 0 || |s| < size then invalid
    else if !(lo <= s[1] <= hi) then invalid
    else if size == 2 then (Rune2(s[0], s[1]), 2)
    else if !IsContinuation(s[2]) then invalid
    else if size == 3 then (Rune3(s[0], s[1], s[2]), 3)
    else if !IsContinuation(s[3]) then invalid
    else (Rune4(s[0], s[1], s[2], s[3]), 4)
  }

  /** `[]rune(s)`. */
  function DecodeAll(s: Bytes): seq<int> {
    if s == [] then [] else
    var (r, n) := DecodeRune(s);
    [r] + DecodeAll(s[n..])
  }

  ghost predicate AllScalar(rs: seq<int>) {
    forall i :: 0 <= i < |rs| ==> IsScalar(rs[i])
  }

  /** `string(runes)` for scalar values. */
  function EncodeAll(rs: seq<int>): Bytes
    requires AllScalar(rs)
  {
    if rs == [] then [] else Encode(rs[0]) + EncodeAll(rs[1..])
  }

  /** A string is UTF-8 when it is the encoding of some sequence of scalar values. */
  ghost predicate IsUtf8(s: Bytes) {
    exists rs :: AllScalar(rs) && EncodeAll(rs) == s
  }

  // ----- decoding and encoding are inverse -----

  lemma BytesOfRune(r: int)
    requires 0 <= r <= 0x10FFFF
    ensures Rune2(0xC0 + r / 64, 0x80 + r % 64) == r
    ensures Rune3(0xE0 + r / 4096, 0x80 + r / 64 % 64, 0x80 + r % 64) == r
    ensures Rune4(0xF0 + r / 262144, 0x80 + r / 4096 % 64, 0x80 + r / 64 % 64, 0x80 + r % 64) == r
  {
    assert r / 64 / 64 == r / 4096 && r / 4096 / 64 == r / 262144;
  }

  /** The second byte of an encoding lies in the range its lead byte asks for. */
  lemma LeadOfEncoding(r: int)
    requires IsScalar(r)
    ensures var bs := Encode(r);
      var (size, lo, hi) := Lead(bs[0]);
      if r < 0x80 then bs[0] < 0x80 else |bs| == size && lo <= bs[1] <= hi
    ensures forall i :: 1 <= i < |Encode(r)| ==> IsContinuation(Encode(r)[i])
    ensures r >= 0x80 ==> Encode(r)[0] >= 0x80
  {
    assert r / 64 / 64 == r / 4096 && r / 4096 / 64 == r / 262144;
  }

  lemma DecodeUndoesEncode(r: int, rest: Bytes)
    requires IsScalar(r)
    ensures DecodeRune(Encode(r) + rest) == (r, |Encode(r)|)
  {
    LeadOfEncoding(r);
    BytesOfRune(r);
    var bs, s := Encode(r), Encode(r) + rest;
    assert s[0] == bs[0] && (|bs| > 1 ==> s[1] == bs[1]);
    assert (|bs| > 2 ==> s[2] == bs[2]) && (|bs| > 3 ==> s[3] == bs[3]);
  }

  lemma EncodeOfRune2(b0: byte, b1: byte)
    requires Lead(b0).0 == 2 && IsContinuation(b1)
    ensures IsScalar(Rune2(b0, b1)) && Encode(Rune2(b0, b1)) == [b0, b1]
  {
  }

  lemma SixBits(high: int, low: int)
    requires 0 <= low < 64
    ensures (high * 64 + low) / 64 == high && (high * 64 + low) % 64 == low
  {
  }

  lemma EncodeOfRune3(b0: byte, b1: byte, b2: byte)
    requires Lead(b0).0 == 3 && Lead(b0).1 <= b1 <= Lead(b0).2 && IsContinuation(b2)
    ensures IsScalar(Rune3(b0, b1, b2)) && Encode(Rune3(b0, b1, b2)) == [b0, b1, b2]
  {
    var r := Rune3(b0, b1, b2);
    var high := (b0 - 0xE0) * 64 + (b1 - 0x80);
    SixBits(high, b2 - 0x80);
    SixBits(b0 - 0xE0, b1 - 0x80);
    assert r == high * 64 + (b2 - 0x80) && r / 4096 == high / 64;
  }

  lemma EncodeOfRune4(b0: byte, b1: byte, b2: byte, b3: byte)
    requires Lead(b0).0 == 4 && Lead(b0).1 <= b1 <= Lead(b0).2 && IsContinuation(b2) && IsContinuation(b3)
    ensures IsScalar(Rune4(b0, b1, b2, b3)) && Encode(Rune4(b0, b1, b2, b3)) == [b0, b1, b2, b3]
  {
    var r := Rune4(b0, b1, b2, b3);
    FourDigits(b0 - 0xF0, b1 - 0x80, b2 - 0x80, b3 - 0x80);
    assert 0x1_0000 <= r <= 0x10_FFFF;
  }

  lemma FourDigits(d0: int, d1: int, d2: int, d3: int)
    requires 0 <= d1 < 64 && 0 <= d2 < 64 && 0 <= d3 < 64
    ensures var r := d0 * 262144 + d1 * 4096 + d2 * 64 + d3;
      r / 262144 == d0 && r / 4096 % 64 == d1 && r / 64 % 64 == d2 && r % 64 == d3
  {
    var high := d0 * 64 + d1;
    var middle := high * 64 + d2;
    SixBits(middle, d3);
    SixBits(high, d2);
    SixBits(d0, d1);
    var r := middle * 64 + d3;
    assert r / 4096 == middle / 64 && r / 262144 == high / 64;
  }

  lemma EncodeUndoesDecode(s: Bytes)
    requires s != [] && DecodeRune(s) != (RUNE_ERROR, 1)
    ensures s[..DecodeRune(s).1] == Encode(DecodeRune(s).0)
  {
    var n := DecodeRune(s).1;
    if n == 2 {
      EncodeOfRune2(s[0], s[1]);
    } else if n == 3 {
      EncodeOfRune3(s[0], s[1], s[2]);
    } else if n == 4 {
      EncodeOfRune4(s[0], s[1], s[2], s[3]);
    }
  }

  lemma DecodeOfEncodedPrefix(s: Bytes, r: int)
    requires IsScalar(r) && Encode(r) <= s
    ensures s != [] && DecodeRune(s) == (r, |Encode(r)|)
  {
    DecodeUndoesEncode(r, s[|Encode(r)|..]);
    assert s == Encode(r) + s[|Encode(r)|..];
  }

  /** The decoder accepts the octets of scalar values and nothing else, so no overlong form and no surrogate. */
  lemma DecoderAcceptsExactlyEncodings(s: Bytes)
    requires s != []
    ensures DecodeRune(s) != (RUNE_ERROR, 1) <==> exists r :: IsScalar(r) && Encode(r) <= s
    ensures forall r :: IsScalar(r) && Encode(r) <= s ==> DecodeRune(s) == (r, |Encode(r)|)
  {
    if DecodeRune(s) != (RUNE_ERROR, 1) {
      EncodeUndoesDecode(s);
      assert IsScalar(DecodeRune(s).0) && Encode(DecodeRune(s).0) <= s;
    }
    forall r | IsScalar(r) && Encode(r) <= s ensures DecodeRune(s) == (r, |Encode(r)|) {
      DecodeOfEncodedPrefix(s, r);
    }
    assert |Encode(RUNE_ERROR)| == 3;
  }

  lemma {:induction false} DecodedAreScalar(s: Bytes)
    ensures AllScalar(DecodeAll(s))
  {
    if s != [] {
      DecodedAreScalar(s[DecodeRune(s).1..]);
    }
  }

  lemma {:induction false} DecodeAllUndoesEncodeAll(rs: seq<int>)
    requires AllScalar(rs)
    ensures DecodeAll(EncodeAll(rs)) == rs
  {
    if rs != [] {
      var rest := EncodeAll(rs[1..]);
      DecodeUndoesEncode(rs[0], rest);
      assert (Encode(rs[0]) + rest)[|Encode(rs[0])|..] == rest;
      DecodeAllUndoesEncodeAll(rs[1..]);
    }
  }

  /** Decoding and encoding again gives the string back exactly when it is UTF-8. */
  lemma Utf8IffReencoded(s: Bytes)
    ensures AllScalar(DecodeAll(s))
    ensures IsUtf8(s) <==> EncodeAll(DecodeAll(s)) == s
  {
    DecodedAreScalar(s);
    if IsUtf8(s) {
      var rs :| AllScalar(rs) && EncodeAll(rs) == s;
      DecodeAllUndoesEncodeAll(rs);
    }
  }

  // ----- the units a string falls into -----

  /** The byte sequences that successive decoding steps consume. */
  function Units(s: Bytes): seq<Bytes> {
    if s == [] then [] else
    var n := DecodeRune(s).1;
    [s[..n]] + Units(s[n..])
  }

  lemma {:induction false} ConcatUndoesUnits(s: Bytes)
    ensures Concat(Units(s)) == s
  {
    if s != [] {
      ConcatUndoesUnits(s[DecodeRune(s).1..]);
    }
  }

  /** Cutting a string off behind its first unit or later does not change that unit. */
  lemma DecodeOfPrefix(s: Bytes, m: nat)
    requires s != [] && DecodeRune(s).1 <= m <= |s|
    ensures DecodeRune(s[..m]) == DecodeRune(s)
  {
  }

  lemma ConcatOfPrefix(s: Bytes, b: nat)
    requires b <= |Units(s)|
    ensures Concat(Units(s)[..b]) <= s
  {
    ConcatUndoesUnits(s);
    ConcatOfSum(Units(s)[..b], Units(s)[b..]);
    assert Units(s) == Units(s)[..b] + Units(s)[b..];
  }

  lemma {:induction false} UnitsOfPrefix(s: Bytes, b: nat)
    requires b <= |Units(s)|
    ensures Units(Concat(Units(s)[..b])) == Units(s)[..b]
  {
    if b > 0 {
      var n := DecodeRune(s).1;
      var rest := s[n..];
      var tail := Concat(Units(rest)[..b - 1]);
      UnitsOfPrefix(rest, b - 1);
      assert Units(s)[..b] == [s[..n]] + Units(rest)[..b - 1];
      var t := s[..n] + tail;
      assert t == Concat(Units(s)[..b]);
      ConcatOfPrefix(s, b);
      assert t == s[..|t|];
      DecodeOfPrefix(s, |t|);
      assert t[..n] == s[..n] && t[n..] == tail;
    }
  }

  lemma {:induction false} UnitsOfSuffix(s: Bytes, a: nat)
    requires a <= |Units(s)|
    ensures Units(Concat(Units(s)[a..])) == Units(s)[a..]
  {
    if a == 0 {
      ConcatUndoesUnits(s);
      assert Units(s)[0..] == Units(s);
    } else {
      var rest := s[DecodeRune(s).1..];
      UnitsOfSuffix(rest, a - 1);
      assert Units(s)[a..] == Units(rest)[a - 1..];
    }
  }

  /** Consecutive units put together fall into the same units again. */
  lemma UnitsOfSlice(s: Bytes, a: nat, b: nat)
    requires a <= b <= |Units(s)|
    ensures Units(Concat(Units(s)[a..b])) == Units(s)[a..b]
  {
    var t := Concat(Units(s)[..b]);
    UnitsOfPrefix(s, b);
    UnitsOfSuffix(t, a);
    assert Units(s)[..b][a..] == Units(s)[a..b];
  }

  /** The runes of a string are those of its units, one each. */
  lemma {:induction false} RunesOfUnits(s: Bytes)
    ensures |DecodeAll(s)| == |Units(s)|
    ensures forall k :: 0 <= k < |Units(s)| ==> Units(s)[k] != [] && DecodeRune(Units(s)[k]).0 == DecodeAll(s)[k]
  {
    if s != [] {
      var n := DecodeRune(s).1;
      RunesOfUnits(s[n..]);
      DecodeOfPrefix(s, n);
    }
  }
}
