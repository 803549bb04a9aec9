/** `Reverse` and `SubStr` of `utils/utilsString.go`. */
module RuneStrings {
  import opened Prelude
  import opened Bits
  import opened Utf8

  function Reversed(rs: seq<int>): (r: seq<int>) {
    seq(|rs|, i requires 0 <= i < |rs| => rs[|rs| - 1 - i])
  }

  /** What `Reverse` returns, as a value. */
  function ReverseOf(s: Bytes): Bytes {
    DecodedAreScalar(s);
    EncodeAll(Reversed(DecodeAll(s)))
  }

  /** Decodes to runes, swaps them pairwise in place from both ends, and encodes again. */
  method Reverse(s: Bytes) returns (r: Bytes)
    ensures r == ReverseOf(s)
  {
    var decoded := DecodeAll(s);
    DecodedAreScalar(s);
    var n := |decoded|;
    var runes := new int[n](i requires 0 <= i < n => decoded[i]);
    var i, j := 0, n - 1;
    while i < j
      invariant 0 <= i <= j + 2 && j == n - 1 - i
      invariant forall k :: 0 <= k < i ==> runes[k] == decoded[n - 1 - k] && runes[n - 1 - k] == decoded[k]
      invariant forall k :: i <= k <= j ==> runes[k] == decoded[k]
    {
      runes[i], runes[j] := runes[j], runes[i];
      i, j := i + 1, j - 1;
    }
    assert runes[..] == Reversed(decoded);
    r := EncodeAll(runes[..]);
  }

  /** Reversing twice replaces what is not UTF-8 and changes nothing else. */
  lemma ReverseTwice(s: Bytes)
    ensures AllScalar(DecodeAll(s)) && ReverseOf(ReverseOf(s)) == EncodeAll(DecodeAll(s))
  {
    DecodedAreScalar(s);
    DecodeAllUndoesEncodeAll(Reversed(DecodeAll(s)));
    ReversedTwice(DecodeAll(s));
  }

  lemma ReversedTwice(rs: seq<int>)
    ensures Reversed(Reversed(rs)) == rs
  {
  }

  /** Reversing twice gives the string back exactly when it is UTF-8. */
  lemma ReverseIsInvolutionIffUtf8(s: Bytes)
    ensures ReverseOf(ReverseOf(s)) == s <==> IsUtf8(s)
  {
    ReverseTwice(s);
    Utf8IffReencoded(s);
  }

  lemma SingleInvalidByte(s: Bytes)
    requires |s| == 1 && s[0] >= 0x80
    ensures DecodeAll(s) == [RUNE_ERROR]
  {
    assert DecodeRune(s) == (RUNE_ERROR, 1) && s[1..] == [];
  }

  lemma StringOfOneRune(s: Bytes, r: int)
    requires DecodeAll(s) == [r] && IsScalar(r)
    ensures IsUtf8(s) <==> s == Encode(r)
    ensures ReverseOf(ReverseOf(s)) == Encode(r)
  {
    var rs := [r];
    assert rs[1..] == [];
    assert EncodeAll(rs) == Encode(r) + EncodeAll(rs[1..]);
    ReverseTwice(s);
    Utf8IffReencoded(s);
  }

  lemma EncodedReplacement(r: int)
    requires r == RUNE_ERROR
    ensures IsScalar(r) && Encode(r) == [0xEF, 0xBF, 0xBD]
  {
  }

  /** A byte that cannot stand alone is replaced by the three bytes of U+FFFD. */
  lemma SingleInvalidByteIsReplaced(s: Bytes)
    requires |s| == 1 && s[0] >= 0x80
    ensures !IsUtf8(s) && ReverseOf(ReverseOf(s)) == [0xEF, 0xBF, 0xBD]
  {
    SingleInvalidByte(s);
    var r := DecodeAll(s)[0];
    EncodedReplacement(r);
    StringOfOneRune(s, r);
  }

  /** The reversed string has the string's runes in reverse order. */
  lemma RunesOfReverse(s: Bytes)
    ensures IsUtf8(ReverseOf(s)) && |DecodeAll(ReverseOf(s))| == |DecodeAll(s)|
    ensures forall k :: 0 <= k < |DecodeAll(s)| ==>
      DecodeAll(ReverseOf(s))[k] == DecodeAll(s)[|DecodeAll(s)| - 1 - k]
  {
    DecodedAreScalar(s);
    DecodeAllUndoesEncodeAll(Reversed(DecodeAll(s)));
  }

  // ----- SubStr -----

  const MAX_INT := 0x7FFF_FFFF_FFFF_FFFF

  predicate IsInt(x: int) {
    -MAX_INT - 1 <= x <= MAX_INT
  }

  /** 64-bit addition. */
  function WrapAdd(a: int, b: int): int {
    if a + b > MAX_INT then a + b - 0x1_0000_0000_0000_0000
    else if a + b < -MAX_INT - 1 then a + b + 0x1_0000_0000_0000_0000
    else a + b
  }

  /** Byte offset of unit `k`. */
  function Offset(s: Bytes, k: nat): nat
    requires k <= |Units(s)|
  {
    |Concat(Units(s)[..k])|
  }

  /** Byte offset of unit `k` once `total` units have been passed, 0 if `k` is not among them. */
  function OffsetPassed(s: Bytes, k: int, total: nat): nat
    requires total <= |Units(s)|
  {
    if 0 <= k < total then Offset(s, k) else 0
  }

  lemma OffsetGrowsByUnit(s: Bytes, k: nat)
    requires k < |Units(s)|
    ensures Offset(s, k + 1) == Offset(s, k) + |Units(s)[k]|
  {
    var u := [Units(s)[k]];
    assert Units(s)[..k + 1] == Units(s)[..k] + u;
    ConcatOfSum(Units(s)[..k], u);
    assert Concat(u) == u[0] + Concat(u[1..]) == u[0];
  }

  lemma OffsetOfNext(s: Bytes, k: nat)
    requires k < |Units(s)| && Offset(s, k) < |s|
    requires Units(s[Offset(s, k)..]) == Units(s)[k..]
    ensures Offset(s, k + 1) == Offset(s, k) + DecodeRune(s[Offset(s, k)..]).1
    ensures Offset(s, k + 1) <= |s| && Units(s[Offset(s, k + 1)..]) == Units(s)[k + 1..]
  {
    var i := Offset(s, k);
    var n := DecodeRune(s[i..]).1;
    OffsetGrowsByUnit(s, k);
    assert Units(s)[k] == Units(s)[k..][0] == s[i..][..n];
    assert s[i..][n..] == s[i + n..];
    assert Units(s)[k..][1..] == Units(s)[k + 1..];
  }

  lemma ConcatOfSplit(us: seq<Bytes>, a: nat, b: nat)
    requires a <= b <= |us|
    ensures Concat(us[..b]) == Concat(us[..a]) + Concat(us[a..b])
  {
    ConcatOfSum(us[..a], us[a..b]);
    assert us[..a] + us[a..b] == us[..b];
  }

  lemma BytesOfUnits(s: Bytes, a: nat, b: nat)
    requires a <= b <= |Units(s)|
    ensures Offset(s, a) <= Offset(s, b) <= |s| && s[Offset(s, a)..Offset(s, b)] == Concat(Units(s)[a..b])
    ensures b == |Units(s)| ==> Offset(s, b) == |s|
  {
    var us := Units(s);
    ConcatOfSplit(us, a, b);
    ConcatOfPrefix(s, b);
    if b == |us| {
      ConcatUndoesUnits(s);
      assert us[..b] == us;
    }
  }

  /** One pass over the units of `content`; `None` stands for the panic of a slice expression whose bounds
      are out of order. */
  method SubStr(content: Bytes, start: int, length: int) returns (r: Option<Bytes>)
    requires IsInt(start) && IsInt(length) && IsInt(|content|)
    ensures r == SubStrOf(content, start, length)
  {
    var total, startByte, endByte := 0, 0, 0;
    var i := 0;
    var limit := WrapAdd(start, length);
    while i < |content|
      invariant 0 <= total <= |Units(content)| && i == Offset(content, total) <= |content|
      invariant Units(content[i..]) == Units(content)[total..]
      invariant startByte == OffsetPassed(content, start, total)
      invariant endByte == OffsetPassed(content, limit, total)
      decreases |content| - i
    {
      if total == start {
        startByte := i;
      }
      if total == limit {
        endByte := i;
      }
      var size := DecodeRune(content[i..]).1;
      OffsetOfNext(content, total);
      total := total + 1;
      i := i + size;
    }
    assert total == |Units(content)|;
    if start > total {
      return Some([]);
    }
    if start < 0 || length < 0 {
      startByte, endByte := 0, -1;
    } else {
      if start == total {
        return Some([]);
      }
      if limit >= total {
        endByte := |content|;
      }
      SliceInsideString(content, start, length);
    }
    return if 0 <= startByte <= endByte <= |content| then Some(content[startByte..endByte]) else None;
  }

  /** What `SubStr` returns: the units from `start` on, at most `length` of them. */
  function SubStrOf(content: Bytes, start: int, length: int): Option<Bytes> {
    var us := Units(content);
    if start > |us| then Some([])
    else if start < 0 || length < 0 then None
    else if start == |us| then Some([])
    else if start + length > MAX_INT then None
    else Some(Concat(us[start..if start + length < |us| then start + length else |us|]))
  }

  lemma OffsetsArePositive(s: Bytes, k: nat)
    requires 0 < k <= |Units(s)|
    ensures Offset(s, k) > 0
  {
    var us := Units(s)[..k];
    assert us[0] == Units(s)[0] && us[0] != [];
  }

  /** For a start inside the string the byte bounds delimit the wanted units, and a sum that overflows puts
      them out of order. */
  lemma SliceInsideString(content: Bytes, start: nat, length: nat)
    requires start < |Units(content)| && IsInt(start) && IsInt(length) && IsInt(|content|)
    ensures var total, limit := |Units(content)|, WrapAdd(start, length);
      var endByte := if limit >= total then |content| else OffsetPassed(content, limit, total);
      && 0 <= endByte <= |content|
      && SubStrOf(content, start, length)
         == if Offset(content, start) <= endByte then Some(content[Offset(content, start)..endByte]) else None
  {
    var total, limit := |Units(content)|, WrapAdd(start, length);
    UnitsAreNotMoreThanBytes(content);
    if start + length <= MAX_INT {
      BytesOfUnits(content, start, if limit < total then limit else total);
    } else {
      OffsetsArePositive(content, start);
    }
  }

  lemma {:induction false} UnitsAreNotMoreThanBytes(s: Bytes)
    ensures |Units(s)| <= |s|
  {
    if s != [] {
      UnitsAreNotMoreThanBytes(s[DecodeRune(s).1..]);
    }
  }

  // ----- in terms of runes -----

  /** Without overflow the result is the units between two bounds inside the string. */
  lemma SubStrCutsUnits(content: Bytes, start: nat, length: nat)
    requires start + length <= MAX_INT
    ensures var us := Units(content);
      SubStrOf(content, start, length) == Some(Concat(us[Min(start, |us|)..Min(start + length, |us|)]))
  {
    var us := Units(content);
    assert us[|us|..|us|] == [];
  }

  /** On every string, valid or not, the runes of the result are the runes `start` up to, not including,
      `start + length` of the string, as far as it has them. */
  lemma SubStrSlicesRunes(content: Bytes, start: nat, length: nat)
    requires start + length <= MAX_INT
    ensures SubStrOf(content, start, length).Some?
    ensures var rs := DecodeAll(content);
      DecodeAll(SubStrOf(content, start, length).value) == rs[Min(start, |rs|)..Min(start + length, |rs|)]
  {
    var n := |Units(content)|;
    RunesOfUnits(content);
    SubStrCutsUnits(content, start, length);
    RunesOfSlice(content, Min(start, n), Min(start + length, n));
  }

  lemma RunesOfSlice(s: Bytes, a: nat, b: nat)
    requires a <= b <= |Units(s)|
    ensures b <= |DecodeAll(s)| && DecodeAll(Concat(Units(s)[a..b])) == DecodeAll(s)[a..b]
  {
    var t := Concat(Units(s)[a..b]);
    UnitsOfSlice(s, a, b);
    RunesOfUnits(s);
    RunesOfUnits(t);
    forall k | 0 <= k < b - a ensures DecodeAll(t)[k] == DecodeAll(s)[a + k] {
      assert Units(t)[k] == Units(s)[a + k];
    }
  }

  lemma {:induction false} UnitsOfEncoded(rs: seq<int>)
    requires AllScalar(rs)
    ensures |Units(EncodeAll(rs))| == |rs|
    ensures forall k :: 0 <= k < |rs| ==> Units(EncodeAll(rs))[k] == Encode(rs[k])
  {
    if rs != [] {
      var rest := EncodeAll(rs[1..]);
      DecodeUndoesEncode(rs[0], rest);
      var first := Encode(rs[0]);
      assert (first + rest)[|first|..] == rest && (first + rest)[..|first|] == first;
      UnitsOfEncoded(rs[1..]);
    }
  }

  lemma {:induction false} ConcatOfEncoded(us: seq<Bytes>, rs: seq<int>)
    requires |us| == |rs| && AllScalar(rs) && forall k :: 0 <= k < |rs| ==> us[k] == Encode(rs[k])
    ensures Concat(us) == EncodeAll(rs)
  {
    if us != [] {
      ConcatOfEncoded(us[1..], rs[1..]);
    }
  }

  lemma SliceOfUtf8Units(content: Bytes, a: nat, b: nat)
    requires IsUtf8(content) && a <= b <= |Units(content)|
    ensures b <= |DecodeAll(content)| && AllScalar(DecodeAll(content))
    ensures Concat(Units(content)[a..b]) == EncodeAll(DecodeAll(content)[a..b])
  {
    var rs := DecodeAll(content);
    Utf8IffReencoded(content);
    UnitsOfEncoded(rs);
    forall k | 0 <= k < b - a ensures Units(content)[a..b][k] == Encode(rs[a..b][k]) {
      assert Units(content)[a + k] == Encode(rs[a + k]);
    }
    ConcatOfEncoded(Units(content)[a..b], rs[a..b]);
  }

  /** On UTF-8 it is the encoding of a slice of the rune sequence. */
  lemma SubStrOfUtf8(content: Bytes, start: nat, length: nat)
    requires IsUtf8(content) && start + length <= MAX_INT
    ensures AllScalar(DecodeAll(content)) && SubStrOf(content, start, length).Some?
    ensures var rs := DecodeAll(content);
      SubStrOf(content, start, length).value == EncodeAll(rs[Min(start, |rs|)..Min(start + length, |rs|)])
  {
    var n := |Units(content)|;
    RunesOfUnits(content);
    SubStrCutsUnits(content, start, length);
    SliceOfUtf8Units(content, Min(start, n), Min(start + length, n));
  }

  /** When `SubStr` panics: the start lies inside the string and an argument is negative, or their sum
      overflows although both are not negative.  From the end of the string on there is nothing to return. */
  lemma WhenSubStrPanics(content: Bytes, start: int, length: int)
    requires IsInt(start) && IsInt(length)
    ensures SubStrOf(content, start, length) == None <==>
              start <= |DecodeAll(content)|
              && (start < 0 || length < 0 || (start < |DecodeAll(content)| && start + length > MAX_INT))
    ensures start > |DecodeAll(content)| || (start == |DecodeAll(content)| && length >= 0) ==>
              SubStrOf(content, start, length) == Some([])
  {
    RunesOfUnits(content);
  }

  lemma {:induction false} AsciiRunes(s: Bytes)
    requires forall i :: 0 <= i < |s| ==> s[i] < 0x80
    ensures DecodeAll(s) == s
  {
    if s != [] {
      AsciiRunes(s[1..]);
      assert s == [s[0]] + s[1..];
    }
  }

  /** Asking for the rest of an ASCII string behind its first byte by the largest length panics, by one less not. */
  lemma LargestLengthPanics(s: Bytes)
    requires |s| >= 2 && forall i :: 0 <= i < |s| ==> s[i] < 0x80
    ensures SubStrOf(s, 1, MAX_INT) == None
    ensures SubStrOf(s, 1, MAX_INT - 1).Some?
    ensures |s| <= MAX_INT ==> DecodeAll(SubStrOf(s, 1, MAX_INT - 1).value) == s[1..]
  {
    AsciiRunes(s);
    WhenSubStrPanics(s, 1, MAX_INT);
    SubStrSlicesRunes(s, 1, MAX_INT - 1);
  }
}
