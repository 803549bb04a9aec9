/** Printing directory identifiers: security identifiers and GUIDs (`ldap/utils.go`).

    Texts are Go strings, so sequences of bytes: each character of a `string` here stands
    for one byte, and lengths and slices count bytes, whatever a caller passes. */
module DirectoryIds {
  import opened Prelude
  import opened Bits
  import opened Numerals

  // ----- dash-separated texts -----

  function JoinDash(ts: seq<string>): string
    requires ts != []
  {
    if |ts| == 1 then ts[0] else ts[0] + "-" + JoinDash(ts[1..])
  }

  function SplitDash(s: string): (ts: seq<string>)
    ensures ts != []
  {
    if s == [] then [""]
    else
      var rest := SplitDash(s[1..]);
      if s[0] == '-' then [""] + rest else [[s[0]] + rest[0]] + rest[1..]
  }

  lemma {:induction false} SplitFirst(t: string, s: string)
    requires '-' !in t
    ensures SplitDash(t) == [t]
    ensures SplitDash(t + "-" + s) == [t] + SplitDash(s)
  {
    if t == "" {
      assert ("" + "-" + s)[1..] == s;
    } else {
      SplitFirst(t[1..], s);
      assert (t + "-" + s)[1..] == t[1..] + "-" + s;
      assert t == [t[0]] + t[1..];
    }
  }

  lemma {:induction false} SplitUndoesJoin(ts: seq<string>)
    requires ts != [] && forall i :: 0 <= i < |ts| ==> '-' !in ts[i]
    ensures SplitDash(JoinDash(ts)) == ts
  {
    if |ts| == 1 {
      SplitFirst(ts[0], "");
    } else {
      SplitFirst(ts[0], JoinDash(ts[1..]));
      SplitUndoesJoin(ts[1..]);
    }
  }

  lemma {:induction false} JoinGrows(ts: seq<string>, t: string)
    requires ts != []
    ensures JoinDash(ts + [t]) == JoinDash(ts) + "-" + t
  {
    if |ts| == 1 {
      assert (ts + [t])[1..] == [t];
    } else {
      JoinGrows(ts[1..], t);
      assert (ts + [t])[1..] == ts[1..] + [t];
    }
  }

  lemma JoinOfThree(x: string, y: string, z: string)
    ensures JoinDash([x, y, z]) == x + "-" + y + "-" + z
  {
    var yz := [y, z];
    assert [x, y, z][1..] == yz && yz[1..] == [z];
    assert JoinDash(yz) == y + "-" + z;
    assert x + "-" + (y + "-" + z) == x + "-" + y + "-" + z;
  }

  // ----- security identifiers -----

  /** The length that byte 1 announces: eight bytes of header and four for each sub-authority. */
  function SidLength(b: Bytes): nat
    requires |b| >= 8
  {
    var count: int := b[1];
    8 + 4 * count
  }

  predicate IsComplete(b: Bytes) {
    |b| >= 8 && |b| >= SidLength(b)
  }

  /** The bytes of a complete identifier, without what may follow it. */
  function SidBytes(b: Bytes): Bytes
    requires IsComplete(b)
  {
    b[..SidLength(b)]
  }

  /** The four bytes of sub-authority `i`. */
  function Word(b: Bytes, i: nat): (w: Bytes)
    requires 12 + 4 * i <= |b|
    ensures |w| == 4
  {
    b[8 + 4 * i..12 + 4 * i]
  }

  /** Sub-authority `i`, stored least significant byte first. */
  function SubAuthority(b: Bytes, i: nat): nat
    requires 12 + 4 * i <= |b|
  {
    LittleEndian(Word(b, i))
  }

  /** The printed header: "S", the revision, and the authority in hexadecimal. */
  function HeaderParts(b: Bytes): (ts: seq<string>)
    requires |b| >= 8
    ensures |ts| == 3
  {
    ["S", Numeral(b[0], 10), Numeral(BigEndian(b[2..8]), 16)]
  }

  /** The first `n` sub-authorities, printed. */
  function SubParts(b: Bytes, n: nat): (ts: seq<string>)
    requires 8 + 4 * n <= |b|
    ensures |ts| == n
  {
    seq(n, i requires 0 <= i < n => Numeral(SubAuthority(b, i), 10))
  }

  function SidText(b: Bytes): string {
    if IsComplete(b) then JoinDash(HeaderParts(b) + SubParts(b, b[1])) else ""
  }

  /** Or-ing in the next byte of a big-endian number. */
  lemma AuthorityStep(bs: Bytes, i: nat)
    requires |bs| == 6 && i < 6
    ensures BitOr(BigEndian(bs[..i]) * Pow2(8 * (6 - i)), ShiftLeft(bs[i], 8 * (5 - i)))
            == BigEndian(bs[..i + 1]) * Pow2(8 * (5 - i))
  {
    var a, p := BigEndian(bs[..i]), Pow2(8 * (5 - i));
    Pow2Byte(5 - i);
    ShiftedByte(a, bs[i], p);
    OrOfDisjointAdds(a, ShiftLeft(bs[i], 8 * (5 - i)), 8 * (6 - i));
    BigEndianGrows(bs, i);
  }

  lemma BigEndianGrows(bs: Bytes, i: nat)
    requires i < |bs|
    ensures BigEndian(bs[..i + 1]) == BigEndian(bs[..i]) * 256 + bs[i]
  {
    assert bs[..i + 1][..i] == bs[..i];
  }

  lemma ShiftedByte(a: nat, b: byte, p: nat)
    requires p > 0
    ensures b * p < 256 * p && a * (256 * p) + b * p == (a * 256 + b) * p
  {
    assert 256 * p - b * p == (256 - b) * p;
  }

  /** Or-ing in the next byte of a little-endian number. */
  lemma SubAuthorityStep(bs: Bytes, k: nat)
    requires k < |bs|
    ensures BitOr(LittleEndian(bs[..k]), ShiftLeft(bs[k], 8 * k)) == LittleEndian(bs[..k + 1])
  {
    LittleEndianGrows(bs[..k], bs[k]);
    LittleEndianBound(bs[..k]);
    OrOfDisjointAdds(bs[k], LittleEndian(bs[..k]), 8 * k);
    assert bs[..k + 1] == bs[..k] + [bs[k]];
  }

  /** The inner loop: assembles a sub-authority from its four bytes. */
  method ReadSubAuthority(b: Bytes, offset: nat) returns (subAuthority: nat)
    requires offset + 4 <= |b|
    ensures subAuthority == LittleEndian(b[offset..offset + 4])
  {
    subAuthority := 0;
    ghost var bs := b[offset..offset + 4];
    assert bs[..0] == [];
    for k := 0 to 4
      invariant subAuthority == LittleEndian(bs[..k])
    {
      SubAuthorityStep(bs, k);
      subAuthority := BitOr(subAuthority, ShiftLeft(b[offset + k], 8 * k));
    }
    assert bs[..4] == bs;
  }

  /** The loop over the six bytes of the authority. */
  method ReadAuthority(b: Bytes) returns (authority: nat)
    requires |b| >= 8
    ensures authority == BigEndian(b[2..8])
  {
    authority := 0;
    ghost var field := b[2..8];
    assert field[..0] == [];
    for i := 2 to 8
      invariant authority == BigEndian(field[..i - 2]) * Pow2(8 * (8 - i))
    {
      AuthorityStep(field, i - 2);
      authority := BitOr(authority, ShiftLeft(b[i], 8 * (5 - (i - 2))));
    }
    assert field[..6] == field;
  }

  lemma HeaderJoined(b: Bytes)
    requires |b| >= 8
    ensures "S-" + Numeral(b[0], 10) + "-" + Numeral(BigEndian(b[2..8]), 16)
            == JoinDash(HeaderParts(b) + SubParts(b, 0))
  {
    var header := HeaderParts(b);
    JoinOfThree(header[0], header[1], header[2]);
    assert header + SubParts(b, 0) == header;
  }

  lemma OneMoreSubPart(b: Bytes, i: nat)
    requires 12 + 4 * i <= |b|
    ensures JoinDash(HeaderParts(b) + SubParts(b, i + 1))
            == JoinDash(HeaderParts(b) + SubParts(b, i)) + "-" + Numeral(SubAuthority(b, i), 10)
  {
    var before, part := HeaderParts(b) + SubParts(b, i), Numeral(SubAuthority(b, i), 10);
    JoinGrows(before, part);
    assert before + [part] == HeaderParts(b) + SubParts(b, i + 1);
  }

  method DecodeSID(b: Bytes) returns (sid: string)
    ensures sid == SidText(b)
  {
    if |b| < 8 {
      return "";
    }
    var sb := "S-" + Numeral(b[0], 10);
    var authority := ReadAuthority(b);
    sb := sb + "-" + Numeral(authority, 16);
    HeaderJoined(b);
    var offset := 8;
    var subAuthorityCount: int := b[1];
    for i := 0 to subAuthorityCount
      invariant offset == 8 + 4 * i <= |b|
      invariant sb == JoinDash(HeaderParts(b) + SubParts(b, i))
    {
      if offset + 4 > |b| {
        return "";
      }
      var subAuthority := ReadSubAuthority(b, offset);
      OneMoreSubPart(b, i);
      sb := sb + "-" + Numeral(subAuthority, 10);
      offset := offset + 4;
    }
    return sb;
  }

  /** Four bytes for each printed sub-authority. */
  function ParseSubAuthorities(ts: seq<string>): Bytes {
    seq(4 * |ts|, j requires 0 <= j < 4 * |ts| => ToLittleEndian(ValueOf(ts[j / 4], 10), 4)[j % 4])
  }

  /** The bytes a printed identifier stands for. */
  function ParseSid(s: string): Option<Bytes> {
    var ts := SplitDash(s);
    if |ts| < 3 || ts[0] != "S" || ValueOf(ts[1], 10) >= 256 || |ts| - 3 >= 256 then None
    else Some([ValueOf(ts[1], 10), |ts| - 3] + ToBigEndian(ValueOf(ts[2], 16), 6) + ParseSubAuthorities(ts[3..]))
  }

  lemma DigitsHaveNoDash(n: nat, base: nat)
    requires 2 <= base <= 16
    ensures '-' !in Numeral(n, base)
  {
    NumeralHasDigitsOnly(n, base);
  }

  /** The printed text falls back into its parts. */
  lemma SplitSidText(b: Bytes)
    requires IsComplete(b)
    ensures SplitDash(SidText(b)) == HeaderParts(b) + SubParts(b, b[1])
  {
    DigitsHaveNoDash(b[0], 10);
    DigitsHaveNoDash(BigEndian(b[2..8]), 16);
    forall i | 0 <= i < b[1] ensures '-' !in SubParts(b, b[1])[i] {
      DigitsHaveNoDash(SubAuthority(b, i), 10);
    }
    SplitUndoesJoin(HeaderParts(b) + SubParts(b, b[1]));
  }

  lemma SubAuthorityParses(bs: Bytes)
    ensures ToLittleEndian(ValueOf(Numeral(LittleEndian(bs), 10), 10), |bs|) == bs
  {
    ValueOfNumeral(LittleEndian(bs), 10);
    ToLittleEndianUndoes(bs);
  }

  lemma SubAuthoritiesParse(b: Bytes, n: nat)
    requires 8 + 4 * n <= |b|
    ensures ParseSubAuthorities(SubParts(b, n)) == b[8..8 + 4 * n]
  {
    var ts := SubParts(b, n);
    forall i | 0 <= i < n ensures ToLittleEndian(ValueOf(ts[i], 10), 4) == Word(b, i) {
      SubAuthorityParses(Word(b, i));
    }
    WordsMakeBytes(b, n, ts);
  }

  lemma WordsMakeBytes(b: Bytes, n: nat, ts: seq<string>)
    requires 8 + 4 * n <= |b| && |ts| == n
    requires forall i :: 0 <= i < n ==> ToLittleEndian(ValueOf(ts[i], 10), 4) == Word(b, i)
    ensures ParseSubAuthorities(ts) == b[8..8 + 4 * n]
  {
    forall j | 0 <= j < 4 * n ensures ParseSubAuthorities(ts)[j] == b[8 + j] {
      assert ToLittleEndian(ValueOf(ts[j / 4], 10), 4) == Word(b, j / 4);
      assert Word(b, j / 4)[j % 4] == b[8 + 4 * (j / 4) + j % 4];
    }
  }

  /** The printed form of complete bytes can be read back: header, authority and the announced sub-authorities. */
  lemma ParseUndoesSidText(b: Bytes)
    requires IsComplete(b)
    ensures ParseSid(SidText(b)) == Some(SidBytes(b))
  {
    var n: int := b[1];
    SplitSidText(b);
    assert (HeaderParts(b) + SubParts(b, n))[3..] == SubParts(b, n);
    ValueOfNumeral(b[0], 10);
    ValueOfNumeral(BigEndian(b[2..8]), 16);
    ToBigEndianUndoes(b[2..8]);
    SubAuthoritiesParse(b, n);
    assert b[..8 + 4 * n] == [b[0], b[1]] + b[2..8] + b[8..8 + 4 * n];
  }

  /** The text is empty exactly for incomplete bytes. */
  lemma SidTextIsEmptyIffIncomplete(b: Bytes)
    ensures SidText(b) == "" <==> |b| < 8 || |b| < 8 + 4 * (b[1] as int)
  {
    if IsComplete(b) {
      SplitSidText(b);
      assert SplitDash("") == [""];
    }
  }

  /** What follows the announced sub-authorities is ignored. */
  lemma SidTextOfSidBytes(b: Bytes)
    requires IsComplete(b)
    ensures IsComplete(SidBytes(b)) && SidText(SidBytes(b)) == SidText(b)
  {
    var x := SidBytes(b);
    assert x[0] == b[0] && x[1] == b[1] && x[2..8] == b[2..8];
    assert HeaderParts(x) == HeaderParts(b);
    forall i | 0 <= i < b[1] ensures SubParts(x, x[1])[i] == SubParts(b, b[1])[i] {
      assert Word(x, i) == Word(b, i);
    }
    assert SubParts(x, x[1]) == SubParts(b, b[1]);
  }

  /** The text tells apart any two complete byte sequences that differ in the bytes it is made of. */
  lemma SidTextIsInjective(b: Bytes, c: Bytes)
    requires IsComplete(b) && IsComplete(c)
    ensures SidText(b) == SidText(c) <==> SidBytes(b) == SidBytes(c)
  {
    ParseUndoesSidText(b);
    ParseUndoesSidText(c);
    SidTextOfSidBytes(b);
    SidTextOfSidBytes(c);
  }

  // ----- GUIDs -----

  /** The bytes in printing order: the first three fields are stored least significant byte first. */
  function PrintOrder(b: Bytes): (r: Bytes)
    requires |b| >= 16
    ensures |r| == 16
  {
    [b[3], b[2], b[1], b[0], b[5], b[4], b[7], b[6]] + b[8..16]
  }

  /** Groups of hexadecimal digits with dashes between them. */
  function DashedGroups(gs: seq<Bytes>): string
    requires gs != []
  {
    if |gs| == 1 then HexOf(gs[0]) else HexOf(gs[0]) + "-" + DashedGroups(gs[1..])
  }

  function ConvertToDashedString(guid: Bytes): string {
    if |guid| >= 16 then
      DashedGroups([
        [guid[3], guid[2], guid[1], guid[0]], [guid[5], guid[4]], [guid[7], guid[6]], [guid[8], guid[9]], guid[10..16]])
    else ""
  }

  /** The printed form: 36 characters, the digits of the bytes in groups of 4, 2, 2, 2 and 6, the first three groups
      last byte first, with dashes at 8, 13, 18 and 23; nothing for fewer than 16 bytes. */
  lemma DashedLayout(b: Bytes)
    ensures |b| < 16 ==> ConvertToDashedString(b) == ""
    ensures |b| >= 16 ==>
              var s := ConvertToDashedString(b);
              && |s| == 36 && s[8] == s[13] == s[18] == s[23] == '-'
              && s[..8] == HexOf([b[3], b[2], b[1], b[0]])
              && s[9..13] == HexOf([b[5], b[4]]) && s[14..18] == HexOf([b[7], b[6]])
              && s[19..23] == HexOf([b[8], b[9]]) && s[24..] == HexOf(b[10..16])
  {
    if |b| >= 16 {
      var gs: seq<Bytes> := [[b[3], b[2], b[1], b[0]], [b[5], b[4]], [b[7], b[6]], [b[8], b[9]], b[10..16]];
      FiveGroups(gs);
      GroupsLaidOut(HexOf(gs[0]), HexOf(gs[1]), HexOf(gs[2]), HexOf(gs[3]), HexOf(gs[4]));
    }
  }

  lemma FiveGroups(gs: seq<Bytes>)
    requires |gs| == 5
    ensures DashedGroups(gs)
            == HexOf(gs[0]) + "-" + (HexOf(gs[1]) + "-" + (HexOf(gs[2]) + "-" + (HexOf(gs[3]) + "-" + HexOf(gs[4]))))
  {
    var tail4, tail3, tail2, tail1 := gs[4..], gs[3..], gs[2..], gs[1..];
    assert tail3[1..] == tail4 && tail2[1..] == tail3 && tail1[1..] == tail2;
    assert DashedGroups(tail4) == HexOf(gs[4]);
    assert DashedGroups(tail3) == HexOf(gs[3]) + "-" + HexOf(gs[4]);
    assert DashedGroups(tail2) == HexOf(gs[2]) + "-" + DashedGroups(tail3);
    assert DashedGroups(tail1) == HexOf(gs[1]) + "-" + DashedGroups(tail2);
  }

  lemma DashAfter(h: string, rest: string)
    ensures var s := h + "-" + rest; s[..|h|] == h && s[|h|] == '-' && s[|h| + 1..] == rest
  {
  }

  lemma SliceOfTail(s: string, a: nat, b: nat, c: nat)
    requires a + b <= a + c <= |s|
    ensures s[a..][b..c] == s[a + b..a + c]
  {
  }

  lemma GroupsLaidOut(h1: string, h2: string, h3: string, h4: string, h5: string)
    requires |h1| == 8 && |h2| == |h3| == |h4| == 4 && |h5| == 12
    ensures var s := h1 + "-" + (h2 + "-" + (h3 + "-" + (h4 + "-" + h5)));
      && |s| == 36 && s[8] == s[13] == s[18] == s[23] == '-' && s[..8] == h1
      && s[9..13] == h2 && s[14..18] == h3 && s[19..23] == h4 && s[24..] == h5
  {
    var t4 := h4 + "-" + h5;
    var t3 := h3 + "-" + t4;
    var t2 := h2 + "-" + t3;
    var s := h1 + "-" + t2;
    DashAfter(h1, t2);
    DashAfter(h2, t3);
    DashAfter(h3, t4);
    DashAfter(h4, h5);
    assert s[9..] == t2 && s[14..] == t3 && s[19..] == t4 && s[24..] == h5;
    SliceOfTail(s, 9, 0, 4);
    SliceOfTail(s, 14, 0, 4);
    SliceOfTail(s, 19, 0, 4);
  }

  predicate IsStripped(c: char) {
    c == '{' || c == '}' || c == '-'
  }

  /** Without braces and dashes. */
  function Strip(s: string): string {
    if s == "" then "" else if IsStripped(s[0]) then Strip(s[1..]) else [s[0]] + Strip(s[1..])
  }

  const IDXS := [3, 2, 1, 0, 5, 4, 7, 6, 8, 9, 10, 11, 12, 13, 14, 15]

  /** The digit pairs at the first `n` indexes, each after a backslash. */
  function EscapedPairs(strip: string, n: nat): string
    requires |strip| == 32 && n <= 16
  {
    seq(3 * n, j requires 0 <= j < 3 * n => if j % 3 == 0 then '\\' else strip[IDXS[j / 3] * 2 + j % 3 - 1])
  }

  function OctetString(guid: string): string {
    if |Strip(guid)| == 32 then EscapedPairs(Strip(guid), 16) else ""
  }

  lemma OneMorePair(strip: string, n: nat)
    requires |strip| == 32 && n < 16
    ensures EscapedPairs(strip, n + 1) == EscapedPairs(strip, n) + "\\" + strip[IDXS[n] * 2..IDXS[n] * 2 + 2]
  {
    var t := EscapedPairs(strip, n) + "\\" + strip[IDXS[n] * 2..IDXS[n] * 2 + 2];
    forall j | 0 <= j < 3 * n + 3 ensures EscapedPairs(strip, n + 1)[j] == t[j] {
      if j >= 3 * n {
        assert j / 3 == n;
      }
    }
  }

  method GuidToOctetString(guid: string) returns (r: string)
    ensures r == OctetString(guid)
  {
    var strip := Strip(guid);
    if |strip| != 32 {
      return "";
    }
    var buffer := "";
    for i := 0 to |IDXS|
      invariant buffer == EscapedPairs(strip, i)
    {
      var idx := IDXS[i];
      OneMorePair(strip, i);
      buffer := buffer + "\\" + strip[idx * 2..idx * 2 + 2];
    }
    return buffer;
  }

  lemma SameWhenStripped(s: string, t: string)
    requires Strip(s) == Strip(t)
    ensures OctetString(s) == OctetString(t)
  {
  }

  /** Braces and dashes anywhere in the text change nothing. */
  lemma BracesAndDashesAreIgnored(s: string, t: string, c: char)
    requires c == '{' || c == '}' || c == '-'
    ensures OctetString(s + [c] + t) == OctetString(s + t)
  {
    StripOfSum(s + [c], t);
    StripOfSum(s, [c]);
    StripOfSum(s, t);
    assert Strip([c]) == "";
    SameWhenStripped(s + [c] + t, s + t);
  }

  lemma EscapedPairAt(strip: string, i: nat)
    requires |strip| == 32 && i < 16
    ensures 0 <= IDXS[i] < 16 && |EscapedPairs(strip, 16)| == 48
    ensures EscapedPairs(strip, 16)[3 * i] == '\\'
    ensures EscapedPairs(strip, 16)[3 * i + 1] == strip[2 * IDXS[i]]
    ensures EscapedPairs(strip, 16)[3 * i + 2] == strip[2 * IDXS[i] + 1]
  {
    assert (3 * i + 1) / 3 == i && (3 * i + 2) / 3 == i;
  }

  /** A text of 32 other characters gives its pairs in index order ... */
  lemma OctetStringOfOthers(s: string, i: nat)
    requires '{' !in s && '}' !in s && '-' !in s && |s| == 32 && i < 16
    ensures 0 <= IDXS[i] < 16 && |OctetString(s)| == 48
    ensures OctetString(s)[3 * i] == '\\'
    ensures OctetString(s)[3 * i + 1] == s[2 * IDXS[i]] && OctetString(s)[3 * i + 2] == s[2 * IDXS[i] + 1]
  {
    NothingToStrip(s);
    EscapedPairAt(s, i);
    assert OctetString(s) == EscapedPairs(s, 16);
  }

  /** ... and any other number of them nothing. */
  lemma OctetStringNeeds32(s: string)
    requires '{' !in s && '}' !in s && '-' !in s && |s| != 32
    ensures OctetString(s) == ""
  {
    NothingToStrip(s);
  }

  lemma {:induction false} NothingToStrip(s: string)
    requires '{' !in s && '}' !in s && '-' !in s
    ensures Strip(s) == s
  {
    if s != "" {
      NothingToStrip(s[1..]);
    }
  }

  /** Every byte as a backslash and two digits: the escaped octets of section 3 of RFC 4515. */
  function EscapedOctets(bs: Bytes): (s: string)
    ensures |s| == 3 * |bs|
  {
    seq(3 * |bs|, j requires 0 <= j < 3 * |bs| => if j % 3 == 0 then '\\' else Hex2(bs[j / 3])[j % 3 - 1])
  }

  lemma {:induction false} StripOfSum(a: string, b: string)
    ensures Strip(a + b) == Strip(a) + Strip(b)
  {
    if a == "" {
      assert a + b == b;
    } else {
      StripOfSum(a[1..], b);
      assert (a + b)[1..] == a[1..] + b && (a + b)[0] == a[0];
    }
  }

  lemma {:induction false} StripKeepsDigits(s: string)
    requires AllDigits(s)
    ensures Strip(s) == s
  {
    if s != "" {
      StripKeepsDigits(s[1..]);
    }
  }

  lemma StripOfHex(bs: Bytes)
    ensures Strip(HexOf(bs)) == HexOf(bs)
  {
    forall j | 0 <= j < 2 * |bs| ensures IsDigit(HexOf(bs)[j]) {
      DigitRoundTrip(bs[j / 2] / 16);
      DigitRoundTrip(bs[j / 2] % 16);
    }
    StripKeepsDigits(HexOf(bs));
  }

  lemma StripOfDashed(a: string, b: string)
    ensures Strip(a + "-" + b) == Strip(a) + Strip(b)
  {
    StripOfSum(a + "-", b);
    StripOfSum(a, "-");
    assert Strip("-") == "";
  }

  lemma {:induction false} StripOfGroups(gs: seq<Bytes>)
    requires gs != []
    ensures Strip(DashedGroups(gs)) == HexOf(Concat(gs))
  {
    var h := HexOf(gs[0]);
    StripOfHex(gs[0]);
    if |gs| == 1 {
      assert gs[1..] == [] && gs[0] + [] == gs[0];
    } else {
      StripOfGroups(gs[1..]);
      StripOfDashed(h, DashedGroups(gs[1..]));
      HexOfSum(gs[0], Concat(gs[1..]));
    }
  }

  lemma StripDashed(b: Bytes)
    requires |b| >= 16
    ensures Strip(ConvertToDashedString(b)) == HexOf(PrintOrder(b))
  {
    var gs: seq<Bytes> := [[b[3], b[2], b[1], b[0]], [b[5], b[4]], [b[7], b[6]], [b[8], b[9]], b[10..16]];
    StripOfGroups(gs);
    ConcatOfFive(gs);
    assert gs[0] + gs[1] + gs[2] + gs[3] + gs[4] == PrintOrder(b);
  }

  lemma ConcatOfFive(gs: seq<Bytes>)
    requires |gs| == 5
    ensures Concat(gs) == gs[0] + gs[1] + gs[2] + gs[3] + gs[4]
  {
    var tail5, tail4, tail3, tail2, tail1 := gs[5..], gs[4..], gs[3..], gs[2..], gs[1..];
    assert tail4[1..] == tail5 && tail3[1..] == tail4 && tail2[1..] == tail3 && tail1[1..] == tail2;
    assert Concat(tail4) == gs[4] + Concat(tail5) == gs[4];
    assert Concat(tail3) == gs[3] + gs[4];
    assert Concat(tail2) == gs[2] + gs[3] + gs[4];
    assert Concat(tail1) == gs[1] + gs[2] + gs[3] + gs[4];
  }

  lemma IndexesUndoPrintOrder(b: Bytes, i: nat)
    requires |b| >= 16 && i < 16
    ensures 0 <= IDXS[i] < 16 && PrintOrder(b)[IDXS[i]] == b[i]
  {
  }

  lemma HexAt(bs: Bytes, i: nat, d: nat)
    requires i < |bs| && d < 2
    ensures HexOf(bs)[i * 2 + d] == Hex2(bs[i])[d]
  {
    assert (i * 2 + d) / 2 == i;
  }

  lemma PairsAreEscapedOctets(b: Bytes)
    requires |b| >= 16
    ensures EscapedPairs(HexOf(PrintOrder(b)), 16) == EscapedOctets(b[..16])
  {
    var strip := HexOf(PrintOrder(b));
    forall j | 0 <= j < 48 ensures EscapedPairs(strip, 16)[j] == EscapedOctets(b[..16])[j] {
      var i, d := j / 3, j % 3 - 1;
      if d >= 0 {
        IndexesUndoPrintOrder(b, i);
        HexAt(PrintOrder(b), IDXS[i], d);
      }
    }
  }

  /** For all GUIDs, printing and escaping together give the 16 bytes in their raw order. */
  lemma OctetStringOfDashedIsRaw(b: Bytes)
    requires |b| >= 16
    ensures OctetString(ConvertToDashedString(b)) == EscapedOctets(b[..16])
  {
    StripDashed(b);
    PairsAreEscapedOctets(b);
  }

  function Unescape(s: string): (bs: Bytes)
    requires |s| % 3 == 0
    ensures |bs| == |s| / 3
  {
    seq(|s| / 3, i requires 0 <= i < |s| / 3 => ByteOfHex(s[3 * i + 1], s[3 * i + 2]))
  }

  function ByteOfHex(high: char, low: char): byte {
    (DigitValue(high) * 16 + DigitValue(low)) % 256
  }

  lemma ByteOfHexUndoes(b: byte)
    ensures ByteOfHex(Hex2(b)[0], Hex2(b)[1]) == b
  {
    DigitRoundTrip(b / 16);
    DigitRoundTrip(b % 16);
  }

  lemma EscapedAt(bs: Bytes, i: nat)
    requires i < |bs|
    ensures EscapedOctets(bs)[3 * i + 1] == Hex2(bs[i])[0] && EscapedOctets(bs)[3 * i + 2] == Hex2(bs[i])[1]
  {
    assert (3 * i + 1) / 3 == i && (3 * i + 2) / 3 == i;
  }

  lemma UnescapedAt(s: string, i: nat, b: byte)
    requires |s| % 3 == 0 && i < |s| / 3 && s[3 * i + 1] == Hex2(b)[0] && s[3 * i + 2] == Hex2(b)[1]
    ensures Unescape(s)[i] == b
  {
    ByteOfHexUndoes(b);
  }

  lemma UnescapeUndoes(bs: Bytes)
    ensures Unescape(EscapedOctets(bs)) == bs
  {
    var s := EscapedOctets(bs);
    assert |s| / 3 == |bs|;
    forall i | 0 <= i < |bs| ensures Unescape(s)[i] == bs[i] {
      EscapedAt(bs, i);
      UnescapedAt(s, i, bs[i]);
    }
  }

  /** The dashed form tells all GUIDs apart. */
  lemma DashedStringIsInjective(b: Bytes, c: Bytes)
    requires |b| >= 16 && |c| >= 16
    ensures ConvertToDashedString(b) == ConvertToDashedString(c) <==> b[..16] == c[..16]
  {
    OctetStringOfDashedIsRaw(b);
    OctetStringOfDashedIsRaw(c);
    UnescapeUndoes(b[..16]);
    UnescapeUndoes(c[..16]);
    if b[..16] == c[..16] {
      assert forall i :: 0 <= i < 16 ==> b[i] == b[..16][i] && c[i] == c[..16][i];
      assert b[10..16] == c[10..16];
    }
  }
}
