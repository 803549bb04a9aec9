/** The rules by which a scalar of the configuration gets its value (`app/v3/config/basic/config.go`), one by one
    and in terms of the tag, the environment and the parsers alone. */
module ConfigPrecedence {
  import opened Prelude
  import opened Bits
  import opened ConfigTree

  // ----- what a text spells -----

  function BitsOf(w: Width): nat {
    match w
    case W8 => 8
    case W16 => 16
    case W32 => 32
    case W64 => 64
  }

  predicate DiffersBy(x: int, y: int, q: int, m: int) {
    x == y + q * m
  }

  /** `y` is the signed integer of the width that has the low bits of `x`. */
  ghost predicate IsLowInt(w: Width, x: int, y: int) {
    0 <= y + Pow2(BitsOf(w) - 1) < Pow2(BitsOf(w)) && exists q :: DiffersBy(x, y, q, Pow2(BitsOf(w)))
  }

  ghost predicate IsLowUInt(w: Width, x: int, y: int) {
    0 <= y < Pow2(BitsOf(w)) && exists q :: DiffersBy(x, y, q, Pow2(BitsOf(w)))
  }

  lemma Pow2OfWidth(w: Width)
    ensures Pow2(BitsOf(w)) == Modulus(w) && Pow2(BitsOf(w) - 1) == Modulus(w) / 2
  {
    var n := BitsOf(w);
    Pow2Of8();
    Pow2Doubles(8, 16);
    Pow2Doubles(16, 32);
    Pow2Doubles(32, 64);
    assert Pow2(n) == 2 * Pow2(n - 1);
  }

  lemma Pow2Doubles(n: nat, m: nat)
    requires m == n + n
    ensures Pow2(m) == Pow2(n) * Pow2(n)
  {
    Pow2Sum(n, n);
  }

  lemma WrappedIsLow(w: Width, x: int)
    ensures IsLowInt(w, x, WrapInt(w, x)) && IsLowUInt(w, x, WrapUInt(w, x))
  {
    Pow2OfWidth(w);
    WrapInRange(w, x);
    var m := Modulus(w);
    QuotientAndRemainder(x + m / 2, m);
    QuotientAndRemainder(x, m);
    assert DiffersBy(x, WrapInt(w, x), (x + m / 2) / m, m);
    assert DiffersBy(x, WrapUInt(w, x), x / m, m);
  }

  lemma QuotientAndRemainder(x: int, m: int)
    requires m > 0
    ensures x == x % m + x / m * m
  {
  }

  /** Whether `s` spells a value of `v`'s type. */
  predicate Readable(sv: Services, v: Value, s: string) {
    match v
    case Text(_, _) => true
    case Int(_, _) => sv.parseInt(s).Some?
    case UInt(_, _) => sv.parseUint(s).Some?
    case Float(_, _) => sv.parseFloat(s).Some?
    case Bool(_, _) => sv.parseBool(s).Some?
    case _ => false
  }

  /** `r` is the value of `v`'s type that `s` spells. */
  ghost predicate Spells(sv: Services, v: Value, s: string, r: Value)
    requires Readable(sv, v, s)
  {
    match v
    case Text(_, _) => r.Text? && !r.named && IsDecodingOf(sv, s, r.s)
    case Int(w, _) => r.Int? && r.width == w && IsLowInt(w, sv.parseInt(s).value, r.i)
    case UInt(w, _) => r.UInt? && r.width == w && IsLowUInt(w, sv.parseUint(s).value, r.u)
    case Float(w, _) => r == Float(w, sv.narrow(w, sv.parseFloat(s).value))
    case Bool(_, _) => r == Bool(false, sv.parseBool(s).value)
    case _ => false
  }

  /** `y` is what an encoded `x` decodes to, or `x` itself if it is not encoded or does not decode. */
  predicate IsDecodingOf(sv: Services, x: string, y: string) {
    if |x| >= 5 && x[..4] == "ENC(" && x[|x| - 1] == ')' && sv.decode(x[4..|x| - 1]).Ok? then
      y == sv.decode(x[4..|x| - 1]).value
    else
      y == x
  }

  lemma EncodedIsBracketed(x: string)
    ensures IsEncoded(x) <==> |x| >= 5 && x[..4] == "ENC(" && x[|x| - 1] == ')'
  {
    if |x| > 0 {
      assert x[|x| - 1..] == [x[|x| - 1]];
    }
    if |x| >= 4 {
      assert x[..4] == "ENC(" ==> x[3] == '(';
    }
  }

  lemma DecodedIsDecoding(sv: Services, x: string)
    ensures IsDecodingOf(sv, x, Decoded(sv, x))
  {
    EncodedIsBracketed(x);
  }

  // ----- the rules -----

  /** A variable that the tag names, that is set, and that spells a value of the field's type, decides: whatever the
      field holds and whatever its default. */
  lemma SetVariableWins(sv: Services, v: Value, t: Tag, name: string)
    requires IsScalar(v) && t.envName == Some(name) && sv.getenv(name) != "" && Readable(sv, v, sv.getenv(name))
    ensures Spells(sv, v, sv.getenv(name), ModifyValue(sv, v, t))
  {
    var s := sv.getenv(name);
    match v
    case Text(_, _) => DecodedIsDecoding(sv, s);
    case Int(w, _) => WrappedIsLow(w, sv.parseInt(s).value);
    case UInt(w, _) => WrappedIsLow(w, sv.parseUint(s).value);
    case _ =>
  }

  /** In particular a number that fits the field arrives unchanged. */
  lemma SetVariableArrives(sv: Services, w: Width, i: int, t: Tag, name: string, x: int)
    requires t.envName == Some(name) && sv.getenv(name) != "" && sv.parseInt(sv.getenv(name)) == Some(x)
    requires -(Modulus(w) / 2) <= x < Modulus(w) / 2
    ensures ModifyValue(sv, Int(w, i), t) == Int(w, x)
  {
    WrapInRange(w, x);
  }

  /** A variable that is not set, or does not spell such a value, is as good as none. */
  lemma UnusableVariableIsIgnored(sv: Services, v: Value, t: Tag)
    requires IsScalar(v)
    requires t.envName.Some? ==> sv.getenv(t.envName.value) == "" || !Readable(sv, v, sv.getenv(t.envName.value))
    ensures ModifyValue(sv, v, t) == ModifyValue(sv, v, t.(envName := None))
  {
  }

  /** The zero values of the scalar types; a float has two. */
  predicate HoldsZero(v: Value)
    requires IsScalar(v)
  {
    match v
    case Text(_, s) => s == ""
    case Int(_, i) => i == 0
    case UInt(_, u) => u == 0
    case Float(w, bits) => bits == 0 || bits == Pow2(BitsOf(w) - 1)
    case Bool(_, b) => b == false
    case _ => false
  }

  /** Without a variable a value that is not zero stays, except that an encoded text is decoded. */
  lemma OwnValueBeatsDefault(sv: Services, v: Value, t: Tag)
    requires Lawful(sv) && IsScalar(v) && InRange(v) && t.envName == None
    requires HoldsZero(v) ==> t.defaultValue == None
    ensures if v.Text? then Spells(sv, v, v.s, ModifyValue(sv, v, t))
            else if v.Bool? then ModifyValue(sv, v, t) == Bool(false, v.b)
            else ModifyValue(sv, v, t) == v
  {
    match v
    case Text(_, s) => DecodedIsDecoding(sv, s);
    case Int(w, i) => WrapInRange(w, i);
    case UInt(w, u) => WrapInRange(w, u);
    case Float(w, bits) =>
      Pow2OfWidth(w);
      assert sv.narrow(w, sv.widen(w, bits)) == bits;
    case _ =>
  }

  /** Without a variable a zero value is replaced by what its default spells. */
  lemma DefaultReplacesZero(sv: Services, v: Value, t: Tag, d: string)
    requires IsScalar(v) && t == Tag(Some(d), None) && HoldsZero(v) && Readable(sv, v, d)
    ensures Spells(sv, v, d, ModifyValue(sv, v, t))
  {
    match v
    case Text(_, _) => DecodedIsDecoding(sv, d);
    case Int(w, _) => WrappedIsLow(w, sv.parseInt(d).value);
    case UInt(w, _) => WrappedIsLow(w, sv.parseUint(d).value);
    case Float(w, _) => Pow2OfWidth(w);
    case _ =>
  }

  /** For an integer the default may also be a duration, in nanoseconds. */
  lemma DurationReplacesZero(sv: Services, w: Width, d: string)
    requires sv.parseInt(d) == None && sv.parseDuration(d).Some?
    ensures var r := ModifyValue(sv, Int(w, 0), Tag(Some(d), None));
      r.Int? && r.width == w && IsLowInt(w, sv.parseDuration(d).value, r.i)
  {
    WrappedIsLow(w, sv.parseDuration(d).value);
  }

  /** A default that spells nothing of the field's type is as good as none. */
  lemma UnusableDefaultIsIgnored(sv: Services, v: Value, t: Tag)
    requires IsScalar(v)
    requires t.defaultValue.Some? ==>
      !Readable(sv, v, t.defaultValue.value) && (v.Int? ==> sv.parseDuration(t.defaultValue.value) == None)
    ensures ModifyValue(sv, v, t) == ModifyValue(sv, v, t.(defaultValue := None))
  {
  }

  /** The rules hold at every place of the configuration, under the tag of the field that governs the place. */
  lemma EveryPlaceFollowsItsTag(sv: Services, v: Value, i: nat, path: seq<Step>)
    requires Rewrite(sv, v).Ok? && i < |v.target.fields|
    requires var f := v.target.fields[i];
      At(f.value, f.tag, path).Some? && IsScalar(At(f.value, f.tag, path).value.0)
      && !IsNamed(At(f.value, f.tag, path).value.0)
    ensures var f, g := v.target.fields[i], Rewrite(sv, v).value.target.fields[i];
      var (leaf, tag) := At(f.value, f.tag, path).value;
      g.tag == f.tag && At(g.value, g.tag, path) == Some((ModifyValue(sv, leaf, tag), tag))
  {
    var f := v.target.fields[i];
    if TypeKept(f.value) {
      ModifyAtEveryPlace(sv, f.value, f.tag, path);
    } else {
      OnlyNamedInRetyped(f.value, f.tag, path);
    }
  }
}
