/** Rewriting a configuration with defaults, environment and decoding
    (`app/v3/config/basic/config.go`).

    A configuration is a tree of values; the tags of a struct field govern everything
    inside the field up to the next struct.  The environment, the decoder and the
    parsers of the standard library are parameters. */
module ConfigTree {
  import opened Prelude

  /** The `default` and `env` entries of a struct tag. */
  datatype Tag = Tag(defaultValue: Option<string>, envName: Option<string>)

  const NO_TAG := Tag(None, None)

  datatype Width = W8 | W16 | W32 | W64

  /** `named` texts and truth values are of a type declared on top of `string` or `bool`.  Floats are bit patterns
      of their width.  `Other` stands for every kind the code leaves as it is. */
  datatype Value =
    | Text(named: bool, s: string)
    | Int(width: Width, i: int)
    | UInt(width: Width, u: int)
    | Float(width: Width, bits: nat)
    | Bool(named: bool, b: bool)
    | NilPointer
    | Pointer(target: Value)
    | NilSlice
    | Slice(elems: seq<Value>)
    | Array(elems: seq<Value>)
    | NilMap
    | Map(entries: map<string, Value>)
    | Struct(fields: seq<Field>)
    | Other(id: nat)

  datatype Field = Field(name: string, tag: Tag, value: Value)

  /** `getenv` yields the empty string for unset variables; integers parse to 64 bits. */
  datatype Services = Services(
    getenv: string -> string,
    decode: string -> Result<string, string>,
    parseInt: string -> Option<int>,
    parseDuration: string -> Option<int>,
    parseUint: string -> Option<int>,
    parseFloat: string -> Option<nat>,
    parseBool: string -> Option<bool>,
    widen: (Width, nat) -> nat,
    narrow: (Width, nat) -> nat)

  /** Converting a float to 64 bits and back changes nothing. */
  ghost predicate Lawful(sv: Services) {
    forall w, b :: sv.narrow(w, sv.widen(w, b)) == b
  }

  // ----- scalars -----

  function Modulus(w: Width): int {
    match w
    case W8 => 0x100
    case W16 => 0x1_0000
    case W32 => 0x1_0000_0000
    case W64 => 0x1_0000_0000_0000_0000
  }

  /** Conversion to a signed or unsigned integer type keeps the low bits. */
  function WrapInt(w: Width, x: int): int {
    (x + Modulus(w) / 2) % Modulus(w) - Modulus(w) / 2
  }

  /** Zero has two patterns: all bits clear, or all but the sign. */
  predicate IsFloatZero(w: Width, bits: nat) {
    bits == 0 || bits == Modulus(w) / 2
  }

  function WrapUInt(w: Width, x: int): int {
    x % Modulus(w)
  }

  const ENCODED_PREFIX := "ENC("
  const ENCODED_POSTFIX := ")"

  predicate IsEncoded(s: string) {
    ENCODED_PREFIX <= s && |s| > 0 && s[|s| - 1..] == ENCODED_POSTFIX
  }

  function Inner(s: string): string
    requires IsEncoded(s)
  {
    assert |s| >= 5 by { assert s[3] == '('; }
    s[4..|s| - 1]
  }

  /** The value of the tag's variable, if it names one that is set to something. */
  function EnvOf(sv: Services, t: Tag): Option<string> {
    if t.envName.Some? && sv.getenv(t.envName.value) != "" then Some(sv.getenv(t.envName.value)) else None
  }

  function Decoded(sv: Services, s: string): string {
    if IsEncoded(s) then
      match sv.decode(Inner(s))
      case Ok(d) => d
      case Err(_) => s
    else s
  }

  function ProcessString(sv: Services, s: string, t: Tag): string {
    var val := if t.defaultValue.Some? && s == "" then t.defaultValue.value else s;
    var val := if EnvOf(sv, t).Some? then EnvOf(sv, t).value else val;
    Decoded(sv, val)
  }

  function OrElse<T>(o: Option<T>, v: T): T {
    match o
    case Some(x) => x
    case None => v
  }

  function ProcessInt(sv: Services, i: int, t: Tag): int {
    var val :=
      if t.defaultValue.Some? && i == 0 then
        match sv.parseInt(t.defaultValue.value)
        case Some(x) => x
        case None => OrElse(sv.parseDuration(t.defaultValue.value), i)
      else i;
    if EnvOf(sv, t).Some? then OrElse(sv.parseInt(EnvOf(sv, t).value), val) else val
  }

  function ProcessUInt(sv: Services, u: int, t: Tag): int {
    var val := if t.defaultValue.Some? && u == 0 then OrElse(sv.parseUint(t.defaultValue.value), u) else u;
    if EnvOf(sv, t).Some? then OrElse(sv.parseUint(EnvOf(sv, t).value), val) else val
  }

  /** On the 64-bit pattern; `zero` tells whether the field holds the zero value. */
  function ProcessFloat(sv: Services, bits: nat, zero: bool, t: Tag): nat {
    var val := if t.defaultValue.Some? && zero then OrElse(sv.parseFloat(t.defaultValue.value), bits) else bits;
    if EnvOf(sv, t).Some? then OrElse(sv.parseFloat(EnvOf(sv, t).value), val) else val
  }

  function ProcessBool(sv: Services, b: bool, t: Tag): bool {
    var val := if t.defaultValue.Some? && !b then OrElse(sv.parseBool(t.defaultValue.value), b) else b;
    if EnvOf(sv, t).Some? then OrElse(sv.parseBool(EnvOf(sv, t).value), val) else val
  }

  // ----- trees -----

  /** `modifyValue`, where it returns.  Integers and floats are converted back to the type they came from, texts and
      truth values are not. */
  function ModifyValue(sv: Services, v: Value, t: Tag): Value {
    match v
    case Text(_, s) => Text(false, ProcessString(sv, s, t))
    case Int(w, i) => Int(w, WrapInt(w, ProcessInt(sv, i, t)))
    case UInt(w, u) => UInt(w, WrapUInt(w, ProcessUInt(sv, u, t)))
    case Float(w, bits) => Float(w, sv.narrow(w, ProcessFloat(sv, sv.widen(w, bits), IsFloatZero(w, bits), t)))
    case Bool(_, b) => Bool(false, ProcessBool(sv, b, t))
    case Pointer(target) => Pointer(ModifyValue(sv, target, t))
    case Slice(es) => Slice(seq(|es|, i requires 0 <= i < |es| => ModifyValue(sv, es[i], t)))
    case Array(es) => Array(seq(|es|, i requires 0 <= i < |es| => ModifyValue(sv, es[i], t)))
    case Map(m) => Map(map k | k in m :: ModifyValue(sv, m[k], t))
    case Struct(fs) =>
      Struct(seq(|fs|, i requires 0 <= i < |fs| => fs[i].(value := ModifyValue(sv, fs[i].value, fs[i].tag))))
    case _ => v
  }

  /** Whether `modifyValue` returns a value of the type it was given. */
  predicate TypeKept(v: Value) {
    match v
    case Text(named, _) => !named
    case Bool(named, _) => !named
    case Pointer(target) => TypeKept(target)
    case _ => true
  }

  /** Whether `modifyValue` returns at all: storing a value of another type into a container panics. */
  predicate Returns(v: Value) {
    match v
    case Pointer(target) => Returns(target)
    case Slice(es) => forall i | 0 <= i < |es| :: Returns(es[i]) && TypeKept(es[i])
    case Array(es) => forall i | 0 <= i < |es| :: Returns(es[i]) && TypeKept(es[i])
    case Map(m) => forall k | k in m :: Returns(m[k]) && TypeKept(m[k])
    case Struct(fs) => forall i | 0 <= i < |fs| :: Returns(fs[i].value) && TypeKept(fs[i].value)
    case _ => true
  }

  /** The zero value of `v`'s type, for those whose type may change. */
  function Blank(v: Value): Value {
    match v
    case Text(named, _) => Text(named, "")
    case Bool(named, _) => Bool(named, false)
    case Pointer(_) => NilPointer
    case _ => v
  }

  datatype Panic = NotAStruct | WrongType

  /** What `modifyStruct` makes of a field: one whose value changes its type is left zero. */
  function ModifyField(sv: Services, f: Field): Field {
    f.(value := if TypeKept(f.value) then ModifyValue(sv, f.value, f.tag) else Blank(f.value))
  }

  /** `modifyStruct` on what the configuration points to. */
  function Rewrite(sv: Services, v: Value): Result<Value, Panic> {
    if !v.Pointer? || !v.target.Struct? then Err(NotAStruct)
    else
      var fs := v.target.fields;
      if exists i | 0 <= i < |fs| :: !Returns(fs[i].value) then Err(WrongType)
      else Ok(Pointer(Struct(seq(|fs|, i requires 0 <= i < |fs| => ModifyField(sv, fs[i])))))
  }

  class BasicConfig {
    var cfg: Value
    const sv: Services

    constructor (cfg: Value, sv: Services)
      ensures this.cfg == cfg && this.sv == sv
    {
      this.cfg := cfg;
      this.sv := sv;
    }

    /** Replaces the struct behind the pointer once all its fields are rewritten, or panics and leaves it. */
    method ModifyStruct() returns (panic: Option<Panic>)
      modifies this
      ensures match Rewrite(sv, old(cfg))
              case Ok(c) => panic == None && cfg == c
              case Err(e) => panic == Some(e) && cfg == old(cfg)
    {
      if !cfg.Pointer? || !cfg.target.Struct? {
        return Some(NotAStruct);
      }
      var fields := cfg.target.fields;
      var modified := [];
      for i := 0 to |fields|
        invariant |modified| == i
        invariant forall k :: 0 <= k < i ==> Returns(fields[k].value) && modified[k] == ModifyField(sv, fields[k])
      {
        if !Returns(fields[i].value) {
          return Some(WrongType);
        }
        modified := modified + [ModifyField(sv, fields[i])];
      }
      assert Rewrite(sv, cfg).value.target.fields == modified;
      cfg := Pointer(Struct(modified));
      return None;
    }
  }

  // ----- every place in the tree -----

  datatype Step = Deref | Index(i: nat) | Key(k: string) | Member(i: nat)

  /** The part of `v` one step down, with the tag that governs it. */
  function Child(v: Value, t: Tag, st: Step): Option<(Value, Tag)> {
    match (v, st)
    case (Pointer(target), Deref) => Some((target, t))
    case (Slice(es), Index(i)) => if i < |es| then Some((es[i], t)) else None
    case (Array(es), Index(i)) => if i < |es| then Some((es[i], t)) else None
    case (Map(m), Key(k)) => if k in m then Some((m[k], t)) else None
    case (Struct(fs), Member(i)) => if i < |fs| then Some((fs[i].value, fs[i].tag)) else None
    case _ => None
  }

  function At(v: Value, t: Tag, path: seq<Step>): Option<(Value, Tag)>
    decreases path
  {
    if path == [] then Some((v, t))
    else
      match Child(v, t, path[0])
      case None => None
      case Some(c) => At(c.0, c.1, path[1..])
  }

  /** What a place becomes: its part of the tree rewritten under its governing tag. */
  function ModifiedAt(sv: Services, p: Option<(Value, Tag)>): Option<(Value, Tag)> {
    match p
    case None => None
    case Some(c) => Some((ModifyValue(sv, c.0, c.1), c.1))
  }

  lemma ModifyChild(sv: Services, v: Value, t: Tag, st: Step)
    ensures Child(ModifyValue(sv, v, t), t, st) == ModifiedAt(sv, Child(v, t, st))
  {
  }

  /** Rewriting keeps every place, its governing tag included, and rewrites what is there on its own. */
  lemma {:induction false} ModifyAtEveryPlace(sv: Services, v: Value, t: Tag, path: seq<Step>)
    ensures At(ModifyValue(sv, v, t), t, path) == ModifiedAt(sv, At(v, t, path))
    decreases path
  {
    if path != [] {
      ModifyChild(sv, v, t, path[0]);
      var c := Child(v, t, path[0]);
      if c.Some? {
        ModifyAtEveryPlace(sv, c.value.0, c.value.1, path[1..]);
      }
    }
  }

  // ----- shape -----

  /** The tree with its scalars blanked out: kinds, nil-ness, lengths, map keys, field names and tags. */
  function Shape(v: Value): Value {
    match v
    case Text(n, _) => Text(n, "")
    case Int(w, _) => Int(w, 0)
    case UInt(w, _) => UInt(w, 0)
    case Float(w, _) => Float(w, 0)
    case Bool(n, _) => Bool(n, false)
    case Pointer(target) => Pointer(Shape(target))
    case Slice(es) => Slice(seq(|es|, i requires 0 <= i < |es| => Shape(es[i])))
    case Array(es) => Array(seq(|es|, i requires 0 <= i < |es| => Shape(es[i])))
    case Map(m) => Map(map k | k in m :: Shape(m[k]))
    case Struct(fs) => Struct(seq(|fs|, i requires 0 <= i < |fs| => fs[i].(value := Shape(fs[i].value))))
    case _ => v
  }

  /** No text and no truth value of the tree is of a named type. */
  predicate Unnamed(v: Value) {
    match v
    case Text(named, _) => !named
    case Bool(named, _) => !named
    case Pointer(target) => Unnamed(target)
    case Slice(es) => forall i | 0 <= i < |es| :: Unnamed(es[i])
    case Array(es) => forall i | 0 <= i < |es| :: Unnamed(es[i])
    case Map(m) => forall k | k in m :: Unnamed(m[k])
    case Struct(fs) => forall i | 0 <= i < |fs| :: Unnamed(fs[i].value)
    case _ => true
  }

  ghost predicate KeepsShapeIffUnnamed(sv: Services, v: Value, t: Tag) {
    Shape(ModifyValue(sv, v, t)) == Shape(v) <==> Unnamed(v)
  }

  lemma ElemsKeepShape(sv: Services, v: Value, t: Tag)
    requires v.Slice? || v.Array?
    requires forall i :: 0 <= i < |v.elems| ==> KeepsShapeIffUnnamed(sv, v.elems[i], t)
    ensures KeepsShapeIffUnnamed(sv, v, t)
  {
    var r, w := Shape(ModifyValue(sv, v, t)), Shape(v);
    forall i | 0 <= i < |v.elems| ensures r.elems[i] == w.elems[i] <==> Unnamed(v.elems[i]) {
      assert KeepsShapeIffUnnamed(sv, v.elems[i], t);
    }
    assert r == w <==> r.elems == w.elems;
  }

  lemma EntriesKeepShape(sv: Services, v: Value, t: Tag)
    requires v.Map?
    requires forall k :: k in v.entries ==> KeepsShapeIffUnnamed(sv, v.entries[k], t)
    ensures KeepsShapeIffUnnamed(sv, v, t)
  {
    var r, w := Shape(ModifyValue(sv, v, t)), Shape(v);
    forall k | k in v.entries ensures r.entries[k] == w.entries[k] <==> Unnamed(v.entries[k]) {
      assert KeepsShapeIffUnnamed(sv, v.entries[k], t);
    }
    assert r == w <==> r.entries == w.entries;
  }

  lemma FieldsKeepShape(sv: Services, v: Value, t: Tag)
    requires v.Struct?
    requires forall i :: 0 <= i < |v.fields| ==> KeepsShapeIffUnnamed(sv, v.fields[i].value, v.fields[i].tag)
    ensures KeepsShapeIffUnnamed(sv, v, t)
  {
    var r, w := Shape(ModifyValue(sv, v, t)), Shape(v);
    forall i | 0 <= i < |v.fields| ensures r.fields[i] == w.fields[i] <==> Unnamed(v.fields[i].value) {
      assert KeepsShapeIffUnnamed(sv, v.fields[i].value, v.fields[i].tag);
    }
    assert r == w <==> r.fields == w.fields;
  }

  /** Rewriting keeps the shape of a tree, types included, exactly if it holds no text or truth value of a
      named type. */
  lemma {:induction false} ModifyKeepsShape(sv: Services, v: Value, t: Tag)
    ensures Shape(ModifyValue(sv, v, t)) == Shape(v) <==> Unnamed(v)
  {
    match v
    case Pointer(target) => ModifyKeepsShape(sv, target, t);
    case Slice(es) =>
      forall i | 0 <= i < |es| ensures KeepsShapeIffUnnamed(sv, es[i], t) { ModifyKeepsShape(sv, es[i], t); }
      ElemsKeepShape(sv, v, t);
    case Array(es) =>
      forall i | 0 <= i < |es| ensures KeepsShapeIffUnnamed(sv, es[i], t) { ModifyKeepsShape(sv, es[i], t); }
      ElemsKeepShape(sv, v, t);
    case Map(m) =>
      forall k | k in m ensures KeepsShapeIffUnnamed(sv, m[k], t) { ModifyKeepsShape(sv, m[k], t); }
      EntriesKeepShape(sv, v, t);
    case Struct(fs) =>
      forall i | 0 <= i < |fs| ensures KeepsShapeIffUnnamed(sv, fs[i].value, fs[i].tag) {
        ModifyKeepsShape(sv, fs[i].value, fs[i].tag);
      }
      FieldsKeepShape(sv, v, t);
    case _ =>
  }

  // ----- precedence -----

  predicate IsScalar(v: Value) {
    v.Text? || v.Int? || v.UInt? || v.Float? || v.Bool?
  }

  predicate InRange(v: Value) {
    (v.Int? ==> -(Modulus(v.width) / 2) <= v.i < Modulus(v.width) / 2) && (v.UInt? ==> 0 <= v.u < Modulus(v.width))
  }

  predicate IsZero(v: Value)
    requires IsScalar(v)
  {
    match v
    case Text(_, s) => s == ""
    case Int(_, i) => i == 0
    case UInt(_, u) => u == 0
    case Float(w, bits) => IsFloatZero(w, bits)
    case Bool(_, b) => !b
    case _ => false
  }

  /** The scalar of `v`'s type that `s` spells, if it spells one. */
  function Parsed(sv: Services, v: Value, s: string): Option<Value>
    requires IsScalar(v)
  {
    match v
    case Text(_, _) => Some(Text(false, Decoded(sv, s)))
    case Int(w, _) => (match sv.parseInt(s) case Some(x) => Some(Int(w, WrapInt(w, x))) case None => None)
    case UInt(w, _) => (match sv.parseUint(s) case Some(x) => Some(UInt(w, WrapUInt(w, x))) case None => None)
    case Float(w, _) => (match sv.parseFloat(s) case Some(x) => Some(Float(w, sv.narrow(w, x))) case None => None)
    case Bool(_, _) => (match sv.parseBool(s) case Some(x) => Some(Bool(false, x)) case None => None)
    case _ => None
  }

  /** A default may also spell an integer as a duration. */
  function ParsedDefault(sv: Services, v: Value, s: string): Option<Value>
    requires IsScalar(v)
  {
    match v
    case Int(w, _) =>
      if sv.parseInt(s) == None && sv.parseDuration(s).Some? then Some(Int(w, WrapInt(w, sv.parseDuration(s).value)))
      else Parsed(sv, v, s)
    case _ => Parsed(sv, v, s)
  }

  /** The value itself, text decoded. */
  function Own(sv: Services, v: Value): Value {
    match v
    case Text(_, s) => Text(false, Decoded(sv, s))
    case Bool(_, b) => Bool(false, b)
    case _ => v
  }

  /** The documented precedence: what the environment spells, else the own value unless it is zero, else what
      the default spells, else the own value. */
  function Preferred(sv: Services, v: Value, t: Tag): Value
    requires IsScalar(v)
  {
    var fromEnv := if EnvOf(sv, t).Some? then Parsed(sv, v, EnvOf(sv, t).value) else None;
    var fromDefault := if t.defaultValue.Some? then ParsedDefault(sv, v, t.defaultValue.value) else None;
    if fromEnv.Some? then fromEnv.value
    else if !IsZero(v) then Own(sv, v)
    else if fromDefault.Some? then fromDefault.value
    else Own(sv, v)
  }

  lemma WrapInRange(w: Width, x: int)
    ensures -(Modulus(w) / 2) <= WrapInt(w, x) < Modulus(w) / 2 && 0 <= WrapUInt(w, x) < Modulus(w)
    ensures -(Modulus(w) / 2) <= x < Modulus(w) / 2 ==> WrapInt(w, x) == x
    ensures 0 <= x < Modulus(w) ==> WrapUInt(w, x) == x
  {
  }

  /** Every scalar gets its value by that precedence. */
  lemma ScalarPrecedence(sv: Services, v: Value, t: Tag)
    requires Lawful(sv) && IsScalar(v) && InRange(v)
    ensures ModifyValue(sv, v, t) == Preferred(sv, v, t)
  {
    match v
    case Int(w, i) => IntPrecedence(sv, v, t);
    case UInt(w, u) => UIntPrecedence(sv, v, t);
    case Float(w, bits) => assert sv.narrow(w, sv.widen(w, bits)) == bits;
    case _ =>
  }

  lemma IntPrecedence(sv: Services, v: Value, t: Tag)
    requires v.Int? && InRange(v)
    ensures ModifyValue(sv, v, t) == Preferred(sv, v, t)
  {
    WrapInRange(v.width, v.i);
  }

  lemma UIntPrecedence(sv: Services, v: Value, t: Tag)
    requires v.UInt? && InRange(v)
    ensures ModifyValue(sv, v, t) == Preferred(sv, v, t)
  {
    WrapInRange(v.width, v.u);
  }

  /** ... wherever in a tree it is, by the tag that governs its place. */
  lemma PrecedenceAtEveryPlace(sv: Services, v: Value, t: Tag, path: seq<Step>)
    requires Lawful(sv) && At(v, t, path).Some?
    requires IsScalar(At(v, t, path).value.0) && InRange(At(v, t, path).value.0)
    ensures var (leaf, tag) := At(v, t, path).value;
      At(ModifyValue(sv, v, t), t, path) == Some((Preferred(sv, leaf, tag), tag))
  {
    ModifyAtEveryPlace(sv, v, t, path);
    var (leaf, tag) := At(v, t, path).value;
    ScalarPrecedence(sv, leaf, tag);
  }

  // ----- idempotence -----

  /** All integers of the tree are in the range of their types. */
  predicate WellTyped(v: Value) {
    match v
    case Pointer(target) => WellTyped(target)
    case Slice(es) => forall i | 0 <= i < |es| :: WellTyped(es[i])
    case Array(es) => forall i | 0 <= i < |es| :: WellTyped(es[i])
    case Map(m) => forall k | k in m :: WellTyped(m[k])
    case Struct(fs) => forall i | 0 <= i < |fs| :: WellTyped(fs[i].value)
    case _ => InRange(v)
  }

  /** What the decoder yields is not empty, and decoding it again, where it looks encoded, changes nothing. */
  ghost predicate DecoderStable(sv: Services) {
    forall x :: sv.decode(x).Ok? ==> sv.decode(x).value != "" && Decoded(sv, sv.decode(x).value) == sv.decode(x).value
  }

  ghost predicate Idempotent(sv: Services) {
    forall v, t :: WellTyped(v) ==> ModifyValue(sv, ModifyValue(sv, v, t), t) == ModifyValue(sv, v, t)
  }

  lemma TextIdempotent(sv: Services, s: string, t: Tag)
    requires DecoderStable(sv)
    ensures ProcessString(sv, ProcessString(sv, s, t), t) == ProcessString(sv, s, t)
  {
  }

  lemma ScalarIdempotent(sv: Services, v: Value, t: Tag)
    requires Lawful(sv) && DecoderStable(sv) && IsScalar(v) && InRange(v)
    ensures ModifyValue(sv, ModifyValue(sv, v, t), t) == ModifyValue(sv, v, t)
  {
    match v
    case Text(_, s) => TextIdempotent(sv, s, t);
    case Int(w, i) =>
      WrapInRange(w, i);
      WrapInRange(w, ProcessInt(sv, i, t));
      WrapInRange(w, WrapInt(w, ProcessInt(sv, i, t)));
    case UInt(w, u) =>
      WrapInRange(w, u);
      WrapInRange(w, ProcessUInt(sv, u, t));
      WrapInRange(w, WrapUInt(w, ProcessUInt(sv, u, t)));
    case _ =>
  }

  lemma {:induction false} TreeIdempotent(sv: Services, v: Value, t: Tag)
    requires Lawful(sv) && DecoderStable(sv) && WellTyped(v)
    ensures ModifyValue(sv, ModifyValue(sv, v, t), t) == ModifyValue(sv, v, t)
  {
    var r := ModifyValue(sv, v, t);
    match v
    case Pointer(target) => TreeIdempotent(sv, target, t);
    case Slice(es) =>
      forall i | 0 <= i < |es| ensures ModifyValue(sv, r.elems[i], t) == r.elems[i] {
        TreeIdempotent(sv, es[i], t);
      }
      assert ModifyValue(sv, r, t).elems == r.elems;
    case Array(es) =>
      forall i | 0 <= i < |es| ensures ModifyValue(sv, r.elems[i], t) == r.elems[i] {
        TreeIdempotent(sv, es[i], t);
      }
      assert ModifyValue(sv, r, t).elems == r.elems;
    case Map(m) =>
      forall k | k in m ensures ModifyValue(sv, r.entries[k], t) == r.entries[k] {
        TreeIdempotent(sv, m[k], t);
      }
      assert ModifyValue(sv, r, t).entries == r.entries;
    case Struct(fs) =>
      forall i | 0 <= i < |fs|
        ensures ModifyValue(sv, r.fields[i].value, r.fields[i].tag) == r.fields[i].value
      {
        TreeIdempotent(sv, fs[i].value, fs[i].tag);
      }
      assert ModifyValue(sv, r, t).fields == r.fields;
    case _ =>
      if IsScalar(v) {
        ScalarIdempotent(sv, v, t);
      }
  }

  function EncodedForm(x: string): string {
    ENCODED_PREFIX + x + ENCODED_POSTFIX
  }

  lemma EncodedFormDecodes(sv: Services, x: string)
    ensures IsEncoded(EncodedForm(x)) && Inner(EncodedForm(x)) == x
  {
  }

  /** Under a fixed environment a second rewriting changes nothing, for all trees and tags, exactly when the
      decoder is stable.  The two ways to fail: it yields the empty string, which a default then replaces,
      or an encoded text that decodes further. */
  lemma IdempotentIffDecoderStable(sv: Services)
    requires Lawful(sv)
    ensures Idempotent(sv) <==> DecoderStable(sv)
  {
    if DecoderStable(sv) {
      forall v, t | WellTyped(v) ensures ModifyValue(sv, ModifyValue(sv, v, t), t) == ModifyValue(sv, v, t) {
        TreeIdempotent(sv, v, t);
      }
    }
    if Idempotent(sv) {
      forall x | sv.decode(x).Ok?
        ensures sv.decode(x).value != "" && Decoded(sv, sv.decode(x).value) == sv.decode(x).value
      {
        EncodedFormDecodes(sv, x);
        var v, t := Text(false, EncodedForm(x)), Tag(Some("d"), None);
        var once := ModifyValue(sv, v, t);
        assert once == Text(false, sv.decode(x).value);
        assert WellTyped(v) && ModifyValue(sv, once, t) == once;
      }
    }
  }

  // ----- the whole configuration -----

  predicate IsNamed(v: Value) {
    (v.Text? || v.Bool?) && v.named
  }

  /** A text or truth value of a named type is at `path`. */
  predicate NamedAt(v: Value, t: Tag, path: seq<Step>) {
    At(v, t, path).Some? && IsNamed(At(v, t, path).value.0)
  }

  predicate OnlyPointers(path: seq<Step>) {
    forall i | 0 <= i < |path| :: path[i] == Deref
  }

  lemma {:induction false} NamedAtMeans(v: Value, t: Tag, path: seq<Step>)
    requires NamedAt(v, t, path)
    ensures if OnlyPointers(path) then !TypeKept(v) else !Returns(v)
    decreases path
  {
    if path != [] {
      var c := Child(v, t, path[0]).value;
      NamedAtMeans(c.0, c.1, path[1..]);
    }
  }

  /** A path through `st` first. */
  lemma NamedAtStep(v: Value, t: Tag, st: Step, path: seq<Step>)
    requires Child(v, t, st).Some? && NamedAt(Child(v, t, st).value.0, Child(v, t, st).value.1, path)
    ensures NamedAt(v, t, [st] + path)
    ensures OnlyPointers([st] + path) <==> st == Deref && OnlyPointers(path)
  {
    var whole := [st] + path;
    assert whole[1..] == path && whole[0] == st;
    if OnlyPointers(whole) {
      forall i | 0 <= i < |path| ensures path[i] == Deref { assert whole[i + 1] == path[i]; }
    }
  }

  lemma {:induction false} RetypedMeans(v: Value, t: Tag) returns (path: seq<Step>)
    requires !TypeKept(v)
    ensures OnlyPointers(path) && NamedAt(v, t, path)
  {
    path := [];
    if v.Pointer? {
      path := RetypedMeans(v.target, t);
      NamedAtStep(v, t, Deref, path);
      path := [Deref] + path;
    }
  }

  lemma {:induction false} PanicMeans(v: Value, t: Tag) returns (path: seq<Step>)
    requires !Returns(v)
    ensures !OnlyPointers(path) && NamedAt(v, t, path)
  {
    var st := BreakingStep(v, t);
    var (w, u) := Child(v, t, st).value;
    if !Returns(w) {
      path := PanicMeans(w, u);
    } else {
      path := RetypedMeans(w, u);
    }
    NamedAtStep(v, t, st, path);
    path := [st] + path;
  }

  lemma BreakingStep(v: Value, t: Tag) returns (st: Step)
    requires !Returns(v)
    ensures Child(v, t, st).Some? && Child(v, t, st).value.0 < v
    ensures !Returns(Child(v, t, st).value.0) || (st != Deref && !TypeKept(Child(v, t, st).value.0))
  {
    match v
    case Pointer(_) => st := Deref;
    case Slice(es) =>
      var i :| 0 <= i < |es| && !(Returns(es[i]) && TypeKept(es[i]));
      st := Index(i);
    case Array(es) =>
      var i :| 0 <= i < |es| && !(Returns(es[i]) && TypeKept(es[i]));
      st := Index(i);
    case Map(m) =>
      var k :| k in m && !(Returns(m[k]) && TypeKept(m[k]));
      st := Key(k);
    case Struct(fs) =>
      var i :| 0 <= i < |fs| && !(Returns(fs[i].value) && TypeKept(fs[i].value));
      st := Member(i);
  }

  /** A value changes its type exactly if it is a text or truth value of a named type, or pointers lead to one;
      rewriting it panics exactly if one lies in a slice, array, map or struct inside it. */
  lemma RetypedOrPanics(v: Value, t: Tag)
    ensures !TypeKept(v) <==> exists path :: NamedAt(v, t, path) && OnlyPointers(path)
    ensures !Returns(v) <==> exists path :: NamedAt(v, t, path) && !OnlyPointers(path)
  {
    forall path | NamedAt(v, t, path) ensures if OnlyPointers(path) then !TypeKept(v) else !Returns(v) {
      NamedAtMeans(v, t, path);
    }
    if !TypeKept(v) {
      var path := RetypedMeans(v, t);
    }
    if !Returns(v) {
      var path := PanicMeans(v, t);
    }
  }

  predicate PointsToStruct(v: Value) {
    v.Pointer? && v.target.Struct?
  }

  /** Rewriting the struct behind the pointer panics exactly if some text or truth value of a named type lies in a
      slice, array, map or struct inside one of its fields. */
  lemma RewritePanicsIffNamedInside(sv: Services, v: Value)
    requires PointsToStruct(v)
    ensures Rewrite(sv, v) == Err(WrongType) <==>
              exists i, path :: 0 <= i < |v.target.fields| && !OnlyPointers(path)
                && NamedAt(v.target.fields[i].value, v.target.fields[i].tag, path)
  {
    var fs := v.target.fields;
    forall i | 0 <= i < |fs|
      ensures !Returns(fs[i].value) <==> exists path :: NamedAt(fs[i].value, fs[i].tag, path) && !OnlyPointers(path)
    {
      RetypedOrPanics(fs[i].value, fs[i].tag);
    }
  }

  lemma {:induction false} UnnamedMeans(v: Value)
    ensures Unnamed(v) <==> Returns(v) && TypeKept(v)
  {
    match v
    case Pointer(target) => UnnamedMeans(target);
    case Slice(es) => forall i | 0 <= i < |es| ensures Unnamed(es[i]) <==> Returns(es[i]) && TypeKept(es[i]) {
        UnnamedMeans(es[i]);
      }
    case Array(es) => forall i | 0 <= i < |es| ensures Unnamed(es[i]) <==> Returns(es[i]) && TypeKept(es[i]) {
        UnnamedMeans(es[i]);
      }
    case Map(m) => forall k | k in m ensures Unnamed(m[k]) <==> Returns(m[k]) && TypeKept(m[k]) {
        UnnamedMeans(m[k]);
      }
    case Struct(fs) =>
      forall i | 0 <= i < |fs| ensures Unnamed(fs[i].value) <==> Returns(fs[i].value) && TypeKept(fs[i].value) {
        UnnamedMeans(fs[i].value);
      }
    case _ =>
  }

  lemma FieldAgreesIffTypeKept(sv: Services, f: Field)
    ensures ModifyField(sv, f) == f.(value := ModifyValue(sv, f.value, f.tag)) <==> TypeKept(f.value)
  {
  }

  /** `modifyStruct` agrees with `modifyValue` at the root exactly if no text or truth value of the configuration
      is of a named type. */
  lemma RewriteAgreesIffUnnamed(sv: Services, v: Value)
    requires PointsToStruct(v)
    ensures Rewrite(sv, v) == Ok(ModifyValue(sv, v, NO_TAG)) <==> Unnamed(v)
  {
    var u := ModifyValue(sv, v.target, NO_TAG);
    assert ModifyValue(sv, v, NO_TAG) == Pointer(u) && u.Struct?;
    var fs, gs := v.target.fields, u.fields;
    forall i | 0 <= i < |fs|
      ensures Unnamed(fs[i].value) <==> Returns(fs[i].value) && ModifyField(sv, fs[i]) == gs[i]
    {
      UnnamedMeans(fs[i].value);
      FieldAgreesIffTypeKept(sv, fs[i]);
    }
    if Rewrite(sv, v).Ok? {
      var hs := Rewrite(sv, v).value.target.fields;
      assert hs == gs <==> forall i :: 0 <= i < |fs| ==> hs[i] == gs[i];
    }
  }

  /** A value that changes its type holds no other scalar. */
  lemma {:induction false} OnlyNamedInRetyped(v: Value, t: Tag, path: seq<Step>)
    requires !TypeKept(v) && At(v, t, path).Some? && IsScalar(At(v, t, path).value.0)
    ensures IsNamed(At(v, t, path).value.0)
    decreases path
  {
    if path != [] {
      var c := Child(v, t, path[0]).value;
      OnlyNamedInRetyped(c.0, c.1, path[1..]);
    }
  }

  /** In a rewritten configuration every scalar is what the precedence prefers, by the tag that governs its place,
      except those of named types: the fields that hold them are left zero. */
  lemma RewrittenScalars(sv: Services, v: Value, i: nat, path: seq<Step>)
    requires Lawful(sv) && Rewrite(sv, v).Ok? && i < |v.target.fields|
    requires var f := v.target.fields[i];
      At(f.value, f.tag, path).Some? && IsScalar(At(f.value, f.tag, path).value.0)
      && InRange(At(f.value, f.tag, path).value.0)
    ensures var f, g := v.target.fields[i], Rewrite(sv, v).value.target.fields[i];
      var (leaf, tag) := At(f.value, f.tag, path).value;
      if IsNamed(leaf) then
        g.value == if path != [] then NilPointer else if leaf.Text? then Text(true, "") else Bool(true, false)
      else At(g.value, g.tag, path) == Some((Preferred(sv, leaf, tag), tag))
  {
    var f := v.target.fields[i];
    assert Returns(f.value);
    if TypeKept(f.value) {
      PrecedenceAtEveryPlace(sv, f.value, f.tag, path);
      if IsNamed(At(f.value, f.tag, path).value.0) {
        NamedAtMeans(f.value, f.tag, path);
        assert false;
      }
    } else {
      OnlyNamedInRetyped(f.value, f.tag, path);
      assert path != [] ==> Child(f.value, f.tag, path[0]).Some?;
    }
  }

  lemma {:induction false} ModifiedIsUnnamed(sv: Services, v: Value, t: Tag)
    ensures Unnamed(ModifyValue(sv, v, t))
  {
    match v
    case Pointer(target) => ModifiedIsUnnamed(sv, target, t);
    case Slice(es) => forall i | 0 <= i < |es| ensures Unnamed(ModifyValue(sv, es[i], t)) {
        ModifiedIsUnnamed(sv, es[i], t);
      }
    case Array(es) => forall i | 0 <= i < |es| ensures Unnamed(ModifyValue(sv, es[i], t)) {
        ModifiedIsUnnamed(sv, es[i], t);
      }
    case Map(m) => forall k | k in m ensures Unnamed(ModifyValue(sv, m[k], t)) {
        ModifiedIsUnnamed(sv, m[k], t);
      }
    case Struct(fs) => forall i | 0 <= i < |fs| ensures Unnamed(ModifyValue(sv, fs[i].value, fs[i].tag)) {
        ModifiedIsUnnamed(sv, fs[i].value, fs[i].tag);
      }
    case _ =>
  }

  lemma FieldIdempotent(sv: Services, f: Field)
    requires Lawful(sv) && DecoderStable(sv) && WellTyped(f.value)
    ensures Returns(ModifyField(sv, f).value) && ModifyField(sv, ModifyField(sv, f)) == ModifyField(sv, f)
  {
    var w := ModifyValue(sv, f.value, f.tag);
    ModifiedIsUnnamed(sv, f.value, f.tag);
    UnnamedMeans(w);
    TreeIdempotent(sv, f.value, f.tag);
  }

  /** Under a stable decoder a configuration that was rewritten once is rewritten to itself. */
  lemma RewriteIdempotent(sv: Services, v: Value)
    requires Lawful(sv) && DecoderStable(sv) && WellTyped(v) && Rewrite(sv, v).Ok?
    ensures Rewrite(sv, Rewrite(sv, v).value) == Rewrite(sv, v)
  {
    var fs, c := v.target.fields, Rewrite(sv, v).value;
    forall i | 0 <= i < |fs|
      ensures Returns(c.target.fields[i].value) && ModifyField(sv, c.target.fields[i]) == c.target.fields[i]
    {
      FieldIdempotent(sv, fs[i]);
    }
    assert Rewrite(sv, c).value.target.fields == c.target.fields;
  }

  // ----- a decoder that yields nothing -----

  /** No variable is set, every text decodes to the empty one, and nothing parses. */
  function EmptyDecoder(): Services {
    Services(
      _ => "", _ => Ok(""), _ => None, _ => None, _ => None, _ => None, _ => None,
      (_, bits) => bits, (_, bits) => bits)
  }

  /** The first rewriting decodes a text to the empty one, the second replaces that by the default. */
  lemma EmptyDecoderIsNotIdempotent()
    ensures Lawful(EmptyDecoder())
    ensures var sv, v, t := EmptyDecoder(), Text(false, "ENC(x)"), Tag(Some("d"), None);
      && ModifyValue(sv, v, t) == Text(false, "")
      && ModifyValue(sv, ModifyValue(sv, v, t), t) == Text(false, "d")
  {
  }

  /** A text of a named type is lost as a field, and inside a slice makes the rewriting panic. */
  lemma NamedTextIsLostOrPanics(sv: Services, f: Field)
    requires f.value.Text? && f.value.named
    ensures Rewrite(sv, Pointer(Struct([f]))) == Ok(Pointer(Struct([f.(value := Text(true, ""))])))
    ensures Rewrite(sv, Pointer(Struct([f.(value := Slice([f.value]))]))) == Err(WrongType)
  {
    var v, w := Pointer(Struct([f])), Pointer(Struct([f.(value := Slice([f.value]))]));
    assert Rewrite(sv, v).value.target.fields == [f.(value := Text(true, ""))];
    var slice := w.target.fields[0].value;
    assert !TypeKept(slice.elems[0]);
    assert !Returns(slice);
  }
}
