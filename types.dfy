/** Argument types of the client (src/types.js): a field name paired with the
    JavaScript constructor that stands for its kind. A type can check a value
    given for its field and prints itself as `name<Kind>`. */
module ArgTypes {
  import opened JsValues
  import opened Decimal

  /** The constructor a type was built with. `Other` is any constructor that is
      not Number, String or Buffer (YamlBodyType uses Object). */
  datatype Kind = NumberKind | StringKind | BufferKind | Other(constructorName: string)
  {
    /** The `name` property of the constructor. */
    function Name(): string
    {
      match this
      case NumberKind => "Number"
      case StringKind => "String"
      case BufferKind => "Buffer"
      case Other(n) => n
    }
  }

  /** `String(v)`: the text `parseInt` reads. A Buffer is decoded byte by byte:
      an ASCII byte is its own character and a byte of 0x80 or above becomes
      U+FFFD. This agrees with Node's UTF-8 decoding on ASCII text only; a
      multi-byte white-space character (U+00A0, U+FEFF, ...) in a Buffer is
      not decoded as white space here. */
  function TextOf(v: Value): string
  {
    match v
    case Undefined => "undefined"
    case Null => "null"
    case Bool(b) => if b then "true" else "false"
    case Num(n) => NumberToString(n)
    case Str(s) => s
    case Buf(data) => seq(|data|, i requires 0 <= i < |data| =>
                        if data[i] < 0x80 then data[i] as int as char else 0xFFFD as char)
    case Err(m) => if m == "" then "Error" else "Error: " + m
    case TypeErr(m) => if m == "" then "TypeError" else "TypeError: " + m
    case Obj(text) => text
  }

  datatype Type = Type(name: string, kind: Kind)
  {
    /** `validateInput`: whether `v` is acceptable for a field of this type.
        By the kind of value: a number passes every kind but String and
        Buffer; a string passes every kind, the Number kind only when it starts
        with a number; a Buffer passes every kind but String, the Number kind
        only when its text starts with a number; any other value passes the
        other kinds, and the Number kind only when its text starts with a
        number. */
    function ValidateInput(v: Value): (ok: bool)
      ensures v.Num? ==> (ok <==> kind != StringKind && kind != BufferKind)
      ensures v.Str? ==> (ok <==> kind != NumberKind || ParseInt(v.s).Some?)
      ensures v.Buf? ==> (ok <==> kind != StringKind && (kind != NumberKind || ParseInt(TextOf(v)).Some?))
      ensures !v.Num? && !v.Str? && !v.Buf? ==>
                (ok <==> kind.Other? || (kind == NumberKind && ParseInt(TextOf(v)).Some?))
    {
      assert v.Str? ==> TextOf(v) == v.s;
      match kind
      case BufferKind => v.Buf? || v.Str?
      case NumberKind => v.Num? || ParseInt(TextOf(v)).Some?
      case StringKind => v.Str?
      case Other(_) => true
    }

    /** `toString`: the field name, then the kind's name in angle brackets. */
    function ToString(): (s: string)
      ensures |s| == |name| + |kind.Name()| + 2
      ensures s[..|name|] == name && s[|name|] == '<' && s[|s| - 1] == '>'
      ensures s[|name| + 1..|s| - 1] == kind.Name()
    {
      name + "<" + kind.Name() + ">"
    }
  }

  function IdType(): Type { Type("id", NumberKind) }
  function PriorityType(): Type { Type("priority", NumberKind) }
  function DelayType(): Type { Type("delay", NumberKind) }
  function TubeType(): Type { Type("tube", StringKind) }
  function BodyType(): Type { Type("body", BufferKind) }
  function YamlBodyType(): Type { Type("body", Other("Object")) }

  /** The text before the first `<`. */
  function BeforeAngle(s: string): (p: string)
    ensures |p| <= |s| && p == s[..|p|]
    ensures '<' !in p
  {
    if s == [] || s[0] == '<' then [] else [s[0]] + BeforeAngle(s[1..])
  }

  /** A printed type names its field: reading up to the first `<` gives the
      name back, whenever the name has no `<` of its own. */
  lemma {:induction false} ToStringNamesField(t: Type)
    requires '<' !in t.name
    ensures BeforeAngle(t.ToString()) == t.name
  {
    var s := t.ToString();
    BeforeAnglePrefix(t.name, s[|t.name|..]);
    assert s == t.name + s[|t.name|..];
  }

  lemma {:induction false} BeforeAnglePrefix(a: string, b: string)
    requires '<' !in a
    requires b != [] && b[0] == '<'
    ensures BeforeAngle(a + b) == a
  {
    if a != [] {
      assert (a + b)[1..] == a[1..] + b;
      BeforeAnglePrefix(a[1..], b);
    } else {
      assert a + b == b;
    }
  }

  /** The named subclasses, printed as the unit tests expect. */
  lemma NamedTypesPrint()
    ensures IdType().ToString() == "id<Number>"
    ensures PriorityType().ToString() == "priority<Number>"
    ensures DelayType().ToString() == "delay<Number>"
    ensures TubeType().ToString() == "tube<String>"
    ensures BodyType().ToString() == "body<Buffer>"
    ensures YamlBodyType().ToString() == "body<Object>"
  {
  }

  /** The String kind accepts only strings, and everything it accepts the
      Buffer kind accepts too. */
  lemma StringKindAccepts(t: Type, v: Value)
    requires t.kind == StringKind
    ensures t.ValidateInput(v) <==> v.Str?
    ensures t.ValidateInput(v) ==> Type(t.name, BufferKind).ValidateInput(v)
  {
  }

  /** The Number kind accepts a string exactly when, after its leading white
      space, a digit follows, or a sign and then a digit: "7", " -7" and
      "60 seconds" pass, "", "-" and "tube" do not. */
  lemma NumberKindAcceptsText(t: Type, s: string)
    requires t.kind == NumberKind
    ensures t.ValidateInput(Str(s)) <==>
      (var u := TrimStart(s);
       (|u| > 0 && IsDigit(u[0])) || (|u| > 1 && (u[0] == '-' || u[0] == '+') && IsDigit(u[1])))
  {
    ParseIntIsNumber(s);
  }

  /** The Number kind accepts every number, and every string that is the
      decimal text of an integer, followed by anything that is not a digit
      (so "42", "-7" and "60 seconds" are accepted). */
  lemma NumberKindAcceptsDecimalText(t: Type, n: int, rest: string)
    requires t.kind == NumberKind
    requires rest == [] || !IsDigit(rest[0])
    ensures t.ValidateInput(Num(n))
    ensures t.ValidateInput(Str(NumberToString(n) + rest))
  {
    ParseIntOfNumberToString(n, rest);
  }

  /** `parseInt` of a text that starts with neither white space, a sign nor
      a digit is NaN. */
  lemma ParseIntOfNonNumeric(s: string)
    requires s != [] && !IsWhiteSpace(s[0]) && !IsDigit(s[0]) && s[0] != '-' && s[0] != '+'
    ensures ParseInt(s).None?
  {
    assert TrimStart(s) == s;
  }

  /** The Number kind rejects what the unit tests reject, a one-byte zero
      Buffer and a plain object, and also `undefined` and a string that does
      not start with a number. */
  lemma NumberKindRejects(t: Type, v: Value)
    requires t.kind == NumberKind
    requires v == Buf([0]) || v == Obj("[object Object]") || v == Undefined || v == Str("tube")
    ensures !t.ValidateInput(v)
  {
    ParseIntOfNonNumeric(TextOf(v));
  }
}
