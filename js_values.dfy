/** Values of the JavaScript runtime that the client passes around: bytes of a
    Buffer, the dynamic value kinds that arguments and replies take, and
    JavaScript's notion of truthiness, which several branches of the client test. */
module JsValues {

  /** One octet of a Node.js Buffer. */
  newtype byte = b: int | 0 <= b < 256

  /** The contents of a Buffer. */
  type Bytes = seq<byte>

  datatype Option<T> = None | Some(value: T)

  /** A JavaScript value, as far as the client distinguishes kinds.
      `Err` is an `Error` object and `TypeErr` a `TypeError` (each with its
      message); `Obj` is any other object,
      carried with the string that `String(v)` gives for it. Numbers are
      modelled by their integer value. */
  datatype Value =
    | Undefined
    | Null
    | Bool(b: bool)
    | Num(n: int)
    | Str(s: string)
    | Buf(data: Bytes)
    | Err(message: string)
    | TypeErr(message: string)
    | Obj(text: string)

  /** JavaScript truthiness: `undefined`, `null`, `false`, `0` and `""` are
      falsy; every object (an empty Buffer included) is truthy. */
  predicate Truthy(v: Value)
  {
    match v
    case Undefined => false
    case Null => false
    case Bool(b) => b
    case Num(n) => n != 0
    case Str(s) => s != ""
    case Buf(_) => true
    case Err(_) => true
    case TypeErr(_) => true
    case Obj(_) => true
  }

  /** `a || b` on JavaScript values. */
  function Or(a: Value, b: Value): (r: Value)
    ensures Truthy(a) ==> r == a
    ensures !Truthy(a) ==> r == b
  {
    if Truthy(a) then a else b
  }

  const CR: byte := 0x0D
  const LF: byte := 0x0A
  const SP: byte := 0x20

  /** The line terminator of every header, status line and body. */
  const CRLF: Bytes := [CR, LF]

  predicate IsAscii(s: string)
  {
    forall i :: 0 <= i < |s| ==> s[i] as int < 128
  }

  /** The bytes of an ASCII string (what `new Buffer(s)` gives for it). */
  function Ascii(s: string): (b: Bytes)
    requires IsAscii(s)
    ensures |b| == |s|
    ensures forall i :: 0 <= i < |s| ==> b[i] as int == s[i] as int
  {
    seq(|s|, i requires 0 <= i < |s| => s[i] as int as byte)
  }

  /** Each byte read as the character with the same code (Latin-1). */
  function Latin(b: Bytes): (s: string)
    ensures |s| == |b|
    ensures forall i :: 0 <= i < |b| ==> s[i] as int == b[i] as int
  {
    seq(|b|, i requires 0 <= i < |b| => b[i] as int as char)
  }

  lemma LatinOfAscii(s: string)
    requires IsAscii(s)
    ensures Latin(Ascii(s)) == s
  {
  }

  lemma AsciiConcat(s: string, t: string)
    requires IsAscii(s) && IsAscii(t)
    ensures IsAscii(s + t) && Ascii(s + t) == Ascii(s) + Ascii(t)
  {
  }
}
