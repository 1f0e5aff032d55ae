/** Command encoding (src/writer.js). A request is the command name and its
    arguments joined by single spaces and ended by CRLF; a command with a body
    also carries the body's byte length as its last header token, and then the
    body and another CRLF. Arguments are modelled as the bytes of their text. */
module Writer {
  import opened JsValues
  import opened Decimal
  import opened Transport
  import ArgTypes

  /** `tokens.join(' ')`. */
  function Join(tokens: seq<Bytes>): Bytes
  {
    if |tokens| == 0 then []
    else if |tokens| == 1 then tokens[0]
    else tokens[0] + [SP] + Join(tokens[1..])
  }

  /** Index of the first occurrence of `x` in `s`. */
  function IndexOf(s: Bytes, x: byte): (r: Option<nat>)
    ensures r.None? ==> x !in s
    ensures r.Some? ==> r.value < |s| && s[r.value] == x && x !in s[..r.value]
  {
    if s == [] then None
    else if s[0] == x then Some(0)
    else match IndexOf(s[1..], x)
      case None => None
      case Some(i) =>
        assert s[..i + 1] == [s[0]] + s[1..][..i];
        Some(i + 1)
  }

  /** `split(' ')`: the pieces between spaces, empty pieces included. */
  function Split(s: Bytes): (r: seq<Bytes>)
    ensures |r| >= 1
    decreases |s|
  {
    match IndexOf(s, SP)
    case None => [s]
    case Some(i) => [s[..i]] + Split(s[i + 1..])
  }

  /** A token that the header line can carry unambiguously. */
  predicate PlainToken(t: Bytes)
  {
    SP !in t && CR !in t
  }

  /** The decimal text of a body's length (`args.push(body.length)`). */
  function LengthToken(body: Bytes): (t: Bytes)
    ensures PlainToken(t) && t != []
  {
    var text := NumberToString(|body|);
    var t := Ascii(text);
    assert forall i :: 0 <= i < |t| ==> IsDigit(text[i]) && t[i] as int == text[i] as int;
    t
  }

  /** The bytes a writer sends for a command: without a body (BasicWriter),
      `name SP arg … CRLF`; with one (BodyWriter),
      `name SP arg … SP length CRLF body CRLF`. */
  function Encode(command: Bytes, args: seq<Bytes>, body: Option<Bytes>): (r: Bytes)
    ensures body.None? ==> r == Join([command] + args) + CRLF
    ensures body.Some? ==>
      var header := Join([command] + args + [LengthToken(body.value)]);
      r == header + CRLF + body.value + CRLF && |r| == |header| + |body.value| + 4
  {
    match body
    case None => Join([command] + args) + CRLF
    case Some(b) => Join([command] + args + [LengthToken(b)]) + CRLF + b + CRLF
  }

  /** One request as a reader of the wire sees it: its header tokens (without
      the length token, when there is a body), its body, and what follows. */
  datatype Frame = Frame(tokens: seq<Bytes>, body: Option<Bytes>, rest: Bytes)

  /** Position of the first CRLF. */
  function FindCrlf(s: Bytes): (r: Option<nat>)
    ensures r.Some? ==> r.value + 2 <= |s| && s[r.value..r.value + 2] == CRLF
  {
    if |s| < 2 then None
    else if s[0] == CR && s[1] == LF then Some(0)
    else match FindCrlf(s[1..])
      case None => None
      case Some(i) => Some(i + 1)
  }

  /** Reads one request off the front of `s`: the header line up to the first
      CRLF, split on spaces; with a body, the last header token is its decimal
      length and the body must be followed by CRLF. */
  function DecodeFrame(s: Bytes, hasBody: bool): Option<Frame>
  {
    match FindCrlf(s)
    case None => None
    case Some(i) =>
      var tokens := Split(s[..i]);
      var after := s[i + 2..];
      if !hasBody then Some(Frame(tokens, None, after))
      else
        match ParseInt(Latin(tokens[|tokens| - 1]))
        case None => None
        case Some(n) =>
          if n < 0 || |after| < n + 2 || after[n..n + 2] != CRLF then None
          else Some(Frame(tokens[..|tokens| - 1], Some(after[..n]), after[n + 2..]))
  }

  lemma {:induction false} IndexOfAfter(a: Bytes, b: Bytes)
    requires SP !in a
    ensures IndexOf(a + [SP] + b, SP) == Some(|a|)
  {
    if a != [] {
      assert (a + [SP] + b)[1..] == a[1..] + [SP] + b;
      IndexOfAfter(a[1..], b);
    }
  }

  /** Splitting a joined header on spaces gives back its tokens, as long as no
      token holds a space. */
  lemma {:induction false} SplitJoin(tokens: seq<Bytes>)
    requires |tokens| >= 1
    requires forall t :: t in tokens ==> SP !in t
    ensures Split(Join(tokens)) == tokens
  {
    if |tokens| > 1 {
      var s := Join(tokens);
      IndexOfAfter(tokens[0], Join(tokens[1..]));
      assert s[..|tokens[0]|] == tokens[0];
      assert s[|tokens[0]| + 1..] == Join(tokens[1..]);
      SplitJoin(tokens[1..]);
    }
  }

  lemma {:induction false} JoinHasNoCr(tokens: seq<Bytes>)
    requires forall t :: t in tokens ==> CR !in t
    ensures CR !in Join(tokens)
  {
    if |tokens| > 1 {
      JoinHasNoCr(tokens[1..]);
    }
  }

  lemma {:induction false} FindCrlfAfter(h: Bytes, rest: Bytes)
    requires CR !in h
    ensures FindCrlf(h + CRLF + rest) == Some(|h|)
  {
    if h != [] {
      assert (h + CRLF + rest)[1..] == h[1..] + CRLF + rest;
      FindCrlfAfter(h[1..], rest);
    }
  }

  /** A header line is read back up to its CRLF, token for token. */
  lemma HeaderLineDecodes(tokens: seq<Bytes>, tail: Bytes)
    requires |tokens| >= 1
    requires forall t :: t in tokens ==> PlainToken(t)
    ensures var h := Join(tokens);
      var s := h + CRLF + tail;
      FindCrlf(s) == Some(|h|) && Split(s[..|h|]) == tokens && s[|h| + 2..] == tail
  {
    var h := Join(tokens);
    JoinHasNoCr(tokens);
    SplitJoin(tokens);
    FindCrlfAfter(h, tail);
    var s := h + CRLF + tail;
    assert s[..|h|] == h;
    assert s[|h| + 2..] == tail;
  }

  /** Whatever follows a request without a body on the wire, reading it back
      gives the command name and then the arguments, in order. */
  lemma DecodeEncodeBasic(command: Bytes, args: seq<Bytes>, rest: Bytes)
    requires PlainToken(command)
    requires forall a :: a in args ==> PlainToken(a)
    ensures DecodeFrame(Encode(command, args, None) + rest, false) == Some(Frame([command] + args, None, rest))
  {
    HeaderLineDecodes([command] + args, rest);
    assert Encode(command, args, None) + rest == Join([command] + args) + CRLF + rest;
  }

  /** Whatever follows a request with a body on the wire, reading it back
      gives the command name, the arguments in order, and the body bytes
      verbatim: the length token counts exactly the body's bytes. */
  lemma DecodeEncodeBody(command: Bytes, args: seq<Bytes>, body: Bytes, rest: Bytes)
    requires PlainToken(command)
    requires forall a :: a in args ==> PlainToken(a)
    ensures DecodeFrame(Encode(command, args, Some(body)) + rest, true)
              == Some(Frame([command] + args, Some(body), rest))
  {
    var len := LengthToken(body);
    var tokens := [command] + args + [len];
    var tail := body + CRLF + rest;
    HeaderLineDecodes(tokens, tail);
    assert Encode(command, args, Some(body)) + rest == Join(tokens) + CRLF + tail;
    LengthTokenParses(body);
    assert tokens[|tokens| - 1] == len;
    assert tokens[..|tokens| - 1] == [command] + args;
    BodyFollows(body, rest);
  }

  /** The length token reads back as the body's length. */
  lemma LengthTokenParses(body: Bytes)
    ensures ParseInt(Latin(LengthToken(body))) == Some(|body|)
  {
    LatinOfAscii(NumberToString(|body|));
    ParseIntOfNumberToString(|body|, []);
    assert NumberToString(|body|) + [] == NumberToString(|body|);
  }

  lemma BodyFollows(body: Bytes, rest: Bytes)
    ensures var tail := body + CRLF + rest;
      tail[..|body|] == body && tail[|body|..|body| + 2] == CRLF && tail[|body| + 2..] == rest
  {
    var tail := body + CRLF + rest;
    assert tail[..|body|] == body;
    assert tail[|body|..|body| + 2] == CRLF;
    assert tail[|body| + 2..] == rest;
  }

  /** The request that a put of `hello` with priority 0, delay 0 and ttr 60
      writes: `put 0 0 60 5\r\nhello\r\n`. */
  lemma PutHelloBytes()
    ensures Encode(Ascii("put"), [Ascii("0"), Ascii("0"), Ascii("60")], Some(Ascii("hello")))
              == Ascii("put 0 0 60 5\r\nhello\r\n")
  {
    PutHelloTokens();
    var tokens := [Ascii("put")] + [Ascii("0"), Ascii("0"), Ascii("60")] + [LengthToken(Ascii("hello"))];
    assert tokens == [[112, 117, 116], [48], [48], [54, 48], [53]];
    PutHelloHeader();
    PutHelloText();
  }

  lemma PutHelloTokens()
    ensures Ascii("put") == [112, 117, 116] && Ascii("0") == [48] && Ascii("60") == [54, 48]
    ensures Ascii("hello") == [104, 101, 108, 108, 111]
    ensures LengthToken(Ascii("hello")) == [53]
  {
    assert Ascii("hello") == [104, 101, 108, 108, 111];
    assert NumberToString(5) == "5";
  }

  lemma PutHelloHeader()
    ensures Join([[112, 117, 116], [48], [48], [54, 48], [53]])
              == [112, 117, 116, 32, 48, 32, 48, 32, 54, 48, 32, 53]
  {
    var tokens: seq<Bytes> := [[112, 117, 116], [48], [48], [54, 48], [53]];
    assert Join(tokens[4..]) == [53];
    assert Join(tokens[3..]) == [54, 48, 32, 53];
    assert Join(tokens[2..]) == [48, 32, 54, 48, 32, 53];
    assert Join(tokens[1..]) == [48, 32, 48, 32, 54, 48, 32, 53];
  }

  lemma PutHelloText()
    ensures Ascii("put 0 0 60 5\r\nhello\r\n")
              == [112, 117, 116, 32, 48, 32, 48, 32, 54, 48, 32, 53] + CRLF + [104, 101, 108, 108, 111] + CRLF
  {
  }

  /** What `new Buffer(undefined)` throws when a body command gets no body. */
  const MissingBodyError: Value :=
    TypeErr("First argument must be a string, Buffer, ArrayBuffer, Array, or array-like object.")

  /** `BasicWriter`: a command written without a body. */
  class BasicWriter {
    const command: Bytes
    const types: seq<ArgTypes.Type>

    constructor(command: Bytes, types: seq<ArgTypes.Type>)
      ensures this.command == command && this.types == types
    {
      this.command := command;
      this.types := types;
    }

    /** `handle(connection, ...args)`: exactly one write, of the header line. */
    method Handle(connection: Connection, args: seq<Bytes>)
      modifies connection`written
      ensures connection.written == old(connection.written) + [Encode(command, args, None)]
    {
      var line := args;
      line := [command] + line;
      connection.Write(Join(line) + CRLF);
    }
  }

  /** `BodyWriter`: a command whose last argument is its body. */
  class BodyWriter {
    const command: Bytes
    const types: seq<ArgTypes.Type>

    constructor(command: Bytes, types: seq<ArgTypes.Type>)
      ensures this.command == command && this.types == types
    {
      this.command := command;
      this.types := types;
    }

    /** `handle(connection, ...args)`: pops the body off the arguments and writes
        the header with the body's length, the body and CRLF in one write.
        Without any argument, `new Buffer(undefined)` throws a TypeError
        before anything is written. */
    method Handle(connection: Connection, args: seq<Bytes>) returns (thrown: Option<Value>)
      modifies connection`written
      ensures args == [] ==> thrown == Some(MissingBodyError) && connection.written == old(connection.written)
      ensures args != [] ==> (thrown.None? &&
        connection.written == old(connection.written) + [Encode(command, args[..|args| - 1], Some(args[|args| - 1]))])
    {
      if args == [] {
        return Some(MissingBodyError);
      }
      var line := args;
      var body := line[|line| - 1];
      line := line[..|line| - 1];
      line := [command] + line;
      line := line + [LengthToken(body)];
      connection.Write(Join(line) + CRLF + body + CRLF);
      thrown := None;
    }
  }
}
