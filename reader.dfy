/** Reply handling (src/reader.js). A reader keeps the bytes of a reply that
    has not fully arrived, hands everything it has to the protocol's reply
    parser, and settles its command: resolved with the reply's arguments when
    the status is the one it expects, rejected with the status otherwise. The
    parser and its table of reply arguments belong to the beanstalkd-protocol
    package, which is not part of this model: they are parameters here. */
module Readers {
  import opened JsValues
  import opened ReadQueues

  /** A parsed reply: its status word and its named arguments. */
  datatype Reply = Reply(reply: string, args: map<string, Value>)

  /** What `parseReply` gives back: the bytes it did not consume (absent when
      it returns none) and the reply, absent when the input is incomplete. */
  datatype ParseResult = ParseResult(remainder: Option<Bytes>, result: Option<Reply>)

  /** How a reader settles its command's promise. */
  datatype Resolution = Single(value: Value) | Many(values: seq<Value>)
  datatype Settle = Unsettled | Resolved(resolution: Resolution) | Rejected(error: Value)

  /** One `handle` call: the new `remainder` field, what `handle` returned or
      threw, and how it settled the command. */
  datatype Step = Step(remainder: Bytes, result: HandlerResult, settle: Settle)

  /** What reading a missing property of `undefined` throws. */
  const NoReply: Value := TypeErr("Cannot read property 'reply' of undefined")

  /** `result.args[name]`: `undefined` for an argument the reply lacks. */
  function Field(args: map<string, Value>, name: string): (v: Value)
    ensures name in args ==> v == args[name]
    ensures name !in args ==> v == Undefined
  {
    if name in args then args[name] else Undefined
  }

  /** `names.indexOf(x)`, with -1 as `None`. */
  function FirstIndex(names: seq<string>, x: string): (r: Option<nat>)
    ensures r.None? <==> x !in names
    ensures r.Some? ==> r.value < |names| && names[r.value] == x && x !in names[..r.value]
  {
    if names == [] then None
    else if names[0] == x then Some(0)
    else match FirstIndex(names[1..], x)
      case None => None
      case Some(i) =>
        assert names[..i + 1] == [names[0]] + names[1..][..i];
        Some(i + 1)
  }

  /** The arguments a matching reply resolves with: the values of the
      argument names in order, except that the first `bytes` position (the
      body length) is dropped and the last remaining value goes through
      `parseData`. With `bytes` as the only name nothing remains, and the
      assignment to index -1 leaves the list as it is; the source still
      calls `parseData(undefined)` there, a call this model leaves out along
      with every other failure of `parseData`. */
  function Project(names: seq<string>, args: map<string, Value>, parseData: Value -> Value): (vs: seq<Value>)
    ensures "bytes" !in names ==> |vs| == |names| && forall i :: 0 <= i < |names| ==> vs[i] == Field(args, names[i])
    ensures "bytes" in names ==> |vs| == |names| - 1
  {
    var values := seq(|names|, i requires 0 <= i < |names| => Field(args, names[i]));
    match FirstIndex(names, "bytes")
    case None => values
    case Some(b) =>
      var kept := values[..b] + values[b + 1..];
      if kept == [] then kept else kept[|kept| - 1 := parseData(kept[|kept| - 1])]
  }

  /** `resolve(args.length > 1 ? args : args[0])`. */
  function Resolve(vs: seq<Value>): (r: Resolution)
    ensures |vs| > 1 <==> r.Many?
    ensures r.Many? ==> r.values == vs
    ensures |vs| == 1 ==> r == Single(vs[0])
    ensures vs == [] ==> r == Single(Undefined)
  {
    if |vs| > 1 then Many(vs) else if vs == [] then Single(Undefined) else Single(vs[0])
  }

  /** `handle(protocol, data, resolve, reject)` of a reader expecting
      `expectation` whose `remainder` field holds `remainder`. */
  function HandleStep(expectation: string, remainder: Bytes, data: Bytes, parse: Bytes -> ParseResult,
                      replyMap: map<string, seq<string>>, parseData: Value -> Value): Step
  {
    var p := parse(remainder + data);
    if p.remainder.Some? && p.result.None? then Step(p.remainder.value, Returns(Undefined), Unsettled)
    else if p.result.None? then Step([], Throws(NoReply), Unsettled)
    else
      var reply := p.result.value;
      var leftover := if p.remainder.Some? then p.remainder.value else [];
      var settle :=
        if reply.reply == expectation then
          Resolved(Resolve(if reply.reply in replyMap then Project(replyMap[reply.reply], reply.args, parseData) else []))
        else Rejected(Err(reply.reply));
      Step([], Returns(Buf(leftover)), settle)
  }

  /** `BasicReader.parseData`: the last argument as it is. */
  function Identity(data: Value): Value
  {
    data
  }

  class BasicReader {
    const expectation: string
    var remainder: Bytes

    /** A new reader has nothing buffered. */
    constructor(expectation: string)
      ensures this.expectation == expectation && remainder == []
    {
      this.expectation := expectation;
      remainder := [];
    }

    method Handle(data: Bytes, parse: Bytes -> ParseResult, replyMap: map<string, seq<string>>)
      returns (result: HandlerResult, settle: Settle)
      modifies this`remainder
      ensures Step(remainder, result, settle) == HandleStep(expectation, old(remainder), data, parse, replyMap, Identity)
    {
      var p := parse(remainder + data);
      if p.remainder.Some? && p.result.None? {
        remainder := p.remainder.value;
        return Returns(Undefined), Unsettled;
      }
      remainder := [];
      if p.result.None? {
        return Throws(NoReply), Unsettled;
      }
      var reply := p.result.value;
      var leftover := if p.remainder.Some? then p.remainder.value else [];
      if reply.reply == expectation {
        var args: seq<Value> := [];
        if reply.reply in replyMap {
          var names := replyMap[reply.reply];
          var bytes := FirstIndex(names, "bytes");
          args := seq(|names|, i requires 0 <= i < |names| => Field(reply.args, names[i]));
          if bytes.Some? {
            args := args[..bytes.value] + args[bytes.value + 1..];
            if args != [] {
              args := args[|args| - 1 := Identity(args[|args| - 1])];
            }
          }
        }
        settle := Resolved(if |args| > 1 then Many(args) else Single(if args == [] then Undefined else args[0]));
      } else {
        settle := Rejected(Err(reply.reply));
      }
      result := Returns(Buf(leftover));
    }
  }

  /** The parser always sees the stored remainder followed by the new chunk:
      how the bytes were split between the two makes no difference. */
  lemma ParserSeesRemainderThenData(expectation: string, r1: Bytes, d1: Bytes, r2: Bytes, d2: Bytes,
                                    parse: Bytes -> ParseResult, replyMap: map<string, seq<string>>,
                                    parseData: Value -> Value)
    requires r1 + d1 == r2 + d2
    ensures HandleStep(expectation, r1, d1, parse, replyMap, parseData)
         == HandleStep(expectation, r2, d2, parse, replyMap, parseData)
  {
  }

  /** An incomplete parse (leftover, no reply) stores the leftover and
      returns a falsy value, so the queue keeps the reader current. */
  lemma IncompleteKeepsLeftover(expectation: string, remainder: Bytes, data: Bytes, parse: Bytes -> ParseResult,
                                replyMap: map<string, seq<string>>, parseData: Value -> Value)
    requires parse(remainder + data).remainder.Some? && parse(remainder + data).result.None?
    ensures var s := HandleStep(expectation, remainder, data, parse, replyMap, parseData);
      s.remainder == parse(remainder + data).remainder.value && s.result.Returns? &&
      !s.result.Finished() && s.settle == Unsettled
  {
  }

  /** A complete parse empties `remainder`, settles the command one way or the
      other, and returns the parser's leftover (an empty Buffer when it gave
      none); either way the result is truthy, so the queue moves on, and it
      carries leftover bytes exactly when the parser left some. */
  lemma CompleteReturnsLeftover(expectation: string, remainder: Bytes, data: Bytes, parse: Bytes -> ParseResult,
                                replyMap: map<string, seq<string>>, parseData: Value -> Value)
    requires parse(remainder + data).result.Some?
    ensures var p := parse(remainder + data);
      var s := HandleStep(expectation, remainder, data, parse, replyMap, parseData);
      s.remainder == [] && s.settle != Unsettled && s.result.Finished() &&
      s.result == Returns(Buf(if p.remainder.Some? then p.remainder.value else [])) &&
      (s.result.HasLeftover() <==> p.remainder.Some? && p.remainder.value != [])
  {
  }

  /** A parser that gives back neither leftover nor reply makes `handle`
      throw (reading `reply` of nothing), after `remainder` was emptied. */
  lemma NoReplyThrows(expectation: string, remainder: Bytes, data: Bytes, parse: Bytes -> ParseResult,
                      replyMap: map<string, seq<string>>, parseData: Value -> Value)
    requires parse(remainder + data) == ParseResult(None, None)
    ensures HandleStep(expectation, remainder, data, parse, replyMap, parseData) == Step([], Throws(NoReply), Unsettled)
  {
  }

  /** A complete reply resolves exactly when its status is the expected one,
      and is rejected with an Error whose message is the status otherwise. */
  lemma SettlesByStatus(expectation: string, remainder: Bytes, data: Bytes, parse: Bytes -> ParseResult,
                        replyMap: map<string, seq<string>>, parseData: Value -> Value)
    requires parse(remainder + data).result.Some?
    ensures var reply := parse(remainder + data).result.value;
      var s := HandleStep(expectation, remainder, data, parse, replyMap, parseData);
      (s.settle.Resolved? <==> reply.reply == expectation) &&
      (s.settle.Rejected? <==> reply.reply != expectation) &&
      (s.settle.Rejected? ==> s.settle.error == Err(reply.reply))
  {
  }

  /** With a `bytes` position, the resolved arguments are the others in
      order, the last of them through `parseData`. */
  lemma {:induction false} ProjectDropsBytes(names: seq<string>, args: map<string, Value>, parseData: Value -> Value, b: nat)
    requires b < |names| && names[b] == "bytes" && "bytes" !in names[..b]
    ensures var vs := Project(names, args, parseData);
      var others := names[..b] + names[b + 1..];
      |vs| == |others| &&
      (forall i :: 0 <= i < |vs| - 1 ==> vs[i] == Field(args, others[i])) &&
      (vs != [] ==> vs[|vs| - 1] == parseData(Field(args, others[|vs| - 1])))
  {
    assert FirstIndex(names, "bytes") == Some(b);
    var values := seq(|names|, k requires 0 <= k < |names| => Field(args, names[k]));
    var kept := values[..b] + values[b + 1..];
    var others := names[..b] + names[b + 1..];
    assert forall k :: 0 <= k < |kept| ==> kept[k] == Field(args, others[k]);
  }

  /** Delivering a reply in two chunks settles and returns as delivering it
      whole, provided the parser hands back everything it was given while
      the reply is incomplete. */
  lemma SplitDelivery(expectation: string, remainder: Bytes, a: Bytes, b: Bytes, parse: Bytes -> ParseResult,
                      replyMap: map<string, seq<string>>, parseData: Value -> Value)
    requires parse(remainder + a) == ParseResult(Some(remainder + a), None)
    ensures var first := HandleStep(expectation, remainder, a, parse, replyMap, parseData);
      !first.result.Finished() && first.settle == Unsettled &&
      HandleStep(expectation, first.remainder, b, parse, replyMap, parseData)
        == HandleStep(expectation, remainder, a + b, parse, replyMap, parseData)
  {
    assert (remainder + a) + b == remainder + (a + b);
  }

  /** First reader unit test: a reply with two arguments resolves with both,
      in order. */
  lemma ResolvesWithArguments(expectation: string, x: Value, y: Value, parse: Bytes -> ParseResult, data: Bytes)
    requires parse(data) == ParseResult(None, Some(Reply(expectation, map["a" := x, "b" := y])))
    ensures HandleStep(expectation, [], data, parse, map[expectation := ["a", "b"]], Identity).settle
              == Resolved(Many([x, y]))
  {
    assert [] + data == data;
  }

  /** Second reader unit test: a reply with one argument resolves with it
      alone, not with a list. */
  lemma ResolvesWithSingleArgument(expectation: string, x: Value, parse: Bytes -> ParseResult, data: Bytes)
    requires parse(data) == ParseResult(None, Some(Reply(expectation, map["a" := x])))
    ensures HandleStep(expectation, [], data, parse, map[expectation := ["a"]], Identity).settle
              == Resolved(Single(x))
  {
    assert [] + data == data;
  }

  /** Third reader unit test: a reply with another status rejects with an
      Error whose message is that status. */
  lemma RejectsOtherStatus(expectation: string, status: string, parse: Bytes -> ParseResult, data: Bytes,
                           replyMap: map<string, seq<string>>)
    requires status != expectation
    requires parse(data) == ParseResult(None, Some(Reply(status, map[])))
    ensures HandleStep(expectation, [], data, parse, replyMap, Identity).settle == Rejected(Err(status))
  {
    assert [] + data == data;
  }

  /** A reply shaped `id bytes payload` resolves with the id and the payload
      through `parseData`: the length never reaches the caller. */
  lemma BodyReplyDropsLength(expectation: string, id: Value, length: Value, body: Value,
                             parse: Bytes -> ParseResult, data: Bytes, parseData: Value -> Value)
    requires parse(data) == ParseResult(None, Some(Reply(expectation, map["id" := id, "bytes" := length, "payload" := body])))
    ensures HandleStep(expectation, [], data, parse, map[expectation := ["id", "bytes", "payload"]], parseData).settle
              == Resolved(Many([id, parseData(body)]))
  {
    assert [] + data == data;
    ProjectDropsBytes(["id", "bytes", "payload"], map["id" := id, "bytes" := length, "payload" := body], parseData, 1);
  }
}
