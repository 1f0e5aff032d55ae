/** Three places where src/client.js calls into src/reader.js and
    src/writer.js in a shape their definitions do not take. The rest of the
    model follows the definitions; here each call is modelled as written,
    positionally, next to the call the definitions expect:
    - the read handler passes the chunk where `handle` takes the protocol
      object (src/client.js:198, src/reader.js:13);
    - the write passes the protocol object where `handle` takes the socket
      (src/client.js:210, src/writer.js:9, src/writer.js:16);
    - the constructor builds `BodyReader`s, a class src/reader.js does not
      define (src/client.js:5, src/client.js:56). */
module CallSites {
  import opened JsValues
  import opened Commands
  import opened ReadQueues
  import opened Client
  import Readers
  import Writer

  /** A value a call site passes: the client's `protocol` object (the one
      with `parseReply` and `replyMap`), the socket, a callback, or a plain
      value. */
  datatype Arg = Protocol | Socket | Callback | Plain(value: Value)

  /** The `i`th parameter of a call with `params`; `undefined` past the end. */
  function Param(params: seq<Arg>, i: nat): (a: Arg)
    ensures i < |params| ==> a == params[i]
    ensures i >= |params| ==> a == Plain(Undefined)
  {
    if i < |params| then params[i] else Plain(Undefined)
  }

  /** Buffers as call arguments. */
  function Buffers(args: seq<Bytes>): (r: seq<Arg>)
    ensures |r| == |args|
    ensures forall i :: 0 <= i < |args| ==> r[i] == Plain(Buf(args[i]))
  {
    seq(|args|, i requires 0 <= i < |args| => Plain(Buf(args[i])))
  }

  predicate IsBuffer(a: Arg)
  {
    a.Plain? && a.value.Buf?
  }

  /** Parameters a writer can be given here: Buffers and the two objects. */
  predicate Passable(params: seq<Arg>)
  {
    forall i :: 0 <= i < |params| ==> params[i] != Callback && (params[i].Plain? ==> IsBuffer(params[i]))
  }

  /** What `Buffer.concat` throws when its list holds a function. */
  const ConcatError: Value := TypeErr("\"list\" argument must be an Array of Buffers")
  /** What reading a property of `undefined` throws. */
  const NoParser: Value := TypeErr("Cannot read property 'parseReply' of undefined")
  /** What calling a missing `parseReply` throws. */
  const NoParseReply: Value := TypeErr("protocol.parseReply is not a function")
  /** What calling a missing `write` throws. */
  const NoWrite: Value := TypeErr("connection.write is not a function")

  /* ---------------- The read handler's call ---------------- */

  /** `handle(protocol, data, resolve, reject)` of a reader called with
      `params`. `protocol.parseReply` is looked up first (which throws only
      on `undefined`), then `Buffer.concat([this.remainder, data])` is
      evaluated, which throws unless `data` is a Buffer, and then the call
      throws unless `protocol` has `parseReply`. Each throw leaves the
      `remainder` field as it was and settles nothing. */
  function HandleCalled(params: seq<Arg>, expectation: string, remainder: Bytes,
                        parse: Bytes -> Readers.ParseResult, replyMap: map<string, seq<string>>,
                        parseData: Value -> Value): (step: Readers.Step)
    ensures !Param(params, 0).Protocol? ==>
      step.result.Throws? && step.remainder == remainder && step.settle.Unsettled?
  {
    var protocol, data := Param(params, 0), Param(params, 1);
    if protocol == Plain(Undefined) then Readers.Step(remainder, Throws(NoParser), Readers.Unsettled)
    else if !IsBuffer(data) then Readers.Step(remainder, Throws(ConcatError), Readers.Unsettled)
    else if !protocol.Protocol? then Readers.Step(remainder, Throws(NoParseReply), Readers.Unsettled)
    else Readers.HandleStep(expectation, remainder, data.value.data, parse, replyMap, parseData)
  }

  /** The parameters src/client.js:198 passes: the chunk, then the resolve
      and reject callbacks. */
  function ReaderCallAsWritten(chunk: Bytes): seq<Arg>
  {
    [Plain(Buf(chunk)), Callback, Callback]
  }

  /** The parameters src/reader.js:13 takes: the protocol object first. */
  function ReaderCallIntended(chunk: Bytes): seq<Arg>
  {
    [Protocol, Plain(Buf(chunk)), Callback, Callback]
  }

  /** The handler of pending call `p` when the reader gets `params(data)`,
      settling the call as `Client.Respond` does. */
  function RespondCalled(asWritten: bool, parse: Bytes -> Readers.ParseResult, replyMap: map<string, seq<string>>,
                         yamlLoad: Value -> Value, p: Pending, w: World, data: Bytes): (r: Reaction<World>)
  {
    var params := if asWritten then ReaderCallAsWritten(data) else ReaderCallIntended(data);
    var step := HandleCalled(params, ClientWiring[p.command].expectation, Remainder(w.remainders, p.command),
                             parse, replyMap, ParseData(p.command, yamlLoad));
    var settlements :=
      if step.settle.Unsettled? then w.settlements else w.settlements + [Outcome(p.exchange, step.settle)];
    Reaction(step.result, World(w.remainders[p.command := step.remainder], settlements))
  }

  function HandlerCalled(asWritten: bool, parse: Bytes -> Readers.ParseResult, replyMap: map<string, seq<string>>,
                         yamlLoad: Value -> Value): (Pending, World, Bytes) -> Reaction<World>
  {
    (p: Pending, w: World, d: Bytes) => RespondCalled(asWritten, parse, replyMap, yamlLoad, p, w, d)
  }

  /** As written, every handler call throws the TypeError of `Buffer.concat`
      and settles nothing, whatever the bytes. */
  lemma ReaderCallThrows(parse: Bytes -> Readers.ParseResult, replyMap: map<string, seq<string>>,
                         yamlLoad: Value -> Value, p: Pending, w: World, data: Bytes)
    ensures var r := RespondCalled(true, parse, replyMap, yamlLoad, p, w, data);
      r.result == Throws(ConcatError) && r.world.settlements == w.settlements
  {
  }

  /** Called as src/reader.js defines it, the handler is the one the client
      model runs. */
  lemma ReaderCallIntendedResponds(parse: Bytes -> Readers.ParseResult, replyMap: map<string, seq<string>>,
                                   yamlLoad: Value -> Value, p: Pending, w: World, data: Bytes)
    ensures RespondCalled(false, parse, replyMap, yamlLoad, p, w, data) == Respond(parse, replyMap, yamlLoad, p, w, data)
  {
  }

  /** As written, a chunk with a call waiting ends in an exception out of
      the data event: the oldest waiting call becomes current and stays
      current, nothing settles, and the next chunk goes to the same call and
      throws again. No reply ever settles a call. */
  lemma {:induction false} NoReplySettles(queue: seq<Pending>, current: Slot<Pending>, w: World, chunk: Bytes,
                                          parse: Bytes -> Readers.ParseResult, replyMap: map<string, seq<string>>,
                                          yamlLoad: Value -> Value)
    requires Active(current, queue) != [] && !current.Missing?
    ensures var r := Dispatch(queue, current, w, chunk, HandlerCalled(true, parse, replyMap, yamlLoad));
      var waiting := Active(current, queue);
      r.end == Thrown(ConcatError) && r.world.settlements == w.settlements &&
      r.current == Current(waiting[0]) && r.queue == waiting[1..] && Active(r.current, r.queue) == waiting
  {
    var handle := HandlerCalled(true, parse, replyMap, yamlLoad);
    var waiting := Active(current, queue);
    var h, rest := waiting[0], waiting[1..];
    assert handle(h, w, chunk) == RespondCalled(true, parse, replyMap, yamlLoad, h, w, chunk);
    ReaderCallThrows(parse, replyMap, yamlLoad, h, w, chunk);
    assert Dispatch(queue, current, w, chunk, handle) == Invoke(h, rest, w, chunk, handle);
  }

  /* ---------------- The write ---------------- */

  /** What a writer's `handle` did: one write of `bytes`, or an exception
      before any write. */
  datatype Written = Wrote(bytes: Bytes) | Threw(error: Value)

  /** `String(a)`, as `args.join(' ')` renders it: a Buffer is its bytes,
      and the protocol object and the socket are plain objects. */
  function Text(a: Arg): (t: Bytes)
    requires a != Callback
    ensures IsBuffer(a) ==> t == a.value.data
  {
    if IsBuffer(a) then a.value.data else Ascii("[object Object]")
  }

  function Texts(params: seq<Arg>): (r: seq<Bytes>)
    requires Passable(params)
    ensures |r| == |params|
    ensures forall i :: 0 <= i < |params| ==> r[i] == Text(params[i])
  {
    seq(|params|, i requires 0 <= i < |params| => Text(params[i]))
  }

  /** `handle(connection, ...args)` of command `c`'s writer called with
      `params`: the first binds `connection` and the rest are `args`. A
      body writer pops the body first, and `new Buffer` throws when it is
      missing or an object that is not array-like; then the write throws
      unless `connection` is the socket. The call sites pass only Buffers
      and the two objects here, never a callback. */
  function WriteCalled(c: CommandIndex, params: seq<Arg>): (r: Written)
    requires Passable(params)
    ensures !Param(params, 0).Socket? ==> r.Threw?
  {
    var connection := Param(params, 0);
    var args := if params == [] then [] else params[1..];
    if ClientWiring[c].writer == BodyWriter && (args == [] || !IsBuffer(args[|args| - 1])) then
      Threw(Writer.MissingBodyError)
    else if !connection.Socket? then Threw(NoWrite)
    else if ClientWiring[c].writer == BasicWriter then Wrote(Writer.Encode(Name(c), Texts(args), None))
    else Wrote(Writer.Encode(Name(c), Texts(args[..|args| - 1]), Some(args[|args| - 1].value.data)))
  }

  /** The parameters src/client.js:210 passes: the protocol object, the
      socket, then the call's arguments. */
  function WriterCallAsWritten(args: seq<Bytes>): (r: seq<Arg>)
    ensures Passable(r)
  {
    [Protocol, Socket] + Buffers(args)
  }

  /** The parameters src/writer.js:9 takes: the socket, then the arguments. */
  function WriterCallIntended(args: seq<Bytes>): (r: seq<Arg>)
    ensures Passable(r)
  {
    [Socket] + Buffers(args)
  }

  /** As written, no command ever writes: a `put` with no argument pops the
      socket as its body and `new Buffer` throws, and every other call
      throws at `write`, which the protocol object lacks. The call's promise
      rejects with that TypeError, as for a body command without a body. */
  lemma WriterCallThrows(c: CommandIndex, args: seq<Bytes>)
    ensures WriteCalled(c, WriterCallAsWritten(args))
              == Threw(if ClientWiring[c].writer == BodyWriter && args == [] then Writer.MissingBodyError else NoWrite)
  {
    var params := WriterCallAsWritten(args);
    var rest := params[1..];
    assert rest == [Socket] + Buffers(args);
    if args != [] {
      assert rest[|rest| - 1] == Plain(Buf(args[|args| - 1]));
    }
  }

  /** Called as src/writer.js defines it, the write is the client model's
      request, and a body command without a body throws as the client model
      says. */
  lemma WriterCallIntendedRequests(c: CommandIndex, args: seq<Bytes>)
    ensures Request(c, args).Some? ==> WriteCalled(c, WriterCallIntended(args)) == Wrote(Request(c, args).value)
    ensures Request(c, args).None? ==> WriteCalled(c, WriterCallIntended(args)) == Threw(Writer.MissingBodyError)
  {
    var params := WriterCallIntended(args);
    assert params[1..] == Buffers(args);
    TextsOfBuffers(args);
    if args != [] {
      assert Buffers(args)[|args| - 1] == Plain(Buf(args[|args| - 1]));
      TextsOfBuffers(args[..|args| - 1]);
      assert Buffers(args)[..|args| - 1] == Buffers(args[..|args| - 1]);
    }
  }

  lemma TextsOfBuffers(args: seq<Bytes>)
    ensures Texts(Buffers(args)) == args
  {
  }

  /* ---------------- The constructor ---------------- */

  /** The reader classes src/reader.js defines. */
  predicate Defined(k: ReaderKind)
  {
    k != BodyReader
  }

  /** The constructor creates the command methods in order, and `new` of a
      class its import left `undefined` throws a TypeError. The result is the
      row that throws first, or `None` when every row's reader is built. */
  function FirstUnbuilt(rows: seq<Wiring>, built: ReaderKind -> bool): (r: Option<nat>)
    ensures r.Some? ==> r.value < |rows| && !built(rows[r.value].reader)
    ensures r.Some? ==> forall i :: 0 <= i < r.value ==> built(rows[i].reader)
    ensures r.None? <==> forall i :: 0 <= i < |rows| ==> built(rows[i].reader)
  {
    if rows == [] then None
    else if !built(rows[0].reader) then Some(0)
    else
      var t := FirstUnbuilt(rows[1..], built);
      assert forall i :: 0 < i < |rows| ==> rows[i] == rows[1..][i - 1];
      if t.None? then None else Some(t.value + 1)
  }

  /** As written, `new BeanstalkdClient()` throws when it reaches `reserve`,
      the first command read with a `BodyReader`: no client is ever built. */
  lemma {:induction false} ConstructorThrows()
    ensures FirstUnbuilt(ClientWiring, Defined) == Some(6) && ClientWiring[6].property == "reserve"
  {
    var rows := ClientWiring;
    assert rows[6].reader == BodyReader;
    assert forall i :: 0 <= i < 6 ==> rows[i].reader == BasicReader;
    FirstUnbuiltAt(rows, Defined, 6);
  }

  lemma FirstUnbuiltAt(rows: seq<Wiring>, built: ReaderKind -> bool, k: nat)
    requires k < |rows| && !built(rows[k].reader)
    requires forall i :: 0 <= i < k ==> built(rows[i].reader)
    ensures FirstUnbuilt(rows, built) == Some(k)
  {
  }

  /** With every reader class defined, as this model reads `BodyReader`,
      every command method is built; the corrected reader resolves a reserve
      with the job's id and body (`Readers.BodyReplyDropsLength`). */
  lemma {:induction false} ConstructorBuildsAll()
    ensures FirstUnbuilt(ClientWiring, (k: ReaderKind) => true).None?
  {
  }
}
