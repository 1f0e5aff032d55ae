/** Whole exchanges through the client: a client is built, connects, sends
    commands and receives socket events, and the promises of its calls settle
    as the protocol's usual conversations expect. The reply parser of the
    beanstalkd-protocol package is a parameter, described by what it gives
    back for the bytes of each reply. */
module Scenarios {
  import opened JsValues
  import opened Transport
  import opened Commands
  import opened ReadQueues
  import opened Client
  import Writer
  import Readers

  /** The command table's row for `put`. */
  const Put: CommandIndex := 3
  /** The command table's row for `use`. */
  const Use: CommandIndex := 0
  /** The command table's row for `reserve-with-timeout`. */
  const ReserveWithTimeout: CommandIndex := 7

  /** `put 0 0 60 hello` puts `put 0 0 60 5\r\nhello\r\n` on the wire. */
  lemma PutHelloRequest()
    ensures Request(Put, [Ascii("0"), Ascii("0"), Ascii("60"), Ascii("hello")])
              == Some(Ascii("put 0 0 60 5\r\nhello\r\n"))
  {
    assert ClientWiring[Put].command == "put";
    var args := [Ascii("0"), Ascii("0"), Ascii("60"), Ascii("hello")];
    assert args[..|args| - 1] == [Ascii("0"), Ascii("0"), Ascii("60")];
    Writer.PutHelloBytes();
  }

  /** The listeners of the calls numbered `ids`, in the order they were
      added: each call adds its close listener, then its error listener. */
  function ListenersOf(ids: seq<nat>): (ls: seq<Listener>)
    ensures |ls| == 2 * |ids|
  {
    if ids == [] then [] else ListenersOf(ids[..|ids| - 1]) + [Listener(CloseEvent, ids[|ids| - 1]), Listener(ErrorEvent, ids[|ids| - 1])]
  }

  lemma ListenersOfFirstTwo()
    ensures ListenersOf([0]) == [Listener(CloseEvent, 0), Listener(ErrorEvent, 0)]
    ensures ListenersOf([0, 1]) == ListenersOf([0]) + [Listener(CloseEvent, 1), Listener(ErrorEvent, 1)]
  {
    assert [0][..0] == [] && [0, 1][..1] == [0];
  }

  /** One waiting call whose reply arrives whole in one chunk: its reader
      settles it, nothing is left over and no handler stays current. */
  lemma WholeReply(c: CommandIndex, id: nat, parse: Bytes -> Readers.ParseResult,
                   replyMap: map<string, seq<string>>, yamlLoad: Value -> Value, chunk: Bytes, reply: Readers.Reply)
    requires parse(chunk) == Readers.ParseResult(None, Some(reply))
    ensures var r := Dispatch([Pending(id, c)], Cleared, World(map[], []), chunk, Handler(parse, replyMap, yamlLoad));
      var step := Readers.HandleStep(ClientWiring[c].expectation, [], chunk, parse, replyMap, ParseData(c, yamlLoad));
      r.queue == [] && r.current == Cleared && r.end == Finished &&
      r.world.settlements == [Outcome(id, step.settle)] && step.settle != Readers.Unsettled
  {
    assert [] + chunk == chunk;
    Readers.CompleteReturnsLeftover(ClientWiring[c].expectation, [], chunk, parse, replyMap, ParseData(c, yamlLoad));
  }

  /** The call settles and both its listeners go. */
  lemma SettleOnly(id: nat, s: Readers.Settle)
    ensures Apply(Ledger([], ListenersOf([id])), [Outcome(id, s)]) == Ledger([Outcome(id, s)], [])
  {
    var g := Ledger([], ListenersOf([id]));
    assert Apply(g, [Outcome(id, s)]) == Ledger(Record([], Outcome(id, s)), Detach(g.listeners, id));
    var d := Detach(g.listeners, id);
    FirstIsMember(d);
    assert forall l :: l !in d;
  }

  /** A reply `INSERTED <id>` to a put resolves the put with the id alone. */
  lemma InsertedResolves(id: nat, parse: Bytes -> Readers.ParseResult, yamlLoad: Value -> Value,
                         chunk: Bytes, job: Value)
    requires parse(chunk) == Readers.ParseResult(None, Some(Readers.Reply("INSERTED", map["id" := job])))
    ensures var r := Dispatch([Pending(id, Put)], Cleared, World(map[], []), chunk,
                              Handler(parse, map["INSERTED" := ["id"]], yamlLoad));
      r.queue == [] && r.current == Cleared && r.end == Finished &&
      r.world.settlements == [Outcome(id, Readers.Resolved(Readers.Single(job)))]
  {
    var replyMap := map["INSERTED" := ["id"]];
    WholeReply(Put, id, parse, replyMap, yamlLoad, chunk, Readers.Reply("INSERTED", map["id" := job]));
    InsertedSettle(parse, yamlLoad, chunk, job);
  }

  lemma InsertedSettle(parse: Bytes -> Readers.ParseResult, yamlLoad: Value -> Value, chunk: Bytes, job: Value)
    requires parse(chunk) == Readers.ParseResult(None, Some(Readers.Reply("INSERTED", map["id" := job])))
    ensures Readers.HandleStep(ClientWiring[Put].expectation, [], chunk, parse, map["INSERTED" := ["id"]],
                               ParseData(Put, yamlLoad)).settle == Readers.Resolved(Readers.Single(job))
  {
    assert ClientWiring[Put].expectation == "INSERTED" && ClientWiring[Put].reader == BasicReader;
    assert [] + chunk == chunk;
    assert Readers.Project(["id"], map["id" := job], Readers.Identity) == [job];
  }

  /** A new client whose socket has connected, before any command. */
  method NewConnectedClient() returns (client: BeanstalkdClient)
    ensures fresh(client) && client.Valid() && !client.closed && client.connected == Connected
    ensures client.connection != null && fresh(client.connection) && client.readQueue != null && fresh(client.readQueue)
    ensures client.connection.written == [] && client.connection.listeners == []
    ensures client.connection.emitted == [] && !client.connection.destroyed && !client.connection.ended
    ensures client.readQueue.queue == [] && client.readQueue.current == Cleared
    ensures client.log == [] && client.remainders == map[] && client.nextExchange == 0
  {
    client := new BeanstalkdClient(Undefined, Undefined);
    client.Connect();
    client.OnConnect();
  }

  /** A client that connects, puts `hello` and reads an `INSERTED` reply:
      the request is the only write, and the call resolves with the job id
      and stops listening. */
  method PutHello(parse: Bytes -> Readers.ParseResult, replyMap: map<string, seq<string>>,
                  yamlLoad: Value -> Value, reply: Bytes, id: Value)
    returns (written: seq<Bytes>, log: seq<Outcome>, listeners: seq<Listener>)
    requires parse(reply) == Readers.ParseResult(None, Some(Readers.Reply("INSERTED", map["id" := id])))
    requires replyMap == map["INSERTED" := ["id"]]
    ensures written == [Ascii("put 0 0 60 5\r\nhello\r\n")]
    ensures log == [Outcome(0, Readers.Resolved(Readers.Single(id)))]
    ensures listeners == []
  {
    var client := NewConnectedClient();
    PutHelloRequest();
    var call := client.Command(Put, [Ascii("0"), Ascii("0"), Ascii("60"), Ascii("hello")]);
    assert client.readQueue.queue == [Pending(0, Put)] && client.readQueue.current == Cleared;
    assert client.connection.listeners == ListenersOf([0]) && client.log == [] && client.remainders == map[];
    InsertedResolves(0, parse, yamlLoad, reply, id);
    SettleOnly(0, Readers.Resolved(Readers.Single(id)));
    var uncaught, run, settled := client.OnData(reply, parse, replyMap, yamlLoad);
    written, log, listeners := client.connection.written, client.log, client.connection.listeners;
  }

  /** Every listening call settles exactly once in `os`, and none of them had
      settled before: all settle in order and no listener is left. */
  lemma SettleEvery(g: Ledger, os: seq<Outcome>)
    requires DistinctIds(os) && Ids(os) !! Ids(g.log)
    requires forall l :: l in g.listeners ==> l.exchange in Ids(os)
    ensures Apply(g, os) == Ledger(g.log + os, [])
  {
    ApplyFresh(g, os);
    ApplyListeners(g, os);
    var r := Apply(g, os).listeners;
    FirstIsMember(r);
    assert forall l :: l !in r;
  }

  /** A reply `TIMED_OUT` to a reserve-with-timeout rejects it with an Error
      whose message is the status. */
  lemma TimedOutRejects(id: nat, parse: Bytes -> Readers.ParseResult, replyMap: map<string, seq<string>>,
                        yamlLoad: Value -> Value, chunk: Bytes)
    requires parse(chunk) == Readers.ParseResult(None, Some(Readers.Reply("TIMED_OUT", map[])))
    ensures var r := Dispatch([Pending(id, ReserveWithTimeout)], Cleared, World(map[], []), chunk,
                              Handler(parse, replyMap, yamlLoad));
      r.queue == [] && r.current == Cleared && r.end == Finished &&
      r.world.settlements == [Outcome(id, Readers.Rejected(Err("TIMED_OUT")))]
  {
    WholeReply(ReserveWithTimeout, id, parse, replyMap, yamlLoad, chunk, Readers.Reply("TIMED_OUT", map[]));
    assert ClientWiring[ReserveWithTimeout].expectation == "RESERVED";
    assert [] + chunk == chunk;
  }

  /** A reserve-with-timeout that times out: the call rejects with
      `TIMED_OUT` and stops listening, and no handler is left waiting. */
  method ReserveTimesOut(parse: Bytes -> Readers.ParseResult, replyMap: map<string, seq<string>>,
                         yamlLoad: Value -> Value, reply: Bytes)
    returns (log: seq<Outcome>, listeners: seq<Listener>, waiting: seq<Pending>)
    requires parse(reply) == Readers.ParseResult(None, Some(Readers.Reply("TIMED_OUT", map[])))
    ensures log == [Outcome(0, Readers.Rejected(Err("TIMED_OUT")))]
    ensures listeners == [] && waiting == []
  {
    var client := NewConnectedClient();
    var call := client.Command(ReserveWithTimeout, [Ascii("0")]);
    assert client.readQueue.queue == [Pending(0, ReserveWithTimeout)] && client.readQueue.current == Cleared;
    assert client.connection.listeners == ListenersOf([0]) && client.log == [] && client.remainders == map[];
    TimedOutRejects(0, parse, replyMap, yamlLoad, reply);
    SettleOnly(0, Readers.Rejected(Err("TIMED_OUT")));
    var uncaught, run, settled := client.OnData(reply, parse, replyMap, yamlLoad);
    log, listeners, waiting := client.log, client.connection.listeners, client.readQueue.queue;
  }

  /** A `USING <tube>` reply to a `use` call resolves it with the tube, and
      the handler returns the bytes the parser did not need. */
  lemma UsingResolves(parse: Bytes -> Readers.ParseResult, yamlLoad: Value -> Value, w: World, id: nat,
                      data: Bytes, leftover: Option<Bytes>, tube: Value)
    requires Remainder(w.remainders, Use) == []
    requires parse(data) == Readers.ParseResult(leftover, Some(Readers.Reply("USING", map["tube" := tube])))
    ensures var re := Handler(parse, map["USING" := ["tube"]], yamlLoad)(Pending(id, Use), w, data);
      re.result == Returns(Buf(if leftover.Some? then leftover.value else [])) &&
      re.world == World(w.remainders[Use := []], w.settlements + [Outcome(id, Readers.Resolved(Readers.Single(tube)))])
  {
    assert ClientWiring[Use].expectation == "USING" && ClientWiring[Use].reader == BasicReader;
    assert [] + data == data;
    assert Readers.Project(["tube"], map["tube" := tube], Readers.Identity) == [tube];
  }

  /** Two `use` calls whose replies arrive in one chunk: the first reader
      hands the bytes it did not need to the second, and each call resolves
      with its own tube, in order. */
  lemma TwoUsingReplies(parse: Bytes -> Readers.ParseResult, yamlLoad: Value -> Value,
                        chunk: Bytes, rest: Bytes, a: Value, b: Value)
    requires rest != []
    requires parse(chunk) == Readers.ParseResult(Some(rest), Some(Readers.Reply("USING", map["tube" := a])))
    requires parse(rest) == Readers.ParseResult(None, Some(Readers.Reply("USING", map["tube" := b])))
    ensures var r := Dispatch([Pending(0, Use), Pending(1, Use)], Cleared, World(map[], []), chunk,
                              Handler(parse, map["USING" := ["tube"]], yamlLoad));
      r.queue == [] && r.current == Cleared && r.end == Finished &&
      r.world.settlements == [Outcome(0, Readers.Resolved(Readers.Single(a))),
                              Outcome(1, Readers.Resolved(Readers.Single(b)))]
  {
    var handle := Handler(parse, map["USING" := ["tube"]], yamlLoad);
    var w0 := World(map[], []);
    UsingResolves(parse, yamlLoad, w0, 0, chunk, Some(rest), a);
    var first := handle(Pending(0, Use), w0, chunk);
    assert first.result.HasLeftover();
    UsingResolves(parse, yamlLoad, first.world, 1, rest, None, b);
    var second := handle(Pending(1, Use), first.world, rest);
    assert second.result.Finished() && !second.result.HasLeftover();
    assert [Pending(1, Use)][1..] == [] && [Pending(0, Use), Pending(1, Use)][1..] == [Pending(1, Use)];
    var tail := Dispatch([Pending(1, Use)], Cleared, first.world, rest, handle);
    assert tail == Invoke(Pending(1, Use), [], first.world, rest, handle);
    assert tail.queue == [] && tail.current == Cleared && tail.end == Finished && tail.world == second.world;
    assert Dispatch([Pending(0, Use), Pending(1, Use)], Cleared, w0, chunk, handle)
        == Invoke(Pending(0, Use), [Pending(1, Use)], w0, chunk, handle);
  }

  /** Two calls settle, each once: both listeners of each go. */
  lemma SettleTwo(s0: Readers.Settle, s1: Readers.Settle)
    ensures Apply(Ledger([], ListenersOf([0, 1])), [Outcome(0, s0), Outcome(1, s1)])
              == Ledger([Outcome(0, s0), Outcome(1, s1)], [])
  {
    var os := [Outcome(0, s0), Outcome(1, s1)];
    assert os[1..] == [Outcome(1, s1)] && os[1..][1..] == [];
    assert Ids(os[1..]) == {1};
    assert Ids(os) == {0, 1};
    assert ListenersOf([0, 1]) == [Listener(CloseEvent, 0), Listener(ErrorEvent, 0),
                                   Listener(CloseEvent, 1), Listener(ErrorEvent, 1)];
    SettleEvery(Ledger([], ListenersOf([0, 1])), os);
  }

  /** A connected client with one `use` call waiting for its reply. */
  method OneUseCall() returns (client: BeanstalkdClient)
    ensures fresh(client) && client.Valid() && !client.closed && client.connection != null
    ensures client.socket == client.connection && client.readQueue != null
    ensures fresh(client.connection) && fresh(client.readQueue)
    ensures client.readQueue.queue == [Pending(0, Use)] && client.readQueue.current == Cleared
    ensures client.connection.listeners == ListenersOf([0]) && client.log == [] && client.remainders == map[]
    ensures client.nextExchange == 1
  {
    client := NewConnectedClient();
    ListenersOfFirstTwo();
    assert ClientWiring[Use].writer == BasicWriter && Request(Use, [Ascii("a")]).Some?;
    var first := client.Command(Use, [Ascii("a")]);
  }

  /** A connected client with two `use` calls waiting for their replies. */
  method TwoUseCalls() returns (client: BeanstalkdClient)
    ensures fresh(client) && client.Valid() && !client.closed && client.connection != null
    ensures client.socket == client.connection && client.readQueue != null
    ensures fresh(client.connection) && fresh(client.readQueue)
    ensures client.readQueue.queue == [Pending(0, Use), Pending(1, Use)] && client.readQueue.current == Cleared
    ensures client.connection.listeners == ListenersOf([0, 1]) && client.log == [] && client.remainders == map[]
  {
    client := OneUseCall();
    ListenersOfFirstTwo();
    assert ClientWiring[Use].writer == BasicWriter && Request(Use, [Ascii("b")]).Some?;
    var second := client.Command(Use, [Ascii("b")]);
  }

  /** Two `use` calls answered in one chunk resolve in the order they were
      called, and neither listens any more. */
  method TwoRepliesInOneChunk(parse: Bytes -> Readers.ParseResult, yamlLoad: Value -> Value,
                              chunk: Bytes, rest: Bytes, a: Value, b: Value)
    returns (log: seq<Outcome>, listeners: seq<Listener>)
    requires rest != []
    requires parse(chunk) == Readers.ParseResult(Some(rest), Some(Readers.Reply("USING", map["tube" := a])))
    requires parse(rest) == Readers.ParseResult(None, Some(Readers.Reply("USING", map["tube" := b])))
    ensures log == [Outcome(0, Readers.Resolved(Readers.Single(a))), Outcome(1, Readers.Resolved(Readers.Single(b)))]
    ensures listeners == []
  {
    var client := TwoUseCalls();
    TwoUsingReplies(parse, yamlLoad, chunk, rest, a, b);
    SettleTwo(Readers.Resolved(Readers.Single(a)), Readers.Resolved(Readers.Single(b)));
    var uncaught, run, settled := client.OnData(chunk, parse, map["USING" := ["tube"]], yamlLoad);
    log, listeners := client.log, client.connection.listeners;
  }

  /** The close event with two calls listening rejects each once, oldest
      first. */
  lemma CloseFiresInOrder(reason: Value)
    ensures Fired(ListenersOf([0, 1]), CloseEvent, reason)
              == [Outcome(0, Readers.Rejected(reason)), Outcome(1, Readers.Rejected(reason))]
  {
    ListenersOfFirstTwo();
    var ls := ListenersOf([0, 1]);
    var o0, o1 := Outcome(0, Readers.Rejected(reason)), Outcome(1, Readers.Rejected(reason));
    assert ls[1..] == [Listener(ErrorEvent, 0), Listener(CloseEvent, 1), Listener(ErrorEvent, 1)];
    assert ls[1..][1..] == [Listener(CloseEvent, 1), Listener(ErrorEvent, 1)];
    assert ls[1..][1..][1..] == [Listener(ErrorEvent, 1)];
    assert ls[1..][1..][1..][1..] == [];
    assert Fired(ls[1..][1..][1..], CloseEvent, reason) == [];
    assert Fired(ls[1..][1..], CloseEvent, reason) == [o1];
    assert Fired(ls[1..], CloseEvent, reason) == [o1];
    assert Fired(ls, CloseEvent, reason) == [o0] + [o1];
  }

  /** The socket closes while two calls wait: both reject, in the order they
      were called, with the event's `hadError` flag when it is true and with
      "CLOSED" otherwise; no listener is left and the client is closed. */
  method CloseRejectsWaiting(hadError: bool) returns (log: seq<Outcome>, listeners: seq<Listener>, closed: bool)
    ensures var reason := if hadError then Bool(true) else Str("CLOSED");
      log == [Outcome(0, Readers.Rejected(reason)), Outcome(1, Readers.Rejected(reason))]
    ensures listeners == [] && closed
  {
    var client := TwoUseCalls();
    CloseFiresInOrder(Or(Bool(hadError), ClosedReason));
    var socket := client.socket;
    client.OnClose(hadError);
    log, listeners, closed := client.log, socket.listeners, client.closed;
  }

  /** A reply to a `use` call read by the handler that a `put` without a body
      left on the queue: that handler expects INSERTED, so it takes the
      reply as a rejection of its own call, which had already settled, and
      stops; the reply is lost. */
  lemma StrayHandlerTakesReply(parse: Bytes -> Readers.ParseResult, yamlLoad: Value -> Value,
                               chunk: Bytes, tube: Value)
    requires parse(chunk) == Readers.ParseResult(None, Some(Readers.Reply("USING", map["tube" := tube])))
    ensures var r := Dispatch([Pending(0, Put), Pending(1, Use)], Cleared, World(map[], []), chunk,
                              Handler(parse, map["USING" := ["tube"]], yamlLoad));
      r.queue == [Pending(1, Use)] && r.current == Cleared && r.end == Finished &&
      r.world.settlements == [Outcome(0, Readers.Rejected(Err("USING")))]
  {
    assert ClientWiring[Put].expectation == "INSERTED";
    assert [] + chunk == chunk;
    assert [Pending(0, Put), Pending(1, Use)][1..] == [Pending(1, Use)];
  }

  /** Settling a call that has settled already changes no record, and it has
      no listener left to remove. */
  lemma SettledAgain(o: Outcome, later: Readers.Settle, id: nat)
    requires id != o.exchange
    ensures Apply(Ledger([o], ListenersOf([id])), [Outcome(o.exchange, later)]) == Ledger([o], ListenersOf([id]))
  {
    assert [o][1..] == [];
    assert Ids([o]) == {o.exchange};
    assert [id][..0] == [];
    var ls := ListenersOf([id]);
    assert ls == [Listener(CloseEvent, id), Listener(ErrorEvent, id)];
    WithoutAbsent(ls, Listener(CloseEvent, o.exchange));
    WithoutAbsent(ls, Listener(ErrorEvent, o.exchange));
  }

  /** A connected client after a `put` without a body. */
  method EmptyPut() returns (client: BeanstalkdClient)
    ensures fresh(client) && client.Valid() && !client.closed && client.connection != null
    ensures client.socket == client.connection && client.readQueue != null
    ensures fresh(client.connection) && fresh(client.readQueue)
    ensures client.readQueue.queue == [Pending(0, Put)] && client.readQueue.current == Cleared
    ensures client.connection.listeners == [] && client.remainders == map[] && client.nextExchange == 1
    ensures client.log == [Outcome(0, Readers.Rejected(Writer.MissingBodyError))]
  {
    client := NewConnectedClient();
    assert ClientWiring[Put].writer == BodyWriter && Request(Put, []).None?;
    var put := client.Command(Put, []);
  }

  /** A connected client after a `put` without a body and then a `use`. */
  method EmptyPutThenUse() returns (client: BeanstalkdClient)
    ensures fresh(client) && client.Valid() && !client.closed && client.connection != null
    ensures client.socket == client.connection && client.readQueue != null
    ensures fresh(client.connection) && fresh(client.readQueue)
    ensures client.readQueue.queue == [Pending(0, Put), Pending(1, Use)] && client.readQueue.current == Cleared
    ensures client.connection.listeners == ListenersOf([1]) && client.remainders == map[]
    ensures client.log == [Outcome(0, Readers.Rejected(Writer.MissingBodyError))]
  {
    client := EmptyPut();
    assert [1][..0] == [];
    assert ClientWiring[Use].writer == BasicWriter && Request(Use, [Ascii("a")]).Some?;
    var use := client.Command(Use, [Ascii("a")]);
  }

  /** A `put` called without a body rejects at once, but its handler stays
      queued; the next call's reply goes to that handler and is lost, so the
      next call never settles and keeps listening. */
  method EmptyPutSwallowsNextReply(parse: Bytes -> Readers.ParseResult, yamlLoad: Value -> Value,
                                   chunk: Bytes, tube: Value)
    returns (log: seq<Outcome>, listeners: seq<Listener>, waiting: seq<Pending>)
    requires parse(chunk) == Readers.ParseResult(None, Some(Readers.Reply("USING", map["tube" := tube])))
    ensures log == [Outcome(0, Readers.Rejected(Writer.MissingBodyError))]
    ensures listeners == ListenersOf([1]) && waiting == [Pending(1, Use)]
  {
    var client := EmptyPutThenUse();
    StrayHandlerTakesReply(parse, yamlLoad, chunk, tube);
    SettledAgain(Outcome(0, Readers.Rejected(Writer.MissingBodyError)), Readers.Rejected(Err("USING")), 1);
    var uncaught, run, settled := client.OnData(chunk, parse, map["USING" := ["tube"]], yamlLoad);
    log, listeners, waiting := client.log, client.connection.listeners, client.readQueue.queue;
  }
}
