/** The client (src/client.js): a socket, the read queue built on it once it
    connects, one reader and one writer per command, and the promises of the
    command calls. Socket events are the methods `OnConnect`, `OnError`,
    `OnEnd`, `OnClose` and `OnData`; a command call is `Command`, which runs
    the call's steps from the closed check to the write at once (the wait on
    the previous call's promise is not modelled). Each call gets a number,
    its exchange; how its promise settles is recorded in `log`. */
module Client {
  import opened JsValues
  import opened Transport
  import opened Commands
  import opened ReadQueues
  import Writer
  import Readers

  const DefaultHost := "127.0.0.1"
  const DefaultPort := 11300

  /** What a call made after the client closed rejects with. */
  const ClosedError: Value := Err("Connection is closed")
  /** What a call made before the socket connected rejects with: the
      `removeListener` of its `finally` block, on an unset connection. */
  const NoConnection: Value := TypeErr("Cannot read property 'removeListener' of undefined")
  /** What close and error listeners reject with when the event carries a
      falsy value. */
  const ClosedReason: Value := Str("CLOSED")

  /** A command of the client, by its row in `ClientWiring`. */
  type CommandIndex = i: nat | i < |ClientWiring|

  /** The handler command call `exchange` pushed on the read queue. */
  datatype Pending = Pending(exchange: nat, command: CommandIndex)

  /** Command call `exchange` settled its promise so. */
  datatype Outcome = Outcome(exchange: nat, settle: Readers.Settle)

  /** What the handlers read and change: the `remainder` field of each
      command's reader, and the settlements they made, in order. */
  datatype World = World(remainders: map<CommandIndex, Bytes>, settlements: seq<Outcome>)

  /** The promise `connect()` returns. */
  datatype ConnectState = Unconnected | Connecting | Connected | ConnectFailed(error: Value)

  /** The `remainder` field of command `c`'s reader (empty when new). */
  function Remainder(remainders: map<CommandIndex, Bytes>, c: CommandIndex): (r: Bytes)
    ensures c in remainders ==> r == remainders[c]
    ensures c !in remainders ==> r == []
  {
    if c in remainders then remainders[c] else []
  }

  /** The `parseData` of command `c`'s reader: `yamlLoad` for a YamlReader,
      the value as it is otherwise. */
  function ParseData(c: CommandIndex, yamlLoad: Value -> Value): Value -> Value
  {
    if ClientWiring[c].reader == YamlReader then yamlLoad else Readers.Identity
  }

  /** The handler of pending call `p` on a chunk: its command's reader
      handles the chunk, and the call settles when the reader settles it. */
  function Respond(parse: Bytes -> Readers.ParseResult, replyMap: map<string, seq<string>>,
                   yamlLoad: Value -> Value, p: Pending, w: World, data: Bytes): (r: Reaction<World>)
    // A whole reply settles the call once: it resolves exactly when its status
    // is the one the command expects, and the reader hands on what follows it.
    ensures var parsed := parse(Remainder(w.remainders, p.command) + data);
      var n := |w.settlements|;
      parsed.result.Some? ==>
        var status := parsed.result.value.reply;
        |r.world.settlements| == n + 1 && r.world.settlements[..n] == w.settlements &&
        r.world.settlements[n].exchange == p.exchange &&
        (r.world.settlements[n].settle.Resolved? <==> status == ClientWiring[p.command].expectation) &&
        (r.world.settlements[n].settle.Rejected? <==> status != ClientWiring[p.command].expectation) &&
        (r.world.settlements[n].settle.Rejected? ==> r.world.settlements[n].settle.error == Err(status)) &&
        r.result == Returns(Buf(if parsed.remainder.Some? then parsed.remainder.value else [])) &&
        r.world.remainders == w.remainders[p.command := []]
    // Part of a reply keeps the call waiting: nothing settles, the bytes are
    // kept, and the falsy result keeps the handler current.
    ensures var parsed := parse(Remainder(w.remainders, p.command) + data);
      parsed.result.None? && parsed.remainder.Some? ==>
        r.world.settlements == w.settlements && r.result.Returns? && !Truthy(r.result.value) &&
        r.world.remainders == w.remainders[p.command := parsed.remainder.value]
    // Neither a reply nor leftover bytes: the handler throws and settles nothing.
    ensures var parsed := parse(Remainder(w.remainders, p.command) + data);
      parsed.result.None? && parsed.remainder.None? ==>
        r.world.settlements == w.settlements && r.result.Throws?
    ensures Ids(r.world.settlements) <= Ids(w.settlements) + {p.exchange}
  {
    var step := Readers.HandleStep(ClientWiring[p.command].expectation, Remainder(w.remainders, p.command),
                                   data, parse, replyMap, ParseData(p.command, yamlLoad));
    var settlements := if step.settle.Unsettled? then w.settlements else w.settlements + [Outcome(p.exchange, step.settle)];
    IdsConcat(w.settlements, [Outcome(p.exchange, step.settle)]);
    Reaction(step.result, World(w.remainders[p.command := step.remainder], settlements))
  }

  function Handler(parse: Bytes -> Readers.ParseResult, replyMap: map<string, seq<string>>,
                   yamlLoad: Value -> Value): (Pending, World, Bytes) -> Reaction<World>
  {
    (p: Pending, w: World, d: Bytes) => Respond(parse, replyMap, yamlLoad, p, w, d)
  }

  /** The bytes of command `c`'s name, as its writer holds them. */
  function Name(c: CommandIndex): (b: Bytes)
    ensures |b| == |ClientWiring[c].command|
    ensures Writer.PlainToken(b)
  {
    WiringNamesPlain(c);
    Ascii(ClientWiring[c].command)
  }

  /** The bytes command `c` writes for `args`, or `None` when its writer
      throws before writing (a body command called without a body). */
  function Request(c: CommandIndex, args: seq<Bytes>): (r: Option<Bytes>)
    ensures r.None? <==> ClientWiring[c].writer == BodyWriter && args == []
  {
    var name := Name(c);
    if ClientWiring[c].writer == BasicWriter then Some(Writer.Encode(name, args, None))
    else if args == [] then None
    else Some(Writer.Encode(name, args[..|args| - 1], Some(args[|args| - 1])))
  }

  /** Whatever follows a request on the wire, reading it back gives the
      command's name, its arguments and its body: the name the client's
      table gives the command, and no argument can be mistaken for another. */
  lemma RequestDecodes(c: CommandIndex, args: seq<Bytes>, rest: Bytes)
    requires forall a :: a in args ==> Writer.PlainToken(a)
    requires Request(c, args).Some?
    ensures var name := Name(c);
      var body := ClientWiring[c].writer == BodyWriter;
      Writer.DecodeFrame(Request(c, args).value + rest, body)
        == Some(if body then Writer.Frame([name] + args[..|args| - 1], Some(args[|args| - 1]), rest)
                else Writer.Frame([name] + args, None, rest))
  {
    var name := Name(c);
    if ClientWiring[c].writer == BasicWriter {
      Writer.DecodeEncodeBasic(name, args, rest);
    } else {
      assert forall a :: a in args[..|args| - 1] ==> a in args;
      Writer.DecodeEncodeBody(name, args[..|args| - 1], args[|args| - 1], rest);
    }
  }

  lemma WiringNamesPlain(c: CommandIndex)
    ensures IsAscii(ClientWiring[c].command) && Writer.PlainToken(Ascii(ClientWiring[c].command))
  {
    WiringCommandsPlain();
    var name := ClientWiring[c].command;
    assert PlainName(name);
    var b := Ascii(name);
    forall i | 0 <= i < |b| ensures b[i] != SP && b[i] != CR {
      assert name[i] in name;
    }
  }

  /* ---------------- Settling calls: the ledger ---------------- */

  /** The settlements made so far and the close/error listeners still
      registered on the socket. */
  datatype Ledger = Ledger(log: seq<Outcome>, listeners: seq<Listener>)

  /** The exchanges that have settled. */
  function Ids(log: seq<Outcome>): set<nat>
  {
    if log == [] then {} else {log[0].exchange} + Ids(log[1..])
  }

  /** The numbers in a log are exactly those of its outcomes. */
  lemma {:induction false} IdsMember(log: seq<Outcome>, x: nat)
    ensures x in Ids(log) <==> exists i :: 0 <= i < |log| && log[i].exchange == x
  {
    if log != [] {
      IdsMember(log[1..], x);
      if exists i :: 0 <= i < |log| && log[i].exchange == x {
        var i :| 0 <= i < |log| && log[i].exchange == x;
        if i > 0 {
          assert log[1..][i - 1].exchange == x;
        }
      }
      if exists i :: 0 <= i < |log| - 1 && log[1..][i].exchange == x {
        var i :| 0 <= i < |log| - 1 && log[1..][i].exchange == x;
        assert log[i + 1].exchange == x;
      }
    }
  }

  /** A promise settles once: a later resolve or reject of the same call
      changes nothing. */
  function Record(log: seq<Outcome>, o: Outcome): (r: seq<Outcome>)
    ensures o.exchange in Ids(log) ==> r == log
    ensures o.exchange !in Ids(log) ==> r == log + [o]
  {
    if o.exchange in Ids(log) then log else log + [o]
  }

  /** `ls` after call `id` removed both its listeners. */
  function Detach(ls: seq<Listener>, id: nat): (r: seq<Listener>)
    ensures forall l :: l in r <==> l in ls && l.exchange != id
  {
    var r := Without(Without(ls, Listener(CloseEvent, id)), Listener(ErrorEvent, id));
    assert forall l: Listener :: l.exchange == id ==> l == Listener(CloseEvent, id) || l == Listener(ErrorEvent, id) by {
      forall l: Listener | l.exchange == id ensures l == Listener(CloseEvent, id) || l == Listener(ErrorEvent, id) {
        if l.event == CloseEvent {
          assert l == Listener(CloseEvent, id);
        } else {
          assert l == Listener(ErrorEvent, id);
        }
      }
    }
    r
  }

  /** Settling calls in order: each records its outcome, if its call has not
      settled yet, and removes its call's listeners. */
  function Apply(g: Ledger, os: seq<Outcome>): (r: Ledger)
    decreases |os|
  {
    if os == [] then g
    else
      var h := Apply(g, os[..|os| - 1]);
      var o := os[|os| - 1];
      Ledger(Record(h.log, o), Detach(h.listeners, o.exchange))
  }

  /** The settlements an event makes: every listener for it rejects its call
      with `reason`, in the order the listeners were added. */
  function Fired(ls: seq<Listener>, event: EventName, reason: Value): (os: seq<Outcome>)
    ensures forall o :: o in os ==> o.settle == Readers.Rejected(reason)
    ensures forall id :: id in Ids(os) <==> Listener(event, id) in ls
  {
    if ls == [] then []
    else
      var head := if ls[0].event == event then [Outcome(ls[0].exchange, Readers.Rejected(reason))] else [];
      var r := head + Fired(ls[1..], event, reason);
      assert forall id :: Listener(event, id) in ls <==> Listener(event, id) == ls[0] || Listener(event, id) in ls[1..];
      assert forall o :: o in r <==> o in head || o in Fired(ls[1..], event, reason);
      IdsConcat(head, Fired(ls[1..], event, reason));
      r
  }

  /** No listener is registered twice. */
  ghost predicate Distinct(ls: seq<Listener>)
  {
    forall i, j :: 0 <= i < j < |ls| ==> ls[i] != ls[j]
  }

  /** No exchange settles twice in `os`. */
  ghost predicate DistinctIds(os: seq<Outcome>)
  {
    forall i, j :: 0 <= i < j < |os| ==> os[i].exchange != os[j].exchange
  }

  /** The bookkeeping every command call keeps: a call has listeners only
      while it has not settled, it has both or neither, none is registered
      twice, and every number in use is below `next`. */
  ghost predicate Listening(g: Ledger, next: nat)
  {
    (forall l :: l in g.listeners ==> l.exchange !in Ids(g.log) && l.exchange < next) &&
    (forall l :: l in g.listeners ==>
       Listener(CloseEvent, l.exchange) in g.listeners && Listener(ErrorEvent, l.exchange) in g.listeners) &&
    Distinct(g.listeners) &&
    Below(g.log, next)
  }

  /** Every call in `os` is numbered below `next`. */
  ghost predicate Below(os: seq<Outcome>, next: nat)
  {
    forall x :: x in Ids(os) ==> x < next
  }

  /** Every call waiting in the read queue is numbered below `next`. */
  ghost predicate WaitingBelow(current: Slot<Pending>, queue: seq<Pending>, next: nat)
  {
    forall p :: p in Active(current, queue) ==> p.exchange < next
  }

  lemma {:induction false} DistinctCons(l: Listener, ls: seq<Listener>)
    requires l !in ls && Distinct(ls)
    ensures Distinct([l] + ls)
  {
    var r := [l] + ls;
    forall i, j | 0 <= i < j < |r| ensures r[i] != r[j] {
      if i == 0 {
        assert r[j] == ls[j - 1];
      } else {
        assert r[i] == ls[i - 1] && r[j] == ls[j - 1];
      }
    }
  }

  lemma {:induction false} WithoutKeepsDistinct(ls: seq<Listener>, l: Listener)
    requires Distinct(ls)
    ensures Distinct(Without(ls, l))
  {
    if ls != [] {
      assert Distinct(ls[1..]) by {
        forall i, j | 0 <= i < j < |ls| - 1 ensures ls[1..][i] != ls[1..][j] {
          assert ls[1..][i] == ls[i + 1] && ls[1..][j] == ls[j + 1];
        }
      }
      WithoutKeepsDistinct(ls[1..], l);
      if ls[0] != l {
        assert ls[0] !in ls[1..] by {
          forall k | 0 <= k < |ls| - 1 ensures ls[1..][k] != ls[0] {
            assert ls[1..][k] == ls[k + 1];
          }
        }
        DistinctCons(ls[0], Without(ls[1..], l));
      }
    }
  }

  lemma {:induction false} IdsConcat(a: seq<Outcome>, b: seq<Outcome>)
    ensures Ids(a + b) == Ids(a) + Ids(b)
  {
    if a == [] {
      assert a + b == b;
    } else {
      assert (a + b)[1..] == a[1..] + b;
      IdsConcat(a[1..], b);
    }
  }

  /** Settling only adds to the log, exactly the numbers that settle. */
  lemma {:induction false} ApplyLog(g: Ledger, os: seq<Outcome>)
    ensures var r := Apply(g, os); g.log <= r.log && Ids(r.log) == Ids(g.log) + Ids(os)
    decreases |os|
  {
    if os != [] {
      var init := os[..|os| - 1];
      var o := os[|os| - 1];
      ApplyLog(g, init);
      var h := Apply(g, init);
      IdsConcat(h.log, [o]);
      IdsConcat(init, [o]);
      assert init + [o] == os;
    }
  }

  /** A call's listeners go exactly when it settles. */
  lemma {:induction false} ApplyListeners(g: Ledger, os: seq<Outcome>)
    ensures var r := Apply(g, os);
      forall l :: l in r.listeners <==> l in g.listeners && l.exchange !in Ids(os)
    decreases |os|
  {
    if os != [] {
      var init := os[..|os| - 1];
      var o := os[|os| - 1];
      ApplyListeners(g, init);
      IdsConcat(init, [o]);
      assert init + [o] == os;
    }
  }

  /** Settling never registers a listener twice. */
  lemma {:induction false} ApplyDistinct(g: Ledger, os: seq<Outcome>)
    requires Distinct(g.listeners)
    ensures Distinct(Apply(g, os).listeners)
    decreases |os|
  {
    if os != [] {
      var init := os[..|os| - 1];
      var o := os[|os| - 1];
      ApplyDistinct(g, init);
      var h := Apply(g, init);
      WithoutKeepsDistinct(h.listeners, Listener(CloseEvent, o.exchange));
      WithoutKeepsDistinct(Without(h.listeners, Listener(CloseEvent, o.exchange)), Listener(ErrorEvent, o.exchange));
    }
  }

  /** Settling keeps the bookkeeping of the calls, as long as only numbers
      below `next` settle. */
  lemma ApplyKeeps(g: Ledger, os: seq<Outcome>, next: nat)
    requires Listening(g, next)
    requires Below(os, next)
    ensures Listening(Apply(g, os), next)
  {
    var r := Apply(g, os);
    ApplyLog(g, os);
    ApplyListeners(g, os);
    ApplyDistinct(g, os);
    forall l | l in r.listeners
      ensures Listener(CloseEvent, l.exchange) in r.listeners && Listener(ErrorEvent, l.exchange) in r.listeners
    {
      assert l in g.listeners;
    }
  }

  /** When every number that settles is new, and settles once, the log grows
      by exactly the settlements. */
  lemma {:induction false} ApplyFresh(g: Ledger, os: seq<Outcome>)
    requires DistinctIds(os)
    requires Ids(os) !! Ids(g.log)
    ensures Apply(g, os).log == g.log + os
    decreases |os|
  {
    if os != [] {
      var init := os[..|os| - 1];
      var o := os[|os| - 1];
      assert DistinctIds(init) by {
        forall i, j | 0 <= i < j < |init| ensures init[i].exchange != init[j].exchange {
          assert init[i] == os[i] && init[j] == os[j];
        }
      }
      assert init + [o] == os;
      IdsConcat(init, [o]);
      ApplyFresh(g, init);
      var h := Apply(g, init);
      IdsConcat(g.log, init);
      assert o.exchange !in Ids(init) by {
        IdsMember(init, o.exchange);
        forall k | 0 <= k < |init| ensures init[k].exchange != o.exchange {
          assert init[k] == os[k];
        }
      }
      assert h.log + [o] == g.log + os;
    }
  }

  lemma {:induction false} FiredDistinct(ls: seq<Listener>, event: EventName, reason: Value)
    requires Distinct(ls)
    ensures DistinctIds(Fired(ls, event, reason))
  {
    if ls != [] {
      var tail := Fired(ls[1..], event, reason);
      assert Distinct(ls[1..]) by {
        forall i, j | 0 <= i < j < |ls| - 1 ensures ls[1..][i] != ls[1..][j] {
          assert ls[1..][i] == ls[i + 1] && ls[1..][j] == ls[j + 1];
        }
      }
      FiredDistinct(ls[1..], event, reason);
      if ls[0].event == event {
        assert ls[0] !in ls[1..] by {
          forall k | 0 <= k < |ls| - 1 ensures ls[1..][k] != ls[0] {
            assert ls[1..][k] == ls[k + 1];
          }
        }
        assert ls[0] == Listener(event, ls[0].exchange);
        assert ls[0].exchange !in Ids(tail);
        var r := Fired(ls, event, reason);
        assert r == [Outcome(ls[0].exchange, Readers.Rejected(reason))] + tail;
        forall i, j | 0 <= i < j < |r| ensures r[i].exchange != r[j].exchange {
          if i == 0 {
            assert r[j] == tail[j - 1];
            IdsMember(tail, r[j].exchange);
          } else {
            assert r[i] == tail[i - 1] && r[j] == tail[j - 1];
          }
        }
      } else {
        assert Fired(ls, event, reason) == tail;
      }
    }
  }

  /** An error or a close with calls waiting rejects every one of them with
      the event's reason, in the order their listeners were added, and leaves
      no listener behind. */
  lemma FireRejectsAll(g: Ledger, next: nat, event: EventName, reason: Value)
    requires Listening(g, next)
    ensures var os := Fired(g.listeners, event, reason);
      Apply(g, os) == Ledger(g.log + os, []) && Listening(Apply(g, os), next)
  {
    var os := Fired(g.listeners, event, reason);
    FiredDistinct(g.listeners, event, reason);
    forall l | l in g.listeners ensures l.exchange in Ids(os) && l.exchange !in Ids(g.log) {
      assert Listener(event, l.exchange) in g.listeners;
    }
    assert Ids(os) !! Ids(g.log);
    ApplyFresh(g, os);
    ApplyListeners(g, os);
    ApplyKeeps(g, os, next);
    var r := Apply(g, os);
    assert forall l :: l !in r.listeners;
    FirstIsMember(r.listeners);
  }

  lemma FirstIsMember(ls: seq<Listener>)
    ensures ls != [] ==> ls[0] in ls
  {
  }

  /* ---------------- The client ---------------- */

  class BeanstalkdClient {
    const host: Value
    const port: Value
    var closed: bool
    /** The last error the socket emitted. */
    var error: Value
    var connected: ConnectState
    /** The socket `connect()` created. */
    var socket: Connection?
    /** The `connection` field: the socket once it has connected. */
    var connection: Connection?
    var readQueue: ReadQueue?<Pending>
    /** The `remainder` fields of the readers. */
    var remainders: map<CommandIndex, Bytes>
    /** The settlements of the command calls, in order. */
    var log: seq<Outcome>
    /** The number the next command call gets. */
    var nextExchange: nat

    ghost predicate Valid()
      reads this, socket, readQueue
    {
      (socket == null ==> connection == null) &&
      (connection != null ==> connection == socket && readQueue != null && readQueue.connection == connection) &&
      (readQueue != null ==> WaitingBelow(readQueue.current, readQueue.queue, nextExchange)) &&
      Below(log, nextExchange) &&
      (socket != null ==> Listening(Ledger(log, socket.listeners), nextExchange))
    }

    /** A host or port that is falsy gives way to the default. */
    constructor(host: Value, port: Value)
      ensures this.host == Or(host, Str(DefaultHost)) && this.port == Or(port, Num(DefaultPort))
      ensures !closed && error == Undefined && connected == Unconnected
      ensures socket == null && connection == null && readQueue == null
      ensures remainders == map[] && log == [] && nextExchange == 0
      ensures Valid()
    {
      this.host := Or(host, Str(DefaultHost));
      this.port := Or(port, Num(DefaultPort));
      closed := false;
      error := Undefined;
      connected := Unconnected;
      socket, connection, readQueue := null, null, null;
      remainders := map[];
      log := [];
      nextExchange := 0;
    }

    /** `connect()`: creates the socket and a pending promise. */
    method Connect()
      requires Valid() && socket == null
      modifies this`socket, this`connected
      ensures fresh(socket) && socket.listeners == [] && socket.written == [] && socket.emitted == []
      ensures !socket.destroyed && !socket.ended
      ensures connected == Connecting
      ensures Valid()
    {
      socket := new Connection();
      connected := Connecting;
    }

    /** The socket's `connect` event: the client keeps the socket as its
        connection, builds the read queue on it, and the promise resolves. */
    method OnConnect()
      requires Valid() && socket != null
      modifies this`connection, this`readQueue, this`connected
      ensures connection == socket && fresh(readQueue)
      ensures readQueue.connection == socket && readQueue.queue == [] && readQueue.current == Cleared
      ensures connected == if old(connected) == Connecting then Connected else old(connected)
      ensures Valid()
    {
      connection := socket;
      readQueue := new ReadQueue(socket);
      if connected == Connecting {
        connected := Connected;
      }
    }

    /** Every listener for `event` rejects its call with `reason`. */
    method Fire(event: EventName, reason: Value)
      requires Valid() && socket != null
      modifies this`log, socket`listeners
      ensures log == old(log) + Fired(old(socket.listeners), event, reason) && socket.listeners == []
      ensures Valid()
    {
      var os := Fired(socket.listeners, event, reason);
      FireRejectsAll(Ledger(log, socket.listeners), nextExchange, event, reason);
      SettleAll(os);
    }

    /** The calls settle in order, each removing its listeners. */
    method SettleAll(os: seq<Outcome>)
      requires socket != null
      modifies this`log, socket`listeners
      ensures Ledger(log, socket.listeners) == Apply(old(Ledger(log, socket.listeners)), os)
    {
      var start := Ledger(log, socket.listeners);
      var i := 0;
      while i < |os|
        invariant 0 <= i <= |os|
        invariant Ledger(log, socket.listeners) == Apply(start, os[..i])
      {
        var o := os[i];
        assert os[..i + 1][..i] == os[..i] && os[..i + 1][i] == o;
        log := Record(log, o);
        socket.RemoveListener(Listener(CloseEvent, o.exchange));
        socket.RemoveListener(Listener(ErrorEvent, o.exchange));
        i := i + 1;
      }
      assert os[..i] == os;
    }

    /** The socket's `error` event: the client closes and keeps the error,
        the connect promise rejects if it is still pending, and every call
        waiting rejects with the error (or "CLOSED" if it is falsy). */
    method OnError(err: Value)
      requires Valid() && socket != null
      modifies this`closed, this`error, this`connected, this`log, socket`listeners
      ensures closed && error == err
      ensures connected == if old(connected) == Connecting then ConnectFailed(err) else old(connected)
      ensures log == old(log) + Fired(old(socket.listeners), ErrorEvent, Or(err, ClosedReason))
      ensures socket.listeners == []
      ensures Valid()
    {
      closed := true;
      error := err;
      if connected == Connecting {
        connected := ConnectFailed(err);
      }
      Fire(ErrorEvent, Or(err, ClosedReason));
    }

    /** The socket's `end` event. */
    method OnEnd()
      modifies this`closed
      ensures closed
    {
      closed := true;
    }

    /** The socket's `close` event: the client closes and drops its
        connection, and every call waiting rejects with the event's
        `hadError` flag when it is true, with "CLOSED" otherwise. */
    method OnClose(hadError: bool)
      requires Valid() && socket != null
      modifies this`closed, this`connection, this`log, socket`listeners
      ensures closed && connection == null
      ensures log == old(log) + Fired(old(socket.listeners), CloseEvent, Or(Bool(hadError), ClosedReason))
      ensures socket.listeners == []
      ensures Valid()
    {
      closed := true;
      connection := null;
      Fire(CloseEvent, Or(Bool(hadError), ClosedReason));
    }

    /** `quit()`: the client closes and ends its connection, if it has one. */
    method Quit()
      requires Valid()
      modifies this`closed, connection
      ensures closed
      ensures connection != null ==>
        connection.ended && connection.written == old(connection.written) &&
        connection.emitted == old(connection.emitted) && connection.destroyed == old(connection.destroyed) &&
        connection.listeners == old(connection.listeners)
      ensures Valid()
    {
      closed := true;
      if connection != null {
        connection.End();
      }
    }

    /** The socket's `data` event: the read queue runs the waiting handlers
        on the chunk, the calls they settle settle, and when no handler is
        left the socket's error reaches the client like any socket error.
        A handler's exception leaves the event uncaught. */
    method OnData(chunk: Bytes, parse: Bytes -> Readers.ParseResult, replyMap: map<string, seq<string>>,
                  yamlLoad: Value -> Value)
      returns (uncaught: Option<Value>, ghost run: Run<Pending, World>, ghost settled: Ledger)
      requires Valid() && connection != null
      modifies this`remainders, this`log, this`closed, this`error, this`connected
      modifies connection`listeners, connection`emitted, connection`destroyed, readQueue
      ensures run == Dispatch(old(readQueue.queue), old(readQueue.current), World(old(remainders), []), chunk,
                              Handler(parse, replyMap, yamlLoad))
      ensures settled == Apply(old(Ledger(log, connection.listeners)), run.world.settlements)
      ensures connection == old(connection) && readQueue == old(readQueue) && nextExchange == old(nextExchange)
      ensures readQueue.queue == run.queue && readQueue.current == run.current && remainders == run.world.remainders
      ensures uncaught == if run.end.Thrown? then Some(run.end.error) else None
      ensures run.end.Desync? ==>
        closed && error == run.end.error &&
        connected == (if old(connected) == Connecting then ConnectFailed(run.end.error) else old(connected)) &&
        log == settled.log + Fired(settled.listeners, ErrorEvent, Or(run.end.error, ClosedReason)) &&
        connection.listeners == [] &&
        connection.emitted == old(connection.emitted) + [run.end.error] && connection.destroyed
      ensures !run.end.Desync? ==>
        closed == old(closed) && error == old(error) && connected == old(connected) &&
        Ledger(log, connection.listeners) == settled &&
        connection.emitted == old(connection.emitted) && connection.destroyed == old(connection.destroyed)
      ensures connection.written == old(connection.written) && connection.ended == old(connection.ended)
      ensures Valid()
    {
      var end;
      end, run, settled := Deliver(chunk, parse, replyMap, yamlLoad);
      assert Valid();
      uncaught := Conclude(end);
    }

    /** How a data event ends: a desynchronised read is a socket error, a
        handler's exception escapes the event, and a finished read changes
        nothing more. */
    method Conclude(end: ReadEnd) returns (uncaught: Option<Value>)
      requires Valid() && connection != null
      modifies this`closed, this`error, this`connected, this`log, connection`listeners
      ensures uncaught == if end.Thrown? then Some(end.error) else None
      ensures end.Desync? ==>
        closed && error == end.error &&
        connected == (if old(connected) == Connecting then ConnectFailed(end.error) else old(connected)) &&
        log == old(log) + Fired(old(connection.listeners), ErrorEvent, Or(end.error, ClosedReason)) &&
        connection.listeners == []
      ensures !end.Desync? ==>
        closed == old(closed) && error == old(error) && connected == old(connected) &&
        log == old(log) && connection.listeners == old(connection.listeners)
      ensures connection.written == old(connection.written) && connection.ended == old(connection.ended)
      ensures Valid()
    {
      uncaught := None;
      match end
      case Desync(e) =>
        OnError(e);
      case Thrown(e) =>
        uncaught := Some(e);
      case Finished =>
    }

    /** The read queue runs on the chunk, and the calls its handlers settle
        settle in order. */
    method Deliver(chunk: Bytes, parse: Bytes -> Readers.ParseResult, replyMap: map<string, seq<string>>,
                   yamlLoad: Value -> Value)
      returns (end: ReadEnd, ghost run: Run<Pending, World>, ghost settled: Ledger)
      requires Valid() && connection != null
      modifies this`remainders, this`log, connection`listeners, connection`emitted, connection`destroyed, readQueue
      ensures run == Dispatch(old(readQueue.queue), old(readQueue.current), World(old(remainders), []), chunk,
                              Handler(parse, replyMap, yamlLoad))
      ensures settled == Apply(old(Ledger(log, connection.listeners)), run.world.settlements)
      ensures end == run.end && readQueue.queue == run.queue && readQueue.current == run.current
      ensures remainders == run.world.remainders && Ledger(log, connection.listeners) == settled
      ensures run.end.Desync? ==> connection.emitted == old(connection.emitted) + [run.end.error] && connection.destroyed
      ensures !run.end.Desync? ==>
        connection.emitted == old(connection.emitted) && connection.destroyed == old(connection.destroyed)
      ensures connection.written == old(connection.written) && connection.ended == old(connection.ended)
      ensures Listening(settled, nextExchange) && WaitingBelow(run.current, run.queue, nextExchange)
    {
      ReadKeepsNumbers(readQueue.queue, readQueue.current, remainders, chunk, parse, replyMap, yamlLoad, nextExchange);
      var settlements;
      end, settlements, run := ReadChunk(chunk, Handler(parse, replyMap, yamlLoad));
      settled := Apply(Ledger(log, connection.listeners), settlements);
      ApplyKeeps(Ledger(log, connection.listeners), settlements, nextExchange);
      SettleAll(settlements);
    }

    /** The read queue's handlers run on the chunk; the replies' leftover bytes
        are kept per command, and the settlements come back in order. */
    method ReadChunk(chunk: Bytes, handle: (Pending, World, Bytes) -> Reaction<World>)
      returns (end: ReadEnd, settlements: seq<Outcome>, ghost run: Run<Pending, World>)
      requires readQueue != null
      modifies this`remainders, readQueue, readQueue.connection`emitted, readQueue.connection`destroyed
      ensures run == Dispatch(old(readQueue.queue), old(readQueue.current), World(old(remainders), []), chunk, handle)
      ensures end == run.end && settlements == run.world.settlements && remainders == run.world.remainders
      ensures readQueue.queue == run.queue && readQueue.current == run.current
      ensures run.end.Desync? ==>
        readQueue.connection.emitted == old(readQueue.connection.emitted) + [run.end.error] &&
        readQueue.connection.destroyed
      ensures !run.end.Desync? ==>
        readQueue.connection.emitted == old(readQueue.connection.emitted) &&
        readQueue.connection.destroyed == old(readQueue.connection.destroyed)
      ensures readQueue.connection.written == old(readQueue.connection.written)
      ensures readQueue.connection.ended == old(readQueue.connection.ended)
    {
      var world', calls;
      world', calls, end := readQueue.Read(chunk, World(remainders, []), handle);
      run := Run(readQueue.queue, readQueue.current, world', calls, end);
      remainders := world'.remainders;
      settlements := world'.settlements;
    }

    /** A command call. A call after the client closed rejects with "Connection
        is closed", and one before it connected rejects with a TypeError: in
        both cases nothing is sent. Otherwise the call listens for the socket's
        close and error, queues its handler and writes its request; a body
        command called without a body rejects with its writer's TypeError and
        stops listening, but its handler stays queued. */
    method Command(c: CommandIndex, args: seq<Bytes>) returns (id: nat)
      requires Valid()
      modifies this`nextExchange, this`log, connection, readQueue
      ensures id == old(nextExchange) && nextExchange == id + 1
      ensures closed == old(closed) && remainders == old(remainders)
      ensures old(closed) ==> log == old(log) + [Outcome(id, Readers.Rejected(ClosedError))]
      ensures !old(closed) && connection == null ==> log == old(log) + [Outcome(id, Readers.Rejected(NoConnection))]
      ensures old(closed) || connection == null ==>
        connection == null || (unchanged(connection) && unchanged(readQueue))
      ensures !old(closed) && connection != null ==>
        readQueue.queue == old(readQueue.queue) + [Pending(id, c)] && readQueue.current == old(readQueue.current) &&
        connection.emitted == old(connection.emitted) && connection.destroyed == old(connection.destroyed) &&
        connection.ended == old(connection.ended)
      ensures !old(closed) && connection != null && Request(c, args).Some? ==>
        connection.written == old(connection.written) + [Request(c, args).value] && log == old(log) &&
        connection.listeners == old(connection.listeners) + [Listener(CloseEvent, id), Listener(ErrorEvent, id)]
      ensures !old(closed) && connection != null && Request(c, args).None? ==>
        connection.written == old(connection.written) && connection.listeners == old(connection.listeners) &&
        log == old(log) + [Outcome(id, Readers.Rejected(Writer.MissingBodyError))]
      ensures Valid()
    {
      if closed {
        id := SettleNew(Readers.Rejected(ClosedError));
        return;
      }
      if connection == null {
        id := SettleNew(Readers.Rejected(NoConnection));
        return;
      }
      ghost var before := connection.listeners;
      assert Listening(Ledger(log, before), nextExchange);
      id := Enqueue(c);
      var name := Name(c);
      if ClientWiring[c].writer == BasicWriter {
        var writer := new Writer.BasicWriter(name, []);
        writer.Handle(connection, args);
      } else {
        var writer := new Writer.BodyWriter(name, []);
        var thrown := writer.Handle(connection, args);
        if thrown.Some? {
          Withdraw(id, thrown.value, before);
        }
      }
    }

    /** A new call that settles at once, before it listens for anything. */
    method SettleNew(settle: Readers.Settle) returns (id: nat)
      requires Valid()
      modifies this`nextExchange, this`log
      ensures id == old(nextExchange) && nextExchange == id + 1
      ensures log == old(log) + [Outcome(id, settle)]
      ensures Valid()
    {
      id := nextExchange;
      IdsConcat(log, [Outcome(id, settle)]);
      if socket != null {
        SettleFreshKeeps(Ledger(log, socket.listeners), Outcome(id, settle));
      }
      log := log + [Outcome(id, settle)];
      nextExchange := nextExchange + 1;
    }

    /** A new call listens for the socket's close and error, then queues its
        handler. */
    method Enqueue(c: CommandIndex) returns (id: nat)
      requires Valid() && connection != null
      modifies this`nextExchange, connection`listeners, readQueue
      ensures id == old(nextExchange) && nextExchange == id + 1
      ensures connection.listeners == old(connection.listeners) + [Listener(CloseEvent, id), Listener(ErrorEvent, id)]
      ensures readQueue.queue == old(readQueue.queue) + [Pending(id, c)] && readQueue.current == old(readQueue.current)
      ensures connection.written == old(connection.written) && connection.ended == old(connection.ended)
      ensures connection.emitted == old(connection.emitted) && connection.destroyed == old(connection.destroyed)
      ensures Valid()
    {
      id := nextExchange;
      ListenKeeps(Ledger(log, connection.listeners), id);
      connection.Once(Listener(CloseEvent, id));
      connection.Once(Listener(ErrorEvent, id));
      readQueue.Push(Pending(id, c));
      nextExchange := nextExchange + 1;
    }

    /** The newest call rejects before any reply and stops listening. */
    method Withdraw(id: nat, error: Value, ghost before: seq<Listener>)
      requires Valid() && connection != null && id + 1 == nextExchange
      requires Listening(Ledger(log, before), id)
      requires connection.listeners == before + [Listener(CloseEvent, id), Listener(ErrorEvent, id)]
      modifies this`log, connection`listeners
      ensures log == old(log) + [Outcome(id, Readers.Rejected(error))] && connection.listeners == before
      ensures Valid()
    {
      SettleFreshKeeps(Ledger(log, before), Outcome(id, Readers.Rejected(error)));
      log := log + [Outcome(id, Readers.Rejected(error))];
      connection.RemoveListener(Listener(CloseEvent, id));
      connection.RemoveListener(Listener(ErrorEvent, id));
      DetachUndoesListen(before, id);
    }
  }

  /** A read settles only calls that were waiting, and leaves waiting only
      calls that were waiting. */
  lemma ReadKeepsNumbers(queue: seq<Pending>, current: Slot<Pending>, remainders: map<CommandIndex, Bytes>,
                         chunk: Bytes, parse: Bytes -> Readers.ParseResult, replyMap: map<string, seq<string>>,
                         yamlLoad: Value -> Value, next: nat)
    requires WaitingBelow(current, queue, next)
    ensures var r := Dispatch(queue, current, World(remainders, []), chunk, Handler(parse, replyMap, yamlLoad));
      Below(r.world.settlements, next) && WaitingBelow(r.current, r.queue, next)
  {
    var handle := Handler(parse, replyMap, yamlLoad);
    var bound := (w: World) => Below(w.settlements, next);
    var waiting := (p: Pending) => p.exchange < next;
    forall p, w, d | waiting(p) && bound(w) ensures bound(handle(p, w, d).world) {
      assert handle(p, w, d) == Respond(parse, replyMap, yamlLoad, p, w, d);
    }
    DispatchKeeps(queue, current, World(remainders, []), chunk, handle, bound, waiting);
    DispatchLeavesWaiting(queue, current, World(remainders, []), chunk, handle);
  }

  /** A call that stops listening right after it started leaves the
      listeners as they were. */
  lemma DetachUndoesListen(ls: seq<Listener>, id: nat)
    requires forall l :: l in ls ==> l.exchange < id
    ensures Without(Without(ls + [Listener(CloseEvent, id), Listener(ErrorEvent, id)], Listener(CloseEvent, id)),
                    Listener(ErrorEvent, id)) == ls
  {
    var close, error := Listener(CloseEvent, id), Listener(ErrorEvent, id);
    assert close !in ls && error !in ls;
    assert ls + [close, error] == ls + [close] + [error];
    WithoutKeepsOrder(ls, [error], close);
    assert ls + [error] == ls + [error] + [];
    WithoutKeepsOrder(ls, [], error);
  }

  /** A call that starts listening keeps the bookkeeping of the calls. */
  lemma ListenKeeps(g: Ledger, id: nat)
    requires Listening(g, id)
    ensures Listening(Ledger(g.log, g.listeners + [Listener(CloseEvent, id), Listener(ErrorEvent, id)]), id + 1)
  {
    var ls := g.listeners + [Listener(CloseEvent, id), Listener(ErrorEvent, id)];
    forall i, j | 0 <= i < j < |ls| ensures ls[i] != ls[j] {
      if j < |g.listeners| {
      } else if i < |g.listeners| {
        assert ls[i] in g.listeners;
      }
    }
  }

  /** A new call that settles at once keeps the bookkeeping of the calls. */
  lemma SettleFreshKeeps(g: Ledger, o: Outcome)
    requires Listening(g, o.exchange)
    ensures Listening(Ledger(g.log + [o], g.listeners), o.exchange + 1)
  {
    IdsConcat(g.log, [o]);
  }
}
