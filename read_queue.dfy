/** The reply-correlation queue (src/read-queue.js). Replies arrive in the order
    the commands were written, so each command pushes a handler, and every chunk
    of bytes from the socket goes to the oldest handler that has not finished.
    A handler is a closure with state of its own; here it is an identity `H`,
    and the state its closures share is a value `G` (the world) that a
    `handle` function threads through the calls. */
module ReadQueues {
  import opened JsValues
  import opened Decimal
  import opened Transport

  /** What calling a handler did: it returned a value, or it threw. */
  datatype HandlerResult = Returns(value: Value) | Throws(error: Value)
  {
    /** The queue clears `current` after a truthy return. */
    predicate Finished()
    {
      Returns? && Truthy(value)
    }

    /** Leftover bytes that the queue hands to the next handler: a Buffer with
        at least one byte. An empty Buffer, or any other truthy value, ends the
        read. */
    predicate HasLeftover()
    {
      Returns? && value.Buf? && |value.data| > 0
    }
  }

  /** One handler call: the new world and what the handler did. */
  datatype Reaction<G> = Reaction(result: HandlerResult, world: G)

  /** The `current` field: `null`, `undefined` (what `shift()` of an empty
      array gives), or a handler. */
  datatype Slot<H> = Cleared | Missing | Current(handler: H)

  /** A handler invocation as the queue made it. */
  datatype Call<H> = Call(handler: H, input: Bytes, result: HandlerResult)

  /** How a `read` ended: normally, by the desync error path, or by an
      exception propagating out of it. */
  datatype ReadEnd = Finished | Desync(error: Value) | Thrown(error: Value)

  /** The state after a `read`, the calls it made in order, and how it ended. */
  datatype Run<H, G> = Run(queue: seq<H>, current: Slot<H>, world: G, calls: seq<Call<H>>, end: ReadEnd)

  /** The error the queue emits on the connection when data arrives with no
      handler waiting for it. */
  function DesyncError(data: Bytes): (e: Value)
    ensures e.Err? && |e.message| > |DesyncPrefix| && e.message[..|DesyncPrefix|] == DesyncPrefix
    ensures ParseInt(e.message[|DesyncPrefix|..]) == Some(|data|)
  {
    var digits := NumberToString(|data|);
    ParseIntOfNumberToString(|data|, []);
    assert digits + [] == digits;
    var m := DesyncPrefix + digits;
    assert m[|DesyncPrefix|..] == digits;
    Err(m)
  }

  const DesyncPrefix := "No read queue item for item, length: "

  /** What calling `undefined` as a function throws. */
  const NotAFunction: Value := TypeErr("this.current is not a function")

  /** The handlers not yet finished, oldest first: the current one, then the
      queued ones. */
  function Active<H>(current: Slot<H>, queue: seq<H>): (r: seq<H>)
    ensures |r| == |queue| + (if current.Current? then 1 else 0)
    ensures current.Current? ==> r[0] == current.handler && r[1..] == queue
    ensures !current.Current? ==> r == queue
  {
    (if current.Current? then [current.handler] else []) + queue
  }

  function Handlers<H>(calls: seq<Call<H>>): (r: seq<H>)
    ensures |r| == |calls|
    ensures forall i :: 0 <= i < |calls| ==> r[i] == calls[i].handler
  {
    if calls == [] then [] else [calls[0].handler] + Handlers(calls[1..])
  }

  /** `read(data)`: with no handler current, the head of the queue is
      shifted in (and `undefined` when the queue is empty, the desync path);
      the current handler is then called on the data. */
  function Dispatch<H, G>(queue: seq<H>, current: Slot<H>, world: G, data: Bytes,
                          handle: (H, G, Bytes) -> Reaction<G>): Run<H, G>
    decreases |queue| + (if current.Current? then 1 else 0), 1
  {
    match current
    case Missing => Run(queue, current, world, [], Thrown(NotAFunction))
    case Cleared =>
      if queue == [] then Run([], Missing, world, [], Desync(DesyncError(data)))
      else Invoke(queue[0], queue[1..], world, data, handle)
    case Current(h) => Invoke(h, queue, world, data, handle)
  }

  /** Calls the current handler `h`, with `rest` queued behind it. A truthy
      result clears `current`; a non-empty leftover Buffer is read on into
      the next handler; a falsy result or an exception leaves `h` current. */
  function Invoke<H, G>(h: H, rest: seq<H>, world: G, data: Bytes,
                        handle: (H, G, Bytes) -> Reaction<G>): (r: Run<H, G>)
    ensures r.calls != [] && r.calls[0] == Call(h, data, handle(h, world, data).result)
    decreases |rest| + 1, 0
  {
    var reaction := handle(h, world, data);
    var call := Call(h, data, reaction.result);
    if reaction.result.HasLeftover() then
      var r := Dispatch(rest, Cleared, reaction.world, reaction.result.value.data, handle);
      r.(calls := [call] + r.calls)
    else if reaction.result.Finished() then Run(rest, Cleared, reaction.world, [call], Finished)
    else if reaction.result.Throws? then Run(rest, Current(h), reaction.world, [call], Thrown(reaction.result.error))
    else Run(rest, Current(h), reaction.world, [call], Finished)
  }

  class ReadQueue<H> {
    /** The socket whose data events the queue reads. */
    const connection: Connection
    var queue: seq<H>
    var current: Slot<H>

    constructor(connection: Connection)
      ensures this.connection == connection
      ensures queue == [] && current == Cleared
    {
      this.connection := connection;
      queue := [];
      current := Cleared;
    }

    /** The `length` getter: the number of queued handlers. */
    function Length(): (n: nat)
      reads this
      ensures n == |queue|
    {
      |queue|
    }

    /** `push(callback)`: the handler joins the tail of the queue. */
    method Push(h: H)
      modifies this
      ensures queue == old(queue) + [h]
      ensures current == old(current)
      ensures Length() == old(Length()) + 1
    {
      queue := queue + [h];
    }

    /** `read(data)`. On a desync the error is emitted on the connection and
        the connection is destroyed; nothing else of the connection changes. */
    method Read<G>(data: Bytes, world: G, handle: (H, G, Bytes) -> Reaction<G>)
      returns (world': G, calls: seq<Call<H>>, end: ReadEnd)
      modifies this, connection`emitted, connection`destroyed
      decreases |queue| + (if current.Current? then 1 else 0)
      ensures Run(queue, current, world', calls, end) == Dispatch(old(queue), old(current), world, data, handle)
      ensures end.Desync? ==> connection.emitted == old(connection.emitted) + [end.error] && connection.destroyed
      ensures !end.Desync? ==> connection.emitted == old(connection.emitted) && connection.destroyed == old(connection.destroyed)
    {
      if current.Cleared? {
        if queue == [] {
          current := Missing;
          var error := DesyncError(data);
          connection.EmitError(error);
          connection.Destroy();
          return world, [], Desync(error);
        }
        current := Current(queue[0]);
        queue := queue[1..];
      }
      if current.Missing? {
        return world, [], Thrown(NotAFunction);
      }
      var h := current.handler;
      var reaction := handle(h, world, data);
      var call := Call(h, data, reaction.result);
      if reaction.result.Throws? {
        return reaction.world, [call], Thrown(reaction.result.error);
      }
      if Truthy(reaction.result.value) {
        current := Cleared;
        if reaction.result.HasLeftover() {
          var more;
          world', more, end := Read(reaction.result.value.data, reaction.world, handle);
          return world', [call] + more, end;
        }
      }
      return reaction.world, [call], Finished;
    }
  }

  /** FIFO: the handlers a read calls are, in order, the oldest unfinished
      ones, and the queue it leaves is what follows them. */
  lemma DispatchFifo<H, G>(queue: seq<H>, current: Slot<H>, world: G, data: Bytes,
                           handle: (H, G, Bytes) -> Reaction<G>)
    ensures var r := Dispatch(queue, current, world, data, handle);
      Handlers(r.calls) + r.queue == Active(current, queue)
  {
    match current
    case Missing =>
    case Cleared =>
      if queue != [] {
        InvokeFifo(queue[0], queue[1..], world, data, handle);
        assert [queue[0]] + queue[1..] == queue;
      }
    case Current(h) => InvokeFifo(h, queue, world, data, handle);
  }

  lemma {:induction false} InvokeFifo<H, G>(h: H, rest: seq<H>, world: G, data: Bytes,
                                            handle: (H, G, Bytes) -> Reaction<G>)
    ensures var r := Invoke(h, rest, world, data, handle);
      Handlers(r.calls) + r.queue == [h] + rest
    decreases |rest|
  {
    var reaction := handle(h, world, data);
    if reaction.result.HasLeftover() {
      var r' := Dispatch(rest, Cleared, reaction.world, reaction.result.value.data, handle);
      if rest != [] {
        InvokeFifo(rest[0], rest[1..], reaction.world, reaction.result.value.data, handle);
        assert [rest[0]] + rest[1..] == rest;
      }
      var call := Call(h, data, reaction.result);
      assert Handlers([call] + r'.calls) == [h] + Handlers(r'.calls);
    }
  }

  /** One read calls at most one handler more than the queue holds: each
      call after the first consumes a queued handler. */
  lemma CallsBounded<H, G>(queue: seq<H>, current: Slot<H>, world: G, data: Bytes,
                           handle: (H, G, Bytes) -> Reaction<G>)
    ensures |Dispatch(queue, current, world, data, handle).calls| <= |queue| + 1
  {
    DispatchFifo(queue, current, world, data, handle);
  }

  /** Leftovers chain: each call after the first gets the non-empty leftover
      Buffer its predecessor returned, and the last call returns no leftover
      unless the read ended in the desync path. */
  lemma {:induction false} InvokeChains<H, G>(h: H, rest: seq<H>, world: G, data: Bytes,
                                              handle: (H, G, Bytes) -> Reaction<G>)
    ensures var r := Invoke(h, rest, world, data, handle);
      (forall i :: 0 <= i < |r.calls| - 1 ==>
         r.calls[i].result.HasLeftover() && r.calls[i + 1].input == r.calls[i].result.value.data) &&
      (!r.calls[|r.calls| - 1].result.HasLeftover() || r.end.Desync?)
    decreases |rest|
  {
    var reaction := handle(h, world, data);
    if reaction.result.HasLeftover() && rest != [] {
      InvokeChains(rest[0], rest[1..], reaction.world, reaction.result.value.data, handle);
    }
  }

  /** The same for a whole read: the first call gets the chunk itself. */
  lemma DispatchChains<H, G>(queue: seq<H>, current: Slot<H>, world: G, data: Bytes,
                             handle: (H, G, Bytes) -> Reaction<G>)
    ensures var r := Dispatch(queue, current, world, data, handle);
      (r.calls != [] ==> r.calls[0].input == data) &&
      (forall i :: 0 <= i < |r.calls| - 1 ==>
         r.calls[i].result.HasLeftover() && r.calls[i + 1].input == r.calls[i].result.value.data) &&
      (r.calls != [] ==> !r.calls[|r.calls| - 1].result.HasLeftover() || r.end.Desync?)
  {
    match current
    case Missing =>
    case Cleared =>
      if queue != [] {
        InvokeChains(queue[0], queue[1..], world, data, handle);
      }
    case Current(h) => InvokeChains(h, queue, world, data, handle);
  }

  /** A read calls no handler exactly when it hits `undefined` or the
      desync path with nothing queued. */
  lemma DispatchEmpty<H, G>(queue: seq<H>, current: Slot<H>, world: G, data: Bytes,
                            handle: (H, G, Bytes) -> Reaction<G>)
    ensures var r := Dispatch(queue, current, world, data, handle);
      r.calls == [] <==> current.Missing? || (current.Cleared? && queue == [])
  {
  }

  /** How a read that called a handler ends: in the desync path exactly
      when it leaves `current` undefined, and by an exception exactly when
      the last handler called threw one, which is the exception it ends by. */
  lemma {:induction false} InvokeEnd<H, G>(h: H, rest: seq<H>, world: G, data: Bytes,
                                    handle: (H, G, Bytes) -> Reaction<G>)
    ensures var r := Invoke(h, rest, world, data, handle);
      var last := r.calls[|r.calls| - 1];
      (r.end.Desync? <==> r.current.Missing?) &&
      (r.end.Thrown? <==> last.result.Throws?) &&
      (r.end.Thrown? ==> r.end.error == last.result.error)
    decreases |rest|
  {
    var reaction := handle(h, world, data);
    if reaction.result.HasLeftover() && rest != [] {
      var r := Invoke(h, rest, world, data, handle);
      var r' := Invoke(rest[0], rest[1..], reaction.world, reaction.result.value.data, handle);
      InvokeEnd(rest[0], rest[1..], reaction.world, reaction.result.value.data, handle);
      assert Dispatch(rest, Cleared, reaction.world, reaction.result.value.data, handle) == r';
      assert r.calls == [Call(h, data, reaction.result)] + r'.calls;
      assert r.calls[|r.calls| - 1] == r'.calls[|r'.calls| - 1];
      assert r.current == r'.current && r.end == r'.end;
    }
  }

  /** How a read that called a handler leaves `current`: `undefined` after
      a desync, otherwise cleared when the last handler called finished, and
      still that handler when it returned a falsy value or threw. */
  lemma {:induction false} InvokeSlot<H, G>(h: H, rest: seq<H>, world: G, data: Bytes,
                                    handle: (H, G, Bytes) -> Reaction<G>)
    ensures var r := Invoke(h, rest, world, data, handle);
      var last := r.calls[|r.calls| - 1];
      r.current == if r.end.Desync? then Missing
                   else if last.result.Finished() then Cleared
                   else Current(last.handler)
    decreases |rest|
  {
    var reaction := handle(h, world, data);
    if reaction.result.HasLeftover() && rest != [] {
      var r := Invoke(h, rest, world, data, handle);
      var r' := Invoke(rest[0], rest[1..], reaction.world, reaction.result.value.data, handle);
      InvokeSlot(rest[0], rest[1..], reaction.world, reaction.result.value.data, handle);
      assert Dispatch(rest, Cleared, reaction.world, reaction.result.value.data, handle) == r';
      assert r.calls == [Call(h, data, reaction.result)] + r'.calls;
      assert r.calls[|r.calls| - 1] == r'.calls[|r'.calls| - 1];
      assert r.current == r'.current && r.end == r'.end;
    }
  }

  /** A read keeps every invariant of the world that each handler still
      waiting keeps. */
  lemma DispatchKeeps<H, G>(queue: seq<H>, current: Slot<H>, world: G, data: Bytes,
                            handle: (H, G, Bytes) -> Reaction<G>, inv: G -> bool, waiting: H -> bool)
    requires inv(world)
    requires forall h :: h in Active(current, queue) ==> waiting(h)
    requires forall h, w, d :: waiting(h) && inv(w) ==> inv(handle(h, w, d).world)
    ensures inv(Dispatch(queue, current, world, data, handle).world)
  {
    match current
    case Missing =>
    case Cleared =>
      if queue != [] {
        assert queue[0] in Active(current, queue);
        InvokeKeeps(queue[0], queue[1..], world, data, handle, inv, waiting);
      }
    case Current(h) =>
      assert h in Active(current, queue);
      InvokeKeeps(h, queue, world, data, handle, inv, waiting);
  }

  lemma {:induction false} InvokeKeeps<H, G>(h: H, rest: seq<H>, world: G, data: Bytes,
                                             handle: (H, G, Bytes) -> Reaction<G>, inv: G -> bool, waiting: H -> bool)
    requires inv(world) && waiting(h)
    requires forall x :: x in rest ==> waiting(x)
    requires forall h, w, d :: waiting(h) && inv(w) ==> inv(handle(h, w, d).world)
    ensures inv(Invoke(h, rest, world, data, handle).world)
    decreases |rest|
  {
    var reaction := handle(h, world, data);
    if reaction.result.HasLeftover() && rest != [] {
      assert rest[0] in rest;
      InvokeKeeps(rest[0], rest[1..], reaction.world, reaction.result.value.data, handle, inv, waiting);
      assert Dispatch(rest, Cleared, reaction.world, reaction.result.value.data, handle)
          == Invoke(rest[0], rest[1..], reaction.world, reaction.result.value.data, handle);
    }
  }

  /** What a read leaves waiting was waiting before it. */
  lemma DispatchLeavesWaiting<H, G>(queue: seq<H>, current: Slot<H>, world: G, data: Bytes,
                                    handle: (H, G, Bytes) -> Reaction<G>)
    ensures var r := Dispatch(queue, current, world, data, handle);
      forall h :: h in Active(r.current, r.queue) ==> h in Active(current, queue)
  {
    var r := Dispatch(queue, current, world, data, handle);
    DispatchFifo(queue, current, world, data, handle);
    if r.current.Current? {
      DispatchEmpty(queue, current, world, data, handle);
      if current.Current? {
        InvokeSlot(current.handler, queue, world, data, handle);
      } else {
        InvokeSlot(queue[0], queue[1..], world, data, handle);
      }
      assert r.current.handler == Handlers(r.calls)[|r.calls| - 1];
    }
    forall h | h in Active(r.current, r.queue) ensures h in Active(current, queue) {
      if h in r.queue {
        assert h in Handlers(r.calls) + r.queue;
      } else {
        assert h in Handlers(r.calls) + r.queue;
      }
    }
  }

  /** Data with no current handler and nothing queued calls no handler: it
      ends in the desync path and leaves `current` undefined. */
  lemma DesyncCallsNothing<H, G>(world: G, data: Bytes, handle: (H, G, Bytes) -> Reaction<G>)
    ensures Dispatch([], Cleared, world, data, handle) == Run([], Missing, world, [], Desync(DesyncError(data)))
  {
  }

  /** After a desync, every later read throws a TypeError and changes nothing. */
  lemma ReadAfterDesync<H, G>(queue: seq<H>, world: G, data: Bytes, handle: (H, G, Bytes) -> Reaction<G>)
    ensures Dispatch(queue, Missing, world, data, handle) == Run(queue, Missing, world, [], Thrown(NotAFunction))
  {
  }

  /** With no current handler, the head of the queue is the one called, and
      it leaves the queue. */
  lemma HeadBecomesCurrent<H, G>(queue: seq<H>, world: G, data: Bytes, handle: (H, G, Bytes) -> Reaction<G>)
    requires queue != []
    ensures var r := Dispatch(queue, Cleared, world, data, handle);
      r.calls != [] && r.calls[0] == Call(queue[0], data, handle(queue[0], world, data).result) &&
      (!handle(queue[0], world, data).result.HasLeftover() ==> r.queue == queue[1..])
  {
  }

  /** A handler that returns a falsy value stays current, the queue is left
      as it was, and the next chunk goes to that same handler. */
  lemma FalsyKeepsCurrent<H, G>(queue: seq<H>, h: H, world: G, data: Bytes, handle: (H, G, Bytes) -> Reaction<G>)
    requires handle(h, world, data).result.Returns? && !Truthy(handle(h, world, data).result.value)
    ensures var r := Dispatch(queue, Current(h), world, data, handle);
      r.queue == queue && r.current == Current(h) && r.end == Finished &&
      r.calls == [Call(h, data, handle(h, world, data).result)]
  {
  }

  /** A truthy return that is not a non-empty Buffer (an empty Buffer,
      `true`, an object) clears `current` and ends the read. */
  lemma TruthyStops<H, G>(queue: seq<H>, h: H, world: G, data: Bytes, handle: (H, G, Bytes) -> Reaction<G>)
    requires handle(h, world, data).result.Finished() && !handle(h, world, data).result.HasLeftover()
    ensures var r := Dispatch(queue, Current(h), world, data, handle);
      r.queue == queue && r.current == Cleared && r.end == Finished && |r.calls| == 1
  {
  }

  /** A handler that returns leftover bytes while nothing else is queued
      sends the read down the desync path. */
  lemma LeftoverWithoutHandler<H, G>(h: H, world: G, data: Bytes, handle: (H, G, Bytes) -> Reaction<G>)
    requires handle(h, world, data).result.HasLeftover()
    ensures var r := Dispatch([], Current(h), world, data, handle);
      r.end == Desync(DesyncError(handle(h, world, data).result.value.data)) && r.current == Missing &&
      |r.calls| == 1
  {
  }

  /** First unit test: a handler returning an empty Buffer is called once,
      and the queue ends empty with nothing current. */
  lemma EmptyBufferEndsRead(data: Bytes)
    requires |data| == 100
    ensures var r := Dispatch([0], Cleared, 0, data, (h: nat, g: nat, d: Bytes) => Reaction(Returns(Buf([])), g));
      |r.calls| == 1 && r.current == Cleared && r.queue == [] && r.end == Finished
  {
  }

  /** `data.slice(start, data.length)`. */
  function Slice(d: Bytes, start: nat): (r: Bytes)
    ensures |r| == if start <= |d| then |d| - start else 0
  {
    if start <= |d| then d[start..] else []
  }

  /** Second unit test: three handlers that each keep all but the first 33
      bytes are all called on one 99-byte chunk, in order. */
  lemma ThreeHandlersShareOneChunk(data: Bytes)
    requires |data| == 99
    ensures var r := Dispatch([0, 1, 2], Cleared, 0, data, (h: nat, g: nat, d: Bytes) => Reaction(Returns(Buf(Slice(d, 33))), g));
      Handlers(r.calls) == [0, 1, 2] && r.current == Cleared && r.queue == [] && r.end == Finished
  {
    var handle := (h: nat, g: nat, d: Bytes) => Reaction(Returns(Buf(Slice(d, 33))), g);
    DispatchFifo([0, 1, 2], Cleared, 0, data, handle);
    var r1 := Dispatch([1, 2], Cleared, 0, data[33..], handle);
    var r2 := Dispatch([2], Cleared, 0, data[33..][33..], handle);
    assert |data[33..][33..][33..]| == 0;
    assert r2.calls == [Call(2, data[33..][33..], Returns(Buf([])))];
    assert |r1.calls| == 2;
  }

  /** Third unit test: a handler that is done on its second call (the world
      counts its calls) stays current after the first chunk and is cleared
      after the second. */
  lemma SecondCallFinishes(a: Bytes, b: Bytes)
    ensures var handle := (h: nat, g: int, d: Bytes) => Reaction(Returns(Bool(g + 1 == 2)), g + 1);
      var r1 := Dispatch([7], Cleared, 0, a, handle);
      var r2 := Dispatch(r1.queue, r1.current, r1.world, b, handle);
      r1.current == Current(7) && r1.queue == [] &&
      r2.current == Cleared && r2.queue == [] && r2.world == 2 && |r1.calls| + |r2.calls| == 2
  {
  }
}
