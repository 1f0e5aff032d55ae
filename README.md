# node-beanstalkd-client, modelled in Dafny

This project models the core of `node-beanstalkd-client`, a promise-based
client for the beanstalkd work-queue protocol, and proves properties of that model.

A command call does the following:
- It registers close and error listeners on the socket.
- It pushes a reply handler onto the read queue.
- It writes its request bytes.

Every chunk of bytes from the socket goes to the oldest handler that has not
finished. That handler's reader keeps the bytes of an incomplete reply. It
settles the call once a whole reply has arrived, and hands any leftover bytes
on to the next handler.

The model covers:
- the read queue (`src/read-queue.js`)
- the reader (`src/reader.js`)
- the request encoding of the writers (`src/writer.js`)
- the argument types (`src/types.js`)
- the command tables (`src/commands.js`)
- the client's life cycle and command step order (`src/client.js`)

| file | module | what it holds |
|---|---|---|
| `js_values.dfy` | `JsValues` | bytes, JavaScript values and their truthiness, `a \|\| b` |
| `decimal.dfy` | `Decimal` | `String(n)` for integers, `parseInt(s, 10)`, and their round trip |
| `types.dfy` | `ArgTypes` | `Type.validateInput`, `Type.toString`, the named types |
| `commands.dfy` | `Commands` | the two command tables and the client's wiring of command methods |
| `transport.dfy` | `Transport` | the part of a socket the client touches: writes, `end`, `destroy`, emitted errors, one-shot listeners |
| `writer.dfy` | `Writer` | request bytes (`Encode`), a decoder of the wire format as partner, and the `BasicWriter`/`BodyWriter` classes |
| `read_queue.dfy` | `ReadQueues` | the `ReadQueue` class and `Dispatch`, the function its `Read` is proved against |
| `reader.dfy` | `Readers` | `HandleStep` (one `handle` call) and the `BasicReader` class |
| `client.dfy` | `Client` | the `BeanstalkdClient` class: socket events, `quit`, command calls, settling of calls |
| `scenarios.dfy` | `Scenarios` | whole conversations through the client |
| `call_sites.dfy` | `CallSites` | the three call sites in `src/client.js` that do not match the definitions they call |

The state the source changes in place is modelled as Dafny classes with
`modifies` clauses:
- the read queue's `queue` and `current` fields
- a reader's `remainder`
- the client's `closed`, `connection` and `readQueue` fields
- the socket's writes and listeners

Each method is proved against a function:
- `ReadQueue.Read` equals `Dispatch`.
- `BasicReader.Handle` equals `HandleStep`.
- `BasicWriter.Handle` and `BodyWriter.Handle` write `Encode`.

The properties are proved about those functions.

Three things belong to other packages or to the runtime, so they are parameters:
- the reply parser of the `beanstalkd-protocol` package, passed as `parse`;
- its table of reply arguments, passed as `replyMap`;
- `js-yaml`'s loader, passed as `yamlLoad`.

Socket events are inputs: the client's methods `OnConnect`, `OnData`, `OnError`,
`OnEnd` and `OnClose`. Every command call gets a number, its exchange, and the
client's `log` records how each call's promise settled.

Three facts about the code shape the model:
- **Arguments are not checked.** The writers in `src/writer.js` check neither
  the number nor the types of a command's arguments, and neither does the
  model (`Writer.validateArgs` appears only in a unit test).
- **A reply in parts is kept by its reader.** Each reader keeps the bytes it
  could not parse yet in its `remainder` field and parses them again with the
  next chunk.
- **A handler is queued before anything can fail.** A command call pushes its
  handler before its writer runs. So a `put` without a body rejects at once,
  but its handler stays queued and takes the next call's reply
  (`Scenarios.EmptyPutSwallowsNextReply`).

`src/client.js` also calls `reader.handle` and `writer.handle` with other
parameters than `src/reader.js` and `src/writer.js` define, and it imports a
`BodyReader` class that `src/reader.js` does not define. The client model uses
the definitions, and reads `BodyReader` replies as `BasicReader` does.
`call_sites.dfy` models the calls as written (see "Findings").

## Model

| member | source | states |
|---|---|---|
| JsValues.Or | src/client.js:16-17 | `a \|\| b`: the first value when it is truthy, the second otherwise |
| Decimal.ParseIntOfNumberToString | src/writer.js:24 | `parseInt` reads back exactly the integer whose decimal text was written, whatever non-digit text follows it (`String(n)` writes that text for every integer below 10^21 in size) |
| Decimal.ParseIntIsNumber | src/types.js:12 | `parseInt(s, 10)` is a number exactly when, after leading white space, a digit follows, or a sign and then a digit |
| ArgTypes.Type.ToString | src/types.js:20-22 | the printed type is the field name, `<`, the kind's name and `>`, in that order |
| ArgTypes.ToStringNamesField | src/types.js:20-22 | reading a printed type up to its first `<` gives back the field name, when the name has no `<` of its own |
| ArgTypes.NamedTypesPrint | src/types.js:25-59 | the named subclasses print as `id<Number>`, `priority<Number>`, `delay<Number>`, `tube<String>`, `body<Buffer>` and `body<Object>` |
| ArgTypes.Type.ValidateInput | src/types.js:7-18 | by the kind of value: a number passes every kind but String and Buffer; a string passes every kind, the Number kind only when `parseInt` reads a number from it; a Buffer passes every kind but String, the Number kind only when its text gives a number; any other value passes the other kinds, and the Number kind only when its text gives a number |
| ArgTypes.StringKindAccepts | src/types.js:14-16 | the String kind accepts exactly strings, and everything it accepts the Buffer kind accepts too |
| ArgTypes.NumberKindAcceptsText | src/types.js:11-13 | the Number kind accepts a string exactly when, after leading white space, it starts with a digit, or with a sign and then a digit |
| ArgTypes.NumberKindAcceptsDecimalText | src/types.js:11-13 | the Number kind accepts every number, and every string holding an integer's decimal text followed by a non-digit |
| ArgTypes.NumberKindRejects | src/types.js:11-13 | the Number kind rejects a one-byte zero Buffer, a plain object, `undefined` and a non-numeric string |
| Commands.Lookup | src/commands.js:1-27 | a name is found exactly when the table has an entry for it, and the status found is that of the first entry with that name |
| Commands.LookupFindsEntry | src/commands.js:1-27 | in a table whose names are distinct, looking up any entry's name gives that entry's status |
| Commands.TablesAreDistinct | src/commands.js:1-27 | no command name occurs twice in a table, nor in both tables |
| Commands.YamlCommandsExpectOk | src/commands.js:21-27 | every YAML command expects `OK` |
| Commands.ExpectedStatusOfCommand | src/commands.js:1-19 | each command of the first table expects the status its entry lists |
| Commands.ExpectedStatusOfYamlCommand | src/commands.js:21-27 | each YAML command expects the status its entry lists, and no entry of the first table shadows it |
| Commands.TubeStatuses | src/commands.js:2-7 | `use` and `list-tube-used` share `USING`, and `watch` and `ignore` share `WATCHING` |
| Commands.ReserveStatuses | src/commands.js:8-9 | both reserve commands expect `RESERVED` |
| Commands.PeekStatuses | src/commands.js:15-18 | all four peek commands expect `FOUND` |
| Commands.WiringFollowsTables | src/client.js:24-126 | the constructor's command methods write the tables' commands in the tables' order, each expecting its table's status |
| Commands.WiringAgreesWithTables | src/client.js:24-126 | each command method's reader expects the status the tables give for the command it writes |
| Commands.WiringKinds | src/client.js:24-126 | only `put` writes a body, and exactly the YAML table's commands read their reply with the YAML reader |
| Commands.CommandNamesPlain | src/commands.js:1-19 | every command name is ASCII with no space or CR, so it can head a request line |
| Commands.YamlCommandNamesPlain | src/commands.js:21-27 | the same for the YAML commands |
| Transport.Without | src/client.js:199-200 | `removeListener` leaves every other listener and only those |
| Transport.WithoutAbsent | src/client.js:199-200 | removing a listener that is not registered changes nothing |
| Transport.WithoutKeepsOrder | src/client.js:199-200 | removing a call's one registration leaves the other listeners in the order they were added |
| Writer.Encode | src/writer.js:9-26 | a request without a body is its tokens joined by spaces, then CRLF; with a body, the header also carries the length token, then come CRLF, the body and CRLF, and the length is that of the header plus the body plus 4 |
| Writer.LengthToken | src/writer.js:24 | the length token is a non-empty token with no space or CR |
| Writer.LengthTokenParses | src/writer.js:24 | the length token reads back as the body's exact byte count |
| Writer.SplitJoin | src/writer.js:11 | splitting a space-joined header gives back its tokens, when none holds a space |
| Writer.HeaderLineDecodes | src/writer.js:11 | a header line is read back up to its CRLF, token for token, with what follows left intact |
| Writer.DecodeEncodeBasic | src/writer.js:9-12 | whatever follows a request without a body on the wire, decoding it gives the command name and the arguments in order |
| Writer.DecodeEncodeBody | src/writer.js:16-26 | whatever follows a request with a body, decoding it gives the name, the arguments and the body bytes verbatim |
| Writer.PutHelloBytes | src/writer.js:16-26 | `put 0 0 60` with body `hello` encodes as `put 0 0 60 5\r\nhello\r\n` |
| Writer.BasicWriter.Handle | src/writer.js:9-12 | exactly one write, of `Encode` without a body |
| Writer.BodyWriter.Handle | src/writer.js:16-26 | with arguments, one write of `Encode` with the last argument as body; with none, the TypeError of `new Buffer(undefined)` and no write |
| ReadQueues.DesyncError | src/read-queue.js:27 | the desync error is an Error whose message is the fixed prefix and then the chunk's length in decimal |
| ReadQueues.ReadQueue.constructor | src/read-queue.js:2-10 | a new queue is bound to its socket, with nothing queued and nothing current |
| ReadQueues.ReadQueue.Length | src/read-queue.js:12-14 | `length` is the number of queued handlers |
| ReadQueues.ReadQueue.Push | src/read-queue.js:16-18 | the handler joins the tail, `current` is untouched, and `length` grows by one |
| ReadQueues.ReadQueue.Read | src/read-queue.js:20-42 | the state after `read`, the calls made and how it ended are those of `Dispatch`; on a desync the error is emitted and the socket destroyed, otherwise neither happens |
| ReadQueues.Invoke | src/read-queue.js:34-41 | each step of a read first calls its handler on the bytes it was handed, with the handler's own result |
| ReadQueues.DispatchFifo | src/read-queue.js:20-42 | the handlers a read calls are, in order, the oldest unfinished ones, and the queue it leaves is what follows them |
| ReadQueues.CallsBounded | src/read-queue.js:20-42 | one read calls at most one handler more than the queue holds |
| ReadQueues.DispatchChains | src/read-queue.js:36-41 | the first call gets the chunk, each later call gets the non-empty leftover Buffer its predecessor returned, and the last call returns no leftover unless the read desynchronised |
| ReadQueues.DispatchEmpty | src/read-queue.js:23-31 | a read calls no handler exactly when `current` is undefined, or nothing is current and nothing is queued |
| ReadQueues.InvokeEnd | src/read-queue.js:34-41 | a read desynchronises exactly when it leaves `current` undefined, and ends by an exception exactly when its last call threw, with that exception |
| ReadQueues.InvokeSlot | src/read-queue.js:36-37 | after a read, `current` is undefined after a desync, cleared when the last call finished, and that call's handler otherwise |
| ReadQueues.DispatchKeeps | src/read-queue.js:20-42 | a read keeps every invariant of the handlers' shared state that each waiting handler keeps |
| ReadQueues.DispatchLeavesWaiting | src/read-queue.js:20-42 | every handler a read leaves waiting was waiting before it |
| ReadQueues.DesyncCallsNothing | src/read-queue.js:23-31 | data with nothing current and nothing queued calls no handler, leaves `current` undefined and ends in the desync error for that chunk |
| ReadQueues.ReadAfterDesync | src/read-queue.js:34 | after a desync, every later read throws a TypeError and changes nothing |
| ReadQueues.HeadBecomesCurrent | src/read-queue.js:23-24 | with nothing current, the head of the queue is called and leaves the queue |
| ReadQueues.FalsyKeepsCurrent | src/read-queue.js:36 | a handler returning a falsy value stays current, the queue is unchanged, and it is called only once |
| ReadQueues.TruthyStops | src/read-queue.js:36-38 | a truthy return that is not a non-empty Buffer clears `current` and ends the read after one call |
| ReadQueues.LeftoverWithoutHandler | src/read-queue.js:38-39 | leftover bytes with nothing else queued send the read into the desync path |
| ReadQueues.EmptyBufferEndsRead | test/unit/read-queue.test.js:32-47 | a handler returning an empty Buffer is called once, and the queue ends empty with nothing current |
| ReadQueues.ThreeHandlersShareOneChunk | test/unit/read-queue.test.js:49-79 | three handlers that each drop 33 bytes are all called on one 99-byte chunk, in order, and the queue ends empty |
| ReadQueues.SecondCallFinishes | test/unit/read-queue.test.js:81-96 | a handler done on its second call stays current after the first chunk and is cleared after the second |
| Readers.FirstIndex | src/reader.js:28 | `indexOf`: absent exactly when the name is missing, else the first position holding it |
| Readers.Project | src/reader.js:24-34 | without a `bytes` name, the reply's arguments in the map's order; with one, one value fewer |
| Readers.Resolve | src/reader.js:35 | resolves with the list when it has more than one value, with its only value, or with `undefined` when it is empty |
| Readers.BasicReader.constructor | src/reader.js:4-7 | a new reader has nothing buffered |
| Readers.BasicReader.Handle | src/reader.js:13-41 | the new `remainder`, the return value or exception, and the settlement are those of `HandleStep` |
| Readers.ParserSeesRemainderThenData | src/reader.js:14 | the parser sees the stored bytes then the chunk, so how the bytes were split between the two makes no difference |
| Readers.IncompleteKeepsLeftover | src/reader.js:16-18 | an incomplete parse stores the parser's leftover, settles nothing and returns a falsy value, so the reader stays current |
| Readers.CompleteReturnsLeftover | src/reader.js:19-40 | a complete parse empties `remainder`, settles the call, and returns a truthy Buffer of the parser's leftover, which holds bytes exactly when the parser left some |
| Readers.NoReplyThrows | src/reader.js:14-23 | a parser giving back neither leftover nor reply makes `handle` throw after `remainder` was emptied |
| Readers.SettlesByStatus | src/reader.js:23-40 | a complete reply resolves exactly when its status is the expected one, and is otherwise rejected with an Error whose message is the status |
| Readers.ProjectDropsBytes | src/reader.js:28-33 | with a `bytes` position, the arguments are the others in order, the last through `parseData` |
| Readers.SplitDelivery | src/reader.js:14-21 | a reply in two chunks settles and returns as the same reply in one chunk, when the parser hands back everything it was given while incomplete |
| Readers.ResolvesWithArguments | test/unit/reader.test.js:16-26 | a reply with two arguments resolves with both, in order |
| Readers.ResolvesWithSingleArgument | test/unit/reader.test.js:28-38 | a reply with one argument resolves with it alone |
| Readers.RejectsOtherStatus | test/unit/reader.test.js:40-50 | a reply with another status rejects with an Error whose message is that status |
| Readers.BodyReplyDropsLength | test/unit/reader.test.js:54-65 | a reply `id bytes payload` resolves with the id and the payload, and the length never reaches the caller |
| Client.Remainder | src/reader.js:6 | a reader's `remainder` is empty until it stores something |
| Client.Respond | src/client.js:197-209 | the parser sees the call's stored bytes then the chunk; on a whole reply the call settles once, resolved exactly when the status is its command's expected one and otherwise rejected with an Error of that status, the stored bytes are emptied and the handler returns a Buffer of the parser's leftover; on an incomplete reply nothing settles, the leftover is stored and the return is falsy; when the parser gives neither, the handler throws and nothing settles |
| Client.Name | src/client.js:24-126 | the name a writer holds is the command name's bytes, a token with no space or CR |
| Client.Request | src/client.js:210 | a command writes nothing exactly when it is the body command called with no argument |
| Client.RequestDecodes | src/client.js:210 | whatever follows a request on the wire, decoding it gives the command's name from the client's table, its arguments and its body |
| Client.Record | src/client.js:189-211 | a promise settles once: a later settlement of the same call is ignored, and a first one is appended |
| Client.Detach | src/client.js:199-207 | settling a call removes exactly that call's listeners |
| Client.Fired | src/client.js:190-195 | an event rejects with its reason exactly the calls listening for it |
| Client.ApplyLog | src/client.js:197-209 | settling only appends to the log, exactly the calls that settle |
| Client.ApplyListeners | src/client.js:199-207 | a call's listeners go exactly when it settles |
| Client.ApplyKeeps | src/client.js:188-224 | settling keeps the bookkeeping: a call has listeners only until it settles, both or neither, none twice, all numbered below the next call |
| Client.ApplyFresh | src/client.js:197-209 | when every call settles at most once and none settled before, the log grows by exactly the settlements |
| Client.FireRejectsAll | src/client.js:190-195 | an error or close rejects every waiting call once with its reason, in the order they listened, and leaves no listener |
| Client.BeanstalkdClient.constructor | src/client.js:15-22 | a falsy host or port gives way to `127.0.0.1` or 11300; the client is open, unconnected and has no call |
| Client.BeanstalkdClient.Connect | src/client.js:129-132 | `connect()` creates a fresh socket and a pending promise |
| Client.BeanstalkdClient.OnConnect | src/client.js:140-145 | on `connect` the socket becomes the connection, a fresh read queue is built on it, and a pending connect resolves |
| Client.BeanstalkdClient.OnError | src/client.js:134-138 | on `error` the client closes and keeps the error, a pending connect rejects, and every waiting call rejects with the error, or `CLOSED` when it is falsy |
| Client.BeanstalkdClient.OnEnd | src/client.js:147-150 | on `end` the client closes |
| Client.BeanstalkdClient.OnClose | src/client.js:152-156 | on `close` the client closes and drops its connection, and every waiting call rejects with the `hadError` flag when it is true, or `CLOSED` |
| Client.BeanstalkdClient.Quit | src/client.js:168-174 | `quit()` closes the client and ends the connection if it has one, changing nothing else of the socket |
| Client.BeanstalkdClient.OnData | src/client.js:197-209 | a chunk runs `Dispatch` over the waiting calls; the calls it settles settle in order; a desync reaches the client as a socket error; a handler's exception escapes the event |
| Client.BeanstalkdClient.Command | src/client.js:177-227 | a call after close rejects with `Connection is closed` and one before connecting with a TypeError, neither sending anything; otherwise the call listens, queues its handler and writes its request, or, as a body command with no body, rejects with the writer's TypeError, stops listening and leaves its handler queued |
| Client.BeanstalkdClient.Enqueue | src/client.js:190-209 | a new call listens for close and error, then its handler joins the read queue's tail |
| Client.BeanstalkdClient.Withdraw | src/client.js:221-224 | the newest call rejects before any reply and its listeners go, leaving the others as they were |
| Client.BeanstalkdClient.SettleAll | src/client.js:197-209 | calls settle in order, each removing its listeners, as `Apply` says |
| Client.ReadKeepsNumbers | src/read-queue.js:20-42 | a read settles only calls that were waiting and leaves waiting only calls that were waiting |
| Client.DetachUndoesListen | src/client.js:221-224 | a call that stops listening right after it started leaves the listeners as they were |
| Scenarios.PutHelloRequest | src/client.js:39-42 | `put 0 0 60 hello` puts `put 0 0 60 5\r\nhello\r\n` on the wire |
| Scenarios.WholeReply | src/read-queue.js:34-41 | a reply arriving whole settles the one waiting call and leaves nothing current or queued |
| Scenarios.InsertedResolves | src/client.js:39-42 | an `INSERTED` reply resolves a put with the job id alone |
| Scenarios.PutHello | test/integration/client.test.js:26-41 | a connected client's put of `hello` makes exactly that one write, and after `INSERTED` the call resolves with the id and leaves no listener |
| Scenarios.SettleEvery | src/client.js:190-207 | when every listening call settles exactly once, all settle in order and no listener is left |
| Scenarios.TimedOutRejects | src/client.js:58-61 | a `TIMED_OUT` reply rejects a reserve-with-timeout with that status |
| Scenarios.ReserveTimesOut | src/client.js:58-61 | a reserve-with-timeout that times out rejects with `TIMED_OUT`, stops listening and leaves no handler waiting |
| Scenarios.UsingResolves | src/client.js:24-27 | a `USING` reply resolves a `use` with the tube and hands on the bytes the parser did not need |
| Scenarios.TwoUsingReplies | src/read-queue.js:36-41 | two replies in one chunk resolve two `use` calls, each with its own tube, in call order |
| Scenarios.TwoRepliesInOneChunk | src/read-queue.js:36-41 | through the client, two `use` calls answered in one chunk resolve in call order and leave no listener |
| Scenarios.CloseFiresInOrder | src/client.js:190-195 | a close with two calls listening rejects each once, oldest first |
| Scenarios.CloseRejectsWaiting | src/client.js:152-156 | when the socket closes under two waiting calls, both reject in call order with `hadError` or `CLOSED`, no listener is left, and the client is closed |
| Scenarios.StrayHandlerTakesReply | src/client.js:197-210 | the handler a bodiless put left queued takes the next call's reply as a rejection of its own call and stops |
| Scenarios.SettledAgain | src/client.js:189-207 | settling an already settled call changes no record, and it has no listener left to remove |
| Scenarios.EmptyPutSwallowsNextReply | src/client.js:197-210 | after a bodiless put, the next call's reply is lost: the put stays rejected, and the next call never settles and keeps listening |
| CallSites.HandleCalled | src/reader.js:13-14 | a reader whose first parameter is not the protocol object throws, leaves `remainder` as it was and settles nothing |
| CallSites.ReaderCallThrows | src/client.js:198 | as written, every handler call throws the TypeError of `Buffer.concat` and settles nothing |
| CallSites.ReaderCallIntendedResponds | src/reader.js:13 | called as `src/reader.js` defines it, the handler is the client model's `Respond` |
| CallSites.NoReplySettles | src/client.js:197-209 | as written, a chunk with a call waiting throws out of the data event, the oldest call stays current and nothing settles, whatever the bytes |
| CallSites.WriteCalled | src/writer.js:9-26 | a writer whose first parameter is not the socket throws and writes nothing |
| CallSites.WriterCallThrows | src/client.js:210 | as written, no command ever writes: a bodiless put throws at `new Buffer`, every other call at `write` |
| CallSites.WriterCallIntendedRequests | src/writer.js:9-26 | called as `src/writer.js` defines it, the write is the client model's `Request`, or the same TypeError when the body is missing |
| CallSites.FirstUnbuilt | src/client.js:24-126 | the constructor stops at the first row whose reader class is undefined, after building every row before it, and builds all rows exactly when every class is defined |
| CallSites.ConstructorThrows | src/client.js:5 | as written, `new BeanstalkdClient()` throws at `reserve`, the first `BodyReader` row |
| CallSites.ConstructorBuildsAll | src/client.js:54-61 | with `BodyReader` read as `BasicReader`, every command method is built |

## Left out

- Sockets and network I/O (`net.createConnection` and the socket's own reads and writes) are not modelled. The socket is the `Transport.Connection` class, and its events are method calls on the client.
- `Client.BeanstalkdClient.Command`: the `writeQueue` wait (src/client.js:186 and 213) and the asynchronous settling of promises are left out. A call runs from its closed check to its write in one step. Calls made together behave that way in the source too: they all wait on the same promise, which has already settled. A call made after an earlier call has reached src/client.js:213 instead waits until that call settles, and only then listens, queues its handler and writes. The model does not capture what follows from that:
  - Apart from calls made together, the source has at most one call waiting for a reply; the model lets any number wait.
  - A close during the wait still lets the call write, because it passed the closed check before waiting.
  - After a bodiless put (`Scenarios.EmptyPutSwallowsNextReply`), the next call never settles, so in the source no later call ever writes. In the model each later call writes, and its reply goes to the handler of the call before it.
- The `beanstalkd-protocol` package (`parseReply`, `replyMap`) is foreign code. It is the parameters `parse` and `replyMap`, described only by what they return.
- `js-yaml` and `YamlReader.parseData` (src/reader.js:44-48) are left out: the loader is the parameter `yamlLoad`.
- `Readers.Project`: the failures of `parseData` are not modelled. One of them is the call `parseData(undefined)`, which src/reader.js:32 makes when `bytes` is a reply's only argument name. For `YamlReader` that call throws a TypeError (src/reader.js:46); the model skips it, and the reply resolves with `undefined`.
- The `debug` output, `console.log`, `unref` and the `on` proxy (src/client.js:160-166) are left out: they log or pass calls through and change no state the model has.
- `Client.BeanstalkdClient.Connect`: the model lets a client call `connect()` once. A second `connect()` would create a second socket whose listeners also write the client's fields; that is not modelled.
- `Client.BeanstalkdClient.Command`: the source reads `this.connection` before its wait, and after it uses the value it read. With the wait left out, the model uses the connection the client has at the call.
- `Client.BeanstalkdClient.Command`: the model removes both of a call's listeners at the moment it settles (`Client.Detach`). In the source only a reply does that (src/client.js:199-207). When a close or error rejects the call, `onConnectionEnded` (src/client.js:189-191) removes nothing: `once` drops the registration that fired, and the other stays until the `finally` block (src/client.js:221-224) runs after the promise settles. If that second event comes first, it calls `onConnectionEnded` again, and that second `reject` is ignored. So the order in which listeners disappear differs, but no call's outcome does.
- `Client.BeanstalkdClient.Command`: the model states a rejection's value (`Connection is closed`, the TypeError of a missing connection or body) but not the text of Node's error messages beyond these constants.
- The TypeError messages the model builds use Node 8's wording (V8 6). These are `Client.NoConnection`, `Readers.NoReply`, `ReadQueues.NotAFunction`, the missing-body error of `Writer.BodyWriter.Handle`, and `CallSites.ConcatError`, `CallSites.NoParser`, `CallSites.NoParseReply` and `CallSites.NoWrite`. Later Node versions word several of them differently: for example `Cannot read properties of undefined (reading 'parseReply')`, or, for `Buffer.concat`, `The "list[1]" argument must be an instance of Buffer or Uint8Array`. Only the kind of error (a TypeError) and where it is raised are meant to hold across versions.
- `Client.ParseData`: `BodyReader` is not defined in src/reader.js, so its rows are read as `BasicReader`; the `IgnoreType` and the other type arguments passed to readers and writers are not used by `src/reader.js` or `src/writer.js`, so they are not modelled.
- `ArgTypes.TextOf`: a Buffer's text is decoded byte by byte, ASCII as itself and every byte from 0x80 on as U+FFFD. Node decodes UTF-8, so the two agree on ASCII text only. Multi-byte white space is not skipped by `parseInt` in the model: `Buf([0xC2, 0xA0, 0x35])` (a no-break space, then `5`) is accepted by the Number kind in the source and rejected in the model.
- `Decimal.NumberToString`: plain decimal digits for every integer. `String(n)` switches to exponent form from 10^21 on (`String(1e21)` is `1e+21`, which `parseInt` reads as 1). The client uses it only for a body's byte count, which a Buffer's maximum length keeps far below 10^21.
- Numbers are integers. Floating point, `NaN` beyond `parseInt`'s failure, and numbers too large for a double are not modelled.
- String bodies and arguments are modelled as their bytes; their UTF-8 encoding is not modelled.
- `Writer.BodyWriter.Handle`: a body is always bytes in the model, and so is the body argument of `Client.Request`. In the source, a body that is not a Buffer goes through `new Buffer(body)` (src/writer.js:19-20). For a string that gives its bytes, as the model has it. But a number n gives n allocated bytes: zero-filled from Node 8 on, uninitialised memory before that. So `put(0, 0, 60, 5)` writes `put 0 0 60 5\r\n`, five such bytes and `\r\n`. Numeric bodies, and any other value passed as a body, are not modelled.
- `Writer.validateArgs` and `addCommand` appear only in the unit tests, not in the source, and are not modelled.
- The integration tests need a live server. Only their conversations are modelled, in `Scenarios`, with the parser's results as preconditions.

## Findings

| source | as written | input that shows it | evidently intended | confidence | as-written member | corrected member |
|---|---|---|---|---|---|---|
| src/client.js:198 | `reader.handle(data, resolve, reject)` passes the chunk as `protocol` and a callback as `data`, so `Buffer.concat` throws on every call | any chunk while a call waits | `reader.handle(protocol, data, resolve, reject)`, which parses the reply and settles the call | not executed | CallSites.NoReplySettles | CallSites.ReaderCallIntendedResponds |
| src/client.js:210 | `writer.handle(protocol, connection, ...args)` binds the protocol object as `connection`, so `write` throws and nothing is sent | `use("default")`: the call rejects with a TypeError | `writer.handle(connection, ...args)`, which writes the request | not executed | CallSites.WriterCallThrows | CallSites.WriterCallIntendedRequests |
| src/client.js:5 | `BodyReader` is imported from `./reader`, which does not define it, so `new BodyReader(...)` throws | `new BeanstalkdClient()` | a reader that resolves a reserve or peek with the job id and body | not executed | CallSites.ConstructorThrows | Readers.BodyReplyDropsLength |
