/** The part of a Node.js socket that the client touches: the writes it
    makes, the errors it emits on the socket itself, `destroy` and `end`, and
    the one-shot close/error listeners that each command call registers. The
    socket's own I/O is not modelled: its events are inputs of the client. */
module Transport {
  import opened JsValues

  /** Socket events a command call listens for. */
  datatype EventName = CloseEvent | ErrorEvent

  /** The listener that command call number `exchange` registered for `event`. */
  datatype Listener = Listener(event: EventName, exchange: nat)

  /** `ls` without the listener `l` (`removeListener`; every command's listener
      is a distinct closure, so there is at most one to remove). */
  function Without(ls: seq<Listener>, l: Listener): (r: seq<Listener>)
    ensures forall x :: x in r <==> x in ls && x != l
    ensures |r| <= |ls|
  {
    if ls == [] then []
    else if ls[0] == l then Without(ls[1..], l)
    else [ls[0]] + Without(ls[1..], l)
  }

  /** Removing a listener that is not registered changes nothing. */
  lemma {:induction false} WithoutAbsent(ls: seq<Listener>, l: Listener)
    requires l !in ls
    ensures Without(ls, l) == ls
  {
    if ls != [] {
      WithoutAbsent(ls[1..], l);
      assert ls == [ls[0]] + ls[1..];
    }
  }

  /** Removal works on each part of a list separately. */
  lemma {:induction false} WithoutSplits(p: seq<Listener>, q: seq<Listener>, l: Listener)
    ensures Without(p + q, l) == Without(p, l) + Without(q, l)
  {
    if p == [] {
      assert p + q == q;
    } else {
      assert (p + q)[0] == p[0] && (p + q)[1..] == p[1..] + q;
      WithoutSplits(p[1..], q, l);
    }
  }

  /** `removeListener` takes out the one registration and keeps the others
      in the order they were added. */
  lemma WithoutKeepsOrder(p: seq<Listener>, q: seq<Listener>, l: Listener)
    requires l !in p && l !in q
    ensures Without(p + [l] + q, l) == p + q
  {
    WithoutSplits(p + [l], q, l);
    WithoutSplits(p, [l], l);
    assert Without([l], l) == Without([], l) == [];
    WithoutAbsent(p, l);
    WithoutAbsent(q, l);
  }

  class Connection {
    /** The buffers passed to `write`, in order. */
    var written: seq<Bytes>
    /** The values passed to `emit('error', …)` by the client's own code. */
    var emitted: seq<Value>
    var destroyed: bool
    var ended: bool
    /** The one-shot listeners added with `once`, in registration order. */
    var listeners: seq<Listener>

    constructor()
      ensures written == [] && emitted == [] && listeners == []
      ensures !destroyed && !ended
    {
      written, emitted, listeners := [], [], [];
      destroyed, ended := false, false;
    }

    method Write(data: Bytes)
      modifies this`written
      ensures written == old(written) + [data]
    {
      written := written + [data];
    }

    method EmitError(error: Value)
      modifies this`emitted
      ensures emitted == old(emitted) + [error]
    {
      emitted := emitted + [error];
    }

    method Destroy()
      modifies this`destroyed
      ensures destroyed
    {
      destroyed := true;
    }

    method End()
      modifies this`ended
      ensures ended
    {
      ended := true;
    }

    method Once(l: Listener)
      modifies this`listeners
      ensures listeners == old(listeners) + [l]
    {
      listeners := listeners + [l];
    }

    method RemoveListener(l: Listener)
      modifies this`listeners
      ensures listeners == Without(old(listeners), l)
    {
      listeners := Without(listeners, l);
    }
  }
}
