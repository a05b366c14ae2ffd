/**
 The base adapter's delegation contract: every adapter operation becomes exactly
 one message to an inner counter object (for the networked backend, the foreign
 client's counter). The inner counter is modelled as a recorder of the messages
 it receives, answering `value` with whatever it currently reports.
 */
module Adapters {
  import opened Outcomes
  import opened Counts

  /** The messages an inner counter understands: `increment`, `decrement`, `value=`, `value`, `delete`. */
  datatype Call = Incr | Decr | Assign(v: int) | Read | Remove

  /** The one message each adapter operation sends; `change` and `reset` both assign. */
  function Forward(op: Op): (c: Call)
    ensures c.Assign? <==> op.Change? || op.Reset?
    ensures op.Change? ==> c.v == op.v
    ensures op.Reset? ==> c.v == 0
  {
    match op
    case Increment => Incr
    case Decrement => Decr
    case Change(v) => Assign(v)
    case Reset => Assign(0)
    case Value => Read
    case Delete => Remove
  }

  lemma ResetForwardsAsChangeZero()
    ensures Forward(Reset) == Forward(Change(0))
  {
  }

  /** Distinct operations send distinct messages, except that `reset` is `change(0)`. */
  lemma ForwardDistinguishes(a: Op, b: Op)
    requires Forward(a) == Forward(b)
    ensures a == b || (a == Reset && b == Change(0)) || (a == Change(0) && b == Reset)
  {
  }

  class InnerCounter {
    var received: seq<Call>
    var current: int

    constructor (current: int)
      ensures received == [] && this.current == current
    {
      received := [];
      this.current := current;
    }

    method Receive(c: Call) returns (v: int)
      modifies this
      ensures received == old(received) + [c] && current == old(current)
      ensures v == current
    {
      received := received + [c];
      v := current;
    }
  }

  class Adapter {
    const name: string
    /** `null` for the base class, whose `counter` raises "Not yet implemented". */
    const inner: InnerCounter?

    constructor (name: string, inner: InnerCounter?)
      ensures this.name == name && this.inner == inner
    {
      this.name := name;
      this.inner := inner;
    }

    /** Performs `op` by one message to the inner counter; `value` answers what the inner counter reports. */
    method Perform(op: Op) returns (r: Result<Option<int>>)
      modifies if inner == null then {} else {inner}
      ensures inner == null ==> r == Err(NotYetImplemented)
      ensures inner != null ==> r.Ok? && inner.received == old(inner.received) + [Forward(op)]
      ensures inner != null ==> inner.current == old(inner.current)
      ensures inner != null ==> r.value == if op.Value? then Some(inner.current) else None
    {
      if inner == null {
        return Err(NotYetImplemented);
      }
      var v := inner.Receive(Forward(op));
      r := Ok(if op.Value? then Some(v) else None);
    }

    method Increment() returns (r: Result<()>)
      modifies if inner == null then {} else {inner}
      ensures inner == null ==> r == Err(NotYetImplemented)
      ensures inner != null ==> r.Ok? && inner.received == old(inner.received) + [Incr]
    {
      var x := Perform(Op.Increment);
      r := if x.Ok? then Ok(()) else Err(x.error);
    }

    method Decrement() returns (r: Result<()>)
      modifies if inner == null then {} else {inner}
      ensures inner == null ==> r == Err(NotYetImplemented)
      ensures inner != null ==> r.Ok? && inner.received == old(inner.received) + [Decr]
    {
      var x := Perform(Op.Decrement);
      r := if x.Ok? then Ok(()) else Err(x.error);
    }

    method Change(v: int) returns (r: Result<()>)
      modifies if inner == null then {} else {inner}
      ensures inner == null ==> r == Err(NotYetImplemented)
      ensures inner != null ==> r.Ok? && inner.received == old(inner.received) + [Assign(v)]
    {
      var x := Perform(Op.Change(v));
      r := if x.Ok? then Ok(()) else Err(x.error);
    }

    method Reset() returns (r: Result<()>)
      modifies if inner == null then {} else {inner}
      ensures inner == null ==> r == Err(NotYetImplemented)
      ensures inner != null ==> r.Ok? && inner.received == old(inner.received) + [Assign(0)]
    {
      var x := Perform(Op.Reset);
      r := if x.Ok? then Ok(()) else Err(x.error);
    }

    method Value() returns (r: Result<int>)
      modifies if inner == null then {} else {inner}
      ensures inner == null ==> r == Err(NotYetImplemented)
      ensures inner != null ==> r == Ok(old(inner.current)) && inner.received == old(inner.received) + [Read]
    {
      var x := Perform(Op.Value);
      r := if x.Ok? then Ok(x.value.value) else Err(x.error);
    }

    method Delete() returns (r: Result<()>)
      modifies if inner == null then {} else {inner}
      ensures inner == null ==> r == Err(NotYetImplemented)
      ensures inner != null ==> r.Ok? && inner.received == old(inner.received) + [Remove]
    {
      var x := Perform(Op.Delete);
      r := if x.Ok? then Ok(()) else Err(x.error);
    }
  }
}
