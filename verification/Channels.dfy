/** Go's buffered channels. A send on a full channel would block and on a closed one would panic. */
module Channels {

  class Chan<T> {
    const capacity: nat
    var buffer: seq<T>
    var closed: bool

    constructor (capacity: nat)
      ensures this.capacity == capacity && buffer == [] && !closed
    {
      this.capacity := capacity;
      buffer, closed := [], false;
    }

    /** An unconditional send, which must find room. */
    method Send(x: T)
      requires !closed && |buffer| < capacity
      modifies this`buffer
      ensures buffer == old(buffer) + [x]
    {
      buffer := buffer + [x];
    }

    /** A send in a select with a default branch: it never blocks and may drop. */
    method TrySend(x: T) returns (sent: bool)
      requires !closed
      modifies this`buffer
      ensures sent <==> old(|buffer|) < capacity
      ensures buffer == if sent then old(buffer) + [x] else old(buffer)
    {
      sent := |buffer| < capacity;
      if sent {
        buffer := buffer + [x];
      }
    }

    method Receive() returns (x: T)
      requires buffer != []
      modifies this`buffer
      ensures x == old(buffer)[0] && buffer == old(buffer)[1..]
    {
      x := buffer[0];
      buffer := buffer[1..];
    }

    method Close()
      requires !closed
      modifies this`closed
      ensures closed
    {
      closed := true;
    }
  }
}
