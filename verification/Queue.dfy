/** The meaning of a lib/buffer.c buffer: a bounded queue of octets whose free space is only what lies after
    the write pointer. */
module Queues {
  import opened Bytes

  /** `offset` is read - data, `unread` the octets between read and write, `capacity` is limit - data. */
  datatype Queue = Queue(capacity: nat, offset: nat, unread: seq<Byte>) {

    /** R <= W <= limit, and an empty queue always sits at the start of its storage. */
    predicate Valid() {
      && offset + |unread| <= capacity
      && (unread == [] ==> offset == 0)
    }

    /** limit - write */
    function Room(): nat {
      if offset + |unread| <= capacity then capacity - offset - |unread| else 0
    }

    function Append(bs: seq<Byte>): Queue {
      this.(unread := unread + bs)
    }

    /** Append as much of bs as there is room for. */
    function Offer(bs: seq<Byte>): Queue {
      Append(Take(bs, Room()))
    }

    /** Drop n octets from the front; an emptied queue moves back to the start of its storage. */
    function Advance(n: nat): Queue
      requires n <= |unread|
    {
      if n == |unread| then Queue(capacity, 0, []) else Queue(capacity, offset + n, unread[n..])
    }

    function Compacted(): Queue {
      Queue(capacity, 0, unread)
    }
  }

  function Empty(capacity: nat): Queue {
    Queue(capacity, 0, [])
  }

  /** Offering a message in two parts is the same as offering it at once. */
  lemma OfferSplits(q: Queue, a: seq<Byte>, b: seq<Byte>)
    requires q.Valid()
    ensures q.Offer(a).Valid()
    ensures q.Offer(a + b) == q.Offer(a).Offer(b)
    ensures Take(a + b, q.Room()) == Take(a, q.Room()) + Take(b, q.Offer(a).Room())
  {
    TakeJoin(a, b, q.Room());
    assert q.unread + Take(a + b, q.Room()) == q.unread + Take(a, q.Room()) + Take(b, q.Offer(a).Room());
  }

  /** One call on a buffer, by whoever holds it. */
  datatype Call = Produce(bytes: seq<Byte>) | Consume(count: nat) | Compact

  function Perform(q: Queue, call: Call): Queue {
    match call
    case Produce(bs) => q.Offer(bs)
    case Consume(n) => q.Advance(Min(n, |q.unread|))
    case Compact => q.Compacted()
  }

  /** State of a queue together with everything it ever accepted and everything it ever gave back. */
  datatype Ledger = Ledger(queue: Queue, accepted: seq<Byte>, returned: seq<Byte>)

  function Serve(q: Queue, calls: seq<Call>): Ledger {
    if calls == [] then Ledger(q, q.unread, [])
    else
      var before := Serve(q, calls[..|calls| - 1]);
      var call := calls[|calls| - 1];
      var after := Perform(before.queue, call);
      match call
      case Produce(bs) => Ledger(after, before.accepted + Take(bs, before.queue.Room()), before.returned)
      case Consume(n) => Ledger(after, before.accepted,
                                before.returned + Take(before.queue.unread, n))
      case Compact => Ledger(after, before.accepted, before.returned)
  }

  /** Through any calls the buffer is a FIFO: what came out followed by what is unread is what was accepted. */
  lemma {:induction false} ServeIsFifo(q: Queue, calls: seq<Call>)
    requires q.Valid()
    ensures var l := Serve(q, calls);
            l.queue.Valid() && l.queue.capacity == q.capacity && l.accepted == l.returned + l.queue.unread
  {
    if calls == [] {
    } else {
      var call := calls[|calls| - 1];
      ServeIsFifo(q, calls[..|calls| - 1]);
      var before := Serve(q, calls[..|calls| - 1]);
      if call.Consume? {
        var n := Min(call.count, |before.queue.unread|);
        assert before.queue.unread == before.queue.unread[..n] + before.queue.unread[n..];
      }
    }
  }
}
