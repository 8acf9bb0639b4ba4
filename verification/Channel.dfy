/** The receiving end of the log channel, with whatever the capture threads do between two receives. */
module Channel {
  import opened Logs

  const LOG_CHANNEL_CAPACITY: nat := 64

  datatype Received = Got(chunk: Chunk) | Empty | Disconnected

  /**
   * `sent` is all that the threads have sent so far, `taken` how much of it was received, and `open` says that some
   * thread still holds a sender; `closed`: the last receive found it closed and empty.
   */
  class Receiver {
    var sent: seq<Chunk>
    var taken: nat
    var open: bool
    var closed: bool

    ghost predicate Valid()
      reads this
    {
      taken <= |sent| <= taken + LOG_CHANNEL_CAPACITY && (closed ==> Drained())
    }

    ghost function Taken(): seq<Chunk>
      reads this
      requires Valid()
    {
      sent[..taken]
    }

    /** Every thread is gone and nothing is left to receive. */
    predicate Drained()
      reads this
    {
      !open && taken == |sent|
    }

    constructor ()
      ensures Valid() && sent == [] && taken == 0 && !closed
    {
      sent, taken, open, closed := [], 0, true, false;
    }

    /** Threads that are alive may send what fits and may end; the oldest chunk waiting is received, if there is one. */
    method Receive() returns (received: Received)
      requires Valid()
      modifies this
      ensures Valid() && old(sent) <= sent
      ensures !old(open) ==> !open && sent == old(sent)
      ensures received == if old(taken) < |sent| then Got(sent[old(taken)]) else if open then Empty else Disconnected
      ensures taken == if received.Got? then old(taken) + 1 else old(taken)
      ensures Taken() == if received.Got? then old(Taken()) + [received.chunk] else old(Taken())
      ensures closed <==> received.Disconnected?
      ensures closed ==> Drained()
    {
      if open {
        var more: seq<Chunk> := *;
        if |sent| + |more| <= taken + LOG_CHANNEL_CAPACITY {
          sent := sent + more;
        }
        open := *;
      }
      if taken < |sent| {
        received := Got(sent[taken]);
        taken := taken + 1;
      } else {
        received := if open then Empty else Disconnected;
      }
      closed := received.Disconnected?;
    }
  }
}
