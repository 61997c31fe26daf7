/**
 * The fan-out ring: one bounded buffer of reads, and an independent cursor per consumer.
 * The specification is over the whole history of published reads; the ring keeps only
 * the newest of them.
 */
module MuxRing {
  import opened Common

  /** How many reads the ring retains. */
  const BACKLOG: nat := 256

  type Read = seq<byte>

  datatype Received = Got(read: Read) | Lagged(missed: nat) | Empty

  function Oldest(published: nat): nat {
    if published > BACKLOG then published - BACKLOG else 0
  }

  /**
   * One `recv`: the next read if it is retained; otherwise a report of how many are
   * gone, moving the cursor to the oldest retained one; nothing at the end.
   */
  function Receive(published: seq<Read>, next: nat): (nat, Received)
    requires next <= |published|
  {
    if next < Oldest(|published|) then (Oldest(|published|), Lagged(Oldest(|published|) - next))
    else if next < |published| then (next + 1, Got(published[next]))
    else (next, Empty)
  }

  class Cursor {
    var next: nat

    constructor (next: nat)
      ensures this.next == next
    {
      this.next := next;
    }
  }

  class Ring {
    const slots: array<Read>
    var tail: nat
    ghost var published: seq<Read>

    ghost predicate Valid()
      reads this, slots
    {
      && slots.Length == BACKLOG
      && tail == |published|
      && forall i :: Oldest(tail) <= i < tail ==> slots[i % BACKLOG] == published[i]
    }

    constructor ()
      ensures Valid() && published == [] && fresh(slots)
    {
      slots := new Read[BACKLOG];
      tail := 0;
      published := [];
    }

    /** Publish one read, overwriting the oldest when the ring is full. */
    method Send(read: Read)
      requires Valid()
      modifies this, slots
      ensures Valid() && published == old(published) + [read]
    {
      slots[tail % BACKLOG] := read;
      published := published + [read];
      assert forall i :: Oldest(tail + 1) <= i < tail ==> i % BACKLOG != tail % BACKLOG;
      tail := tail + 1;
    }

    /** A cursor that will see every read published from now on. */
    method Subscribe() returns (c: Cursor)
      requires Valid()
      ensures fresh(c) && c.next == |published|
    {
      c := new Cursor(tail);
    }

    /** One `recv` on behalf of a cursor. */
    method Recv(c: Cursor) returns (r: Received)
      requires Valid() && c.next <= |published|
      modifies c
      ensures (c.next, r) == Receive(published, old(c.next))
      ensures r == Empty <==> old(c.next) == |published|
      ensures c.next <= |published|
    {
      if c.next + BACKLOG < tail {
        var oldest := tail - BACKLOG;
        r := Lagged(oldest - c.next);
        c.next := oldest;
      } else if c.next < tail {
        r := Got(slots[c.next % BACKLOG]);
        c.next := c.next + 1;
      } else {
        r := Empty;
      }
    }
  }
}
