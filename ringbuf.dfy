/** The ring buffer as the device backends use it: a bounded FIFO of slots
    behind a mutex. Only the contract the backends rely on is modelled:
    the writer's `next` yields a free slot or nothing when the ring is full,
    the reader's `next` yields the oldest unread slot or nothing when the
    ring is empty. */
module RingBuf {
  import opened Types

  class Ring<S> {
    /** Slots written by the producer and not yet consumed, oldest first. */
    var contents: seq<S>
    /** Number of slots of the ring. */
    const depth: nat
    /** The mutex guarding the ring was poisoned by a panic while held. */
    var poisoned: bool

    ghost predicate Valid()
      reads this
    {
      |contents| <= depth
    }

    constructor (depth: nat)
      ensures Valid()
      ensures this.depth == depth && contents == [] && !poisoned
    {
      this.depth := depth;
      contents := [];
      poisoned := false;
    }

    /** The writer's `next` followed by filling the slot with `s`: the
        producer never overtakes the consumer by more than `depth` slots. */
    method WriterNext(s: S) returns (ok: bool)
      requires Valid()
      modifies this`contents
      ensures Valid()
      ensures ok <==> |old(contents)| < depth
      ensures contents == if ok then old(contents) + [s] else old(contents)
    {
      ok := |contents| < depth;
      if ok {
        contents := contents + [s];
      }
    }

    /** The reader's `next`: the oldest unread slot, consumed. */
    method ReaderNext() returns (r: Option<S>)
      requires Valid()
      modifies this`contents
      ensures Valid()
      ensures r.None? <==> old(contents) == []
      ensures r.Some? ==> r.value == old(contents)[0] && contents == old(contents)[1..]
      ensures r.None? ==> contents == old(contents)
    {
      if contents == [] {
        r := None;
      } else {
        r := Some(contents[0]);
        contents := contents[1..];
      }
    }
  }
}
