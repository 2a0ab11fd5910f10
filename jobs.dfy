/**
 * The live state of one rsync job and its fan-out to websocket observers
 * (`Job` in srv/server.go and its methods in srv/handlers.go).
 *
 * Each observer holds a buffered Go channel. The model sees a channel
 * sequentially: the items waiting in its buffer, its capacity, and whether it
 * has been closed. A send that would block is skipped, as Go's
 * `select { case ch <- x: default: }` does.
 */
module Jobs {

  const Running := "running"
  const Completed := "completed"
  const Failed := "failed"
  const Cancelled := "cancelled"

  /** The item a finishing job offers to every subscriber instead of an output line. */
  const DoneSentinel := "__DONE__"

  /** Buffer size of every subscriber channel. */
  const SubscriberCapacity: nat := 100

  /** What a non-blocking send of `x` leaves in a buffer of the given capacity. */
  function Offer(buffer: seq<string>, capacity: nat, x: string): (r: seq<string>)
    ensures r == buffer + [x] <==> |buffer| < capacity
    ensures r == buffer <==> |buffer| >= capacity
  {
    if |buffer| < capacity then buffer + [x] else buffer
  }

  /** What offering each of `xs` in turn leaves in the buffer. */
  function OfferAll(buffer: seq<string>, capacity: nat, xs: seq<string>): seq<string>
    decreases |xs|
  {
    if xs == [] then buffer
    else Offer(OfferAll(buffer, capacity, xs[..|xs| - 1]), capacity, xs[|xs| - 1])
  }

  function Min(a: int, b: int): int {
    if a < b then a else b
  }

  /**
   * A buffer within its capacity that nobody drains keeps the first items
   * offered, up to its capacity, and drops the rest.
   */
  lemma {:induction false} OfferAllKeepsFirst(buffer: seq<string>, capacity: nat, xs: seq<string>)
    requires |buffer| <= capacity
    ensures OfferAll(buffer, capacity, xs) == (buffer + xs)[..Min(capacity, |buffer| + |xs|)]
    decreases |xs|
  {
    if xs != [] {
      var init, last := xs[..|xs| - 1], xs[|xs| - 1];
      OfferAllKeepsFirst(buffer, capacity, init);
      var r := OfferAll(buffer, capacity, init);
      assert (buffer + xs)[..|buffer| + |init|] == buffer + init;
      if |r| < capacity {
        assert r == buffer + init;
        assert buffer + xs == buffer + init + [last];
      } else {
        assert (buffer + xs)[..capacity] == (buffer + init)[..capacity];
      }
    }
  }

  class Channel {
    const capacity: nat
    var buffer: seq<string>
    var closed: bool

    /** `make(chan string, capacity)` */
    constructor (capacity: nat)
      ensures this.capacity == capacity && buffer == [] && !closed
    {
      this.capacity := capacity;
      buffer := [];
      closed := false;
    }
  }

  class Job {
    const id: int
    /** Every line the process has produced so far; only ever appended to. */
    var output: seq<string>
    var status: string
    var subscribers: set<Channel>
    /** Whether the job's `cancel` channel has been closed. */
    var cancelRequested: bool

    /**
     * Every subscriber is still open and within its capacity: this is what
     * keeps the sends and the `close` in `finish` from panicking.
     */
    ghost predicate Valid()
      reads this, subscribers
    {
      forall c :: c in subscribers ==> !c.closed && |c.buffer| <= c.capacity
    }

    /** The job literal that `RunJob` registers. */
    constructor (id: int)
      ensures Valid()
      ensures this.id == id && output == [] && status == Running
      ensures subscribers == {} && !cancelRequested
    {
      this.id := id;
      output := [];
      status := Running;
      subscribers := {};
      cancelRequested := false;
    }

    /** Adds a fresh, empty channel of 100 slots to the subscriber set. */
    method Subscribe() returns (ch: Channel)
      requires Valid()
      modifies this
      ensures Valid() && fresh(ch)
      ensures ch.capacity == SubscriberCapacity && ch.buffer == [] && !ch.closed
      ensures subscribers == old(subscribers) + {ch} && ch !in old(subscribers)
      ensures output == old(output) && status == old(status)
      ensures cancelRequested == old(cancelRequested)
    {
      ch := new Channel(SubscriberCapacity);
      subscribers := subscribers + {ch};
    }

    /** Removes `ch` from the subscriber set, if it is there; the channel itself is left open. */
    method Unsubscribe(ch: Channel)
      requires Valid()
      modifies this
      ensures Valid()
      ensures subscribers == old(subscribers) - {ch}
      ensures output == old(output) && status == old(status)
      ensures cancelRequested == old(cancelRequested)
    {
      subscribers := subscribers - {ch};
    }

    /** Records one output line and offers it to every subscriber without blocking. */
    method AddOutput(line: string)
      requires Valid()
      modifies this, subscribers
      ensures Valid()
      ensures output == old(output) + [line]
      ensures status == old(status) && subscribers == old(subscribers)
      ensures cancelRequested == old(cancelRequested)
      ensures forall c :: c in subscribers ==>
                c.buffer == Offer(old(c.buffer), c.capacity, line) && !c.closed
    {
      output := output + [line];
      var pending := subscribers;
      while pending != {}
        invariant pending <= subscribers
        invariant output == old(output) + [line]
        invariant status == old(status) && subscribers == old(subscribers)
        invariant cancelRequested == old(cancelRequested)
        invariant forall c :: c in subscribers - pending ==>
                    c.buffer == Offer(old(c.buffer), c.capacity, line) && !c.closed
        invariant forall c :: c in pending ==> c.buffer == old(c.buffer) && !c.closed
        decreases pending
      {
        var c :| c in pending;
        if |c.buffer| < c.capacity {
          c.buffer := c.buffer + [line];
        }
        pending := pending - {c};
      }
    }

    /**
     * Sets the terminal status, offers the sentinel to every subscriber,
     * closes every subscriber and empties the set. The exit code is not used.
     */
    method Finish(status: string, exitCode: int)
      requires Valid()
      modifies this, subscribers
      ensures Valid()
      ensures this.status == status && subscribers == {}
      ensures output == old(output) && cancelRequested == old(cancelRequested)
      ensures forall c :: c in old(subscribers) ==>
                c.closed && c.buffer == Offer(old(c.buffer), c.capacity, DoneSentinel)
    {
      this.status := status;
      var pending := subscribers;
      while pending != {}
        invariant pending <= subscribers
        invariant this.status == status && subscribers == old(subscribers)
        invariant output == old(output) && cancelRequested == old(cancelRequested)
        invariant forall c :: c in subscribers - pending ==>
                    c.closed && c.buffer == Offer(old(c.buffer), c.capacity, DoneSentinel)
        invariant forall c :: c in pending ==> c.buffer == old(c.buffer) && !c.closed
        decreases pending
      {
        var c :| c in pending;
        if |c.buffer| < c.capacity {
          c.buffer := c.buffer + [DoneSentinel];
        }
        c.closed := true;
        pending := pending - {c};
      }
      subscribers := {};
    }
  }
}
