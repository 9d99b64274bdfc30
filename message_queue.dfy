/**
 * The kernel's message queue: a first-in first-out queue of messages with a
 * capacity that is recorded when the queue is made and never enforced.
 */
module MessageQueues {
  import opened Wrappers

  // ---------------------------------------------------------------------
  // The queue as a value

  /** `push_back`: the message goes behind every message already queued */
  function PushBack<M>(q: seq<M>, m: M): (r: seq<M>)
    ensures |r| == |q| + 1 && r[..|q|] == q && r[|q|] == m
  {
    q + [m]
  }

  /** `pop_front`: the oldest message and the queue behind it, or nothing
      and the same empty queue */
  function PopFront<M>(q: seq<M>): (r: (Option<M>, seq<M>))
    ensures q == [] ==> r == (None, [])
    ensures q != [] ==> r.0 == Some(q[0]) && [q[0]] + r.1 == q
  {
    if q == [] then (None, []) else (Some(q[0]), q[1..])
  }

  /** Popping after a push: an empty queue gives back the message just
      pushed; otherwise the front is popped and the push happens behind it. */
  lemma PopAfterPush<M>(q: seq<M>, m: M)
    ensures PopFront(PushBack(q, m))
         == if q == [] then (Some(m), []) else (Some(q[0]), PushBack(q[1..], m))
  {
    if q != [] {
      assert (q + [m])[1..] == q[1..] + [m];
    }
  }

  /** Push each message of `xs` in order */
  function PushAll<M>(q: seq<M>, xs: seq<M>): (r: seq<M>)
    decreases |xs|
  {
    if xs == [] then q else PushAll(PushBack(q, xs[0]), xs[1..])
  }

  /** Pop until the queue answers nothing, collecting what it gives */
  function Drain<M>(q: seq<M>): (r: seq<M>)
    decreases |q|
  {
    match PopFront(q)
    case (None, _) => []
    case (Some(m), rest) => [m] + Drain(rest)
  }

  lemma {:induction false} PushAllAppends<M>(q: seq<M>, xs: seq<M>)
    ensures PushAll(q, xs) == q + xs
    decreases |xs|
  {
    if xs != [] {
      PushAllAppends(q + [xs[0]], xs[1..]);
      assert q + [xs[0]] + xs[1..] == q + xs;
    }
  }

  /** Draining a queue yields its messages front first */
  lemma {:induction false} DrainYieldsQueue<M>(q: seq<M>)
    ensures Drain(q) == q
    decreases |q|
  {
    if q != [] {
      DrainYieldsQueue(q[1..]);
    }
  }

  /** First in, first out: pushing `xs` on an empty queue and popping until
      nothing is left gives `xs` back in the same order. */
  lemma FifoRoundTrip<M>(xs: seq<M>)
    ensures Drain(PushAll([], xs)) == xs
  {
    PushAllAppends([], xs);
    assert [] + xs == xs;
    DrainYieldsQueue(xs);
  }

  // ---------------------------------------------------------------------
  // The queue as an object

  class MessageQueue<M> {
    /** The messages, the oldest first */
    var queue: seq<M>
    /** The capacity the queue was made with */
    var capacity: nat

    /** `with_capacity(n)`: an empty queue that records `n` */
    constructor WithCapacity(n: nat)
      ensures queue == [] && capacity == n
    {
      queue := [];
      capacity := n;
    }

    function Capacity(): (n: nat)
      reads this
    {
      capacity
    }

    function Size(): (n: nat)
      reads this
    {
      |queue|
    }

    /** `push`: appends without looking at the capacity, so it never fails */
    method Push(m: M)
      modifies this
      ensures queue == PushBack(old(queue), m)
      ensures capacity == old(capacity)
    {
      queue := queue + [m];
    }

    /** `pop`: removes and returns the oldest message, if any */
    method Pop() returns (r: Option<M>)
      modifies this
      ensures (r, queue) == PopFront(old(queue))
      ensures capacity == old(capacity)
    {
      if queue == [] {
        r := None;
      } else {
        r := Some(queue[0]);
        queue := queue[1..];
      }
    }
  }

  // ---------------------------------------------------------------------
  // Clients

  /** Pushes every message of `xs` on a new queue and then pops one more
      time than there are messages: the pops return `xs` in order, then
      nothing. */
  method PushThenPopAll<M>(xs: seq<M>) returns (popped: seq<M>, last: Option<M>)
    ensures popped == xs && last == None
  {
    var q := new MessageQueue<M>.WithCapacity(|xs|);
    var i := 0;
    while i < |xs|
      invariant 0 <= i <= |xs| && q.queue == xs[..i]
    {
      q.Push(xs[i]);
      assert xs[..i + 1] == xs[..i] + [xs[i]];
      i := i + 1;
    }
    popped := [];
    while |popped| < |xs|
      invariant |popped| <= |xs| && popped == xs[..|popped|] && q.queue == xs[|popped|..]
      decreases |xs| - |popped|
    {
      var r := q.Pop();
      popped := popped + [r.value];
    }
    last := q.Pop();
  }

  /** The capacity is not a bound: any number of pushes succeeds, and the
      size may pass the capacity. */
  method PushPastCapacity<M>(n: nat, xs: seq<M>) returns (size: nat, capacity: nat)
    ensures capacity == n && size == |xs|
  {
    var q := new MessageQueue<M>.WithCapacity(n);
    var i := 0;
    while i < |xs|
      invariant 0 <= i <= |xs| && |q.queue| == i && q.capacity == n
    {
      q.Push(xs[i]);
      i := i + 1;
    }
    size, capacity := q.Size(), q.Capacity();
  }

  /** `queue_is_created_with_maximum_capacity` */
  method CreatedWithCapacity() returns (capacity: nat, size: nat)
    ensures capacity == 10 && size == 0
  {
    var q := new MessageQueue<()>.WithCapacity(10);
    capacity, size := q.Capacity(), q.Size();
  }

  /** `message_can_be_pushed_to_queue` */
  method PushedMessageIsCounted() returns (size: nat)
    ensures size == 1
  {
    var q := new MessageQueue<string>.WithCapacity(10);
    q.Push("message 1");
    size := q.Size();
  }

  /** `message_can_be_popped_to_queue` */
  method PushedMessageIsPopped() returns (first: Option<string>, second: Option<string>, size: nat)
    ensures first == Some("message 1") && second == None && size == 0
  {
    var q := new MessageQueue<string>.WithCapacity(10);
    q.Push("message 1");
    first := q.Pop();
    second := q.Pop();
    size := q.Size();
  }
}
