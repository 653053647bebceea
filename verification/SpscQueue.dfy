/**
 The single-producer single-consumer ring of src/common/spsc_queue.h. Each
 atomic access and each slot access is one step. A load of the other side's
 counter may return any value that counter has had since the last value seen,
 and both counters wrap at 2^64.
 */
module SpscQueue {
  import opened Machine
  import opened RingIndex

  /** `size_t` has 64 bits. */
  const COUNTER_BITS: nat := 64

  lemma WrapsAtPower()
    ensures TWO_64 == Pow2(COUNTER_BITS)
  {
    Pow2Square(0, 2);
    Pow2Square(1, 4);
    Pow2Square(2, 16);
    Pow2Square(3, 256);
    Pow2Square(4, 0x1_0000);
    Pow2Square(5, 0x1_0000_0000);
  }

  /** Doubling the exponent 2^n squares the power. */
  lemma Pow2Square(n: nat, p: nat)
    requires Pow2(Pow2(n)) == p
    ensures Pow2(Pow2(n + 1)) == p * p
  {
    Pow2Sum(Pow2(n), Pow2(n));
  }

  datatype Producer<T> =
    | Resting
    | Entered(item: T)              // about to load write_pos_
    | KnowsWrite(item: T, w: nat)   // about to load read_pos_
    | MayWrite(item: T, w: nat)     // there is room
    | Wrote(item: T, w: nat)        // about to store write_pos_

  datatype Consumer<T> =
    | Waiting
    | Started                       // about to load read_pos_
    | KnowsRead(r: nat)             // about to load write_pos_
    | MayRead(r: nat)               // there is an item
    | HasItem(r: nat, out: T)       // about to store read_pos_

  /**
   `pushed` and `popped` are history: the items of the pushes and pops that returned true. `seenRead` and
   `seenWrite` are the ages, as counts of pops and pushes, of the counters each side loaded last.
   */
  datatype State<T> = State(
    slots: seq<T>,
    writePos: nat,
    readPos: nat,
    producer: Producer<T>,
    consumer: Consumer<T>,
    pushed: seq<T>,
    popped: seq<T>,
    seenRead: nat,
    seenWrite: nat)

  /** `lag` is how far a load of the other side's counter is behind. */
  datatype Action<T> = TryPush(item: T) | ProducerStep(lag: nat) | TryPop | ConsumerStep(lag: nat)

  predicate Shape<T>(s: State<T>) {
    |s.slots| > 0 && s.writePos < TWO_64 && s.readPos < TWO_64
    && (s.producer.KnowsWrite? || s.producer.MayWrite? || s.producer.Wrote? ==> s.producer.w < TWO_64)
    && (s.consumer.KnowsRead? || s.consumer.MayRead? || s.consumer.HasItem? ==> s.consumer.r < TWO_64)
  }

  function Increment(c: nat): (r: nat)
    requires c < TWO_64
    ensures r < TWO_64
  {
    if c + 1 == TWO_64 then 0 else c + 1
  }

  /** The count whose counter value a load returns. */
  function Loaded(current: nat, seen: nat, lag: nat): (x: nat)
    ensures seen <= current ==> seen <= x <= current
    ensures lag == 0 && seen <= current ==> x == current
  {
    if seen + lag <= current then current - lag else seen
  }

  function ProduceNext<T>(s: State<T>, lag: nat): State<T>
    requires Shape(s)
  {
    match s.producer
    case Resting => s
    case Entered(item) => s.(producer := KnowsWrite(item, s.writePos))
    case KnowsWrite(item, w) =>
      var x := Loaded(|s.popped|, s.seenRead, lag);
      if WrapSub(w, Index(x, TWO_64), TWO_64) >= |s.slots| then s.(producer := Resting, seenRead := x)
      else s.(producer := MayWrite(item, w), seenRead := x)
    case MayWrite(item, w) => s.(slots := s.slots[Index(w, |s.slots|) := item], producer := Wrote(item, w))
    case Wrote(item, w) => s.(writePos := Increment(w), producer := Resting, pushed := s.pushed + [item])
  }

  function ConsumeNext<T>(s: State<T>, lag: nat): State<T>
    requires Shape(s)
  {
    match s.consumer
    case Waiting => s
    case Started => s.(consumer := KnowsRead(s.readPos))
    case KnowsRead(r) =>
      var x := Loaded(|s.pushed|, s.seenWrite, lag);
      if r == Index(x, TWO_64) then s.(consumer := Waiting, seenWrite := x)
      else s.(consumer := MayRead(r), seenWrite := x)
    case MayRead(r) => s.(consumer := HasItem(r, s.slots[Index(r, |s.slots|)]))
    case HasItem(r, out) => s.(readPos := Increment(r), consumer := Waiting, popped := s.popped + [out])
  }

  function Next<T>(s: State<T>, a: Action<T>): State<T>
    requires Shape(s)
  {
    match a
    case TryPush(item) => if s.producer.Resting? then s.(producer := Entered(item)) else s
    case ProducerStep(lag) => ProduceNext(s, lag)
    case TryPop => if s.consumer.Waiting? then s.(consumer := Started) else s
    case ConsumerStep(lag) => ConsumeNext(s, lag)
  }

  lemma ShapeKept<T>(s: State<T>, a: Action<T>)
    requires Shape(s)
    ensures Shape(Next(s, a))
  {
  }

  function Run<T>(s: State<T>, acts: seq<Action<T>>): State<T>
    requires Shape(s)
    decreases |acts|
  {
    if acts == [] then s
    else
      ShapeKept(s, acts[0]);
      Run(Next(s, acts[0]), acts[1..])
  }

  function Init<T>(slots: seq<T>): State<T> {
    State(slots, 0, 0, Resting, Waiting, [], [], 0, 0)
  }

  /** The static_assert, and that the array can exist. */
  ghost predicate PowerOfTwo(capacity: nat) {
    exists k: nat | k < COUNTER_BITS :: capacity == Pow2(k)
  }

  /** The capacity divides the modulus, more than once. */
  ghost predicate Divides(capacity: nat, laps: nat) {
    capacity > 0 && laps > 1 && TWO_64 == capacity * laps
  }

  lemma Quotient(k: nat, bits: nat) returns (laps: nat)
    requires k < bits
    ensures Pow2(bits) == Pow2(k) * laps && laps > 1 && Pow2(k) < Pow2(bits)
  {
    laps := Pow2(bits - k);
    Pow2Sum(k, bits - k);
    Doubled(Pow2(k), Pow2(bits - k - 1));
  }

  lemma Doubled(a: nat, b: nat)
    requires a > 0 && b > 0
    ensures a * (2 * b) > a
  {
    MulGap(a, b);
    assert a * (2 * b) == a * b + a * b;
  }

  lemma LapsOf(capacity: nat) returns (laps: nat)
    requires PowerOfTwo(capacity)
    ensures Divides(capacity, laps) && capacity < TWO_64
  {
    var k: nat :| k < COUNTER_BITS && capacity == Pow2(k);
    WrapsAtPower();
    laps := Quotient(k, COUNTER_BITS);
  }

  // ---- Invariant ----

  /** What each slot must hold. */
  ghost predicate Unread<T>(slots: seq<T>, pushed: seq<T>, from: nat) {
    |slots| > 0 && forall k: nat | from <= k < |pushed| :: slots[Index(k, |slots|)] == pushed[k]
  }

  ghost predicate ProducerOk<T>(p: Producer<T>, slots: seq<T>, n: nat, seenRead: nat) {
    |slots| > 0 &&
    match p
    case Resting => true
    case Entered(_) => true
    case KnowsWrite(_, w) => w == Index(n, TWO_64)
    case MayWrite(_, w) => w == Index(n, TWO_64) && n < seenRead + |slots|
    case Wrote(item, w) => w == Index(n, TWO_64) && n < seenRead + |slots| && slots[Index(n, |slots|)] == item
  }

  ghost predicate ConsumerOk<T>(c: Consumer<T>, pushed: seq<T>, n: nat, seenWrite: nat) {
    match c
    case Waiting => true
    case Started => true
    case KnowsRead(r) => r == Index(n, TWO_64)
    case MayRead(r) => r == Index(n, TWO_64) && n < seenWrite
    case HasItem(r, out) => r == Index(n, TWO_64) && n < seenWrite && n < |pushed| && out == pushed[n]
  }

  /** The stale views bracket the queue: seenRead <= pops <= seenWrite <= pushes <= seenRead + capacity. */
  ghost predicate Views(capacity: nat, seenRead: nat, pops: nat, seenWrite: nat, pushes: nat) {
    seenRead <= pops <= seenWrite <= pushes <= seenRead + capacity
  }

  ghost predicate Inv<T>(s: State<T>) {
    && PowerOfTwo(|s.slots|) && |s.slots| > 0
    && Views(|s.slots|, s.seenRead, |s.popped|, s.seenWrite, |s.pushed|)
    && s.writePos == Index(|s.pushed|, TWO_64) && s.readPos == Index(|s.popped|, TWO_64)
    && Unread(s.slots, s.pushed, |s.popped|)
    && s.popped <= s.pushed
    && ProducerOk(s.producer, s.slots, |s.pushed|, s.seenRead)
    && ConsumerOk(s.consumer, s.pushed, |s.popped|, s.seenWrite)
  }

  lemma IncrementIndex(n: nat)
    ensures Increment(Index(n, TWO_64)) == Index(n + 1, TWO_64)
  {
    IndexNext(n, TWO_64);
  }

  /** The fullness test is right about the counter it saw, wrapped or not. */
  lemma FullTest(capacity: nat, pushes: nat, x: nat)
    requires PowerOfTwo(capacity) && x <= pushes <= x + capacity
    ensures WrapSub(Index(pushes, TWO_64), Index(x, TWO_64), TWO_64) == pushes - x
  {
    var laps := LapsOf(capacity);
    WrapSubIndex(pushes, x, TWO_64);
  }

  /** The emptiness test is right about the counter it saw. */
  lemma EmptyTest(capacity: nat, pops: nat, x: nat)
    requires PowerOfTwo(capacity) && pops <= x <= pops + capacity
    ensures Index(pops, TWO_64) == Index(x, TWO_64) <==> pops == x
  {
    var laps := LapsOf(capacity);
    if pops < x {
      IndexNear(pops, x, TWO_64);
    }
  }

  lemma SlotOf(capacity: nat, n: nat)
    requires PowerOfTwo(capacity) && capacity > 0
    ensures Index(Index(n, TWO_64), capacity) == Index(n, capacity)
  {
    var laps := LapsOf(capacity);
    IndexNested(n, capacity, laps, TWO_64);
  }

  /** Writing the next slot touches no unread item. */
  lemma WriteFrame<T>(slots: seq<T>, after: seq<T>, pushed: seq<T>, from: nat, item: T)
    requires |slots| > 0 && Unread(slots, pushed, from) && from <= |pushed| < from + |slots|
    requires after == slots[Index(|pushed|, |slots|) := item]
    ensures Unread(after, pushed, from)
  {
    forall k: nat | from <= k < |pushed|
      ensures after[Index(k, |after|)] == pushed[k]
    {
      IndexNear(k, |pushed|, |slots|);
    }
  }

  lemma PublishFrame<T>(slots: seq<T>, pushed: seq<T>, from: nat, item: T, after: seq<T>)
    requires Unread(slots, pushed, from) && slots[Index(|pushed|, |slots|)] == item && after == pushed + [item]
    ensures Unread(slots, after, from)
  {
  }

  lemma InvLoadRead<T>(s: State<T>, lag: nat)
    requires Inv(s) && Shape(s) && s.producer.KnowsWrite?
    ensures Inv(ProduceNext(s, lag))
  {
    var x := Loaded(|s.popped|, s.seenRead, lag);
    FullTest(|s.slots|, |s.pushed|, x);
  }

  lemma InvWrite<T>(s: State<T>, lag: nat)
    requires Inv(s) && Shape(s) && s.producer.MayWrite?
    ensures Inv(ProduceNext(s, lag))
  {
    SlotOf(|s.slots|, |s.pushed|);
    WriteFrame(s.slots, ProduceNext(s, lag).slots, s.pushed, |s.popped|, s.producer.item);
  }

  lemma InvPublish<T>(s: State<T>, lag: nat)
    requires Inv(s) && Shape(s) && s.producer.Wrote?
    ensures Inv(ProduceNext(s, lag))
  {
    IncrementIndex(|s.pushed|);
    PublishFrame(s.slots, s.pushed, |s.popped|, s.producer.item, ProduceNext(s, lag).pushed);
  }

  lemma InvProduce<T>(s: State<T>, lag: nat)
    requires Inv(s) && Shape(s)
    ensures Inv(ProduceNext(s, lag))
  {
    match s.producer
    case KnowsWrite(_, _) => InvLoadRead(s, lag);
    case MayWrite(_, _) => InvWrite(s, lag);
    case Wrote(_, _) => InvPublish(s, lag);
    case _ =>
  }

  lemma InvLoadWrite<T>(s: State<T>, lag: nat)
    requires Inv(s) && Shape(s) && s.consumer.KnowsRead?
    ensures Inv(ConsumeNext(s, lag))
  {
    var x := Loaded(|s.pushed|, s.seenWrite, lag);
    EmptyTest(|s.slots|, |s.popped|, x);
  }

  lemma InvRead<T>(s: State<T>, lag: nat)
    requires Inv(s) && Shape(s) && s.consumer.MayRead?
    ensures Inv(ConsumeNext(s, lag))
  {
    SlotOf(|s.slots|, |s.popped|);
  }

  lemma PrefixSnoc<T>(popped: seq<T>, pushed: seq<T>)
    requires popped <= pushed && |popped| < |pushed|
    ensures popped + [pushed[|popped|]] <= pushed
  {
  }

  lemma InvRelease<T>(s: State<T>, lag: nat)
    requires Inv(s) && Shape(s) && s.consumer.HasItem?
    ensures Inv(ConsumeNext(s, lag))
  {
    IncrementIndex(|s.popped|);
    PrefixSnoc(s.popped, s.pushed);
  }

  lemma InvConsume<T>(s: State<T>, lag: nat)
    requires Inv(s) && Shape(s)
    ensures Inv(ConsumeNext(s, lag))
  {
    match s.consumer
    case KnowsRead(_) => InvLoadWrite(s, lag);
    case MayRead(_) => InvRead(s, lag);
    case HasItem(_, _) => InvRelease(s, lag);
    case _ =>
  }

  lemma InvNext<T>(s: State<T>, a: Action<T>)
    requires Inv(s) && Shape(s)
    ensures Inv(Next(s, a))
  {
    match a
    case ProducerStep(lag) => InvProduce(s, lag);
    case ConsumerStep(lag) => InvConsume(s, lag);
    case _ =>
  }

  lemma {:induction false} InvRun<T>(s: State<T>, acts: seq<Action<T>>)
    requires Inv(s) && Shape(s)
    ensures Inv(Run(s, acts))
    decreases |acts|
  {
    if acts != [] {
      InvNext(s, acts[0]);
      ShapeKept(s, acts[0]);
      InvRun(Next(s, acts[0]), acts[1..]);
    }
  }

  lemma InvInit<T>(slots: seq<T>)
    requires PowerOfTwo(|slots|)
    ensures Inv(Init(slots)) && Shape(Init(slots))
  {
  }

  // ---- Main results ----

  /**
   In every run the items popped are the items pushed, in order, with none lost, repeated or
   overwritten, and the queue never holds more than its capacity.
   */
  lemma Fifo<T>(slots: seq<T>, acts: seq<Action<T>>)
    requires PowerOfTwo(|slots|)
    ensures Shape(Init(slots))
    ensures var s := Run(Init(slots), acts);
            && s.popped <= s.pushed && |s.pushed| - |s.popped| <= |slots|
            && |s.slots| == |slots| && Unread(s.slots, s.pushed, |s.popped|)
  {
    InvInit(slots);
    InvRun(Init(slots), acts);
    RunKeepsSize(Init(slots), acts);
  }

  lemma {:induction false} RunKeepsSize<T>(s: State<T>, acts: seq<Action<T>>)
    requires Shape(s)
    ensures |Run(s, acts).slots| == |s.slots|
    decreases |acts|
  {
    if acts != [] {
      ShapeKept(s, acts[0]);
      RunKeepsSize(Next(s, acts[0]), acts[1..]);
    }
  }

  /** The bounded queue the ring stands for. */
  function Contents<T>(s: State<T>): seq<T>
    requires |s.popped| <= |s.pushed|
  {
    s.pushed[|s.popped|..]
  }

  /**
   Every step of the ring is a step of a bounded FIFO queue: the store of write_pos_ puts the pushed item
   at the back of a queue with room, the store of read_pos_ takes the front item for the popper, and
   nothing else changes the queue.
   */
  lemma StepRefines<T>(s: State<T>, a: Action<T>)
    requires Inv(s) && Shape(s)
    ensures Inv(Next(s, a))
    ensures var q, q' := Contents(s), Contents(Next(s, a));
            if a.ProducerStep? && s.producer.Wrote? then |q| < |s.slots| && q' == q + [s.producer.item]
            else if a.ConsumerStep? && s.consumer.HasItem? then q == [s.consumer.out] + q'
            else q' == q
  {
    InvNext(s, a);
    if a.ConsumerStep? && s.consumer.HasItem? {
      assert Next(s, a).pushed == s.pushed && |Next(s, a).popped| == |s.popped| + 1;
      TakeFront(s.pushed, |s.popped|);
    } else if a.ProducerStep? && s.producer.Wrote? {
      AddBack(s.pushed, |s.popped|, s.producer.item);
    }
  }

  lemma TakeFront<T>(pushed: seq<T>, from: nat)
    requires from < |pushed|
    ensures pushed[from..] == [pushed[from]] + pushed[from + 1..]
  {
  }

  lemma AddBack<T>(pushed: seq<T>, from: nat, item: T)
    requires from <= |pushed|
    ensures (pushed + [item])[from..] == pushed[from..] + [item]
  {
  }

  /** A push is refused exactly when the queue was full by the read_pos_ it saw; with a current one, when it is full. */
  lemma PushRefusedIff<T>(s: State<T>, lag: nat)
    requires Inv(s) && Shape(s) && s.producer.KnowsWrite?
    ensures ProduceNext(s, lag).producer.Resting?
            <==> |s.pushed| - Loaded(|s.popped|, s.seenRead, lag) == |s.slots|
    ensures lag == 0 ==> (ProduceNext(s, lag).producer.Resting? <==> |Contents(s)| == |s.slots|)
  {
    FullTest(|s.slots|, |s.pushed|, Loaded(|s.popped|, s.seenRead, lag));
  }

  /** A pop is refused exactly when the queue was empty by the write_pos_ it saw. */
  lemma PopRefusedIff<T>(s: State<T>, lag: nat)
    requires Inv(s) && Shape(s) && s.consumer.KnowsRead?
    ensures ConsumeNext(s, lag).consumer.Waiting? <==> Loaded(|s.pushed|, s.seenWrite, lag) == |s.popped|
    ensures lag == 0 ==> (ConsumeNext(s, lag).consumer.Waiting? <==> Contents(s) == [])
  {
    EmptyTest(|s.slots|, |s.popped|, Loaded(|s.pushed|, s.seenWrite, lag));
  }
}
