/**
 What every step of the multi-producer ring keeps, publishes over busy slots
 included: positions are popped in order, held by at most one producer and
 published by that one only.
 */
module MpscOrder {
  import opened RingIndex
  import opened MpscQueue

  predicate ConsumerCounts<T>(s: State<T>) {
    if s.consumer.AtCheck? then s.readPos == |s.popped|
    else s.consumer.pos == |s.popped| && s.readPos == |s.popped| + (if s.consumer.Advanced? then 1 else 0)
  }

  /** The consumer is between its check and its free of position `k`. */
  predicate Popping<T>(s: State<T>, k: nat) {
    !s.consumer.AtCheck? && s.consumer.pos == k
  }

  /** A held position is claimed, unpublished and unpopped; that of a thread that writes an event is in the window. */
  ghost predicate HeldInOrder<T>(slots: seq<Slot<T>>, producers: seq<Producer<T>>, h: nat, w: nat)
    requires slots != []
  {
    forall p: nat | p < |producers| && !producers[p].Idle? ::
      && h <= producers[p].pos < w
      && !Published(slots, producers[p].pos)
      && (producers[p].Owner? || producers[p].Written? ==> producers[p].pos < h + |slots|)
  }

  ghost predicate PublishedInOrder<T>(slots: seq<Slot<T>>, h: nat, w: nat)
    requires slots != []
  {
    forall i: nat | Published(slots, i) :: h <= i < w
  }

  /** A slot is free for no position beyond the window. */
  ghost predicate FreedInOrder<T>(slots: seq<Slot<T>>, h: nat)
    requires slots != []
  {
    forall i: nat | SlotAt(slots, i).sequence == i :: i < h + |slots|
  }

  ghost predicate Order<T>(s: State<T>) {
    && |s.slots| >= 2
    && |s.popped| <= s.writePos == |s.claims|
    && ConsumerCounts(s)
    && DistinctClaims(s.producers)
    && HeldInOrder(s.slots, s.producers, |s.popped|, s.writePos)
    && PublishedInOrder(s.slots, |s.popped|, s.writePos)
    && FreedInOrder(s.slots, |s.popped|)
    && (!s.consumer.AtCheck? ==> |s.popped| < s.writePos && !Held(s.producers, |s.popped|))
  }

  lemma OrderInit<T>(capacity: nat, threads: nat, blank: T)
    requires capacity >= 2
    ensures Order(Init(capacity, threads, blank))
  {
    var s := Init(capacity, threads, blank);
    forall i: nat
      ensures !Published(s.slots, i)
    {
      SlotBefore(i, capacity);
    }
    forall i: nat | SlotAt(s.slots, i).sequence == i
      ensures i < capacity
    {
    }
  }

  /** No position has its successor's number for slot. */
  lemma SlotBefore(i: nat, c: nat)
    requires c >= 2
    ensures Index(i, c) != Index(i + 1, c) && Index(i, c) != i + 1
  {
    IndexNear(i, i + 1, c);
  }

  lemma OrderClaim<T>(s: State<T>, p: nat, event: T, bounded: bool)
    requires Order(s)
    ensures Order(Step(s, Claim(p, event, bounded)))
  {
    var s' := Step(s, Claim(p, event, bounded));
    if p < |s.producers| && s.producers[p].Idle? {
      forall q: nat | q < |s.producers| && !s.consumer.AtCheck?
        ensures !Holds(s'.producers, q, |s.popped|)
      {
        assert !Holds(s.producers, q, |s.popped|);
      }
    }
  }

  /** A thread that moves on with its position leaves the others, and who holds what, as they were. */
  lemma ProducerInOrder<T>(s: State<T>, p: nat, pc: Producer<T>)
    requires Order(s) && p < |s.producers| && !s.producers[p].Idle?
    requires pc.Idle? || (pc.pos == s.producers[p].pos
                          && (pc.Owner? || pc.Written? ==> pc.pos < |s.popped| + |s.slots|))
    ensures Order(SetProducer(s, p, pc))
  {
    var s' := SetProducer(s, p, pc);
    forall q: nat | q < |s.producers| && !s.consumer.AtCheck?
      ensures !Holds(s'.producers, q, |s.popped|)
    {
      assert !Holds(s.producers, q, |s.popped|);
    }
  }

  lemma OrderLocal<T>(s: State<T>, p: nat)
    requires Order(s) && p < |s.producers|
    requires s.producers[p].Spinning? || s.producers[p].Owner? || s.producers[p].Dropping?
    ensures Order(StepProducer(s, p))
  {
    var s' := StepProducer(s, p);
    ProducerInOrder(s, p, s'.producers[p]);
    assert s'.producers == s.producers[p := s'.producers[p]];
    SameSequences(s.slots, s'.slots);
  }

  /** What a publish of `pos` does to the sequences. */
  lemma PublishOne<T>(slots: seq<Slot<T>>, pos: nat, slot: Slot<T>, slots': seq<Slot<T>>, i: nat)
    requires |slots| >= 2 && slot.sequence == pos + 1 && slots' == slots[Index(pos, |slots|) := slot]
    ensures Published(slots', i) ==> i == pos || Published(slots, i)
    ensures Published(slots', pos)
    ensures SlotAt(slots', i).sequence == i ==> SlotAt(slots, i).sequence == i
  {
    SlotBefore(pos, |slots|);
  }

  lemma OrderPublish<T>(s: State<T>, p: nat)
    requires Order(s) && p < |s.producers| && (s.producers[p].Written? || s.producers[p].DropWritten?)
    ensures Order(StepProducer(s, p))
  {
    var s', pos := StepProducer(s, p), s.producers[p].pos;
    ProducerInOrder(s, p, Idle);
    forall i: nat
      ensures Published(s'.slots, i) ==> i == pos || Published(s.slots, i)
      ensures SlotAt(s'.slots, i).sequence == i ==> SlotAt(s.slots, i).sequence == i
    {
      PublishOne(s.slots, pos, SlotAt(s.slots, pos).(sequence := pos + 1), s'.slots, i);
    }
    assert s'.producers == s.producers[p := Idle];
    assert HeldInOrder(s'.slots, s'.producers, |s.popped|, s.writePos);
  }

  /** What the free of position `h` does to the sequences. */
  lemma FreeOne<T>(slots: seq<Slot<T>>, h: nat, slot: Slot<T>, slots': seq<Slot<T>>, i: nat)
    requires |slots| >= 2 && slot.sequence == h + |slots| && slots' == slots[Index(h, |slots|) := slot]
    ensures Published(slots', i) ==> Published(slots, i) && Index(i, |slots|) != Index(h, |slots|)
    ensures SlotAt(slots', i).sequence == i ==> i == h + |slots| || SlotAt(slots, i).sequence == i
    ensures h < i < h + |slots| ==> SlotAt(slots', i) == SlotAt(slots, i)
    ensures SlotAt(slots', h + |slots|) == slot
  {
    var c := |slots|;
    assert Index(h + c, c) == Index(h, c);
    SlotBefore(h + c - 1, c);
    if h < i < h + c {
      IndexNear(h, i, c);
    }
  }

  lemma OrderConsumer<T>(s: State<T>)
    requires Order(s)
    ensures Order(StepConsumer(s))
  {
    var s', h := StepConsumer(s), |s.popped|;
    if s.consumer.Advanced? {
      forall i: nat
        ensures Published(s'.slots, i) ==> Published(s.slots, i) && i != h
        ensures SlotAt(s'.slots, i).sequence == i ==> i == h + |s.slots| || SlotAt(s.slots, i).sequence == i
      {
        FreeOne(s.slots, h, SlotAt(s.slots, h).(sequence := h + |s.slots|), s'.slots, i);
      }
      forall p: nat | p < |s.producers| && !s.producers[p].Idle?
        ensures h + 1 <= s.producers[p].pos
      {
        assert !Holds(s.producers, p, h);
      }
    } else if s.consumer.AtCheck? && Published(s.slots, h) {
      assert !Held(s.producers, h);
    }
  }

  lemma OrderStep<T>(s: State<T>, a: Action<T>)
    requires Order(s)
    ensures Order(Step(s, a))
  {
    match a
    case Claim(p, event, bounded) => OrderClaim(s, p, event, bounded);
    case ConsumerStep => OrderConsumer(s);
    case ProducerStep(p) =>
      if p < |s.producers| && !s.producers[p].Idle? {
        if s.producers[p].Written? || s.producers[p].DropWritten? {
          OrderPublish(s, p);
        } else {
          OrderLocal(s, p);
        }
      }
  }

  lemma {:induction false} OrderRun<T>(s: State<T>, acts: seq<Action<T>>)
    requires Order(s)
    ensures Order(Run(s, acts))
    decreases |acts|
  {
    if acts != [] {
      OrderStep(s, acts[0]);
      OrderRun(Step(s, acts[0]), acts[1..]);
    }
  }

  // ---- The intact ring ----

  /** The sequence of any slot is that of a position of the window, or one more. */
  lemma {:induction false} WindowSequence<T>(slots: seq<Slot<T>>, h: nat, w: nat, i: nat) returns (j: nat)
    requires |slots| >= 2 && WindowOk(slots, h, w)
    ensures h <= j < h + |slots| && Index(j, |slots|) == Index(i, |slots|)
    ensures SlotAt(slots, i).sequence == j || (SlotAt(slots, i).sequence == j + 1 && j < w)
    decreases if i < h then h - i else 0
  {
    j := i;
    if i < h {
      j := WindowSequence(slots, h, w, i + |slots|);
    } else if h + |slots| <= i {
      j := Representative(h, i, |slots|);
    }
    assert SlotAt(slots, j) == SlotAt(slots, i);
  }

  /** A ring without a publish over a busy slot behind it is in order. */
  lemma StructureInOrder<T>(s: State<T>)
    requires Structure(s)
    ensures Order(s)
  {
    var h, w := |s.popped|, s.writePos;
    forall i: nat
      ensures Published(s.slots, i) ==> h <= i < w && i < h + |s.slots|
      ensures SlotAt(s.slots, i).sequence == i ==> i < h + |s.slots|
    {
      var j := WindowSequence(s.slots, h, w, i);
      SlotBefore(i, |s.slots|);
      SlotBefore(j, |s.slots|);
    }
  }
}
