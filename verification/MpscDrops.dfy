/**
 What giving up costs: the drop branch of TryPush first overwrites the payload
 of its slot and only then publishes. This module settles when the payload
 write destroys the event that was in the slot.
 */
module MpscDrops {
  import opened RingIndex
  import opened MpscQueue
  import opened MpscOrder
  import opened MpscHalts
  import opened MpscPassing

  /** Position `k` was popped and gave `event`. */
  ghost predicate Delivered<T>(s: State<T>, k: nat, event: T) {
    k < |s.popped| && s.popped[k] == event
  }

  /** Some continuation delivers `event` at position `k`. */
  ghost predicate CanDeliver<T(!new)>(s: State<T>, k: nat, event: T) {
    exists acts: seq<Action<T>> :: Delivered(Run(s, acts), k, event)
  }

  /** The consumer has copied the payload of position `k` out. */
  predicate InHand<T>(s: State<T>, k: nat) {
    (s.consumer.Copied? || s.consumer.Advanced?) && s.consumer.pos == k
  }

  // ---- A blanked event never comes back ----

  /** No thread can come to write an event into the slot of position `k` any more. */
  ghost predicate NoWriter<T>(producers: seq<Producer<T>>, k: nat, c: nat, sequence: nat)
    requires c > 0
  {
    forall p: nat | p < |producers| && !producers[p].Idle? && Index(producers[p].pos, c) == Index(k, c) ::
      !producers[p].Owner? && (producers[p].Spinning? && producers[p].pos == k ==> sequence != k)
  }

  /** While position `k` is unpopped its slot is blank and stays so. */
  ghost predicate SlotBlanked<T>(s: State<T>, k: nat)
    requires s.slots != [] && k < |s.claims|
  {
    && |s.popped| <= k < |s.popped| + |s.slots|
    && SlotAt(s.slots, k).data == s.blank
    && NoWriter(s.producers, k, |s.slots|, SlotAt(s.slots, k).sequence)
    && (InHand(s, k) ==> s.consumer.out != s.claims[k])
  }

  ghost predicate Blanked<T>(s: State<T>, k: nat) {
    && Order(s) && k < s.writePos && s.claims[k] != s.blank
    && (if k < |s.popped| then s.popped[k] != s.claims[k] else SlotBlanked(s, k))
  }

  /** A thread that finds the slot of window position `k` free is that of `k`. */
  lemma FreeForOne<T>(s: State<T>, p: nat, k: nat)
    requires Order(s) && p < |s.producers| && s.producers[p].Spinning? && |s.popped| <= k < |s.popped| + |s.slots|
    requires Index(s.producers[p].pos, |s.slots|) == Index(k, |s.slots|)
    requires SlotAt(s.slots, s.producers[p].pos).sequence == s.producers[p].pos
    ensures s.producers[p].pos == k
  {
    var pos := s.producers[p].pos;
    if pos < k {
      IndexNear(pos, k, |s.slots|);
    } else if k < pos {
      IndexNear(k, pos, |s.slots|);
    }
  }

  /** A step of a producer of the slot of `k` keeps the slot blank. */
  lemma BlankedSameSlot<T>(s: State<T>, p: nat, k: nat)
    requires Blanked(s, k) && |s.popped| <= k && p < |s.producers| && !s.producers[p].Idle?
    requires Index(s.producers[p].pos, |s.slots|) == Index(k, |s.slots|)
    ensures SlotBlanked(StepProducer(s, p), k)
  {
    var s', pos, c := StepProducer(s, p), s.producers[p].pos, |s.slots|;
    assert forall q: nat | q < |s.producers| && q != p :: s'.producers[q] == s.producers[q];
    SlotBefore(pos, c);
    if s'.producers[p].Owner? {
      FreeForOne(s, p, k);
    }
  }

  lemma BlankedProducer<T>(s: State<T>, p: nat, k: nat)
    requires Blanked(s, k) && |s.popped| <= k && p < |s.producers| && !s.producers[p].Idle?
    ensures SlotBlanked(StepProducer(s, p), k)
  {
    var s' := StepProducer(s, p);
    if Index(s.producers[p].pos, |s.slots|) == Index(k, |s.slots|) {
      BlankedSameSlot(s, p, k);
    } else {
      assert forall q: nat | q < |s.producers| && q != p :: s'.producers[q] == s.producers[q];
      assert SlotAt(s'.slots, k) == SlotAt(s.slots, k);
    }
  }

  lemma BlankedConsumer<T>(s: State<T>, k: nat)
    requires Blanked(s, k)
    ensures Blanked(StepConsumer(s), k)
  {
    OrderStep(s, ConsumerStep);
    if s.consumer.Advanced? && |s.popped| < k {
      IndexNear(|s.popped|, k, |s.slots|);
    }
  }

  lemma BlankedClaim<T>(s: State<T>, p: nat, event: T, bounded: bool, k: nat)
    requires Blanked(s, k)
    ensures Blanked(Step(s, Claim(p, event, bounded)), k)
    ensures Step(s, Claim(p, event, bounded)).claims[k] == s.claims[k]
  {
    var s' := Step(s, Claim(p, event, bounded));
    OrderStep(s, Claim(p, event, bounded));
    assert s'.slots == s.slots && s'.consumer == s.consumer && s'.popped == s.popped;
  }

  lemma BlankedStep<T>(s: State<T>, a: Action<T>, k: nat)
    requires Blanked(s, k)
    ensures Blanked(Step(s, a), k) && Step(s, a).claims[k] == s.claims[k]
  {
    match a
    case Claim(p, event, bounded) => BlankedClaim(s, p, event, bounded, k);
    case ConsumerStep => BlankedConsumer(s, k);
    case ProducerStep(p) =>
      OrderStep(s, a);
      if p < |s.producers| && !s.producers[p].Idle? && |s.popped| <= k {
        BlankedProducer(s, p, k);
      }
  }

  lemma {:induction false} BlankedForever<T>(s: State<T>, acts: seq<Action<T>>, k: nat)
    requires Blanked(s, k)
    ensures !Delivered(Run(s, acts), k, s.claims[k])
    decreases |acts|
  {
    if acts != [] {
      BlankedStep(s, acts[0], k);
      BlankedForever(Step(s, acts[0]), acts[1..], k);
    }
  }

  // ---- An event still in hand gets through ----

  /** The next pop gives `event`: the consumer has it, or will copy it. */
  ghost predicate Next<T>(s: State<T>, event: T) {
    && Order(s)
    && match s.consumer
       case AtCheck => Published(s.slots, |s.popped|) && SlotAt(s.slots, |s.popped|).data == event
       case Matched(_) => SlotAt(s.slots, |s.popped|).data == event
       case Copied(_, out) => out == event
       case Advanced(_, out) => out == event
  }

  lemma {:induction false} NextDelivered<T>(s: State<T>, event: T) returns (acts: seq<Action<T>>)
    requires Next(s, event)
    ensures Delivered(Run(s, acts), |s.popped|, event)
    decreases match s.consumer case AtCheck => 3 case Matched(_) => 2 case Copied(_, _) => 1 case Advanced(_, _) => 0
  {
    var a := Action<T>.ConsumerStep;
    OrderStep(s, a);
    if s.consumer.Advanced? {
      acts := [];
    } else {
      acts := NextDelivered(Step(s, a), event);
    }
    RunCons(s, a, acts);
    acts := [a] + acts;
  }

  /** Position `k` is published with `event`, and the consumer has not taken anything else for it. */
  ghost predicate Ready<T>(s: State<T>, k: nat, event: T) {
    && Order(s) && |s.popped| <= k < |s.popped| + |s.slots| && Published(s.slots, k)
    && (if InHand(s, k) then s.consumer.out == event else SlotAt(s.slots, k).data == event)
  }

  /** If nothing before it is impassable, some continuation delivers the event: pop everything before it, then it. */
  lemma ReadyDelivers<T>(s: State<T>, k: nat, event: T) returns (acts: seq<Action<T>>)
    requires Ready(s, k, event) && WayTo(s, k)
    ensures Delivered(Run(s, acts), k, event)
  {
    var way := PassTo(s, k);
    var last := NextDelivered(Run(s, way), event);
    RunAppend(s, way, last);
    acts := way + last;
  }

  /** The pushing thread of position `k` has written its event, or can still come to write it. */
  ghost predicate Pending<T>(s: State<T>, q: nat, k: nat, event: T) {
    && Order(s) && |s.popped| <= k < |s.popped| + |s.slots| && Holds(s.producers, q, k)
    && match s.producers[q]
       case Spinning(_, e, _, _) => e == event && SlotAt(s.slots, k).sequence == k
       case Owner(_, e) => e == event
       case Written(_) => SlotAt(s.slots, k).data == event
       case _ => false
  }

  lemma PendingStep<T>(s: State<T>, q: nat, k: nat, event: T)
    requires Pending(s, q, k, event) && WayTo(s, k)
    ensures var s' := StepProducer(s, q);
            && s'.slots != [] && WayTo(s', k)
            && if s.producers[q].Written? then Ready(s', k, event) else Pending(s', q, k, event)
  {
    OrderStep(s, ProducerStep(q));
    forall i: nat | |s.popped| <= i < k
      ensures Passable(StepProducer(s, q), i)
    {
      WindowSpares(s, q, i);
    }
  }

  lemma {:induction false} PendingDelivers<T>(s: State<T>, q: nat, k: nat, event: T) returns (acts: seq<Action<T>>)
    requires Pending(s, q, k, event) && WayTo(s, k)
    ensures Delivered(Run(s, acts), k, event)
    decreases StepsToPublish(s.producers[q])
  {
    var a := Action<T>.ProducerStep(q);
    PendingStep(s, q, k, event);
    if s.producers[q].Written? {
      acts := ReadyDelivers(Step(s, a), k, event);
    } else {
      acts := PendingDelivers(Step(s, a), q, k, event);
    }
    RunCons(s, a, acts);
    acts := [a] + acts;
  }

  // ---- Main results: what the payload write costs ----

  /** A pushing thread still has the event it claimed its position for. */
  ghost predicate EventsKept<T>(s: State<T>) {
    forall p: nat | p < |s.producers| && (s.producers[p].Spinning? || s.producers[p].Owner?) ::
      s.producers[p].pos < |s.claims| && s.producers[p].event == s.claims[s.producers[p].pos]
  }

  lemma EventsKeptStep<T>(s: State<T>, a: Action<T>)
    requires EventsKept(s) && s.writePos == |s.claims|
    ensures EventsKept(Step(s, a)) && Step(s, a).writePos == |Step(s, a).claims|
  {
  }

  lemma {:induction false} EventsKeptRun<T>(s: State<T>, acts: seq<Action<T>>)
    requires EventsKept(s) && s.writePos == |s.claims|
    ensures EventsKept(Run(s, acts))
    decreases |acts|
  {
    if acts != [] {
      EventsKeptStep(s, acts[0]);
      EventsKeptRun(Step(s, acts[0]), acts[1..]);
    }
  }

  /** A drop about to write the slot of the earlier window position `k`. */
  ghost predicate DropsOver<T>(s: State<T>, p: nat, k: nat) {
    && Order(s) && EventsKept(s) && p < |s.producers| && s.producers[p].Dropping?
    && |s.popped| <= k < |s.popped| + |s.slots| && k < s.producers[p].pos
    && Index(k, |s.slots|) == Index(s.producers[p].pos, |s.slots|)
  }

  /** The thread that claimed position `k` has not written its event yet. */
  ghost predicate StillPushing<T>(s: State<T>, k: nat) {
    exists q: nat | Holds(s.producers, q, k) :: s.producers[q].Spinning? || s.producers[q].Owner?
  }

  /** It also has the slot, or finds it free. */
  ghost predicate CanWrite<T>(s: State<T>, k: nat)
    requires s.slots != []
  {
    exists q: nat | Holds(s.producers, q, k) ::
      s.producers[q].Owner? || (s.producers[q].Spinning? && SlotAt(s.slots, k).sequence == k)
  }

  /** The event of position `k` has been copied out by the consumer. */
  ghost predicate Taken<T>(s: State<T>, k: nat)
    requires k < |s.claims|
  {
    InHand(s, k) && s.consumer.out == s.claims[k]
  }

  lemma DropWrites<T>(s: State<T>, p: nat, k: nat)
    requires DropsOver(s, p, k)
    ensures var r := StepProducer(s, p);
            && Order(r) && r.claims == s.claims && r.consumer == s.consumer && r.popped == s.popped
            && SlotAt(r.slots, k) == SlotAt(s.slots, k).(data := s.blank)
            && |r.producers| == |s.producers| && r.producers[p] == DropWritten(s.producers[p].pos)
            && forall q: nat | q < |s.producers| && q != p :: r.producers[q] == s.producers[q]
  {
    OrderStep(s, ProducerStep(p));
  }

  /** The payload write moves no sequence, so it opens and closes no way. */
  lemma DropKeepsWay<T>(s: State<T>, p: nat, k: nat)
    requires DropsOver(s, p, k)
    ensures StepProducer(s, p).slots != [] && (WayTo(s, k) <==> WayTo(StepProducer(s, p), k))
  {
    var r := StepProducer(s, p);
    DropWrites(s, p, k);
    SameSequences(s.slots, r.slots);
    forall i: nat | |s.popped| <= i < k
      ensures Passable(s, i) <==> Passable(r, i)
    {
      assert forall q: nat :: Holds(s.producers, q, i) <==> Holds(r.producers, q, i);
    }
  }

  /** Once blank, an event that was nowhere else is gone. */
  lemma DropBlanks<T>(s: State<T>, p: nat, k: nat)
    requires DropsOver(s, p, k) && s.claims[k] != s.blank && !CanWrite(s, k) && !Taken(s, k)
    ensures Blanked(StepProducer(s, p), k)
  {
    DropWrites(s, p, k);
    var r, c := StepProducer(s, p), |s.slots|;
    forall q: nat | q < |r.producers| && !r.producers[q].Idle? && Index(r.producers[q].pos, c) == Index(k, c)
      ensures !r.producers[q].Owner?
      ensures r.producers[q].Spinning? && r.producers[q].pos == k ==> SlotAt(s.slots, k).sequence != k
    {
      if r.producers[q].Owner? {
        WindowIndices(|s.popped|, c);
      }
      assert Holds(r.producers, q, k) ==> Holds(s.producers, q, k);
    }
  }

  lemma SurvivorDelivered<T>(s: State<T>, p: nat, k: nat) returns (acts: seq<Action<T>>)
    requires DropsOver(s, p, k) && WayTo(s, k) && (CanWrite(s, k) || Taken(s, k))
    ensures Delivered(Run(StepProducer(s, p), acts), k, s.claims[k])
  {
    var r := StepProducer(s, p);
    DropWrites(s, p, k);
    DropKeepsWay(s, p, k);
    if CanWrite(s, k) {
      var q: nat :| Holds(s.producers, q, k)
                    && (s.producers[q].Owner? || (s.producers[q].Spinning? && SlotAt(s.slots, k).sequence == k));
      assert q != p;
      acts := PendingDelivers(r, q, k, s.claims[k]);
    } else {
      acts := NextDelivered(r, s.claims[k]);
    }
  }

  lemma LostForever<T>(s: State<T>, p: nat, k: nat, acts: seq<Action<T>>)
    requires DropsOver(s, p, k) && s.claims[k] != s.blank && !(WayTo(s, k) && (CanWrite(s, k) || Taken(s, k)))
    ensures !Delivered(Run(StepProducer(s, p), acts), k, s.claims[k])
  {
    var r := StepProducer(s, p);
    DropWrites(s, p, k);
    DropKeepsWay(s, p, k);
    if WayTo(s, k) {
      DropBlanks(s, p, k);
      BlankedForever(r, acts, k);
    } else {
      var i: nat :| |s.popped| <= i < k && !Passable(r, i);
      ImpassableForever(r, acts, i);
    }
  }

  lemma SurvivesIff<T(!new)>(s: State<T>, p: nat, k: nat)
    requires DropsOver(s, p, k) && s.claims[k] != s.blank
    ensures CanDeliver(StepProducer(s, p), k, s.claims[k]) <==> WayTo(s, k) && (CanWrite(s, k) || Taken(s, k))
  {
    if WayTo(s, k) && (CanWrite(s, k) || Taken(s, k)) {
      var acts := SurvivorDelivered(s, p, k);
      assert CanDeliver(StepProducer(s, p), k, s.claims[k]);
    } else {
      forall acts
        ensures !Delivered(Run(StepProducer(s, p), acts), k, s.claims[k])
      {
        LostForever(s, p, k, acts);
      }
    }
  }

  /** In an intact ring nothing is impassable, and a thread still pushing a window position finds its slot free. */
  lemma IntactWay<T>(s: State<T>, k: nat)
    requires Structure(s) && |s.popped| <= k < |s.popped| + |s.slots| && k < s.writePos
    ensures WayTo(s, k) && (CanWrite(s, k) <==> StillPushing(s, k))
  {
    forall i: nat | |s.popped| <= i < k
      ensures Passable(s, i)
    {
      if !Published(s.slots, i) {
        var p: nat :| p < |s.producers| && Holds(s.producers, p, i);
        assert !Starved(s, s.producers[p]);
      }
    }
    if StillPushing(s, k) {
      assert SlotAt(s.slots, k).sequence == k;
    }
  }

  /**
   Exactly when the payload write of a drop costs an event, for every drop of every run: after it writes the slot of an
   earlier position `k`, some continuation still delivers the event claimed at `k` if and only if nothing before `k` is
   impassable and the event is elsewhere too, with its pushing thread, which has the slot or finds it free, or copied
   out by the consumer. Up to the first publish over a busy slot the pushing thread is sure to find it free.
   */
  lemma EventSurvivesDropIff<T(!new)>(capacity: nat, threads: nat, blank: T, acts: seq<Action<T>>, p: nat, k: nat)
    requires capacity >= 2
    requires var s := Run(Init(capacity, threads, blank), acts);
             && p < |s.producers| && s.producers[p].Dropping?
             && |s.slots| > 0 && |s.popped| <= k < |s.popped| + |s.slots| && k < s.producers[p].pos
             && Index(k, |s.slots|) == Index(s.producers[p].pos, |s.slots|)
             && k < |s.claims| && s.claims[k] != s.blank
    ensures var s := Run(Init(capacity, threads, blank), acts);
            var survives := CanDeliver(Step(s, ProducerStep(p)), k, s.claims[k]);
            && (survives <==> WayTo(s, k) && (CanWrite(s, k) || Taken(s, k)))
            && (ClobberFree(Init(capacity, threads, blank), acts) ==>
                  (survives <==> StillPushing(s, k) || Taken(s, k)))
  {
    var s0 := Init(capacity, threads, blank);
    var s := Run(s0, acts);
    OrderInit(capacity, threads, blank);
    OrderRun(s0, acts);
    EventsKeptRun(s0, acts);
    SurvivesIff(s, p, k);
    if ClobberFree(s0, acts) {
      StructureInit(capacity, threads, blank);
      RunStructure(s0, acts);
      IntactWay(s, k);
    }
  }

  // ---- A drop that publishes on time and still destroys an event ----

  /** TryPush gives up on a full ring and has written its payload; the consumer then pops before it publishes. */
  function EraseActs<T>(event: T): seq<Action<T>> {
    ([Claim(0, event, true)] + Repeat(ProducerStep(0), GIVE_UP)) + ([ProducerStep(0)] + Repeat(ConsumerStep, 4))
  }

  /** The payload write, on a full ring. */
  lemma PayloadWritten<T>(s: State<T>, event: T)
    requires Unread(s, |s.slots|)
    ensures var r := Step(Run(s, [Claim(0, event, true)] + Repeat(ProducerStep(0), GIVE_UP)), ProducerStep(0));
            && Structure(r) && |r.slots| == |s.slots| && r.claims == s.claims + [event] && r.blank == s.blank
            && r.popped == [] && r.consumer.AtCheck? && Published(r.slots, 0) && SlotAt(r.slots, 0).data == s.blank
            && r.producers != [] && r.producers[0] == DropWritten(|s.slots|)
  {
    SpinOutOnFull(s, event);
    var d := Run(s, [Claim(0, event, true)] + Repeat(ProducerStep(0), GIVE_UP));
    assert Index(0, |s.slots|) == Index(|s.slots|, |s.slots|);
    StructureStep(d, ProducerStep(0));
  }

  lemma PopOldest<T>(s: State<T>)
    requires Structure(s) && s.popped == [] && s.consumer.AtCheck? && Published(s.slots, 0)
    ensures var r := Run(s, Repeat(ConsumerStep, 4));
            && Structure(r) && r.popped == [SlotAt(s.slots, 0).data] && |r.slots| == |s.slots|
            && r.producers == s.producers && r.claims == s.claims
            && SlotAt(r.slots, |s.slots|).sequence == |s.slots|
  {
    var a, c := Action<T>.ConsumerStep, |s.slots|;
    RunFour(s, Repeat(a, 4));
    StructureStep(s, a);
    var s1 := Step(s, a);
    StructureStep(s1, a);
    var s2 := Step(s1, a);
    StructureStep(s2, a);
    StructureStep(Step(s2, a), a);
    assert Index(0, c) == Index(c, c);
  }

  /**
   The drop's slot has been freed when it comes to publish, so it does not halt the consumer; yet the oldest
   event of the ring came out blank.
   */
  lemma DropErasesUnreadEvent<T>(capacity: nat, threads: nat, blank: T, events: seq<T>, extra: T)
    requires capacity >= 2 && threads >= 1 && |events| == capacity
    ensures var s := Run(Init(capacity, threads, blank), PushAll(events) + EraseActs(extra));
            && Structure(s) && s.producers != [] && s.producers[0] == DropWritten(capacity)
            && SlotAt(s.slots, capacity).sequence == capacity
            && s.claims == events + [extra] && s.popped == [blank]
  {
    var s0 := Init(capacity, threads, blank);
    StructureInit(capacity, threads, blank);
    PushMany(s0, events);
    var full := Run(s0, PushAll(events));
    var spin := [Claim(0, extra, true)] + Repeat(ProducerStep(0), GIVE_UP);
    var rest := [ProducerStep(0)] + Repeat(ConsumerStep, 4);
    PayloadWritten(full, extra);
    PopOldest(Step(Run(full, spin), ProducerStep(0)));
    RunCons(Run(full, spin), ProducerStep(0), Repeat(ConsumerStep, 4));
    RunAppend(full, spin, rest);
    RunAppend(s0, PushAll(events), EraseActs(extra));
  }
}
