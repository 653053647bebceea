/**
 When the consumer of src/exchange/rithmic/rithmic_queue.h stops: what a drop
 published over a slot still in use does, that nothing else stops it, and the
 cases of a full ring and of a ring of one slot.
 */
module MpscHalts {
  import opened RingIndex
  import opened MpscQueue
  import opened MpscOrder

  // ---- Main results: what a drop on a slot still in use does ----

  /** Position `pos` can never be popped: nobody will publish it again before its turn comes. */
  ghost predicate Dead<T>(s: State<T>, pos: nat) {
    && |s.slots| >= 2
    && |s.popped| <= pos < s.writePos
    && !Held(s.producers, pos)
    && (SlotAt(s.slots, pos).sequence == pos + 1 ==> |s.popped| + |s.slots| <= pos)
    && ConsumerCounts(s)
    && (!s.consumer.AtCheck? ==> |s.popped| < pos)
  }

  /** The consumer waits at `k` for a sequence number its slot has already passed. */
  ghost predicate Stuck<T>(s: State<T>, k: nat) {
    && |s.slots| >= 2
    && |s.popped| <= k < |s.popped| + |s.slots|
    && k < s.writePos
    && k + 1 < SlotAt(s.slots, k).sequence
    && (forall p: nat | p < |s.producers| && !s.producers[p].Idle? ::
          Index(s.producers[p].pos, |s.slots|) == Index(k, |s.slots|) ==> k < s.producers[p].pos)
    && ConsumerCounts(s)
    && (!s.consumer.AtCheck? ==> |s.popped| < k)
  }

  lemma DeadProducerStep<T>(s: State<T>, p: nat, pos: nat)
    requires Dead(s, pos) && p < |s.producers|
    ensures Dead(StepProducer(s, p), pos)
  {
    var s' := StepProducer(s, p);
    assert !Holds(s.producers, p, pos);
    forall q: nat | q < |s'.producers|
      ensures !Holds(s'.producers, q, pos)
    {
      assert !Holds(s.producers, q, pos);
    }
    assert SlotAt(s'.slots, pos).sequence == SlotAt(s.slots, pos).sequence
           || SlotAt(s'.slots, pos).sequence != pos + 1;
  }

  lemma DeadConsumerStep<T>(s: State<T>, pos: nat)
    requires Dead(s, pos)
    ensures Dead(StepConsumer(s), pos)
  {
    if s.consumer.Advanced? {
      var h, c := |s.popped|, |s.slots|;
      assert h + c == pos ==> Index(h, c) == Index(pos, c);
      if h + c == pos + 1 {
        IndexNear(h, pos, c);
      }
    }
  }

  lemma DeadStep<T>(s: State<T>, a: Action<T>, pos: nat)
    requires Dead(s, pos)
    ensures Dead(Step(s, a), pos)
  {
    match a
    case ProducerStep(p) => if p < |s.producers| { DeadProducerStep(s, p, pos); }
    case ConsumerStep => DeadConsumerStep(s, pos);
    case Claim(p, _, _) =>
      var s' := Step(s, a);
      forall q: nat | q < |s'.producers|
        ensures !Holds(s'.producers, q, pos)
      {
        assert !Holds(s.producers, q, pos);
      }
  }

  lemma StuckProducerStep<T>(s: State<T>, p: nat, k: nat)
    requires Stuck(s, k) && p < |s.producers|
    ensures Stuck(StepProducer(s, p), k)
  {
    var s' := StepProducer(s, p);
    assert forall q: nat | q < |s.producers| && q != p :: s'.producers[q] == s.producers[q];
    assert s'.consumer == s.consumer && s'.popped == s.popped && s'.readPos == s.readPos;
    if !s.producers[p].Idle? {
      var pos := s.producers[p].pos;
      assert Index(pos, |s.slots|) == Index(k, |s.slots|) ==> k < pos;
      assert s'.producers[p].Idle? || s'.producers[p].pos == pos;
      assert SlotAt(s'.slots, k).sequence == SlotAt(s.slots, k).sequence
             || (Index(pos, |s.slots|) == Index(k, |s.slots|) && SlotAt(s'.slots, k).sequence == pos + 1);
    }
  }

  lemma StuckConsumerStep<T>(s: State<T>, k: nat)
    requires Stuck(s, k)
    ensures Stuck(StepConsumer(s), k)
  {
    if s.consumer.Advanced? {
      IndexNear(|s.popped|, k, |s.slots|);
    }
  }

  lemma StuckStep<T>(s: State<T>, a: Action<T>, k: nat)
    requires Stuck(s, k)
    ensures Stuck(Step(s, a), k)
  {
    match a
    case Claim(_, _, _) =>
    case ProducerStep(p) => if p < |s.producers| { StuckProducerStep(s, p, k); }
    case ConsumerStep => StuckConsumerStep(s, k);
  }

  lemma {:induction false} DeadForever<T>(s: State<T>, acts: seq<Action<T>>, pos: nat)
    requires Dead(s, pos)
    ensures |Run(s, acts).popped| <= pos
    decreases |acts|
  {
    if acts != [] {
      DeadStep(s, acts[0], pos);
      DeadForever(Step(s, acts[0]), acts[1..], pos);
    }
  }

  lemma {:induction false} StuckForever<T>(s: State<T>, acts: seq<Action<T>>, k: nat)
    requires Stuck(s, k)
    ensures |Run(s, acts).popped| <= k
    decreases |acts|
  {
    if acts != [] {
      StuckStep(s, acts[0], k);
      StuckForever(Step(s, acts[0]), acts[1..], k);
    }
  }

  /** A drop published beyond the window is dead: its slot is freed for another position first. */
  lemma LateDropKills<T>(s: State<T>, p: nat)
    requires Order(s) && p < |s.producers| && s.producers[p].DropWritten?
    requires |s.popped| + |s.slots| <= s.producers[p].pos
    ensures Dead(StepProducer(s, p), s.producers[p].pos)
  {
    var s', pos := StepProducer(s, p), s.producers[p].pos;
    forall q: nat | q < |s'.producers|
      ensures !Holds(s'.producers, q, pos)
    {
    }
  }

  /** A drop about to be published over the unread position `k`. */
  ghost predicate DropsOnto<T>(s: State<T>, p: nat, k: nat) {
    && s.slots != [] && p < |s.producers| && s.producers[p].DropWritten?
    && k < s.producers[p].pos && Index(k, |s.slots|) == Index(s.producers[p].pos, |s.slots|)
    && Published(s.slots, k) && !Popping(s, k)
  }

  lemma DropSticks<T>(s: State<T>, p: nat, k: nat)
    requires Order(s) && DropsOnto(s, p, k) && k < |s.popped| + |s.slots|
    ensures Stuck(StepProducer(s, p), k)
  {
    var s', c := StepProducer(s, p), |s.slots|;
    forall q: nat | q < |s'.producers| && !s'.producers[q].Idle? && Index(s'.producers[q].pos, c) == Index(k, c)
      ensures k < s'.producers[q].pos
    {
      var pos := s'.producers[q].pos;
      assert s'.producers[q] == s.producers[q] && pos != k;
      if pos < k {
        IndexNear(pos, k, c);
      }
    }
  }

  lemma DropKillsUnder<T>(s: State<T>, p: nat, k: nat)
    requires Order(s) && DropsOnto(s, p, k) && |s.popped| + |s.slots| <= k
    ensures Dead(StepProducer(s, p), k)
  {
    var s' := StepProducer(s, p);
    forall q: nat | q < |s'.producers|
      ensures !Holds(s'.producers, q, k)
    {
    }
  }

  /** In an intact ring a slot that is not free for a claimed position is one of an earlier lap. */
  lemma ClobbersBeyond<T>(s: State<T>, a: Action<T>)
    requires Structure(s) && Clobbers(s, a)
    ensures |s.popped| + |s.slots| <= s.producers[a.p].pos
  {
  }

  predicate ClobberFree<T>(s: State<T>, acts: seq<Action<T>>)
    decreases |acts|
  {
    acts == [] || (!Clobbers(s, acts[0]) && ClobberFree(Step(s, acts[0]), acts[1..]))
  }

  lemma {:induction false} RunStructure<T>(s: State<T>, acts: seq<Action<T>>)
    requires Structure(s) && ClobberFree(s, acts)
    ensures Structure(Run(s, acts))
    decreases |acts|
  {
    if acts != [] {
      StructureStep(s, acts[0]);
      RunStructure(Step(s, acts[0]), acts[1..]);
    }
  }

  /**
   A drop published too early stops the consumer for good, in every run, whatever drops came before it and whatever
   happens afterwards. Published before its slot's last lap is freed, it is never popped; and if an earlier position
   `k` of its slot was published and not being popped, neither that position nor any later one ever is. In an intact
   ring every drop over a busy slot is too early.
   */
  lemma DropOnBusySlotHalts<T>(capacity: nat, threads: nat, blank: T, before: seq<Action<T>>, p: nat,
                               after: seq<Action<T>>, k: nat)
    requires capacity >= 2
    requires var s := Run(Init(capacity, threads, blank), before); p < |s.producers| && s.producers[p].DropWritten?
    ensures var s := Run(Init(capacity, threads, blank), before);
            var pos, end := s.producers[p].pos, Run(Step(s, ProducerStep(p)), after);
            && s.slots != []
            && (|s.popped| + |s.slots| <= pos ==> |end.popped| <= pos)
            && (k < pos && Index(k, |s.slots|) == Index(pos, |s.slots|) && Published(s.slots, k) && !Popping(s, k)
                ==> |end.popped| <= k)
            && (ClobberFree(Init(capacity, threads, blank), before) && SlotAt(s.slots, pos).sequence != pos
                ==> |s.popped| + |s.slots| <= pos)
  {
    var s0 := Init(capacity, threads, blank);
    OrderInit(capacity, threads, blank);
    OrderRun(s0, before);
    var s := Run(s0, before);
    var pos, next := s.producers[p].pos, StepProducer(s, p);
    if |s.popped| + |s.slots| <= pos {
      LateDropKills(s, p);
      DeadForever(next, after, pos);
    }
    if DropsOnto(s, p, k) {
      OntoHalts(s, p, after, k);
    }
    if ClobberFree(s0, before) && SlotAt(s.slots, pos).sequence != pos {
      StructureInit(capacity, threads, blank);
      RunStructure(s0, before);
      ClobbersBeyond(s, ProducerStep(p));
    }
  }

  lemma OntoHalts<T>(s: State<T>, p: nat, after: seq<Action<T>>, k: nat)
    requires Order(s) && DropsOnto(s, p, k)
    ensures |Run(StepProducer(s, p), after).popped| <= k
  {
    if k < |s.popped| + |s.slots| {
      DropSticks(s, p, k);
      StuckForever(StepProducer(s, p), after, k);
    } else {
      DropKillsUnder(s, p, k);
      DeadForever(StepProducer(s, p), after, k);
    }
  }

  // ---- Main results: no deadlock while drops land on freed slots ----

  function Repeat<T>(a: Action<T>, n: nat): (r: seq<Action<T>>)
    ensures |r| == n
  {
    seq(n, _ => a)
  }

  lemma RunCons<T>(s: State<T>, a: Action<T>, rest: seq<Action<T>>)
    ensures Run(s, [a] + rest) == Run(Step(s, a), rest)
    ensures ClobberFree(s, [a] + rest) <==> !Clobbers(s, a) && ClobberFree(Step(s, a), rest)
  {
    assert ([a] + rest)[1..] == rest;
  }

  /** Steps of an in-window producer before it has published. */
  function StepsToPublish<T>(pc: Producer<T>): nat {
    match pc
    case Idle => 0
    case Spinning(_, _, _, _) => 3
    case Owner(_, _) => 2
    case Written(_) => 1
    case Dropping(_) => 2
    case DropWritten(_) => 1
  }

  /** The holder of the oldest position can always publish it on its own. */
  lemma {:induction false} HolderPublishes<T>(s: State<T>, p: nat) returns (acts: seq<Action<T>>)
    requires Structure(s) && Holds(s.producers, p, |s.popped|) && s.consumer.AtCheck?
    ensures ClobberFree(s, acts) && Structure(Run(s, acts))
    ensures var e := Run(s, acts);
            && e.popped == s.popped && e.writePos == s.writePos && e.consumer.AtCheck? && |e.slots| == |s.slots|
            && Published(e.slots, |s.popped|)
    decreases StepsToPublish(s.producers[p])
  {
    var a, h := Action<T>.ProducerStep(p), |s.popped|;
    assert SlotAt(s.slots, h).sequence == h;
    StructureStep(s, a);
    var s' := Step(s, a);
    if s.producers[p].Written? || s.producers[p].DropWritten? {
      acts := [];
      assert Published(s'.slots, h);
    } else {
      acts := HolderPublishes(s', p);
    }
    RunCons(s, a, acts);
    acts := [a] + acts;
  }

  /** The consumer finishes the pop it is in, or makes the one that is ready. */
  lemma {:induction false} ConsumerPops<T>(s: State<T>) returns (acts: seq<Action<T>>)
    requires Structure(s) && Published(s.slots, |s.popped|)
    ensures ClobberFree(s, acts) && Structure(Run(s, acts))
    ensures var e := Run(s, acts);
            |e.popped| == |s.popped| + 1 && e.writePos == s.writePos && e.consumer.AtCheck?
    decreases match s.consumer case AtCheck => 3 case Matched(_) => 2 case Copied(_, _) => 1 case Advanced(_, _) => 0
  {
    var a := Action<T>.ConsumerStep;
    StructureStep(s, a);
    var s' := Step(s, a);
    if s.consumer.Advanced? {
      acts := [];
    } else {
      acts := ConsumerPops(s');
    }
    RunCons(s, a, acts);
    acts := [a] + acts;
  }

  lemma {:induction false} ClobberFreeAppend<T>(s: State<T>, a: seq<Action<T>>, b: seq<Action<T>>)
    requires ClobberFree(s, a) && ClobberFree(Run(s, a), b)
    ensures ClobberFree(s, a + b) && Run(s, a + b) == Run(Run(s, a), b)
    decreases |a|
  {
    if a == [] {
      assert a + b == b;
    } else {
      assert (a + b)[0] == a[0] && (a + b)[1..] == a[1..] + b;
      ClobberFreeAppend(Step(s, a[0]), a[1..], b);
    }
  }

  lemma PopNext<T>(s: State<T>) returns (acts: seq<Action<T>>)
    requires Structure(s) && |s.popped| < s.writePos
    ensures ClobberFree(s, acts) && Structure(Run(s, acts))
    ensures |Run(s, acts).popped| == |s.popped| + 1 && Run(s, acts).writePos == s.writePos
  {
    if Published(s.slots, |s.popped|) {
      acts := ConsumerPops(s);
    } else {
      var p: nat :| p < |s.producers| && Holds(s.producers, p, |s.popped|);
      var publish := HolderPublishes(s, p);
      var pop := ConsumerPops(Run(s, publish));
      ClobberFreeAppend(s, publish, pop);
      acts := publish + pop;
    }
  }

  /** From every state without a busy-slot drop behind it, every claimed position can still be popped. */
  lemma {:induction false} NoDeadlock<T>(s: State<T>, pos: nat) returns (acts: seq<Action<T>>)
    requires Structure(s) && pos < s.writePos
    ensures ClobberFree(s, acts) && pos < |Run(s, acts).popped|
    decreases pos + 1 - |s.popped|
  {
    if pos < |s.popped| {
      acts := [];
    } else {
      var first := PopNext(s);
      var rest := NoDeadlock(Run(s, first), pos);
      ClobberFreeAppend(s, first, rest);
      acts := first + rest;
    }
  }

  /**
   Exactly when the consumer can get past a drop of an intact ring: after it publishes position `pos`, some
   continuation pops `pos` if and only if the slot had been freed for it (`sequence == pos`) at that moment.
   */
  lemma DroppedPositionPoppableIff<T>(s: State<T>, p: nat)
    requires Structure(s) && p < |s.producers| && s.producers[p].DropWritten?
    ensures (exists acts :: s.producers[p].pos < |Run(StepProducer(s, p), acts).popped|)
            <==> SlotAt(s.slots, s.producers[p].pos).sequence == s.producers[p].pos
  {
    var a, pos := Action<T>.ProducerStep(p), s.producers[p].pos;
    if Clobbers(s, a) {
      StructureInOrder(s);
      ClobbersBeyond(s, a);
      LateDropKills(s, p);
      forall acts
        ensures |Run(StepProducer(s, p), acts).popped| <= pos
      {
        DeadForever(Step(s, a), acts, pos);
      }
    } else {
      StructureStep(s, a);
      var acts := NoDeadlock(Step(s, a), pos);
      assert pos < |Run(StepProducer(s, p), acts).popped|;
    }
  }

  // ---- Main results: a full ring, and a ring of one slot ----

  /** One uncontended TryPush by thread 0: claim, load, write, publish. */
  function PushActs<T>(event: T): seq<Action<T>> {
    [Claim(0, event, true), ProducerStep(0), ProducerStep(0), ProducerStep(0)]
  }

  function PushAll<T>(events: seq<T>): seq<Action<T>> {
    if events == [] then [] else PushActs(events[0]) + PushAll(events[1..])
  }

  /** One TryPush by thread 0 that spends its whole spin budget and drops. */
  function GiveUpActs<T>(event: T): seq<Action<T>> {
    [Claim(0, event, true)] + Repeat(ProducerStep(0), GIVE_UP) + [ProducerStep(0), ProducerStep(0)]
  }

  /** Nobody is running and nothing has been popped. */
  ghost predicate Unread<T>(s: State<T>, pushed: nat) {
    && Structure(s) && s.popped == [] && s.consumer.AtCheck? && s.writePos == pushed
    && s.producers != [] && forall p | 0 <= p < |s.producers| :: s.producers[p].Idle?
  }

  lemma RunFour<T>(s: State<T>, acts: seq<Action<T>>)
    requires |acts| == 4
    ensures Run(s, acts) == Step(Step(Step(Step(s, acts[0]), acts[1]), acts[2]), acts[3])
  {
    var s1 := Step(s, acts[0]);
    var s2 := Step(s1, acts[1]);
    var s3 := Step(s2, acts[2]);
    assert acts[1..][1..] == acts[2..] && acts[2..][1..] == acts[3..] && acts[3..][1..] == [];
    assert Run(s3, acts[3..]) == Run(Step(s3, acts[3]), []);
    assert Run(s1, acts[1..]) == Run(s2, acts[2..]) == Run(s3, acts[3..]);
  }

  lemma PushOne<T>(s: State<T>, event: T)
    requires Unread(s, s.writePos) && s.writePos < |s.slots|
    ensures Unread(Run(s, PushActs(event)), s.writePos + 1)
    ensures |Run(s, PushActs(event)).slots| == |s.slots|
    ensures Run(s, PushActs(event)).droppedCount == s.droppedCount
    ensures Run(s, PushActs(event)).claims == s.claims + [event] && Run(s, PushActs(event)).blank == s.blank
  {
    RunFour(s, PushActs(event));
    var s1 := Step(s, Claim(0, event, true));
    var a := Action<T>.ProducerStep(0);
    StructureStep(s, Claim(0, event, true));
    assert SlotAt(s1.slots, s.writePos).sequence == s.writePos;
    StructureStep(s1, a);
    var s2 := Step(s1, a);
    assert s2.producers[0] == Owner(s.writePos, event);
    StructureStep(s2, a);
    StructureStep(Step(s2, a), a);
  }

  lemma {:induction false} PushMany<T>(s: State<T>, events: seq<T>)
    requires Unread(s, s.writePos) && s.writePos + |events| <= |s.slots|
    ensures Unread(Run(s, PushAll(events)), s.writePos + |events|)
    ensures |Run(s, PushAll(events)).slots| == |s.slots|
    ensures Run(s, PushAll(events)).droppedCount == s.droppedCount
    ensures Run(s, PushAll(events)).claims == s.claims + events && Run(s, PushAll(events)).blank == s.blank
    decreases |events|
  {
    if events != [] {
      PushOne(s, events[0]);
      PushMany(Run(s, PushActs(events[0])), events[1..]);
      RunAppend(s, PushActs(events[0]), PushAll(events[1..]));
    }
  }

  /** A TryPush whose slot stays busy spends its budget and comes to drop. */
  lemma {:induction false} SpinsOut<T>(s: State<T>, p: nat, n: nat)
    requires s.slots != [] && p < |s.producers| && s.producers[p].Spinning? && s.producers[p].bounded
    requires s.producers[p].loads + n == GIVE_UP && n >= 1
    requires SlotAt(s.slots, s.producers[p].pos).sequence != s.producers[p].pos
    ensures Run(s, Repeat(ProducerStep(p), n)) == SetProducer(s, p, Dropping(s.producers[p].pos))
    ensures ClobberFree(s, Repeat(ProducerStep(p), n))
    decreases n
  {
    var a := Action<T>.ProducerStep(p);
    assert Repeat(a, n)[1..] == Repeat(a, n - 1);
    var s' := Step(s, a);
    if n > 1 {
      SpinsOut(s', p, n - 1);
      assert SetProducer(s', p, Dropping(s.producers[p].pos)) == SetProducer(s, p, Dropping(s.producers[p].pos));
    } else {
      assert Run(s', []) == s';
    }
  }

  /** A TryPush on a full ring spends its budget and comes to drop, over the published position 0. */
  lemma SpinOutOnFull<T>(s: State<T>, event: T)
    requires Unread(s, |s.slots|)
    ensures var r := Run(s, [Claim(0, event, true)] + Repeat(ProducerStep(0), GIVE_UP));
            && r == SetProducer(Step(s, Claim(0, event, true)), 0, Dropping(|s.slots|)) && Structure(r)
            && Published(r.slots, 0)
  {
    var a, claim, c := Action<T>.ProducerStep(0), Action<T>.Claim(0, event, true), |s.slots|;
    var s1 := Step(s, claim);
    StructureStep(s, claim);
    assert !Held(s.producers, 0);
    assert Published(s.slots, 0) && Index(0, c) == Index(c, c);
    SpinsOut(s1, 0, GIVE_UP);
    GiveUpStructure(s1, c);
    RunCons(s, claim, Repeat(a, GIVE_UP));
  }

  /** Giving up on a full ring leaves the consumer stuck at position 0. */
  lemma GiveUpOnFull<T>(s: State<T>, event: T)
    requires Unread(s, |s.slots|)
    ensures Stuck(Run(s, GiveUpActs(event)), 0)
    ensures Run(s, GiveUpActs(event)).droppedCount == s.droppedCount + 1
  {
    var a, claim, c := Action<T>.ProducerStep(0), Action<T>.Claim(0, event, true), |s.slots|;
    SpinOutOnFull(s, event);
    var s2 := Run(s, [claim] + Repeat(a, GIVE_UP));
    assert Index(0, c) == Index(c, c);
    StructureStep(s2, a);
    var s3 := Step(s2, a);
    StructureInOrder(s3);
    DropSticks(s3, 0, 0);
    RunAppend(s, [claim] + Repeat(a, GIVE_UP), [a, a]);
    assert Run(s2, [a, a]) == Run(Step(s2, a), [a, a][1..]);
    assert [a, a][1..] == [a];
    assert Run(s3, [a]) == Run(Step(s3, a), [a][1..]);
  }

  lemma GiveUpStructure<T>(s: State<T>, pos: nat)
    requires Structure(s) && s.producers != [] && s.producers[0].Spinning? && s.producers[0].pos == pos
    ensures Structure(SetProducer(s, 0, Dropping(pos)))
  {
    var s' := SetProducer(s, 0, Dropping(pos));
    assert Holds(s'.producers, 0, pos);
    forall i: nat | |s.popped| <= i < s.writePos && i != pos && !(i < |s.popped| + |s.slots| && Published(s.slots, i))
      ensures Held(s'.producers, i)
    {
      HeldStays(s.producers, 0, Dropping(pos), i);
    }
  }

  /**
   The expectation of TickDropCountAccurate does not hold: fill the ring, let one TryPush give up,
   and no later TryPop, whatever else happens, returns any of the events that were queued.
   */
  lemma DropOnFullRingLosesEverything<T>(capacity: nat, threads: nat, blank: T, events: seq<T>, extra: T,
                                         after: seq<Action<T>>)
    requires capacity >= 2 && threads >= 1 && |events| == capacity
    ensures var s := Run(Init(capacity, threads, blank), PushAll(events) + GiveUpActs(extra));
            s.droppedCount == 1 && Run(s, after).popped == []
  {
    var s0 := Init(capacity, threads, blank);
    StructureInit(capacity, threads, blank);
    PushMany(s0, events);
    var full := Run(s0, PushAll(events));
    GiveUpOnFull(full, extra);
    RunAppend(s0, PushAll(events), GiveUpActs(extra));
    StuckForever(Run(full, GiveUpActs(extra)), after, 0);
  }

  /** With a single slot, which the class admits, the second push overwrites the unread first event. */
  lemma OneSlotOverwrites<T>(blank: T, x: T, y: T, after: seq<Action<T>>)
    ensures var s := Run(Init(1, 1, blank), PushActs(x) + PushActs(y));
            && s.droppedCount == 0 && s.claims == [x, y]
            && s.slots == [Slot(2, y)]
            && Run(s, after).popped == []
  {
    var s0 := Init(1, 1, blank);
    RunAppend(s0, PushActs(x), PushActs(y));
    RunFour(s0, PushActs(x));
    var s1 := Run(s0, PushActs(x));
    assert s1.slots == [Slot(1, x)];
    RunFour(s1, PushActs(y));
    var s2 := Run(s1, PushActs(y));
    assert s2.slots == [Slot(2, y)];
    OneSlotStaysStuck(s2, after);
  }

  ghost predicate OneSlotStuck<T>(s: State<T>) {
    && |s.slots| == 1 && s.slots[0].sequence >= 2 && s.writePos >= 2
    && s.popped == [] && s.readPos == 0 && s.consumer.AtCheck?
    && forall p: nat | p < |s.producers| && !s.producers[p].Idle? :: s.producers[p].pos >= 2
  }

  lemma {:induction false} OneSlotStaysStuck<T>(s: State<T>, acts: seq<Action<T>>)
    requires OneSlotStuck(s)
    ensures Run(s, acts).popped == []
    decreases |acts|
  {
    if acts != [] {
      assert OneSlotStuck(Step(s, acts[0]));
      OneSlotStaysStuck(Step(s, acts[0]), acts[1..]);
    }
  }
}
