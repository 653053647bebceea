/**
 Which positions of src/exchange/rithmic/rithmic_queue.h the consumer can still
 reach, from every state of every run, drops over busy slots included.
 */
module MpscPassing {
  import opened RingIndex
  import opened MpscQueue
  import opened MpscOrder
  import opened MpscHalts

  /** A Push inside the window that missed its slot's turn: freed for it, and published over since. */
  predicate Starved<T>(s: State<T>, pc: Producer<T>)
    requires s.slots != []
  {
    && pc.Spinning? && !pc.bounded
    && pc.pos < |s.popped| + |s.slots| && SlotAt(s.slots, pc.pos).sequence != pc.pos
  }

  /** Position `i` is being popped, is published in time, or has a producer that can publish it in time. */
  ghost predicate Passable<T>(s: State<T>, i: nat)
    requires s.slots != []
  {
    || Popping(s, i)
    || (Published(s.slots, i) && i < |s.popped| + |s.slots|)
    || exists p: nat | Holds(s.producers, p, i) :: !Starved(s, s.producers[p])
  }

  /** Nothing stops the consumer before position `k`. */
  ghost predicate WayTo<T>(s: State<T>, k: nat)
    requires s.slots != []
  {
    forall i: nat | |s.popped| <= i < k :: Passable(s, i)
  }

  // ---- An impassable position is never popped ----

  /** Nobody frees the slot of a window position for it again. */
  lemma StarvedProducer<T>(s: State<T>, p: nat, q: nat)
    requires Order(s) && p < |s.producers| && Starved(s, s.producers[p]) && q < |s.producers|
    ensures var s' := StepProducer(s, q);
            |s'.producers| == |s.producers| && Starved(s', s'.producers[p])
            && s'.producers[p].pos == s.producers[p].pos
  {
    if !s.producers[q].Idle? {
      SlotBefore(s.producers[q].pos, |s.slots|);
    }
  }

  lemma StarvedConsumer<T>(s: State<T>, p: nat)
    requires Order(s) && p < |s.producers| && Starved(s, s.producers[p])
    ensures Starved(StepConsumer(s), s.producers[p])
  {
    var i := s.producers[p].pos;
    assert Holds(s.producers, p, i);
    if s.consumer.Advanced? {
      IndexNear(|s.popped|, i, |s.slots|);
    }
  }

  lemma StarvedStep<T>(s: State<T>, p: nat, a: Action<T>)
    requires Order(s) && p < |s.producers| && Starved(s, s.producers[p])
    ensures var s' := Step(s, a);
            && s'.slots != [] && p < |s'.producers| && Starved(s', s'.producers[p])
            && s'.producers[p].pos == s.producers[p].pos
  {
    match a
    case Claim(_, _, _) =>
    case ConsumerStep => StarvedConsumer(s, p);
    case ProducerStep(q) => if q < |s.producers| { StarvedProducer(s, p, q); }
  }

  lemma {:induction false} StarvedForever<T>(s: State<T>, acts: seq<Action<T>>, p: nat)
    requires Order(s) && p < |s.producers| && Starved(s, s.producers[p])
    ensures |Run(s, acts).popped| <= s.producers[p].pos
    decreases |acts|
  {
    if acts != [] {
      OrderStep(s, acts[0]);
      StarvedStep(s, p, acts[0]);
      StarvedForever(Step(s, acts[0]), acts[1..], p);
    }
  }

  lemma ImpassableForever<T>(s: State<T>, acts: seq<Action<T>>, i: nat)
    requires Order(s) && |s.popped| <= i < s.writePos && !Passable(s, i)
    ensures |Run(s, acts).popped| <= i
  {
    if Held(s.producers, i) {
      var p: nat :| p < |s.producers| && Holds(s.producers, p, i);
      StarvedForever(s, acts, p);
    } else {
      DeadForever(s, acts, i);
    }
  }

  // ---- A passable way is passed ----

  /** From `s` to `e` no position from `n` on became impassable, and the slots of those in the window are the same. */
  ghost predicate Onward<T>(s: State<T>, e: State<T>, n: nat)
    requires s.slots != []
  {
    && Order(e) && |e.slots| == |s.slots| && e.writePos == s.writePos && e.claims == s.claims
    && |s.popped| <= |e.popped|
    && (forall i: nat | n <= i && Passable(s, i) :: Passable(e, i))
    && (forall i: nat | n <= i < |s.popped| + |s.slots| :: SlotAt(e.slots, i) == SlotAt(s.slots, i))
  }

  lemma OnwardOn<T>(s: State<T>, m: State<T>, e: State<T>, n: nat, k: nat)
    requires s.slots != [] && m.slots != [] && n <= k && Onward(s, m, n) && Onward(m, e, k)
    ensures Onward(s, e, k)
  {
  }

  /** The thread that holds the oldest position moves: a later position stays passable. */
  lemma HolderSpares<T>(s: State<T>, p: nat, i: nat)
    requires Order(s) && Holds(s.producers, p, |s.popped|) && |s.popped| < i
    ensures i < |s.popped| + |s.slots| ==> SlotAt(StepProducer(s, p).slots, i) == SlotAt(s.slots, i)
    ensures Passable(s, i) ==> Passable(StepProducer(s, p), i)
  {
    var s', h := StepProducer(s, p), |s.popped|;
    if i < h + |s.slots| {
      IndexNear(h, i, |s.slots|);
    }
    assert !Popping(s, i);
    if q: nat :| Holds(s.producers, q, i) && !Starved(s, s.producers[q]) {
      assert s'.producers[q] == s.producers[q];
      assert Holds(s'.producers, q, i);
    }
  }

  lemma HolderOnward<T>(s: State<T>, p: nat)
    requires Order(s) && Holds(s.producers, p, |s.popped|)
    ensures Onward(s, StepProducer(s, p), |s.popped| + 1)
  {
    OrderStep(s, ProducerStep(p));
    forall i: nat | |s.popped| < i
      ensures i < |s.popped| + |s.slots| ==> SlotAt(StepProducer(s, p).slots, i) == SlotAt(s.slots, i)
      ensures Passable(s, i) ==> Passable(StepProducer(s, p), i)
    {
      HolderSpares(s, p, i);
    }
  }

  /** Steps a thread needs at most to publish, with its remaining loads. */
  function StepsLeft<T>(pc: Producer<T>): nat {
    StepsToPublish(pc) + if pc.Spinning? && pc.loads < GIVE_UP then GIVE_UP - pc.loads else 0
  }

  lemma HolderMoves<T>(s: State<T>, p: nat)
    requires Order(s) && Holds(s.producers, p, |s.popped|) && !Starved(s, s.producers[p])
    ensures var s', h := StepProducer(s, p), |s.popped|;
            && s'.popped == s.popped && s'.consumer == s.consumer == AtCheck
            && if s'.producers[p].Idle? then Published(s'.slots, h)
               else && Holds(s'.producers, p, h) && !Starved(s', s'.producers[p])
                    && StepsLeft(s'.producers[p]) < StepsLeft(s.producers[p])
  {
  }

  /** The thread that holds the oldest position publishes it. */
  lemma {:induction false} OldestPublished<T>(s: State<T>, p: nat) returns (acts: seq<Action<T>>)
    requires Order(s) && Holds(s.producers, p, |s.popped|) && !Starved(s, s.producers[p])
    ensures var e := Run(s, acts);
            && Onward(s, e, |s.popped| + 1) && e.popped == s.popped && Published(e.slots, |s.popped|)
    decreases StepsLeft(s.producers[p])
  {
    var a, s' := Action<T>.ProducerStep(p), StepProducer(s, p);
    HolderMoves(s, p);
    HolderOnward(s, p);
    if s'.producers[p].Idle? {
      acts := [];
    } else {
      acts := OldestPublished(s', p);
      OnwardOn(s, s', Run(s', acts), |s.popped| + 1, |s.popped| + 1);
    }
    RunCons(s, a, acts);
    acts := [a] + acts;
  }

  /** The consumer takes a step: a later position stays passable. */
  lemma ConsumerSpares<T>(s: State<T>, i: nat)
    requires Order(s) && |s.popped| < i
    ensures i < |s.popped| + |s.slots| ==> SlotAt(StepConsumer(s).slots, i) == SlotAt(s.slots, i)
    ensures Passable(s, i) ==> Passable(StepConsumer(s), i)
  {
    var s', h := StepConsumer(s), |s.popped|;
    if s.consumer.Advanced? {
      FreeOne(s.slots, h, SlotAt(s.slots, h).(sequence := h + |s.slots|), s'.slots, i);
    }
    if q: nat :| Holds(s.producers, q, i) && !Starved(s, s.producers[q]) {
      assert Holds(s'.producers, q, i);
      assert !Starved(s', s'.producers[q]);
    }
  }

  lemma ConsumerOnward<T>(s: State<T>)
    requires Order(s)
    ensures Onward(s, StepConsumer(s), |s.popped| + 1)
  {
    OrderStep(s, ConsumerStep);
    forall i: nat | |s.popped| < i
      ensures i < |s.popped| + |s.slots| ==> SlotAt(StepConsumer(s).slots, i) == SlotAt(s.slots, i)
      ensures Passable(s, i) ==> Passable(StepConsumer(s), i)
    {
      ConsumerSpares(s, i);
    }
  }

  /** The consumer pops the oldest position. */
  lemma {:induction false} OldestPopped<T>(s: State<T>) returns (acts: seq<Action<T>>)
    requires Order(s) && (!s.consumer.AtCheck? || Published(s.slots, |s.popped|))
    ensures var e := Run(s, acts);
            Onward(s, e, |s.popped| + 1) && |e.popped| == |s.popped| + 1 && e.consumer.AtCheck?
    decreases match s.consumer case AtCheck => 3 case Matched(_) => 2 case Copied(_, _) => 1 case Advanced(_, _) => 0
  {
    var a, s' := Action<T>.ConsumerStep, StepConsumer(s);
    ConsumerOnward(s);
    if s.consumer.Advanced? {
      acts := [];
    } else {
      acts := OldestPopped(s');
      OnwardOn(s, s', Run(s', acts), |s.popped| + 1, |s.popped| + 1);
    }
    RunCons(s, a, acts);
    acts := [a] + acts;
  }

  lemma PassOldest<T>(s: State<T>) returns (acts: seq<Action<T>>)
    requires Order(s) && Passable(s, |s.popped|)
    ensures var e := Run(s, acts);
            Onward(s, e, |s.popped| + 1) && |e.popped| == |s.popped| + 1 && e.consumer.AtCheck?
  {
    var h := |s.popped|;
    if !s.consumer.AtCheck? || Published(s.slots, h) {
      acts := OldestPopped(s);
    } else {
      var p: nat :| Holds(s.producers, p, h) && !Starved(s, s.producers[p]);
      var publish := OldestPublished(s, p);
      var m := Run(s, publish);
      var pop := OldestPopped(m);
      OnwardOn(s, m, Run(m, pop), h + 1, h + 1);
      RunAppend(s, publish, pop);
      acts := publish + pop;
    }
  }

  /** The consumer pops everything before `k`, and `k` and what comes after it is not worse off. */
  lemma {:induction false} PassTo<T>(s: State<T>, k: nat) returns (acts: seq<Action<T>>)
    requires Order(s) && |s.popped| <= k && WayTo(s, k)
    ensures var e := Run(s, acts);
            && |e.popped| == k && Onward(s, e, k) && (if |s.popped| < k then e.consumer.AtCheck? else e == s)
    decreases k - |s.popped|
  {
    if |s.popped| == k {
      acts := [];
    } else {
      var first := PassOldest(s);
      var m := Run(s, first);
      var rest := PassTo(m, k);
      OnwardOn(s, m, Run(m, rest), |s.popped| + 1, k);
      RunAppend(s, first, rest);
      acts := first + rest;
    }
  }

  // ---- Main results ----

  lemma PoppableFrom<T>(s: State<T>, pos: nat)
    requires Order(s) && pos < s.writePos
    ensures (exists acts :: pos < |Run(s, acts).popped|) <==> WayTo(s, pos + 1)
  {
    if WayTo(s, pos + 1) {
      var acts := [];
      if |s.popped| <= pos {
        acts := PassTo(s, pos + 1);
      }
      assert pos < |Run(s, acts).popped|;
    } else {
      var i: nat :| |s.popped| <= i < pos + 1 && !Passable(s, i);
      forall acts
        ensures |Run(s, acts).popped| <= pos
      {
        ImpassableForever(s, acts, i);
      }
    }
  }

  /** After any run a claimed position can still be popped if and only if nothing up to it is impassable. */
  lemma PoppableIff<T>(capacity: nat, threads: nat, blank: T, acts: seq<Action<T>>, pos: nat)
    requires capacity >= 2 && pos < Run(Init(capacity, threads, blank), acts).writePos
    ensures var s := Run(Init(capacity, threads, blank), acts);
            s.slots != [] && ((exists after :: pos < |Run(s, after).popped|) <==> WayTo(s, pos + 1))
  {
    OrderInit(capacity, threads, blank);
    OrderRun(Init(capacity, threads, blank), acts);
    PoppableFrom(Run(Init(capacity, threads, blank), acts), pos);
  }

  /** A thread whose position is inside the window moves: nothing changes for the positions before it. */
  lemma WindowSpares<T>(s: State<T>, p: nat, i: nat)
    requires Order(s) && p < |s.producers| && !s.producers[p].Idle?
    requires |s.popped| <= i < s.producers[p].pos < |s.popped| + |s.slots|
    ensures Passable(s, i) <==> Passable(StepProducer(s, p), i)
  {
    var s' := StepProducer(s, p);
    IndexNear(i, s.producers[p].pos, |s.slots|);
    forall q: nat
      ensures Holds(s.producers, q, i) <==> Holds(s'.producers, q, i)
      ensures Holds(s.producers, q, i) ==> s'.producers[q] == s.producers[q]
    {
    }
  }

  lemma DropWay<T>(s: State<T>, p: nat)
    requires Order(s) && p < |s.producers| && s.producers[p].DropWritten?
    ensures var s', pos := StepProducer(s, p), s.producers[p].pos;
            && s'.slots != []
            && (WayTo(s', pos + 1) <==> pos < |s.popped| + |s.slots| && WayTo(s, pos))
  {
    var s', pos := StepProducer(s, p), s.producers[p].pos;
    assert Passable(s', pos) <==> pos < |s.popped| + |s.slots| by {
      assert Holds(s.producers, p, pos);
      assert !Popping(s, pos);
      assert !Held(s'.producers, pos);
    }
    if pos < |s.popped| + |s.slots| {
      forall i: nat | |s.popped| <= i < pos
        ensures Passable(s, i) <==> Passable(s', i)
      {
        WindowSpares(s, p, i);
      }
    }
  }

  /**
   Exactly when the consumer can get past a drop, for every drop of every run: after it publishes position `pos`, some
   continuation pops `pos` if and only if `pos` is inside the window and nothing before it is impassable.
   */
  lemma DropPassedIff<T>(capacity: nat, threads: nat, blank: T, acts: seq<Action<T>>, p: nat)
    requires capacity >= 2
    requires var s := Run(Init(capacity, threads, blank), acts); p < |s.producers| && s.producers[p].DropWritten?
    ensures var s := Run(Init(capacity, threads, blank), acts);
            var pos := s.producers[p].pos;
            && s.slots != []
            && ((exists after :: pos < |Run(Step(s, ProducerStep(p)), after).popped|)
                <==> pos < |s.popped| + |s.slots| && WayTo(s, pos))
  {
    OrderInit(capacity, threads, blank);
    OrderRun(Init(capacity, threads, blank), acts);
    var s := Run(Init(capacity, threads, blank), acts);
    OrderStep(s, ProducerStep(p));
    DropWay(s, p);
    PoppableFrom(StepProducer(s, p), s.producers[p].pos);
  }
}
