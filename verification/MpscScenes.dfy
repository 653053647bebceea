/**
 Two runs of two threads over two slots of the multi-producer ring. In both,
 thread 1 claims position 0 for `x` and is slow, thread 0 pushes `y` and then
 gives up on position 2.
 */
module MpscScenes {
  import opened RingIndex
  import opened MpscQueue
  import opened MpscHalts
  import opened MpscPassing

  function SlotsOf<T>(seq0: nat, data0: T, seq1: nat, data1: T): seq<Slot<T>> {
    [Slot(seq0, data0), Slot(seq1, data1)]
  }

  /** The states passed through, by what is in the slots and what the threads are at. */
  function Stage<T>(blank: T, slots: seq<Slot<T>>, p0: Producer<T>, p1: Producer<T>, claims: seq<T>,
                    sentinels: set<nat>, dropped: nat, popped: seq<T>): State<T> {
    State(blank, slots, |claims|, |popped|, dropped, [p0, p1], AtCheck, claims, sentinels, popped)
  }

  /** Thread 0 has pushed `y` and claimed position 2; thread 1 has claimed position 0 and is slow. */
  function Claimed<T>(b: T, x: T, y: T, z: T, bounded: bool, p0: Producer<T>): State<T> {
    Stage(b, SlotsOf(0, b, 2, y), p0, Spinning(0, x, bounded, 0), [x, y, z], {}, 0, [])
  }

  /** `acts` leads from one stage to another, with no publish over a busy slot. */
  ghost predicate Leads<T>(s: State<T>, acts: seq<Action<T>>, r: State<T>) {
    Run(s, acts) == r && ClobberFree(s, acts)
  }

  lemma LeadsFour<T>(s: State<T>, a: Action<T>, b: Action<T>, c: Action<T>, d: Action<T>)
    requires !Clobbers(s, a) && !Clobbers(Step(s, a), b) && !Clobbers(Step(Step(s, a), b), c)
    requires !Clobbers(Step(Step(Step(s, a), b), c), d)
    ensures Leads(s, [a, b, c, d], Step(Step(Step(Step(s, a), b), c), d))
  {
    var s1 := Step(s, a);
    var s2 := Step(s1, b);
    var s3 := Step(s2, c);
    RunFour(s, [a, b, c, d]);
    RunCons(s3, d, []);
    RunCons(s2, c, [d]);
    RunCons(s1, b, [c, d]);
    RunCons(s, a, [b, c, d]);
    assert [a] + [b, c, d] == [a, b, c, d] && [b] + [c, d] == [b, c, d] && [c] + [d] == [c, d] && [d] + [] == [d];
  }

  lemma LeadsOn<T>(s: State<T>, a: seq<Action<T>>, r: State<T>, b: seq<Action<T>>, e: State<T>)
    requires Leads(s, a, r) && Leads(r, b, e)
    ensures Leads(s, a + b, e)
  {
    ClobberFreeAppend(s, a, b);
  }

  lemma LeadsOne<T>(s: State<T>, a: Action<T>)
    requires !Clobbers(s, a)
    ensures Leads(s, [a], Step(s, a))
  {
    RunCons(s, a, []);
    assert [a] + [] == [a];
  }

  lemma LeadsSpin<T>(s: State<T>, p: nat)
    requires s.slots != [] && p < |s.producers| && s.producers[p].Spinning? && s.producers[p].bounded
    requires s.producers[p].loads == 0 && SlotAt(s.slots, s.producers[p].pos).sequence != s.producers[p].pos
    ensures Leads(s, Repeat(ProducerStep(p), GIVE_UP), SetProducer(s, p, Dropping(s.producers[p].pos)))
  {
    SpinsOut(s, p, GIVE_UP);
  }

  /** The consumer pops the published position `h`, with the two slots before and after. */
  lemma LeadsPop<T>(s: State<T>, slots: seq<Slot<T>>)
    requires |s.slots| == 2 && s.consumer.AtCheck? && s.readPos == |s.popped| && Published(s.slots, |s.popped|)
    requires slots == s.slots[Index(|s.popped|, 2) := SlotAt(s.slots, |s.popped|).(sequence := |s.popped| + 2)]
    ensures var a := Action<T>.ConsumerStep;
            Leads(s, [a, a, a, a], s.(slots := slots, readPos := |s.popped| + 1,
                                      popped := s.popped + [SlotAt(s.slots, |s.popped|).data]))
  {
    LeadsFour(s, ConsumerStep, ConsumerStep, ConsumerStep, ConsumerStep);
  }

  /** Up to the claim of position 2, where thread 1 is still spinning in a TryPush or a Push. */
  lemma ThreeClaims<T>(b: T, x: T, y: T, z: T, bounded: bool) returns (acts: seq<Action<T>>)
    ensures Leads(Init(2, 2, b), acts, Claimed(b, x, y, z, bounded, Spinning(2, z, true, 0)))
  {
    var s0, slow := Init(2, 2, b), Spinning(0, x, bounded, 0);
    var start := Stage(b, SlotsOf(0, b, 1, b), Idle, slow, [x], {}, 0, []);
    assert Step(s0, Claim(1, x, bounded)) == start;
    LeadsOne(s0, Claim(1, x, bounded));
    LeadsFour(start, Claim(0, y, true), ProducerStep(0), ProducerStep(0), ProducerStep(0));
    var pushed := Stage(b, SlotsOf(0, b, 2, y), Idle, slow, [x, y], {}, 0, []);
    acts := [Claim(0, y, true), ProducerStep(0), ProducerStep(0), ProducerStep(0)];
    assert Run(start, acts) == pushed;
    LeadsOn(s0, [Claim(1, x, bounded)], start, acts, pushed);
    LeadsOne(pushed, Claim(0, z, true));
    acts := [Claim(1, x, bounded)] + acts;
    var claimed := Claimed(b, x, y, z, bounded, Spinning(2, z, true, 0));
    assert Step(pushed, Claim(0, z, true)) == claimed;
    LeadsOn(s0, acts, pushed, [Claim(0, z, true)], claimed);
    acts := acts + [Claim(0, z, true)];
  }

  /** Up to the end of thread 0's spin. */
  lemma GivesUp<T>(b: T, x: T, y: T, z: T, bounded: bool) returns (acts: seq<Action<T>>)
    ensures Leads(Init(2, 2, b), acts, Claimed(b, x, y, z, bounded, Dropping(2)))
  {
    acts := ThreeClaims(b, x, y, z, bounded);
    var claimed := Claimed(b, x, y, z, bounded, Spinning(2, z, true, 0));
    LeadsSpin(claimed, 0);
    LeadsOn(Init(2, 2, b), acts, claimed, Repeat(ProducerStep(0), GIVE_UP),
            Claimed(b, x, y, z, bounded, Dropping(2)));
    acts := acts + Repeat(ProducerStep(0), GIVE_UP);
  }

  // ---- A drop that repeats an event ----

  // Thread 0 writes its blank over the free slot of position 0. Thread 1 writes and publishes `x`, the consumer pops
  // it, and only then does thread 0 publish position 2, whose slot still holds `x`.

  /** Up to thread 1's publish, after thread 0's blank. */
  lemma SlowPush<T>(b: T, x: T, y: T, z: T) returns (acts: seq<Action<T>>)
    ensures Leads(Init(2, 2, b), acts, Stage(b, SlotsOf(1, x, 2, y), DropWritten(2), Idle, [x, y, z], {2}, 0, []))
  {
    acts := GivesUp(b, x, y, z, false);
    var dropping := Claimed(b, x, y, z, false, Dropping(2));
    var more := [ProducerStep(0), ProducerStep(1), ProducerStep(1), ProducerStep(1)];
    LeadsFour(dropping, ProducerStep(0), ProducerStep(1), ProducerStep(1), ProducerStep(1));
    var written := Stage(b, SlotsOf(1, x, 2, y), DropWritten(2), Idle, [x, y, z], {2}, 0, []);
    assert Run(dropping, more) == written;
    LeadsOn(Init(2, 2, b), acts, dropping, more, written);
    acts := acts + more;
  }

  /** No publish over a busy slot, one drop, and the event `x` comes out twice. */
  lemma DropRepeatsEvent<T>(b: T, x: T, y: T, z: T) returns (acts: seq<Action<T>>)
    ensures ClobberFree(Init(2, 2, b), acts)
    ensures var s := Run(Init(2, 2, b), acts); s.claims == [x, y, z] && s.popped == [x, y, x] && s.droppedCount == 1
  {
    var c := Action<T>.ConsumerStep;
    var s0, pop := Init(2, 2, b), [c, c, c, c];
    var s1 := Stage(b, SlotsOf(1, x, 2, y), DropWritten(2), Idle, [x, y, z], {2}, 0, []);
    var s2 := Stage(b, SlotsOf(2, x, 2, y), DropWritten(2), Idle, [x, y, z], {2}, 0, [x]);
    var s3 := Stage(b, SlotsOf(3, x, 2, y), Idle, Idle, [x, y, z], {2}, 1, [x]);
    var s4 := Stage(b, SlotsOf(3, x, 3, y), Idle, Idle, [x, y, z], {2}, 1, [x, y]);
    var s5 := Stage(b, SlotsOf(4, x, 3, y), Idle, Idle, [x, y, z], {2}, 1, [x, y, x]);
    acts := SlowPush(b, x, y, z);
    LeadsPop(s1, s2.slots);
    LeadsOn(s0, acts, s1, pop, s2);
    acts := acts + pop;
    LeadsOne(s2, ProducerStep(0));
    assert Step(s2, ProducerStep(0)) == s3;
    LeadsOn(s0, acts, s2, [ProducerStep(0)], s3);
    acts := acts + [ProducerStep(0)];
    LeadsPop(s3, s4.slots);
    LeadsOn(s0, acts, s3, pop, s4);
    acts := acts + pop;
    LeadsPop(s4, s5.slots);
    LeadsOn(s0, acts, s4, pop, s5);
    acts := acts + pop;
  }

  // ---- A drop over a busy slot that is popped ----

  // Thread 0 publishes position 2 over the slot that is free for position 0. Thread 1 finds 3 there, gives up as well
  // and publishes position 0 over it, for the consumer to pop.

  /** Up to thread 0's publish, which is one over a busy slot. */
  lemma EarlyDrop<T>(b: T, x: T, y: T, z: T) returns (acts: seq<Action<T>>)
    ensures Run(Init(2, 2, b), acts)
            == Stage(b, SlotsOf(3, b, 2, y), Idle, Spinning(0, x, true, 0), [x, y, z], {2}, 1, [])
  {
    var a := Action<T>.ProducerStep(0);
    acts := GivesUp(b, x, y, z, true);
    var dropping := Claimed(b, x, y, z, true, Dropping(2));
    var dropped := Stage(b, SlotsOf(3, b, 2, y), Idle, Spinning(0, x, true, 0), [x, y, z], {2}, 1, []);
    assert Step(Step(dropping, a), a) == dropped;
    RunCons(Step(dropping, a), a, []);
    RunCons(dropping, a, [a]);
    assert [a] + [] == [a] && Run(dropped, []) == dropped;
    RunAppend(Init(2, 2, b), acts, [a] + [a]);
    acts := acts + ([a] + [a]);
  }

  /** The drop of thread 1 finds its slot not free for it, publishes all the same, and its position can be popped. */
  lemma BusyDropPopped<T>(b: T, x: T, y: T, z: T) returns (acts: seq<Action<T>>)
    ensures var s := Run(Init(2, 2, b), acts);
            && |s.producers| == 2 && s.producers[1] == DropWritten(0)
            && s.slots != [] && SlotAt(s.slots, 0).sequence == 3
            && exists after :: 0 < |Run(Step(s, ProducerStep(1)), after).popped|
  {
    var a := Action<T>.ProducerStep(1);
    acts := EarlyDrop(b, x, y, z);
    var early := Run(Init(2, 2, b), acts);
    SpinsOut(early, 1, GIVE_UP);
    RunAppend(Init(2, 2, b), acts, Repeat(a, GIVE_UP));
    acts := acts + Repeat(a, GIVE_UP);
    var dropping := Run(Init(2, 2, b), acts);
    RunCons(dropping, a, []);
    assert [a] + [] == [a];
    RunAppend(Init(2, 2, b), acts, [a]);
    acts := acts + [a];
    DropPassedIff(2, 2, b, acts, 1);
  }
}
