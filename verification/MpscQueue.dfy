/**
 The cross-process ring of src/exchange/rithmic/rithmic_queue.h: any number of
 producers claim positions with fetch_add, spin until their slot is free, write
 and publish; one consumer checks, copies, advances `read_pos_` and frees.

 Every atomic access, and every copy of a slot's payload, is one step of
 `Step`, so a run of `Run` is one sequentially consistent interleaving.
 */
module MpscQueue {
  import opened RingIndex

  /** `kMaxSpin` of TryPush. */
  const MAX_SPIN: nat := 10000

  /** Failing loads before TryPush gives up: the fast path's, then MAX_SPIN + 1 of the loop. */
  const GIVE_UP: nat := MAX_SPIN + 2

  datatype Slot<T> = Slot(sequence: nat, data: T)

  /** Where a producer thread stands; `bounded` tells TryPush from Push. */
  datatype Producer<T> =
    | Idle
    | Spinning(pos: nat, event: T, bounded: bool, loads: nat)  // about to load slot.sequence
    | Owner(pos: nat, event: T)                                // the load returned pos
    | Written(pos: nat)                                        // about to publish pos + 1
    | Dropping(pos: nat)                                       // about to write T{}
    | DropWritten(pos: nat)                                    // about to publish the sentinel

  datatype Consumer<T> =
    | AtCheck
    | Matched(pos: nat)
    | Copied(pos: nat, out: T)
    | Advanced(pos: nat, out: T)  // read_pos_ stored, slot not freed yet

  /**
   `claims`, `sentinels` and `popped` are history: the event offered by the
   claimer of each position, the positions overwritten with the blank event, and
   the events TryPop has returned.
   */
  datatype State<T> = State(
    blank: T,
    slots: seq<Slot<T>>,
    writePos: nat,
    readPos: nat,
    droppedCount: nat,
    producers: seq<Producer<T>>,
    consumer: Consumer<T>,
    claims: seq<T>,
    sentinels: set<nat>,
    popped: seq<T>)

  datatype Action<T> =
    | Claim(p: nat, event: T, bounded: bool)
    | ProducerStep(p: nat)
    | ConsumerStep

  function Init<T>(capacity: nat, threads: nat, blank: T): State<T> {
    State(blank, seq(capacity, (i: nat) => Slot(i, blank)), 0, 0, 0, seq(threads, _ => Idle), AtCheck, [], {}, [])
  }

  function SlotAt<T>(slots: seq<Slot<T>>, pos: nat): Slot<T>
    requires slots != []
  {
    slots[Index(pos, |slots|)]
  }

  function SetSlot<T>(s: State<T>, pos: nat, slot: Slot<T>): State<T>
    requires s.slots != []
  {
    s.(slots := s.slots[Index(pos, |s.slots|) := slot])
  }

  function SetProducer<T>(s: State<T>, p: nat, pc: Producer<T>): State<T>
    requires p < |s.producers|
  {
    s.(producers := s.producers[p := pc])
  }

  function StepProducer<T>(s: State<T>, p: nat): State<T>
    requires s.slots != [] && p < |s.producers|
  {
    match s.producers[p]
    case Idle => s
    case Spinning(pos, event, bounded, loads) =>
      if SlotAt(s.slots, pos).sequence == pos then SetProducer(s, p, Owner(pos, event))
      else if bounded && loads + 1 >= GIVE_UP then SetProducer(s, p, Dropping(pos))
      else SetProducer(s, p, Spinning(pos, event, bounded, loads + 1))
    case Owner(pos, event) =>
      SetProducer(SetSlot(s, pos, SlotAt(s.slots, pos).(data := event)), p, Written(pos))
    case Written(pos) =>
      SetProducer(SetSlot(s, pos, SlotAt(s.slots, pos).(sequence := pos + 1)), p, Idle)
    case Dropping(pos) =>
      SetProducer(SetSlot(s, pos, SlotAt(s.slots, pos).(data := s.blank)), p, DropWritten(pos))
        .(sentinels := s.sentinels + {pos})
    case DropWritten(pos) =>
      SetProducer(SetSlot(s, pos, SlotAt(s.slots, pos).(sequence := pos + 1)), p, Idle)
        .(droppedCount := s.droppedCount + 1)
  }

  function StepConsumer<T>(s: State<T>): State<T>
    requires s.slots != []
  {
    match s.consumer
    case AtCheck =>
      if SlotAt(s.slots, s.readPos).sequence == s.readPos + 1 then s.(consumer := Matched(s.readPos)) else s
    case Matched(pos) => s.(consumer := Copied(pos, SlotAt(s.slots, pos).data))
    case Copied(pos, out) => s.(readPos := pos + 1, consumer := Advanced(pos, out))
    case Advanced(pos, out) =>
      SetSlot(s, pos, SlotAt(s.slots, pos).(sequence := pos + |s.slots|))
        .(consumer := AtCheck, popped := s.popped + [out])
  }

  /** Any thread may move at any time; a move that makes no sense leaves the state alone. */
  function Step<T>(s: State<T>, a: Action<T>): State<T> {
    if s.slots == [] then s else
    match a
    case Claim(p, event, bounded) =>
      if p < |s.producers| && s.producers[p].Idle? then
        SetProducer(s, p, Spinning(s.writePos, event, bounded, 0))
          .(writePos := s.writePos + 1, claims := s.claims + [event])
      else s
    case ProducerStep(p) => if p < |s.producers| then StepProducer(s, p) else s
    case ConsumerStep => StepConsumer(s)
  }

  function Run<T>(s: State<T>, acts: seq<Action<T>>): State<T>
    decreases |acts|
  {
    if acts == [] then s else Run(Step(s, acts[0]), acts[1..])
  }

  lemma {:induction false} RunAppend<T>(s: State<T>, a: seq<Action<T>>, b: seq<Action<T>>)
    ensures Run(s, a + b) == Run(Run(s, a), b)
    decreases |a|
  {
    if a == [] {
      assert a + b == b;
    } else {
      assert (a + b)[0] == a[0] && (a + b)[1..] == a[1..] + b;
      RunAppend(Step(s, a[0]), a[1..], b);
    }
  }

  // ---- The structural invariant: positions, sequences and program counters ----

  predicate Holds<T>(producers: seq<Producer<T>>, p: nat, pos: nat) {
    p < |producers| && !producers[p].Idle? && producers[p].pos == pos
  }

  predicate Held<T>(producers: seq<Producer<T>>, pos: nat) {
    exists p: nat | p < |producers| :: Holds(producers, p, pos)
  }

  predicate Published<T>(slots: seq<Slot<T>>, pos: nat)
    requires slots != []
  {
    SlotAt(slots, pos).sequence == pos + 1
  }

  /** Every slot is on its current lap: free for its window position, or published for it. */
  ghost predicate WindowOk<T>(slots: seq<Slot<T>>, h: nat, w: nat)
    requires slots != []
  {
    forall i: nat | h <= i < h + |slots| ::
      SlotAt(slots, i).sequence == i || (Published(slots, i) && i < w)
  }

  /** No hole: a claimed position that is not yet freed is published or in a live producer's hands. */
  ghost predicate NoHole<T>(slots: seq<Slot<T>>, producers: seq<Producer<T>>, h: nat, w: nat)
    requires slots != []
  {
    forall i: nat | h <= i < w :: (i < h + |slots| && Published(slots, i)) || Held(producers, i)
  }

  ghost predicate DistinctClaims<T>(producers: seq<Producer<T>>) {
    forall p: nat, q: nat | p < |producers| && q < |producers| && p != q
                            && !producers[p].Idle? && !producers[q].Idle? ::
      producers[p].pos != producers[q].pos
  }

  /** A producer's position is claimed, unpublished and not freed; an owner's is inside the window. */
  ghost predicate ProducersOk<T>(slots: seq<Slot<T>>, producers: seq<Producer<T>>, h: nat, w: nat)
    requires slots != []
  {
    forall p: nat | p < |producers| && !producers[p].Idle? ::
      && h <= producers[p].pos < w
      && (producers[p].pos < h + |slots| ==> !Published(slots, producers[p].pos))
      && (producers[p].Owner? || producers[p].Written? ==> producers[p].pos < h + |slots|)
  }

  ghost predicate ConsumerOk<T>(slots: seq<Slot<T>>, consumer: Consumer<T>, h: nat, readPos: nat)
    requires slots != []
  {
    match consumer
    case AtCheck => readPos == h
    case Matched(pos) => pos == readPos == h && Published(slots, pos)
    case Copied(pos, _) => pos == readPos == h && Published(slots, pos)
    case Advanced(pos, _) => pos == h && readPos == pos + 1 && Published(slots, pos)
  }

  /** `|popped|` positions are popped and freed; `read_pos_` runs one ahead until the free. */
  ghost predicate Structure<T>(s: State<T>) {
    && |s.slots| >= 2
    && |s.popped| <= s.writePos == |s.claims|
    && WindowOk(s.slots, |s.popped|, s.writePos)
    && NoHole(s.slots, s.producers, |s.popped|, s.writePos)
    && DistinctClaims(s.producers)
    && ProducersOk(s.slots, s.producers, |s.popped|, s.writePos)
    && ConsumerOk(s.slots, s.consumer, |s.popped|, s.readPos)
  }

  lemma StructureInit<T>(capacity: nat, threads: nat, blank: T)
    requires capacity >= 2
    ensures Structure(Init(capacity, threads, blank))
  {
  }

  /** Whoever held a position before still does when only producer `p`, another, has moved. */
  lemma HeldStays<T>(before: seq<Producer<T>>, p: nat, pc: Producer<T>, i: nat)
    requires p < |before| && Held(before, i) && !Holds(before, p, i)
    ensures Held(before[p := pc], i)
  {
    var q: nat :| q < |before| && Holds(before, q, i);
    assert Holds(before[p := pc], q, i);
  }

  lemma StructureClaim<T>(s: State<T>, p: nat, event: T, bounded: bool)
    requires Structure(s)
    ensures Structure(Step(s, Claim(p, event, bounded)))
  {
    if p < |s.producers| && s.producers[p].Idle? {
      var pc := Spinning(s.writePos, event, bounded, 0);
      assert Holds(s.producers[p := pc], p, s.writePos);
      forall i: nat | |s.popped| <= i < s.writePos && !(i < |s.popped| + |s.slots| && Published(s.slots, i))
        ensures Held(s.producers[p := pc], i)
      {
        HeldStays(s.producers, p, pc, i);
      }
    }
  }

  lemma BeyondWindow<T>(slots: seq<Slot<T>>, h: nat, w: nat, pos: nat)
    requires |slots| >= 2 && WindowOk(slots, h, w) && h + |slots| <= pos
    ensures SlotAt(slots, pos).sequence < pos
  {
    var i := Representative(h, pos, |slots|);
    assert SlotAt(slots, i) == SlotAt(slots, pos);
  }

  /** A load that finds `pos` is of the slot's current lap: this is where Capacity >= 2 matters. */
  lemma LoadedInWindow<T>(slots: seq<Slot<T>>, h: nat, w: nat, pos: nat)
    requires |slots| >= 2 && WindowOk(slots, h, w)
    requires h <= pos && SlotAt(slots, pos).sequence == pos
    ensures pos < h + |slots|
  {
    if pos >= h + |slots| {
      BeyondWindow(slots, h, w, pos);
    }
  }

  /** The producer step that breaks the ring: publishing a sentinel over a slot that is not free. */
  predicate Clobbers<T>(s: State<T>, a: Action<T>) {
    && a.ProducerStep? && a.p < |s.producers| && s.slots != []
    && s.producers[a.p].DropWritten?
    && SlotAt(s.slots, s.producers[a.p].pos).sequence != s.producers[a.p].pos
  }

  /** Writing the slot of one window position leaves the slots of the others alone. */
  lemma SlotFrame<T>(slots: seq<Slot<T>>, h: nat, pos: nat, slot: Slot<T>, slots': seq<Slot<T>>)
    requires slots != [] && h <= pos < h + |slots|
    requires slots' == slots[Index(pos, |slots|) := slot]
    ensures SlotAt(slots', pos) == slot
    ensures forall i: nat | h <= i < h + |slots| && i != pos :: SlotAt(slots', i) == SlotAt(slots, i)
    ensures forall i: nat | h <= i < h + |slots| && i != pos :: Published(slots', i) == Published(slots, i)
  {
    WindowIndices(h, |slots|);
  }

  lemma StructurePublish<T>(s: State<T>, p: nat)
    requires Structure(s) && p < |s.producers|
    requires s.producers[p].Written? || (s.producers[p].DropWritten? && !Clobbers(s, ProducerStep(p)))
    ensures Structure(StepProducer(s, p))
  {
    var pos, h := s.producers[p].pos, |s.popped|;
    if s.producers[p].DropWritten? {
      LoadedInWindow(s.slots, h, s.writePos, pos);
    }
    var s' := StepProducer(s, p);
    SlotFrame(s.slots, h, pos, SlotAt(s.slots, pos).(sequence := pos + 1), s'.slots);
    assert Published(s'.slots, pos);
    assert WindowOk(s'.slots, h, s'.writePos);
    forall i: nat | h <= i < s.writePos && i != pos
      ensures (i < h + |s.slots| && Published(s'.slots, i)) || Held(s'.producers, i)
    {
      if !(i < h + |s.slots| && Published(s.slots, i)) {
        HeldStays(s.producers, p, Idle, i);
      }
    }
    assert ProducersOk(s'.slots, s'.producers, h, s'.writePos);
  }

  /** Slots that agree on sequences agree on everything `Structure` reads of them. */
  lemma SameSequences<T>(a: seq<Slot<T>>, b: seq<Slot<T>>)
    requires |a| == |b| > 0 && forall j | 0 <= j < |a| :: a[j].sequence == b[j].sequence
    ensures forall i: nat :: SlotAt(a, i).sequence == SlotAt(b, i).sequence
    ensures forall i: nat :: Published(a, i) == Published(b, i)
  {
  }

  /** A producer that moves without publishing still holds its position, and nobody else notices. */
  lemma ProducerMoves<T>(slots: seq<Slot<T>>, producers: seq<Producer<T>>, p: nat, pc: Producer<T>, h: nat, w: nat)
    requires slots != [] && p < |producers| && !producers[p].Idle? && !pc.Idle? && pc.pos == producers[p].pos
    requires NoHole(slots, producers, h, w) && DistinctClaims(producers) && ProducersOk(slots, producers, h, w)
    requires pc.Owner? || pc.Written? ==> pc.pos < h + |slots|
    ensures NoHole(slots, producers[p := pc], h, w)
    ensures DistinctClaims(producers[p := pc]) && ProducersOk(slots, producers[p := pc], h, w)
  {
    forall i: nat | h <= i < w
      ensures (i < h + |slots| && Published(slots, i)) || Held(producers[p := pc], i)
    {
      if i == pc.pos {
        assert Holds(producers[p := pc], p, i);
      } else if !(i < h + |slots| && Published(slots, i)) {
        HeldStays(producers, p, pc, i);
      }
    }
  }

  lemma StructureLocal<T>(s: State<T>, p: nat)
    requires Structure(s) && p < |s.producers|
    requires s.producers[p].Spinning? || s.producers[p].Owner? || s.producers[p].Dropping?
    ensures Structure(StepProducer(s, p))
  {
    var pos, h := s.producers[p].pos, |s.popped|;
    var s' := StepProducer(s, p);
    if s'.producers[p].Owner? {
      LoadedInWindow(s.slots, h, s.writePos, pos);
    }
    ProducerMoves(s.slots, s.producers, p, s'.producers[p], h, s.writePos);
    assert s'.producers == s.producers[p := s'.producers[p]];
    SameSequences(s.slots, s'.slots);
  }

  lemma StructureConsumer<T>(s: State<T>)
    requires Structure(s)
    ensures Structure(StepConsumer(s))
  {
    var h, c := |s.popped|, |s.slots|;
    if s.consumer.Advanced? {
      var s' := StepConsumer(s);
      SlotFrame(s.slots, h, h, SlotAt(s.slots, h).(sequence := h + c), s'.slots);
      assert SlotAt(s'.slots, h + c) == SlotAt(s'.slots, h);
      assert h < s.writePos;
      assert WindowOk(s'.slots, h + 1, s'.writePos);
      forall p: nat | p < |s.producers| && !s.producers[p].Idle?
        ensures h + 1 <= s.producers[p].pos
      {
      }
      assert NoHole(s'.slots, s'.producers, h + 1, s'.writePos);
    }
  }

  lemma StructureStep<T>(s: State<T>, a: Action<T>)
    requires Structure(s) && !Clobbers(s, a)
    ensures Structure(Step(s, a))
  {
    match a
    case Claim(p, event, bounded) => StructureClaim(s, p, event, bounded);
    case ConsumerStep => StructureConsumer(s);
    case ProducerStep(p) =>
      if p < |s.producers| && !s.producers[p].Idle? {
        if s.producers[p].Written? || s.producers[p].DropWritten? {
          StructurePublish(s, p);
        } else {
          StructureLocal(s, p);
        }
      }
  }

  // ---- Payloads: what each position must deliver ----

  /** The event position `i` stands for: its claimer's, or the blank one if TryPush gave up on it. */
  function Expected<T>(s: State<T>, i: nat): T
    requires i < |s.claims|
  {
    if i in s.sentinels then s.blank else s.claims[i]
  }

  ghost predicate SlotsHold<T>(s: State<T>)
    requires s.slots != [] && s.writePos == |s.claims|
  {
    forall i: nat | |s.popped| <= i < s.writePos && i < |s.popped| + |s.slots| && Published(s.slots, i) ::
      SlotAt(s.slots, i).data == Expected(s, i)
  }

  ghost predicate ProducersHold<T>(s: State<T>)
    requires Structure(s)
  {
    forall p: nat | p < |s.producers| && !s.producers[p].Idle? ::
      var pc := s.producers[p];
      && (pc.DropWritten? <==> pc.pos in s.sentinels)
      && (pc.Spinning? || pc.Owner? ==> pc.event == s.claims[pc.pos])
      && (pc.DropWritten? ==> pc.pos < |s.popped| + |s.slots|)
      && (pc.Written? || pc.DropWritten? ==> SlotAt(s.slots, pc.pos).data == Expected(s, pc.pos))
  }

  ghost predicate ConsumerHolds<T>(s: State<T>)
    requires |s.popped| <= s.writePos == |s.claims|
  {
    && (forall k | 0 <= k < |s.popped| :: s.popped[k] == Expected(s, k))
    && (s.consumer.Copied? || s.consumer.Advanced? ==>
          s.consumer.pos < s.writePos && s.consumer.out == Expected(s, s.consumer.pos))
  }

  ghost predicate Payloads<T>(s: State<T>) {
    && Structure(s)
    && (forall i | i in s.sentinels :: i < s.writePos)
    && SlotsHold(s)
    && ProducersHold(s)
    && ConsumerHolds(s)
  }

  /** TryPush about to write the blank event into a slot the consumer has not freed for it. */
  predicate OccupiedDrop<T>(s: State<T>, a: Action<T>) {
    && a.ProducerStep? && a.p < |s.producers| && s.slots != []
    && s.producers[a.p].Dropping?
    && SlotAt(s.slots, s.producers[a.p].pos).sequence != s.producers[a.p].pos
  }

  lemma PayloadsClaim<T>(s: State<T>, p: nat, event: T, bounded: bool)
    requires Payloads(s)
    ensures Payloads(Step(s, Claim(p, event, bounded)))
  {
    StructureClaim(s, p, event, bounded);
  }

  lemma PayloadsRelabel<T>(s: State<T>, p: nat, pc: Producer<T>)
    requires Payloads(s) && p < |s.producers| && s.producers[p].Spinning?
    requires pc.Spinning? || pc.Owner? || pc.Dropping?
    requires pc.pos == s.producers[p].pos && (!pc.Dropping? ==> pc.event == s.producers[p].event)
    requires Structure(SetProducer(s, p, pc))
    ensures Payloads(SetProducer(s, p, pc))
  {
    var s' := SetProducer(s, p, pc);
    assert forall q: nat | q < |s.producers| && q != p :: s'.producers[q] == s.producers[q];
    assert forall i: nat | i < s.writePos :: Expected(s', i) == Expected(s, i);
    assert SlotsHold(s');
    assert ProducersHold(s');
  }

  lemma PayloadsSpin<T>(s: State<T>, p: nat)
    requires Payloads(s) && p < |s.producers| && s.producers[p].Spinning?
    ensures Payloads(StepProducer(s, p))
  {
    StructureLocal(s, p);
    var s' := StepProducer(s, p);
    assert s' == SetProducer(s, p, s'.producers[p]);
    PayloadsRelabel(s, p, s'.producers[p]);
  }

  /** A payload write reaches the writer's own slot only. */
  lemma WriteFrame<T>(s: State<T>, p: nat)
    requires Payloads(s) && p < |s.producers| && !OccupiedDrop(s, ProducerStep(p))
    requires s.producers[p].Owner? || s.producers[p].Dropping?
    ensures var s', pos := StepProducer(s, p), s.producers[p].pos;
            && Structure(s') && s'.claims == s.claims
            && pos < |s.popped| + |s.slots| && pos !in s.sentinels
            && SlotAt(s'.slots, pos).sequence == pos
            && SlotAt(s'.slots, pos).data == Expected(s', pos)
            && (forall i: nat | |s.popped| <= i < |s.popped| + |s.slots| && i != pos ::
                  SlotAt(s'.slots, i) == SlotAt(s.slots, i))
            && (forall i: nat | i < s.writePos && i != pos :: Expected(s', i) == Expected(s, i))
  {
    StructureLocal(s, p);
    var pos, h := s.producers[p].pos, |s.popped|;
    if s.producers[p].Dropping? {
      LoadedInWindow(s.slots, h, s.writePos, pos);
    }
    var s' := StepProducer(s, p);
    SlotFrame(s.slots, h, pos, SlotAt(s.slots, pos).(data := s'.slots[Index(pos, |s.slots|)].data), s'.slots);
  }

  lemma SlotsHoldAfterWrite<T>(s: State<T>, p: nat)
    requires Payloads(s) && p < |s.producers| && !OccupiedDrop(s, ProducerStep(p))
    requires s.producers[p].Owner? || s.producers[p].Dropping?
    ensures Structure(StepProducer(s, p)) && SlotsHold(StepProducer(s, p))
  {
    WriteFrame(s, p);
    var s' := StepProducer(s, p);
    forall i: nat | |s.popped| <= i < s.writePos && i < |s.popped| + |s.slots| && Published(s'.slots, i)
      ensures SlotAt(s'.slots, i).data == Expected(s', i)
    {
      assert Published(s.slots, i);
    }
  }

  lemma ProducersHoldAfterWrite<T>(s: State<T>, p: nat)
    requires Payloads(s) && p < |s.producers| && !OccupiedDrop(s, ProducerStep(p))
    requires s.producers[p].Owner? || s.producers[p].Dropping?
    ensures Structure(StepProducer(s, p)) && ProducersHold(StepProducer(s, p))
  {
    WriteFrame(s, p);
    var s', pos := StepProducer(s, p), s.producers[p].pos;
    forall q: nat | q < |s.producers| && q != p && !s.producers[q].Idle?
      ensures s'.producers[q] == s.producers[q] && s.producers[q].pos != pos
    {
    }
    assert s'.sentinels - {pos} == s.sentinels;
  }

  lemma PayloadsWrite<T>(s: State<T>, p: nat)
    requires Payloads(s) && p < |s.producers| && !OccupiedDrop(s, ProducerStep(p))
    requires s.producers[p].Owner? || s.producers[p].Dropping?
    ensures Payloads(StepProducer(s, p))
  {
    WriteFrame(s, p);
    SlotsHoldAfterWrite(s, p);
    ProducersHoldAfterWrite(s, p);
    var pos := s.producers[p].pos;
    assert |s.popped| <= pos && !(!s.consumer.AtCheck? && s.consumer.pos == pos);
    assert ConsumerHolds(StepProducer(s, p));
  }

  lemma PayloadsPublish<T>(s: State<T>, p: nat)
    requires Payloads(s) && p < |s.producers|
    requires s.producers[p].Written? || s.producers[p].DropWritten?
    ensures !Clobbers(s, ProducerStep(p))
    ensures Payloads(StepProducer(s, p))
  {
    var pos, h := s.producers[p].pos, |s.popped|;
    assert SlotAt(s.slots, pos).sequence == pos;
    StructurePublish(s, p);
    var s' := StepProducer(s, p);
    SlotFrame(s.slots, h, pos, SlotAt(s.slots, pos).(sequence := pos + 1), s'.slots);
    assert forall i: nat | i < s.writePos :: Expected(s', i) == Expected(s, i);
    assert SlotsHold(s');
    assert ProducersHold(s');
  }

  /** Freeing the oldest position rewrites its slot's sequence and moves the window on by one. */
  lemma FreeFrame<T>(s: State<T>)
    requires Structure(s) && s.consumer.Advanced?
    ensures Structure(StepConsumer(s)) && |s.popped| < s.writePos
    ensures forall i: nat | |s.popped| < i < |s.popped| + |s.slots| ::
              SlotAt(StepConsumer(s).slots, i) == SlotAt(s.slots, i)
    ensures !Published(StepConsumer(s).slots, |s.popped| + |s.slots|)
    ensures forall p: nat | p < |s.producers| && !s.producers[p].Idle? :: |s.popped| < s.producers[p].pos
  {
    StructureConsumer(s);
    var s', h := StepConsumer(s), |s.popped|;
    SlotFrame(s.slots, h, h, SlotAt(s.slots, h).(sequence := h + |s.slots|), s'.slots);
    assert SlotAt(s'.slots, h + |s.slots|) == SlotAt(s'.slots, h);
  }

  lemma PayloadsFree<T>(s: State<T>)
    requires Payloads(s) && s.consumer.Advanced?
    ensures Payloads(StepConsumer(s))
  {
    FreeFrame(s);
    var s', h := StepConsumer(s), |s.popped|;
    assert s'.claims == s.claims && s'.sentinels == s.sentinels && s'.producers == s.producers;
    assert s'.popped == s.popped + [s.consumer.out];
    forall i: nat | h + 1 <= i < s'.writePos && i < h + 1 + |s'.slots| && Published(s'.slots, i)
      ensures SlotAt(s'.slots, i).data == Expected(s', i)
    {
      assert i < h + |s.slots|;
      assert Published(s.slots, i);
    }
    assert SlotsHold(s');
    assert ProducersHold(s');
  }

  lemma PayloadsConsumer<T>(s: State<T>)
    requires Payloads(s)
    ensures Payloads(StepConsumer(s))
  {
    if s.consumer.Advanced? {
      PayloadsFree(s);
    } else {
      StructureConsumer(s);
      var s' := StepConsumer(s);
      assert s' == s.(consumer := s'.consumer, readPos := s'.readPos);
      assert forall i: nat | i < s.writePos :: Expected(s', i) == Expected(s, i);
      assert SlotsHold(s');
      assert ProducersHold(s');
      assert ConsumerHolds(s');
    }
  }

  lemma PayloadsStep<T>(s: State<T>, a: Action<T>)
    requires Payloads(s) && !OccupiedDrop(s, a)
    ensures Payloads(Step(s, a))
  {
    match a
    case Claim(p, event, bounded) => PayloadsClaim(s, p, event, bounded);
    case ConsumerStep => PayloadsConsumer(s);
    case ProducerStep(p) =>
      if p < |s.producers| && !s.producers[p].Idle? {
        match s.producers[p]
        case Spinning(_, _, _, _) => PayloadsSpin(s, p);
        case Owner(_, _) => PayloadsWrite(s, p);
        case Dropping(_) => PayloadsWrite(s, p);
        case _ => PayloadsPublish(s, p);
      }
  }

  // ---- Main results: first in, first out ----

  /** No TryPush of the run gives up over a slot that is still in use. */
  predicate DropsOnlyFreeSlots<T>(s: State<T>, acts: seq<Action<T>>)
    decreases |acts|
  {
    acts == [] || (!OccupiedDrop(s, acts[0]) && DropsOnlyFreeSlots(Step(s, acts[0]), acts[1..]))
  }

  /** No TryPush of the run enters the drop branch at all. */
  predicate DropFree<T>(s: State<T>, acts: seq<Action<T>>)
    decreases |acts|
  {
    acts == [] ||
    (var s' := Step(s, acts[0]);
     (forall p: nat | p < |s'.producers| :: !s'.producers[p].Dropping?) && DropFree(s', acts[1..]))
  }

  lemma {:induction false} RunPayloads<T>(s: State<T>, acts: seq<Action<T>>)
    requires Payloads(s) && DropsOnlyFreeSlots(s, acts)
    ensures Payloads(Run(s, acts))
    decreases |acts|
  {
    if acts != [] {
      PayloadsStep(s, acts[0]);
      RunPayloads(Step(s, acts[0]), acts[1..]);
    }
  }

  lemma PayloadsInit<T>(capacity: nat, threads: nat, blank: T)
    requires capacity >= 2
    ensures Payloads(Init(capacity, threads, blank))
  {
    StructureInit(capacity, threads, blank);
  }

  /** Nobody at Dropping now and never later: then no sentinel is ever written. */
  lemma {:induction false} DropFreeRuns<T>(s: State<T>, acts: seq<Action<T>>)
    requires DropFree(s, acts) && forall p: nat | p < |s.producers| :: !s.producers[p].Dropping?
    ensures DropsOnlyFreeSlots(s, acts)
    ensures Run(s, acts).sentinels == s.sentinels
    decreases |acts|
  {
    if acts != [] {
      DropFreeRuns(Step(s, acts[0]), acts[1..]);
    }
  }

  /**
   First in, first out with nothing lost: in every interleaving whose drops land only on freed
   slots, the k-th event popped is the one claimed at position k (blank if its producer gave up),
   and every claimed position not yet popped is published with its event or in the hands of exactly
   one producer.
   */
  lemma FifoWithFreeDrops<T>(capacity: nat, threads: nat, blank: T, acts: seq<Action<T>>)
    requires capacity >= 2
    requires DropsOnlyFreeSlots(Init(capacity, threads, blank), acts)
    ensures var s := Run(Init(capacity, threads, blank), acts);
            && |s.popped| <= |s.claims|
            && (forall k | 0 <= k < |s.popped| :: s.popped[k] == Expected(s, k))
            && s.slots != []
            && (forall i: nat | |s.popped| <= i < |s.claims| ::
                  || (Published(s.slots, i) && SlotAt(s.slots, i).data == Expected(s, i))
                  || Held(s.producers, i))
            && DistinctClaims(s.producers)
  {
    PayloadsInit(capacity, threads, blank);
    RunPayloads(Init(capacity, threads, blank), acts);
  }

  /** Without the drop branch the consumer sees exactly the claimed events, in claim order. */
  lemma Fifo<T>(capacity: nat, threads: nat, blank: T, acts: seq<Action<T>>)
    requires capacity >= 2
    requires DropFree(Init(capacity, threads, blank), acts)
    ensures var s := Run(Init(capacity, threads, blank), acts);
            |s.popped| <= |s.claims| && s.popped == s.claims[..|s.popped|]
  {
    var s0 := Init(capacity, threads, blank);
    DropFreeRuns(s0, acts);
    FifoWithFreeDrops(capacity, threads, blank, acts);
  }

  /**
   Exclusive access, in the same runs: two producers between their successful load (or their drop)
   and their publish never share a slot, no unread event is in such a slot, and the consumer is not
   popping from it.
   */
  lemma ExclusiveSlots<T>(capacity: nat, threads: nat, blank: T, acts: seq<Action<T>>, p: nat)
    requires capacity >= 2
    requires DropsOnlyFreeSlots(Init(capacity, threads, blank), acts)
    requires var s := Run(Init(capacity, threads, blank), acts); p < |s.producers| && Writing(s.producers[p])
    ensures var s := Run(Init(capacity, threads, blank), acts);
            var pos := s.producers[p].pos;
            && s.slots != []
            && SlotAt(s.slots, pos).sequence == pos
            && (forall q: nat | q < |s.producers| && q != p && Writing(s.producers[q]) ::
                  Index(s.producers[q].pos, |s.slots|) != Index(pos, |s.slots|))
            && (forall i: nat | && |s.popped| <= i < |s.claims| && i < |s.popped| + |s.slots|
                                && i != pos && Published(s.slots, i) ::
                  Index(i, |s.slots|) != Index(pos, |s.slots|))
            && (!s.consumer.AtCheck? ==> Index(s.consumer.pos, |s.slots|) != Index(pos, |s.slots|))
  {
    PayloadsInit(capacity, threads, blank);
    RunPayloads(Init(capacity, threads, blank), acts);
    var s := Run(Init(capacity, threads, blank), acts);
    WindowIndices(|s.popped|, |s.slots|);
  }

  /** Between learning that it may use the slot and publishing it. */
  predicate Writing<T>(pc: Producer<T>) {
    pc.Owner? || pc.Written? || pc.DropWritten?
  }
}
