/**
 What the consumer sees in any run of the multi-producer ring, publishes over
 busy slots included. Besides the claimed event a position can give the
 blank one, if a drop wrote its slot while the event was only there, and a
 position given up on can give the event of an earlier one, if that was written
 after the drop's blank. The marks record which of these happened.
 */
module MpscMarks {
  import opened RingIndex
  import opened MpscQueue
  import opened MpscOrder
  import opened MpscHalts
  import opened MpscDrops

  /** `erased`: positions whose event a drop destroyed. `rewritten`: given-up positions whose blank was overwritten. */
  datatype Marks = Marks(erased: set<nat>, rewritten: set<nat>)

  const CLEAN: Marks := Marks({}, {})

  /** Position `k` is published or matched, and not copied out. */
  predicate Showing<T>(s: State<T>, k: nat)
    requires s.slots != []
  {
    (Published(s.slots, k) || Popping(s, k)) && !InHand(s, k)
  }

  /** The event of position `k` is in its slot and nowhere else: published or about to be, and not copied out. */
  ghost predicate OnlyInSlot<T>(s: State<T>, k: nat)
    requires s.slots != []
  {
    || Showing(s, k)
    || exists q: nat | Holds(s.producers, q, k) :: s.producers[q].Written?
  }

  predicate SameSlot<T>(s: State<T>, i: nat, pos: nat)
    requires s.slots != []
  {
    Index(i, |s.slots|) == Index(pos, |s.slots|)
  }

  /** What a drop's payload write at `pos` destroys. */
  ghost function Destroyed<T>(s: State<T>, pos: nat): set<nat>
    requires s.slots != []
  {
    set i: nat | && |s.popped| <= i < |s.popped| + |s.slots| && SameSlot(s, i, pos)
                 && i !in s.sentinels && OnlyInSlot(s, i)
  }

  /** The given-up positions, not copied out yet, that share the slot of `pos`. */
  function Sharing<T>(s: State<T>, pos: nat): set<nat>
    requires s.slots != []
  {
    set i | i in s.sentinels && |s.popped| <= i && SameSlot(s, i, pos) && !InHand(s, i)
  }

  ghost function NextMarks<T>(s: State<T>, a: Action<T>, m: Marks): Marks {
    if s.slots == [] || !a.ProducerStep? || a.p >= |s.producers| then m
    else
      match s.producers[a.p]
      case Owner(pos, _) => m.(rewritten := m.rewritten + Sharing(s, pos))
      case Dropping(pos) =>
        Marks(m.erased + Destroyed(s, pos), m.rewritten - Sharing(s, pos) - {pos})
      case _ => m
  }

  ghost function MarksOf<T>(s: State<T>, acts: seq<Action<T>>, m: Marks): Marks
    decreases |acts|
  {
    if acts == [] then m else MarksOf(Step(s, acts[0]), acts[1..], NextMarks(s, acts[0], m))
  }

  // ---- What a position carries ----

  /** `x` was claimed at an earlier position of the same slot. */
  ghost predicate OfEarlier<T>(claims: seq<T>, c: nat, i: nat, x: T)
    requires c > 0
  {
    exists j: nat | j < i && j < |claims| && Index(j, c) == Index(i, c) :: claims[j] == x
  }

  ghost predicate Carries<T>(s: State<T>, m: Marks, i: nat, x: T)
    requires s.slots != []
  {
    if i in s.sentinels then
      if i in m.rewritten then OfEarlier(s.claims, |s.slots|, i, x) else x == s.blank
    else
      i < |s.claims| && x == if i in m.erased then s.blank else s.claims[i]
  }

  // ---- Invariant ----

  ghost predicate ShownCarry<T>(s: State<T>, m: Marks)
    requires s.slots != []
  {
    forall i: nat | |s.popped| <= i < |s.popped| + |s.slots| && Showing(s, i) ::
      Carries(s, m, i, SlotAt(s.slots, i).data)
  }

  predicate WroteSlot<T>(pc: Producer<T>) {
    pc.Written? || pc.DropWritten?
  }

  ghost predicate WrittenCarry<T>(s: State<T>, m: Marks)
    requires s.slots != []
  {
    forall p: nat | p < |s.producers| && WroteSlot(s.producers[p]) ::
      Carries(s, m, s.producers[p].pos, SlotAt(s.slots, s.producers[p].pos).data)
  }

  /** Only a thread that wrote the blank is marked as having given up, and an event not written is not erased. */
  ghost predicate Unmarked<T>(s: State<T>, m: Marks) {
    forall p: nat | p < |s.producers| && !s.producers[p].Idle? ::
      && (s.producers[p].DropWritten? <==> s.producers[p].pos in s.sentinels)
      && (!WroteSlot(s.producers[p]) ==> s.producers[p].pos !in m.erased)
  }

  ghost predicate OutCarries<T>(s: State<T>, m: Marks)
    requires s.slots != []
  {
    && (forall k: nat | k < |s.popped| :: Carries(s, m, k, s.popped[k]))
    && (s.consumer.Copied? || s.consumer.Advanced? ==> Carries(s, m, s.consumer.pos, s.consumer.out))
  }

  ghost predicate Marked<T>(s: State<T>, m: Marks) {
    && Order(s) && EventsKept(s)
    && (forall i | i in s.sentinels :: i < s.writePos) && (forall i | i in m.erased :: i < s.writePos)
    && ShownCarry(s, m) && WrittenCarry(s, m) && Unmarked(s, m) && OutCarries(s, m)
  }

  /** The position of a thread is not published, not being popped and not copied out. */
  lemma HeldNotShown<T>(s: State<T>, q: nat)
    requires Order(s) && q < |s.producers| && !s.producers[q].Idle?
    ensures var i := s.producers[q].pos; |s.popped| <= i && !Showing(s, i) && !InHand(s, i)
  {
    assert Holds(s.producers, q, s.producers[q].pos);
  }

  // ---- Steps that write no payload ----

  /** Claims only grow, so what a position carries stays. */
  lemma CarriesKept<T>(s: State<T>, s': State<T>, m: Marks, i: nat, x: T)
    requires s.slots != [] && |s'.slots| == |s.slots| && s.claims <= s'.claims
    requires s'.sentinels == s.sentinels && s'.blank == s.blank && Carries(s, m, i, x)
    ensures Carries(s', m, i, x)
  {
    if i in s.sentinels && i in m.rewritten {
      var j: nat :| j < i && j < |s.claims| && Index(j, |s.slots|) == Index(i, |s.slots|) && s.claims[j] == x;
      assert s'.claims[j] == x;
    }
  }

  lemma OutKept<T>(s: State<T>, s': State<T>, m: Marks)
    requires s.slots != [] && |s'.slots| == |s.slots| && s.claims <= s'.claims && OutCarries(s, m)
    requires s'.sentinels == s.sentinels && s'.blank == s.blank && s'.popped == s.popped && s'.consumer == s.consumer
    ensures OutCarries(s', m)
  {
    forall k: nat | k < |s.popped|
      ensures Carries(s', m, k, s'.popped[k])
    {
      CarriesKept(s, s', m, k, s.popped[k]);
    }
    if s.consumer.Copied? || s.consumer.Advanced? {
      CarriesKept(s, s', m, s.consumer.pos, s.consumer.out);
    }
  }

  lemma ShownKept<T>(s: State<T>, s': State<T>, m: Marks)
    requires s.slots != [] && s'.slots == s.slots && s.claims <= s'.claims && ShownCarry(s, m)
    requires s'.sentinels == s.sentinels && s'.blank == s.blank && s'.popped == s.popped
    requires forall i: nat :: Showing(s', i) ==> Showing(s, i)
    ensures ShownCarry(s', m)
  {
    forall i: nat | |s.popped| <= i < |s.popped| + |s.slots| && Showing(s', i)
      ensures Carries(s', m, i, SlotAt(s'.slots, i).data)
    {
      CarriesKept(s, s', m, i, SlotAt(s.slots, i).data);
    }
  }

  /** A producer moves, and has written its slot afterwards only if it had before. */
  lemma WrittenKept<T>(s: State<T>, s': State<T>, m: Marks, p: nat)
    requires s.slots != [] && s'.slots == s.slots && s.claims <= s'.claims && WrittenCarry(s, m)
    requires s'.sentinels == s.sentinels && s'.blank == s.blank
    requires p < |s.producers| == |s'.producers| && !WroteSlot(s'.producers[p])
    requires forall q: nat | q < |s.producers| && q != p :: s'.producers[q] == s.producers[q]
    ensures WrittenCarry(s', m)
  {
    forall q: nat | q < |s'.producers| && WroteSlot(s'.producers[q])
      ensures Carries(s', m, s'.producers[q].pos, SlotAt(s'.slots, s'.producers[q].pos).data)
    {
      CarriesKept(s, s', m, s.producers[q].pos, SlotAt(s.slots, s.producers[q].pos).data);
    }
  }

  lemma MarkedClaim<T>(s: State<T>, m: Marks, p: nat, event: T, bounded: bool)
    requires Marked(s, m)
    ensures Marked(Step(s, Claim(p, event, bounded)), m)
  {
    var s' := Step(s, Claim(p, event, bounded));
    if p < |s.producers| && s.producers[p].Idle? {
      OrderStep(s, Claim(p, event, bounded));
      EventsKeptStep(s, Claim(p, event, bounded));
      OutKept(s, s', m);
      ShownKept(s, s', m);
      WrittenKept(s, s', m, p);
    }
  }

  /** A producer changes its program counter and nothing else. */
  lemma MarkedRelabel<T>(s: State<T>, m: Marks, p: nat, pc: Producer<T>)
    requires Marked(s, m) && p < |s.producers| && s.producers[p].Spinning? && !pc.Idle? && pc.pos == s.producers[p].pos
    requires !WroteSlot(pc) && Order(SetProducer(s, p, pc)) && EventsKept(SetProducer(s, p, pc))
    ensures Marked(SetProducer(s, p, pc), m)
  {
    var s' := SetProducer(s, p, pc);
    OutKept(s, s', m);
    ShownKept(s, s', m);
    WrittenKept(s, s', m, p);
  }

  lemma SpinRelabels<T>(s: State<T>, p: nat)
    requires s.slots != [] && p < |s.producers| && s.producers[p].Spinning?
    ensures var pc := StepProducer(s, p).producers[p];
            && StepProducer(s, p) == SetProducer(s, p, pc)
            && !pc.Idle? && pc.pos == s.producers[p].pos && !WroteSlot(pc)
  {
  }

  lemma MarkedSpin<T>(s: State<T>, m: Marks, p: nat)
    requires Marked(s, m) && p < |s.producers| && s.producers[p].Spinning?
    ensures Marked(StepProducer(s, p), m)
  {
    OrderStep(s, ProducerStep(p));
    EventsKeptStep(s, ProducerStep(p));
    SpinRelabels(s, p);
    MarkedRelabel(s, m, p, StepProducer(s, p).producers[p]);
  }

  /** A publish changes a sequence and no payload, and shows no position but its own. */
  lemma PublishFrame<T>(s: State<T>, p: nat, i: nat)
    requires Order(s) && p < |s.producers| && WroteSlot(s.producers[p])
    ensures var s', pos := StepProducer(s, p), s.producers[p].pos;
            && |s'.slots| == |s.slots| && SlotAt(s'.slots, i).data == SlotAt(s.slots, i).data
            && (Showing(s', i) ==> i == pos || Showing(s, i))
  {
    var pos := s.producers[p].pos;
    PublishOne(s.slots, pos, SlotAt(s.slots, pos).(sequence := pos + 1), StepProducer(s, p).slots, i);
  }

  lemma MarkedPublish<T>(s: State<T>, m: Marks, p: nat)
    requires Marked(s, m) && p < |s.producers| && WroteSlot(s.producers[p])
    ensures Marked(StepProducer(s, p), m)
  {
    OrderStep(s, ProducerStep(p));
    EventsKeptStep(s, ProducerStep(p));
    var s', pos := StepProducer(s, p), s.producers[p].pos;
    OutKept(s, s', m);
    forall i: nat | |s.popped| <= i < |s.popped| + |s.slots| && Showing(s', i)
      ensures Carries(s', m, i, SlotAt(s'.slots, i).data)
    {
      PublishFrame(s, p, i);
      CarriesKept(s, s', m, i, SlotAt(s.slots, i).data);
    }
    forall q: nat | q < |s'.producers| && WroteSlot(s'.producers[q])
      ensures Carries(s', m, s'.producers[q].pos, SlotAt(s'.slots, s'.producers[q].pos).data)
    {
      PublishFrame(s, p, s.producers[q].pos);
      CarriesKept(s, s', m, s.producers[q].pos, SlotAt(s.slots, s.producers[q].pos).data);
    }
  }

  // ---- The consumer ----

  lemma MarkedFree<T>(s: State<T>, m: Marks)
    requires Marked(s, m) && s.consumer.Advanced?
    ensures Marked(StepConsumer(s), m)
  {
    OrderStep(s, ConsumerStep);
    var s', h := StepConsumer(s), |s.popped|;
    forall k: nat | k < |s'.popped|
      ensures Carries(s', m, k, s'.popped[k])
    {
      CarriesKept(s, s', m, k, s'.popped[k]);
    }
    forall i: nat | h + 1 <= i < h + 1 + |s.slots| && Showing(s', i)
      ensures Carries(s', m, i, SlotAt(s'.slots, i).data)
    {
      FreeOne(s.slots, h, SlotAt(s.slots, h).(sequence := h + |s.slots|), s'.slots, i);
      CarriesKept(s, s', m, i, SlotAt(s.slots, i).data);
    }
    FreeKeepsWritten(s, m);
  }

  lemma FreeKeepsWritten<T>(s: State<T>, m: Marks)
    requires Marked(s, m) && s.consumer.Advanced?
    ensures WrittenCarry(StepConsumer(s), m)
  {
    var s' := StepConsumer(s);
    forall q: nat | q < |s'.producers| && WroteSlot(s'.producers[q])
      ensures Carries(s', m, s'.producers[q].pos, SlotAt(s'.slots, s'.producers[q].pos).data)
    {
      var pos := s.producers[q].pos;
      assert SlotAt(s'.slots, pos).data == SlotAt(s.slots, pos).data;
      CarriesKept(s, s', m, pos, SlotAt(s.slots, pos).data);
    }
  }

  /** The consumer moves on without freeing. */
  lemma MarkedLook<T>(s: State<T>, m: Marks, c: Consumer<T>, readPos: nat)
    requires Marked(s, m) && Order(s.(consumer := c, readPos := readPos))
    requires forall i: nat :: Showing(s.(consumer := c, readPos := readPos), i) ==> Showing(s, i)
    requires c.Copied? || c.Advanced? ==> Carries(s, m, c.pos, c.out)
    ensures Marked(s.(consumer := c, readPos := readPos), m)
  {
    var s' := s.(consumer := c, readPos := readPos);
    ShownKept(s, s', m);
    assert WrittenCarry(s', m);
  }

  lemma LookFrame<T>(s: State<T>, m: Marks)
    requires Marked(s, m) && !s.consumer.Advanced?
    ensures var s' := StepConsumer(s);
            && s' == s.(consumer := s'.consumer, readPos := s'.readPos)
            && (forall i: nat :: Showing(s', i) ==> Showing(s, i))
            && (s'.consumer.Copied? || s'.consumer.Advanced? ==> Carries(s, m, s'.consumer.pos, s'.consumer.out))
  {
    if s.consumer.Matched? {
      assert Carries(s, m, s.consumer.pos, SlotAt(s.slots, s.consumer.pos).data);
    }
  }

  lemma MarkedConsumer<T>(s: State<T>, m: Marks)
    requires Marked(s, m)
    ensures Marked(StepConsumer(s), m)
  {
    if s.consumer.Advanced? {
      MarkedFree(s, m);
    } else {
      OrderStep(s, ConsumerStep);
      LookFrame(s, m);
      MarkedLook(s, m, StepConsumer(s).consumer, StepConsumer(s).readPos);
    }
  }

  // ---- Steps that write a payload ----

  /** The effect of a payload write on the slots. */
  lemma WriteOne<T>(s: State<T>, p: nat, i: nat)
    requires s.slots != [] && p < |s.producers| && (s.producers[p].Owner? || s.producers[p].Dropping?)
    ensures var s', pos := StepProducer(s, p), s.producers[p].pos;
            var x := if s.producers[p].Owner? then s.producers[p].event else s.blank;
            && |s'.slots| == |s.slots| && SlotAt(s'.slots, i).sequence == SlotAt(s.slots, i).sequence
            && SlotAt(s'.slots, i).data == if SameSlot(s, i, pos) then x else SlotAt(s.slots, i).data
  {
  }

  /** Two unfreed positions of one slot, one of them in the window: that is the earlier. */
  lemma WindowIsFirst(h: nat, i: nat, j: nat, c: nat)
    requires c > 0 && h <= i < h + c && h <= j && Index(i, c) == Index(j, c) && i != j
    ensures i < j
  {
    if j < i {
      IndexNear(j, i, c);
    }
  }

  /** An event written after a drop's blank marks the drop's position. */
  lemma OwnerCarries<T>(s: State<T>, m: Marks, p: nat, i: nat, x: T)
    requires Marked(s, m) && p < |s.producers| && s.producers[p].Owner?
    requires !SameSlot(s, i, s.producers[p].pos) && Carries(s, m, i, x)
    ensures Carries(StepProducer(s, p), NextMarks(s, ProducerStep(p), m), i, x)
  {
    CarriesKept(s, StepProducer(s, p), m, i, x);
  }

  lemma OwnerOut<T>(s: State<T>, m: Marks, p: nat)
    requires Marked(s, m) && p < |s.producers| && s.producers[p].Owner?
    ensures OutCarries(StepProducer(s, p), NextMarks(s, ProducerStep(p), m))
  {
    var s', m' := StepProducer(s, p), NextMarks(s, ProducerStep(p), m);
    OutKept(s, s', m);
    forall k: nat | k < |s.popped|
      ensures Carries(s', m', k, s'.popped[k])
    {
      assert Carries(s', m, k, s'.popped[k]) && k !in Sharing(s, s.producers[p].pos);
    }
    if s.consumer.Copied? || s.consumer.Advanced? {
      assert InHand(s, s.consumer.pos) && s.consumer.pos !in Sharing(s, s.producers[p].pos);
    }
  }

  lemma OwnerShown<T>(s: State<T>, m: Marks, p: nat)
    requires Marked(s, m) && p < |s.producers| && s.producers[p].Owner?
    ensures ShownCarry(StepProducer(s, p), NextMarks(s, ProducerStep(p), m))
  {
    var s', m', pos := StepProducer(s, p), NextMarks(s, ProducerStep(p), m), s.producers[p].pos;
    forall i: nat | |s.popped| <= i < |s.popped| + |s.slots| && Showing(s', i)
      ensures Carries(s', m', i, SlotAt(s'.slots, i).data)
    {
      WriteOne(s, p, i);
      HeldNotShown(s, p);
      WindowIndices(|s.popped|, |s.slots|);
      assert !SameSlot(s, i, pos);
      OwnerCarries(s, m, p, i, SlotAt(s.slots, i).data);
    }
  }

  lemma OwnerWritten<T>(s: State<T>, m: Marks, p: nat, q: nat)
    requires Marked(s, m) && p < |s.producers| && s.producers[p].Owner?
    requires q < |s.producers| && WroteSlot(StepProducer(s, p).producers[q])
    ensures var s', m' := StepProducer(s, p), NextMarks(s, ProducerStep(p), m);
            Carries(s', m', s'.producers[q].pos, SlotAt(s'.slots, s'.producers[q].pos).data)
  {
    var s', m', pos := StepProducer(s, p), NextMarks(s, ProducerStep(p), m), s.producers[p].pos;
    var i := s'.producers[q].pos;
    WriteOne(s, p, i);
    if q == p {
      assert i == pos && i !in s.sentinels && i !in m.erased;
    } else if SameSlot(s, i, pos) {
      WindowIsFirst(|s.popped|, pos, i, |s.slots|);
      if s.producers[q].Written? {
        WindowIsFirst(|s.popped|, i, pos, |s.slots|);
      } else {
        assert i in Sharing(s, pos);
        assert s'.claims[pos] == SlotAt(s'.slots, i).data;
      }
    } else {
      OwnerCarries(s, m, p, i, SlotAt(s.slots, i).data);
    }
  }

  lemma MarkedOwner<T>(s: State<T>, m: Marks, p: nat)
    requires Marked(s, m) && p < |s.producers| && s.producers[p].Owner?
    ensures Marked(StepProducer(s, p), NextMarks(s, ProducerStep(p), m))
  {
    var s', m' := StepProducer(s, p), NextMarks(s, ProducerStep(p), m);
    OrderStep(s, ProducerStep(p));
    EventsKeptStep(s, ProducerStep(p));
    OwnerOut(s, m, p);
    OwnerShown(s, m, p);
    forall q: nat | q < |s'.producers| && WroteSlot(s'.producers[q])
      ensures Carries(s', m', s'.producers[q].pos, SlotAt(s'.slots, s'.producers[q].pos).data)
    {
      OwnerWritten(s, m, p, q);
    }
  }

  // The drop

  /** Positions of other slots, popped or copied out carry what they did. */
  lemma DropCarries<T>(s: State<T>, m: Marks, p: nat, i: nat, x: T)
    requires Marked(s, m) && p < |s.producers| && s.producers[p].Dropping? && i != s.producers[p].pos
    requires (!SameSlot(s, i, s.producers[p].pos) || i < |s.popped| || InHand(s, i)) && Carries(s, m, i, x)
    ensures Carries(StepProducer(s, p), NextMarks(s, ProducerStep(p), m), i, x)
  {
    var pos := s.producers[p].pos;
    assert i !in Sharing(s, pos);
    assert i !in Destroyed(s, pos) by {
      if InHand(s, i) {
        assert !Held(s.producers, i);
      }
    }
  }

  lemma DropOut<T>(s: State<T>, m: Marks, p: nat)
    requires Marked(s, m) && p < |s.producers| && s.producers[p].Dropping?
    ensures OutCarries(StepProducer(s, p), NextMarks(s, ProducerStep(p), m))
  {
    var s', m' := StepProducer(s, p), NextMarks(s, ProducerStep(p), m);
    forall k: nat | k < |s.popped|
      ensures Carries(s', m', k, s'.popped[k])
    {
      DropCarries(s, m, p, k, s.popped[k]);
    }
    if s.consumer.Copied? || s.consumer.Advanced? {
      var k := s.consumer.pos;
      assert InHand(s, k);
      HeldNotShown(s, p);
      DropCarries(s, m, p, k, s.consumer.out);
    }
  }

  lemma DropShown<T>(s: State<T>, m: Marks, p: nat, i: nat)
    requires Marked(s, m) && p < |s.producers| && s.producers[p].Dropping?
    requires |s.popped| <= i < |s.popped| + |s.slots| && Showing(s, i)
    ensures var s' := StepProducer(s, p);
            s'.slots != [] && Carries(s', NextMarks(s, ProducerStep(p), m), i, SlotAt(s'.slots, i).data)
  {
    var pos := s.producers[p].pos;
    WriteOne(s, p, i);
    HeldNotShown(s, p);
    if SameSlot(s, i, pos) {
      assert i in s.sentinels ==> i in Sharing(s, pos);
      assert i !in s.sentinels ==> i in Destroyed(s, pos);
      assert i < |s.claims|;
    } else {
      DropCarries(s, m, p, i, SlotAt(s.slots, i).data);
    }
  }

  lemma DropWrittenCarry<T>(s: State<T>, m: Marks, p: nat, q: nat)
    requires Marked(s, m) && p < |s.producers| && s.producers[p].Dropping?
    requires q < |s.producers| && WroteSlot(StepProducer(s, p).producers[q])
    ensures var s', m' := StepProducer(s, p), NextMarks(s, ProducerStep(p), m);
            s'.slots != [] && Carries(s', m', s'.producers[q].pos, SlotAt(s'.slots, s'.producers[q].pos).data)
  {
    var s', pos := StepProducer(s, p), s.producers[p].pos;
    var i := s'.producers[q].pos;
    WriteOne(s, p, i);
    if q != p {
      assert i != pos && Holds(s.producers, q, i);
      if SameSlot(s, i, pos) {
        if s.producers[q].Written? {
          assert i in Destroyed(s, pos);
        } else {
          HeldNotShown(s, q);
          assert i in Sharing(s, pos);
        }
      } else {
        DropCarries(s, m, p, i, SlotAt(s.slots, i).data);
      }
    }
  }

  lemma DropUnmarked<T>(s: State<T>, m: Marks, p: nat)
    requires Marked(s, m) && p < |s.producers| && s.producers[p].Dropping?
    ensures Unmarked(StepProducer(s, p), NextMarks(s, ProducerStep(p), m))
  {
    var s', m', pos := StepProducer(s, p), NextMarks(s, ProducerStep(p), m), s.producers[p].pos;
    forall q: nat | q < |s'.producers| && !s'.producers[q].Idle? && !WroteSlot(s'.producers[q])
      ensures s'.producers[q].pos !in m'.erased
    {
      NotOnlyInSlot(s, q);
    }
  }

  lemma NotOnlyInSlot<T>(s: State<T>, q: nat)
    requires Order(s) && q < |s.producers| && !s.producers[q].Idle? && !WroteSlot(s.producers[q])
    ensures var i := s.producers[q].pos; |s.popped| <= i < |s.popped| + |s.slots| ==> !OnlyInSlot(s, i)
  {
    assert Holds(s.producers, q, s.producers[q].pos);
  }

  lemma MarkedDrop<T>(s: State<T>, m: Marks, p: nat)
    requires Marked(s, m) && p < |s.producers| && s.producers[p].Dropping?
    ensures Marked(StepProducer(s, p), NextMarks(s, ProducerStep(p), m))
  {
    var s', m' := StepProducer(s, p), NextMarks(s, ProducerStep(p), m);
    OrderStep(s, ProducerStep(p));
    EventsKeptStep(s, ProducerStep(p));
    DropOut(s, m, p);
    DropUnmarked(s, m, p);
    forall i: nat | |s.popped| <= i < |s.popped| + |s.slots| && Showing(s', i)
      ensures Carries(s', m', i, SlotAt(s'.slots, i).data)
    {
      WriteOne(s, p, i);
      DropShown(s, m, p, i);
    }
    forall q: nat | q < |s'.producers| && WroteSlot(s'.producers[q])
      ensures Carries(s', m', s'.producers[q].pos, SlotAt(s'.slots, s'.producers[q].pos).data)
    {
      DropWrittenCarry(s, m, p, q);
    }
    DestroyedClaimed(s, s.producers[p].pos);
  }

  lemma DestroyedClaimed<T>(s: State<T>, pos: nat)
    requires Order(s)
    ensures forall i | i in Destroyed(s, pos) :: i < s.writePos
  {
  }

  // ---- Every run ----

  lemma MarkedStep<T>(s: State<T>, m: Marks, a: Action<T>)
    requires Marked(s, m)
    ensures Marked(Step(s, a), NextMarks(s, a, m))
  {
    match a
    case Claim(p, event, bounded) => MarkedClaim(s, m, p, event, bounded);
    case ConsumerStep => MarkedConsumer(s, m);
    case ProducerStep(p) =>
      if p < |s.producers| {
        match s.producers[p]
        case Idle =>
        case Spinning(_, _, _, _) => MarkedSpin(s, m, p);
        case Owner(_, _) => MarkedOwner(s, m, p);
        case Dropping(_) => MarkedDrop(s, m, p);
        case _ => MarkedPublish(s, m, p);
      }
  }

  lemma {:induction false} MarkedRun<T>(s: State<T>, acts: seq<Action<T>>, m: Marks)
    requires Marked(s, m)
    ensures Marked(Run(s, acts), MarksOf(s, acts, m))
    decreases |acts|
  {
    if acts != [] {
      MarkedStep(s, m, acts[0]);
      MarkedRun(Step(s, acts[0]), acts[1..], NextMarks(s, acts[0], m));
    }
  }

  lemma MarkedInit<T>(capacity: nat, threads: nat, blank: T)
    requires capacity >= 2
    ensures Marked(Init(capacity, threads, blank), CLEAN)
  {
    OrderInit(capacity, threads, blank);
  }

  /**
   What is popped, in every run. A position whose thread did not give up
   gives its own event, or the blank one exactly if a drop destroyed the event in its slot. A position given up on
   gives the blank one, or the event of an earlier position of its slot exactly if that was written over the blank.
   */
  lemma WhatIsPopped<T>(capacity: nat, threads: nat, blank: T, acts: seq<Action<T>>, k: nat)
    requires capacity >= 2
    requires k < |Run(Init(capacity, threads, blank), acts).popped|
    ensures var s0 := Init(capacity, threads, blank);
            var s, m := Run(s0, acts), MarksOf(s0, acts, CLEAN);
            && |s.slots| > 0 && k < |s.claims|
            && if k in s.sentinels then
                 if k in m.rewritten then OfEarlier(s.claims, |s.slots|, k, s.popped[k]) else s.popped[k] == s.blank
               else
                 s.popped[k] == if k in m.erased then s.blank else s.claims[k]
  {
    var s0 := Init(capacity, threads, blank);
    MarkedInit(capacity, threads, blank);
    MarkedRun(s0, acts, CLEAN);
    assert Carries(Run(s0, acts), MarksOf(s0, acts, CLEAN), k, Run(s0, acts).popped[k]);
  }
}
