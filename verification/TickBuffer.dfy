/**
 The tick path of src/storage/backend/dolphindb_backend.cpp: the double buffer
 of InsertTick, the validating FlushBuffer, and the drain of FlushAndClose.
 InsertTick's critical section is one method call; how a batch fares in
 InsertWithFallback is a finished call of `DegradeProtocol`.
 */
module TickBuffer {
  import DegradeProtocol
  import opened Machine
  import opened Partitions
  import opened TradeDates

  datatype Tick = Tick(exchangeTimestamp: nat, body: int)

  /**
   One FlushBuffer call: its batch and validity test, whether the insert reported success, how often the valid
   ticks were offered to TableInsertTrades, how many rows a failing insert hands over, how many ticks the mmap file
   would take, and which valid ticks the database writer took, the mmap file took, or neither.
   */
  datatype Flush = Flush(batch: seq<Tick>, passes: Tick -> bool, ok: bool, offers: nat, committed: nat, room: nat,
                         stored: seq<Tick>, mapped: seq<Tick>, lost: seq<Tick>)

  /** IsValidExchangeTimestamp when the wall clock reads `now`. */
  predicate Acceptable(t: Tick, now: nat) {
    0 < t.exchangeTimestamp <= MAX_VALID_USEC
    && ValidTradeDate(t.exchangeTimestamp / USECS_PER_DAY, now / SECONDS_PER_DAY)
  }

  /** `passes` is the validity test of that moment. */
  ghost predicate Judges(passes: Tick -> bool, now: nat) {
    forall t {:trigger passes(t)} :: passes(t) <==> Acceptable(t, now)
  }

  function ValidTicks(batch: seq<Tick>, passes: Tick -> bool): seq<Tick> {
    if batch == [] then []
    else
      var init, t := ValidTicks(batch[..|batch| - 1], passes), batch[|batch| - 1];
      if passes(t) then init + [t] else init
  }

  // ---- Specification: what the buffers and flushes amount to ----

  /**
   What a flush meets: the validity test of the moment, how InsertWithFallback ends, how many rows an insert that
   reports failure has handed to the writer by then, where they stay and are committed when the writer is drained,
   and how many more ticks the mmap file takes (0 without a file).
   */
  datatype Fate = Fate(passes: Tick -> bool, call: DegradeProtocol.Thread, committed: nat, room: nat)

  predicate FateOk(f: Fate) {
    DegradeProtocol.Settled(f.call) && !f.call.retry && (f.call.attempts == 0 ==> f.committed == 0)
  }

  /** The rows of `n` valid ones the writer takes: all, or those before the one at which the insert fails. */
  function Taken(f: Fate, n: nat): nat
    requires n > 0
  {
    if f.call.stored == 1 then n else Min(f.committed, n - 1)
  }

  /** FlushBuffer. After a failed insert the whole batch goes to the mmap file. */
  function FlushOf(batch: seq<Tick>, f: Fate): Flush {
    var valid := ValidTicks(batch, f.passes);
    if valid == [] then Flush(batch, f.passes, true, 0, f.committed, f.room, [], [], [])
    else
      var c := Taken(f, |valid|);
      if f.call.stored == 1 then
        Flush(batch, f.passes, true, f.call.attempts, f.committed, f.room, valid[..c], [], [])
      else
        var k := Min(f.room, |valid|);
        Flush(batch, f.passes, false, f.call.attempts, f.committed, f.room,
              valid[..c], valid[..k], valid[if c < k then k else c..])
  }

  /** The active buffer (the other one is empty), the time of the last flush, and the flushes so far. */
  datatype Buffers = Buffers(active: seq<Tick>, last: nat, log: seq<Flush>)

  /** One InsertTick call: the steady clock, read again after a flush is due, and how a flush would fare. */
  datatype Input = Input(tick: Tick, nowNs: nat, later: nat, fate: Fate)

  predicate InputOk(i: Input) {
    i.nowNs < TWO_64 && i.later < TWO_64 && FateOk(i.fate)
  }

  function Insert(b: Buffers, i: Input, bufferSize: nat, intervalNs: nat): Buffers
    requires InputOk(i) && b.last < TWO_64
  {
    var held := b.active + [i.tick];
    if |held| >= bufferSize || Since(i.nowNs, b.last) > intervalNs
    then Buffers([], i.later, b.log + [FlushOf(held, i.fate)])
    else b.(active := held)
  }

  function InsertAll(inputs: seq<Input>, bufferSize: nat, intervalNs: nat): (b: Buffers)
    requires forall i | 0 <= i < |inputs| :: InputOk(inputs[i])
    ensures b.last < TWO_64
  {
    if inputs == [] then Buffers([], 0, [])
    else Insert(InsertAll(inputs[..|inputs| - 1], bufferSize, intervalNs), inputs[|inputs| - 1], bufferSize, intervalNs)
  }

  /** FlushAndClose. */
  function Close(b: Buffers, f: Fate): Buffers {
    if b.active == [] then b else Buffers([], b.last, b.log + [FlushOf(b.active, f)])
  }

  function Ticks(inputs: seq<Input>): seq<Tick> {
    if inputs == [] then [] else Ticks(inputs[..|inputs| - 1]) + [inputs[|inputs| - 1].tick]
  }

  /** All ticks handed to FlushBuffer, in order. */
  function Flushed(log: seq<Flush>): seq<Tick> {
    if log == [] then [] else Flushed(log[..|log| - 1]) + log[|log| - 1].batch
  }

  /** The ticks that passed validation, each at the time of its flush, in order. */
  function Passed(log: seq<Flush>): seq<Tick> {
    if log == [] then [] else Passed(log[..|log| - 1]) + ValidTicks(log[|log| - 1].batch, log[|log| - 1].passes)
  }

  function Stored(log: seq<Flush>): seq<Tick> {
    if log == [] then [] else Stored(log[..|log| - 1]) + log[|log| - 1].stored
  }

  function Mapped(log: seq<Flush>): seq<Tick> {
    if log == [] then [] else Mapped(log[..|log| - 1]) + log[|log| - 1].mapped
  }

  function Lost(log: seq<Flush>): seq<Tick> {
    if log == [] then [] else Lost(log[..|log| - 1]) + log[|log| - 1].lost
  }

  /** The ticks of one flush that are in both places: committed by the failed insert and then written to the file. */
  function TwiceIn(f: Flush): seq<Tick> {
    if f.ok then [] else f.mapped[..Min(|f.stored|, |f.mapped|)]
  }

  function Twice(log: seq<Flush>): seq<Tick> {
    if log == [] then [] else Twice(log[..|log| - 1]) + TwiceIn(log[|log| - 1])
  }

  // ---- The backend ----

  class DolphinDBBackend {
    const bufferSize: nat
    const flushIntervalNs: nat
    const validity: TradeDateCache
    var tickBufferA: seq<Tick>
    var tickBufferB: seq<Tick>
    var activeBuffer: nat
    var lastFlushNs: nat
    var database: seq<Tick>
    var mmap: seq<Tick>
    ghost var log: seq<Flush>

    ghost function Active(): seq<Tick>
      reads this
    {
      if activeBuffer == 0 then tickBufferA else tickBufferB
    }

    ghost function Model(): Buffers
      reads this
    {
      Buffers(Active(), lastFlushNs, log)
    }

    /** The inactive buffer is empty and the sinks hold what the log says. */
    ghost predicate Valid()
      reads this, validity
    {
      && validity.Valid() && lastFlushNs < TWO_64 && OneActive()
      && database == Stored(log) && mmap == Mapped(log)
    }

    ghost predicate OneActive()
      reads this
    {
      activeBuffer <= 1 && (if activeBuffer == 0 then tickBufferB == [] else tickBufferA == [])
    }

    constructor (bufferSize: nat, flushIntervalNs: nat)
      ensures Valid() && fresh(validity) && Model() == InsertAll([], bufferSize, flushIntervalNs)
      ensures this.bufferSize == bufferSize && this.flushIntervalNs == flushIntervalNs
    {
      this.bufferSize, this.flushIntervalNs := bufferSize, flushIntervalNs;
      validity := new TradeDateCache();
      tickBufferA, tickBufferB, activeBuffer, lastFlushNs := [], [], 0, 0;
      database, mmap, log := [], [], [];
    }

    /** The loop of FlushBuffer that keeps the ticks with a valid timestamp. */
    method Validate(batch: seq<Tick>, now: nat, ghost passes: Tick -> bool) returns (valid: seq<Tick>)
      requires validity.Valid() && Judges(passes, now)
      modifies validity
      ensures validity.Valid() && valid == ValidTicks(batch, passes)
    {
      valid := [];
      for i := 0 to |batch|
        invariant validity.Valid() && valid == ValidTicks(batch[..i], passes)
      {
        assert batch[..i + 1][..i] == batch[..i];
        assert passes(batch[i]) <==> Acceptable(batch[i], now);
        var ok := validity.IsValidExchangeTimestamp(batch[i].exchangeTimestamp, now);
        if ok {
          valid := valid + [batch[i]];
        }
      }
      assert batch[..|batch|] == batch;
    }

    /** The fallback: tick by tick, for as long as the mmap file takes them. */
    method WriteBatchToMmap(valid: seq<Tick>, room: nat)
      modifies this`mmap
      ensures mmap == old(mmap) + valid[..Min(room, |valid|)]
    {
      for i := 0 to |valid|
        invariant mmap == old(mmap) + valid[..Min(room, i)]
      {
        if i < room {
          mmap := mmap + [valid[i]];
        }
      }
    }

    /** The row loop of TableInsertTrades; the writer takes `accepts` rows and refuses the next. */
    method TableInsertTrades(valid: seq<Tick>, accepts: nat) returns (ok: bool)
      modifies this`database
      ensures database == old(database) + valid[..Min(accepts, |valid|)] && (ok <==> accepts >= |valid|)
    {
      for i := 0 to |valid|
        invariant i <= accepts && database == old(database) + valid[..i]
      {
        if i == accepts {
          return false;
        }
        database := database + [valid[i]];
      }
      return true;
    }

    /** FlushBuffer: the sinks and the log grow by this flush. */
    method FlushBuffer(batch: seq<Tick>, f: Fate, now: nat)
      requires validity.Valid() && FateOk(f) && Judges(f.passes, now) && database == Stored(log) && mmap == Mapped(log)
      modifies this`database, this`mmap, this`log, validity
      ensures validity.Valid() && database == Stored(log) && mmap == Mapped(log)
      ensures log == if batch == [] then old(log) else old(log) + [FlushOf(batch, f)]
    {
      if batch == [] {
        return;
      }
      var valid := Validate(batch, now, f.passes);
      if valid != [] {
        var ok := false;
        if f.call.attempts > 0 {
          ok := TableInsertTrades(valid, Taken(f, |valid|));
        }
        if !ok {
          WriteBatchToMmap(valid, f.room);
        }
      }
      ghost var flush := FlushOf(batch, f);
      assert (log + [flush])[..|log|] == log;
      log := log + [flush];
    }

    /** InsertTick; `now` is the wall clock of its flush. */
    method InsertTick(i: Input, now: nat)
      requires Valid() && InputOk(i) && Judges(i.fate.passes, now)
      modifies this, validity
      ensures Valid() && Model() == Insert(old(Model()), i, bufferSize, flushIntervalNs)
    {
      var toFlush := Buffer(i.tick, i.nowNs, i.later);
      FlushBuffer(toFlush, i.fate, now);
    }

    /** The part of InsertTick under the buffer lock. */
    method Buffer(tick: Tick, nowNs: nat, later: nat) returns (toFlush: seq<Tick>)
      requires OneActive() && nowNs < TWO_64 && later < TWO_64 && lastFlushNs < TWO_64
      modifies this`tickBufferA, this`tickBufferB, this`activeBuffer, this`lastFlushNs
      ensures OneActive()
      ensures var held := old(Active()) + [tick];
              if |held| >= bufferSize || Since(nowNs, old(lastFlushNs)) > flushIntervalNs
              then toFlush == held && Active() == [] && lastFlushNs == later
              else toFlush == [] && Active() == held && lastFlushNs == old(lastFlushNs)
    {
      toFlush := [];
      if activeBuffer == 0 {
        tickBufferA := tickBufferA + [tick];
      } else {
        tickBufferB := tickBufferB + [tick];
      }
      var size := if activeBuffer == 0 then |tickBufferA| else |tickBufferB|;
      if size >= bufferSize || Since(nowNs, lastFlushNs) > flushIntervalNs {
        if activeBuffer == 0 {
          toFlush, tickBufferA := tickBufferA, [];
        } else {
          toFlush, tickBufferB := tickBufferB, [];
        }
        activeBuffer := 1 - activeBuffer;
        lastFlushNs := later;
      }
    }

    /** FlushAndClose, up to closing the files: both buffers are drained, A before B. */
    method FlushAndClose(a: Fate, b: Fate, now: nat)
      requires Valid() && FateOk(a) && FateOk(b) && Judges(a.passes, now) && Judges(b.passes, now)
      modifies this, validity
      ensures Valid() && Model() == Close(old(Model()), if old(activeBuffer) == 0 then a else b)
    {
      var drainA, drainB := tickBufferA, tickBufferB;
      tickBufferA, tickBufferB := [], [];
      FlushBuffer(drainA, a, now);
      FlushBuffer(drainB, b, now);
    }
  }

  // ---- What each flush does ----

  /**
   A reported success has put everything valid in the database and nothing in the file. After a reported failure a
   proper prefix may be in the database all the same, the file has as much from the front as fits, and lost is what
   neither has. Nothing is offered twice.
   */
  ghost predicate FlushOk(f: Flush) {
    var valid := ValidTicks(f.batch, f.passes);
    && f.stored <= valid && f.mapped <= valid
    && (if f.ok then f.stored == valid && f.mapped == []
        else valid != [] && |f.stored| == Min(f.committed, |valid| - 1) && |f.mapped| == Min(f.room, |valid|))
    && f.lost == valid[if |f.stored| < |f.mapped| then |f.mapped| else |f.stored|..]
    && f.offers <= 1 && (f.stored != [] ==> f.offers == 1) && (valid == [] ==> f.offers == 0)
  }

  lemma FlushOfOk(batch: seq<Tick>, f: Fate)
    requires FateOk(f)
    ensures FlushOk(FlushOf(batch, f)) && FlushOf(batch, f).batch == batch
  {
  }

  ghost predicate AllFlushesOk(log: seq<Flush>) {
    forall i | 0 <= i < |log| :: FlushOk(log[i])
  }

  // ---- Every run ----

  /** Each tick of `given` is in exactly one flushed batch or still in the active buffer, in order. */
  ghost predicate Holds(b: Buffers, given: seq<Tick>) {
    Flushed(b.log) + b.active == given && AllFlushesOk(b.log)
  }

  lemma FlushHolds(b: Buffers, given: seq<Tick>, f: Flush, last: nat)
    requires Holds(b, given) && FlushOk(f) && f.batch == b.active
    ensures Holds(Buffers([], last, b.log + [f]), given)
  {
    assert (b.log + [f])[..|b.log|] == b.log;
    assert Flushed(b.log + [f]) + [] == Flushed(b.log + [f]);
  }

  lemma InsertHolds(b: Buffers, given: seq<Tick>, i: Input, bufferSize: nat, intervalNs: nat)
    requires Holds(b, given) && InputOk(i) && b.last < TWO_64
    ensures Holds(Insert(b, i, bufferSize, intervalNs), given + [i.tick])
  {
    var more := b.(active := b.active + [i.tick]);
    MoreHolds(b, given, i.tick);
    if |more.active| >= bufferSize || Since(i.nowNs, b.last) > intervalNs {
      FlushOfOk(more.active, i.fate);
      FlushHolds(more, given + [i.tick], FlushOf(more.active, i.fate), i.later);
    }
  }

  lemma MoreHolds(b: Buffers, given: seq<Tick>, t: Tick)
    requires Holds(b, given)
    ensures Holds(b.(active := b.active + [t]), given + [t])
  {
    assert (Flushed(b.log) + b.active) + [t] == Flushed(b.log) + (b.active + [t]);
  }

  /** So it is after every sequence of InsertTick calls. */
  lemma {:induction false} EveryTickInOneBatch(inputs: seq<Input>, bufferSize: nat, intervalNs: nat)
    requires forall i | 0 <= i < |inputs| :: InputOk(inputs[i])
    ensures Holds(InsertAll(inputs, bufferSize, intervalNs), Ticks(inputs))
    decreases |inputs|
  {
    if inputs != [] {
      var init := inputs[..|inputs| - 1];
      EveryTickInOneBatch(init, bufferSize, intervalNs);
      InsertHolds(InsertAll(init, bufferSize, intervalNs), Ticks(init), inputs[|inputs| - 1], bufferSize, intervalNs);
    }
  }

  /** The flushes of a run that ends with FlushAndClose. */
  function ClosedLog(inputs: seq<Input>, bufferSize: nat, intervalNs: nat, last: Fate): seq<Flush>
    requires forall i | 0 <= i < |inputs| :: InputOk(inputs[i])
  {
    Close(InsertAll(inputs, bufferSize, intervalNs), last).log
  }

  lemma ClosedLogFlushesAll(inputs: seq<Input>, bufferSize: nat, intervalNs: nat, last: Fate)
    requires FateOk(last) && forall i | 0 <= i < |inputs| :: InputOk(inputs[i])
    ensures var log := ClosedLog(inputs, bufferSize, intervalNs, last);
            Flushed(log) == Ticks(inputs) && AllFlushesOk(log)
  {
    var b := InsertAll(inputs, bufferSize, intervalNs);
    EveryTickInOneBatch(inputs, bufferSize, intervalNs);
    if b.active == [] {
      assert Flushed(b.log) + [] == Flushed(b.log);
    } else {
      FlushOfOk(b.active, last);
      FlushHolds(b, Ticks(inputs), FlushOf(b.active, last), b.last);
    }
  }

  // ---- Order ----

  /** `a` is `b` with some elements left out. */
  predicate Within(a: seq<Tick>, b: seq<Tick>)
    decreases |b|
  {
    || a == []
    || (b != [] && (|| (a[|a| - 1] == b[|b| - 1] && Within(a[..|a| - 1], b[..|b| - 1]))
                    || Within(a, b[..|b| - 1])))
  }

  lemma {:induction false} WithinAppend(a: seq<Tick>, b: seq<Tick>, c: seq<Tick>, d: seq<Tick>)
    requires Within(a, b) && Within(c, d)
    ensures Within(a + c, b + d)
    decreases |d|
  {
    if d == [] {
      assert a + c == a && b + d == b;
    } else {
      var d0 := d[..|d| - 1];
      assert (b + d)[..|b + d| - 1] == b + d0;
      if Within(c, d0) {
        WithinAppend(a, b, c, d0);
      } else {
        assert (a + c)[..|a + c| - 1] == a + c[..|c| - 1];
        WithinAppend(a, b, c[..|c| - 1], d0);
      }
    }
  }

  lemma {:induction false} WithinSelf(a: seq<Tick>)
    ensures Within(a, a)
    decreases |a|
  {
    if a != [] {
      WithinSelf(a[..|a| - 1]);
    }
  }

  lemma {:induction false} ValidWithin(batch: seq<Tick>, passes: Tick -> bool)
    ensures Within(ValidTicks(batch, passes), batch)
    decreases |batch|
  {
    if batch != [] {
      ValidWithin(batch[..|batch| - 1], passes);
    }
  }

  lemma {:induction false} PrefixWithin(a: seq<Tick>, b: seq<Tick>, k: nat)
    requires Within(a, b) && k <= |a|
    ensures Within(a[..k], b)
    decreases |b|
  {
    if k < |a| && b != [] {
      var a0, b0 := a[..|a| - 1], b[..|b| - 1];
      if Within(a, b0) {
        PrefixWithin(a, b0, k);
      } else {
        PrefixWithin(a0, b0, k);
        assert a0[..k] == a[..k];
      }
    } else {
      assert k == |a| ==> a[..k] == a;
    }
  }

  lemma {:induction false} SinksInOrder(log: seq<Flush>)
    requires AllFlushesOk(log)
    ensures Within(Stored(log), Flushed(log)) && Within(Mapped(log), Flushed(log))
    decreases |log|
  {
    if log != [] {
      var init, f := log[..|log| - 1], log[|log| - 1];
      var valid := ValidTicks(f.batch, f.passes);
      SinksInOrder(init);
      ValidWithin(f.batch, f.passes);
      assert valid[..|f.stored|] == f.stored;
      assert valid[..|f.mapped|] == f.mapped;
      PrefixWithin(valid, f.batch, |f.stored|);
      PrefixWithin(valid, f.batch, |f.mapped|);
      WithinAppend(Stored(init), Flushed(init), f.stored, f.batch);
      WithinAppend(Mapped(init), Flushed(init), f.mapped, f.batch);
    }
  }

  // ---- What is kept and what is dropped ----

  /** Validation keeps every tick that passes as often as it came, and no other. */
  lemma {:induction false} ValidCounts(batch: seq<Tick>, passes: Tick -> bool, t: Tick)
    ensures multiset(ValidTicks(batch, passes))[t] == if passes(t) then multiset(batch)[t] else 0
    decreases |batch|
  {
    if batch != [] {
      var init, last := batch[..|batch| - 1], batch[|batch| - 1];
      ValidCounts(init, passes, t);
      assert batch == init + [last];
    }
  }

  /** How often `t` was flushed by a flush whose test it passes. */
  function PassCount(log: seq<Flush>, t: Tick): nat {
    if log == [] then 0
    else
      var f := log[|log| - 1];
      PassCount(log[..|log| - 1], t) + if f.passes(t) then multiset(f.batch)[t] else 0
  }

  lemma {:induction false} PassedCounts(log: seq<Flush>, t: Tick)
    ensures multiset(Passed(log))[t] == PassCount(log, t)
    decreases |log|
  {
    if log != [] {
      PassedCounts(log[..|log| - 1], t);
      ValidCounts(log[|log| - 1].batch, log[|log| - 1].passes, t);
    }
  }

  /** `t` was in a batch whose test it passed. */
  ghost predicate PassedOne(log: seq<Flush>, t: Tick) {
    exists i: nat | i < |log| :: t in log[i].batch && log[i].passes(t)
  }

  lemma FlushKeepsValid(f: Flush, t: Tick)
    requires FlushOk(f) && (t in f.stored || t in f.mapped || t in f.lost)
    ensures t in f.batch && f.passes(t)
  {
    var valid := ValidTicks(f.batch, f.passes);
    assert t in valid;
    ValidCounts(f.batch, f.passes, t);
    assert multiset(valid)[t] > 0;
  }

  lemma {:induction false} SinksPassed(log: seq<Flush>, t: Tick)
    requires AllFlushesOk(log) && (t in Stored(log) || t in Mapped(log) || t in Lost(log))
    ensures PassedOne(log, t)
    decreases |log|
  {
    var init, f := log[..|log| - 1], log[|log| - 1];
    if t in f.stored || t in f.mapped || t in f.lost {
      FlushKeepsValid(f, t);
    } else {
      SinksPassed(init, t);
      var i: nat :| i < |init| && t in init[i].batch && init[i].passes(t);
      assert log[i] == init[i];
    }
  }

  // ---- Conservation ----

  /** Two prefixes of a sequence and the rest beyond both make the sequence once, and the shorter prefix again. */
  lemma TwoPrefixes(valid: seq<Tick>, a: nat, b: nat)
    requires a <= |valid| && b <= |valid|
    ensures multiset(valid[..a]) + multiset(valid[..b]) + multiset(valid[if a < b then b else a..])
            == multiset(valid) + multiset(valid[..Min(a, b)])
  {
    assert valid == valid[..a] + valid[a..] && valid == valid[..b] + valid[b..];
  }

  lemma FlushBalanced(f: Flush)
    requires FlushOk(f)
    ensures multiset(f.stored) + multiset(f.mapped) + multiset(f.lost)
            == multiset(ValidTicks(f.batch, f.passes)) + multiset(TwiceIn(f))
  {
    var valid, a, b := ValidTicks(f.batch, f.passes), |f.stored|, |f.mapped|;
    TwoPrefixes(valid, a, b);
    assert valid[..a] == f.stored && valid[..b] == f.mapped;
    assert TwiceIn(f) == valid[..Min(a, b)];
  }

  lemma Sum(s0: multiset<Tick>, m0: multiset<Tick>, l0: multiset<Tick>, p0: multiset<Tick>, t0: multiset<Tick>,
            s1: multiset<Tick>, m1: multiset<Tick>, l1: multiset<Tick>, p1: multiset<Tick>, t1: multiset<Tick>)
    requires s0 + m0 + l0 == p0 + t0 && s1 + m1 + l1 == p1 + t1
    ensures (s0 + s1) + (m0 + m1) + (l0 + l1) == (p0 + p1) + (t0 + t1)
  {
    assert (s0 + s1) + (m0 + m1) + (l0 + l1) == (s0 + m0 + l0) + (s1 + m1 + l1);
    assert (p0 + p1) + (t0 + t1) == (p0 + t0) + (p1 + t1);
  }

  lemma Appended(init: seq<Flush>, log: seq<Flush>, f: Flush)
    requires log != [] && init == log[..|log| - 1] && f == log[|log| - 1]
    ensures multiset(Stored(log)) == multiset(Stored(init)) + multiset(f.stored)
    ensures multiset(Mapped(log)) == multiset(Mapped(init)) + multiset(f.mapped)
    ensures multiset(Lost(log)) == multiset(Lost(init)) + multiset(f.lost)
    ensures multiset(Passed(log)) == multiset(Passed(init)) + multiset(ValidTicks(f.batch, f.passes))
    ensures multiset(Twice(log)) == multiset(Twice(init)) + multiset(TwiceIn(f))
  {
  }

  lemma {:induction false} PassedSplits(log: seq<Flush>)
    requires AllFlushesOk(log)
    ensures multiset(Stored(log)) + multiset(Mapped(log)) + multiset(Lost(log))
            == multiset(Passed(log)) + multiset(Twice(log))
    decreases |log|
  {
    if log != [] {
      var init, f := log[..|log| - 1], log[|log| - 1];
      PassedSplits(init);
      FlushBalanced(f);
      Sum(multiset(Stored(init)), multiset(Mapped(init)), multiset(Lost(init)),
          multiset(Passed(init)), multiset(Twice(init)),
          multiset(f.stored), multiset(f.mapped), multiset(f.lost),
          multiset(ValidTicks(f.batch, f.passes)), multiset(TwiceIn(f)));
      Appended(init, log, f);
    }
  }

  /** The fallback took all it was given in this flush. */
  predicate Fitted(f: Flush) {
    f.ok || |ValidTicks(f.batch, f.passes)| <= f.room
  }

  /** Nothing valid is lost exactly if every batch whose insert reported failure fitted the mmap file. */
  lemma {:induction false} NothingLostIff(log: seq<Flush>)
    requires AllFlushesOk(log)
    ensures Lost(log) == [] <==> forall i | 0 <= i < |log| :: Fitted(log[i])
    decreases |log|
  {
    if log != [] {
      var init, f := log[..|log| - 1], log[|log| - 1];
      NothingLostIff(init);
      AllFittedSnoc(log);
      FittedIff(f);
    }
  }

  lemma AllFittedSnoc(log: seq<Flush>)
    requires log != []
    ensures var init, f := log[..|log| - 1], log[|log| - 1];
            && (Lost(log) == [] <==> Lost(init) == [] && f.lost == [])
            && ((forall i | 0 <= i < |log| :: Fitted(log[i]))
                <==> (forall i | 0 <= i < |init| :: Fitted(init[i])) && Fitted(f))
  {
    var init := log[..|log| - 1];
    assert forall i | 0 <= i < |init| :: init[i] == log[i];
  }

  lemma FittedIff(f: Flush)
    requires FlushOk(f)
    ensures f.lost == [] <==> Fitted(f)
  {
  }

  /** An insert of more than one tick that reports failure after handing over a row, while the file has room. */
  predicate Doubles(f: Flush) {
    !f.ok && f.committed > 0 && f.room > 0 && |ValidTicks(f.batch, f.passes)| > 1
  }

  lemma DoublesIff(f: Flush)
    requires FlushOk(f)
    ensures TwiceIn(f) == [] <==> !Doubles(f)
  {
  }

  lemma {:induction false} NothingTwiceIff(log: seq<Flush>)
    requires AllFlushesOk(log)
    ensures Twice(log) == [] <==> forall i | 0 <= i < |log| :: !Doubles(log[i])
    decreases |log|
  {
    if log != [] {
      var init, f := log[..|log| - 1], log[|log| - 1];
      NothingTwiceIff(init);
      NoneDoublesSnoc(log);
      DoublesIff(f);
    }
  }

  lemma NoneDoublesSnoc(log: seq<Flush>)
    requires log != []
    ensures var init, f := log[..|log| - 1], log[|log| - 1];
            && (Twice(log) == [] <==> Twice(init) == [] && TwiceIn(f) == [])
            && ((forall i | 0 <= i < |log| :: !Doubles(log[i]))
                <==> (forall i | 0 <= i < |init| :: !Doubles(init[i])) && !Doubles(f))
  {
    var init := log[..|log| - 1];
    assert forall i | 0 <= i < |init| :: init[i] == log[i];
  }

  /** Adding ticks changes a multiset unless there are none. */
  lemma AddsNothing(a: multiset<Tick>, twice: seq<Tick>)
    ensures a == a + multiset(twice) <==> twice == []
  {
    assert |a + multiset(twice)| == |a| + |twice|;
  }

  lemma LogDelivers(log: seq<Flush>)
    requires AllFlushesOk(log)
    ensures Within(Stored(log), Flushed(log)) && Within(Mapped(log), Flushed(log))
    ensures multiset(Stored(log)) + multiset(Mapped(log)) + multiset(Lost(log))
            == multiset(Passed(log)) + multiset(Twice(log))
    ensures Lost(log) == [] <==> forall i | 0 <= i < |log| :: Fitted(log[i])
    ensures forall i | 0 <= i < |log| :: log[i].offers <= 1
  {
    SinksInOrder(log);
    PassedSplits(log);
    NothingLostIff(log);
  }

  /**
   Main result. For every sequence of InsertTick calls followed by FlushAndClose: the database and the mmap
   file each hold their ticks in the order given; together with the lost ones they are, as multisets, the ticks
   that were valid when flushed and once more those in both; and none is lost exactly if every batch whose insert
   reported failure fitted the file.
   */
  lemma EveryValidTickDelivered(inputs: seq<Input>, bufferSize: nat, intervalNs: nat, last: Fate, log: seq<Flush>)
    requires FateOk(last) && forall i | 0 <= i < |inputs| :: InputOk(inputs[i])
    requires log == ClosedLog(inputs, bufferSize, intervalNs, last)
    ensures Flushed(log) == Ticks(inputs)
    ensures Within(Stored(log), Ticks(inputs)) && Within(Mapped(log), Ticks(inputs))
    ensures multiset(Stored(log)) + multiset(Mapped(log)) + multiset(Lost(log))
            == multiset(Passed(log)) + multiset(Twice(log))
    ensures Lost(log) == [] <==> forall i | 0 <= i < |log| :: Fitted(log[i])
    ensures forall i | 0 <= i < |log| :: log[i].offers <= 1
  {
    ClosedLogFlushesAll(inputs, bufferSize, intervalNs, last);
    LogDelivers(log);
  }

  /**
   Main result. Over the same runs every valid tick is accounted for exactly once, in the database, in the file or
   lost, if and only if no insert of more than one tick reported failure after handing over a row while the file had
   room.
   */
  lemma NoTickTwiceIff(inputs: seq<Input>, bufferSize: nat, intervalNs: nat, last: Fate, log: seq<Flush>)
    requires FateOk(last) && forall i | 0 <= i < |inputs| :: InputOk(inputs[i])
    requires log == ClosedLog(inputs, bufferSize, intervalNs, last)
    ensures multiset(Stored(log)) + multiset(Mapped(log)) + multiset(Lost(log)) == multiset(Passed(log))
            <==> forall i | 0 <= i < |log| :: !Doubles(log[i])
  {
    ClosedLogFlushesAll(inputs, bufferSize, intervalNs, last);
    LogTwiceIff(log);
  }

  lemma LogTwiceIff(log: seq<Flush>)
    requires AllFlushesOk(log)
    ensures multiset(Stored(log)) + multiset(Mapped(log)) + multiset(Lost(log)) == multiset(Passed(log))
            <==> forall i | 0 <= i < |log| :: !Doubles(log[i])
  {
    PassedSplits(log);
    AddsNothing(multiset(Passed(log)), Twice(log));
    NothingTwiceIff(log);
  }

  // A batch of two whose insert fails at the second row

  const FAILED_CALL: DegradeProtocol.Thread :=
    DegradeProtocol.Thread(DegradeProtocol.Idle, false, 1, 0, 1,
                           DegradeProtocol.NOTHING.(first := DegradeProtocol.Tried(false),
                                                    recovery := DegradeProtocol.Reconnected(false)))

  lemma TwoValid(a: Tick, b: Tick, passes: Tick -> bool)
    requires passes(a) && passes(b)
    ensures ValidTicks([a, b], passes) == [a, b]
  {
    assert [a, b][..1] == [a] && [a][..0] == [];
    assert ValidTicks([a], passes) == [a];
  }

  lemma TwoInputs(first: Input, second: Input)
    requires InputOk(first) && InputOk(second) && first.nowNs == second.nowNs == 0
    ensures InsertAll([first, second], 2, TWO_64)
            == Buffers([], second.later, [FlushOf([first.tick, second.tick], second.fate)])
    ensures Ticks([first, second]) == [first.tick, second.tick]
  {
    var inputs := [first, second];
    assert inputs[..1] == [first] && [first][..0] == [];
    assert InsertAll([], 2, TWO_64) == Buffers([], 0, []);
    assert InsertAll([first], 2, TWO_64) == Buffers([first.tick], 0, []);
    assert [first.tick] + [second.tick] == [first.tick, second.tick];
    assert Ticks([first]) == [first.tick];
  }

  /** The first tick ends up in the database and in the mmap file. */
  lemma FirstRowStoredTwice(a: Tick, b: Tick, passes: Tick -> bool) returns (inputs: seq<Input>, fate: Fate)
    requires passes(a) && passes(b)
    ensures FateOk(fate) && (forall i | 0 <= i < |inputs| :: InputOk(inputs[i])) && Ticks(inputs) == [a, b]
    ensures var log := ClosedLog(inputs, 2, TWO_64, fate); Stored(log) == [a] && Mapped(log) == [a, b]
  {
    fate := Fate(passes, FAILED_CALL, 1, 2);
    inputs := [Input(a, 0, 0, fate), Input(b, 0, 0, fate)];
    TwoInputs(inputs[0], inputs[1]);
    TwoValid(a, b, passes);
    OneFlush(FlushOf([a, b], fate));
  }

  lemma OneFlush(f: Flush)
    ensures Stored([f]) == f.stored && Mapped([f]) == f.mapped
  {
    assert [f][..0] == [];
  }

  // ---- A fallback that stays open ----

  /** Every flush has room for all the ticks there are. */
  ghost predicate AlwaysRoom(inputs: seq<Input>, last: Fate) {
    last.room >= |inputs| && forall i | 0 <= i < |inputs| :: inputs[i].fate.room >= |inputs|
  }

  /** One validity test for all flushes. */
  ghost predicate OneTest(inputs: seq<Input>, last: Fate, passes: Tick -> bool) {
    last.passes == passes && forall i | 0 <= i < |inputs| :: inputs[i].fate.passes == passes
  }

  ghost predicate RoomFor(log: seq<Flush>, room: nat) {
    forall i | 0 <= i < |log| :: log[i].room >= room
  }

  ghost predicate AllBy(log: seq<Flush>, passes: Tick -> bool) {
    forall i | 0 <= i < |log| :: log[i].passes == passes
  }

  lemma {:induction false} RoomInRun(inputs: seq<Input>, bufferSize: nat, intervalNs: nat, room: nat)
    requires forall i | 0 <= i < |inputs| :: InputOk(inputs[i])
    requires forall i | 0 <= i < |inputs| :: inputs[i].fate.room >= room
    ensures RoomFor(InsertAll(inputs, bufferSize, intervalNs).log, room)
    decreases |inputs|
  {
    if inputs != [] {
      RoomInRun(inputs[..|inputs| - 1], bufferSize, intervalNs, room);
    }
  }

  lemma {:induction false} TestInRun(inputs: seq<Input>, bufferSize: nat, intervalNs: nat, passes: Tick -> bool)
    requires forall i | 0 <= i < |inputs| :: InputOk(inputs[i])
    requires forall i | 0 <= i < |inputs| :: inputs[i].fate.passes == passes
    ensures AllBy(InsertAll(inputs, bufferSize, intervalNs).log, passes)
    decreases |inputs|
  {
    if inputs != [] {
      TestInRun(inputs[..|inputs| - 1], bufferSize, intervalNs, passes);
    }
  }

  lemma {:induction false} BatchWithinFlushed(log: seq<Flush>, i: nat)
    requires i < |log|
    ensures |log[i].batch| <= |Flushed(log)|
    decreases |log|
  {
    if i < |log| - 1 {
      BatchWithinFlushed(log[..|log| - 1], i);
    }
  }

  lemma {:induction false} ValidTicksShorter(batch: seq<Tick>, passes: Tick -> bool)
    ensures |ValidTicks(batch, passes)| <= |batch|
    decreases |batch|
  {
    if batch != [] {
      ValidTicksShorter(batch[..|batch| - 1], passes);
    }
  }

  lemma {:induction false} TicksSize(inputs: seq<Input>)
    ensures |Ticks(inputs)| == |inputs|
    decreases |inputs|
  {
    if inputs != [] {
      TicksSize(inputs[..|inputs| - 1]);
    }
  }

  lemma {:induction false} ValidTicksAppend(a: seq<Tick>, b: seq<Tick>, passes: Tick -> bool)
    ensures ValidTicks(a + b, passes) == ValidTicks(a, passes) + ValidTicks(b, passes)
    decreases |b|
  {
    if b == [] {
      assert a + b == a;
    } else {
      assert (a + b)[..|a + b| - 1] == a + b[..|b| - 1];
      ValidTicksAppend(a, b[..|b| - 1], passes);
    }
  }

  /** Under one test, validating batch by batch is validating the whole stream. */
  lemma {:induction false} PassedIsValidGiven(log: seq<Flush>, passes: Tick -> bool)
    requires AllBy(log, passes)
    ensures Passed(log) == ValidTicks(Flushed(log), passes)
    decreases |log|
  {
    if log != [] {
      var init, f := log[..|log| - 1], log[|log| - 1];
      PassedIsValidGiven(init, passes);
      ValidTicksAppend(Flushed(init), f.batch, passes);
    }
  }

  lemma RoomFits(log: seq<Flush>, room: nat)
    requires AllFlushesOk(log) && RoomFor(log, room) && |Flushed(log)| <= room
    ensures Lost(log) == []
  {
    forall i | 0 <= i < |log|
      ensures Fitted(log[i])
    {
      BatchWithinFlushed(log, i);
      ValidTicksShorter(log[i].batch, log[i].passes);
    }
    NothingLostIff(log);
  }

  lemma FlushOfKeeps(batch: seq<Tick>, f: Fate)
    ensures FlushOf(batch, f).room == f.room && FlushOf(batch, f).passes == f.passes
  {
  }

  /** What holds of the flushes of a run and of the last one holds of the closed log. */
  lemma ClosedRoom(b: Buffers, last: Fate, room: nat)
    requires RoomFor(b.log, room) && last.room >= room
    ensures RoomFor(Close(b, last).log, room)
  {
    FlushOfKeeps(b.active, last);
  }

  lemma ClosedTest(b: Buffers, last: Fate, passes: Tick -> bool)
    requires AllBy(b.log, passes) && last.passes == passes
    ensures AllBy(Close(b, last).log, passes)
  {
    FlushOfKeeps(b.active, last);
  }

  lemma OpenLogLosesNothing(log: seq<Flush>, room: nat)
    requires AllFlushesOk(log) && RoomFor(log, room) && |Flushed(log)| <= room
    ensures multiset(Stored(log)) + multiset(Mapped(log)) == multiset(Passed(log)) + multiset(Twice(log))
  {
    RoomFits(log, room);
    PassedSplits(log);
  }

  /**
   Main result. With a fallback that stays open, after FlushAndClose every tick given that was valid when flushed is
   in the database or in the mmap file, as often as it was given; in both are exactly the rows committed by inserts
   that reported failure.
   */
  lemma OpenFallbackLosesNothing(inputs: seq<Input>, bufferSize: nat, intervalNs: nat, last: Fate, log: seq<Flush>)
    requires FateOk(last) && forall i | 0 <= i < |inputs| :: InputOk(inputs[i])
    requires AlwaysRoom(inputs, last) && log == ClosedLog(inputs, bufferSize, intervalNs, last)
    ensures Flushed(log) == Ticks(inputs)
    ensures multiset(Passed(log)) <= multiset(Stored(log)) + multiset(Mapped(log))
    ensures multiset(Stored(log)) + multiset(Mapped(log)) == multiset(Passed(log)) + multiset(Twice(log))
  {
    ClosedLogFlushesAll(inputs, bufferSize, intervalNs, last);
    RoomInRun(inputs, bufferSize, intervalNs, |inputs|);
    ClosedRoom(InsertAll(inputs, bufferSize, intervalNs), last, |inputs|);
    TicksSize(inputs);
    OpenLogLosesNothing(log, |inputs|);
  }

  /** Those are the valid ones of all ticks given, if one test judged them all. */
  lemma OneTestPasses(inputs: seq<Input>, bufferSize: nat, intervalNs: nat, last: Fate, passes: Tick -> bool,
                      log: seq<Flush>)
    requires FateOk(last) && forall i | 0 <= i < |inputs| :: InputOk(inputs[i])
    requires OneTest(inputs, last, passes) && log == ClosedLog(inputs, bufferSize, intervalNs, last)
    ensures Passed(log) == ValidTicks(Ticks(inputs), passes)
  {
    ClosedLogFlushesAll(inputs, bufferSize, intervalNs, last);
    TestInRun(inputs, bufferSize, intervalNs, passes);
    ClosedTest(InsertAll(inputs, bufferSize, intervalNs), last, passes);
    PassedIsValidGiven(log, passes);
  }

  /** The validity test of some moment. */
  ghost predicate OfMoment(passes: Tick -> bool) {
    exists now: nat :: Judges(passes, now)
  }

  ghost predicate Judged(inputs: seq<Input>) {
    forall i | 0 <= i < |inputs| :: OfMoment(inputs[i].fate.passes)
  }

  ghost predicate LogJudged(log: seq<Flush>) {
    forall i | 0 <= i < |log| :: OfMoment(log[i].passes)
  }

  lemma {:induction false} JudgedInRun(inputs: seq<Input>, bufferSize: nat, intervalNs: nat)
    requires forall i | 0 <= i < |inputs| :: InputOk(inputs[i])
    requires Judged(inputs)
    ensures LogJudged(InsertAll(inputs, bufferSize, intervalNs).log)
    decreases |inputs|
  {
    if inputs != [] {
      var init, i := inputs[..|inputs| - 1], inputs[|inputs| - 1];
      JudgedInRun(init, bufferSize, intervalNs);
      FlushOfKeeps(InsertAll(init, bufferSize, intervalNs).active + [i.tick], i.fate);
    }
  }

  /** A timestamp from 2000-01-01 on and not past the largest valid one. */
  predicate Timed(t: Tick) {
    0 < t.exchangeTimestamp <= MAX_VALID_USEC && t.exchangeTimestamp / USECS_PER_DAY >= MIN_VALID_DATE
  }

  lemma TimedTick(passes: Tick -> bool, now: nat, t: Tick)
    requires Judges(passes, now) && passes(t)
    ensures Timed(t)
  {
  }

  /**
   Main result. Over the same runs a tick is in the database, in the file or lost only if it passed the test of the
   flush it was in, and so has a timestamp from 2000 on and not past the largest valid one; and the ticks that count as
   valid are, as often as they were given, exactly those that passed the test of theirs.
   */
  lemma OnlyValidTicks(inputs: seq<Input>, bufferSize: nat, intervalNs: nat, last: Fate, log: seq<Flush>, t: Tick)
    requires FateOk(last) && forall i | 0 <= i < |inputs| :: InputOk(inputs[i])
    requires Judged(inputs) && OfMoment(last.passes) && log == ClosedLog(inputs, bufferSize, intervalNs, last)
    ensures Flushed(log) == Ticks(inputs) && multiset(Passed(log))[t] == PassCount(log, t)
    ensures t in Stored(log) || t in Mapped(log) || t in Lost(log) ==> PassedOne(log, t) && Timed(t)
  {
    ClosedLogFlushesAll(inputs, bufferSize, intervalNs, last);
    JudgedInRun(inputs, bufferSize, intervalNs);
    ClosedJudged(InsertAll(inputs, bufferSize, intervalNs), last);
    LogOnlyValid(log, t);
  }

  lemma LogOnlyValid(log: seq<Flush>, t: Tick)
    requires AllFlushesOk(log) && LogJudged(log)
    ensures multiset(Passed(log))[t] == PassCount(log, t)
    ensures t in Stored(log) || t in Mapped(log) || t in Lost(log) ==> PassedOne(log, t) && Timed(t)
  {
    PassedCounts(log, t);
    if t in Stored(log) || t in Mapped(log) || t in Lost(log) {
      SinksPassed(log, t);
      PassedIsTimed(log, t);
    }
  }

  lemma PassedIsTimed(log: seq<Flush>, t: Tick)
    requires PassedOne(log, t) && LogJudged(log)
    ensures Timed(t)
  {
    var i: nat :| i < |log| && t in log[i].batch && log[i].passes(t);
    var now: nat :| Judges(log[i].passes, now);
    TimedTick(log[i].passes, now, t);
  }

  lemma ClosedJudged(b: Buffers, last: Fate)
    requires LogJudged(b.log) && OfMoment(last.passes)
    ensures LogJudged(Close(b, last).log)
  {
    if b.active != [] {
      FlushOfKeeps(b.active, last);
    }
  }

  // ---- When a flush is due ----

  /**
   Main result. In every run the tick given last makes a flush exactly if the ticks not flushed before, with it, have
   reached the buffer size or the interval since the last flush has passed; the batch then is all of them, and
   otherwise they stay buffered.
   */
  lemma FlushedWhenDue(inputs: seq<Input>, bufferSize: nat, intervalNs: nat)
    requires inputs != [] && forall i | 0 <= i < |inputs| :: InputOk(inputs[i])
    ensures var before := InsertAll(inputs[..|inputs| - 1], bufferSize, intervalNs);
            var after, i := InsertAll(inputs, bufferSize, intervalNs), inputs[|inputs| - 1];
            var waiting := |inputs| - |Flushed(before.log)|;
            && |Flushed(before.log)| < |Ticks(inputs)| == |inputs|
            && (if waiting >= bufferSize || Since(i.nowNs, before.last) > intervalNs
                then && |after.log| == |before.log| + 1 && after.active == [] && after.last == i.later
                     && after.log[|before.log|].batch == Ticks(inputs)[|Flushed(before.log)|..]
                else && after.log == before.log && after.last == before.last
                     && after.active == Ticks(inputs)[|Flushed(before.log)|..])
  {
    var init, i := inputs[..|inputs| - 1], inputs[|inputs| - 1];
    var before := InsertAll(init, bufferSize, intervalNs);
    EveryTickInOneBatch(init, bufferSize, intervalNs);
    TicksSize(init);
    TicksSize(inputs);
    var held := before.active + [i.tick];
    assert Ticks(inputs) == Flushed(before.log) + held;
    assert Ticks(inputs)[|Flushed(before.log)|..] == held;
    FlushOfKeeps(held, i.fate);
  }
}
