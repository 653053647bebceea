/**
 The degrade / reconnect / fallback protocol of
 src/storage/backend/dolphindb_backend.cpp: InsertWithFallback and TryReconnect
 run by any number of threads over one reader-writer lock, one compare-and-swap
 gate and the `degraded_` flag. Each lock operation, each atomic access and each
 call into the DolphinDB client is one step.
 */
module DegradeProtocol {
  import opened Machine

  /** `kReconnectMaxSpin`. */
  const MAX_SPIN: nat := 10000

  /** `First` is the attempt before recovery, `Retry` the optional one after it. */
  datatype Phase = First | Retry

  datatype Pc =
    | Idle
    | Acquire(phase: Phase)           // about to take the shared lock
    | Check(phase: Phase)             // shared: about to load degraded_
    | Insert(phase: Phase)            // shared: about to call try_insert
    | Failed(phase: Phase, gen: nat)  // shared: insert on connection `gen` failed, degraded_ not stored yet
    | Release(phase: Phase, ok: bool) // shared: leaving the scope
    | Cas                             // TryReconnect: about to try the gate
    | Spin(count: nat)                // another thread holds the gate
    | ReadFlag                        // gate seen open: about to load degraded_
    | WaitExclusive                   // gate taken: about to take the exclusive lock
    | Reconnect                       // exclusive: about to call Reconnect
    | Restore(ok: bool)               // exclusive: about to clear degraded_ if ok
    | OpenGate(ok: bool)              // exclusive: about to open the gate
    | Unlock(ok: bool)                // exclusive: leaving TryReconnect
    | Fallback                        // about to write through the mmap fallback

  /** What an attempt met: it was not made, the flag was set, or try_insert ended. */
  datatype Look = Unseen | Degraded | Tried(ok: bool)

  /** How TryReconnect ended: given up at the gate, the flag loaded after another thread's, or its own Reconnect. */
  datatype Recovery = NotTried | GaveUp(shutdown: bool) | Waited(degraded: bool) | Reconnected(ok: bool)

  /** What the current call has met so far; `spins` counts the times it found the gate closed and spun on. */
  datatype History = History(first: Look, recovery: Recovery, second: Look, spins: nat)

  /** `attempts`, `stored` and `fellBack` count tries of try_insert, successes and fallback writes of the call. */
  datatype Thread = Thread(pc: Pc, retry: bool, attempts: nat, stored: nat, fellBack: nat, history: History)

  const NOTHING: History := History(Unseen, NotTried, Unseen, 0)

  function Seen(h: History, phase: Phase, look: Look): History {
    if phase.First? then h.(first := look) else h.(second := look)
  }

  /**
   What the threads share. `gen` numbers the connections (one per Reconnect), `up` is whether the
   current one works, `failedSince` whether an insert failed on it, `redundant` whether the latest
   Reconnect ran while `degraded_` was false, `lost` whether it worked and broke.
   */
  datatype Env = Env(
    shared: set<nat>,
    exclusive: Option<nat>,
    degraded: bool,
    reconnecting: bool,
    up: bool,
    gen: nat,
    failedSince: bool,
    redundant: bool,
    lost: bool)

  /** `results` holds the finished calls with their counts. */
  datatype State = State(threads: seq<Thread>, env: Env, results: seq<Thread>)

  /**
   `outcome` decides a try_insert, a Reconnect, or a shutdown request seen while spinning. `Lose` is the server or the
   network going away, which the client only notices at its next insert.
   */
  datatype Action = Begin(t: nat, retry: bool) | Step(t: nat, outcome: bool) | Lose

  /** One thread's step: the shared part, the thread, and whether its call has returned. */
  datatype Effect = Effect(env: Env, thread: Thread, returned: bool)

  predicate Attempting(pc: Pc) {
    pc.Acquire? || pc.Check? || pc.Insert? || pc.Failed? || pc.Release?
  }

  predicate Waiting(pc: Pc) {
    pc.Cas? || pc.Spin? || pc.ReadFlag?
  }

  function AfterReconnect(th: Thread, ok: bool): Pc {
    if ok && th.retry then Acquire(Retry) else Fallback
  }

  /** Phases 1 and 2 of InsertWithFallback: try_insert under the shared lock. */
  function AttemptStep(env: Env, th: Thread, t: nat, outcome: bool): Effect
    requires Attempting(th.pc)
  {
    match th.pc
    case Acquire(phase) =>
      if env.exclusive.None? then Effect(env.(shared := env.shared + {t}), th.(pc := Check(phase)), false)
      else Effect(env, th, false)
    case Check(phase) =>
      if env.degraded then
        Effect(env, th.(pc := Release(phase, false), history := Seen(th.history, phase, Degraded)), false)
      else Effect(env, th.(pc := Insert(phase)), false)
    case Insert(phase) =>
      var ok := outcome && env.up;
      var tried := th.(attempts := th.attempts + 1, history := Seen(th.history, phase, Tried(ok)));
      if ok then Effect(env, tried.(pc := Release(phase, true), stored := th.stored + 1), false)
      else Effect(env.(failedSince := true), tried.(pc := Failed(phase, env.gen)), false)
    case Failed(phase, _) => Effect(env.(degraded := true), th.(pc := Release(phase, false)), false)
    case Release(phase, ok) =>
      Effect(env.(shared := env.shared - {t}),
             th.(pc := if ok then Idle else if phase == First then Cas else Fallback), ok)
  }

  /** TryReconnect up to the gate, and behind it when another thread holds it. */
  function WaitStep(env: Env, th: Thread, outcome: bool): Effect
    requires Waiting(th.pc)
  {
    match th.pc
    case Cas =>
      if env.reconnecting then Effect(env, th.(pc := Spin(0)), false)
      else Effect(env.(reconnecting := true), th.(pc := WaitExclusive), false)
    case Spin(count) =>
      if !env.reconnecting then Effect(env, th.(pc := ReadFlag), false)
      else if outcome then
        Effect(env, th.(pc := AfterReconnect(th, false), history := th.history.(recovery := GaveUp(true))), false)
      else
        var spun := th.history.(spins := th.history.spins + 1);
        if count + 1 > MAX_SPIN then
          Effect(env, th.(pc := AfterReconnect(th, false), history := spun.(recovery := GaveUp(false))), false)
        else Effect(env, th.(pc := Spin(count + 1), history := spun), false)
    case ReadFlag =>
      var waited := th.history.(recovery := Waited(env.degraded));
      Effect(env, th.(pc := AfterReconnect(th, !env.degraded), history := waited), false)
  }

  /** TryReconnect past the gate. */
  function RecoverStep(env: Env, th: Thread, t: nat, outcome: bool): Effect
    requires th.pc.WaitExclusive? || HoldsExclusive(th.pc)
  {
    match th.pc
    case WaitExclusive =>
      if env.exclusive.None? && env.shared == {} then Effect(env.(exclusive := Some(t)), th.(pc := Reconnect), false)
      else Effect(env, th, false)
    case Reconnect =>
      Effect(env.(gen := env.gen + 1, up := outcome, failedSince := false, redundant := !env.degraded, lost := false),
             th.(pc := Restore(outcome), history := th.history.(recovery := Reconnected(outcome))), false)
    case Restore(ok) => Effect(env.(degraded := env.degraded && !ok), th.(pc := OpenGate(ok)), false)
    case OpenGate(ok) => Effect(env.(reconnecting := false), th.(pc := Unlock(ok)), false)
    case Unlock(ok) => Effect(env.(exclusive := None), th.(pc := AfterReconnect(th, ok)), false)
  }

  function ThreadStep(env: Env, th: Thread, t: nat, outcome: bool): Effect {
    if th.pc.Idle? then Effect(env, th, false)
    else if th.pc.Fallback? then Effect(env, th.(pc := Idle, fellBack := th.fellBack + 1), true)
    else if Attempting(th.pc) then AttemptStep(env, th, t, outcome)
    else if Waiting(th.pc) then WaitStep(env, th, outcome)
    else RecoverStep(env, th, t, outcome)
  }

  function Apply(s: State, t: nat, e: Effect): State
    requires t < |s.threads|
  {
    State(s.threads[t := e.thread], e.env, if e.returned then s.results + [e.thread] else s.results)
  }

  function Next(s: State, a: Action): State {
    match a
    case Lose => s.(env := s.env.(up := false, lost := s.env.lost || s.env.up))
    case Begin(t, retry) =>
      if t < |s.threads| && s.threads[t].pc.Idle?
      then Apply(s, t, Effect(s.env, Thread(Acquire(First), retry, 0, 0, 0, NOTHING), false))
      else s
    case Step(t, outcome) => if t < |s.threads| then Apply(s, t, ThreadStep(s.env, s.threads[t], t, outcome)) else s
  }

  function Run(s: State, acts: seq<Action>): State
    decreases |acts|
  {
    if acts == [] then s else Run(Next(s, acts[0]), acts[1..])
  }

  /** Nothing running; the connection of Configure may or may not have come up. */
  ghost predicate Init(s: State) {
    && (forall t: nat | t < |s.threads| :: s.threads[t].pc == Idle)
    && s.env == Env({}, None, false, false, s.env.up, 0, false, false, false)
    && s.results == []
  }

  // ---- Invariant ----

  predicate HoldsShared(pc: Pc) {
    pc.Check? || pc.Insert? || pc.Failed? || pc.Release?
  }

  predicate HoldsExclusive(pc: Pc) {
    pc.Reconnect? || pc.Restore? || pc.OpenGate? || pc.Unlock?
  }

  predicate HoldsGate(pc: Pc) {
    pc.WaitExclusive? || pc.Reconnect? || pc.Restore? || pc.OpenGate?
  }

  /** TryReconnect returned true. */
  predicate Recovered(r: Recovery) {
    (r.Waited? && !r.degraded) || (r.Reconnected? && r.ok)
  }

  /** The attempt stored the data. */
  predicate Stored(look: Look) {
    look.Tried? && look.ok
  }

  /** The attempt was made and did not store. */
  predicate Missed(look: Look) {
    look.Degraded? || (look.Tried? && !look.ok)
  }

  function Ones(b: bool): nat {
    if b then 1 else 0
  }

  function Tries(h: History): nat {
    if h.first.Tried? && h.second.Tried? then 2 else if h.first.Tried? || h.second.Tried? then 1 else 0
  }

  function Stores(h: History): nat {
    if Stored(h.first) && Stored(h.second) then 2 else if Stored(h.first) || Stored(h.second) then 1 else 0
  }

  /** The counts of a call are those of what it met. */
  predicate Counted(th: Thread) {
    th.attempts == Tries(th.history) && th.stored == Stores(th.history)
  }

  /** Without a shutdown the gate is given up on only after the whole spin budget. */
  predicate Patient(h: History) {
    h.recovery.GaveUp? && !h.recovery.shutdown ==> h.spins == MAX_SPIN + 1
  }

  /** The attempt of a phase is due or was made. */
  predicate Entered(phase: Phase, retry: bool, h: History) {
    if phase.First? then h.recovery.NotTried? && h.second.Unseen? && h.spins == 0
    else retry && Missed(h.first) && Recovered(h.recovery)
  }

  function Of(h: History, phase: Phase): Look {
    if phase.First? then h.first else h.second
  }

  /** TryReconnect runs and has not called Reconnect. */
  predicate Recovering(h: History) {
    Missed(h.first) && h.recovery.NotTried? && h.second.Unseen?
  }

  /** Reconnect has returned `ok`. */
  predicate Reconnecting(h: History, ok: bool) {
    Missed(h.first) && h.recovery.Reconnected? && h.recovery.ok == ok && h.second.Unseen?
  }

  /** Nothing has stored the data, and nothing that should be tried is left. */
  predicate Exhausted(retry: bool, h: History) {
    && Missed(h.first) && !h.recovery.NotTried?
    && (if retry && Recovered(h.recovery) then Missed(h.second) else h.second.Unseen?)
  }

  /** Where a call stands, by program counter. */
  predicate Stands(pc: Pc, retry: bool, h: History) {
    match pc
    case Idle => true
    case Acquire(phase) => Entered(phase, retry, h) && Of(h, phase).Unseen?
    case Check(phase) => Entered(phase, retry, h) && Of(h, phase).Unseen?
    case Insert(phase) => Entered(phase, retry, h) && Of(h, phase).Unseen?
    case Failed(phase, _) => Entered(phase, retry, h) && Missed(Of(h, phase))
    case Release(phase, ok) => Entered(phase, retry, h) && if ok then Stored(Of(h, phase)) else Missed(Of(h, phase))
    case Restore(ok) => Reconnecting(h, ok)
    case OpenGate(ok) => Reconnecting(h, ok)
    case Unlock(ok) => Reconnecting(h, ok)
    case Spin(count) => Recovering(h) && h.spins == count <= MAX_SPIN
    case Cas => Recovering(h) && h.spins == 0
    case Fallback => Exhausted(retry, h)
    case _ => Recovering(h)
  }

  predicate CallOk(th: Thread) {
    !th.pc.Idle? ==> Stands(th.pc, th.retry, th.history) && Counted(th) && th.fellBack == 0 && Patient(th.history)
  }

  /**
   A finished call: its first attempt stored the data and it stopped there; or it went through TryReconnect, made a
   second attempt exactly if it may retry and TryReconnect returned true, and ran the fallback exactly if that
   attempt was not made or did not store.
   */
  predicate Settled(th: Thread) {
    && Counted(th) && Patient(th.history)
    && (if Stored(th.history.first) then
          th.history.recovery.NotTried? && th.history.second.Unseen? && th.fellBack == 0
        else
          && Missed(th.history.first) && !th.history.recovery.NotTried?
          && (th.history.second.Unseen? <==> !(th.retry && Recovered(th.history.recovery)))
          && th.fellBack == Ones(!Stored(th.history.second)))
  }

  /** What the shared part must say about the thread `t`, whatever the others do. */
  predicate Agrees(env: Env, th: Thread, t: nat) {
    && (HoldsShared(th.pc) <==> t in env.shared)
    && (HoldsExclusive(th.pc) <==> env.exclusive == Some(t))
    && (HoldsGate(th.pc) ==> env.reconnecting)
    && (th.pc.Failed? ==> th.pc.gen == env.gen && env.failedSince)
    && (th.pc.Restore? ==> !env.failedSince && (th.pc.ok <==> env.up || env.lost))
  }

  predicate EnvOk(env: Env) {
    && (env.exclusive.Some? ==> env.shared == {})
    && (!env.degraded && !env.up && env.gen > 0 ==> env.redundant || env.lost)
    && (env.lost ==> !env.up)
    && (env.degraded ==> env.failedSince || (env.gen > 0 && !env.redundant))
  }

  /** A thread sits between its failed insert and its store. */
  ghost predicate FailurePending(threads: seq<Thread>) {
    exists t: nat | t < |threads| :: threads[t].pc.Failed?
  }

  /** The flag is still set although a Reconnect has succeeded. */
  predicate Uncleared(env: Env) {
    env.degraded && !env.failedSince && (env.up || env.lost)
  }

  /** A thread sits between its successful Reconnect and clearing the flag. */
  ghost predicate ClearPending(threads: seq<Thread>) {
    exists t: nat | t < |threads| :: threads[t].pc == Restore(true)
  }

  ghost predicate GateHeld(threads: seq<Thread>) {
    exists t: nat | t < |threads| :: HoldsGate(threads[t].pc)
  }

  ghost predicate Inv(s: State) {
    && EnvOk(s.env)
    && (forall t: nat | t < |s.threads| :: Agrees(s.env, s.threads[t], t))
    && (forall t | t in s.env.shared :: t < |s.threads|)
    && (s.env.exclusive.Some? ==> s.env.exclusive.value < |s.threads|)
    && (forall t: nat, u: nat | t < |s.threads| && u < |s.threads| && t != u ::
          !(HoldsGate(s.threads[t].pc) && HoldsGate(s.threads[u].pc)))
    && (s.env.reconnecting ==> GateHeld(s.threads))
    && (!s.env.degraded && s.env.failedSince ==> FailurePending(s.threads))
    && (Uncleared(s.env) ==> ClearPending(s.threads))
  }

  // ---- One step, seen from the thread that takes it ----

  /** What a step may change of the shared part, by the mover's program counters. */
  predicate EnvMove(env: Env, env': Env, pc: Pc, pc': Pc, t: nat) {
    && env'.shared == (if HoldsShared(pc') then env.shared + {t} else env.shared - {t})
    && env'.exclusive == (if HoldsExclusive(pc') then Some(t) else if HoldsExclusive(pc) then None else env.exclusive)
    && (HoldsExclusive(pc') && !HoldsExclusive(pc) ==> env.exclusive.None?)
    && env'.reconnecting == (HoldsGate(pc') || (env.reconnecting && !HoldsGate(pc)))
    && (HoldsGate(pc') && !HoldsGate(pc) ==> !env.reconnecting)
    && (env'.gen != env.gen ==> HoldsExclusive(pc))
    && (env'.up != env.up ==> HoldsExclusive(pc) && !pc.Restore?)
    && (env'.failedSince && !env.failedSince ==> pc'.Failed?)
    && (env.failedSince && !env'.failedSince ==> HoldsExclusive(pc))
    && (env'.degraded && !env.degraded ==> pc.Failed?)
    && (pc'.Failed? ==> env'.failedSince && HoldsShared(pc))
    && (pc.Failed? && !pc'.Failed? ==> env'.degraded)
    && (env.degraded && !env'.degraded ==> pc.Restore?)
    && (env'.lost != env.lost ==> HoldsExclusive(pc) && !pc.Restore?)
    && (Uncleared(env') ==> pc' == Restore(true) || (Uncleared(env) && pc != Restore(true)))
  }

  /** A legal step: the mover still agrees with the shared part, which changed only as it may. */
  predicate Legal(env: Env, th: Thread, t: nat, e: Effect) {
    Agrees(e.env, e.thread, t) && EnvOk(e.env) && EnvMove(env, e.env, th.pc, e.thread.pc, t)
  }

  lemma BeginAttemptMoves(env: Env, th: Thread, t: nat, outcome: bool)
    requires Agrees(env, th, t) && EnvOk(env) && (th.pc.Acquire? || th.pc.Check?)
    ensures Legal(env, th, t, AttemptStep(env, th, t, outcome))
  {
  }

  lemma InsertMoves(env: Env, th: Thread, t: nat, outcome: bool)
    requires Agrees(env, th, t) && EnvOk(env) && th.pc.Insert?
    ensures Legal(env, th, t, AttemptStep(env, th, t, outcome))
  {
  }

  lemma EndAttemptMoves(env: Env, th: Thread, t: nat, outcome: bool)
    requires Agrees(env, th, t) && EnvOk(env) && (th.pc.Failed? || th.pc.Release?)
    ensures Legal(env, th, t, AttemptStep(env, th, t, outcome))
  {
  }

  lemma CasMoves(env: Env, th: Thread, t: nat, outcome: bool)
    requires Agrees(env, th, t) && EnvOk(env) && th.pc.Cas?
    ensures Legal(env, th, t, WaitStep(env, th, outcome))
  {
  }

  lemma SpinMoves(env: Env, th: Thread, t: nat, outcome: bool)
    requires Agrees(env, th, t) && EnvOk(env) && th.pc.Spin?
    ensures Legal(env, th, t, WaitStep(env, th, outcome))
  {
  }

  lemma ReadFlagMoves(env: Env, th: Thread, t: nat, outcome: bool)
    requires Agrees(env, th, t) && EnvOk(env) && th.pc.ReadFlag?
    ensures Legal(env, th, t, WaitStep(env, th, outcome))
  {
  }

  lemma ReconnectMoves(env: Env, th: Thread, t: nat, outcome: bool)
    requires Agrees(env, th, t) && EnvOk(env) && (th.pc.WaitExclusive? || th.pc.Reconnect?)
    ensures Legal(env, th, t, RecoverStep(env, th, t, outcome))
  {
  }

  lemma RestoreMoves(env: Env, th: Thread, t: nat, outcome: bool)
    requires Agrees(env, th, t) && EnvOk(env) && (th.pc.Restore? || th.pc.OpenGate? || th.pc.Unlock?)
    ensures Legal(env, th, t, RecoverStep(env, th, t, outcome))
  {
  }

  lemma RestMoves(env: Env, th: Thread, t: nat, outcome: bool)
    requires Agrees(env, th, t) && EnvOk(env) && (th.pc.Idle? || th.pc.Fallback?)
    ensures Legal(env, th, t, ThreadStep(env, th, t, outcome))
  {
  }

  lemma ThreadMoves(env: Env, th: Thread, t: nat, outcome: bool)
    requires Agrees(env, th, t) && EnvOk(env)
    ensures Legal(env, th, t, ThreadStep(env, th, t, outcome))
  {
    match th.pc
    case Idle => RestMoves(env, th, t, outcome);
    case Fallback => RestMoves(env, th, t, outcome);
    case Acquire(_) => BeginAttemptMoves(env, th, t, outcome);
    case Check(_) => BeginAttemptMoves(env, th, t, outcome);
    case Insert(_) => InsertMoves(env, th, t, outcome);
    case Failed(_, _) => EndAttemptMoves(env, th, t, outcome);
    case Release(_, _) => EndAttemptMoves(env, th, t, outcome);
    case Cas => CasMoves(env, th, t, outcome);
    case Spin(_) => SpinMoves(env, th, t, outcome);
    case ReadFlag => ReadFlagMoves(env, th, t, outcome);
    case WaitExclusive => ReconnectMoves(env, th, t, outcome);
    case Reconnect => ReconnectMoves(env, th, t, outcome);
    case _ => RestoreMoves(env, th, t, outcome);
  }

  /** A thread that stands still still agrees with the shared part. */
  lemma OtherAgrees(env: Env, env': Env, pc: Pc, pc': Pc, t: nat, other: Thread, u: nat)
    requires Agrees(env, other, u) && EnvOk(env) && EnvOk(env') && EnvMove(env, env', pc, pc', t) && u != t
    requires HoldsShared(pc) <==> t in env.shared
    requires HoldsExclusive(pc) <==> env.exclusive == Some(t)
    requires !(HoldsGate(pc) && HoldsGate(other.pc))
    ensures Agrees(env', other, u)
  {
  }

  lemma InvApply(s: State, t: nat, e: Effect)
    requires Inv(s) && t < |s.threads|
    requires Legal(s.env, s.threads[t], t, e)
    ensures Inv(Apply(s, t, e))
  {
    var s', pc := Apply(s, t, e), s.threads[t].pc;
    forall u: nat | u < |s.threads|
      ensures Agrees(e.env, s'.threads[u], u)
    {
      if u != t {
        OtherAgrees(s.env, e.env, pc, e.thread.pc, t, s.threads[u], u);
      }
    }
    if e.env.reconnecting {
      if HoldsGate(e.thread.pc) {
        assert HoldsGate(s'.threads[t].pc);
      } else {
        var u: nat :| u < |s.threads| && HoldsGate(s.threads[u].pc);
        assert HoldsGate(s'.threads[u].pc);
      }
    }
    if !e.env.degraded && e.env.failedSince {
      if e.thread.pc.Failed? {
        assert s'.threads[t].pc.Failed?;
      } else {
        var u: nat :| u < |s.threads| && s.threads[u].pc.Failed?;
        assert s'.threads[u].pc.Failed?;
      }
    }
    if Uncleared(e.env) {
      if e.thread.pc == Restore(true) {
        assert s'.threads[t].pc == Restore(true);
      } else {
        var u: nat :| u < |s.threads| && s.threads[u].pc == Restore(true);
        assert s'.threads[u].pc == Restore(true);
      }
    }
  }

  lemma InvLose(s: State)
    requires Inv(s)
    ensures Inv(Next(s, Lose))
  {
    var s' := Next(s, Lose);
    forall t: nat | t < |s.threads|
      ensures Agrees(s'.env, s'.threads[t], t)
    {
      assert Agrees(s.env, s.threads[t], t);
    }
  }

  lemma InvNext(s: State, a: Action)
    requires Inv(s)
    ensures Inv(Next(s, a))
  {
    match a
    case Lose => InvLose(s);
    case Step(t, outcome) =>
      if t < |s.threads| {
        ThreadMoves(s.env, s.threads[t], t, outcome);
        InvApply(s, t, ThreadStep(s.env, s.threads[t], t, outcome));
      }
    case Begin(t, retry) =>
      if t < |s.threads| && s.threads[t].pc.Idle? {
        InvApply(s, t, Effect(s.env, Thread(Acquire(First), retry, 0, 0, 0, NOTHING), false));
      }
  }

  // ---- The calls ----

  /** Every call stands as its history says, and every finished one is settled. */
  ghost predicate Calls(s: State) {
    && (forall t: nat | t < |s.threads| :: CallOk(s.threads[t]))
    && (forall i | 0 <= i < |s.results| :: Settled(s.results[i]))
  }

  /** A thread's step keeps its own call in order. */
  predicate Proceeds(e: Effect) {
    CallOk(e.thread) && (e.returned ==> Settled(e.thread))
  }

  lemma AttemptProceeds(env: Env, th: Thread, t: nat, outcome: bool)
    requires CallOk(th) && Attempting(th.pc)
    ensures Proceeds(AttemptStep(env, th, t, outcome))
  {
  }

  lemma WaitProceeds(env: Env, th: Thread, outcome: bool)
    requires CallOk(th) && Waiting(th.pc)
    ensures Proceeds(WaitStep(env, th, outcome))
  {
  }

  lemma ReconnectProceeds(env: Env, th: Thread, t: nat, outcome: bool)
    requires CallOk(th) && (th.pc.WaitExclusive? || th.pc.Reconnect?)
    ensures Proceeds(RecoverStep(env, th, t, outcome))
  {
  }

  lemma RestoreProceeds(env: Env, th: Thread, t: nat, outcome: bool)
    requires CallOk(th) && (th.pc.Restore? || th.pc.OpenGate?)
    ensures Proceeds(RecoverStep(env, th, t, outcome))
  {
  }

  lemma UnlockProceeds(env: Env, th: Thread, t: nat, outcome: bool)
    requires CallOk(th) && th.pc.Unlock?
    ensures Proceeds(RecoverStep(env, th, t, outcome))
  {
  }

  lemma CallProceeds(env: Env, th: Thread, t: nat, outcome: bool)
    requires CallOk(th)
    ensures Proceeds(ThreadStep(env, th, t, outcome))
  {
    if Attempting(th.pc) {
      AttemptProceeds(env, th, t, outcome);
    } else if Waiting(th.pc) {
      WaitProceeds(env, th, outcome);
    } else if th.pc.WaitExclusive? || th.pc.Reconnect? {
      ReconnectProceeds(env, th, t, outcome);
    } else if th.pc.Restore? || th.pc.OpenGate? {
      RestoreProceeds(env, th, t, outcome);
    } else if th.pc.Unlock? {
      UnlockProceeds(env, th, t, outcome);
    }
  }

  lemma CallsApply(s: State, t: nat, e: Effect)
    requires Calls(s) && t < |s.threads| && Proceeds(e)
    ensures Calls(Apply(s, t, e))
  {
  }

  lemma CallsNext(s: State, a: Action)
    requires Calls(s)
    ensures Calls(Next(s, a))
  {
    match a
    case Lose =>
    case Step(t, outcome) =>
      if t < |s.threads| {
        CallProceeds(s.env, s.threads[t], t, outcome);
        CallsApply(s, t, ThreadStep(s.env, s.threads[t], t, outcome));
      }
    case Begin(t, retry) =>
      if t < |s.threads| && s.threads[t].pc.Idle? {
        CallsApply(s, t, Effect(s.env, Thread(Acquire(First), retry, 0, 0, 0, NOTHING), false));
      }
  }

  lemma {:induction false} CallsRun(s: State, acts: seq<Action>)
    requires Calls(s)
    ensures Calls(Run(s, acts))
    decreases |acts|
  {
    if acts != [] {
      CallsNext(s, acts[0]);
      CallsRun(Next(s, acts[0]), acts[1..]);
    }
  }

  lemma {:induction false} InvRun(s: State, acts: seq<Action>)
    requires Inv(s)
    ensures Inv(Run(s, acts))
    decreases |acts|
  {
    if acts != [] {
      InvNext(s, acts[0]);
      InvRun(Next(s, acts[0]), acts[1..]);
    }
  }

  // ---- Main results: safety over every run ----

  lemma InitInv(s: State)
    requires Init(s)
    ensures Inv(s)
  {
  }

  /**
   The flag is honest. Whenever `degraded_` is false and nobody is about to set it, no insert has
   failed since the latest Reconnect; and whoever is about to set it saw the failure on the current
   connection, so a failure on old writers never degrades a newer one.
   */
  lemma FlagIsHonest(s0: State, acts: seq<Action>)
    requires Init(s0)
    ensures var s := Run(s0, acts);
            && (!s.env.degraded && !FailurePending(s.threads) ==> !s.env.failedSince)
            && (forall t: nat | t < |s.threads| && s.threads[t].pc.Failed? :: s.threads[t].pc.gen == s.env.gen)
            && (!s.env.degraded && !s.env.up && s.env.gen > 0 ==> s.env.redundant || s.env.lost)
  {
    InitInv(s0);
    InvRun(s0, acts);
    var s := Run(s0, acts);
    forall t: nat | t < |s.threads| && s.threads[t].pc.Failed?
      ensures s.threads[t].pc.gen == s.env.gen
    {
      assert Agrees(s.env, s.threads[t], t);
    }
  }

  /**
   Exactly when a clear flag hides a dead connection, in every run with no store to the flag outstanding:
   no insert has failed on that connection yet, and Configure failed to open it, or it was made by a
   Reconnect that ran although the flag was already clear, or it worked and was lost.
   */
  lemma FlagHidesDeadConnectionIff(s0: State, acts: seq<Action>)
    requires Init(s0) && !FailurePending(Run(s0, acts).threads) && !ClearPending(Run(s0, acts).threads)
    ensures var env := Run(s0, acts).env;
            !env.degraded && !env.up <==> !env.up && !env.failedSince && (env.gen == 0 || env.redundant || env.lost)
  {
    InitInv(s0);
    InvRun(s0, acts);
  }

  /** At most one thread runs Reconnect, at most one is past the gate, and nobody inserts meanwhile. */
  lemma ReconnectIsExclusive(s0: State, acts: seq<Action>, t: nat, u: nat)
    requires Init(s0)
    requires var s := Run(s0, acts); t < |s.threads| && u < |s.threads| && t != u
    ensures var s := Run(s0, acts);
            && (HoldsGate(s.threads[t].pc) ==> !HoldsGate(s.threads[u].pc))
            && (HoldsExclusive(s.threads[t].pc) ==> !HoldsExclusive(s.threads[u].pc) && !HoldsShared(s.threads[u].pc))
  {
    InitInv(s0);
    InvRun(s0, acts);
    var s := Run(s0, acts);
    assert Agrees(s.env, s.threads[t], t) && Agrees(s.env, s.threads[u], u);
  }

  /**
   Every finished InsertWithFallback had exactly one insert report success or ran the fallback exactly once. It made a
   second attempt exactly if it may retry, its first did not store, and TryReconnect returned true: by its own
   Reconnect, or by a clear flag after waiting for another thread's. The fallback ran exactly if neither attempt stored.
   TryReconnect gave up at the gate only on shutdown or after its whole spin budget.
   */
  lemma EveryCallSettles(s0: State, acts: seq<Action>, i: nat)
    requires Init(s0) && i < |Run(s0, acts).results|
    ensures var r := Run(s0, acts).results[i];
            var due := !Stored(r.history.first) && r.retry && Recovered(r.history.recovery);
            && r.stored + r.fellBack == 1
            && r.stored <= r.attempts <= (if due then 2 else 1)
            && r.attempts == Tries(r.history)
            && (!r.history.second.Unseen? <==> due)
            && (r.fellBack == 1 <==> !Stored(r.history.first) && !Stored(r.history.second))
            && (r.history.recovery == GaveUp(false) ==> r.history.spins == MAX_SPIN + 1)
  {
    CallsRun(s0, acts);
  }

  // ---- Main results: every call returns ----

  predicate Enabled(env: Env, pc: Pc) {
    match pc
    case Idle => false
    case Acquire(_) => env.exclusive.None?
    case WaitExclusive => env.exclusive.None? && env.shared == {}
    case _ => true
  }

  /** Steps a thread has left at most, in any schedule. */
  function Rank(pc: Pc): nat {
    match pc
    case Idle => 0
    case Fallback => 1
    case Release(Retry, _) => 2
    case Failed(Retry, _) => 3
    case Insert(Retry) => 4
    case Check(Retry) => 5
    case Acquire(Retry) => 6
    case ReadFlag => 7
    case Unlock(_) => 7
    case OpenGate(_) => 8
    case Restore(_) => 9
    case Reconnect => 10
    case WaitExclusive => 11
    case Spin(count) => 8 + (if count < MAX_SPIN then MAX_SPIN - count else 0)
    case Cas => 12 + MAX_SPIN
    case Release(First, _) => 13 + MAX_SPIN
    case Failed(First, _) => 14 + MAX_SPIN
    case Insert(First) => 15 + MAX_SPIN
    case Check(First) => 16 + MAX_SPIN
    case Acquire(First) => 17 + MAX_SPIN
  }

  function Total(threads: seq<Thread>): nat {
    if threads == [] then 0 else Rank(threads[0].pc) + Total(threads[1..])
  }

  lemma {:induction false} TotalUpdate(threads: seq<Thread>, t: nat, th: Thread)
    requires t < |threads|
    ensures Total(threads[t := th]) == Total(threads) - Rank(threads[t].pc) + Rank(th.pc)
    decreases |threads|
  {
    if t == 0 {
      assert threads[t := th][1..] == threads[1..];
    } else {
      assert threads[t := th][1..] == threads[1..][t - 1 := th];
      TotalUpdate(threads[1..], t - 1, th);
    }
  }

  lemma AttemptRankFalls(env: Env, th: Thread, t: nat, outcome: bool)
    requires Enabled(env, th.pc) && Attempting(th.pc)
    ensures Rank(AttemptStep(env, th, t, outcome).thread.pc) < Rank(th.pc)
  {
  }

  lemma WaitRankFalls(env: Env, th: Thread, outcome: bool)
    requires Waiting(th.pc)
    ensures Rank(WaitStep(env, th, outcome).thread.pc) < Rank(th.pc)
  {
  }

  lemma RecoverRankFalls(env: Env, th: Thread, t: nat, outcome: bool)
    requires Enabled(env, th.pc) && (th.pc.WaitExclusive? || HoldsExclusive(th.pc))
    ensures Rank(RecoverStep(env, th, t, outcome).thread.pc) < Rank(th.pc)
  {
  }

  lemma RankFalls(env: Env, th: Thread, t: nat, outcome: bool)
    requires Enabled(env, th.pc)
    ensures Rank(ThreadStep(env, th, t, outcome).thread.pc) < Rank(th.pc)
  {
    if Attempting(th.pc) {
      AttemptRankFalls(env, th, t, outcome);
    } else if Waiting(th.pc) {
      WaitRankFalls(env, th, outcome);
    } else if !th.pc.Fallback? {
      RecoverRankFalls(env, th, t, outcome);
    }
  }

  /** A step that is not a wait for a lock brings the end of all running calls nearer. */
  lemma StepProgresses(s: State, t: nat, outcome: bool)
    requires t < |s.threads| && Enabled(s.env, s.threads[t].pc)
    ensures Total(Next(s, Step(t, outcome)).threads) < Total(s.threads)
  {
    RankFalls(s.env, s.threads[t], t, outcome);
    TotalUpdate(s.threads, t, ThreadStep(s.env, s.threads[t], t, outcome).thread);
  }

  /** The locks never deadlock: while a call is running, some thread can move. */
  lemma NoDeadlock(s: State) returns (t: nat)
    requires Inv(s) && exists u: nat | u < |s.threads| :: !s.threads[u].pc.Idle?
    ensures t < |s.threads| && Enabled(s.env, s.threads[t].pc)
  {
    t :| t < |s.threads| && !s.threads[t].pc.Idle?;
    if !Enabled(s.env, s.threads[t].pc) {
      if s.env.exclusive.Some? {
        t := s.env.exclusive.value;
      } else {
        t :| t in s.env.shared;
      }
      assert Agrees(s.env, s.threads[t], t);
    }
  }

  lemma SomeProgress(s: State, outcome: bool) returns (t: nat)
    requires Inv(s) && exists u: nat | u < |s.threads| :: !s.threads[u].pc.Idle?
    ensures var next := Next(s, Step(t, outcome));
            Inv(next) && |next.threads| == |s.threads| && Total(next.threads) < Total(s.threads)
  {
    t := NoDeadlock(s);
    StepProgresses(s, t, outcome);
    InvNext(s, Step(t, outcome));
  }

  /** From every reachable state all running calls can be driven to their end, even if every client call fails. */
  lemma {:induction false} AllCallsReturn(s: State, outcome: bool) returns (acts: seq<Action>)
    requires Inv(s)
    ensures |acts| <= Total(s.threads) && forall i | 0 <= i < |acts| :: acts[i].Step? && acts[i].outcome == outcome
    ensures var end := Run(s, acts).threads;
            |end| == |s.threads| && forall t: nat | t < |end| :: end[t].pc.Idle?
    decreases Total(s.threads)
  {
    if exists u: nat | u < |s.threads| :: !s.threads[u].pc.Idle? {
      var t := SomeProgress(s, outcome);
      var next := Next(s, Step(t, outcome));
      var rest := AllCallsReturn(next, outcome);
      acts := [Step(t, outcome)] + rest;
      assert acts[1..] == rest;
      assert Run(s, acts) == Run(next, rest);
    } else {
      acts := [];
    }
  }

  // ---- A redundant Reconnect ----

  /** Two writers without retry, the first with `tries` failed inserts and `recovery`, the second with `look`. */
  function Two(pc0: Pc, tries: nat, recovery: Recovery, pc1: Pc, look: Look, env: Env): State {
    var first := if tries == 0 then Unseen else Tried(false);
    State([Thread(pc0, false, tries, 0, 0, History(first, recovery, Unseen, 0)),
           Thread(pc1, false, 0, 0, 0, History(look, NotTried, Unseen, 0))], env, [])
  }

  const HEALTHY: Env := Env({}, None, false, false, true, 0, false, false, false)
  const START: State := Two(Idle, 0, NotTried, Idle, Unseen, HEALTHY)
  const DEGRADED: Env := HEALTHY.(degraded := true, failedSince := true)

  lemma {:induction false} RunAppend(s: State, a: seq<Action>, b: seq<Action>)
    ensures Run(s, a + b) == Run(Run(s, a), b)
    decreases |a|
  {
    if a == [] {
      assert a + b == b;
    } else {
      assert (a + b)[0] == a[0] && (a + b)[1..] == a[1..] + b;
      RunAppend(Next(s, a[0]), a[1..], b);
    }
  }

  lemma Extend(acts: seq<Action>, mid: State, a: Action, b: Action, c: Action)
    requires Run(START, acts) == mid
    ensures Run(START, acts + [a, b, c]) == Next(Next(Next(mid, a), b), c)
  {
    RunAppend(START, acts, [a, b, c]);
    var s1 := Next(mid, a);
    var s2 := Next(s1, b);
    assert [a, b, c][1..] == [b, c] && [b, c][1..] == [c] && [c][1..] == [];
    assert Run(s2, [c]) == Run(Next(s2, c), []);
    assert Run(s1, [b, c]) == Run(s2, [c]);
  }

  lemma FirstAsksForTheLock() returns (acts: seq<Action>)
    ensures Run(START, acts) == Two(Check(First), 0, NotTried, Acquire(First), Unseen, HEALTHY.(shared := {0}))
  {
    acts := [];
    Extend(acts, START, Begin(0, false), Begin(1, false), Step(0, false));
    acts := acts + [Begin(0, false), Begin(1, false), Step(0, false)];
  }

  lemma FirstFails() returns (acts: seq<Action>)
    ensures Run(START, acts)
            == Two(Release(First, false), 1, NotTried, Acquire(First), Unseen, DEGRADED.(shared := {0}))
  {
    acts := FirstAsksForTheLock();
    Extend(acts, Two(Check(First), 0, NotTried, Acquire(First), Unseen, HEALTHY.(shared := {0})),
           Step(0, false), Step(0, false), Step(0, false));
    acts := acts + [Step(0, false), Step(0, false), Step(0, false)];
  }

  lemma SecondSeesTheFlag() returns (acts: seq<Action>)
    ensures Run(START, acts) == Two(Cas, 1, NotTried, Release(First, false), Degraded, DEGRADED.(shared := {1}))
  {
    acts := FirstFails();
    Extend(acts, Two(Release(First, false), 1, NotTried, Acquire(First), Unseen, DEGRADED.(shared := {0})),
           Step(0, true), Step(1, true), Step(1, true));
    acts := acts + [Step(0, true), Step(1, true), Step(1, true)];
  }

  lemma FirstPassesTheGate() returns (acts: seq<Action>)
    ensures Run(START, acts)
            == Two(Reconnect, 1, NotTried, Cas, Degraded, DEGRADED.(reconnecting := true, exclusive := Some(0)))
  {
    acts := SecondSeesTheFlag();
    Extend(acts, Two(Cas, 1, NotTried, Release(First, false), Degraded, DEGRADED.(shared := {1})),
           Step(1, true), Step(0, true), Step(0, true));
    acts := acts + [Step(1, true), Step(0, true), Step(0, true)];
  }

  lemma FirstReconnects() returns (acts: seq<Action>)
    ensures Run(START, acts)
            == Two(Unlock(true), 1, Reconnected(true), Cas, Degraded, HEALTHY.(gen := 1, exclusive := Some(0)))
  {
    acts := FirstPassesTheGate();
    Extend(acts, Two(Reconnect, 1, NotTried, Cas, Degraded, DEGRADED.(reconnecting := true, exclusive := Some(0))),
           Step(0, true), Step(0, true), Step(0, true));
    acts := acts + [Step(0, true), Step(0, true), Step(0, true)];
  }

  lemma SecondPassesTheGate() returns (acts: seq<Action>)
    ensures Run(START, acts)
            == Two(Fallback, 1, Reconnected(true), Reconnect, Degraded,
                   HEALTHY.(gen := 1, reconnecting := true, exclusive := Some(1)))
  {
    acts := FirstReconnects();
    Extend(acts, Two(Unlock(true), 1, Reconnected(true), Cas, Degraded, HEALTHY.(gen := 1, exclusive := Some(0))),
           Step(0, true), Step(1, true), Step(1, true));
    acts := acts + [Step(0, true), Step(1, true), Step(1, true)];
  }

  /**
   A clear flag does not mean a working connection. Two writers find the connection failed and both
   pass the gate, one after the other; the first Reconnect succeeds and clears the flag, the second
   then takes the connection down, fails, and leaves the flag clear.
   */
  lemma RedundantReconnectGoesUnnoticed() returns (acts: seq<Action>)
    ensures Init(START)
    ensures var s := Run(START, acts); !s.env.degraded && !s.env.up && s.env.gen == 2
  {
    acts := SecondPassesTheGate();
    var mid := Run(START, acts);
    RunAppend(START, acts, [Step(1, false)]);
    assert Run(mid, [Step(1, false)]) == Run(Next(mid, Step(1, false)), []);
    acts := acts + [Step(1, false)];
  }

  /** The third way: the reconnect works and clears the flag, then the server goes away, and nobody has tried since. */
  lemma LossGoesUnnoticed() returns (acts: seq<Action>)
    ensures Init(START)
    ensures var s := Run(START, acts);
            && !s.env.degraded && !s.env.up && s.env.gen == 1 && !s.env.redundant && s.env.lost
            && !FailurePending(s.threads) && !ClearPending(s.threads)
  {
    acts := FirstReconnects();
    var mid := Run(START, acts);
    RunAppend(START, acts, [Lose]);
    assert Run(mid, [Lose]) == Run(Next(mid, Lose), []);
    acts := acts + [Lose];
  }

  // ---- A retry that stores ----

  /** The first writer with retry, alone. */
  function Alone(pc: Pc, attempts: nat, history: History, env: Env): State {
    START.(threads := START.threads[0 := Thread(pc, true, attempts, 0, 0, history)], env := env)
  }

  const FAILED_ONCE: History := NOTHING.(first := Tried(false))
  const BACK: History := FAILED_ONCE.(recovery := Reconnected(true))

  lemma AloneFails() returns (acts: seq<Action>)
    ensures Run(START, acts) == Alone(Release(First, false), 1, FAILED_ONCE, DEGRADED.(shared := {0}))
  {
    acts := [];
    Extend(acts, START, Begin(0, true), Step(0, false), Step(0, false));
    acts := acts + [Begin(0, true), Step(0, false), Step(0, false)];
    Extend(acts, Alone(Insert(First), 0, NOTHING, HEALTHY.(shared := {0})),
           Step(0, false), Step(0, false), Step(2, false));
    acts := acts + [Step(0, false), Step(0, false), Step(2, false)];
  }

  lemma AloneReconnects() returns (acts: seq<Action>)
    ensures Run(START, acts)
            == Alone(OpenGate(true), 1, BACK, HEALTHY.(gen := 1, reconnecting := true, exclusive := Some(0)))
  {
    acts := AloneFails();
    Extend(acts, Alone(Release(First, false), 1, FAILED_ONCE, DEGRADED.(shared := {0})),
           Step(0, true), Step(0, true), Step(0, true));
    acts := acts + [Step(0, true), Step(0, true), Step(0, true)];
    Extend(acts, Alone(Reconnect, 1, FAILED_ONCE, DEGRADED.(reconnecting := true, exclusive := Some(0))),
           Step(0, true), Step(0, true), Step(2, true));
    acts := acts + [Step(0, true), Step(0, true), Step(2, true)];
  }

  lemma AloneRetries() returns (acts: seq<Action>)
    ensures Run(START, acts) == Alone(Check(Retry), 1, BACK, HEALTHY.(gen := 1, shared := {0}))
  {
    acts := AloneReconnects();
    Extend(acts, Alone(OpenGate(true), 1, BACK, HEALTHY.(gen := 1, reconnecting := true, exclusive := Some(0))),
           Step(0, true), Step(0, true), Step(0, true));
    acts := acts + [Step(0, true), Step(0, true), Step(0, true)];
  }

  /** An insert that fails, reconnects and succeeds the second time: two attempts, one store, no fallback. */
  lemma RetryStores() returns (acts: seq<Action>)
    ensures Init(START)
    ensures var s := Run(START, acts);
            && |s.results| == 1 && s.results[0].retry
            && s.results[0].attempts == 2 && s.results[0].stored == 1 && s.results[0].fellBack == 0
  {
    acts := AloneRetries();
    Extend(acts, Alone(Check(Retry), 1, BACK, HEALTHY.(gen := 1, shared := {0})),
           Step(0, true), Step(0, true), Step(0, true));
    acts := acts + [Step(0, true), Step(0, true), Step(0, true)];
  }

  // ---- What a Reconnect leaves behind ----

  predicate FlagTells(env: Env) {
    env.degraded <==> !env.up
  }

  predicate OfOthers(a: Action, t: nat) {
    !a.Lose? && a.t != t
  }

  /** Under the exclusive lock of `t` nobody else touches the flag or the connection. */
  lemma OthersKeepFlag(s: State, a: Action, t: nat)
    requires Inv(s) && t < |s.threads| && s.env.exclusive == Some(t) && OfOthers(a, t)
    ensures var r := Next(s, a);
            && |r.threads| == |s.threads| && r.threads[t] == s.threads[t] && r.env.exclusive == Some(t)
            && r.env.degraded == s.env.degraded && r.env.up == s.env.up
  {
    if a.Step? && a.t < |s.threads| {
      assert Agrees(s.env, s.threads[a.t], a.t);
      ThreadMoves(s.env, s.threads[a.t], a.t, a.outcome);
    }
  }

  lemma {:induction false} OthersKeepFlagInRun(s: State, acts: seq<Action>, t: nat)
    requires Inv(s) && t < |s.threads| && s.env.exclusive == Some(t)
    requires forall i | 0 <= i < |acts| :: OfOthers(acts[i], t)
    ensures var r := Run(s, acts);
            && |r.threads| == |s.threads| && r.threads[t] == s.threads[t]
            && r.env.degraded == s.env.degraded && r.env.up == s.env.up
    decreases |acts|
  {
    if acts != [] {
      OthersKeepFlag(s, acts[0], t);
      InvNext(s, acts[0]);
      OthersKeepFlagInRun(Next(s, acts[0]), acts[1..], t);
    }
  }

  /** Reconnect ends with `outcome`, the others do `between`, and the flag is settled. */
  function Settle(s: State, t: nat, outcome: bool, between: seq<Action>): State {
    Next(Run(Next(s, Step(t, outcome)), between), Step(t, outcome))
  }

  lemma SettledEnv(s: State, t: nat, outcome: bool, between: seq<Action>)
    requires Inv(s) && t < |s.threads| && s.threads[t].pc == Reconnect
    requires forall i | 0 <= i < |between| :: OfOthers(between[i], t)
    ensures FlagTells(Settle(s, t, outcome, between).env) <==> outcome || s.env.degraded
  {
    assert Agrees(s.env, s.threads[t], t);
    InvNext(s, Step(t, outcome));
    OthersKeepFlagInRun(Next(s, Step(t, outcome)), between, t);
  }

  /**
   Whatever the others do meanwhile, and if the connection is not lost in between: the flag matches the connection
   after a Reconnect, however that ends, if and only if `degraded_` was still set when it began.
   */
  lemma FlagRightAfterReconnectIff(s: State, t: nat, between: seq<Action>)
    requires Inv(s) && t < |s.threads| && s.threads[t].pc == Reconnect
    requires forall i | 0 <= i < |between| :: OfOthers(between[i], t)
    ensures (forall outcome :: FlagTells(Settle(s, t, outcome, between).env)) <==> s.env.degraded
  {
    forall outcome
      ensures FlagTells(Settle(s, t, outcome, between).env) <==> outcome || s.env.degraded
    {
      SettledEnv(s, t, outcome, between);
    }
    SettledEnv(s, t, false, between);
  }
}
