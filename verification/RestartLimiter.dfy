/**
 The restart limiter of RithmicProcessManager (CheckHealth and the monitor loop
 of src/exchange/rithmic/rithmic_process_manager.cpp). The child's state, its
 heartbeat and the steady clock are inputs.
 */
module RestartLimiter {
  import opened Machine

  const SECOND: nat := 1_000_000_000
  const MINUTE: nat := 60 * SECOND
  const TWO_32: nat := 0x1_0000_0000

  /** waitpid on the child: reaped, running with its last heartbeat, or no child. */
  datatype Probe = Reaped | Running(lastHeartbeat: nat) | NoChild

  /** One CheckHealth call: the probe, the clock at the heartbeat test and at the restart test, SpawnChild's result. */
  datatype Observation = Observation(probe: Probe, heartbeatClock: nat, now: nat, spawned: bool)

  /** A restart and the value of `restart_count_` it was made with. */
  datatype Restart = Restart(time: nat, count: nat)

  // ---- Specification ----

  datatype Limiter = Limiter(max: nat, count: nat, last: nat, running: bool, restarts: seq<Restart>)

  /** Whole seconds since the heartbeat, in 64-bit arithmetic. */
  function SilentSeconds(clock: nat, heartbeat: nat): nat
    requires clock < TWO_64 && heartbeat < TWO_64
  {
    Since(clock, heartbeat) / SECOND
  }

  /** The child needs a restart: it is gone, or has not beaten for more than the timeout. */
  predicate Dead(o: Observation, timeoutSec: nat)
    requires Clocks(o)
  {
    o.probe.Running? ==>
      o.probe.lastHeartbeat > 0 && SilentSeconds(o.heartbeatClock, o.probe.lastHeartbeat) > timeoutSec
  }

  predicate Clocks(o: Observation) {
    o.heartbeatClock < TWO_64 && (o.probe.Running? ==> o.probe.lastHeartbeat < TWO_64)
  }

  /** `++` on the 32-bit counter. */
  function Increment(c: nat): nat {
    if c + 1 == TWO_32 then 0 else c + 1
  }

  /** What a dead child leads to at time `now`. */
  function OnDead(s: Limiter, now: nat): Limiter
    requires s.last <= now
  {
    if (now - s.last) / SECOND < 60 then
      var count := Increment(s.count);
      if count > s.max then s.(count := count, running := false)
      else s.(count := count, last := now, restarts := s.restarts + [Restart(now, count)])
    else s.(count := 0, last := now, restarts := s.restarts + [Restart(now, 0)])
  }

  lemma WholeSeconds(d: nat)
    ensures d / SECOND < 60 <==> d < MINUTE
  {
  }

  /** The deaths the monitor loop sees, until it stops itself. */
  function Monitor(s: Limiter, deaths: seq<nat>): Limiter
    requires InOrder(s.last, deaths)
    decreases |deaths|
  {
    if deaths == [] || !s.running then s
    else Monitor(OnDead(s, deaths[0]), deaths[1..])
  }

  ghost predicate InOrder(from: nat, times: seq<nat>) {
    && (forall i | 0 <= i < |times| :: from <= times[i])
    && (forall i, j | 0 <= i < j < |times| :: times[i] <= times[j])
  }

  // ---- Invariant ----

  /** Counts run on while restarts are less than a minute apart and never exceed the maximum. */
  ghost predicate Chained(rs: seq<Restart>, max: nat) {
    && (forall i | 0 <= i < |rs| :: rs[i].count <= max)
    && (forall i | 0 < i < |rs| :: Follows(rs[i - 1], rs[i]))
  }

  predicate Follows(a: Restart, b: Restart) {
    a.time <= b.time && (b.time - a.time < MINUTE ==> b.count == a.count + 1)
  }

  /** The largest maximum is no maximum: a 32-bit count is never above it. */
  const NO_LIMIT: nat := TWO_32 - 1

  ghost predicate Inv(s: Limiter) {
    && s.max < NO_LIMIT && Chained(s.restarts, s.max)
    && (s.restarts != [] ==>
          var r := s.restarts[|s.restarts| - 1];
          s.last == r.time && (s.running ==> s.count == r.count))
  }

  lemma InvOnDead(s: Limiter, now: nat)
    requires Inv(s) && s.running && s.last <= now
    ensures Inv(OnDead(s, now))
  {
    WholeSeconds(now - s.last);
  }

  lemma {:induction false} InvMonitor(s: Limiter, deaths: seq<nat>)
    requires Inv(s) && InOrder(s.last, deaths)
    ensures Inv(Monitor(s, deaths)) && Monitor(s, deaths).max == s.max
    decreases |deaths|
  {
    if deaths != [] && s.running {
      InvOnDead(s, deaths[0]);
      InvMonitor(OnDead(s, deaths[0]), deaths[1..]);
    }
  }

  // ---- Main results ----

  /** In a chain of restarts without a minute's pause the count grows by one each time. */
  lemma {:induction false} CountsGrow(rs: seq<Restart>, max: nat, i: nat, j: nat)
    requires Chained(rs, max) && i <= j < |rs| && rs[j].time < rs[i].time + MINUTE
    ensures rs[i].time <= rs[j].time && rs[j].count == rs[i].count + (j - i)
    decreases j
  {
    if i < j {
      TimesGrow(rs, max, i, j - 1);
      assert Follows(rs[j - 1], rs[j]);
      CountsGrow(rs, max, i, j - 1);
    }
  }

  lemma {:induction false} TimesGrow(rs: seq<Restart>, max: nat, i: nat, j: nat)
    requires Chained(rs, max) && i <= j < |rs|
    ensures rs[i].time <= rs[j].time
    decreases j
  {
    if i < j {
      TimesGrow(rs, max, i, j - 1);
      assert Follows(rs[j - 1], rs[j]);
    }
  }

  /**
   In every run of the monitor loop, restarts i to j that fall in a window shorter than a minute are at
   most max_restarts_per_min + 1.
   */
  lemma RestartsPerWindow(s: Limiter, deaths: seq<nat>, i: nat, j: nat)
    requires s.max < NO_LIMIT && s.restarts == [] && InOrder(s.last, deaths)
    requires var rs := Monitor(s, deaths).restarts; i <= j < |rs| && rs[j].time < rs[i].time + MINUTE
    ensures j - i + 1 <= s.max + 1
  {
    InvMonitor(s, deaths);
    CountsGrow(Monitor(s, deaths).restarts, s.max, i, j);
  }

  /** Once the monitor has given up nothing is restarted any more, whatever dies. */
  lemma {:induction false} NoRestartAfterGivingUp(s: Limiter, deaths: seq<nat>, later: seq<nat>)
    requires InOrder(s.last, deaths + later) && InOrder(s.last, deaths) && !Monitor(s, deaths).running
    ensures Monitor(s, deaths + later) == Monitor(s, deaths)
    decreases |deaths|
  {
    if deaths != [] && s.running {
      assert (deaths + later)[1..] == deaths[1..] + later;
      assert (deaths + later)[0] == deaths[0];
      LaterInOrder(s, deaths[0], deaths + later);
      LaterInOrder(s, deaths[0], deaths);
      NoRestartAfterGivingUp(OnDead(s, deaths[0]), deaths[1..], later);
    }
  }

  lemma LaterInOrder(s: Limiter, now: nat, times: seq<nat>)
    requires InOrder(s.last, times) && times != [] && now == times[0]
    ensures InOrder(OnDead(s, now).last, times[1..])
  {
  }

  // When the monitor gives up

  /** The `n` gaps from `times[i]` on are all shorter than a minute. */
  ghost predicate ShortGaps(times: seq<nat>, i: nat, n: nat) {
    i + n < |times| && forall k: nat | i <= k < i + n :: Short(times, k)
  }

  predicate Short(times: seq<nat>, k: nat)
    requires k + 1 < |times|
  {
    times[k + 1] < times[k] + MINUTE
  }

  ghost predicate SomeShortGaps(times: seq<nat>, n: nat) {
    exists i: nat :: ShortGaps(times, i, n)
  }

  lemma ShortGapsTail(times: seq<nat>, i: nat, n: nat)
    requires times != [] && i > 0
    ensures ShortGaps(times, i, n) <==> ShortGaps(times[1..], i - 1, n)
  {
    var t := times[1..];
    if ShortGaps(times, i, n) {
      forall k: nat | i - 1 <= k < i - 1 + n
        ensures Short(t, k)
      {
        assert Short(times, k + 1);
      }
    }
    if ShortGaps(t, i - 1, n) {
      forall k: nat | i <= k < i + n
        ensures Short(times, k)
      {
        assert Short(t, k - 1);
      }
    }
  }

  lemma ShortGapsHead(times: seq<nat>, n: nat)
    requires |times| >= 2 && n > 0
    ensures ShortGaps(times, 0, n) <==> Short(times, 0) && ShortGaps(times[1..], 0, n - 1)
  {
    ShortGapsTail(times, 1, n - 1);
    if Short(times, 0) && ShortGaps(times, 1, n - 1) {
      forall k: nat | k < n
        ensures Short(times, k)
      {
      }
    }
  }

  lemma SomeShortGapsTail(times: seq<nat>, n: nat)
    requires times != []
    ensures SomeShortGaps(times, n) <==> ShortGaps(times, 0, n) || SomeShortGaps(times[1..], n)
  {
    if SomeShortGaps(times, n) {
      var i: nat :| ShortGaps(times, i, n);
      if i > 0 {
        ShortGapsTail(times, i, n);
      }
    }
    if SomeShortGaps(times[1..], n) {
      var i: nat :| ShortGaps(times[1..], i, n);
      ShortGapsTail(times, i + 1, n);
    }
  }

  /** With a count already run up, fewer short gaps at the start are enough. */
  ghost predicate TooMany(times: seq<nat>, count: nat, max: nat)
    requires count <= max
  {
    ShortGaps(times, 0, max + 1 - count) || SomeShortGaps(times, max + 1)
  }

  lemma TooManyAfterShort(times: seq<nat>, count: nat, max: nat)
    requires count <= max && |times| >= 2 && Short(times, 0)
    ensures if count == max then TooMany(times, count, max)
            else TooMany(times, count, max) <==> TooMany(times[1..], count + 1, max)
  {
    ShortGapsHead(times, max + 1 - count);
    SomeShortGapsTail(times, max + 1);
    if count == max {
      assert ShortGaps(times[1..], 0, 0);
    }
  }

  lemma TooManyAfterLong(times: seq<nat>, count: nat, max: nat)
    requires count <= max && |times| >= 2 && !Short(times, 0)
    ensures TooMany(times, count, max) <==> TooMany(times[1..], 0, max)
  {
    ShortGapsHead(times, max + 1 - count);
    ShortGapsHead(times, max + 1);
    SomeShortGapsTail(times, max + 1);
  }

  lemma {:induction false} GivesUpFrom(s: Limiter, deaths: seq<nat>, times: seq<nat>)
    requires s.running && s.count <= s.max < NO_LIMIT && InOrder(s.last, deaths) && times == [s.last] + deaths
    ensures !Monitor(s, deaths).running <==> TooMany(times, s.count, s.max)
    decreases |deaths|
  {
    if deaths != [] {
      var next := OnDead(s, deaths[0]);
      assert times[1..] == deaths == [deaths[0]] + deaths[1..];
      WholeSeconds(deaths[0] - s.last);
      LaterInOrder(s, deaths[0], deaths);
      if Short(times, 0) {
        TooManyAfterShort(times, s.count, s.max);
      } else {
        TooManyAfterLong(times, s.count, s.max);
      }
      if next.running {
        GivesUpFrom(next, deaths[1..], deaths);
      }
    }
  }

  /**
   Main result: the monitor gives up if and only if max_restarts_per_min + 1 gaps in a row, counted from its start,
   are each shorter than a minute.
   */
  lemma GivesUpIff(s: Limiter, deaths: seq<nat>)
    requires s.running && s.count == 0 && s.max < NO_LIMIT && InOrder(s.last, deaths)
    ensures !Monitor(s, deaths).running <==> SomeShortGaps([s.last] + deaths, s.max + 1)
  {
    GivesUpFrom(s, deaths, [s.last] + deaths);
  }

  /** At the largest 32-bit maximum the count wraps instead: the monitor never gives up and restarts on every death. */
  lemma {:induction false} NeverGivesUpWithoutLimit(s: Limiter, deaths: seq<nat>)
    requires s.running && s.max == NO_LIMIT && s.count < TWO_32 && InOrder(s.last, deaths)
    ensures Monitor(s, deaths).running && |Monitor(s, deaths).restarts| == |s.restarts| + |deaths|
    decreases |deaths|
  {
    if deaths != [] {
      LaterInOrder(s, deaths[0], deaths);
      NeverGivesUpWithoutLimit(OnDead(s, deaths[0]), deaths[1..]);
    }
  }

  // Giving up does not mean too many restarts in a minute: deaths 59 seconds apart

  const PACE: nat := 59 * SECOND

  function Paced(from: nat, n: nat): (r: seq<nat>)
    ensures |r| == n && forall i | 0 <= i < n :: r[i] == from + PACE * (i + 1)
  {
    seq(n, i requires 0 <= i < n => from + PACE * (i + 1))
  }

  lemma PacedTail(from: nat, n: nat)
    requires n > 0
    ensures Paced(from, n)[0] == from + PACE && Paced(from, n)[1..] == Paced(from + PACE, n - 1)
  {
  }

  /** The restarts made so far come at that pace. */
  ghost predicate AtPace(rs: seq<Restart>) {
    forall i | 0 < i < |rs| :: rs[i].time == rs[i - 1].time + PACE
  }

  lemma {:induction false} PacedRun(s: Limiter, n: nat)
    requires s.running && s.max < NO_LIMIT && AtPace(s.restarts) && s.count + n == s.max + 1 && n > 0
    requires s.restarts != [] ==> s.last == s.restarts[|s.restarts| - 1].time
    ensures InOrder(s.last, Paced(s.last, n))
    ensures var r := Monitor(s, Paced(s.last, n));
            !r.running && AtPace(r.restarts) && |r.restarts| == |s.restarts| + n - 1
    decreases n
  {
    PacedTail(s.last, n);
    if n > 1 {
      PacedRun(OnDead(s, s.last + PACE), n - 1);
    }
  }

  lemma {:induction false} AtMostTwoInAMinute(rs: seq<Restart>, i: nat, j: nat)
    requires AtPace(rs) && i < j < |rs|
    ensures rs[j].time >= rs[i].time + PACE * (j - i)
    decreases j
  {
    if i + 1 < j {
      AtMostTwoInAMinute(rs, i, j - 1);
    }
  }

  /** The monitor gives up although no three of its restarts lie within a minute, whatever the maximum. */
  lemma GivesUpBelowTheRate(s: Limiter)
    requires s.running && s.count == 0 && s.max < NO_LIMIT && s.restarts == []
    ensures InOrder(s.last, Paced(s.last, s.max + 1))
    ensures var r := Monitor(s, Paced(s.last, s.max + 1));
            && !r.running && |r.restarts| == s.max
            && forall i, j | 0 <= i < j < |r.restarts| && r.restarts[j].time < r.restarts[i].time + MINUTE :: j == i + 1
  {
    PacedRun(s, s.max + 1);
    var rs := Monitor(s, Paced(s.last, s.max + 1)).restarts;
    forall i, j | 0 <= i < j < |rs| && rs[j].time < rs[i].time + MINUTE
      ensures j == i + 1
    {
      AtMostTwoInAMinute(rs, i, j);
    }
  }

  // When the bound is attained, given that the loop sleeps between rounds

  /** The monitor's sleep: two deaths it sees are at least this far apart. */
  const ROUND: nat := 500_000_000

  ghost predicate Apart(times: seq<nat>) {
    forall i | 0 < i < |times| :: times[i] >= times[i - 1] + ROUND
  }

  ghost predicate RestartsApart(rs: seq<Restart>) {
    forall i | 0 < i < |rs| :: rs[i].time >= rs[i - 1].time + ROUND
  }

  /** Deaths a round apart give restarts a round apart. */
  lemma {:induction false} ApartRun(s: Limiter, deaths: seq<nat>)
    requires InOrder(s.last, deaths) && Apart(deaths) && RestartsApart(s.restarts)
    requires s.restarts != [] ==>
               s.restarts[|s.restarts| - 1].time == s.last && (deaths != [] ==> deaths[0] >= s.last + ROUND)
    ensures RestartsApart(Monitor(s, deaths).restarts)
    decreases |deaths|
  {
    if deaths != [] && s.running {
      LaterInOrder(s, deaths[0], deaths);
      assert |deaths| > 1 ==> deaths[1] >= deaths[0] + ROUND;
      if OnDead(s, deaths[0]).running {
        ApartRun(OnDead(s, deaths[0]), deaths[1..]);
      }
    }
  }

  lemma {:induction false} RoundsAdd(rs: seq<Restart>, i: nat, j: nat)
    requires RestartsApart(rs) && i <= j < |rs|
    ensures rs[j].time >= rs[i].time + ROUND * (j - i)
    decreases j
  {
    if i < j {
      RoundsAdd(rs, i, j - 1);
    }
  }

  /** Deaths in every round. */
  function EveryRound(first: nat, n: nat): (r: seq<nat>)
    ensures |r| == n && forall i | 0 <= i < n :: r[i] == first + ROUND * i
  {
    seq(n, i requires 0 <= i < n => first + ROUND * i)
  }

  lemma EveryRoundOk(from: nat, first: nat, n: nat)
    requires from <= first
    ensures InOrder(from, EveryRound(first, n)) && Apart(EveryRound(first, n))
  {
  }

  lemma EveryRoundTail(first: nat, n: nat)
    requires n > 0
    ensures EveryRound(first, n)[0] == first && EveryRound(first, n)[1..] == EveryRound(first + ROUND, n - 1)
  {
  }

  /** The latest restart, if any, is the one `last` stands for. */
  predicate LastMatches(s: Limiter) {
    s.restarts != [] ==> s.restarts[|s.restarts| - 1].time == s.last
  }

  lemma RoundIsShort(s: Limiter)
    requires s.count < s.max < NO_LIMIT
    ensures var now := s.last + ROUND;
            OnDead(s, now)
            == s.(count := s.count + 1, last := now, restarts := s.restarts + [Restart(now, s.count + 1)])
  {
    WholeSeconds(ROUND);
  }

  /** As long as the count allows, each of them is followed by a restart. */
  lemma {:induction false} RestartEveryRound(s: Limiter, n: nat, deaths: seq<nat>)
    requires s.running && s.count + n <= s.max < NO_LIMIT && LastMatches(s)
    requires InOrder(s.last, deaths) && deaths == EveryRound(s.last + ROUND, n)
    ensures var r := Monitor(s, deaths);
            && |r.restarts| == |s.restarts| + n && s.restarts <= r.restarts
            && r.last == s.last + ROUND * n && LastMatches(r)
    decreases n
  {
    if n > 0 {
      RoundIsShort(s);
      EveryRoundTail(s.last + ROUND, n);
      LaterInOrder(s, deaths[0], deaths);
      RestartEveryRound(OnDead(s, deaths[0]), n - 1, deaths[1..]);
    }
  }

  /** Some maximum plus one restarts of the run lie within less than a minute. */
  ghost predicate Crowded(rs: seq<Restart>, max: nat) {
    exists i: nat :: CrowdedFrom(rs, i, max)
  }

  predicate CrowdedFrom(rs: seq<Restart>, i: nat, max: nat) {
    i + max < |rs| && rs[i + max].time < rs[i].time + MINUTE
  }

  lemma AfterQuietMinute(s: Limiter)
    ensures OnDead(s, s.last + MINUTE)
            == s.(count := 0, last := s.last + MINUTE, restarts := s.restarts + [Restart(s.last + MINUTE, 0)])
  {
    WholeSeconds(MINUTE);
  }

  /** A quiet minute, then a death in every round. */
  lemma CrowdedRun(s: Limiter) returns (deaths: seq<nat>)
    requires s.running && s.max < NO_LIMIT && s.restarts == [] && s.max * ROUND < MINUTE
    ensures InOrder(s.last, deaths) && Apart(deaths) && Crowded(Monitor(s, deaths).restarts, s.max)
  {
    var first := s.last + MINUTE;
    deaths := EveryRound(first, s.max + 1);
    EveryRoundOk(s.last, first, s.max + 1);
    AfterQuietMinute(s);
    EveryRoundTail(first, s.max + 1);
    LaterInOrder(s, first, deaths);
    RestartEveryRound(OnDead(s, first), s.max, deaths[1..]);
    FirstAndLast(Monitor(s, deaths), first, s.max);
  }

  lemma FirstAndLast(r: Limiter, first: nat, max: nat)
    requires |r.restarts| == max + 1 && r.restarts[0].time == first && r.last == first + ROUND * max && LastMatches(r)
    requires max * ROUND < MINUTE
    ensures Crowded(r.restarts, max)
  {
    assert CrowdedFrom(r.restarts, 0, max);
  }

  // The monitor loop

  /** What the monitor thread goes by: the limiter and whether there is a child. */
  datatype Watch = Watch(limiter: Limiter, hasChild: bool)

  predicate FoundDead(w: Watch, o: Observation, timeoutSec: nat)
    requires Clocks(o)
  {
    !w.hasChild || Dead(o, timeoutSec)
  }

  /**
   A running child is found dead exactly if it has a heartbeat and was silent for at least one second more than the
   timeout, in 64-bit arithmetic on the clock; any other child is.
   */
  lemma FoundDeadIff(w: Watch, o: Observation, timeoutSec: nat)
    requires Clocks(o)
    ensures var silent := if o.probe.Running? && o.probe.lastHeartbeat > o.heartbeatClock
                          then TWO_64 + o.heartbeatClock - o.probe.lastHeartbeat
                          else if o.probe.Running? then o.heartbeatClock - o.probe.lastHeartbeat else 0;
            FoundDead(w, o, timeoutSec)
            <==> !w.hasChild || !o.probe.Running?
                 || (o.probe.lastHeartbeat > 0 && silent >= (timeoutSec + 1) * 1_000_000_000)
  {
  }

  /** CheckHealth: a live child is left alone, a dead one restarted if the limiter lets it. */
  function Look(w: Watch, o: Observation, timeoutSec: nat): Watch
    requires Clocks(o) && w.limiter.last <= o.now
  {
    if FoundDead(w, o, timeoutSec) then
      var limiter := OnDead(w.limiter, o.now);
      Watch(limiter, limiter.running && o.spawned)
    else w
  }

  ghost predicate RoundsOk(from: nat, rounds: seq<Observation>) {
    && (forall i | 0 <= i < |rounds| :: Clocks(rounds[i]) && from <= rounds[i].now)
    && (forall i, j | 0 <= i < j < |rounds| :: rounds[i].now <= rounds[j].now)
  }

  lemma RoundsLater(w: Watch, rounds: seq<Observation>, timeoutSec: nat)
    requires RoundsOk(w.limiter.last, rounds) && rounds != []
    ensures RoundsOk(Look(w, rounds[0], timeoutSec).limiter.last, rounds[1..])
  {
  }

  /** The loop over some rounds, or until it stops itself. */
  ghost function WatchAll(w: Watch, rounds: seq<Observation>, timeoutSec: nat): Watch
    requires RoundsOk(w.limiter.last, rounds)
    decreases |rounds|
  {
    if rounds == [] || !w.limiter.running then w
    else
      RoundsLater(w, rounds, timeoutSec);
      WatchAll(Look(w, rounds[0], timeoutSec), rounds[1..], timeoutSec)
  }

  /** The times of the rounds that found the child dead. */
  ghost function DeadRounds(w: Watch, rounds: seq<Observation>, timeoutSec: nat): seq<nat>
    requires RoundsOk(w.limiter.last, rounds)
    decreases |rounds|
  {
    if rounds == [] || !w.limiter.running then []
    else
      RoundsLater(w, rounds, timeoutSec);
      var rest := DeadRounds(Look(w, rounds[0], timeoutSec), rounds[1..], timeoutSec);
      if FoundDead(w, rounds[0], timeoutSec) then [rounds[0].now] + rest else rest
  }

  /** Successive rounds are a sleep apart. */
  ghost predicate RoundsApart(rounds: seq<Observation>) {
    forall i | 0 < i < |rounds| :: rounds[i].now >= rounds[i - 1].now + ROUND
  }

  lemma InOrderCons(from: nat, now: nat, times: seq<nat>)
    requires from <= now && InOrder(now, times)
    ensures InOrder(from, [now] + times)
  {
  }

  lemma ApartCons(now: nat, times: seq<nat>)
    requires Apart(times) && (times != [] ==> times[0] >= now + ROUND)
    ensures Apart([now] + times)
  {
    forall i | 0 < i < |[now] + times|
      ensures ([now] + times)[i] >= ([now] + times)[i - 1] + ROUND
    {
      assert ([now] + times)[i] == times[i - 1];
    }
  }

  lemma MonitorCons(s: Limiter, now: nat, times: seq<nat>)
    requires s.running && s.last <= now && InOrder(s.last, [now] + times) && InOrder(OnDead(s, now).last, times)
    ensures Monitor(s, [now] + times) == Monitor(OnDead(s, now), times)
  {
    assert ([now] + times)[0] == now && ([now] + times)[1..] == times;
  }

  /** The loop is a run of the limiter over the rounds that found the child dead, in order. */
  lemma {:induction false} LoopIsMonitor(w: Watch, rounds: seq<Observation>, timeoutSec: nat)
    requires RoundsOk(w.limiter.last, rounds)
    ensures var deaths := DeadRounds(w, rounds, timeoutSec);
            && InOrder(w.limiter.last, deaths)
            && (rounds != [] ==> InOrder(rounds[0].now, deaths))
            && WatchAll(w, rounds, timeoutSec).limiter == Monitor(w.limiter, deaths)
    decreases |rounds|
  {
    if rounds != [] && w.limiter.running {
      var now, next := rounds[0].now, Look(w, rounds[0], timeoutSec);
      var rest := DeadRounds(next, rounds[1..], timeoutSec);
      RoundsLater(w, rounds, timeoutSec);
      LoopIsMonitor(next, rounds[1..], timeoutSec);
      LaterDeaths(now, rounds, rest);
      if FoundDead(w, rounds[0], timeoutSec) {
        InOrderCons(w.limiter.last, now, rest);
        InOrderCons(now, now, rest);
        MonitorCons(w.limiter, now, rest);
      }
    }
  }

  lemma LaterDeaths(now: nat, rounds: seq<Observation>, rest: seq<nat>)
    requires rounds != [] && now == rounds[0].now
    requires forall i, j | 0 <= i < j < |rounds| :: rounds[i].now <= rounds[j].now
    requires if |rounds| > 1 then InOrder(rounds[1..][0].now, rest) else rest == []
    ensures InOrder(now, rest)
  {
  }

  /** Rounds a sleep apart see deaths a sleep apart. */
  lemma {:induction false} DeadRoundsApart(w: Watch, rounds: seq<Observation>, timeoutSec: nat)
    requires RoundsOk(w.limiter.last, rounds) && RoundsApart(rounds)
    ensures var deaths := DeadRounds(w, rounds, timeoutSec);
            Apart(deaths) && (deaths != [] ==> rounds != [] && deaths[0] >= rounds[0].now)
    decreases |rounds|
  {
    if rounds != [] && w.limiter.running {
      var rest := DeadRounds(Look(w, rounds[0], timeoutSec), rounds[1..], timeoutSec);
      RoundsLater(w, rounds, timeoutSec);
      DeadRoundsApart(Look(w, rounds[0], timeoutSec), rounds[1..], timeoutSec);
      assert |rounds| > 1 ==> rounds[1..][0].now >= rounds[0].now + ROUND;
      ApartCons(rounds[0].now, rest);
    }
  }

  /** A child found dead in every round, at given times. */
  function Reapings(times: seq<nat>): (r: seq<Observation>)
    ensures |r| == |times| && forall i | 0 <= i < |r| :: r[i] == Observation(Reaped, 0, times[i], true)
  {
    seq(|times|, i requires 0 <= i < |times| => Observation(Reaped, 0, times[i], true))
  }

  /** Every run of the limiter is one of the loop. */
  lemma {:induction false} AnyDeathsSeen(w: Watch, times: seq<nat>, timeoutSec: nat)
    requires InOrder(w.limiter.last, times)
    ensures RoundsOk(w.limiter.last, Reapings(times))
    ensures WatchAll(w, Reapings(times), timeoutSec).limiter == Monitor(w.limiter, times)
    decreases |times|
  {
    if times != [] && w.limiter.running {
      var rounds := Reapings(times);
      assert rounds[1..] == Reapings(times[1..]);
      LaterInOrder(w.limiter, times[0], times);
      AnyDeathsSeen(Look(w, rounds[0], timeoutSec), times[1..], timeoutSec);
    }
  }

  /** Some run of the loop, with rounds a sleep apart, makes the maximum plus one restarts in less than a minute. */
  ghost predicate SomeRunCrowded(w: Watch, timeoutSec: nat) {
    exists rounds: seq<Observation> | RoundsOk(w.limiter.last, rounds) && RoundsApart(rounds) ::
      Crowded(WatchAll(w, rounds, timeoutSec).limiter.restarts, w.limiter.max)
  }

  /**
   The monitor loop, which looks at the child every half second, can make max_restarts_per_min + 1 restarts in less
   than a minute if and only if that many half seconds fit: for a maximum below 120.
   */
  lemma BoundIsAttainedIff(w: Watch, timeoutSec: nat)
    requires w.limiter.running && w.limiter.max < NO_LIMIT && w.limiter.restarts == []
    ensures SomeRunCrowded(w, timeoutSec) <==> w.limiter.max * ROUND < MINUTE
  {
    var s := w.limiter;
    if s.max * ROUND < MINUTE {
      var deaths := CrowdedRun(s);
      AnyDeathsSeen(w, deaths, timeoutSec);
      assert RoundsApart(Reapings(deaths));
    }
    if SomeRunCrowded(w, timeoutSec) {
      var rounds: seq<Observation> :| RoundsOk(s.last, rounds) && RoundsApart(rounds)
                                      && Crowded(WatchAll(w, rounds, timeoutSec).limiter.restarts, s.max);
      LoopIsMonitor(w, rounds, timeoutSec);
      DeadRoundsApart(w, rounds, timeoutSec);
      CrowdedFits(s, DeadRounds(w, rounds, timeoutSec));
    }
  }

  lemma CrowdedFits(s: Limiter, deaths: seq<nat>)
    requires s.restarts == [] && InOrder(s.last, deaths) && Apart(deaths)
    requires Crowded(Monitor(s, deaths).restarts, s.max)
    ensures s.max * ROUND < MINUTE
  {
    var rs := Monitor(s, deaths).restarts;
    var i: nat :| CrowdedFrom(rs, i, s.max);
    ApartRun(s, deaths);
    RoundsAdd(rs, i, i + s.max);
  }

  // ---- The manager ----

  class RithmicProcessManager {
    const heartbeatTimeoutSec: nat
    const maxRestartsPerMin: nat
    var hasChild: bool
    var restartCount: nat
    var lastRestart: nat
    var monitorRunning: bool
    ghost var restarts: seq<Restart>

    ghost function Model(): Limiter
      reads this
    {
      Limiter(maxRestartsPerMin, restartCount, lastRestart, monitorRunning, restarts)
    }

    ghost function Watching(): Watch
      reads this
    {
      Watch(Model(), hasChild)
    }

    ghost predicate Valid()
      reads this
    {
      && maxRestartsPerMin < TWO_32 && restartCount < TWO_32
      && (maxRestartsPerMin < NO_LIMIT ==> Inv(Model()))
    }

    /** As StartThreads leaves it; `start` is the value `last_restart_` was built with. */
    constructor (heartbeatTimeoutSec: nat, maxRestartsPerMin: nat, start: nat)
      requires maxRestartsPerMin < TWO_32
      ensures Valid() && Model() == Limiter(maxRestartsPerMin, 0, start, true, [])
      ensures this.heartbeatTimeoutSec == heartbeatTimeoutSec
    {
      this.heartbeatTimeoutSec, this.maxRestartsPerMin := heartbeatTimeoutSec, maxRestartsPerMin;
      hasChild, restartCount, lastRestart, monitorRunning, restarts := true, 0, start, true, [];
    }

    /** CheckHealth: true exactly if the child was alive, or was restarted with success. */
    method CheckHealth(o: Observation) returns (healthy: bool)
      requires Valid() && monitorRunning && Clocks(o) && lastRestart <= o.now
      modifies this
      ensures Valid() && Watching() == Look(old(Watching()), o, heartbeatTimeoutSec)
      ensures healthy <==> !old(FoundDead(Watching(), o, heartbeatTimeoutSec)) || (monitorRunning && o.spawned)
      ensures healthy <==> hasChild
    {
      var alive := false;
      if hasChild {
        alive := o.probe.Running?;
        hasChild := alive;
      }
      if alive {
        if o.probe.lastHeartbeat > 0 {
          var elapsed := SilentSeconds(o.heartbeatClock, o.probe.lastHeartbeat);
          if elapsed > heartbeatTimeoutSec {
            hasChild := false;
            alive := false;
          }
        }
        if alive {
          return true;
        }
      }
      healthy := RestartChild(o.now, o.spawned);
    }

    /** The rate-limited restart at the end of CheckHealth. */
    method RestartChild(now: nat, spawned: bool) returns (ok: bool)
      requires Valid() && monitorRunning && lastRestart <= now
      modifies this
      ensures Valid() && Model() == OnDead(old(Model()), now)
      ensures ok == (monitorRunning && spawned) && hasChild == if monitorRunning then spawned else old(hasChild)
    {
      if maxRestartsPerMin < NO_LIMIT {
        InvOnDead(Model(), now);
      }
      var elapsed := (now - lastRestart) / SECOND;
      if elapsed < 60 {
        restartCount := Increment(restartCount);
        if restartCount > maxRestartsPerMin {
          monitorRunning := false;
          return false;
        }
      } else {
        restartCount := 0;
      }
      lastRestart := now;
      restarts := restarts + [Restart(now, restartCount)];
      hasChild := spawned;
      ok := spawned;
    }

    /** The monitor thread over any number of rounds. */
    method MonitorLoop(rounds: seq<Observation>)
      requires Valid() && RoundsOk(lastRestart, rounds)
      modifies this
      ensures Valid() && Watching() == WatchAll(old(Watching()), rounds, heartbeatTimeoutSec)
      ensures var deaths := DeadRounds(old(Watching()), rounds, heartbeatTimeoutSec);
              && InOrder(old(lastRestart), deaths) && Model() == Monitor(old(Model()), deaths)
              && (RoundsApart(rounds) ==> Apart(deaths))
    {
      ghost var start, goal := Watching(), WatchAll(Watching(), rounds, heartbeatTimeoutSec);
      LoopIsMonitor(start, rounds, heartbeatTimeoutSec);
      if RoundsApart(rounds) {
        DeadRoundsApart(start, rounds, heartbeatTimeoutSec);
      }
      var i := 0;
      assert rounds[0..] == rounds;
      while i < |rounds| && monitorRunning
        invariant 0 <= i <= |rounds| && Valid() && RoundsOk(lastRestart, rounds[i..])
        invariant WatchAll(Watching(), rounds[i..], heartbeatTimeoutSec) == goal
        decreases |rounds| - i
      {
        assert rounds[i..][0] == rounds[i] && rounds[i..][1..] == rounds[i + 1..];
        RoundsLater(Watching(), rounds[i..], heartbeatTimeoutSec);
        var healthy := CheckHealth(rounds[i]);
        i := i + 1;
      }
    }
  }
}
