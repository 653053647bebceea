/**
 The publishing pipeline of src/pubsub/pub_worker.cpp: three bounded queues per
 shard filled by the parsers, and a dispatcher that visits all queues round
 robin. What the producers push between two visits, and how a send ends, are
 inputs (`Moment`). Each queue is the bounded FIFO that `SpscQueue` refines.
 */
module PubWorker {
  import opened Machine

  /** Depth of each SPSCQueue in ShardQueues. */
  const QUEUE_CAPACITY: nat := 4096

  /** How SendTyped ends: no topic for the channel, no free buffer, high-water mark, or sent. */
  datatype Outcome = Unroutable | NoBuffer | HighWater | Delivered

  /**
   A Publish call; `kind` 0, 1, 2 is tick, depth, book ticker. `lag` is how many pops the producer's load of
   read_pos_ has not seen.
   */
  datatype Arrival<T> = Arrival(item: T, shard: nat, kind: nat, lag: nat)

  /**
   What a visit meets. The pop is `blind` if its load of write_pos_ is so stale that it sees none of the items waiting.
   For a send: the topic prefix registered for the channel, a free buffer, and the two frames accepted.
   */
  datatype Attempt = Attempt(blind: bool, prefix: Option<string>, slot: bool, topicSent: bool, payloadSent: bool)

  /** What happens just before a queue is visited, whether the pop is blind, and how a send from any queue would end. */
  datatype Moment<T> = Moment(arrivals: seq<Arrival<T>>, blind: bool, outcome: nat -> Outcome)

  /** `kMaxTopicLen`. */
  const MAX_TOPIC: nat := 64

  function Suffix(kind: nat): string {
    if kind == 0 then "tick" else if kind == 1 then "depth" else "book_ticker"
  }

  /** The channel has a prefix, and the topic "prefix:suffix" fits the buffer with its terminator. */
  predicate Routable(prefix: Option<string>, kind: nat) {
    prefix.Some? && prefix.value != [] && |prefix.value| + 1 + |Suffix(kind)| < MAX_TOPIC
  }

  /** A channel is routable exactly if it has a non-empty prefix and the topic has at most 63 characters. */
  lemma RoutableIff(prefix: Option<string>, kind: nat)
    ensures Routable(prefix, kind)
            <==> prefix.Some? && prefix.value != [] && |prefix.value + ":" + Suffix(kind)| <= 63
  {
  }

  /** How SendTyped ends for a queue of some kind. */
  function Resolve(a: Attempt, kind: nat): Outcome {
    if !Routable(a.prefix, kind) then Unroutable
    else if !a.slot then NoBuffer
    else if a.topicSent && a.payloadSent then Delivered
    else HighWater
  }

  /** `taken` is history: the items popped from each queue. Queue 3 * shard + kind holds one kind of one shard. */
  datatype Pub<T> = Pub(
    queues: seq<seq<T>>,
    taken: seq<seq<T>>,
    attempts: nat,
    sent: nat,
    queueDrops: nat,
    bufferDrops: nat,
    hwmDrops: nat,
    unroutable: nat)

  /** A send from queue `q` would end as SendTyped says of this attempt. */
  predicate EndsAs<T>(m: Moment<T>, attempt: Attempt, q: nat) {
    m.outcome(q) == Resolve(attempt, q % 3)
  }

  /** `m` is the moment with these arrivals and this attempt. */
  ghost predicate Describes<T>(m: Moment<T>, arrivals: seq<Arrival<T>>, attempt: Attempt) {
    && m.arrivals == arrivals && ArrivalsOk(arrivals) && m.blind == attempt.blind
    && forall q: nat :: EndsAs(m, attempt, q)
  }

  /** The script of a run whose inputs are these. */
  ghost predicate ScriptOf<T>(script: nat -> Moment<T>, arrivals: nat -> seq<Arrival<T>>, attempts: nat -> Attempt) {
    forall n: nat {:trigger attempts(n)} :: Describes(script(n), arrivals(n), attempts(n))
  }

  function NoArrivals<T>(): nat -> seq<Arrival<T>> {
    (n: nat) => []
  }

  // ---- Specification ----

  predicate Publishes<T>(s: Pub<T>, a: Arrival<T>) {
    a.kind < 3 && 3 * a.shard + a.kind < |s.queues|
  }

  /** PublishTick, PublishDepth and PublishBookTicker; a shard out of range is ignored. */
  function Publish<T>(s: Pub<T>, a: Arrival<T>): Pub<T> {
    if !Publishes(s, a) then s
    else
      var q := 3 * a.shard + a.kind;
      if |s.queues[q]| + a.lag >= QUEUE_CAPACITY then s.(attempts := s.attempts + 1, queueDrops := s.queueDrops + 1)
      else s.(attempts := s.attempts + 1, queues := s.queues[q := s.queues[q] + [a.item]])
  }

  function PublishAll<T>(s: Pub<T>, arrivals: seq<Arrival<T>>): Pub<T>
    decreases |arrivals|
  {
    if arrivals == [] then s else Publish(PublishAll(s, arrivals[..|arrivals| - 1]), arrivals[|arrivals| - 1])
  }

  /** SendTyped's counters. */
  function Count<T>(s: Pub<T>, outcome: Outcome): Pub<T> {
    match outcome
    case Unroutable => s.(unroutable := s.unroutable + 1)
    case NoBuffer => s.(bufferDrops := s.bufferDrops + 1)
    case HighWater => s.(hwmDrops := s.hwmDrops + 1)
    case Delivered => s.(sent := s.sent + 1)
  }

  /** The pop of TrySendOne. */
  function Pop<T>(s: Pub<T>, q: nat): Pub<T>
    requires q < |s.queues| == |s.taken| && s.queues[q] != []
  {
    s.(queues := s.queues[q := s.queues[q][1..]], taken := s.taken[q := s.taken[q] + [s.queues[q][0]]])
  }

  predicate Shape<T>(s: Pub<T>, total: nat) {
    |s.queues| == |s.taken| == total
  }

  /** TrySendOne on queue `q`; the pop is refused if it sees no item. */
  function Visit<T>(s: Pub<T>, q: nat, blind: bool, outcome: Outcome): Pub<T>
    requires Shape(s, |s.queues|) && q < |s.queues|
  {
    if blind || s.queues[q] == [] then s else Count(Pop(s, q), outcome)
  }

  function Happen<T>(s: Pub<T>, q: nat, m: Moment<T>): (r: Pub<T>)
    requires q < |s.queues| && Shape(s, |s.queues|)
    ensures Shape(r, |s.queues|)
  {
    PublishKeepsShape(s, m.arrivals);
    Visit(PublishAll(s, m.arrivals), q, m.blind, m.outcome(q))
  }

  lemma {:induction false} PublishKeepsShape<T>(s: Pub<T>, arrivals: seq<Arrival<T>>)
    requires Shape(s, |s.queues|)
    ensures Shape(PublishAll(s, arrivals), |s.queues|) && PublishAll(s, arrivals).taken == s.taken
    decreases |arrivals|
  {
    if arrivals != [] {
      PublishKeepsShape(s, arrivals[..|arrivals| - 1]);
    }
  }

  /** The queue visited `i`-th from a cursor. */
  function Position(cursor: nat, i: nat, total: nat): (q: nat)
    requires cursor < total && i < total
    ensures q < total
  {
    if cursor + i < total then cursor + i else cursor + i - total
  }

  /** The first `i` visits of a cycle; the script is consumed from `at` on. */
  function Visits<T>(s: Pub<T>, cursor: nat, script: nat -> Moment<T>, at: nat, i: nat): (r: Pub<T>)
    requires Shape(s, |s.queues|) && cursor < |s.queues| && i <= |s.queues|
    ensures Shape(r, |s.queues|)
    decreases i
  {
    if i == 0 then s
    else Happen(Visits(s, cursor, script, at, i - 1), Position(cursor, i - 1, |s.queues|), script(at + i - 1))
  }

  function Cycle<T>(s: Pub<T>, cursor: nat, script: nat -> Moment<T>, at: nat): (r: Pub<T>)
    requires Shape(s, |s.queues|) && cursor < |s.queues|
    ensures Shape(r, |s.queues|)
  {
    Visits(s, cursor, script, at, |s.queues|)
  }

  function NextCursor(cursor: nat, total: nat): (r: nat)
    requires cursor < total
    ensures r < total
  {
    if cursor + 1 < total then cursor + 1 else 0
  }

  /** `n` cycles from the run loop. */
  function Cycles<T>(s: Pub<T>, cursor: nat, script: nat -> Moment<T>, at: nat, n: nat): (r: Pub<T>)
    requires Shape(s, |s.queues|) && cursor < |s.queues|
    ensures Shape(r, |s.queues|)
    decreases n
  {
    if n == 0 then s
    else
      Cycles(Cycle(s, cursor, script, at), NextCursor(cursor, |s.queues|), script, at + |s.queues|, n - 1)
  }

  // ---- Conservation ----

  function Total<T>(queues: seq<seq<T>>): nat {
    if queues == [] then 0 else Total(queues[..|queues| - 1]) + |queues[|queues| - 1]|
  }

  lemma {:induction false} TotalUpdate<T>(queues: seq<seq<T>>, q: nat, items: seq<T>)
    requires q < |queues|
    ensures Total(queues[q := items]) == Total(queues) - |queues[q]| + |items|
    decreases |queues|
  {
    var n := |queues| - 1;
    if q == n {
      assert queues[q := items][..n] == queues[..n];
    } else {
      assert queues[q := items][..n] == queues[..n][q := items];
      TotalUpdate(queues[..n], q, items);
    }
  }

  /** Every accepted publish is sent, dropped for one reason, or still queued. */
  predicate Balanced<T>(s: Pub<T>) {
    s.attempts == s.sent + s.queueDrops + s.bufferDrops + s.hwmDrops + s.unroutable + Total(s.queues)
  }

  predicate Bounded<T>(queues: seq<seq<T>>) {
    forall q | 0 <= q < |queues| :: |queues[q]| <= QUEUE_CAPACITY
  }

  lemma PublishBalanced<T>(s: Pub<T>, a: Arrival<T>)
    requires Balanced(s) && Bounded(s.queues)
    ensures Balanced(Publish(s, a)) && Bounded(Publish(s, a).queues)
  {
    if Publishes(s, a) {
      var q := 3 * a.shard + a.kind;
      TotalUpdate(s.queues, q, s.queues[q] + [a.item]);
    }
  }

  lemma {:induction false} PublishAllBalanced<T>(s: Pub<T>, arrivals: seq<Arrival<T>>)
    requires Balanced(s) && Bounded(s.queues)
    ensures Balanced(PublishAll(s, arrivals)) && Bounded(PublishAll(s, arrivals).queues)
    decreases |arrivals|
  {
    if arrivals != [] {
      PublishAllBalanced(s, arrivals[..|arrivals| - 1]);
      PublishBalanced(PublishAll(s, arrivals[..|arrivals| - 1]), arrivals[|arrivals| - 1]);
    }
  }

  lemma VisitBalanced<T>(s: Pub<T>, q: nat, blind: bool, outcome: Outcome)
    requires Shape(s, |s.queues|) && q < |s.queues| && Balanced(s) && Bounded(s.queues)
    ensures Balanced(Visit(s, q, blind, outcome)) && Bounded(Visit(s, q, blind, outcome).queues)
  {
    if s.queues[q] != [] {
      TotalUpdate(s.queues, q, s.queues[q][1..]);
    }
  }

  lemma {:induction false} VisitsBalanced<T>(s: Pub<T>, cursor: nat, script: nat -> Moment<T>, at: nat, i: nat)
    requires Shape(s, |s.queues|) && cursor < |s.queues| && i <= |s.queues| && Balanced(s) && Bounded(s.queues)
    ensures Balanced(Visits(s, cursor, script, at, i)) && Bounded(Visits(s, cursor, script, at, i).queues)
    decreases i
  {
    if i > 0 {
      var before, m := Visits(s, cursor, script, at, i - 1), script(at + i - 1);
      VisitsBalanced(s, cursor, script, at, i - 1);
      PublishAllBalanced(before, m.arrivals);
      PublishKeepsShape(before, m.arrivals);
      var q := Position(cursor, i - 1, |s.queues|);
      VisitBalanced(PublishAll(before, m.arrivals), q, m.blind, m.outcome(q));
    }
  }

  /** Main result: over any number of cycles, with any arrivals and any send failures, nothing goes unaccounted. */
  lemma {:induction false} Conservation<T>(s: Pub<T>, cursor: nat, script: nat -> Moment<T>, at: nat, n: nat)
    requires Shape(s, |s.queues|) && cursor < |s.queues| && Balanced(s) && Bounded(s.queues)
    ensures Balanced(Cycles(s, cursor, script, at, n)) && Bounded(Cycles(s, cursor, script, at, n).queues)
    decreases n
  {
    if n > 0 {
      VisitsBalanced(s, cursor, script, at, |s.queues|);
      Conservation(Cycle(s, cursor, script, at), NextCursor(cursor, |s.queues|), script, at + |s.queues|, n - 1);
    }
  }

  // ---- Fairness ----

  /** Queue `q` went from `before` to `after` by arrivals at the back only. */
  ghost predicate Grew<T>(before: seq<T>, after: seq<T>) {
    before <= after
  }

  lemma {:induction false} ArrivalsAtBack<T>(s: Pub<T>, arrivals: seq<Arrival<T>>, q: nat)
    requires Shape(s, |s.queues|) && q < |s.queues|
    ensures Shape(PublishAll(s, arrivals), |s.queues|) && Grew(s.queues[q], PublishAll(s, arrivals).queues[q])
    decreases |arrivals|
  {
    PublishKeepsShape(s, arrivals);
    if arrivals != [] {
      var init := arrivals[..|arrivals| - 1];
      PublishKeepsShape(s, init);
      ArrivalsAtBack(s, init, q);
      OneArrivalAtBack(PublishAll(s, init), arrivals[|arrivals| - 1], q);
    }
  }

  lemma OneArrivalAtBack<T>(s: Pub<T>, a: Arrival<T>, q: nat)
    requires q < |s.queues|
    ensures |Publish(s, a).queues| == |s.queues| && Grew(s.queues[q], Publish(s, a).queues[q])
  {
  }

  /** The place of queue `q` in a cycle. */
  function Turn(cursor: nat, q: nat, total: nat): (i: nat)
    requires cursor < total && q < total
    ensures i < total
  {
    if q >= cursor then q - cursor else q + total - cursor
  }

  /** A cycle visits each queue exactly once, whatever the cursor. */
  lemma VisitedExactlyOnce(cursor: nat, q: nat, total: nat)
    requires cursor < total && q < total
    ensures Position(cursor, Turn(cursor, q, total), total) == q
    ensures forall i: nat | i < total && i != Turn(cursor, q, total) :: Position(cursor, i, total) != q
  {
  }

  /** What came into queue `q` and in which order: what was taken and what is waiting. */
  function Line<T>(s: Pub<T>, q: nat): seq<T>
    requires Shape(s, |s.queues|) && q < |s.queues|
  {
    s.taken[q] + s.queues[q]
  }

  lemma VisitedLine<T>(s: Pub<T>, visited: nat, blind: bool, outcome: Outcome, q: nat)
    requires Shape(s, |s.queues|) && q < |s.queues| && visited < |s.queues|
    ensures Line(Visit(s, visited, blind, outcome), q) == Line(s, q)
    ensures Visit(s, visited, blind, outcome).queueDrops == s.queueDrops
  {
    if visited == q && !blind && s.queues[q] != [] {
      var items, gone := s.queues[q], s.taken[q];
      assert (gone + [items[0]]) + items[1..] == gone + ([items[0]] + items[1..]);
      assert [items[0]] + items[1..] == items;
    }
  }

  /** From `s` to `r` exactly `k` items of queue `q` were popped, and arrivals came in at the back. */
  ghost predicate Served<T>(s: Pub<T>, r: Pub<T>, q: nat, k: nat) {
    && Shape(s, |s.queues|) && Shape(r, |r.queues|) && q < |s.queues| == |r.queues|
    && Line(s, q) <= Line(r, q) && |r.taken[q]| == |s.taken[q]| + k
  }

  lemma ServedOn<T>(s: Pub<T>, mid: Pub<T>, r: Pub<T>, q: nat, j: nat, k: nat)
    requires Served(s, mid, q, j) && Served(mid, r, q, k)
    ensures Served(s, r, q, j + k)
  {
  }

  /** What was waiting is popped first. */
  lemma WaitingFirst<T>(s: Pub<T>, r: Pub<T>, q: nat, k: nat)
    requires Served(s, r, q, k) && k <= |s.queues[q]|
    ensures r.taken[q] == s.taken[q] + s.queues[q][..k] && s.queues[q][k..] <= r.queues[q]
  {
    var was, now, n := Line(s, q), Line(r, q), |r.taken[q]|;
    assert was[..n] == s.taken[q] + s.queues[q][..k] && was[n..] == s.queues[q][k..];
    assert now[..n] == r.taken[q] && now[n..] == r.queues[q];
    assert was[..n] == now[..n];
  }

  /** Some items of `s` are still waiting when fewer than it held were popped. */
  lemma StillWaiting<T>(s: Pub<T>, mid: Pub<T>, q: nat)
    requires Served(s, mid, q, 0) && s.queues[q] != []
    ensures mid.queues[q] != []
  {
  }

  lemma HappenServes<T>(s: Pub<T>, visited: nat, m: Moment<T>, q: nat)
    requires Shape(s, |s.queues|) && visited < |s.queues| && q < |s.queues|
    requires visited == q ==> m.blind || s.queues[q] != []
    ensures Served(s, Happen(s, visited, m), q, if visited == q && !m.blind then 1 else 0)
  {
    var mid := PublishAll(s, m.arrivals);
    PublishKeepsShape(s, m.arrivals);
    ArrivalsAtBack(s, m.arrivals, q);
    assert Line(s, q) <= Line(mid, q);
    VisitedLine(mid, visited, m.blind, m.outcome(visited), q);
  }

  /** The pop queue `q` gets in a cycle is blind. */
  predicate Skipped<T>(script: nat -> Moment<T>, cursor: nat, at: nat, q: nat, total: nat)
    requires cursor < total && q < total
  {
    script(at + Turn(cursor, q, total)).blind
  }

  /** One more visit of a cycle. */
  lemma ServedStep<T>(s: Pub<T>, mid: Pub<T>, q: nat, visited: nat, m: Moment<T>, k: nat, r: Pub<T>)
    requires visited < |mid.queues| && Served(s, mid, q, k) && r == Happen(mid, visited, m)
    requires visited == q ==> k == 0 && (m.blind || s.queues[q] != [])
    ensures Served(s, r, q, if visited == q && !m.blind then 1 else k)
  {
    if visited == q && !m.blind {
      StillWaiting(s, mid, q);
    }
    HappenServes(mid, visited, m, q);
    ServedOn(s, mid, r, q, k, if visited == q && !m.blind then 1 else 0);
  }

  lemma {:induction false} ServedInVisits<T>(s: Pub<T>, cursor: nat, script: nat -> Moment<T>, at: nat, i: nat, q: nat,
                                             r: Pub<T>)
    requires Shape(s, |s.queues|) && cursor < |s.queues| && i <= |s.queues| && q < |s.queues|
    requires Skipped(script, cursor, at, q, |s.queues|) || s.queues[q] != []
    requires r == Visits(s, cursor, script, at, i)
    ensures var skipped := Skipped(script, cursor, at, q, |s.queues|);
            Served(s, r, q, if Turn(cursor, q, |s.queues|) < i && !skipped then 1 else 0)
    decreases i
  {
    var total := |s.queues|;
    if i > 0 {
      var mid, skipped := Visits(s, cursor, script, at, i - 1), Skipped(script, cursor, at, q, total);
      ServedInVisits(s, cursor, script, at, i - 1, q, mid);
      VisitedExactlyOnce(cursor, q, total);
      ServedStep(s, mid, q, Position(cursor, i - 1, total), script(at + i - 1),
                 if Turn(cursor, q, total) < i - 1 && !skipped then 1 else 0, r);
    }
  }

  /** How many of the pops that queue `q` gets in `n` cycles are not blind. */
  function SeeingPops<T>(script: nat -> Moment<T>, cursor: nat, at: nat, n: nat, q: nat, total: nat): (r: nat)
    requires cursor < total && q < total
    ensures r <= n
    decreases n
  {
    if n == 0 then 0
    else
      var rest := SeeingPops(script, NextCursor(cursor, total), at + total, n - 1, q, total);
      if Skipped(script, cursor, at, q, total) then rest else rest + 1
  }

  lemma {:induction false} AllPopsSee<T>(script: nat -> Moment<T>, cursor: nat, at: nat, n: nat, q: nat, total: nat)
    requires cursor < total && q < total && forall i: nat :: !script(i).blind
    ensures SeeingPops(script, cursor, at, n, q, total) == n
    decreases n
  {
    if n > 0 {
      AllPopsSee(script, NextCursor(cursor, total), at + total, n - 1, q, total);
    }
  }

  /** The first of `n` cycles and what is left to do. */
  lemma FirstServed<T>(s: Pub<T>, cursor: nat, script: nat -> Moment<T>, at: nat, n: nat, q: nat, r: Pub<T>, k: nat)
    returns (mid: Pub<T>, j: nat)
    requires Shape(s, |s.queues|) && cursor < |s.queues| && q < |s.queues|
    requires n > 0 && r == Cycles(s, cursor, script, at, n)
    requires k == SeeingPops(script, cursor, at, n, q, |s.queues|) && k <= |s.queues[q]|
    ensures Shape(mid, |s.queues|) && j <= k && Served(s, mid, q, j) && k - j <= |mid.queues[q]|
    ensures var next, later := NextCursor(cursor, |s.queues|), at + |s.queues|;
            && r == Cycles(mid, next, script, later, n - 1)
            && k - j == SeeingPops(script, next, later, n - 1, q, |s.queues|)
  {
    mid := Cycle(s, cursor, script, at);
    j := if Skipped(script, cursor, at, q, |s.queues|) then 0 else 1;
    ServedInVisits(s, cursor, script, at, |s.queues|, q, mid);
  }

  lemma {:induction false} ServedInCycles<T>(s: Pub<T>, cursor: nat, script: nat -> Moment<T>, at: nat, n: nat, q: nat,
                                             r: Pub<T>, k: nat)
    requires Shape(s, |s.queues|) && cursor < |s.queues| && q < |s.queues| && r == Cycles(s, cursor, script, at, n)
    requires k == SeeingPops(script, cursor, at, n, q, |s.queues|) && k <= |s.queues[q]|
    ensures Served(s, r, q, k)
    decreases n
  {
    if n > 0 {
      var mid, j := FirstServed(s, cursor, script, at, n, q, r, k);
      ServedInCycles(mid, NextCursor(cursor, |s.queues|), script, at + |s.queues|, n - 1, q, r, k - j);
      ServedOn(s, mid, r, q, j, k - j);
    }
  }

  /**
   Main result: whatever the producers push meanwhile and however the sends end, `n` cycles pop exactly the first items
   a queue held, one for each of its pops that is not blind, in order. So an item with k ahead of it goes at pop
   number k + 1 of those, and in cycle k + 1 if none is blind.
   */
  lemma Fairness<T>(s: Pub<T>, cursor: nat, script: nat -> Moment<T>, at: nat, n: nat, q: nat)
    requires Shape(s, |s.queues|) && cursor < |s.queues| && q < |s.queues|
    requires SeeingPops(script, cursor, at, n, q, |s.queues|) <= |s.queues[q]|
    ensures var r, k := Cycles(s, cursor, script, at, n), SeeingPops(script, cursor, at, n, q, |s.queues|);
            r.taken[q] == s.taken[q] + s.queues[q][..k] && s.queues[q][k..] <= r.queues[q]
  {
    var r, k := Cycles(s, cursor, script, at, n), SeeingPops(script, cursor, at, n, q, |s.queues|);
    ServedInCycles(s, cursor, script, at, n, q, r, k);
    WaitingFirst(s, r, q, k);
  }

  /** The queue a cycle visits first moves on by one: over `total` cycles each queue is first exactly once. */
  lemma FirstExactlyOnce(cursor: nat, q: nat, total: nat)
    requires cursor < total && q < total
    ensures Position(CursorAfter(cursor, Turn(cursor, q, total), total), 0, total) == q
    ensures forall j: nat | j < total && j != Turn(cursor, q, total) ::
              Position(CursorAfter(cursor, j, total), 0, total) != q
  {
    forall j: nat | j < total
      ensures CursorAfter(cursor, j, total) == Position(cursor, j, total)
    {
      CursorAfterIs(cursor, j, total);
    }
    VisitedExactlyOnce(cursor, q, total);
  }

  lemma {:induction false} CursorAfterIs(cursor: nat, j: nat, total: nat)
    requires cursor < total && j < total
    ensures CursorAfter(cursor, j, total) == Position(cursor, j, total)
    decreases j
  {
    if j > 0 {
      CursorAfterIs(NextCursor(cursor, total), j - 1, total);
    }
  }

  // ---- What is in the queues ----

  /** One thing that happens to the worker: a Publish call or a visit of a queue. */
  datatype Event<T> = Came(arrival: Arrival<T>) | Visited(q: nat, blind: bool, outcome: Outcome)

  function Empty<T>(total: nat): Pub<T> {
    Pub(seq(total, _ => []), seq(total, _ => []), 0, 0, 0, 0, 0, 0)
  }

  function React<T>(s: Pub<T>, e: Event<T>): (r: Pub<T>)
    requires Shape(s, |s.queues|)
    ensures Shape(r, |s.queues|)
  {
    match e
    case Came(a) => Publish(s, a)
    case Visited(q, blind, outcome) => if q < |s.queues| then Visit(s, q, blind, outcome) else s
  }

  /** Any mix of Publish calls and visits, from a new worker with `total` queues. */
  function Mix<T>(total: nat, events: seq<Event<T>>): (r: Pub<T>)
    ensures Shape(r, total)
    decreases |events|
  {
    if events == [] then Empty(total) else React(Mix(total, events[..|events| - 1]), events[|events| - 1])
  }

  predicate InRange<T>(total: nat, a: Arrival<T>) {
    a.kind < 3 && 3 * a.shard + a.kind < total
  }

  /** The queue of this arrival is full by the read counter it sees. */
  predicate Full<T>(s: Pub<T>, a: Arrival<T>)
    requires InRange(|s.queues|, a)
  {
    |s.queues[3 * a.shard + a.kind]| + a.lag >= QUEUE_CAPACITY
  }

  /** The items of the arrivals for queue `q` that did not find it full, in order. */
  function Entered<T>(total: nat, events: seq<Event<T>>, q: nat): seq<T>
    decreases |events|
  {
    if events == [] then []
    else
      var init, e := events[..|events| - 1], events[|events| - 1];
      if && e.Came? && InRange(total, e.arrival) && 3 * e.arrival.shard + e.arrival.kind == q
         && !Full(Mix(total, init), e.arrival)
      then Entered(total, init, q) + [e.arrival.item]
      else Entered(total, init, q)
  }

  /** How many arrivals for existing queues found theirs full. */
  function Refusals<T>(total: nat, events: seq<Event<T>>): nat
    decreases |events|
  {
    if events == [] then 0
    else
      var init, e := events[..|events| - 1], events[|events| - 1];
      Refusals(total, init)
      + if e.Came? && InRange(total, e.arrival) && Full(Mix(total, init), e.arrival) then 1 else 0
  }

  lemma CameLine<T>(s: Pub<T>, a: Arrival<T>, q: nat)
    requires Shape(s, |s.queues|) && q < |s.queues|
    ensures Shape(Publish(s, a), |s.queues|)
    ensures Line(Publish(s, a), q)
            == if InRange(|s.queues|, a) && 3 * a.shard + a.kind == q && !Full(s, a) then Line(s, q) + [a.item]
               else Line(s, q)
    ensures Publish(s, a).queueDrops == s.queueDrops + if InRange(|s.queues|, a) && Full(s, a) then 1 else 0
  {
    assert Line(s, q) + [a.item] == s.taken[q] + (s.queues[q] + [a.item]);
  }

  /**
   Main result: over any mix of arrivals and visits from a new worker, what was taken from a queue and what waits in it
   are exactly the items that came for it and did not find it full by the read counter they saw, in order; the queue
   drops are exactly the arrivals that did.
   */
  lemma {:induction false} EveryItemInLine<T>(total: nat, events: seq<Event<T>>, q: nat)
    requires q < total
    ensures var s := Mix(total, events);
            Line(s, q) == Entered(total, events, q) && s.queueDrops == Refusals(total, events)
    decreases |events|
  {
    if events != [] {
      var init, e := events[..|events| - 1], events[|events| - 1];
      var s := Mix(total, init);
      EveryItemInLine(total, init, q);
      match e
      case Came(a) => CameLine(s, a, q);
      case Visited(visited, blind, outcome) => if visited < total { VisitedLine(s, visited, blind, outcome, q); }
    }
  }

  // A cycle is such a mix

  function EventsOf<T>(arrivals: seq<Arrival<T>>): seq<Event<T>> {
    seq(|arrivals|, i requires 0 <= i < |arrivals| => Came(arrivals[i]))
  }

  lemma {:induction false} ArrivalsAreEvents<T>(total: nat, events: seq<Event<T>>, arrivals: seq<Arrival<T>>)
    ensures Mix(total, events + EventsOf(arrivals)) == PublishAll(Mix(total, events), arrivals)
    decreases |arrivals|
  {
    if arrivals == [] {
      assert events + EventsOf(arrivals) == events;
    } else {
      var n := |arrivals| - 1;
      ArrivalsAreEvents(total, events, arrivals[..n]);
      MixSnoc(total, events + EventsOf(arrivals[..n]), Came(arrivals[n]));
      assert (events + EventsOf(arrivals[..n])) + [Came(arrivals[n])] == events + EventsOf(arrivals);
    }
  }

  lemma MixSnoc<T>(total: nat, events: seq<Event<T>>, e: Event<T>)
    ensures Mix(total, events + [e]) == React(Mix(total, events), e)
  {
    assert (events + [e])[..|events|] == events;
  }

  lemma HappenIsMix<T>(total: nat, events: seq<Event<T>>, q: nat, m: Moment<T>) returns (more: seq<Event<T>>)
    requires q < total
    ensures Mix(total, more) == Happen(Mix(total, events), q, m)
  {
    var came := events + EventsOf(m.arrivals);
    ArrivalsAreEvents(total, events, m.arrivals);
    more := came + [Visited(q, m.blind, m.outcome(q))];
    PublishKeepsShape(Mix(total, events), m.arrivals);
    MixSnoc(total, came, Visited(q, m.blind, m.outcome(q)));
  }

  /** The visits of a cycle, with the arrivals between them, continue a mix. */
  lemma {:induction false} VisitsAreMix<T>(total: nat, events: seq<Event<T>>, cursor: nat, script: nat -> Moment<T>,
                                           at: nat, i: nat) returns (more: seq<Event<T>>)
    requires cursor < total && i <= total
    ensures Mix(total, more) == Visits(Mix(total, events), cursor, script, at, i)
    decreases i
  {
    if i == 0 {
      more := events;
    } else {
      var before := VisitsAreMix(total, events, cursor, script, at, i - 1);
      more := HappenIsMix(total, before, Position(cursor, i - 1, total), script(at + i - 1));
    }
  }

  // ---- Draining ----

  /** Nothing arrives and what is waiting is seen. */
  predicate Still<T>(m: Moment<T>) {
    m.arrivals == [] && !m.blind
  }

  /** The producers were stopped before the drain began. */
  ghost predicate Quiet<T>(script: nat -> Moment<T>) {
    forall n: nat :: Still(script(n))
  }

  function Tail<T>(q: seq<T>): seq<T> {
    if q == [] then [] else q[1..]
  }

  lemma QuietVisit<T>(s: Pub<T>, q: nat, m: Moment<T>)
    requires Shape(s, |s.queues|) && q < |s.queues| && Still(m)
    ensures var r := Happen(s, q, m);
            && r == Visit(s, q, false, m.outcome(q))
            && r.sent - s.sent == (if s.queues[q] != [] && m.outcome(q) == Delivered then 1 else 0)
            && Total(r.queues) == Total(s.queues) - (if s.queues[q] == [] then 0 else 1)
  {
    if s.queues[q] != [] {
      TotalUpdate(s.queues, q, s.queues[q][1..]);
    }
  }

  lemma QuietQueue<T>(s: Pub<T>, visited: nat, m: Moment<T>, q: nat)
    requires Shape(s, |s.queues|) && visited < |s.queues| && q < |s.queues| && Still(m)
    ensures Happen(s, visited, m).queues[q] == if visited == q then Tail(s.queues[q]) else s.queues[q]
  {
    QuietVisit(s, visited, m);
  }

  /** Without arrivals a cycle takes one item off every queue that has one. */
  lemma {:induction false} QuietVisits<T>(s: Pub<T>, cursor: nat, script: nat -> Moment<T>, at: nat, i: nat, q: nat)
    requires Quiet(script) && Shape(s, |s.queues|) && cursor < |s.queues| && i <= |s.queues| && q < |s.queues|
    ensures Visits(s, cursor, script, at, i).queues[q]
            == if Turn(cursor, q, |s.queues|) < i then Tail(s.queues[q]) else s.queues[q]
    decreases i
  {
    if i > 0 {
      QuietVisits(s, cursor, script, at, i - 1, q);
      VisitedExactlyOnce(cursor, q, |s.queues|);
      QuietQueue(Visits(s, cursor, script, at, i - 1), Position(cursor, i - 1, |s.queues|), script(at + i - 1), q);
    }
  }

  /** What is sent comes off the backlog. */
  lemma {:induction false} QuietProgress<T>(s: Pub<T>, cursor: nat, script: nat -> Moment<T>, at: nat, i: nat)
    requires Quiet(script) && Shape(s, |s.queues|) && cursor < |s.queues| && i <= |s.queues|
    ensures var r := Visits(s, cursor, script, at, i);
            s.sent <= r.sent && Total(r.queues) + r.sent <= Total(s.queues) + s.sent
    decreases i
  {
    if i > 0 {
      QuietProgress(s, cursor, script, at, i - 1);
      QuietVisit(Visits(s, cursor, script, at, i - 1), Position(cursor, i - 1, |s.queues|), script(at + i - 1));
    }
  }

  /** DrainAll: cycles until one sends nothing. The measure is the total backlog. */
  function Drain<T>(s: Pub<T>, cursor: nat, script: nat -> Moment<T>, at: nat): (r: Pub<T>)
    requires Quiet(script) && Shape(s, |s.queues|) && cursor < |s.queues|
    ensures Shape(r, |s.queues|)
    decreases Total(s.queues)
  {
    var after := Cycle(s, cursor, script, at);
    QuietProgress(s, cursor, script, at, |s.queues|);
    if after.sent > s.sent then Drain(after, NextCursor(cursor, |s.queues|), script, at + |s.queues|) else after
  }

  predicate AllEmpty<T>(queues: seq<seq<T>>) {
    forall q: nat | q < |queues| :: |queues[q]| == 0
  }

  predicate AtMostOneEach<T>(queues: seq<seq<T>>) {
    forall q: nat | q < |queues| :: |queues[q]| <= 1
  }

  lemma TailsEmpty<T>(was: seq<seq<T>>, now: seq<seq<T>>)
    requires OneOff(was, now)
    ensures AllEmpty(now) <==> AtMostOneEach(was)
  {
    if AllEmpty(now) {
      forall q: nat | q < |was|
        ensures |was[q]| <= 1
      {
        assert |now[q]| == 0;
      }
    }
  }

  lemma {:induction false} SentGrows<T>(s: Pub<T>, cursor: nat, script: nat -> Moment<T>, at: nat, i: nat, j: nat)
    requires Quiet(script) && Shape(s, |s.queues|) && cursor < |s.queues| && i <= j <= |s.queues|
    ensures Visits(s, cursor, script, at, i).sent <= Visits(s, cursor, script, at, j).sent
    decreases j
  {
    if i < j {
      SentGrows(s, cursor, script, at, i, j - 1);
      QuietVisit(Visits(s, cursor, script, at, j - 1), Position(cursor, j - 1, |s.queues|), script(at + j - 1));
    }
  }

  lemma SentAtTurn<T>(s: Pub<T>, cursor: nat, script: nat -> Moment<T>, at: nat, i: nat, q: nat)
    requires Quiet(script) && Shape(s, |s.queues|) && cursor < |s.queues| && i < |s.queues|
    requires Position(cursor, i, |s.queues|) == q && Visits(s, cursor, script, at, i).queues[q] != []
    requires script(at + i).outcome(q) == Delivered
    ensures Visits(s, cursor, script, at, i + 1).sent == Visits(s, cursor, script, at, i).sent + 1
  {
    QuietVisit(Visits(s, cursor, script, at, i), q, script(at + i));
  }

  /** If sends succeed, a cycle over a non-empty queue is not silent. */
  lemma DeliveringCycleSends<T>(s: Pub<T>, cursor: nat, script: nat -> Moment<T>, at: nat, q: nat)
    requires Quiet(script) && Shape(s, |s.queues|) && cursor < |s.queues|
    requires q < |s.queues| && s.queues[q] != []
    requires script(at + Turn(cursor, q, |s.queues|)).outcome(q) == Delivered
    ensures Cycle(s, cursor, script, at).sent > s.sent
  {
    var i := Turn(cursor, q, |s.queues|);
    QuietVisits(s, cursor, script, at, i, q);
    VisitedExactlyOnce(cursor, q, |s.queues|);
    SentAtTurn(s, cursor, script, at, i, q);
    SentGrows(s, cursor, script, at, 0, i);
    SentGrows(s, cursor, script, at, i + 1, |s.queues|);
  }

  lemma SilentVisit<T>(s: Pub<T>, cursor: nat, script: nat -> Moment<T>, at: nat, i: nat)
    requires Quiet(script) && Shape(s, |s.queues|) && cursor < |s.queues| && i < |s.queues|
    requires !Delivers(s.queues, cursor, script, at, 0)
    ensures var q := Position(cursor, i, |s.queues|);
            Visits(s, cursor, script, at, i).queues[q] == [] || script(at + i).outcome(q) != Delivered
  {
    var q := Position(cursor, i, |s.queues|);
    TurnOfPosition(cursor, i, |s.queues|);
    QuietVisits(s, cursor, script, at, i, q);
    assert !DeliversTo(s.queues, cursor, script, at, 0, q);
  }

  lemma SilentHappen<T>(s: Pub<T>, q: nat, m: Moment<T>)
    requires Shape(s, |s.queues|) && q < |s.queues| && Still(m)
    requires s.queues[q] == [] || m.outcome(q) != Delivered
    ensures Happen(s, q, m).sent == s.sent
  {
    QuietVisit(s, q, m);
  }

  /** A cycle in which every queue visited is empty or meets a failing send sends nothing. */
  lemma {:induction false} SilentVisits<T>(s: Pub<T>, cursor: nat, script: nat -> Moment<T>, at: nat, i: nat)
    requires Quiet(script) && Shape(s, |s.queues|) && cursor < |s.queues| && i <= |s.queues|
    requires !Delivers(s.queues, cursor, script, at, 0)
    ensures Visits(s, cursor, script, at, i).sent == s.sent
    decreases i
  {
    if i > 0 {
      SilentVisits(s, cursor, script, at, i - 1);
      SilentVisit(s, cursor, script, at, i - 1);
      SilentHappen(Visits(s, cursor, script, at, i - 1), Position(cursor, i - 1, |s.queues|), script(at + i - 1));
    }
  }

  lemma TurnOfPosition(cursor: nat, i: nat, total: nat)
    requires cursor < total && i < total
    ensures Turn(cursor, Position(cursor, i, total), total) == i
  {
  }

  /** The cursor after `j` cycles. */
  function CursorAfter(cursor: nat, j: nat, total: nat): (r: nat)
    requires cursor < total
    ensures r < total
    decreases j
  {
    if j == 0 then cursor else CursorAfter(NextCursor(cursor, total), j - 1, total)
  }

  /** Queue `q` holds more than `j` items, and the send it gets in cycle `j` of a drain goes through. */
  predicate DeliversTo<T>(queues: seq<seq<T>>, cursor: nat, script: nat -> Moment<T>, at: nat, j: nat, q: nat)
    requires cursor < |queues| && q < |queues|
  {
    |queues[q]| > j
    && var visit := at + j * |queues| + Turn(CursorAfter(cursor, j, |queues|), q, |queues|);
       script(visit).outcome(q) == Delivered
  }

  predicate Delivers<T>(queues: seq<seq<T>>, cursor: nat, script: nat -> Moment<T>, at: nat, j: nat)
    requires cursor < |queues|
  {
    exists q: nat | q < |queues| :: DeliversTo(queues, cursor, script, at, j, q)
  }

  /** Some queue has an item left after cycle `j` of a drain. */
  predicate Outlasts<T>(queues: seq<seq<T>>, j: nat) {
    exists q: nat | q < |queues| :: |queues[q]| > j + 1
  }

  /** Every cycle up to the one that takes the last item of the longest queue, bar that one, gets something out. */
  ghost predicate KeepsDelivering<T>(queues: seq<seq<T>>, cursor: nat, script: nat -> Moment<T>, at: nat)
    requires cursor < |queues|
  {
    forall j: nat | Outlasts(queues, j) :: Delivers(queues, cursor, script, at, j)
  }

  lemma CycleSendsIff<T>(s: Pub<T>, cursor: nat, script: nat -> Moment<T>, at: nat)
    requires Quiet(script) && Shape(s, |s.queues|) && cursor < |s.queues|
    ensures Cycle(s, cursor, script, at).sent > s.sent <==> Delivers(s.queues, cursor, script, at, 0)
  {
    if Delivers(s.queues, cursor, script, at, 0) {
      var q: nat :| q < |s.queues| && DeliversTo(s.queues, cursor, script, at, 0, q);
      DeliveringCycleSends(s, cursor, script, at, q);
    } else {
      SilentVisits(s, cursor, script, at, |s.queues|);
    }
  }

  /** `now` is `was` with one item off every queue that had one. */
  ghost predicate OneOff<T>(was: seq<seq<T>>, now: seq<seq<T>>) {
    |was| == |now| && forall q: nat | q < |was| :: |now[q]| == |Tail(was[q])|
  }

  lemma CycleTakesOne<T>(s: Pub<T>, cursor: nat, script: nat -> Moment<T>, at: nat)
    requires Quiet(script) && Shape(s, |s.queues|) && cursor < |s.queues|
    ensures OneOff(s.queues, Cycle(s, cursor, script, at).queues)
  {
    forall q: nat | q < |s.queues|
      ensures |Cycle(s, cursor, script, at).queues[q]| == |Tail(s.queues[q])|
    {
      QuietVisits(s, cursor, script, at, |s.queues|, q);
    }
  }

  lemma OutlastsLater<T>(was: seq<seq<T>>, now: seq<seq<T>>, j: nat)
    requires OneOff(was, now)
    ensures Outlasts(now, j) <==> Outlasts(was, j + 1)
  {
    if Outlasts(now, j) {
      var q: nat :| q < |now| && |now[q]| > j + 1;
      assert |was[q]| > j + 2;
    }
    if Outlasts(was, j + 1) {
      var q: nat :| q < |was| && |was[q]| > j + 2;
      assert |now[q]| > j + 1;
    }
  }

  lemma DeliversToLater<T>(was: seq<seq<T>>, now: seq<seq<T>>, cursor: nat, script: nat -> Moment<T>, at: nat, j: nat,
                           q: nat)
    requires OneOff(was, now) && cursor < |was| && q < |was|
    ensures DeliversTo(now, NextCursor(cursor, |was|), script, at + |was|, j, q)
            <==> DeliversTo(was, cursor, script, at, j + 1, q)
  {
    assert (j + 1) * |was| == j * |was| + |was|;
    assert CursorAfter(cursor, j + 1, |was|) == CursorAfter(NextCursor(cursor, |was|), j, |was|);
  }

  lemma DeliversLater<T>(was: seq<seq<T>>, now: seq<seq<T>>, cursor: nat, script: nat -> Moment<T>, at: nat, j: nat)
    requires OneOff(was, now) && cursor < |was|
    ensures Delivers(now, NextCursor(cursor, |was|), script, at + |was|, j)
            <==> Delivers(was, cursor, script, at, j + 1)
  {
    var next := NextCursor(cursor, |was|);
    if Delivers(now, next, script, at + |was|, j) {
      var q: nat :| q < |now| && DeliversTo(now, next, script, at + |was|, j, q);
      DeliversToLater(was, now, cursor, script, at, j, q);
    }
    if Delivers(was, cursor, script, at, j + 1) {
      var q: nat :| q < |was| && DeliversTo(was, cursor, script, at, j + 1, q);
      DeliversToLater(was, now, cursor, script, at, j, q);
    }
  }

  lemma KeepsDeliveringStep<T>(was: seq<seq<T>>, now: seq<seq<T>>, cursor: nat, script: nat -> Moment<T>, at: nat)
    requires OneOff(was, now) && cursor < |was| && Delivers(was, cursor, script, at, 0)
    ensures KeepsDelivering(was, cursor, script, at)
            <==> KeepsDelivering(now, NextCursor(cursor, |was|), script, at + |was|)
  {
    var next := NextCursor(cursor, |was|);
    if KeepsDelivering(was, cursor, script, at) {
      forall j: nat | Outlasts(now, j)
        ensures Delivers(now, next, script, at + |was|, j)
      {
        OutlastsLater(was, now, j);
        DeliversLater(was, now, cursor, script, at, j);
      }
    }
    if KeepsDelivering(now, next, script, at + |was|) {
      forall j: nat | Outlasts(was, j)
        ensures Delivers(was, cursor, script, at, j)
      {
        if j > 0 {
          OutlastsLater(was, now, j - 1);
          DeliversLater(was, now, cursor, script, at, j - 1);
        }
      }
    }
  }

  lemma SilentKeepsDelivering<T>(queues: seq<seq<T>>, cursor: nat, script: nat -> Moment<T>, at: nat)
    requires cursor < |queues| && !Delivers(queues, cursor, script, at, 0)
    ensures KeepsDelivering(queues, cursor, script, at) <==> AtMostOneEach(queues)
  {
    if !AtMostOneEach(queues) {
      assert Outlasts(queues, 0);
    }
  }

  /**
   Main result: DrainAll empties every queue if and only if each of its cycles, up to the last but one item of the
   longest queue, gets at least one item out. The condition speaks of the queues and the sends before the drain only.
   */
  lemma {:induction false} DrainEmptiesIff<T>(s: Pub<T>, cursor: nat, script: nat -> Moment<T>, at: nat, r: Pub<T>)
    requires Quiet(script) && Shape(s, |s.queues|) && cursor < |s.queues| && r == Drain(s, cursor, script, at)
    ensures AllEmpty(r.queues) <==> KeepsDelivering(s.queues, cursor, script, at)
    decreases Total(s.queues)
  {
    var now, sends := FirstCycle(s, cursor, script, at);
    if sends {
      DrainEmptiesIff(now, NextCursor(cursor, |s.queues|), script, at + |s.queues|, r);
    }
    EmptiedIff(s.queues, now.queues, cursor, script, at, sends, AllEmpty(r.queues));
  }

  /** The first cycle of a drain and what is left to do. */
  lemma FirstCycle<T>(s: Pub<T>, cursor: nat, script: nat -> Moment<T>, at: nat) returns (now: Pub<T>, sends: bool)
    requires Quiet(script) && Shape(s, |s.queues|) && cursor < |s.queues|
    ensures Shape(now, |s.queues|) && OneOff(s.queues, now.queues)
    ensures sends <==> Delivers(s.queues, cursor, script, at, 0)
    ensures sends ==> Total(now.queues) < Total(s.queues)
    ensures Drain(s, cursor, script, at)
            == if sends then Drain(now, NextCursor(cursor, |s.queues|), script, at + |s.queues|) else now
  {
    now := Cycle(s, cursor, script, at);
    sends := now.sent > s.sent;
    DrainStep(s, cursor, script, at, now);
    CycleSendsIff(s, cursor, script, at);
    CycleTakesOne(s, cursor, script, at);
  }

  /** One cycle of the drain, with what is known of the rest. */
  lemma EmptiedIff<T>(was: seq<seq<T>>, now: seq<seq<T>>, cursor: nat, script: nat -> Moment<T>, at: nat,
                      sends: bool, emptied: bool)
    requires OneOff(was, now) && cursor < |was| && (sends <==> Delivers(was, cursor, script, at, 0))
    requires emptied
             <==> if sends then KeepsDelivering(now, NextCursor(cursor, |was|), script, at + |was|) else AllEmpty(now)
    ensures emptied <==> KeepsDelivering(was, cursor, script, at)
  {
    if sends {
      KeepsDeliveringStep(was, now, cursor, script, at);
    } else {
      SilentKeepsDelivering(was, cursor, script, at);
      TailsEmpty(was, now);
    }
  }

  lemma AlwaysDelivers<T>(queues: seq<seq<T>>, cursor: nat, script: nat -> Moment<T>, at: nat, j: nat)
    requires cursor < |queues| && Outlasts(queues, j) && forall n: nat, q: nat :: script(n).outcome(q) == Delivered
    ensures Delivers(queues, cursor, script, at, j)
  {
    var q: nat :| q < |queues| && |queues[q]| > j + 1;
    assert DeliversTo(queues, cursor, script, at, j, q);
  }

  lemma AlwaysKeepsDelivering<T>(queues: seq<seq<T>>, cursor: nat, script: nat -> Moment<T>, at: nat)
    requires cursor < |queues| && forall n: nat, q: nat :: script(n).outcome(q) == Delivered
    ensures KeepsDelivering(queues, cursor, script, at)
  {
    forall j: nat | Outlasts(queues, j)
      ensures Delivers(queues, cursor, script, at, j)
    {
      AlwaysDelivers(queues, cursor, script, at, j);
    }
  }

  /** In particular it empties them if the sends it attempts succeed. */
  lemma DrainEmpties<T>(s: Pub<T>, cursor: nat, script: nat -> Moment<T>, at: nat)
    requires Quiet(script) && Shape(s, |s.queues|) && cursor < |s.queues|
    requires forall n: nat, q: nat :: script(n).outcome(q) == Delivered
    ensures AllEmpty(Drain(s, cursor, script, at).queues)
  {
    AlwaysKeepsDelivering(s.queues, cursor, script, at);
    DrainEmptiesIff(s, cursor, script, at, Drain(s, cursor, script, at));
  }

  /** Draining loses nothing unaccounted either. */
  lemma {:induction false} DrainConserves<T>(s: Pub<T>, cursor: nat, script: nat -> Moment<T>, at: nat)
    requires Quiet(script) && Shape(s, |s.queues|) && cursor < |s.queues| && Balanced(s) && Bounded(s.queues)
    ensures Balanced(Drain(s, cursor, script, at))
    decreases Total(s.queues)
  {
    var total := |s.queues|;
    var after := Cycle(s, cursor, script, at);
    VisitsBalanced(s, cursor, script, at, total);
    QuietProgress(s, cursor, script, at, total);
    if after.sent > s.sent {
      DrainConserves(after, NextCursor(cursor, total), script, at + total);
    }
  }

  /** Otherwise it may not: one refused send, all others fine, and an item is left behind. */
  lemma DrainMayStopEarly<T>(a: T, b: T) returns (s: Pub<T>, script: nat -> Moment<T>)
    ensures Quiet(script) && Shape(s, 3) && s.queues == [[a, b], [], []]
    ensures script(0).outcome(0) == HighWater && forall n: nat, q: nat | n > 0 :: script(n).outcome(q) == Delivered
    ensures !AllEmpty(Drain(s, 0, script, 0).queues)
  {
    s := Pub([[a, b], [], []], [[], [], []], 2, 0, 0, 0, 0, 0);
    script := (n: nat) => Moment([], false, (q: nat) => if n == 0 then HighWater else Delivered);
    assert |s.queues[0]| == 2 && Outlasts(s.queues, 0);
    forall q: nat | q < 3
      ensures !DeliversTo(s.queues, 0, script, 0, 0, q)
    {
      assert q > 0 ==> s.queues[q] == [];
    }
    assert !Delivers(s.queues, 0, script, 0, 0);
    DrainEmptiesIff(s, 0, script, 0, Drain(s, 0, script, 0));
  }

  // ---- The worker ----

  class Worker<T(!new)> {
    const numShards: nat
    var queues: seq<seq<T>>
    var droppedQueueCount: nat
    var droppedBufferCount: nat
    var droppedHwmCount: nat
    ghost var taken: seq<seq<T>>
    ghost var attempts: nat
    ghost var sent: nat
    ghost var unroutable: nat

    ghost function Model(): Pub<T>
      reads this
    {
      Pub(queues, taken, attempts, sent, droppedQueueCount, droppedBufferCount, droppedHwmCount, unroutable)
    }

    ghost predicate Valid()
      reads this
    {
      Shape(Model(), 3 * numShards)
    }

    constructor (numShards: nat)
      ensures Valid() && this.numShards == numShards && Model() == Empty(3 * numShards)
      ensures AllEmpty(queues) && Balanced(Model()) && Bounded(queues)
    {
      this.numShards := numShards;
      queues := seq(3 * numShards, _ => []);
      taken := seq(3 * numShards, _ => []);
      droppedQueueCount, droppedBufferCount, droppedHwmCount, attempts, sent, unroutable := 0, 0, 0, 0, 0, 0;
      new;
      NothingQueued(queues);
    }

    /** PublishTick, PublishDepth and PublishBookTicker, by the arrival's kind. */
    method Enqueue(a: Arrival<T>)
      requires Valid() && a.kind < 3
      modifies this
      ensures Valid() && Model() == Publish(old(Model()), a)
    {
      if a.shard >= numShards {
        return;
      }
      var q := 3 * a.shard + a.kind;
      attempts := attempts + 1;
      if |queues[q]| + a.lag < QUEUE_CAPACITY {
        queues := queues[q := queues[q] + [a.item]];
      } else {
        droppedQueueCount := droppedQueueCount + 1;
      }
    }

    /** SendTyped for an item of some kind. */
    method SendTyped(a: Attempt, kind: nat) returns (ok: bool)
      modifies this`sent, this`unroutable, this`droppedBufferCount, this`droppedHwmCount
      ensures var routed := Routable(a.prefix, kind);
              && (ok <==> routed && a.slot && a.topicSent && a.payloadSent)
              && sent == old(sent) + (if ok then 1 else 0)
              && unroutable == old(unroutable) + (if routed then 0 else 1)
              && droppedBufferCount == old(droppedBufferCount) + (if routed && !a.slot then 1 else 0)
              && droppedHwmCount == old(droppedHwmCount) + (if routed && a.slot && !ok then 1 else 0)
      ensures Model() == Count(old(Model()), Resolve(a, kind))
    {
      if a.prefix.None? || a.prefix.value == [] {
        unroutable := unroutable + 1;
        return false;
      }
      var topicLen := |a.prefix.value| + 1 + |Suffix(kind)|;
      if topicLen >= MAX_TOPIC {
        unroutable := unroutable + 1;
        return false;
      }
      if !a.slot {
        droppedBufferCount := droppedBufferCount + 1;
        return false;
      }
      if !a.topicSent {
        droppedHwmCount := droppedHwmCount + 1;
        return false;
      }
      if !a.payloadSent {
        droppedHwmCount := droppedHwmCount + 1;
        return false;
      }
      sent := sent + 1;
      return true;
    }

    /** TrySendOne: true only if an item was sent. */
    method TrySendOne(shard: nat, queueType: nat, a: Attempt) returns (ok: bool)
      requires Valid() && shard < numShards
      modifies this
      ensures Valid()
      ensures Model() == if queueType >= 3 then old(Model())
                         else Visit(old(Model()), 3 * shard + queueType, a.blind, Resolve(a, queueType))
      ensures sent == old(sent) + (if ok then 1 else 0)
    {
      if queueType >= 3 {
        return false;
      }
      var q := 3 * shard + queueType;
      if a.blind || queues[q] == [] {
        return false;
      }
      taken := taken[q := taken[q] + [queues[q][0]]];
      queues := queues[q := queues[q][1..]];
      ok := SendTyped(a, queueType);
    }

    /** What the parser threads do before the next visit. */
    method Arrive(arrivals: seq<Arrival<T>>)
      requires Valid() && ArrivalsOk(arrivals)
      modifies this
      ensures Valid() && Model() == PublishAll(old(Model()), arrivals)
    {
      for i := 0 to |arrivals|
        invariant Valid() && Model() == PublishAll(old(Model()), arrivals[..i])
      {
        assert arrivals[..i + 1][..i] == arrivals[..i];
        Enqueue(arrivals[i]);
      }
      assert arrivals[..|arrivals|] == arrivals;
    }

    /** The body of DispatchCycle's loop, with what the producers do before it. */
    method VisitNext(cursor: nat, i: nat, ghost m: Moment<T>, arrivals: seq<Arrival<T>>, attempt: Attempt)
      returns (ok: bool)
      requires Valid() && cursor < 3 * numShards && i < 3 * numShards && Describes(m, arrivals, attempt)
      modifies this
      ensures Valid() && Model() == Happen(old(Model()), Position(cursor, i, 3 * numShards), m)
      ensures sent == old(sent) + (if ok then 1 else 0)
    {
      var totalQueues := numShards * 3;
      PublishKeepsCounts(Model(), arrivals);
      Arrive(arrivals);
      WrapsOnce(cursor + i, totalQueues);
      var idx := (cursor + i) % totalQueues;
      assert EndsAs(m, attempt, idx);
      ok := TrySendOne(idx / 3, idx % 3, attempt);
    }

    /** DispatchCycle's loop, along the states of the cycle. */
    method VisitEach(cursor: nat, anyWork: bool, ghost script: nat -> Moment<T>, at: nat,
                     arrivals: nat -> seq<Arrival<T>>, attempts: nat -> Attempt, ghost states: nat -> Pub<T>)
      returns (any: bool)
      requires Valid() && cursor < 3 * numShards && ScriptOf(script, arrivals, attempts)
      requires Model() == states(0) && PathOf(states, cursor, script, at, 3 * numShards)
      modifies this
      ensures Valid() && Model() == states(3 * numShards)
      ensures sent >= old(sent) && (any <==> anyWork || sent > old(sent))
    {
      any := anyWork;
      for i := 0 to numShards * 3
        invariant Valid() && Model() == states(i)
        invariant sent >= old(sent) && (any <==> anyWork || sent > old(sent))
      {
        var sentOne := VisitNext(cursor, i, script(at + i), arrivals(at + i), attempts(at + i));
        if sentOne {
          any := true;
        }
      }
    }

    /** DispatchCycle. With no shard the source divides by zero. */
    method DispatchCycle(cursor: nat, anyWork: bool, ghost script: nat -> Moment<T>, at: nat,
                         arrivals: nat -> seq<Arrival<T>>, attempts: nat -> Attempt) returns (next: nat, any: bool)
      requires Valid() && numShards > 0 && cursor < 3 * numShards && ScriptOf(script, arrivals, attempts)
      modifies this
      ensures Valid() && Model() == Cycle(old(Model()), cursor, script, at)
      ensures next == NextCursor(cursor, 3 * numShards)
      ensures sent >= old(sent) && (any <==> anyWork || sent > old(sent))
    {
      ghost var states := CyclePath(Model(), cursor, script, at);
      any := VisitEach(cursor, anyWork, script, at, arrivals, attempts, states);
      WrapsOnce(cursor + 1, numShards * 3);
      next := (cursor + 1) % (numShards * 3);
    }

    /** One turn of DrainAll's loop; `drain` is what is left to do from any state. */
    method DrainCycle(cursor: nat, ghost script: nat -> Moment<T>, at: nat, attempts: nat -> Attempt,
                      ghost drain: (Pub<T>, nat, nat) -> Pub<T>) returns (next: nat, any: bool)
      requires Valid() && cursor < 3 * numShards && Quiet(script) && ScriptOf(script, NoArrivals(), attempts)
      requires DrainsAs(drain, script)
      modifies this
      ensures Valid() && next == NextCursor(cursor, 3 * numShards)
      ensures any ==> Total(queues) < old(Total(queues))
      ensures old(drain(Model(), cursor, at)) == if any then drain(Model(), next, at + 3 * numShards) else Model()
    {
      ghost var before := Model();
      next, any := DispatchCycle(cursor, false, script, at, NoArrivals(), attempts);
      ArrowStep(drain, script, before, cursor, at, Model());
    }

    /** DrainAll: terminates, and does what `Drain` says. */
    method DrainAll(ghost script: nat -> Moment<T>, attempts: nat -> Attempt)
      requires Valid() && numShards > 0 && Quiet(script) && ScriptOf(script, NoArrivals(), attempts)
      modifies this
      ensures Valid() && Model() == old(Drain(Model(), 0, script, 0))
    {
      ghost var drain := AsArrow(script);
      ghost var first := Cycle(Model(), 0, script, 0);
      DrainLoop(script, attempts, drain);
    }

    /** Its loop. */
    method DrainLoop(ghost script: nat -> Moment<T>, attempts: nat -> Attempt,
                     ghost drain: (Pub<T>, nat, nat) -> Pub<T>)
      requires Valid() && numShards > 0 && Quiet(script) && ScriptOf(script, NoArrivals(), attempts)
      requires DrainsAs(drain, script)
      modifies this
      ensures Valid() && Model() == old(drain(Model(), 0, 0))
    {
      ghost var goal := drain(Model(), 0, 0);
      var cursor: nat, at: nat := 0, 0;
      var any := true;
      while any
        invariant Valid() && cursor < 3 * numShards
        invariant goal == if any then drain(Model(), cursor, at) else Model()
        decreases if any then 1 + Total(queues) else 0
      {
        cursor, any := DrainCycle(cursor, script, at, attempts, drain);
        at := at + 3 * numShards;
      }
    }
  }

  /** `drain` is the rest of a drain, from any state. */
  ghost predicate DrainsAs<T(!new)>(drain: (Pub<T>, nat, nat) -> Pub<T>, script: nat -> Moment<T>)
    requires Quiet(script)
  {
    forall s: Pub<T>, cursor: nat, at: nat {:trigger Cycle(s, cursor, script, at)}
      | Shape(s, |s.queues|) && cursor < |s.queues| ::
      drain(s, cursor, at) == Drain(s, cursor, script, at)
  }

  /** One more cycle of such a rest. */
  lemma ArrowStep<T(!new)>(drain: (Pub<T>, nat, nat) -> Pub<T>, script: nat -> Moment<T>, s: Pub<T>, cursor: nat,
                           at: nat, r: Pub<T>)
    requires Quiet(script) && DrainsAs(drain, script) && Shape(s, |s.queues|) && cursor < |s.queues|
    requires r == Cycle(s, cursor, script, at)
    ensures r.sent > s.sent ==> Total(r.queues) < Total(s.queues)
    ensures drain(s, cursor, at)
            == if r.sent > s.sent then drain(r, NextCursor(cursor, |s.queues|), at + |s.queues|) else r
  {
    DrainStep(s, cursor, script, at, r);
    var following := Cycle(r, NextCursor(cursor, |s.queues|), script, at + |s.queues|);
  }

  lemma AsArrow<T(!new)>(script: nat -> Moment<T>) returns (drain: (Pub<T>, nat, nat) -> Pub<T>)
    requires Quiet(script)
    ensures DrainsAs(drain, script)
  {
    drain := (s: Pub<T>, cursor: nat, at: nat) =>
      if Shape(s, |s.queues|) && cursor < |s.queues| then Drain(s, cursor, script, at) else s;
  }

  /** `states` are the states a cycle passes through. */
  ghost predicate PathOf<T>(states: nat -> Pub<T>, cursor: nat, script: nat -> Moment<T>, at: nat, total: nat)
    requires cursor < total
  {
    forall i: nat {:trigger Position(cursor, i, total)} | i < total ::
      Shape(states(i), total) && states(i + 1) == Happen(states(i), Position(cursor, i, total), script(at + i))
  }

  lemma CyclePath<T>(s: Pub<T>, cursor: nat, script: nat -> Moment<T>, at: nat) returns (states: nat -> Pub<T>)
    requires Shape(s, |s.queues|) && cursor < |s.queues|
    ensures states(0) == s && states(|s.queues|) == Cycle(s, cursor, script, at)
    ensures PathOf(states, cursor, script, at, |s.queues|)
  {
    states := (i: nat) => if i <= |s.queues| then Visits(s, cursor, script, at, i) else s;
  }

  /** One more cycle of DrainAll. */
  lemma DrainStep<T>(s: Pub<T>, cursor: nat, script: nat -> Moment<T>, at: nat, r: Pub<T>)
    requires Quiet(script) && Shape(s, |s.queues|) && cursor < |s.queues| && r == Cycle(s, cursor, script, at)
    ensures if r.sent > s.sent
            then Total(r.queues) < Total(s.queues)
                 && Drain(s, cursor, script, at) == Drain(r, NextCursor(cursor, |s.queues|), script, at + |s.queues|)
            else Drain(s, cursor, script, at) == r
  {
    QuietProgress(s, cursor, script, at, |s.queues|);
  }

  predicate ArrivalsOk<T>(arrivals: seq<Arrival<T>>) {
    forall i | 0 <= i < |arrivals| :: arrivals[i].kind < 3
  }

  lemma {:induction false} NothingQueued<T>(queues: seq<seq<T>>)
    requires AllEmpty(queues)
    ensures Total(queues) == 0
    decreases |queues|
  {
    if queues != [] {
      NothingQueued(queues[..|queues| - 1]);
    }
  }

  lemma {:induction false} PublishKeepsCounts<T>(s: Pub<T>, arrivals: seq<Arrival<T>>)
    ensures PublishAll(s, arrivals).sent == s.sent
    decreases |arrivals|
  {
    if arrivals != [] {
      PublishKeepsCounts(s, arrivals[..|arrivals| - 1]);
    }
  }

  lemma WrapsOnce(n: nat, total: nat)
    requires 0 < total && n < 2 * total
    ensures n % total == if n < total then n else n - total
  {
    if n >= total {
      assert n == 1 * total + (n - total);
    }
  }
}
