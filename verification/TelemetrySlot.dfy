/**
 The seqlock of src/common/telemetry_slot.h: one writer, and a reader that
 retries until it saw the same even version before and after its four loads.
 Each access to the version or to a field is one step; the version does not
 wrap. Readers only read, so one reader stands for any number.
 */
module TelemetrySlot {

  const FIELDS: nat := 4

  datatype Writer = Resting | Writing(values: seq<nat>, done: nat)

  /** `got` holds the fields loaded since the version was `v1`. */
  datatype Reader = Away | Loading(v1: nat, got: seq<nat>)

  /**
   The rest is history: `writes` the initial zeros, then the values of every write begun; `completed` how
   many writes have ended; `begunAt` that number when the current read began; `snapshots` the values the
   reader accepted, with that number when each read began and when it ended.
   */
  datatype State = State(
    version: nat,
    fields: seq<nat>,
    writer: Writer,
    reader: Reader,
    writes: seq<seq<nat>>,
    completed: nat,
    begunAt: nat,
    snapshots: seq<seq<nat>>,
    starts: seq<nat>,
    ends: seq<nat>)

  datatype Action = BeginWrite(values: seq<nat>) | WriterStep | BeginRead | ReaderStep

  function WriteNext(s: State): State
    requires s.writer.Writing? && |s.writer.values| == |s.fields| == FIELDS
  {
    var Writing(values, done) := s.writer;
    if done < FIELDS then s.(fields := s.fields[done := values[done]], writer := Writing(values, done + 1))
    else s.(version := s.version + 1, writer := Resting, completed := s.completed + 1)
  }

  /** The loads in order; the second version load accepts the snapshot or starts over. */
  function ReadNext(s: State): State
    requires s.reader.Loading? && |s.fields| == FIELDS
  {
    var Loading(v1, got) := s.reader;
    if |got| < FIELDS then s.(reader := Loading(v1, got + [s.fields[|got|]]))
    else if v1 % 2 == 1 || v1 != s.version then s.(reader := Loading(s.version, []))
    else s.(reader := Away, snapshots := s.snapshots + [got],
            starts := s.starts + [s.begunAt], ends := s.ends + [s.completed])
  }

  predicate Shape(s: State) {
    |s.fields| == FIELDS && (s.writer.Writing? ==> |s.writer.values| == FIELDS)
  }

  function Next(s: State, a: Action): State
    requires Shape(s)
  {
    match a
    case BeginWrite(values) =>
      if s.writer.Resting? && |values| == FIELDS then
        s.(version := s.version + 1, writer := Writing(values, 0), writes := s.writes + [values])
      else s
    case WriterStep => if s.writer.Writing? then WriteNext(s) else s
    case BeginRead => if s.reader.Away? then s.(reader := Loading(s.version, []), begunAt := s.completed) else s
    case ReaderStep => if s.reader.Loading? then ReadNext(s) else s
  }

  lemma ShapeKept(s: State, a: Action)
    requires Shape(s)
    ensures Shape(Next(s, a))
  {
  }

  function Run(s: State, acts: seq<Action>): State
    requires Shape(s)
    decreases |acts|
  {
    if acts == [] then s
    else
      ShapeKept(s, acts[0]);
      Run(Next(s, acts[0]), acts[1..])
  }

  function Init(): State {
    State(0, [0, 0, 0, 0], Resting, Away, [[0, 0, 0, 0]], 0, 0, [], [], [])
  }

  // ---- Invariant ----

  /** Even versions 2k show write k whole; at an odd one the next write has got as far as `done`. */
  ghost predicate SlotOk(version: nat, fields: seq<nat>, writer: Writer, writes: seq<seq<nat>>) {
    && |fields| == FIELDS && (forall k | 0 <= k < |writes| :: |writes[k]| == FIELDS)
    && match writer
       case Resting => |writes| > 0 && version == 2 * (|writes| - 1) && fields == writes[|writes| - 1]
       case Writing(values, done) =>
         && |writes| > 1 && version == 2 * (|writes| - 1) - 1 && values == writes[|writes| - 1] && done <= FIELDS
         && forall i | 0 <= i < FIELDS :: fields[i] == if i < done then values[i] else writes[|writes| - 2][i]
  }

  /** As long as the version has not moved from an even `v1`, what was loaded is from that write. */
  ghost predicate ReaderOk(reader: Reader, version: nat, writes: seq<seq<nat>>) {
    reader.Loading? ==>
      && reader.v1 <= version && |reader.got| <= FIELDS
      && (reader.v1 % 2 == 0 && reader.v1 == version ==>
            && reader.v1 / 2 < |writes| && |writes[reader.v1 / 2]| == FIELDS
            && reader.got == writes[reader.v1 / 2][..|reader.got|])
  }

  /** The version counts the writes begun and ended. */
  ghost predicate CountOk(version: nat, writer: Writer, completed: nat) {
    version == 2 * completed + (if writer.Resting? then 0 else 1)
  }

  /**
   Each snapshot is, whole, the latest write completed when it was accepted, hence no older than any write
   completed before the read began, and none is older than the one before it.
   */
  ghost predicate SnapshotsOk(snapshots: seq<seq<nat>>, starts: seq<nat>, ends: seq<nat>, writes: seq<seq<nat>>) {
    && |snapshots| == |starts| == |ends|
    && (forall i | 0 <= i < |ends| :: starts[i] <= ends[i] < |writes| && snapshots[i] == writes[ends[i]])
    && (forall i, j | 0 <= i < j < |ends| :: ends[i] <= starts[j])
  }

  /** Time does not go back. */
  ghost predicate Forward(ends: seq<nat>, reader: Reader, begunAt: nat, completed: nat) {
    && begunAt <= completed
    && forall i | 0 <= i < |ends| :: ends[i] <= completed && (reader.Loading? ==> ends[i] <= begunAt)
  }

  ghost predicate Inv(s: State) {
    && SlotOk(s.version, s.fields, s.writer, s.writes)
    && ReaderOk(s.reader, s.version, s.writes)
    && CountOk(s.version, s.writer, s.completed)
    && SnapshotsOk(s.snapshots, s.starts, s.ends, s.writes)
    && Forward(s.ends, s.reader, s.begunAt, s.completed)
  }

  lemma InvBeginWrite(s: State, values: seq<nat>)
    requires Inv(s) && Shape(s) && s.writer.Resting? && |values| == FIELDS
    ensures Inv(Next(s, BeginWrite(values)))
  {
  }

  lemma InvWriter(s: State)
    requires Inv(s) && Shape(s) && s.writer.Writing?
    ensures Inv(WriteNext(s))
  {
    if s.writer.done == FIELDS {
      assert s.fields == s.writer.values;
    }
  }

  lemma InvReader(s: State)
    requires Inv(s) && Shape(s) && s.reader.Loading?
    ensures Inv(ReadNext(s))
  {
    var Loading(v1, got) := s.reader;
    if |got| < FIELDS {
      if v1 % 2 == 0 && v1 == s.version {
        var w := s.writes[v1 / 2];
        assert w[..|got| + 1] == w[..|got|] + [w[|got|]];
      }
    } else if v1 % 2 == 0 && v1 == s.version {
      var w := s.writes[v1 / 2];
      assert w[..FIELDS] == w;
      Accepted(s, w);
    }
  }

  lemma Accepted(s: State, w: seq<nat>)
    requires Inv(s) && Shape(s) && s.reader.Loading? && |s.reader.got| == FIELDS
    requires s.reader.v1 % 2 == 0 && s.reader.v1 == s.version && w == s.writes[s.reader.v1 / 2] && s.reader.got == w
    ensures Inv(ReadNext(s))
  {
  }

  lemma InvNext(s: State, a: Action)
    requires Inv(s) && Shape(s)
    ensures Inv(Next(s, a))
  {
    match a
    case BeginWrite(values) =>
      if s.writer.Resting? && |values| == FIELDS {
        InvBeginWrite(s, values);
      }
    case WriterStep =>
      if s.writer.Writing? {
        InvWriter(s);
      }
    case ReaderStep =>
      if s.reader.Loading? {
        InvReader(s);
      }
    case BeginRead =>
  }

  lemma {:induction false} InvRun(s: State, acts: seq<Action>)
    requires Inv(s) && Shape(s)
    ensures Inv(Run(s, acts))
    decreases |acts|
  {
    if acts != [] {
      InvNext(s, acts[0]);
      ShapeKept(s, acts[0]);
      InvRun(Next(s, acts[0]), acts[1..]);
    }
  }

  // ---- Main results ----

  /**
   In every interleaving, each accepted snapshot holds the four fields of one write (or the initial
   zeros), namely of the latest write completed when it was accepted; so it is no older than any write
   completed before the read began, and successive snapshots never go back.
   */
  lemma SnapshotsAreLatest(acts: seq<Action>)
    ensures var s := Run(Init(), acts); SnapshotsOk(s.snapshots, s.starts, s.ends, s.writes)
  {
    InvRun(Init(), acts);
  }

  function Reads(n: nat): seq<Action> {
    if n == 0 then [] else [ReaderStep] + Reads(n - 1)
  }

  lemma {:induction false} LoadsWhileQuiet(s: State, n: nat)
    requires Inv(s) && Shape(s) && s.writer.Resting? && s.reader.Loading? && s.reader.v1 == s.version
    requires |s.reader.got| + n == FIELDS
    ensures var r := Run(s, Reads(n + 1));
            r.snapshots == s.snapshots + [s.fields] && r.reader.Away?
    decreases n
  {
    var next := Next(s, ReaderStep);
    InvNext(s, ReaderStep);
    ShapeKept(s, ReaderStep);
    assert Reads(n + 1)[0] == ReaderStep && Reads(n + 1)[1..] == Reads(n);
    if n > 0 {
      LoadsWhileQuiet(next, n - 1);
    } else {
      assert s.writes[s.version / 2][..FIELDS] == s.writes[s.version / 2];
      assert Reads(0) == [];
    }
  }

  /** A read that meets no writer ends after one round, with the latest write. */
  lemma QuietReadReturnsLatest(s: State)
    requires Inv(s) && Shape(s) && s.writer.Resting? && s.reader.Away?
    ensures var r := Run(s, [BeginRead] + Reads(FIELDS + 1));
            |s.writes| > 0 && r.snapshots == s.snapshots + [s.writes[|s.writes| - 1]] && r.reader.Away?
  {
    var acts := [BeginRead] + Reads(FIELDS + 1);
    assert acts[1..] == Reads(FIELDS + 1);
    InvNext(s, BeginRead);
    LoadsWhileQuiet(Next(s, BeginRead), FIELDS);
  }
}
