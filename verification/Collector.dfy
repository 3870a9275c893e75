/**
 The collector's write buffers. Three callers run the same flush routine: the event loop when a
 buffer is full, a background task on a timer, and the shutdown path. They interleave wherever the
 routine awaits, over database sessions that commit everything or nothing.
 */
module Collector {
  import opened Numbers

  type Record = int

  /** The buffers in the order a flush visits them: ticks, trades, candles, order books, funding rates. */
  const KINDS: nat := 5
  /** Only the first three can trigger a flush by size. */
  const SIZED: nat := 3

  /** Records copied out of buffer `kind`; `start` is the place of the first one in append order. */
  datatype Batch = Batch(session: nat, kind: nat, start: int, records: seq<Record>)

  /** A run of the flush routine: its session, the next buffer to visit, the batches added so far. */
  datatype Flush = Flush(session: nat, stage: nat, pending: seq<Batch>)

  /** The event loop: between events, about to test the sizes, flushing, leaving, in the shutdown flush, gone. */
  datatype Main = Waiting | Checking | SizeFlush(flush: Flush) | Stopping | LastFlush(flush: Flush) | Finished

  /** The background task. */
  datatype Timer = Sleeping | TimedFlush(flush: Flush) | Stopped

  datatype State = State(
    buffers: seq<seq<Record>>,   // one per kind
    appended: seq<seq<Record>>,  // everything ever appended, one history per kind
    sessions: nat,               // sessions opened so far
    main: Main,
    timer: Timer,
    committed: seq<Batch>,
    dropped: seq<Batch>)

  function Blank(): seq<seq<Record>> {
    [[], [], [], [], []]
  }

  const START := State(Blank(), Blank(), 0, Waiting, Sleeping, [], [])

  // ----- pieces of the flush routine

  predicate Nothing(buffers: seq<seq<Record>>) {
    forall k :: 0 <= k < |buffers| ==> buffers[k] == []
  }

  predicate Full(buffers: seq<seq<Record>>, batchSize: nat)
    requires |buffers| == KINDS
  {
    exists k :: 0 <= k < SIZED && |buffers[k]| >= batchSize
  }

  /** Copy the buffer of the next stage into the session and clear it; an empty one is skipped. */
  function Take(s: State, f: Flush): (State, Flush)
    requires |s.buffers| == |s.appended| == KINDS && f.stage < KINDS
  {
    var k := f.stage;
    var start := |s.appended[k]| - |s.buffers[k]|;
    if s.buffers[k] == [] then (s, f.(stage := k + 1))
    else (s.(buffers := s.buffers[k := []]),
          f.(stage := k + 1, pending := f.pending + [Batch(f.session, k, start, s.buffers[k])]))
  }

  // ----- steps

  datatype Step =
    | Receive(kind: nat, record: Record)  // an event with a known instrument: its record is appended
    | Ignore                              // an event that leaves no record
    | Check                               // the size test after an event
    | MainTake | MainCommit | MainFail    // the event loop's or the shutdown flush
    | Leave                               // the stream ends, or the loop is cancelled
    | Close                               // cancel the timer and start the shutdown flush
    | TimerWake | TimerTake | TimerCommit | TimerFail
    | TimerCancel                         // the cancellation reaches the background task

  predicate Running(m: Main) {
    m.Waiting? || m.Checking? || m.SizeFlush?
  }

  predicate MainFlushing(m: Main) {
    m.SizeFlush? || m.LastFlush?
  }

  /** After a flush of the event loop: back to waiting if it succeeded, out of the loop if it raised. */
  function MainAfter(m: Main, ok: bool): Main {
    if m.LastFlush? then Finished else if ok then Waiting else Stopping
  }

  /** One atomic step; a step that is not enabled changes nothing. */
  function Next(s: State, step: Step, batchSize: nat): State
    requires |s.buffers| == |s.appended| == KINDS
  {
    match step
    case Receive(k, r) =>
      if s.main.Waiting? && k < KINDS then
        s.(buffers := s.buffers[k := s.buffers[k] + [r]],
           appended := s.appended[k := s.appended[k] + [r]],
           main := Checking)
      else s
    case Ignore => if s.main.Waiting? then s.(main := Checking) else s
    case Check =>
      if !s.main.Checking? then s
      else if Full(s.buffers, batchSize) && !Nothing(s.buffers) then
        s.(main := SizeFlush(Flush(s.sessions, 0, [])), sessions := s.sessions + 1)
      else s.(main := Waiting)
    case MainTake =>
      if MainFlushing(s.main) && s.main.flush.stage < KINDS then
        var (t, f) := Take(s, s.main.flush);
        t.(main := if s.main.SizeFlush? then SizeFlush(f) else LastFlush(f))
      else s
    case MainCommit =>
      if MainFlushing(s.main) && s.main.flush.stage == KINDS then
        s.(committed := s.committed + s.main.flush.pending, main := MainAfter(s.main, true))
      else s
    case MainFail =>
      if MainFlushing(s.main) then
        s.(dropped := s.dropped + s.main.flush.pending, main := MainAfter(s.main, false))
      else s
    case Leave => if s.main.Waiting? || s.main.Checking? then s.(main := Stopping) else s
    case Close =>
      if !s.main.Stopping? then s
      else if Nothing(s.buffers) then s.(main := Finished)
      else s.(main := LastFlush(Flush(s.sessions, 0, [])), sessions := s.sessions + 1)
    case TimerWake =>
      if s.timer.Sleeping? && Running(s.main) && !Nothing(s.buffers) then
        s.(timer := TimedFlush(Flush(s.sessions, 0, [])), sessions := s.sessions + 1)
      else s
    case TimerTake =>
      if s.timer.TimedFlush? && s.timer.flush.stage < KINDS then
        var (t, f) := Take(s, s.timer.flush);
        t.(timer := TimedFlush(f))
      else s
    case TimerCommit =>
      if s.timer.TimedFlush? && s.timer.flush.stage == KINDS then
        s.(committed := s.committed + s.timer.flush.pending, timer := if Running(s.main) then Sleeping else Stopped)
      else s
    case TimerFail =>
      if s.timer.TimedFlush? then
        s.(dropped := s.dropped + s.timer.flush.pending, timer := if Running(s.main) then Sleeping else Stopped)
      else s
    case TimerCancel =>
      if Running(s.main) then s
      else if s.timer.TimedFlush? then s.(dropped := s.dropped + s.timer.flush.pending, timer := Stopped)
      else s.(timer := Stopped)
  }

  /** The state after the first `n` steps of any interleaving. */
  function Exec(steps: seq<Step>, batchSize: nat, n: nat): (s: State)
    requires n <= |steps|
    ensures |s.buffers| == |s.appended| == KINDS
  {
    if n == 0 then START
    else
      var s := Exec(steps, batchSize, n - 1);
      NextShape(s, steps[n - 1], batchSize);
      Next(s, steps[n - 1], batchSize)
  }

  lemma {:induction false} NextShape(s: State, step: Step, batchSize: nat)
    requires |s.buffers| == |s.appended| == KINDS
    ensures |Next(s, step, batchSize).buffers| == |Next(s, step, batchSize).appended| == KINDS
  {
  }

  lemma {:induction false} ExecStep(steps: seq<Step>, batchSize: nat, n: nat)
    requires n < |steps|
    ensures Exec(steps, batchSize, n + 1) == Next(Exec(steps, batchSize, n), steps[n], batchSize)
  {
  }

  // ----- where a record is

  function InFlight(m: Main): seq<Batch> {
    if MainFlushing(m) then m.flush.pending else []
  }

  function InFlightTimer(t: Timer): seq<Batch> {
    if t.TimedFlush? then t.flush.pending else []
  }

  predicate Covers(b: Batch, kind: nat, p: nat) {
    b.kind == kind && b.start <= p < b.start + |b.records|
  }

  /** How many batches of a list contain record number `p` of a kind. */
  function Copies(batches: seq<Batch>, kind: nat, p: nat): nat {
    if batches == [] then 0
    else Copies(batches[..|batches| - 1], kind, p) + if Covers(batches[|batches| - 1], kind, p) then 1 else 0
  }

  lemma {:induction false} CopiesAppend(a: seq<Batch>, b: seq<Batch>, kind: nat, p: nat)
    ensures Copies(a + b, kind, p) == Copies(a, kind, p) + Copies(b, kind, p)
  {
    if b == [] {
      assert a + b == a;
    } else {
      assert (a + b)[..|a + b| - 1] == a + b[..|b| - 1];
      CopiesAppend(a, b[..|b| - 1], kind, p);
    }
  }

  function TotalCopies(s: State, kind: nat, p: nat): nat {
    Copies(s.committed, kind, p) + Copies(s.dropped, kind, p)
    + Copies(InFlight(s.main), kind, p) + Copies(InFlightTimer(s.timer), kind, p)
  }

  /** The number of records of a kind that have left its buffer. */
  function Cut(s: State, kind: nat): int
    requires |s.buffers| == |s.appended| == KINDS && kind < KINDS
  {
    |s.appended[kind]| - |s.buffers[kind]|
  }

  /** A buffer holds the end of its history. */
  ghost predicate BufferIsSuffix(s: State, kind: nat)
    requires |s.buffers| == |s.appended| == KINDS && kind < KINDS
  {
    0 <= Cut(s, kind) && s.buffers[kind] == s.appended[kind][Cut(s, kind)..]
  }

  /** Every record that left the buffer is in exactly one batch, no other is in any. */
  ghost predicate Conserved(s: State, kind: nat)
    requires |s.buffers| == |s.appended| == KINDS && kind < KINDS
  {
    && BufferIsSuffix(s, kind)
    && forall p: nat :: TotalCopies(s, kind, p) == if p < Cut(s, kind) then 1 else 0
  }

  lemma {:induction false} TakeConserves(s: State, f: Flush, kind: nat, p: nat)
    requires |s.buffers| == |s.appended| == KINDS && f.stage < KINDS && kind < KINDS
    requires BufferIsSuffix(s, f.stage) && BufferIsSuffix(s, kind)
    ensures var (t, g) := Take(s, f);
      && BufferIsSuffix(t, kind)
      && Copies(g.pending, kind, p) - Copies(f.pending, kind, p) ==
        if Cut(s, kind) <= p < Cut(t, kind) then 1 else 0
  {
    var (t, g) := Take(s, f);
    var k := f.stage;
    if s.buffers[k] != [] {
      var b := Batch(f.session, k, Cut(s, k), s.buffers[k]);
      assert g.pending == f.pending + [b];
      assert g.pending[..|f.pending|] == f.pending;
    }
  }

  lemma {:induction false} StepConserves(s: State, step: Step, batchSize: nat, kind: nat)
    requires |s.buffers| == |s.appended| == KINDS && kind < KINDS
    requires forall k :: 0 <= k < KINDS ==> Conserved(s, k)
    ensures |Next(s, step, batchSize).buffers| == |Next(s, step, batchSize).appended| == KINDS
    ensures Conserved(Next(s, step, batchSize), kind)
  {
    var t := Next(s, step, batchSize);
    NextShape(s, step, batchSize);
    assert Conserved(s, kind);
    forall k | 0 <= k < KINDS
      ensures BufferIsSuffix(s, k)
    {
      assert Conserved(s, k);
    }
    StepKeepsSuffix(s, step, batchSize, kind);
    forall p: nat
      ensures TotalCopies(t, kind, p) == if p < Cut(t, kind) then 1 else 0
    {
      assert TotalCopies(s, kind, p) == if p < Cut(s, kind) then 1 else 0;
      StepMovesCopies(s, step, batchSize, kind, p);
    }
  }

  lemma {:induction false} StepKeepsSuffix(s: State, step: Step, batchSize: nat, kind: nat)
    requires |s.buffers| == |s.appended| == KINDS && kind < KINDS
    requires BufferIsSuffix(s, kind)
    ensures |Next(s, step, batchSize).buffers| == |Next(s, step, batchSize).appended| == KINDS
    ensures BufferIsSuffix(Next(s, step, batchSize), kind) && Cut(Next(s, step, batchSize), kind) >= Cut(s, kind)
  {
  }

  /** A step adds a copy of exactly those records it takes out of their buffer. */
  lemma {:induction false} StepMovesCopies(s: State, step: Step, batchSize: nat, kind: nat, p: nat)
    requires |s.buffers| == |s.appended| == KINDS && kind < KINDS
    requires forall k :: 0 <= k < KINDS ==> BufferIsSuffix(s, k)
    ensures |Next(s, step, batchSize).buffers| == |Next(s, step, batchSize).appended| == KINDS
    ensures var t := Next(s, step, batchSize);
      TotalCopies(t, kind, p) - TotalCopies(s, kind, p) == if Cut(s, kind) <= p < Cut(t, kind) then 1 else 0
  {
    hide Next, TotalCopies, BufferIsSuffix;
    NextShape(s, step, batchSize);
    assert BufferIsSuffix(s, kind);
    if step.MainTake? && MainFlushing(s.main) && s.main.flush.stage < KINDS {
      MainTakeMovesCopies(s, batchSize, kind, p);
    } else if step.TimerTake? && s.timer.TimedFlush? && s.timer.flush.stage < KINDS {
      TimerTakeMovesCopies(s, batchSize, kind, p);
    } else if Settles(step) {
      SettlingMovesCopies(s, step, batchSize, kind, p);
    } else {
      OthersMoveNothing(s, step, batchSize, kind, p);
    }
  }

  lemma {:induction false} MainTakeMovesCopies(s: State, batchSize: nat, kind: nat, p: nat)
    requires |s.buffers| == |s.appended| == KINDS && kind < KINDS
    requires MainFlushing(s.main) && s.main.flush.stage < KINDS
    requires BufferIsSuffix(s, kind) && BufferIsSuffix(s, s.main.flush.stage)
    ensures var t := Next(s, MainTake, batchSize);
      && |t.buffers| == |t.appended| == KINDS
      && TotalCopies(t, kind, p) - TotalCopies(s, kind, p) == if Cut(s, kind) <= p < Cut(t, kind) then 1 else 0
  {
    NextShape(s, MainTake, batchSize);
    hide Take, Copies, BufferIsSuffix;
    TakeConserves(s, s.main.flush, kind, p);
    TakeKeepsRest(s, s.main.flush);
  }

  lemma {:induction false} TimerTakeMovesCopies(s: State, batchSize: nat, kind: nat, p: nat)
    requires |s.buffers| == |s.appended| == KINDS && kind < KINDS
    requires s.timer.TimedFlush? && s.timer.flush.stage < KINDS
    requires BufferIsSuffix(s, kind) && BufferIsSuffix(s, s.timer.flush.stage)
    ensures var t := Next(s, TimerTake, batchSize);
      && |t.buffers| == |t.appended| == KINDS
      && TotalCopies(t, kind, p) - TotalCopies(s, kind, p) == if Cut(s, kind) <= p < Cut(t, kind) then 1 else 0
  {
    NextShape(s, TimerTake, batchSize);
    hide Take, Copies, BufferIsSuffix;
    TakeConserves(s, s.timer.flush, kind, p);
    TakeKeepsRest(s, s.timer.flush);
  }

  lemma {:induction false} TakeKeepsRest(s: State, f: Flush)
    requires |s.buffers| == |s.appended| == KINDS && f.stage < KINDS
    ensures var t := Take(s, f).0;
      t == s.(buffers := t.buffers) && |t.buffers| == KINDS
  {
  }

  /** A step that neither takes nor settles moves no record out of a buffer and no batch out of its place. */
  lemma {:induction false} OthersMoveNothing(s: State, step: Step, batchSize: nat, kind: nat, p: nat)
    requires |s.buffers| == |s.appended| == KINDS && kind < KINDS && !Settles(step)
    requires step.MainTake? ==> !(MainFlushing(s.main) && s.main.flush.stage < KINDS)
    requires step.TimerTake? ==> !(s.timer.TimedFlush? && s.timer.flush.stage < KINDS)
    ensures var t := Next(s, step, batchSize);
      && |t.buffers| == |t.appended| == KINDS
      && TotalCopies(t, kind, p) == TotalCopies(s, kind, p) && Cut(t, kind) == Cut(s, kind)
  {
    var t := Next(s, step, batchSize);
    assert t.committed == s.committed && t.dropped == s.dropped;
    assert InFlight(t.main) == InFlight(s.main) && InFlightTimer(t.timer) == InFlightTimer(s.timer);
    hide Copies, Full, Nothing;
  }

  predicate Settles(step: Step) {
    step.MainCommit? || step.MainFail? || step.TimerCommit? || step.TimerFail? || step.TimerCancel?
  }

  /** Committing or dropping a flush moves its batches; the number of copies stays the same. */
  lemma {:induction false} SettlingMovesCopies(s: State, step: Step, batchSize: nat, kind: nat, p: nat)
    requires |s.buffers| == |s.appended| == KINDS && kind < KINDS && Settles(step)
    ensures var t := Next(s, step, batchSize);
      TotalCopies(t, kind, p) == TotalCopies(s, kind, p) && t.buffers == s.buffers && t.appended == s.appended
  {
    hide Copies, Take, Full, Nothing;
    var main, timer := InFlight(s.main), InFlightTimer(s.timer);
    NoCopies(kind, p);
    if step.MainCommit? || step.TimerCommit? {
      CopiesAppend(s.committed, if step.MainCommit? then main else timer, kind, p);
    } else {
      CopiesAppend(s.dropped, if step.MainFail? then main else timer, kind, p);
    }
  }

  lemma {:induction false} NoCopies(kind: nat, p: nat)
    ensures Copies([], kind, p) == 0
  {
  }

  lemma {:induction false} RunConserves(steps: seq<Step>, batchSize: nat, n: nat, kind: nat)
    requires n <= |steps| && kind < KINDS
    ensures Conserved(Exec(steps, batchSize, n), kind)
  {
    if n == 0 {
    } else {
      var s := Exec(steps, batchSize, n - 1);
      forall k | 0 <= k < KINDS
        ensures Conserved(s, k)
      {
        RunConserves(steps, batchSize, n - 1, k);
      }
      StepConserves(s, steps[n - 1], batchSize, kind);
    }
  }

  /**
   Conservation: under every interleaving, with any commits failing, each record ever appended is in
   exactly one place: its buffer, one in-flight session, the database, or among the dropped.
   */
  lemma {:induction false} ExactlyOnePlace(steps: seq<Step>, batchSize: nat, n: nat, kind: nat, p: nat)
    requires n <= |steps| && kind < KINDS
    ensures var s := Exec(steps, batchSize, n);
      p < |s.appended[kind]| ==>
        Copies(s.committed, kind, p) + Copies(s.dropped, kind, p)
        + Copies(InFlight(s.main), kind, p) + Copies(InFlightTimer(s.timer), kind, p)
        + (if Cut(s, kind) <= p then 1 else 0) == 1
  {
    RunConserves(steps, batchSize, n, kind);
    var s := Exec(steps, batchSize, n);
    assert TotalCopies(s, kind, p) == if p < Cut(s, kind) then 1 else 0;
  }

  // ----- batches and sessions

  /** The batch is a contiguous run of the kind's append order. */
  ghost predicate Contiguous(s: State, b: Batch)
    requires |s.appended| == KINDS
  {
    && b.kind < KINDS && |b.records| > 0
    && 0 <= b.start <= b.start + |b.records| <= |s.appended[b.kind]|
    && b.records == s.appended[b.kind][b.start..b.start + |b.records|]
  }

  ghost predicate AllContiguous(s: State, batches: seq<Batch>)
    requires |s.appended| == KINDS
  {
    forall i :: 0 <= i < |batches| ==> Contiguous(s, batches[i])
  }

  ghost predicate BatchesSound(s: State)
    requires |s.appended| == KINDS
  {
    && AllContiguous(s, s.committed) && AllContiguous(s, s.dropped)
    && AllContiguous(s, InFlight(s.main)) && AllContiguous(s, InFlightTimer(s.timer))
  }

  lemma {:induction false} StepKeepsBatches(s: State, step: Step, batchSize: nat)
    requires |s.buffers| == |s.appended| == KINDS && BatchesSound(s)
    requires forall k :: 0 <= k < KINDS ==> BufferIsSuffix(s, k)
    ensures |Next(s, step, batchSize).appended| == KINDS && BatchesSound(Next(s, step, batchSize))
  {
    hide Take, Full, Nothing;
    NextShape(s, step, batchSize);
    forall b
      ensures Contiguous(s, b) ==> Contiguous(Next(s, step, batchSize), b)
    {
      ContiguousStays(s, step, batchSize, b);
    }
    hide Contiguous, Full, Nothing;
    if step.MainTake? && MainFlushing(s.main) && s.main.flush.stage < KINDS {
      TakeContiguous(s, s.main.flush);
      TakeKeepsRest(s, s.main.flush);
    } else if step.TimerTake? && s.timer.TimedFlush? && s.timer.flush.stage < KINDS {
      TakeContiguous(s, s.timer.flush);
      TakeKeepsRest(s, s.timer.flush);
    }
  }

  lemma {:induction false} ContiguousStays(s: State, step: Step, batchSize: nat, b: Batch)
    requires |s.buffers| == |s.appended| == KINDS
    ensures |Next(s, step, batchSize).appended| == KINDS
    ensures Contiguous(s, b) ==> Contiguous(Next(s, step, batchSize), b)
  {
  }

  lemma {:induction false} TakeContiguous(s: State, f: Flush)
    requires |s.buffers| == |s.appended| == KINDS && f.stage < KINDS
    requires BufferIsSuffix(s, f.stage) && AllContiguous(s, f.pending)
    ensures Take(s, f).0.appended == s.appended && AllContiguous(s, Take(s, f).1.pending)
  {
  }

  /** Every batch, wherever it is, is a non-empty contiguous run of append order. */
  lemma {:induction false} BatchesAreRuns(steps: seq<Step>, batchSize: nat, n: nat)
    requires n <= |steps|
    ensures BatchesSound(Exec(steps, batchSize, n))
  {
    if n == 0 {
    } else {
      BatchesAreRuns(steps, batchSize, n - 1);
      var s := Exec(steps, batchSize, n - 1);
      forall k | 0 <= k < KINDS
        ensures BufferIsSuffix(s, k)
      {
        RunConserves(steps, batchSize, n - 1, k);
      }
      StepKeepsBatches(s, steps[n - 1], batchSize);
    }
  }

  /** The sessions whose batches a list holds. */
  function SessionsOf(batches: seq<Batch>): set<nat> {
    set i | 0 <= i < |batches| :: batches[i].session
  }

  /** Sessions of different fates never overlap, and a flush only fills its own. */
  ghost predicate SessionsApart(s: State) {
    var main, timer := SessionsOf(InFlight(s.main)), SessionsOf(InFlightTimer(s.timer));
    && SessionsOf(s.committed) !! SessionsOf(s.dropped)
    && (forall x :: x in SessionsOf(s.committed) ==> x < s.sessions)
    && (forall x :: x in SessionsOf(s.dropped) ==> x < s.sessions)
    && (MainFlushing(s.main) ==> Own(s, main, s.main.flush))
    && (s.timer.TimedFlush? ==> Own(s, timer, s.timer.flush))
    && (MainFlushing(s.main) && s.timer.TimedFlush? ==> s.main.flush.session != s.timer.flush.session)
  }

  ghost predicate Own(s: State, sessions: set<nat>, f: Flush) {
    && sessions <= {f.session} && f.session < s.sessions
    && f.session !in SessionsOf(s.committed) && f.session !in SessionsOf(s.dropped)
  }

  lemma {:induction false} SessionsAppend(a: seq<Batch>, b: seq<Batch>)
    ensures SessionsOf(a + b) == SessionsOf(a) + SessionsOf(b)
  {
    forall x | x in SessionsOf(b)
      ensures x in SessionsOf(a + b)
    {
      var i :| 0 <= i < |b| && b[i].session == x;
      assert (a + b)[|a| + i].session == x;
    }
    forall x | x in SessionsOf(a)
      ensures x in SessionsOf(a + b)
    {
      var i :| 0 <= i < |a| && a[i].session == x;
      assert (a + b)[i].session == x;
    }
  }

  lemma {:induction false} TakeKeepsSession(s: State, f: Flush)
    requires |s.buffers| == |s.appended| == KINDS && f.stage < KINDS && SessionsOf(f.pending) <= {f.session}
    ensures Take(s, f).1.session == f.session && SessionsOf(Take(s, f).1.pending) <= {f.session}
  {
  }

  lemma {:induction false} StepKeepsSessions(s: State, step: Step, batchSize: nat)
    requires |s.buffers| == |s.appended| == KINDS && SessionsApart(s)
    ensures SessionsApart(Next(s, step, batchSize))
  {
    hide SessionsOf, Full, Nothing;
    NoSessions();
    assert s.sessions !in SessionsOf(s.committed) && s.sessions !in SessionsOf(s.dropped);
    if step.MainTake? && MainFlushing(s.main) && s.main.flush.stage < KINDS {
      TakeKeepsSession(s, s.main.flush);
      TakeKeepsRest(s, s.main.flush);
    } else if step.TimerTake? && s.timer.TimedFlush? && s.timer.flush.stage < KINDS {
      TakeKeepsSession(s, s.timer.flush);
      TakeKeepsRest(s, s.timer.flush);
    } else if step.MainCommit? || step.MainFail? {
      MainSettles(s, step, batchSize);
    } else if Settles(step) {
      TimerSettles(s, step, batchSize);
    }
  }

  lemma {:induction false} MainSettles(s: State, step: Step, batchSize: nat)
    requires |s.buffers| == |s.appended| == KINDS && SessionsApart(s)
    requires step.MainCommit? || step.MainFail?
    ensures SessionsApart(Next(s, step, batchSize))
  {
    hide SessionsOf, Full, Nothing, Take;
    NoSessions();
    var t := Next(s, step, batchSize);
    var main, timer := SessionsOf(InFlight(s.main)), SessionsOf(InFlightTimer(s.timer));
    SessionsAppend(s.committed, InFlight(s.main));
    SessionsAppend(s.dropped, InFlight(s.main));
    assert SessionsOf(t.committed) <= SessionsOf(s.committed) + main;
    assert SessionsOf(t.dropped) <= SessionsOf(s.dropped) + main;
    assert t.committed == s.committed || t.dropped == s.dropped;
    assert main !! SessionsOf(s.committed) && main !! SessionsOf(s.dropped);
  }

  lemma {:induction false} TimerSettles(s: State, step: Step, batchSize: nat)
    requires |s.buffers| == |s.appended| == KINDS && SessionsApart(s)
    requires step.TimerCommit? || step.TimerFail? || step.TimerCancel?
    ensures SessionsApart(Next(s, step, batchSize))
  {
    hide SessionsOf, Full, Nothing, Take;
    NoSessions();
    var t := Next(s, step, batchSize);
    var timer := SessionsOf(InFlightTimer(s.timer));
    SessionsAppend(s.committed, InFlightTimer(s.timer));
    SessionsAppend(s.dropped, InFlightTimer(s.timer));
    assert SessionsOf(t.committed) <= SessionsOf(s.committed) + timer;
    assert SessionsOf(t.dropped) <= SessionsOf(s.dropped) + timer;
    assert t.committed == s.committed || t.dropped == s.dropped;
    assert timer !! SessionsOf(s.committed) && timer !! SessionsOf(s.dropped);
  }

  lemma {:induction false} NoSessions()
    ensures SessionsOf([]) == {}
  {
  }

  lemma {:induction false} RunKeepsSessions(steps: seq<Step>, batchSize: nat, n: nat)
    requires n <= |steps|
    ensures SessionsApart(Exec(steps, batchSize, n))
  {
    if n == 0 {
    } else {
      RunKeepsSessions(steps, batchSize, n - 1);
      StepKeepsSessions(Exec(steps, batchSize, n - 1), steps[n - 1], batchSize);
    }
  }

  /**
   All or nothing: no session has batches in two of database, dropped, event-loop flush and timed
   flush, so each session commits all its batches or none.
   */
  lemma {:induction false} SessionsAtomic(steps: seq<Step>, batchSize: nat, n: nat)
    requires n <= |steps|
    ensures var s := Exec(steps, batchSize, n);
      var c, d := SessionsOf(s.committed), SessionsOf(s.dropped);
      var m, t := SessionsOf(InFlight(s.main)), SessionsOf(InFlightTimer(s.timer));
      c !! d && (c + d) !! m && (c + d) !! t && m !! t
  {
    RunKeepsSessions(steps, batchSize, n);
  }

  // ----- buffer sizes

  ghost predicate SizesBounded(s: State, batchSize: nat)
    requires |s.buffers| == KINDS
  {
    && (forall k :: 0 <= k < SIZED ==> |s.buffers[k]| <= batchSize)
    && (s.main.Waiting? ==> forall k :: 0 <= k < SIZED ==> |s.buffers[k]| < batchSize)
    && (s.main.SizeFlush? ==> forall k :: 0 <= k < s.main.flush.stage && k < KINDS ==> s.buffers[k] == [])
    && (MainFlushing(s.main) ==> s.main.flush.stage <= KINDS)
  }

  lemma {:induction false} StepKeepsSizes(s: State, step: Step, batchSize: nat)
    requires |s.buffers| == |s.appended| == KINDS && batchSize >= 1 && SizesBounded(s, batchSize)
    ensures |Next(s, step, batchSize).buffers| == KINDS && SizesBounded(Next(s, step, batchSize), batchSize)
  {
  }

  /**
   Between events the tick, trade and candle buffers stay below the batch size, and they never
   exceed it, whatever the timer does in between.
   */
  lemma {:induction false} BuffersStaySmall(steps: seq<Step>, batchSize: nat, n: nat)
    requires n <= |steps| && batchSize >= 1
    ensures SizesBounded(Exec(steps, batchSize, n), batchSize)
  {
    if n == 0 {
    } else {
      BuffersStaySmall(steps, batchSize, n - 1);
      StepKeepsSizes(Exec(steps, batchSize, n - 1), steps[n - 1], batchSize);
    }
  }

  /** Order-book and funding buffers have no such bound: only the timer limits them. */
  lemma {:induction false} UnsizedBuffersCanGrow(batchSize: nat, size: nat, kind: nat) returns (steps: seq<Step>)
    requires batchSize >= 1 && SIZED <= kind < KINDS
    ensures var s := Exec(steps, batchSize, |steps|);
      s.main.Waiting? && |s.buffers[kind]| == size && forall k :: 0 <= k < SIZED ==> s.buffers[k] == []
  {
    if size == 0 {
      steps := [];
    } else {
      var before := UnsizedBuffersCanGrow(batchSize, size - 1, kind);
      steps := before + [Receive(kind, 0)] + [Check];
      ExecPrefix(before, [Receive(kind, 0)] + [Check], batchSize, |before|);
      assert steps == before + ([Receive(kind, 0)] + [Check]);
      var s := Exec(steps, batchSize, |before|);
      var t := Next(s, Receive(kind, 0), batchSize);
      assert Exec(steps, batchSize, |before| + 1) == t;
      assert !Full(t.buffers, batchSize);
    }
  }

  lemma {:induction false} ExecPrefix(steps: seq<Step>, more: seq<Step>, batchSize: nat, n: nat)
    requires n <= |steps|
    ensures Exec(steps + more, batchSize, n) == Exec(steps, batchSize, n)
  {
    if n == 0 {
    } else {
      ExecPrefix(steps, more, batchSize, n - 1);
    }
  }

  // ----- what is lost

  /** The batches a step gives up: those of a flush that fails, or that the cancellation reaches. */
  function GivenUp(s: State, step: Step): seq<Batch> {
    match step
    case MainFail => InFlight(s.main)
    case TimerFail => InFlightTimer(s.timer)
    case TimerCancel => if Running(s.main) then [] else InFlightTimer(s.timer)
    case _ => []
  }

  lemma {:induction false} StepDrops(s: State, step: Step, batchSize: nat)
    requires |s.buffers| == |s.appended| == KINDS
    ensures Next(s, step, batchSize).dropped == s.dropped + GivenUp(s, step)
  {
  }

  /** Nothing has been dropped exactly when no step so far gave up a batch. */
  lemma {:induction false} NothingDropped(steps: seq<Step>, batchSize: nat, n: nat)
    requires n <= |steps|
    ensures Exec(steps, batchSize, n).dropped == [] <==>
      forall i :: 0 <= i < n ==> GivenUp(Exec(steps, batchSize, i), steps[i]) == []
  {
    hide Next, GivenUp;
    if n == 0 {
    } else {
      NothingDropped(steps, batchSize, n - 1);
      ExecStep(steps, batchSize, n - 1);
      StepDrops(Exec(steps, batchSize, n - 1), steps[n - 1], batchSize);
      hide Exec;
    }
  }

  /** What a step gives up stays among the dropped, and is never committed. */
  lemma {:induction false} GivenUpIsLost(steps: seq<Step>, batchSize: nat, i: nat, n: nat, b: Batch, p: nat)
    requires i < n <= |steps| && b in GivenUp(Exec(steps, batchSize, i), steps[i]) && Covers(b, b.kind, p)
    ensures var s := Exec(steps, batchSize, n);
      && b in s.dropped && b.kind < KINDS && p < |s.appended[b.kind]|
      && Copies(s.committed, b.kind, p) == 0
  {
    DroppedForGood(steps, batchSize, i, n, b);
    DroppedNotCommitted(steps, batchSize, n, b, p);
  }

  lemma {:induction false} DroppedForGood(steps: seq<Step>, batchSize: nat, i: nat, n: nat, b: Batch)
    requires i < n <= |steps| && b in GivenUp(Exec(steps, batchSize, i), steps[i])
    ensures b in Exec(steps, batchSize, n).dropped
  {
    hide Next, GivenUp, Exec;
    ExecStep(steps, batchSize, n - 1);
    StepDrops(Exec(steps, batchSize, n - 1), steps[n - 1], batchSize);
    if n == i + 1 {
    } else {
      DroppedForGood(steps, batchSize, i, n - 1, b);
    }
  }

  lemma {:induction false} DroppedNotCommitted(steps: seq<Step>, batchSize: nat, n: nat, b: Batch, p: nat)
    requires n <= |steps| && b in Exec(steps, batchSize, n).dropped && Covers(b, b.kind, p)
    ensures var s := Exec(steps, batchSize, n);
      b.kind < KINDS && p < |s.appended[b.kind]| && Copies(s.committed, b.kind, p) == 0
  {
    var s := Exec(steps, batchSize, n);
    BatchesAreRuns(steps, batchSize, n);
    assert Contiguous(s, b);
    CopiesCover(s.dropped, b, p);
    ExactlyOnePlace(steps, batchSize, n, b.kind, p);
  }

  lemma {:induction false} CopiesCover(batches: seq<Batch>, b: Batch, p: nat)
    requires b in batches && Covers(b, b.kind, p)
    ensures Copies(batches, b.kind, p) >= 1
  {
    var last := |batches| - 1;
    if batches[last] == b {
    } else {
      assert b in batches[..last];
      CopiesCover(batches[..last], b, p);
    }
  }

  ghost predicate AllCommitted(s: State)
    requires |s.appended| == KINDS
  {
    forall kind, p: nat :: 0 <= kind < KINDS && p < |s.appended[kind]| ==> Copies(s.committed, kind, p) == 1
  }

  /**
   Once no flush is in flight, every record ever appended has been committed, exactly once, if and
   only if the buffers are empty and no step gave up a batch.
   */
  lemma {:induction false} AllCommittedIff(steps: seq<Step>, batchSize: nat, n: nat)
    requires n <= |steps|
    requires var s := Exec(steps, batchSize, n); InFlight(s.main) == InFlightTimer(s.timer) == []
    ensures AllCommitted(Exec(steps, batchSize, n)) <==>
      && Nothing(Exec(steps, batchSize, n).buffers)
      && forall i :: 0 <= i < n ==> GivenUp(Exec(steps, batchSize, i), steps[i]) == []
  {
    var s := Exec(steps, batchSize, n);
    NothingDropped(steps, batchSize, n);
    if s.dropped != [] {
      DroppedUncommitted(steps, batchSize, n);
    } else if Nothing(s.buffers) {
      forall kind, p: nat | 0 <= kind < KINDS && p < |s.appended[kind]|
        ensures Copies(s.committed, kind, p) == 1
      {
        ExactlyOnePlace(steps, batchSize, n, kind, p);
        assert s.buffers[kind] == [];
      }
    } else {
      var kind :| 0 <= kind < KINDS && s.buffers[kind] != [];
      RunConserves(steps, batchSize, n, kind);
      ExactlyOnePlace(steps, batchSize, n, kind, Cut(s, kind));
    }
  }

  lemma {:induction false} DroppedUncommitted(steps: seq<Step>, batchSize: nat, n: nat)
    requires n <= |steps| && Exec(steps, batchSize, n).dropped != []
    ensures !AllCommitted(Exec(steps, batchSize, n))
  {
    var s := Exec(steps, batchSize, n);
    BatchesAreRuns(steps, batchSize, n);
    var b := s.dropped[0];
    assert Contiguous(s, b);
    DroppedNotCommitted(steps, batchSize, n, b, b.start);
  }

  /** The shutdown flush fails while there are records in the buffers. */
  predicate LeavesBehind(s: State, step: Step) {
    step.MainFail? && s.main.LastFlush? && !Nothing(s.buffers)
  }

  /** The last flush has emptied what it has visited, and once the collector is gone the buffers are empty. */
  ghost predicate Emptying(s: State)
    requires |s.buffers| == KINDS
  {
    && (s.main.LastFlush? ==> forall k :: 0 <= k < s.main.flush.stage && k < KINDS ==> s.buffers[k] == [])
    && (MainFlushing(s.main) ==> s.main.flush.stage <= KINDS)
    && (s.main.Finished? ==> Nothing(s.buffers))
  }

  lemma {:induction false} StepEmpties(s: State, step: Step, batchSize: nat)
    requires |s.buffers| == |s.appended| == KINDS && Emptying(s) && !LeavesBehind(s, step)
    ensures |Next(s, step, batchSize).buffers| == KINDS && Emptying(Next(s, step, batchSize))
  {
  }

  lemma {:induction false} RunEmpties(steps: seq<Step>, batchSize: nat, n: nat)
    requires n <= |steps| && forall i :: 0 <= i < n ==> !LeavesBehind(Exec(steps, batchSize, i), steps[i])
    ensures Emptying(Exec(steps, batchSize, n))
  {
    hide Next, LeavesBehind, Nothing;
    if n == 0 {
      assert Emptying(START);
    } else {
      RunEmpties(steps, batchSize, n - 1);
      ExecStep(steps, batchSize, n - 1);
      hide Exec, Emptying;
      StepEmpties(Exec(steps, batchSize, n - 1), steps[n - 1], batchSize);
    }
  }

  /**
   A collector that has shut down, with its timer at rest, has committed every record it ever appended
   exactly once, unless a failed or cancelled flush gave up a batch or the last flush failed with records
   still buffered. Cancelling a timer that has nothing in flight, as every shutdown does, loses nothing.
   */
  lemma {:induction false} CleanShutdownCommitsAll(steps: seq<Step>, batchSize: nat, n: nat)
    requires n <= |steps|
    requires forall i :: 0 <= i < n ==>
      var s := Exec(steps, batchSize, i); GivenUp(s, steps[i]) == [] && !LeavesBehind(s, steps[i])
    ensures var s := Exec(steps, batchSize, n); s.main.Finished? && !s.timer.TimedFlush? ==> AllCommitted(s)
  {
    RunEmpties(steps, batchSize, n);
    var s := Exec(steps, batchSize, n);
    if s.main.Finished? && !s.timer.TimedFlush? {
      AllCommittedIff(steps, batchSize, n);
    }
  }

  /** A flush of the event loop that fails has visited every buffer: it is the commit that failed. */
  predicate FailsAtCommit(s: State, step: Step) {
    step.MainFail? && MainFlushing(s.main) ==> s.main.flush.stage == KINDS
  }

  lemma {:induction false} CommitFailuresLeaveNothing(steps: seq<Step>, batchSize: nat, n: nat)
    requires n <= |steps| && forall i :: 0 <= i < n ==> FailsAtCommit(Exec(steps, batchSize, i), steps[i])
    ensures Emptying(Exec(steps, batchSize, n))
  {
    hide Next, Nothing;
    if n == 0 {
      assert Emptying(START);
    } else {
      CommitFailuresLeaveNothing(steps, batchSize, n - 1);
      ExecStep(steps, batchSize, n - 1);
      NothingLeft(Exec(steps, batchSize, n - 1), steps[n - 1]);
      hide Exec, Emptying;
      StepEmpties(Exec(steps, batchSize, n - 1), steps[n - 1], batchSize);
    }
  }

  lemma {:induction false} NothingLeft(s: State, step: Step)
    requires |s.buffers| == KINDS && Emptying(s) && FailsAtCommit(s, step)
    ensures !LeavesBehind(s, step)
  {
  }

  /**
   Where it is only commits that fail, a collector that has shut down, with its timer at rest, has committed
   every record exactly once if and only if no step gave up a batch.
   */
  lemma {:induction false} ShutdownCommitsAllIff(steps: seq<Step>, batchSize: nat, n: nat)
    requires n <= |steps| && forall i :: 0 <= i < n ==> FailsAtCommit(Exec(steps, batchSize, i), steps[i])
    requires Exec(steps, batchSize, n).main.Finished? && !Exec(steps, batchSize, n).timer.TimedFlush?
    ensures AllCommitted(Exec(steps, batchSize, n)) <==>
      forall i :: 0 <= i < n ==> GivenUp(Exec(steps, batchSize, i), steps[i]) == []
  {
    CommitFailuresLeaveNothing(steps, batchSize, n);
    AllCommittedIff(steps, batchSize, n);
  }

  /** Once the event loop has left its stream nothing is received any more. */
  lemma {:induction false} IntakeEnds(steps: seq<Step>, batchSize: nat, i: nat, n: nat)
    requires i <= n <= |steps| && !Running(Exec(steps, batchSize, i).main)
    ensures !Running(Exec(steps, batchSize, n).main)
    ensures Exec(steps, batchSize, n).appended == Exec(steps, batchSize, i).appended
  {
    hide Nothing, Full;
    if n == i {
    } else {
      IntakeEnds(steps, batchSize, i, n - 1);
      ExecStep(steps, batchSize, n - 1);
    }
  }

  /**
   A failed flush of the event loop ends the intake for good: it leaves the stream. A failed timed flush does
   not: the background task goes back to sleep and the event loop is not touched.
   */
  lemma {:induction false} FailureEndsIntake(steps: seq<Step>, batchSize: nat, i: nat, n: nat)
    requires i < n <= |steps|
    ensures var s := Exec(steps, batchSize, i);
      && (steps[i].MainFail? && MainFlushing(s.main) ==>
            Exec(steps, batchSize, n).appended == s.appended && !Running(Exec(steps, batchSize, n).main))
      && (steps[i].TimerFail? && s.timer.TimedFlush? && Running(s.main) ==>
            Exec(steps, batchSize, i + 1).timer == Sleeping && Exec(steps, batchSize, i + 1).main == s.main)
  {
    hide Nothing, Full;
    ExecStep(steps, batchSize, i);
    hide Exec;
    if !Running(Exec(steps, batchSize, i + 1).main) {
      IntakeEnds(steps, batchSize, i + 1, n);
    }
  }

  // ----- the routine in one piece

  /** The non-empty buffers among the first `n`, with their kinds, in the order a flush visits them. */
  function NonEmpty(buffers: seq<seq<Record>>, n: nat): seq<(nat, seq<Record>)>
    requires n <= |buffers|
  {
    if n == 0 then [] else NonEmpty(buffers, n - 1) + if buffers[n - 1] == [] then [] else [(n - 1, buffers[n - 1])]
  }

  /** The collector object: one buffer per kind, appended to, copied and cleared in place. */
  class DeltaCollectorRunner {
    const batchSize: nat
    var ticksBuf: seq<Record>
    var tradesBuf: seq<Record>
    var candlesBuf: seq<Record>
    var orderbookBuf: seq<Record>
    var fundingBuf: seq<Record>

    constructor (batchSize: nat)
      ensures Buffers() == Blank() && this.batchSize == batchSize
    {
      this.batchSize := batchSize;
      ticksBuf, tradesBuf, candlesBuf, orderbookBuf, fundingBuf := [], [], [], [], [];
    }

    function Buffers(): seq<seq<Record>>
      reads this
    {
      [ticksBuf, tradesBuf, candlesBuf, orderbookBuf, fundingBuf]
    }

    method Append(kind: nat, record: Record)
      requires kind < KINDS
      modifies this
      ensures Buffers() == old(Buffers())[kind := old(Buffers())[kind] + [record]]
    {
      if kind == 0 {
        ticksBuf := ticksBuf + [record];
      } else if kind == 1 {
        tradesBuf := tradesBuf + [record];
      } else if kind == 2 {
        candlesBuf := candlesBuf + [record];
      } else if kind == 3 {
        orderbookBuf := orderbookBuf + [record];
      } else {
        fundingBuf := fundingBuf + [record];
      }
    }

    /** A flush nobody interrupts: it hands over every buffered record, kind by kind, and leaves nothing behind. */
    method FlushBuffers() returns (written: seq<(nat, seq<Record>)>)
      modifies this
      ensures Buffers() == Blank()
      ensures written == NonEmpty(old(Buffers()), KINDS)
    {
      written := [];
      if ticksBuf == [] && tradesBuf == [] && candlesBuf == [] && orderbookBuf == [] && fundingBuf == [] {
        return;
      }
      if ticksBuf != [] {
        written := written + [(0, ticksBuf)];
        ticksBuf := [];
      }
      assert written == NonEmpty(old(Buffers()), 1);
      if tradesBuf != [] {
        written := written + [(1, tradesBuf)];
        tradesBuf := [];
      }
      assert written == NonEmpty(old(Buffers()), 2);
      if candlesBuf != [] {
        written := written + [(2, candlesBuf)];
        candlesBuf := [];
      }
      assert written == NonEmpty(old(Buffers()), 3);
      if orderbookBuf != [] {
        written := written + [(3, orderbookBuf)];
        orderbookBuf := [];
      }
      assert written == NonEmpty(old(Buffers()), 4);
      if fundingBuf != [] {
        written := written + [(4, fundingBuf)];
        fundingBuf := [];
      }
    }

    /** One event: append, then flush if a sized buffer has reached the batch size. */
    method ProcessRecord(kind: nat, record: Record) returns (written: seq<(nat, seq<Record>)>)
      requires kind < KINDS && batchSize >= 1
      modifies this
      ensures var after := old(Buffers())[kind := old(Buffers())[kind] + [record]];
        if Full(after, batchSize) then Buffers() == Blank() && written == NonEmpty(after, KINDS)
        else Buffers() == after && written == []
    {
      Append(kind, record);
      written := [];
      if |ticksBuf| >= batchSize || |tradesBuf| >= batchSize || |candlesBuf| >= batchSize {
        assert Full(Buffers(), batchSize) by {
          assert |Buffers()[0]| >= batchSize || |Buffers()[1]| >= batchSize || |Buffers()[2]| >= batchSize;
        }
        written := FlushBuffers();
      }
    }
  }

  /** `n` takes of the event loop's flush in a row. */
  function Takes(s: State, batchSize: nat, n: nat): (t: State)
    requires |s.buffers| == |s.appended| == KINDS
    ensures |t.buffers| == |t.appended| == KINDS
  {
    if n == 0 then s
    else
      var t := Takes(s, batchSize, n - 1);
      NextShape(t, MainTake, batchSize);
      Next(t, MainTake, batchSize)
  }

  function Contents(batches: seq<Batch>): seq<(nat, seq<Record>)> {
    if batches == [] then []
    else Contents(batches[..|batches| - 1]) + [(batches[|batches| - 1].kind, batches[|batches| - 1].records)]
  }

  /** Step by step and without interruption, the flush does what FlushBuffers does in one piece. */
  lemma {:induction false} UninterruptedFlush(s: State, batchSize: nat, n: nat)
    requires |s.buffers| == |s.appended| == KINDS && n <= KINDS
    requires MainFlushing(s.main) && s.main.flush.stage == 0 && s.main.flush.pending == []
    ensures var t := Takes(s, batchSize, n);
      && MainFlushing(t.main) && t.main.flush.stage == n
      && Contents(t.main.flush.pending) == NonEmpty(s.buffers, n)
      && forall k :: 0 <= k < KINDS ==> t.buffers[k] == if k < n then [] else s.buffers[k]
  {
    hide Next, Contents;
    if n == 0 {
      NoContents();
    } else {
      UninterruptedFlush(s, batchSize, n - 1);
      TakesStep(s, batchSize, n);
      hide Takes;
      TakeOne(Takes(s, batchSize, n - 1), batchSize);
      assert NonEmpty(s.buffers, n) ==
        NonEmpty(s.buffers, n - 1) + if s.buffers[n - 1] == [] then [] else [(n - 1, s.buffers[n - 1])];
      hide NonEmpty;
    }
  }

  lemma {:induction false} NoContents()
    ensures Contents([]) == []
  {
  }

  lemma {:induction false} TakesStep(s: State, batchSize: nat, n: nat)
    requires |s.buffers| == |s.appended| == KINDS && n >= 1
    ensures Takes(s, batchSize, n) == Next(Takes(s, batchSize, n - 1), MainTake, batchSize)
  {
  }

  lemma {:induction false} TakeOne(t: State, batchSize: nat)
    requires |t.buffers| == |t.appended| == KINDS && MainFlushing(t.main) && t.main.flush.stage < KINDS
    ensures var k, u := t.main.flush.stage, Next(t, MainTake, batchSize);
      && MainFlushing(u.main) && u.main.flush.stage == k + 1
      && u.buffers == t.buffers[k := []]
      && Contents(u.main.flush.pending) ==
        Contents(t.main.flush.pending) + if t.buffers[k] == [] then [] else [(k, t.buffers[k])]
  {
  }
}
