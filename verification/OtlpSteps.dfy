/** Concurrent ExportEvents and Shutdown calls on one OTLP exporter
    (adapters/export/otlp/otlp.go): flags, the one-slot semaphore, and the SDK's
    queue, at the granularity of their atomic steps. */
module OtlpSteps {
  import opened Wrappers
  import opened OtlpSink

  /** Where a goroutine stands. late: the sink was already stopped when the call
      began. older (for proofs only): how many records in the queue are not from
      the batch being emitted. */
  datatype Worker =
    | Idle
      // ExportEvents
    | Checking(batch: seq<Record>, late: bool)
    | Acquiring(batch: seq<Record>, late: bool)
    | Holding(batch: seq<Record>, late: bool)
    | Emitting(batch: seq<Record>, late: bool, start: nat, next: nat, older: nat)
    | Leaving(batch: seq<Record>, late: bool, err: Option<EmitError>, emitted: nat)
      // Shutdown
    | Shutting
    | Marking
    | AwaitingSlot
    | Stopping
    | StopLeaving

  /** How an ExportEvents call ended: its answer, how many of its records it had
      given to the SDK, and how much the SDK had handed over by then. */
  datatype Report = Report(batch: seq<Record>, late: bool, err: Option<EmitError>, emitted: nat, at: nat)

  datatype State = State(
    flag: bool, stopped: bool, slot: Option<nat>, provider: Provider, workers: seq<Worker>,
    reports: seq<Report>)

  /** drains: whether a failing flush empties the queue all the same. */
  datatype Config = Config(goroutines: nat, drains: bool)

  ghost predicate Init(c: Config, s: State) {
    s == State(false, false, None, NEW_PROVIDER, seq(c.goroutines, _ => Idle), [])
  }

  datatype Move =
    // ExportEvents
    | Export(batch: seq<Record>)
    | CheckFlag
    | TakeSlot
    | GiveUp
    | CheckStopped
    | EmitOne
    | FlushChunk(answer: FlushAnswer)
    | Release
      // Shutdown of the exporter, or of the sink directly
    | Shutdown
    | ShutdownSink
    | SwapFlag
    | Mark
    | TakeSlotToStop
    | Abandon
    | StopProvider(answer: FlushAnswer)
    | ReleaseAfterStop
      // the SDK's own timer
    | Background(k: nat)

  predicate Enabled(c: Config, s: State, t: nat, m: Move) {
    && t < |s.workers|
    && var w := s.workers[t];
       match m
       case Export(_) => w.Idle?
       case CheckFlag => w.Checking?
       case TakeSlot => w.Acquiring? && s.slot.None?
       case GiveUp => w.Acquiring?
       case CheckStopped => w.Holding?
       case EmitOne => w.Emitting? && w.next < ChunkEnd(w.start, |w.batch|)
       case FlushChunk(answer) =>
         && w.Emitting? && w.next >= ChunkEnd(w.start, |w.batch|)
         && (c.drains && answer.FlushFailed? ==> answer.left == 0)
       case Release => w.Leaving?
       case Shutdown => w.Idle?
       case ShutdownSink => w.Idle?
       case SwapFlag => w.Shutting?
       case Mark => w.Marking?
       case TakeSlotToStop => w.AwaitingSlot? && s.slot.None?
       case Abandon => w.AwaitingSlot?
       case StopProvider(_) => w.Stopping?
       case ReleaseAfterStop => w.StopLeaving?
       case Background(k) => k <= |s.provider.queue|
  }

  function Go(s: State, t: nat, w: Worker): State
    requires t < |s.workers|
  {
    s.(workers := s.workers[t := w])
  }

  function Answer(s: State, t: nat, batch: seq<Record>, late: bool, err: Option<EmitError>, emitted: nat): State
    requires t < |s.workers|
  {
    Go(s, t, Idle).(reports := s.reports + [Report(batch, late, err, emitted, |s.provider.handed|)])
  }

  function Minus(a: nat, b: nat): nat { if a <= b then 0 else a - b }

  /** A drain of k takes the older records first. */
  function Drain(w: Worker, k: nat): Worker {
    if w.Emitting? then w.(older := Minus(w.older, k)) else w
  }

  function AfterEmit(p: Provider, w: Worker): Worker
    requires w.Emitting?
  {
    w.(next := w.next + 1,
       older := if p.stoppedAt.None? && |p.queue| >= EVENT_QUEUE_SIZE then Minus(w.older, 1) else w.older)
  }

  function AfterFlush(w: Worker, answer: FlushAnswer): Worker
    requires w.Emitting?
  {
    if answer.FlushFailed? then Leaving(w.batch, w.late, Some(FlushError), w.next)
    else if ChunkEnd(w.start, |w.batch|) < |w.batch| then
      Emitting(w.batch, w.late, w.start + EVENT_QUEUE_SIZE, w.start + EVENT_QUEUE_SIZE, 0)
    else Leaving(w.batch, w.late, None, w.next)
  }

  function Apply(c: Config, s: State, t: nat, m: Move): State
    requires Enabled(c, s, t, m)
  {
    var w := s.workers[t];
    match m
    case Export(batch) =>
      if batch == [] then Answer(s, t, batch, s.stopped, None, 0) else Go(s, t, Checking(batch, s.stopped))
    case CheckFlag =>
      if s.flag then Answer(s, t, w.batch, w.late, Some(Stopped), 0) else Go(s, t, Acquiring(w.batch, w.late))
    case TakeSlot => Go(s, t, Holding(w.batch, w.late)).(slot := Some(t))
    case GiveUp => Answer(s, t, w.batch, w.late, Some(CtxExpired), 0)
    case CheckStopped =>
      if s.stopped then Go(s, t, Leaving(w.batch, w.late, Some(Stopped), 0))
      else Go(s, t, Emitting(w.batch, w.late, 0, 0, |s.provider.queue|))
    case EmitOne =>
      Go(s, t, AfterEmit(s.provider, w)).(provider := Enqueue(s.provider, w.batch[w.next]))
    case FlushChunk(answer) =>
      Go(s, t, AfterFlush(w, answer)).(provider := Flush(s.provider, answer))
    case Release => Answer(s, t, w.batch, w.late, w.err, w.emitted).(slot := None)
    case Shutdown => Go(s, t, Shutting)
    case ShutdownSink => Go(s, t, Marking)
    case SwapFlag => if s.flag then Go(s, t, Idle) else Go(s, t, Marking).(flag := true)
    case Mark => Go(s, t, AwaitingSlot).(stopped := true)
    case TakeSlotToStop => Go(s, t, Stopping).(slot := Some(t))
    case Abandon => Go(s, t, Idle)
    case StopProvider(answer) => Go(s, t, StopLeaving).(provider := Stop(s.provider, answer))
    case ReleaseAfterStop => Go(s, t, Idle).(slot := None)
    case Background(k) =>
      s.(provider := HandOver(s.provider, k),
         workers := seq(|s.workers|, u requires 0 <= u < |s.workers| => Drain(s.workers[u], k)))
  }

  // ---- the slot ----

  predicate Holds(w: Worker) {
    w.Holding? || w.Emitting? || w.Leaving? || w.Stopping? || w.StopLeaving?
  }

  ghost predicate SlotKept(s: State) {
    forall t :: 0 <= t < |s.workers| ==> (Holds(s.workers[t]) <==> s.slot == Some(t))
  }

  lemma SlotKeptByMove(c: Config, s: State, t: nat, m: Move)
    requires SlotKept(s) && Enabled(c, s, t, m)
    ensures SlotKept(Apply(c, s, t, m))
  {
  }

  // ---- what each goroutine may rely on ----

  /** Between its records: the newest part of the queue is the batch's, what is
      older waits before all of it, and what left the queue is the end of what
      was handed over. */
  ghost predicate InOrder(w: Worker, p: Provider)
    requires w.Emitting?
  {
    && w.start < |w.batch| && w.start <= w.next <= |w.batch| && w.next <= w.start + EVENT_QUEUE_SIZE
    && w.older <= |p.queue| <= EVENT_QUEUE_SIZE
    && var gone := w.next - (|p.queue| - w.older);
       && w.start <= gone <= |p.handed|
       && (w.older > 0 ==> gone == 0)
       && (forall j :: gone <= j < w.next ==> w.batch[j] == p.queue[w.older - gone + j])
       && (forall j :: 0 <= j < gone ==> w.batch[j] == p.handed[|p.handed| - gone + j])
  }

  ghost predicate WorkerOk(s: State, w: Worker) {
    match w
    case Checking(batch, late) => batch != [] && (late ==> s.stopped)
    case Acquiring(batch, late) => batch != [] && (late ==> s.stopped)
    case Holding(batch, late) => batch != [] && (late ==> s.stopped)
    case Emitting(batch, late, _, _, _) =>
      batch != [] && !late && s.provider.stoppedAt.None? && InOrder(w, s.provider)
    case Leaving(batch, late, err, emitted) =>
      && batch != [] && (err.None? ==> !late && s.provider.stoppedAt.None? && EndsWith(s.provider.handed, batch)
                                       && s.provider.queue == [])
      && (err.Some? && err.value != FlushError ==> emitted == 0)
      && (err != Some(Stopped) ==> s.provider.stoppedAt.None?)
    case _ => true
  }

  ghost predicate ProviderOk(s: State) {
    && s.provider.discarded == [] && |s.provider.queue| <= EVENT_QUEUE_SIZE
    && (s.provider.stoppedAt.Some? ==> s.stopped && s.provider.stoppedAt.value <= |s.provider.handed|)
  }

  /** A success means its batch was handed over in one piece while the provider
      ran; the two refusals gave the SDK nothing. */
  ghost predicate ReportOk(r: Report, p: Provider) {
    && r.at <= |p.handed|
    && (r.err.None? ==> EndsWith(p.handed[..r.at], r.batch))
    && (r.err.None? && p.stoppedAt.Some? && r.batch != [] ==> r.at <= p.stoppedAt.value)
    && (r.err.None? && r.late ==> r.batch == [])
    && (r.err.Some? && r.err.value != FlushError ==> r.emitted == 0)
  }

  ghost predicate Sound(s: State) {
    && SlotKept(s) && ProviderOk(s)
    && (forall t :: 0 <= t < |s.workers| ==> WorkerOk(s, s.workers[t]))
    && (forall i :: 0 <= i < |s.reports| ==> ReportOk(s.reports[i], s.provider))
    && (forall t :: 0 <= t < |s.workers| && (s.workers[t].AwaitingSlot? || s.workers[t].Stopping?) ==> s.stopped)
  }

  // ---- emitting ----

  /** A record pushed out is always an older one: a chunk fits the queue. */
  lemma EmitKeepsOrder(w: Worker, p: Provider)
    requires w.Emitting? && InOrder(w, p) && p.stoppedAt.None? && w.next < ChunkEnd(w.start, |w.batch|)
    ensures InOrder(AfterEmit(p, w), Enqueue(p, w.batch[w.next]))
    ensures |p.queue| >= EVENT_QUEUE_SIZE ==> w.older > 0
  {
  }

  /** A drain takes the older records, then the oldest of the batch. */
  lemma DrainKeepsOrder(w: Worker, p: Provider, k: nat)
    requires w.Emitting? && InOrder(w, p) && k <= |p.queue|
    ensures InOrder(Drain(w, k), HandOver(p, k))
  {
  }

  /** A drained chunk leaves everything so far at the end of what was handed over. */
  lemma FlushedInOrder(w: Worker, p: Provider)
    requires w.Emitting? && InOrder(w, p)
    ensures var p' := Flush(p, Drained); p'.queue == [] && EndsWith(p'.handed, w.batch[..w.next])
  {
  }

  lemma FlushKeepsWorker(c: Config, s: State, t: nat, answer: FlushAnswer)
    requires Enabled(c, s, t, FlushChunk(answer)) && WorkerOk(s, s.workers[t])
    ensures var s' := Apply(c, s, t, FlushChunk(answer)); WorkerOk(s', s'.workers[t])
  {
    var w := s.workers[t];
    if answer.Drained? {
      FlushedInOrder(w, s.provider);
      if ChunkEnd(w.start, |w.batch|) >= |w.batch| {
        assert w.batch[..w.next] == w.batch;
      }
    }
  }

  // ---- every move keeps it ----

  lemma CheckKeepsWorker(c: Config, s: State, t: nat)
    requires Enabled(c, s, t, CheckStopped) && WorkerOk(s, s.workers[t]) && ProviderOk(s)
    ensures var s' := Apply(c, s, t, CheckStopped); WorkerOk(s', s'.workers[t])
  {
  }

  lemma EmitKeepsWorker(c: Config, s: State, t: nat)
    requires Enabled(c, s, t, EmitOne) && WorkerOk(s, s.workers[t])
    ensures var s' := Apply(c, s, t, EmitOne); WorkerOk(s', s'.workers[t])
  {
    EmitKeepsOrder(s.workers[t], s.provider);
  }

  lemma MoverKept(c: Config, s: State, t: nat, m: Move)
    requires ProviderOk(s) && Enabled(c, s, t, m) && WorkerOk(s, s.workers[t]) && !m.Background?
    ensures WorkerOk(Apply(c, s, t, m), Apply(c, s, t, m).workers[t])
  {
    if m.CheckStopped? {
      CheckKeepsWorker(c, s, t);
    } else if m.EmitOne? {
      EmitKeepsWorker(c, s, t);
    } else if m.FlushChunk? {
      FlushKeepsWorker(c, s, t, m.answer);
    } else {
      QuietMoverKept(c, s, t, m);
    }
  }

  lemma QuietMoverKept(c: Config, s: State, t: nat, m: Move)
    requires Enabled(c, s, t, m) && WorkerOk(s, s.workers[t])
    requires !m.Background? && !m.CheckStopped? && !m.EmitOne? && !m.FlushChunk?
    ensures WorkerOk(Apply(c, s, t, m), Apply(c, s, t, m).workers[t])
  {
  }

  lemma OtherKept(c: Config, s: State, t: nat, m: Move, u: nat)
    requires Sound(s) && Enabled(c, s, t, m) && !m.Background? && u < |s.workers| && u != t
    ensures Apply(c, s, t, m).workers[u] == s.workers[u] && WorkerOk(Apply(c, s, t, m), s.workers[u])
  {
    var s' := Apply(c, s, t, m);
    if s'.provider != s.provider {
      assert Holds(s.workers[t]);
      assert !Holds(s.workers[u]);
    }
  }

  lemma BackgroundKept(c: Config, s: State, t: nat, k: nat, u: nat)
    requires Sound(s) && Enabled(c, s, t, Background(k)) && u < |s.workers|
    ensures var s' := Apply(c, s, t, Background(k)); WorkerOk(s', s'.workers[u])
  {
    var w := s.workers[u];
    if w.Emitting? {
      DrainKeepsOrder(w, s.provider, k);
    } else if w.Leaving? && w.err.None? {
      assert s.provider.queue[..k] == [] && s.provider.handed + [] == s.provider.handed;
    }
  }

  /** What was handed over stays; stopping comes after every report so far. */
  ghost predicate Later(p: Provider, p': Provider) {
    && |p.handed| <= |p'.handed| && p'.handed[..|p.handed|] == p.handed
    && (p'.stoppedAt == p.stoppedAt || (p.stoppedAt.None? && p'.stoppedAt == Some(|p.handed|)))
  }

  lemma ReportSurvives(r: Report, p: Provider, p': Provider)
    requires ReportOk(r, p) && Later(p, p')
    ensures ReportOk(r, p')
  {
    assert p'.handed[..r.at] == p.handed[..r.at];
  }

  lemma MoveIsLater(c: Config, s: State, t: nat, m: Move)
    requires Sound(s) && Enabled(c, s, t, m)
    ensures Later(s.provider, Apply(c, s, t, m).provider)
  {
  }

  lemma ProviderKept(c: Config, s: State, t: nat, m: Move)
    requires Sound(s) && Enabled(c, s, t, m)
    ensures ProviderOk(Apply(c, s, t, m))
  {
  }

  lemma ReportsKept(c: Config, s: State, t: nat, m: Move)
    requires Sound(s) && Enabled(c, s, t, m)
    ensures var s' := Apply(c, s, t, m); forall i :: 0 <= i < |s'.reports| ==> ReportOk(s'.reports[i], s'.provider)
  {
    var s' := Apply(c, s, t, m);
    MoveIsLater(c, s, t, m);
    forall i | 0 <= i < |s'.reports|
      ensures ReportOk(s'.reports[i], s'.provider)
    {
      if i < |s.reports| {
        ReportSurvives(s.reports[i], s.provider, s'.provider);
      } else {
        NewReportOk(c, s, t, m);
      }
    }
  }

  lemma NewReportOk(c: Config, s: State, t: nat, m: Move)
    requires Sound(s) && Enabled(c, s, t, m)
    ensures var s' := Apply(c, s, t, m);
            |s'.reports| > |s.reports| ==>
              |s'.reports| == |s.reports| + 1 && ReportOk(s'.reports[|s.reports|], s'.provider)
  {
    assert s.provider.handed[..|s.provider.handed|] == s.provider.handed;
  }

  lemma MoveIsSound(c: Config, s: State, t: nat, m: Move)
    requires Sound(s) && Enabled(c, s, t, m)
    ensures Sound(Apply(c, s, t, m))
  {
    var s' := Apply(c, s, t, m);
    SlotKeptByMove(c, s, t, m);
    ProviderKept(c, s, t, m);
    ReportsKept(c, s, t, m);
    forall u | 0 <= u < |s'.workers|
      ensures WorkerOk(s', s'.workers[u])
    {
      if m.Background? {
        BackgroundKept(c, s, t, m.k, u);
      } else if u == t {
        MoverKept(c, s, t, m);
      } else {
        OtherKept(c, s, t, m, u);
      }
    }
  }

  // ---- whole runs ----

  ghost predicate StepsTo(c: Config, s: State, s': State) {
    exists t: nat, m :: Enabled(c, s, t, m) && s' == Apply(c, s, t, m)
  }

  ghost predicate IsRun(c: Config, states: seq<State>) {
    && |states| > 0 && Init(c, states[0])
    && forall i, j :: 0 <= i && j == i + 1 < |states| ==> StepsTo(c, states[i], states[j])
  }

  lemma {:induction false} RunIsSound(c: Config, states: seq<State>, i: nat)
    requires IsRun(c, states) && i < |states|
    ensures Sound(states[i])
  {
    if i > 0 {
      RunIsSound(c, states, i - 1);
      assert StepsTo(c, states[i - 1], states[i]);
      var t: nat, m :| Enabled(c, states[i - 1], t, m) && states[i] == Apply(c, states[i - 1], t, m);
      MoveIsSound(c, states[i - 1], t, m);
    }
  }

  /** No interleaving lets a record reach a stopped provider. */
  lemma NothingReachesAStoppedProvider(c: Config, states: seq<State>, i: nat)
    requires IsRun(c, states) && i < |states|
    ensures states[i].provider.discarded == []
  {
    RunIsSound(c, states, i);
  }

  /** A call that returned nil had its whole batch handed over, in order and in
      one piece, before the provider was stopped, and did not begin after the sink
      was; one that was refused or gave up left nothing behind. */
  lemma ReportsAreHonest(c: Config, states: seq<State>, i: nat, k: nat)
    requires IsRun(c, states) && i < |states| && k < |states[i].reports|
    ensures var r, p := states[i].reports[k], states[i].provider;
            && r.at <= |p.handed|
            && (r.err.None? ==> EndsWith(p.handed[..r.at], r.batch))
            && (r.err.None? && p.stoppedAt.Some? && r.batch != [] ==> r.at <= p.stoppedAt.value)
            && (r.err.None? && r.late ==> r.batch == [])
            && (r.err == Some(Stopped) || r.err == Some(CtxExpired) ==> r.emitted == 0)
  {
    RunIsSound(c, states, i);
    assert ReportOk(states[i].reports[k], states[i].provider);
  }

  // ---- a closed exporter stays closed ----

  /** Past the exporter's own check. */
  predicate PastFlag(w: Worker) { w.Acquiring? || w.Holding? || w.Emitting? || w.Leaving? }

  lemma MoveKeepsClosed(c: Config, s: State, t: nat, m: Move, u: nat)
    requires Enabled(c, s, t, m) && u < |s.workers|
    ensures var s' := Apply(c, s, t, m);
            && |s'.workers| == |s.workers| && (s.flag ==> s'.flag)
            && (s.flag && !PastFlag(s.workers[u]) ==> !PastFlag(s'.workers[u]))
            && (s.workers[u].Shutting? && !s'.workers[u].Shutting? ==> s'.flag)
  {
    hide Enqueue, HandOver, Flush, Stop, ChunkEnd;
  }

  /** Once some Shutdown of the exporter is past its first step, the exporter is
      closed ... */
  lemma {:induction false} ShutdownCloses(c: Config, states: seq<State>, i: nat, j: nat, u: nat)
    requires IsRun(c, states) && i <= j < |states| && u < |states[i].workers| && states[i].workers[u].Shutting?
    ensures |states[j].workers| == |states[i].workers| && (states[j].workers[u].Shutting? || states[j].flag)
  {
    hide Apply, Enabled, Init;
    if i < j {
      ShutdownCloses(c, states, i, j - 1, u);
      assert StepsTo(c, states[j - 1], states[j]);
      var t: nat, m :| Enabled(c, states[j - 1], t, m) && states[j] == Apply(c, states[j - 1], t, m);
      MoveKeepsClosed(c, states[j - 1], t, m, u);
    }
  }

  /** ... and no call that is not past its check by then ever gets to the sink. */
  lemma {:induction false} ClosedRefuses(c: Config, states: seq<State>, i: nat, j: nat, u: nat)
    requires IsRun(c, states) && i <= j < |states| && u < |states[i].workers|
    requires states[i].flag && !PastFlag(states[i].workers[u])
    ensures |states[j].workers| == |states[i].workers| && states[j].flag && !PastFlag(states[j].workers[u])
  {
    hide Apply, Enabled, Init, PastFlag;
    if i < j {
      ClosedRefuses(c, states, i, j - 1, u);
      assert StepsTo(c, states[j - 1], states[j]);
      var t: nat, m :| Enabled(c, states[j - 1], t, m) && states[j] == Apply(c, states[j - 1], t, m);
      MoveKeepsClosed(c, states[j - 1], t, m, u);
    }
  }

  // ---- a call past the sink's check ----

  /** Past the check of the stopped flag, and not yet done. */
  predicate Delivering(w: Worker, batch: seq<Record>) {
    || (w.Emitting? && w.batch == batch)
    || (w.Leaving? && w.batch == batch && (w.err.None? || w.err == Some(FlushError)))
  }

  lemma StillDelivering(c: Config, s: State, t: nat, m: Move, u: nat, batch: seq<Record>)
    requires Sound(s) && Enabled(c, s, t, m) && u < |s.workers| && Delivering(s.workers[u], batch)
    ensures var s' := Apply(c, s, t, m);
            if t == u && m.Release? then
              s'.workers[u].Idle? && |s'.reports| == |s.reports| + 1 && s'.reports[|s.reports|].batch == batch
              && (s'.reports[|s.reports|].err.None? || s'.reports[|s.reports|].err == Some(FlushError))
            else u < |s'.workers| && Delivering(s'.workers[u], batch)
    ensures s.provider.stoppedAt.None?
    ensures !m.StopProvider?
  {
    assert WorkerOk(s, s.workers[u]);
    assert Holds(s.workers[u]);
  }

  /** Once past the check a call outlasts every Shutdown: whichever of them mark the
      sink, wait or give up meanwhile, the provider runs until the call releases the
      slot, and nothing it emits is discarded. */
  lemma {:induction false} EmitOutlastsShutdowns(c: Config, states: seq<State>, i: nat, j: nat, t: nat, batch: seq<Record>)
    requires IsRun(c, states) && i <= j < |states|
    requires t < |states[i].workers| && Delivering(states[i].workers[t], batch)
    requires forall k :: i <= k <= j ==> t < |states[k].workers| && !states[k].workers[t].Idle?
    ensures Delivering(states[j].workers[t], batch)
    ensures states[j].provider.stoppedAt.None? && states[j].provider.discarded == []
  {
    hide Sound, Delivering, Apply, Enabled, Init;
    RunIsSound(c, states, j);
    if i < j {
      EmitOutlastsShutdowns(c, states, i, j - 1, t, batch);
      RunIsSound(c, states, j - 1);
      assert StepsTo(c, states[j - 1], states[j]);
      var u: nat, m :| Enabled(c, states[j - 1], u, m) && states[j] == Apply(c, states[j - 1], u, m);
      StillDelivering(c, states[j - 1], u, m, t, batch);
    }
    RunsWhileDelivering(states[j], t, batch);
  }

  lemma RunsWhileDelivering(s: State, t: nat, batch: seq<Record>)
    requires Sound(s) && t < |s.workers| && Delivering(s.workers[t], batch)
    ensures s.provider.stoppedAt.None? && s.provider.discarded == []
  {
    assert WorkerOk(s, s.workers[t]);
  }

  /** ... and then answers nil or the flush's error, never that the sink is stopped. */
  lemma DeliveredIsNotRefused(c: Config, states: seq<State>, j: nat, t: nat, batch: seq<Record>)
    requires IsRun(c, states) && j + 1 < |states|
    requires t < |states[j].workers| && Delivering(states[j].workers[t], batch)
    requires t < |states[j + 1].workers| && states[j + 1].workers[t].Idle?
    ensures var before, after := states[j].reports, states[j + 1].reports;
            && |after| == |before| + 1 && after[|before|].batch == batch
            && (after[|before|].err.None? || after[|before|].err == Some(FlushError))
  {
    RunIsSound(c, states, j);
    assert StepsTo(c, states[j], states[j + 1]);
    var u: nat, m :| Enabled(c, states[j], u, m) && states[j + 1] == Apply(c, states[j], u, m);
    StillDelivering(c, states[j], u, m, t, batch);
    hide Sound, Apply, Enabled, Init;
  }

  lemma QueueNeverGrowsPastItsSize(c: Config, states: seq<State>, i: nat)
    requires IsRun(c, states) && i < |states|
    ensures |states[i].provider.queue| <= 2048
  {
    RunIsSound(c, states, i);
  }

  // ---- overwriting ----

  ghost predicate Reachable(c: Config, s: State) {
    exists states :: IsRun(c, states) && states[|states| - 1] == s
  }

  lemma ReachNext(c: Config, s: State, t: nat, m: Move)
    requires Reachable(c, s) && Enabled(c, s, t, m)
    ensures Reachable(c, Apply(c, s, t, m))
  {
    hide Init, Enabled, Apply;
    var states :| IsRun(c, states) && states[|states| - 1] == s;
    var more := states + [Apply(c, s, t, m)];
    assert StepsTo(c, s, Apply(c, s, t, m));
    forall i, j | 0 <= i && j == i + 1 < |more|
      ensures StepsTo(c, more[i], more[j])
    {
      if j < |states| {
        assert StepsTo(c, states[i], states[j]);
      }
    }
    assert more[|more| - 1] == Apply(c, s, t, m);
  }

  /** One goroutine, nobody stopping: what it does and what the SDK holds. */
  function Alone(w: Worker, p: Provider, reports: seq<Report>): State {
    State(false, false, if Holds(w) then Some(0) else None, p, [w], reports)
  }

  const ONE := Config(1, false)

  /** An idle goroutine comes to emit a batch. */
  lemma ReachEmitting(batch: seq<Record>, p: Provider, reports: seq<Report>)
    requires batch != [] && Reachable(ONE, Alone(Idle, p, reports))
    ensures Reachable(ONE, Alone(Emitting(batch, false, 0, 0, |p.queue|), p, reports))
  {
    ReachNext(ONE, Alone(Idle, p, reports), 0, Export(batch));
    ReachNext(ONE, Alone(Checking(batch, false), p, reports), 0, CheckFlag);
    ReachNext(ONE, Alone(Acquiring(batch, false), p, reports), 0, TakeSlot);
    ReachNext(ONE, Alone(Holding(batch, false), p, reports), 0, CheckStopped);
  }

  /** ... and gives the SDK the first n records of its first chunk. */
  lemma {:induction false} ReachEmitted(batch: seq<Record>, p: Provider, reports: seq<Report>, n: nat) returns (older: nat)
    requires batch != [] && Reachable(ONE, Alone(Idle, p, reports)) && p.stoppedAt.None? && |p.queue| <= EVENT_QUEUE_SIZE
    requires n <= ChunkEnd(0, |batch|)
    ensures Reachable(ONE, Alone(Emitting(batch, false, 0, n, older), EnqueueAll(p, batch[..n]), reports))
  {
    if n == 0 {
      ReachEmitting(batch, p, reports);
      older := |p.queue|;
      assert p.queue + batch[..0] == p.queue && EnqueueAll(p, batch[..0]) == p;
    } else {
      older := ReachEmitted(batch, p, reports, n - 1);
      var w, q := Emitting(batch, false, 0, n - 1, older), EnqueueAll(p, batch[..n - 1]);
      OneMoreRecord(p, batch, n);
      ReachOneMore(w, q, reports);
      older := AfterEmit(q, w).older;
    }
  }

  lemma ReachOneMore(w: Worker, p: Provider, reports: seq<Report>)
    requires w.Emitting? && w.next < ChunkEnd(w.start, |w.batch|) && Reachable(ONE, Alone(w, p, reports))
    ensures Reachable(ONE, Alone(AfterEmit(p, w), Enqueue(p, w.batch[w.next]), reports))
  {
    hide Reachable, Enqueue, ChunkEnd;
    ReachNext(ONE, Alone(w, p, reports), 0, EmitOne);
    assert [w][0 := AfterEmit(p, w)] == [AfterEmit(p, w)];
  }

  lemma ReachFailed(w: Worker, p: Provider, reports: seq<Report>, left: nat)
    requires w.Emitting? && w.next >= ChunkEnd(w.start, |w.batch|) && Reachable(ONE, Alone(w, p, reports))
    ensures var p' := Flush(p, FlushFailed(left));
            Reachable(ONE, Alone(Idle, p', reports + [Report(w.batch, w.late, Some(FlushError), w.next, |p'.handed|)]))
  {
    hide Reachable, Flush, ChunkEnd;
    var gone, p' := Leaving(w.batch, w.late, Some(FlushError), w.next), Flush(p, FlushFailed(left));
    ReachNext(ONE, Alone(w, p, reports), 0, FlushChunk(FlushFailed(left)));
    assert [w][0 := gone] == [gone];
    ReachNext(ONE, Alone(gone, p', reports), 0, Release);
    assert [gone][0 := Idle] == [Idle];
  }

  lemma OneMoreRecord(p: Provider, batch: seq<Record>, n: nat)
    requires p.stoppedAt.None? && |p.queue| <= EVENT_QUEUE_SIZE && 0 < n <= |batch|
    ensures EnqueueAll(p, batch[..n]) == Enqueue(EnqueueAll(p, batch[..n - 1]), batch[n - 1])
  {
    EnqueueAllSnoc(p, batch[..n], n - 1);
    assert batch[..n][..n - 1] == batch[..n - 1] && batch[..n][..n] == batch[..n];
  }

  lemma ReachStart()
    ensures Reachable(ONE, Alone(Idle, NEW_PROVIDER, []))
  {
    var start := Alone(Idle, NEW_PROVIDER, []);
    assert start.workers == seq(1, _ => Idle);
    assert IsRun(ONE, [start]) && [start][|[start]| - 1] == start;
  }

  /** A flush that fails and leaves its record in the queue. */
  lemma ReachLeftover() returns (reports: seq<Report>)
    ensures Reachable(ONE, Alone(Idle, NEW_PROVIDER.(queue := [7]), reports))
  {
    var p, w := NEW_PROVIDER.(queue := [7]), Emitting([7], false, 0, 1, 0);
    ReachStart();
    var older := ReachEmitted([7], NEW_PROVIDER, [], 1);
    assert [7][..1] == [7];
    ChunkAlone(NEW_PROVIDER, [7]);
    hide Reachable, EnqueueAll;
    ReachFailed(w.(older := older), p, [], 1);
    assert Flush(p, FlushFailed(1)) == p;
    reports := [] + [Report([7], false, Some(FlushError), 1, 0)];
  }

  /** ... which the full chunk of the next call overwrites. */
  lemma ALeftoverIsOverwritten() returns (s: State)
    ensures Reachable(ONE, s) && s.provider.overwritten == [7]
  {
    var reports := ReachLeftover();
    var batch: seq<Record>, p := seq(EVENT_QUEUE_SIZE, i => i), NEW_PROVIDER.(queue := [7]);
    var older := ReachEmitted(batch, p, reports, EVENT_QUEUE_SIZE);
    var chunk := batch[..EVENT_QUEUE_SIZE];
    s := Alone(Emitting(batch, false, 0, EVENT_QUEUE_SIZE, older), EnqueueAll(p, chunk), reports);
    assert |chunk| == EVENT_QUEUE_SIZE;
    LeftoversAreOverwritten(p, chunk);
    hide Reachable, EnqueueAll;
    assert [] + p.queue == [7];
  }

  /** If even a failing flush empties the queue, it is empty between batches. */
  ghost predicate NothingWaits(s: State) {
    && s.provider.overwritten == []
    && (forall t :: 0 <= t < |s.workers| && s.workers[t].Emitting? ==> s.workers[t].older == 0)
    && (s.provider.stoppedAt.None? && s.provider.queue != [] ==> SomeoneEmits(s))
  }

  ghost predicate SomeoneEmits(s: State) {
    s.slot.Some? && s.slot.value < |s.workers| && s.workers[s.slot.value].Emitting?
  }

  lemma NothingWaitsKept(c: Config, s: State, t: nat, m: Move)
    requires c.drains && Sound(s) && NothingWaits(s) && Enabled(c, s, t, m)
    ensures NothingWaits(Apply(c, s, t, m))
  {
    var s' := Apply(c, s, t, m);
    if m.EmitOne? {
      EmitKeepsOrder(s.workers[t], s.provider);
    }
    assert s'.provider.stoppedAt.None? && s'.provider.queue != [] ==> SomeoneEmits(s');
  }

  /** Then no record is ever overwritten, however many calls overlap and however
      long their batches. */
  lemma {:induction false} NothingIsOverwritten(c: Config, states: seq<State>, i: nat)
    requires c.drains && IsRun(c, states) && i < |states|
    ensures NothingWaits(states[i]) && states[i].provider.overwritten == []
  {
    if i > 0 {
      NothingIsOverwritten(c, states, i - 1);
      RunIsSound(c, states, i - 1);
      assert StepsTo(c, states[i - 1], states[i]);
      var t: nat, m :| Enabled(c, states[i - 1], t, m) && states[i] == Apply(c, states[i - 1], t, m);
      NothingWaitsKept(c, states[i - 1], t, m);
    }
  }
}
