/** The emitter under concurrency (emit/emitter.go): any number of goroutines
    interleave the critical sections of Record and of overlapping flushes, and
    every export may fail. */
module EmitterSteps {
  import opened Wrappers
  import opened DedupSet
  import opened Emitter

  datatype Config = Config(reg: Registry, bufSize: nat, dedupCap: int, goroutines: nat)

  /** Where a goroutine stands between two critical sections. */
  datatype Worker =
    | Idle
      // a call that still has points to append
    | Appending(points: seq<Point>)
      // a flush: events are with the exporter, or came back and are not counted yet
    | Sending(events: seq<Outcome>, points: seq<Point>)
    | EventsLost(events: seq<Outcome>, points: seq<Point>)
      // a flush: points are with the exporter, or came back and are not put back yet
    | SendingPoints(points: seq<Point>)
    | PointsLost(points: seq<Point>)

  /** view is what the lock guards. The rest is history: the valid calls so far,
      what became of each, what the backend accepted, and the metric points that did
      not fit the buffer or failed to export. */
  datatype State = State(
    view: View, workers: seq<Worker>,
    calls: multiset<Outcome>, admitted: seq<Outcome>, suppressed: multiset<Outcome>, overflowed: multiset<Outcome>,
    exported: multiset<Outcome>, lost: multiset<Outcome>, invalid: nat, sent: seq<Point>, spilled: seq<Point>)

  ghost predicate Init(c: Config, s: State) {
    s == State(View([], [], map[], 0, NOTHING, {}), seq(c.goroutines, _ => Idle),
               multiset{}, [], multiset{}, multiset{}, multiset{}, multiset{}, 0, [], [])
  }

  // ---- the steps ----

  /** One critical section, or one answer from the exporter. */
  datatype Move =
    | Observe(o: Outcome)
    | Refuse
    | Append(points: seq<Point>)
    | Take(taken: seq<Point>)
    | Appended
    | EventsAccepted
    | EventsFailed
    | CountLost
    | PointsAccepted
    | PointsFailed
    | PutBack

  /** What SetInFlight and RecordProviderCall append. */
  predicate OtherPoints(points: seq<Point>) {
    forall p :: p in points ==> p.InFlightValue? || p.InFlightCount? || p.ProviderCall?
  }

  ghost predicate Enabled(s: State, t: nat, m: Move) {
    && t < |s.workers|
    && var w := s.workers[t];
       match m
       case Observe(_) => w.Idle?
       case Refuse => w.Idle?
       case Append(points) => w.Idle? && OtherPoints(points)
       case Take(taken) => w.Idle? && Takes(s.view, taken)
       case Appended => w.Appending?
       case EventsAccepted => w.Sending?
       case EventsFailed => w.Sending?
       case CountLost => w.EventsLost?
       case PointsAccepted => w.SendingPoints?
       case PointsFailed => w.SendingPoints?
       case PutBack => w.PointsLost?
  }

  function Go(s: State, t: nat, w: Worker): State
    requires t < |s.workers|
  {
    s.(workers := s.workers[t := w])
  }

  function AfterEvents(points: seq<Point>): Worker {
    if points != [] then SendingPoints(points) else Idle
  }

  function AfterTaking(events: seq<Outcome>, points: seq<Point>): Worker {
    if events != [] then Sending(events, points) else AfterEvents(points)
  }

  function Judged(c: Config, s: State, t: nat, o: Outcome): State
    requires t < |s.workers|
  {
    var s' := s.(view := AdmissionStep(s.view, c.bufSize, c.dedupCap, o), calls := s.calls + multiset{o});
    match Judge(s.view, c.bufSize, o)
    case Overflowed => s'.(overflowed := s.overflowed + multiset{o})
    case Suppressed => s'.(suppressed := s.suppressed + multiset{o})
    case Admitted => Go(s', t, Appending(PointsOf(c.reg, o))).(admitted := s.admitted + [o])
  }

  ghost function Apply(c: Config, s: State, t: nat, m: Move): State
    requires Enabled(s, t, m)
  {
    var w := s.workers[t];
    match m
    case Observe(o) => Judged(c, s, t, o)
    case Refuse => s.(view := BumpStep(s.view, Invalid, 1), invalid := s.invalid + 1)
    case Append(points) => Go(s, t, Appending(points))
    case Take(taken) => Go(s, t, AfterTaking(s.view.events, taken)).(view := TakenStep(s.view))
    case Appended =>
      var k := Fitting(|s.view.points|, 8 * c.bufSize, |w.points|);
      Go(s, t, Idle).(view := AppendStep(s.view, 8 * c.bufSize, w.points), spilled := s.spilled + w.points[k..])
    case EventsAccepted => Go(s, t, AfterEvents(w.points)).(exported := s.exported + multiset(w.events))
    case EventsFailed => Go(s, t, EventsLost(w.events, w.points))
    case CountLost =>
      Go(s, t, AfterEvents(w.points)).(view := BumpStep(s.view, Export, |w.events|), lost := s.lost + multiset(w.events))
    case PointsAccepted => Go(s, t, Idle).(sent := s.sent + w.points)
    case PointsFailed => Go(s, t, PointsLost(w.points))
    case PutBack => Go(s, t, Idle).(view := CreditStep(s.view, w.points), spilled := s.spilled + w.points)
  }

  // ---- what goroutines hold between steps ----

  function HeldBy(w: Worker): multiset<Outcome> {
    if w.Sending? || w.EventsLost? then multiset(w.events) else multiset{}
  }

  function PointsHeldBy(w: Worker): seq<Point> {
    if w.Idle? then [] else w.points
  }

  /** How often an outcome is in a flush's hands. */
  function Held(workers: seq<Worker>, x: Outcome): nat {
    if workers == [] then 0 else Held(workers[..|workers| - 1], x) + HeldBy(workers[|workers| - 1])[x]
  }

  function DropsHeld(workers: seq<Worker>, r: Reason): nat {
    if workers == [] then 0
    else DropsHeld(workers[..|workers| - 1], r) + DropSum(PointsHeldBy(workers[|workers| - 1]), r)
  }

  lemma {:induction false} HeldUpdate(workers: seq<Worker>, t: nat, w: Worker, x: Outcome)
    requires t < |workers|
    ensures Held(workers[t := w], x) + HeldBy(workers[t])[x] == Held(workers, x) + HeldBy(w)[x]
  {
    var n := |workers| - 1;
    if t == n {
      assert workers[t := w][..n] == workers[..n];
    } else {
      HeldUpdate(workers[..n], t, w, x);
      assert workers[t := w][..n] == workers[..n][t := w];
    }
  }

  lemma {:induction false} DropsHeldUpdate(workers: seq<Worker>, t: nat, w: Worker, r: Reason)
    requires t < |workers|
    ensures DropsHeld(workers[t := w], r) + DropSum(PointsHeldBy(workers[t]), r)
         == DropsHeld(workers, r) + DropSum(PointsHeldBy(w), r)
  {
    var n := |workers| - 1;
    if t == n {
      assert workers[t := w][..n] == workers[..n];
    } else {
      DropsHeldUpdate(workers[..n], t, w, r);
      assert workers[t := w][..n] == workers[..n][t := w];
    }
  }

  lemma {:induction false} IdleHoldNothing(workers: seq<Worker>)
    requires forall t :: 0 <= t < |workers| ==> workers[t].Idle?
    ensures forall x :: Held(workers, x) == 0
    ensures forall r :: DropsHeld(workers, r) == 0
  {
    if workers != [] {
      IdleHoldNothing(workers[..|workers| - 1]);
    }
  }

  // ---- every call has exactly one fate ----

  /** Admitted calls are exported, waiting, with an exporter, or counted lost. */
  ghost predicate EventKept(s: State, x: Outcome) {
    multiset(s.admitted)[x] == s.exported[x] + multiset(s.view.events)[x] + Held(s.workers, x) + s.lost[x]
  }

  ghost predicate CallKept(s: State, x: Outcome) {
    s.calls[x] == multiset(s.admitted)[x] + s.suppressed[x] + s.overflowed[x]
  }

  lemma EventKeptByAdmitting(s: State, t: nat, o: Outcome, points: seq<Point>, s': State, x: Outcome)
    requires EventKept(s, x) && CallKept(s, x) && t < |s.workers| && s.workers[t].Idle?
    requires s'.workers == s.workers[t := Appending(points)]
    requires s'.view.events == s.view.events + [o] && s'.admitted == s.admitted + [o]
    requires s'.calls == s.calls + multiset{o} && s'.exported == s.exported && s'.lost == s.lost
    requires s'.suppressed == s.suppressed && s'.overflowed == s.overflowed
    ensures EventKept(s', x) && CallKept(s', x)
  {
    HeldUpdate(s.workers, t, Appending(points), x);
    assert multiset(s.admitted + [o]) == multiset(s.admitted) + multiset{o};
    assert multiset(s.view.events + [o]) == multiset(s.view.events) + multiset{o};
  }

  lemma EventKeptByObserving(c: Config, s: State, t: nat, o: Outcome, x: Outcome)
    requires EventKept(s, x) && CallKept(s, x) && t < |s.workers| && s.workers[t].Idle?
    ensures EventKept(Judged(c, s, t, o), x) && CallKept(Judged(c, s, t, o), x)
  {
    if Judge(s.view, c.bufSize, o).Admitted? {
      EventKeptByAdmitting(s, t, o, PointsOf(c.reg, o), Judged(c, s, t, o), x);
    }
  }

  lemma EventKeptByTaking(s: State, t: nat, taken: seq<Point>, s': State, x: Outcome)
    requires EventKept(s, x) && CallKept(s, x) && t < |s.workers| && s.workers[t].Idle?
    requires s' == Go(s, t, AfterTaking(s.view.events, taken)).(view := TakenStep(s.view))
    ensures EventKept(s', x) && CallKept(s', x)
  {
    HeldUpdate(s.workers, t, AfterTaking(s.view.events, taken), x);
  }

  lemma EventKeptByWork(c: Config, s: State, t: nat, m: Move, x: Outcome)
    requires EventKept(s, x) && CallKept(s, x) && Enabled(s, t, m) && !s.workers[t].Idle?
    ensures EventKept(Apply(c, s, t, m), x) && CallKept(Apply(c, s, t, m), x)
  {
    HeldUpdate(s.workers, t, Apply(c, s, t, m).workers[t], x);
  }

  lemma EventKeptByMove(c: Config, s: State, t: nat, m: Move, x: Outcome)
    requires EventKept(s, x) && CallKept(s, x) && Enabled(s, t, m)
    ensures EventKept(Apply(c, s, t, m), x) && CallKept(Apply(c, s, t, m), x)
  {
    match m {
      case Observe(o) => EventKeptByObserving(c, s, t, o, x);
      case Refuse =>
      case Append(points) => HeldUpdate(s.workers, t, Appending(points), x);
      case Take(taken) => EventKeptByTaking(s, t, taken, Apply(c, s, t, m), x);
      case _ => EventKeptByWork(c, s, t, m, x);
    }
  }

  // ---- every drop is counted exactly once ----

  /** How many calls or events were really dropped for a reason. */
  function Dropped(s: State, r: Reason): nat {
    match r
    case Overflow => |s.overflowed|
    case Invalid => s.invalid
    case Export => |s.lost|
  }

  /** Delivered, waiting, and in a flush's hands. */
  ghost predicate DropsKept(s: State, r: Reason) {
    DropSum(s.sent, r) + Count(s.view.drops, r) + DropsHeld(s.workers, r) == Dropped(s, r)
  }

  /** Drop points are made by flushes only, and never wait in the buffer. */
  ghost predicate BufferHasNoDrops(s: State) {
    NoDropPoints(s.view.points) && forall t :: 0 <= t < |s.workers| && s.workers[t].Appending? ==>
                                                 NoDropPoints(s.workers[t].points)
  }

  lemma BufferKept(c: Config, s: State, t: nat, m: Move)
    requires BufferHasNoDrops(s) && Enabled(s, t, m)
    ensures BufferHasNoDrops(Apply(c, s, t, m))
  {
    var s' := Apply(c, s, t, m);
    assert NoDropPoints(s'.view.points);
    forall u | 0 <= u < |s'.workers| && s'.workers[u].Appending?
      ensures NoDropPoints(s'.workers[u].points)
    {
      if u != t {
        assert s'.workers[u] == s.workers[u];
      }
    }
  }

  lemma DropsKeptByMove(c: Config, s: State, t: nat, m: Move, r: Reason)
    requires DropsKept(s, r) && BufferHasNoDrops(s) && Enabled(s, t, m)
    ensures DropsKept(Apply(c, s, t, m), r)
  {
    var s' := Apply(c, s, t, m);
    match m {
      case Observe(o) => DropsKeptByObserving(c, s, t, o, r);
      case Refuse =>
      case Append(points) =>
        DropsHeldUpdate(s.workers, t, s'.workers[t], r);
        NoDropPointsSumToZero(points, r);
      case Take(taken) =>
        DropsHeldUpdate(s.workers, t, s'.workers[t], r);
        TakenSums(s.view, taken, r);
      case _ => DropsKeptByWork(c, s, t, m, r);
    }
  }

  lemma DropsKeptByObserving(c: Config, s: State, t: nat, o: Outcome, r: Reason)
    requires DropsKept(s, r) && t < |s.workers| && s.workers[t].Idle?
    ensures DropsKept(Judged(c, s, t, o), r)
  {
    if Judge(s.view, c.bufSize, o).Admitted? {
      var points := PointsOf(c.reg, o);
      DropsHeldUpdate(s.workers, t, Appending(points), r);
      NoDropPointsSumToZero(points, r);
    }
  }

  lemma DropsKeptByWork(c: Config, s: State, t: nat, m: Move, r: Reason)
    requires DropsKept(s, r) && BufferHasNoDrops(s) && Enabled(s, t, m) && !s.workers[t].Idle?
    ensures DropsKept(Apply(c, s, t, m), r)
  {
    DropsHeldUpdate(s.workers, t, Apply(c, s, t, m).workers[t], r);
    var points := s.workers[t].points;
    match m {
      case Appended => NoDropPointsSumToZero(points, r);
      case PointsAccepted => DropSumAppend(s.sent, points, r);
      case PutBack => CreditAddsSums(s.view.drops, points, r);
      case _ =>
    }
  }

  // ---- de-dup and the bounds ----

  ghost function AdmittedKeys(s: State): seq<string> {
    seq(|s.admitted|, i requires 0 <= i < |s.admitted| => KeyOf(s.admitted[i]))
  }

  /** The keys remembered are the last ones admitted: nothing else is ever
      remembered, so an overflow drop leaves its own retry free. */
  ghost predicate DedupKept(c: Config, s: State) {
    Remembered(s.view.gens, c.dedupCap, AdmittedKeys(s))
  }

  /** Whatever was suppressed repeats something admitted. */
  ghost predicate SuppressedRepeat(s: State) {
    forall o :: o in s.suppressed ==> Repeats(s.admitted, o)
  }

  ghost predicate Repeats(admitted: seq<Outcome>, o: Outcome) {
    exists i :: 0 <= i < |admitted| && KeyOf(admitted[i]) == KeyOf(o)
  }

  lemma RepeatsLonger(admitted: seq<Outcome>, more: seq<Outcome>, o: Outcome)
    requires Repeats(admitted, o)
    ensures Repeats(admitted + more, o)
  {
    var i :| 0 <= i < |admitted| && KeyOf(admitted[i]) == KeyOf(o);
    assert (admitted + more)[i] == admitted[i];
  }

  lemma AdmittedKeysGrow(s: State, s': State, o: Outcome)
    requires s'.admitted == s.admitted + [o]
    ensures AdmittedKeys(s') == AdmittedKeys(s) + [KeyOf(o)]
  {
  }

  lemma DedupKeptByJudging(c: Config, s: State, t: nat, o: Outcome)
    requires DedupKept(c, s) && t < |s.workers|
    ensures DedupKept(c, Judged(c, s, t, o))
  {
    var s' := Judged(c, s, t, o);
    if Judge(s.view, c.bufSize, o).Admitted? {
      SeenKeepsRemembered(s.view.gens, c.dedupCap, AdmittedKeys(s), KeyOf(o));
      AdmittedKeysGrow(s, s', o);
    } else {
      assert AdmittedKeys(s') == AdmittedKeys(s);
    }
  }

  lemma SuppressedRepeatByJudging(c: Config, s: State, t: nat, o: Outcome)
    requires DedupKept(c, s) && SuppressedRepeat(s) && t < |s.workers|
    ensures SuppressedRepeat(Judged(c, s, t, o))
  {
    var s' := Judged(c, s, t, o);
    forall x | x in s'.suppressed
      ensures Repeats(s'.admitted, x)
    {
      if x in s.suppressed {
        RepeatsLonger(s.admitted, s'.admitted[|s.admitted|..], x);
        assert s'.admitted == s.admitted + s'.admitted[|s.admitted|..];
      } else {
        RememberedIsRecent(s.view.gens, c.dedupCap, AdmittedKeys(s), KeyOf(o));
      }
    }
  }

  lemma DedupKeptByMove(c: Config, s: State, t: nat, m: Move)
    requires DedupKept(c, s) && SuppressedRepeat(s) && Enabled(s, t, m)
    ensures DedupKept(c, Apply(c, s, t, m)) && SuppressedRepeat(Apply(c, s, t, m))
  {
    if m.Observe? {
      DedupKeptByJudging(c, s, t, m.o);
      SuppressedRepeatByJudging(c, s, t, m.o);
    } else {
      assert AdmittedKeys(Apply(c, s, t, m)) == AdmittedKeys(s);
    }
  }

  ghost predicate WithinBounds(c: Config, s: State) {
    |s.view.events| <= c.bufSize && |s.view.points| <= 8 * c.bufSize
  }

  lemma BoundsKept(c: Config, s: State, t: nat, m: Move)
    requires WithinBounds(c, s) && Enabled(s, t, m)
    ensures WithinBounds(c, Apply(c, s, t, m))
  {
  }

  // ---- whole runs ----

  ghost predicate Sound(c: Config, s: State) {
    && (forall x :: EventKept(s, x) && CallKept(s, x))
    && BufferHasNoDrops(s) && (forall r :: DropsKept(s, r))
    && DedupKept(c, s) && SuppressedRepeat(s) && WithinBounds(c, s)
  }

  ghost predicate StepsTo(c: Config, s: State, s': State) {
    exists t: nat, m :: Enabled(s, t, m) && s' == Apply(c, s, t, m)
  }

  ghost predicate IsRun(c: Config, states: seq<State>) {
    && |states| > 0 && Init(c, states[0])
    && forall i, j :: 0 <= i && j == i + 1 < |states| ==> StepsTo(c, states[i], states[j])
  }

  lemma SoundAtFirst(c: Config, s: State)
    requires Init(c, s)
    ensures Sound(c, s)
  {
    assert AdmittedKeys(s) == [];
    IdleHoldNothing(s.workers);
  }

  lemma MoveIsSound(c: Config, s: State, t: nat, m: Move)
    requires Sound(c, s) && Enabled(s, t, m)
    ensures Sound(c, Apply(c, s, t, m))
  {
    var s' := Apply(c, s, t, m);
    BufferKept(c, s, t, m);
    BoundsKept(c, s, t, m);
    DedupKeptByMove(c, s, t, m);
    forall x
      ensures EventKept(s', x) && CallKept(s', x)
    {
      EventKeptByMove(c, s, t, m, x);
    }
    forall r
      ensures DropsKept(s', r)
    {
      DropsKeptByMove(c, s, t, m, r);
    }
  }

  lemma {:induction false} RunIsSound(c: Config, states: seq<State>, i: nat)
    requires IsRun(c, states) && i < |states|
    ensures Sound(c, states[i])
  {
    if i == 0 {
      SoundAtFirst(c, states[0]);
    } else {
      RunIsSound(c, states, i - 1);
      assert StepsTo(c, states[i - 1], states[i]);
      var t: nat, m :| Enabled(states[i - 1], t, m) && states[i] == Apply(c, states[i - 1], t, m);
      MoveIsSound(c, states[i - 1], t, m);
    }
  }

  /** At every moment of every interleaving, the valid calls so far split into
      exported, waiting, with an exporter, suppressed, overflowed and lost. */
  lemma EveryCallHasOneFate(c: Config, states: seq<State>, i: nat, x: Outcome)
    requires IsRun(c, states) && i < |states|
    ensures var s := states[i];
            s.calls[x] == s.exported[x] + multiset(s.view.events)[x] + Held(s.workers, x)
                          + s.suppressed[x] + s.overflowed[x] + s.lost[x]
  {
    RunIsSound(c, states, i);
    assert EventKept(states[i], x) && CallKept(states[i], x);
  }

  /** ... and under every reason, what was delivered, what waits and what a flush
      holds add up to what was really dropped. */
  lemma EveryDropIsCounted(c: Config, states: seq<State>, i: nat, r: Reason)
    requires IsRun(c, states) && i < |states|
    ensures var s := states[i];
            DropSum(s.sent, r) + Count(s.view.drops, r) + DropsHeld(s.workers, r) == Dropped(s, r)
  {
    RunIsSound(c, states, i);
    assert DropsKept(states[i], r);
  }

  ghost predicate Drained(s: State) {
    && s.view.events == [] && s.view.drops == map[]
    && forall t :: 0 <= t < |s.workers| ==> s.workers[t].Idle?
  }

  /** Once everything is flushed the backend can account for every call: it has
      the event, or a drop count for it, or the event the call repeated. */
  lemma BackendSeesEverything(c: Config, states: seq<State>, i: nat)
    requires IsRun(c, states) && i < |states| && Drained(states[i])
    ensures var s := states[i];
            && s.calls == s.exported + s.suppressed + s.overflowed + s.lost
            && |s.calls| == |s.exported| + |s.suppressed| + DropSum(s.sent, Overflow) + DropSum(s.sent, Export)
  {
    RunIsSound(c, states, i);
    var s := states[i];
    assert DropsKept(s, Overflow) && DropsKept(s, Export);
    IdleHoldNothing(s.workers);
    forall x
      ensures s.calls[x] == (s.exported + s.suppressed + s.overflowed + s.lost)[x]
    {
      EveryCallHasOneFate(c, states, i, x);
    }
  }

  /** A call is suppressed only if one with its key was admitted before: one that
      overflowed never suppresses its own retry. */
  lemma OnlyRepeatsAreSuppressed(c: Config, states: seq<State>, i: nat, o: Outcome)
    requires IsRun(c, states) && i < |states|
    ensures Judge(states[i].view, c.bufSize, o).Suppressed? || o in states[i].suppressed ==>
              Repeats(states[i].admitted, o)
  {
    RunIsSound(c, states, i);
    var s := states[i];
    if Judge(s.view, c.bufSize, o).Suppressed? {
      RememberedIsRecent(s.view.gens, c.dedupCap, AdmittedKeys(s), KeyOf(o));
    }
  }

  /** Some call with this key is among the last n admitted. */
  /** A call is suppressed exactly if there is room and one with its key is in the
      window of the last admitted calls that de-dup remembers, which holds at least
      its capacity and at most twice that. */
  lemma SuppressedExactly(c: Config, states: seq<State>, i: nat, o: Outcome)
    requires IsRun(c, states) && i < |states|
    ensures var s, cap := states[i], Max(c.dedupCap, 1);
            var n := |s.view.gens.Window()|;
            && (Judge(s.view, c.bufSize, o).Suppressed?
                <==> |s.view.events| < c.bufSize && AmongLast(AdmittedKeys(s), n, KeyOf(o)))
            && n <= |s.admitted| && n <= 2 * cap && (n >= cap || n == |s.admitted|)
  {
    RunIsSound(c, states, i);
    RememberedExactly(states[i].view.gens, c.dedupCap, AdmittedKeys(states[i]), KeyOf(o));
    hide Sound, IsRun, KeyOf, Remembered, AmongLast;
  }

  lemma LostWasAdmitted(c: Config, states: seq<State>, i: nat, x: Outcome)
    requires IsRun(c, states) && i < |states| && x in states[i].lost
    ensures x in states[i].admitted
  {
    RunIsSound(c, states, i);
    assert EventKept(states[i], x);
    assert x in multiset(states[i].admitted);
  }

  /** A call whose batch was lost was admitted, so its retry is suppressed exactly if
      there is room and fewer calls were admitted since than the window holds: only
      the Export count tells. */
  lemma RetryOfALostEventIsSuppressed(c: Config, states: seq<State>, i: nat, x: Outcome)
    requires IsRun(c, states) && i < |states| && x in states[i].lost
    ensures var s := states[i];
            && x in s.admitted && DropSum(s.sent, Export) + Count(s.view.drops, Export) + DropsHeld(s.workers, Export) > 0
            && (Judge(s.view, c.bufSize, x).Suppressed?
                <==> |s.view.events| < c.bufSize && AmongLast(AdmittedKeys(s), |s.view.gens.Window()|, KeyOf(x)))
            && (|s.admitted| <= Max(c.dedupCap, 1) ==> AmongLast(AdmittedKeys(s), |s.view.gens.Window()|, KeyOf(x)))
  {
    var s := states[i];
    LostWasAdmitted(c, states, i, x);
    SuppressedExactly(c, states, i, x);
    EveryDropIsCounted(c, states, i, Export);
    assert |s.lost| > 0;
    var k :| 0 <= k < |s.admitted| && s.admitted[k] == x;
    assert AdmittedKeys(s)[k] == KeyOf(x);
  }

  // ---- a run that loses a call and suppresses its retry ----

  ghost predicate Reachable(c: Config, s: State) {
    exists states :: IsRun(c, states) && states[|states| - 1] == s
  }

  lemma ReachNext(c: Config, s: State, t: nat, m: Move)
    requires Reachable(c, s) && Enabled(s, t, m)
    ensures Reachable(c, Apply(c, s, t, m))
  {
    hide Init, Enabled, Apply;
    var states :| IsRun(c, states) && states[|states| - 1] == s;
    var more := states + [Apply(c, s, t, m)];
    assert StepsTo(c, s, Apply(c, s, t, m));
    forall i, j | 0 <= i && j == i + 1 < |more|
      ensures StepsTo(c, more[i], more[j])
    {
      if j < |states| {
        assert StepsTo(c, states[i], states[j]);
      }
    }
    assert more[|more| - 1] == Apply(c, s, t, m);
  }

  /** A state whose only goroutine stands at w. */
  ghost predicate Alone(c: Config, s: State, w: Worker) {
    Reachable(c, s) && s.workers == [w]
  }

  lemma ReachStart(c: Config) returns (s: State)
    requires c.goroutines == 1
    ensures Alone(c, s, Idle) && s.view == View([], [], map[], 0, NOTHING, {})
    ensures s.lost == multiset{} && s.exported == multiset{}
  {
    s := State(View([], [], map[], 0, NOTHING, {}), seq(1, _ => Idle),
               multiset{}, [], multiset{}, multiset{}, multiset{}, multiset{}, 0, [], []);
    assert IsRun(c, [s]) && [s][|[s]| - 1] == s;
    assert s.workers == [Idle];
  }

  /** One move of the only goroutine, which then stands at w. */
  lemma ReachAlone(c: Config, s: State, m: Move, w: Worker)
    requires Reachable(c, s) && |s.workers| == 1 && Enabled(s, 0, m)
    requires Apply(c, s, 0, m).workers == s.workers[0 := w]
    ensures Alone(c, Apply(c, s, 0, m), w)
  {
    hide Reachable, Enabled, Apply;
    ReachNext(c, s, 0, m);
  }

  lemma ReachAdmitted(c: Config, s: State, o: Outcome) returns (s': State)
    requires Alone(c, s, Idle) && s.view == View([], [], map[], 0, NOTHING, {}) && c.bufSize >= 1
    ensures Alone(c, s', Idle) && s'.view.events == [o] && s'.view.drops == map[] && |s'.view.points| > 0
    ensures s'.view.gens.Remembers(KeyOf(o)) && s'.lost == s.lost && s'.exported == s.exported
  {
    hide Reachable, KeyOf;
    ReachAlone(c, s, Observe(o), Appending(PointsOf(c.reg, o)));
    var s1 := Apply(c, s, 0, Observe(o));
    ReachAlone(c, s1, Appended, Idle);
    s' := Apply(c, s1, 0, Appended);
  }

  lemma ReachTaken(c: Config, s: State, o: Outcome) returns (s': State)
    requires Alone(c, s, Idle) && s.view.events == [o] && s.view.drops == map[] && |s.view.points| > 0
    ensures exists points :: points != [] && Alone(c, s', Sending([o], points))
    ensures s'.view.events == [] && s'.view.gens == s.view.gens && s'.lost == s.lost && s'.exported == s.exported
  {
    var taken := s.view.points;
    assert Takes(s.view, taken) by {
      assert taken[|taken|..] == [] && taken[..|taken|] == taken;
    }
    ReachAlone(c, s, Take(taken), Sending([o], taken));
    s' := Apply(c, s, 0, Take(taken));
  }

  lemma ReachLost(c: Config, s: State, o: Outcome, points: seq<Point>) returns (s': State)
    requires Alone(c, s, Sending([o], points)) && points != []
    ensures Alone(c, s', SendingPoints(points))
    ensures s'.view.events == s.view.events && s'.view.gens == s.view.gens
    ensures s'.lost == s.lost + multiset{o} && s'.exported == s.exported
  {
    hide Reachable;
    ReachAlone(c, s, Move.EventsFailed, EventsLost([o], points));
    var s1 := Apply(c, s, 0, Move.EventsFailed);
    ReachAlone(c, s1, CountLost, SendingPoints(points));
    s' := Apply(c, s1, 0, CountLost);
  }

  lemma ReachRetried(c: Config, s: State, points: seq<Point>, o: Outcome) returns (s': State)
    requires Alone(c, s, SendingPoints(points)) && |s.view.events| < c.bufSize && s.view.gens.Remembers(KeyOf(o))
    ensures Reachable(c, s') && o in s'.suppressed && s'.lost == s.lost && s'.exported == s.exported
  {
    hide Reachable, KeyOf;
    ReachAlone(c, s, PointsAccepted, Idle);
    var s1 := Apply(c, s, 0, PointsAccepted);
    ReachNext(c, s1, 0, Observe(o));
    s' := Apply(c, s1, 0, Observe(o));
  }

  /** For any call: a run that loses it to a failed export and suppresses its retry,
      so that the backend never has it. */
  lemma ALostCallCanStayLost(c: Config, o: Outcome) returns (s: State)
    requires c.goroutines == 1 && c.bufSize >= 1
    ensures Reachable(c, s) && o in s.lost && o in s.suppressed && o !in s.exported
  {
    var s0 := ReachStart(c);
    var s1 := ReachAdmitted(c, s0, o);
    var s2 := ReachTaken(c, s1, o);
    var points :| points != [] && Alone(c, s2, Sending([o], points));
    var s3 := ReachLost(c, s2, o, points);
    s := ReachRetried(c, s3, points, o);
  }
}
