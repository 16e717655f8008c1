/** What the emitter's counters tell of the calls it admitted, whatever flushes
    overlap and fail (emit/emitter.go). */
module EmitterMeters {
  import opened Money
  import opened Emitter
  import opened EmitterSteps

  /** One series of biz_value_total, or of biz_txn_total. */
  datatype Meter =
    | ValueOf(flow: string, stage: string, result: ResultKind, currency: string, kind: string, segment: string)
    | TxnsOf(flow: string, stage: string, result: ResultKind, currency: string, segment: string)

  // ---- what points add to a series ----

  function Shown(p: Point, m: Meter): int {
    match m
    case ValueOf(flow, stage, result, currency, kind, segment) =>
      if p.ValueTotal? && p == ValueTotal(flow, stage, result, currency, kind, segment, p.value, p.at) then p.value else 0
    case TxnsOf(flow, stage, result, currency, segment) =>
      if p.TxnTotal? && p == TxnTotal(flow, stage, result, currency, segment, p.at) then 1 else 0
  }

  function Metered(points: seq<Point>, m: Meter): int {
    if points == [] then 0 else Metered(points[..|points| - 1], m) + Shown(points[|points| - 1], m)
  }

  lemma {:induction false} MeteredAppend(a: seq<Point>, b: seq<Point>, m: Meter)
    ensures Metered(a + b, m) == Metered(a, m) + Metered(b, m)
  {
    if b == [] {
      assert a + b == a;
    } else {
      MeteredAppend(a, b[..|b| - 1], m);
      assert (a + b)[..|a + b| - 1] == a + b[..|b| - 1];
    }
  }

  lemma {:induction false} NotMetered(points: seq<Point>, m: Meter)
    requires forall p :: p in points ==> !p.ValueTotal? && !p.TxnTotal?
    ensures Metered(points, m) == 0
  {
    if points != [] {
      assert points[|points| - 1] in points;
      NotMetered(points[..|points| - 1], m);
    }
  }

  function MeterHeld(workers: seq<Worker>, m: Meter): int {
    if workers == [] then 0
    else MeterHeld(workers[..|workers| - 1], m) + Metered(PointsHeldBy(workers[|workers| - 1]), m)
  }

  lemma {:induction false} MeterHeldUpdate(workers: seq<Worker>, t: nat, w: Worker, m: Meter)
    requires t < |workers|
    ensures MeterHeld(workers[t := w], m) + Metered(PointsHeldBy(workers[t]), m)
         == MeterHeld(workers, m) + Metered(PointsHeldBy(w), m)
  {
    hide Metered, PointsHeldBy;
    var n := |workers| - 1;
    if t == n {
      assert workers[t := w][..n] == workers[..n];
    } else {
      MeterHeldUpdate(workers[..n], t, w, m);
      assert workers[t := w][..n] == workers[..n][t := w];
    }
  }

  lemma {:induction false} IdleMeterNothing(workers: seq<Worker>, m: Meter)
    requires forall t :: 0 <= t < |workers| ==> workers[t].Idle?
    ensures MeterHeld(workers, m) == 0
  {
    if workers != [] {
      IdleMeterNothing(workers[..|workers| - 1], m);
    }
  }

  // ---- what admitted calls owe a series ----

  /** A name the registry knows is its own label; all others share one. */
  predicate IsLabel(text: string, name: string, known: bool, other: string) {
    text == if known then name else other
  }

  /** The call belongs under the series' labels. */
  predicate BelongsTo(reg: Registry, o: Outcome, m: Meter) {
    var flowKnown := o.flow in reg.stages;
    && IsLabel(m.flow, o.flow, flowKnown, "unregistered")
    && IsLabel(m.stage, o.stage, flowKnown && o.stage in reg.stages[o.flow], "unregistered")
    && IsLabel(m.segment, o.segment, o.segment in reg.segments, "")
    && m.result == o.result && m.currency == o.money.currency
    && (m.ValueOf? ==> m.kind == o.kind)
  }

  /** A call counts once, and its amount counts unless it is an estimate. */
  function Owed(reg: Registry, o: Outcome, m: Meter): int {
    if !BelongsTo(reg, o, m) then 0
    else if m.TxnsOf? then 1
    else if o.estimated then 0
    else o.money.amount as int
  }

  function OwedByAll(reg: Registry, admitted: seq<Outcome>, m: Meter): int {
    if admitted == [] then 0 else
      OwedByAll(reg, admitted[..|admitted| - 1], m) + Owed(reg, admitted[|admitted| - 1], m)
  }

  /** A call's points show exactly what it owes, to every series. */
  lemma PointsShowWhatIsOwed(reg: Registry, o: Outcome, m: Meter)
    ensures Metered(PointsOf(reg, o), m) == Owed(reg, o, m)
  {
    var points := PointsOf(reg, o);
    var last := points[|points| - 1];
    MeteredOne(last, m);
    if |points| > 1 {
      MeteredOne(points[0], m);
      MeteredAppend([points[0]], [last], m);
      assert points == [points[0]] + [last];
    } else {
      assert points == [last];
    }
    hide Metered;
  }

  lemma MeteredOne(p: Point, m: Meter)
    ensures Metered([p], m) == Shown(p, m)
  {
    assert [p][..0] == [];
  }

  // ---- every step keeps the books ----

  /** Delivered, waiting, held by a call or a flush, or given up. */
  ghost predicate MeterKept(c: Config, s: State, m: Meter) {
    Metered(s.sent, m) + Metered(s.view.points, m) + MeterHeld(s.workers, m) + Metered(s.spilled, m)
      == OwedByAll(c.reg, s.admitted, m)
  }

  lemma KeptByObserving(c: Config, s: State, t: nat, o: Outcome, m: Meter)
    requires MeterKept(c, s, m) && t < |s.workers| && s.workers[t].Idle?
    ensures MeterKept(c, Judged(c, s, t, o), m)
  {
    hide Owed, PointsOf;
    if Judge(s.view, c.bufSize, o).Admitted? {
      MeterHeldUpdate(s.workers, t, Appending(PointsOf(c.reg, o)), m);
      PointsShowWhatIsOwed(c.reg, o, m);
      assert (s.admitted + [o])[..|s.admitted|] == s.admitted;
    }
  }

  lemma KeptByTaking(c: Config, s: State, t: nat, taken: seq<Point>, m: Meter)
    requires MeterKept(c, s, m) && Enabled(s, t, Take(taken))
    ensures MeterKept(c, Apply(c, s, t, Take(taken)), m)
  {
    TakesOnlyDrops(s.view, taken, m);
    MeterHeldUpdate(s.workers, t, AfterTaking(s.view.events, taken), m);
    hide Metered, MeterHeld, OwedByAll, Takes;
  }

  lemma TakesOnlyDrops(v: View, taken: seq<Point>, m: Meter)
    requires Takes(v, taken)
    ensures Metered(taken, m) == Metered(v.points, m) && (taken == [] ==> v.points == [])
    ensures Metered([], m) == 0
  {
    var n := |v.points|;
    assert taken == v.points + taken[n..];
    assert forall p :: p in taken[n..] ==> p.DroppedEvents?;
    hide Takes, Metered;
    MeteredAppend(v.points, taken[n..], m);
    NotMetered(taken[n..], m);
    NotMetered([], m);
  }

  lemma KeptByAppending(c: Config, s: State, t: nat, m: Meter)
    requires MeterKept(c, s, m) && Enabled(s, t, Appended)
    ensures MeterKept(c, Apply(c, s, t, Appended), m)
  {
    hide Metered, OwedByAll, MeterHeld;
    NotMetered([], m);
    var points := s.workers[t].points;
    var k := Fitting(|s.view.points|, 8 * c.bufSize, |points|);
    MeterHeldUpdate(s.workers, t, Idle, m);
    assert points == points[..k] + points[k..];
    MeteredAppend(points[..k], points[k..], m);
    MeteredAppend(s.view.points, points[..k], m);
    MeteredAppend(s.spilled, points[k..], m);
  }

  lemma KeptByWork(c: Config, s: State, t: nat, move: Move, m: Meter)
    requires MeterKept(c, s, m) && Enabled(s, t, move) && !s.workers[t].Idle? && !move.Appended?
    ensures MeterKept(c, Apply(c, s, t, move), m)
  {
    hide Metered, OwedByAll, MeterHeld, Credit, Bump;
    NotMetered([], m);
    var points := s.workers[t].points;
    MeterHeldUpdate(s.workers, t, Apply(c, s, t, move).workers[t], m);
    MeteredAppend(s.sent, points, m);
    MeteredAppend(s.spilled, points, m);
  }

  lemma MeterKeptByMove(c: Config, s: State, t: nat, move: Move, m: Meter)
    requires MeterKept(c, s, m) && Enabled(s, t, move)
    ensures MeterKept(c, Apply(c, s, t, move), m)
  {
    match move {
      case Observe(o) => KeptByObserving(c, s, t, o, m);
      case Refuse =>
      case Append(points) =>
        MeterHeldUpdate(s.workers, t, Appending(points), m);
        NotMetered(points, m);
      case Take(taken) => KeptByTaking(c, s, t, taken, m);
      case Appended => KeptByAppending(c, s, t, m);
      case _ => KeptByWork(c, s, t, move, m);
    }
  }

  /** At every moment of every interleaving, and for every series: what was delivered,
      waits, is held or was given up adds up to what the admitted calls owe it. */
  lemma {:induction false} EveryAmountIsMetered(c: Config, states: seq<State>, i: nat, m: Meter)
    requires IsRun(c, states) && i < |states|
    ensures MeterKept(c, states[i], m)
  {
    if i == 0 {
      IdleMeterNothing(states[0].workers, m);
    } else {
      EveryAmountIsMetered(c, states, i - 1, m);
      assert StepsTo(c, states[i - 1], states[i]);
      var t: nat, move :| Enabled(states[i - 1], t, move) && states[i] == Apply(c, states[i - 1], t, move);
      MeterKeptByMove(c, states[i - 1], t, move, m);
    }
  }

  /** Once all is flushed and if no point was given up, the backend's counters are
      the number of the admitted calls, and the sum of their amounts. */
  lemma BackendTotals(c: Config, states: seq<State>, i: nat, m: Meter)
    requires IsRun(c, states) && i < |states| && Drained(states[i])
    requires states[i].view.points == [] && states[i].spilled == []
    ensures Metered(states[i].sent, m) == OwedByAll(c.reg, states[i].admitted, m)
  {
    EveryAmountIsMetered(c, states, i, m);
    IdleMeterNothing(states[i].workers, m);
  }
}
