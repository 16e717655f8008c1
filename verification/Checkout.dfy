/** The checkout simulation (Run in examples/checkout/checkout.go): two chained
    FIFO stages under a ledger, with blackouts whose demand may come back. */
module Checkout {
  import opened Wrappers
  import opened Faults
  import opened FiniteSums
  import opened Stages

  datatype State = Created | Authed | Captured | Settled | AuthFail | Abandoned | CapFail

  /** recoveredFrom is the start of the blackout that first suppressed a
      recovered transaction. */
  datatype Txn = Txn(
    id: nat, customer: nat, enterprise: bool, amountMinor: nat, createdAt: nat,
    authedAt: Option<nat>, capturedAt: Option<nat>, settledAt: Option<nat>,
    state: State, recoveredFrom: Option<nat>)

  datatype SuppressedMinute = SuppressedMinute(minute: nat, count: nat)

  datatype Config = Config(
    start: nat, end: nat, faults: seq<FaultSpec>, customers: nat, enterpriseFraction: real,
    captureDelay: nat, settleDelay: nat, captureCapacity: nat, settleCapacity: nat)
  {
    /** What applyDefaults lets through. */
    ghost predicate Valid() {
      && customers >= 1 && captureCapacity >= 1 && settleCapacity >= 1
      && (forall f :: f in faults ==> f.Validate())
      && Disjoint(multiset(Blackouts(faults)))
    }
  }

  type unit = x: real | 0.0 <= x < 1.0

  const NANOS_PER_MINUTE: nat := 60000000000

  /** The random source: the k-th draw may be anything of its type. */
  datatype Oracle = Oracle(float: nat -> unit, integer: nat -> nat, poisson: nat -> nat)

  // ---- the ledger ----

  const AMOUNT_BOUND: nat := 151000

  /** A row's times are set as far as its state says, in stage order, all before
      the end of the run. */
  predicate TxnOk(txn: Txn, end: nat) {
    && (if txn.enterprise then 31000 <= txn.amountMinor < AMOUNT_BOUND else 4200 <= txn.amountMinor < 24200)
    && txn.createdAt < end
    && match txn.state
       case AuthFail | Abandoned =>
         txn.authedAt.None? && txn.capturedAt.None? && txn.settledAt.None?
       case Authed =>
         txn.authedAt == Some(txn.createdAt) && txn.capturedAt.None? && txn.settledAt.None?
       case Captured =>
         && txn.authedAt == Some(txn.createdAt) && txn.settledAt.None?
         && txn.capturedAt.Some? && txn.createdAt <= txn.capturedAt.value < end
       case Settled =>
         && txn.authedAt == Some(txn.createdAt) && txn.capturedAt.Some? && txn.settledAt.Some?
         && txn.createdAt <= txn.capturedAt.value <= txn.settledAt.value < end
       case Created | CapFail => false
  }

  /** The row of an authed transaction, given how far the stages took it. */
  function Progress(txn: Txn, t: nat, capturedAt: Option<nat>, settledAt: Option<nat>): Txn {
    txn.(authedAt := Some(t), capturedAt := capturedAt, settledAt := settledAt,
         state := if settledAt.Some? then Settled else if capturedAt.Some? then Captured else Authed)
  }

  predicate LedgerOk(ledger: seq<Txn>, end: nat) {
    forall i :: 0 <= i < |ledger| ==> ledger[i].id == i + 1 && TxnOk(ledger[i], end)
  }

  predicate Ordered(a: Option<nat>, b: Option<nat>) { a.Some? && b.Some? ==> a.value <= b.value }

  /** First in, first out: rows are captured in the order they were created, and
      settled in that order. */
  predicate InOrder(ledger: seq<Txn>) {
    forall i, j :: 0 <= i < j < |ledger| ==>
      Ordered(ledger[i].capturedAt, ledger[j].capturedAt) && Ordered(ledger[i].settledAt, ledger[j].settledAt)
  }

  predicate NotPast(at: Option<nat>, completions: seq<nat>) {
    at.Some? ==> completions != [] && at.value <= completions[|completions| - 1]
  }

  predicate IsLast(at: Option<nat>, completions: seq<nat>) {
    at.Some? ==> completions != [] && at.value == completions[|completions| - 1]
  }

  /** ... and no row is past the last completion of its stage. */
  predicate Fifo(ledger: seq<Txn>, captures: seq<nat>, settles: seq<nat>) {
    && InOrder(ledger)
    && forall i :: 0 <= i < |ledger| ==> NotPast(ledger[i].capturedAt, captures) && NotPast(ledger[i].settledAt, settles)
  }

  lemma FifoAppend(ledger: seq<Txn>, txn: Txn, captures: seq<nat>, settles: seq<nat>)
    requires Fifo(ledger, captures, settles) && IsLast(txn.capturedAt, captures) && IsLast(txn.settledAt, settles)
    ensures Fifo(ledger + [txn], captures, settles)
  {
  }

  lemma FifoGrows(ledger: seq<Txn>, captures: seq<nat>, settles: seq<nat>, captures': seq<nat>, settles': seq<nat>)
    requires Fifo(ledger, captures, settles)
    requires captures <= captures' && NonDecreasing(captures') && settles <= settles' && NonDecreasing(settles')
    ensures Fifo(ledger, captures', settles')
  {
    assert captures != [] ==> captures[|captures| - 1] == captures'[|captures| - 1] <= captures'[|captures'| - 1];
    assert settles != [] ==> settles[|settles| - 1] == settles'[|settles| - 1] <= settles'[|settles'| - 1];
  }

  /** What the api faults active at t make of an arrival, the i-th fault first,
      and the draws left behind: an abandoned request never rolls for a 5xx. */
  function ApiFate(faults: seq<FaultSpec>, t: nat, oracle: Oracle, draws: nat, state: State): (State, nat) {
    if faults == [] then (state, draws)
    else
      var f, rest := faults[0], faults[1..];
      if f.Active(t) && f.kind.ApiLatency? then
        ApiFate(rest, t, oracle, draws + 1, if oracle.float(draws) < f.rate then Abandoned else state)
      else if f.Active(t) && f.kind.Api5xx? && state != Abandoned then
        ApiFate(rest, t, oracle, draws + 1, if oracle.float(draws) < f.rate then AuthFail else state)
      else ApiFate(rest, t, oracle, draws, state)
  }

  /** A new transaction from the draws at hand, and the draws left behind. */
  function FreshTxn(cfg: Config, oracle: Oracle, draws: nat, id: nat, t: nat, recoveredFrom: Option<nat>): (Txn, nat)
    requires cfg.customers >= 1
  {
    var enterprise := oracle.float(draws + 1) < cfg.enterpriseFraction;
    var rest := if enterprise then draws + 3 else draws + 2;
    var amount := if enterprise then 31000 + oracle.integer(draws + 2) % 120000 else 4200 + oracle.integer(draws) % 20000;
    (Txn(id, oracle.integer(rest) % cfg.customers, enterprise, amount, t, None, None, None, Created, recoveredFrom), rest + 1)
  }

  // ---- what a row's draws can make of it ----

  /** The fault is of the kind, active, and what it rolls is below its rate. */
  predicate Strikes(f: FaultSpec, kind: FaultKind, t: nat, roll: unit) {
    f.from <= t < f.to && f.kind == kind && roll < f.rate
  }

  ghost predicate SomeStrikes(faults: seq<FaultSpec>, kind: FaultKind, t: nat, oracle: Oracle, rolls: seq<nat>)
    requires |rolls| == |faults|
  {
    exists i :: 0 <= i < |faults| && Strikes(faults[i], kind, t, oracle.float(rolls[i]))
  }

  /** Abandoned if some latency fault strikes; if none does, refused if some 5xx
      fault strikes. */
  ghost predicate Fated(faults: seq<FaultSpec>, t: nat, oracle: Oracle, rolls: seq<nat>, before: State, after: State)
    requires |rolls| == |faults|
  {
    after == if before == Abandoned || SomeStrikes(faults, ApiLatency, t, oracle, rolls) then Abandoned
             else if SomeStrikes(faults, Api5xx, t, oracle, rolls) then AuthFail
             else before
  }

  lemma StrikesNext(faults: seq<FaultSpec>, kind: FaultKind, t: nat, oracle: Oracle, rolls: seq<nat>)
    requires |rolls| == |faults| > 0
    ensures SomeStrikes(faults, kind, t, oracle, rolls) <==>
              Strikes(faults[0], kind, t, oracle.float(rolls[0])) || SomeStrikes(faults[1..], kind, t, oracle, rolls[1..])
  {
    if i :| 0 <= i < |faults[1..]| && Strikes(faults[1..][i], kind, t, oracle.float(rolls[1..][i])) {
      assert Strikes(faults[i + 1], kind, t, oracle.float(rolls[i + 1]));
    }
    if i :| 0 < i < |faults| && Strikes(faults[i], kind, t, oracle.float(rolls[i])) {
      assert Strikes(faults[1..][i - 1], kind, t, oracle.float(rolls[1..][i - 1]));
    }
  }

  lemma {:induction false} FateIsRolled(faults: seq<FaultSpec>, t: nat, oracle: Oracle, draws: nat, state: State) returns (rolls: seq<nat>)
    requires state == Created || state == Abandoned || state == AuthFail
    ensures |rolls| == |faults|
    ensures Fated(faults, t, oracle, rolls, state, ApiFate(faults, t, oracle, draws, state).0)
  {
    if faults == [] {
      rolls := [];
    } else {
      var f := faults[0];
      var strikes := f.Active(t) && (f.kind.ApiLatency? || (f.kind.Api5xx? && state != Abandoned));
      var next := if strikes && oracle.float(draws) < f.rate then (if f.kind.ApiLatency? then Abandoned else AuthFail) else state;
      var rest := FateIsRolled(faults[1..], t, oracle, if strikes then draws + 1 else draws, next);
      rolls := [draws] + rest;
      assert rolls[1..] == rest;
      StrikesNext(faults, ApiLatency, t, oracle, rolls);
      StrikesNext(faults, Api5xx, t, oracle, rolls);
    }
  }

  /** The three draws behind a row: its amount in its segment's range, its segment and
      its customer. */
  predicate MadeOf(cfg: Config, oracle: Oracle, txn: Txn, amount: nat, segment: nat, customer: nat)
    requires cfg.customers >= 1
  {
    && (txn.enterprise <==> oracle.float(segment) < cfg.enterpriseFraction)
    && txn.amountMinor == (if txn.enterprise then 31000 + oracle.integer(amount) % 120000
                           else 4200 + oracle.integer(amount) % 20000)
    && txn.customer == oracle.integer(customer) % cfg.customers
  }

  ghost predicate Drawn(cfg: Config, oracle: Oracle, txn: Txn) {
    cfg.customers >= 1 && exists amount, segment, customer :: MadeOf(cfg, oracle, txn, amount, segment, customer)
  }

  /** A row has its api fate: abandoned, refused, or authorised when it was made. */
  ghost predicate RowFated(cfg: Config, oracle: Oracle, txn: Txn) {
    exists rolls: seq<nat>, fate ::
      && |rolls| == |cfg.faults| && Fated(cfg.faults, txn.createdAt, oracle, rolls, Created, fate)
      && if fate == Created then txn.authedAt == Some(txn.createdAt) else txn.state == fate
  }

  ghost predicate RowsDrawn(cfg: Config, oracle: Oracle, ledger: seq<Txn>) {
    forall i :: 0 <= i < |ledger| ==> Drawn(cfg, oracle, ledger[i]) && RowFated(cfg, oracle, ledger[i])
  }

  // ---- what the stages make of the rows ----

  ghost function AuthedRows(ledger: seq<Txn>): seq<Txn> {
    if ledger == [] then [] else
      var init, txn := AuthedRows(ledger[..|ledger| - 1]), ledger[|ledger| - 1];
      if txn.authedAt.Some? then init + [txn] else init
  }

  ghost function CapturedRows(ledger: seq<Txn>): seq<Txn> {
    if ledger == [] then [] else
      var init, txn := CapturedRows(ledger[..|ledger| - 1]), ledger[|ledger| - 1];
      if txn.capturedAt.Some? then init + [txn] else init
  }

  function IfBefore(at: nat, end: nat): Option<nat> { if at < end then Some(at) else None }

  /** Every authorised row, in order, is captured when its service completes if that
      is before the end, and not at all otherwise. */
  ghost predicate Captures(ledger: seq<Txn>, end: nat, log: Log) {
    var rows := AuthedRows(ledger);
    && |rows| == |log.eligibles| == |log.completions|
    && forall i :: 0 <= i < |rows| ==>
         rows[i].authedAt == Some(log.eligibles[i]) && rows[i].capturedAt == IfBefore(log.completions[i], end)
  }

  ghost predicate Settles(ledger: seq<Txn>, end: nat, log: Log) {
    var rows := CapturedRows(ledger);
    && |rows| == |log.eligibles| == |log.completions|
    && forall i :: 0 <= i < |rows| ==>
         rows[i].capturedAt == Some(log.eligibles[i]) && rows[i].settledAt == IfBefore(log.completions[i], end)
  }

  /** Both queues were served by schedules of the configured stages. */
  ghost predicate Scheduled(cfg: Config, ledger: seq<Txn>) {
    exists captures, settles ::
      && IsSchedule(cfg.faults, Queue.Capture, cfg.captureDelay, cfg.captureCapacity, captures)
      && Captures(ledger, cfg.end, captures)
      && IsSchedule(cfg.faults, Queue.Settle, cfg.settleDelay, cfg.settleCapacity, settles)
      && Settles(ledger, cfg.end, settles)
  }

  /** A stage took one more, whose completion counts if the run is not over. */
  ghost predicate Passed(end: nat, before: Log, after: Log, eligible: nat, at: Option<nat>) {
    exists start, completion ::
      && after == Log(before.eligibles + [eligible], before.starts + [start], before.completions + [completion])
      && at == IfBefore(completion, end)
  }

  lemma PassedIsLast(end: nat, before: Log, after: Log, eligible: nat, at: Option<nat>)
    requires Passed(end, before, after, eligible, at)
    ensures before.completions <= after.completions && IsLast(at, after.completions)
  {
  }

  /** One row more: through the stage, or not. */
  lemma CapturesRow(ledger: seq<Txn>, txn: Txn, end: nat, before: Log, after: Log)
    requires Captures(ledger, end, before)
    requires if txn.authedAt.Some? then Passed(end, before, after, txn.authedAt.value, txn.capturedAt) else after == before
    ensures Captures(ledger + [txn], end, after)
  {
    assert (ledger + [txn])[..|ledger|] == ledger;
  }

  lemma SettlesRow(ledger: seq<Txn>, txn: Txn, end: nat, before: Log, after: Log)
    requires Settles(ledger, end, before)
    requires if txn.capturedAt.Some? then Passed(end, before, after, txn.capturedAt.value, txn.settledAt) else after == before
    ensures Settles(ledger + [txn], end, after)
  {
    assert (ledger + [txn])[..|ledger|] == ledger;
  }

  lemma FreshIsDrawn(cfg: Config, oracle: Oracle, draws: nat, id: nat, t: nat, recoveredFrom: Option<nat>)
    requires cfg.customers >= 1
    ensures Drawn(cfg, oracle, FreshTxn(cfg, oracle, draws, id, t, recoveredFrom).0)
  {
    var txn := FreshTxn(cfg, oracle, draws, id, t, recoveredFrom).0;
    var enterprise := txn.enterprise;
    assert MadeOf(cfg, oracle, txn, if enterprise then draws + 2 else draws, draws + 1, if enterprise then draws + 3 else draws + 2);
  }

  /** Progress through the stages changes nothing of it. */
  lemma StaysDrawn(cfg: Config, oracle: Oracle, txn: Txn, row: Txn)
    requires Drawn(cfg, oracle, txn)
    requires row.enterprise == txn.enterprise && row.amountMinor == txn.amountMinor && row.customer == txn.customer
    ensures Drawn(cfg, oracle, row)
  {
    var amount, segment, customer :| MadeOf(cfg, oracle, txn, amount, segment, customer);
    assert MadeOf(cfg, oracle, row, amount, segment, customer);
  }

  lemma RowIsFated(cfg: Config, oracle: Oracle, draws: nat, row: Txn)
    requires var fate := ApiFate(cfg.faults, row.createdAt, oracle, draws, Created).0;
             if fate == Created then row.authedAt == Some(row.createdAt) else row.state == fate
    ensures RowFated(cfg, oracle, row)
  {
    var rolls := FateIsRolled(cfg.faults, row.createdAt, oracle, draws, Created);
    hide ApiFate, Fated;
  }

  lemma DrawnNext(cfg: Config, oracle: Oracle, ledger: seq<Txn>, txn: Txn)
    requires RowsDrawn(cfg, oracle, ledger) && Drawn(cfg, oracle, txn) && RowFated(cfg, oracle, txn)
    ensures RowsDrawn(cfg, oracle, ledger + [txn])
  {
    hide Drawn, RowFated;
  }

  // ---- demand accounting, by the blackout it is attributed to ----

  /** The first active blackout: the one that governs minute t. */
  function Governing(faults: seq<FaultSpec>, t: nat): (f: Option<FaultSpec>)
    ensures f.Some? ==> f.value in faults && f.value.kind.Blackout? && f.value.Active(t)
  {
    if faults == [] then None
    else if faults[0].kind.Blackout? && faults[0].Active(t) then Some(faults[0])
    else Governing(faults[1..], t)
  }

  ghost predicate SourceIn(faults: seq<FaultSpec>, minute: nat, W: set<nat>) {
    Governing(faults, minute).Some? && Governing(faults, minute).value.from in W
  }

  /** Fresh arrivals suppressed by the blackouts that start in W. */
  ghost function FreshIn(faults: seq<FaultSpec>, suppressed: seq<SuppressedMinute>, W: set<nat>): nat {
    if suppressed == [] then 0 else
      var last := suppressed[|suppressed| - 1];
      FreshIn(faults, suppressed[..|suppressed| - 1], W) + if SourceIn(faults, last.minute, W) then last.count else 0
  }

  /** Ledger rows attributed to the blackouts that start in W. */
  ghost function RecoveredIn(ledger: seq<Txn>, W: set<nat>): nat {
    if ledger == [] then 0 else
      var from := ledger[|ledger| - 1].recoveredFrom;
      RecoveredIn(ledger[..|ledger| - 1], W) + if from.Some? && from.value in W then 1 else 0
  }

  ghost function CountIn(sources: seq<nat>, W: set<nat>): nat {
    if sources == [] then 0 else (if sources[0] in W then 1 else 0) + CountIn(sources[1..], W)
  }

  ghost function Counts(rearrive: map<nat, seq<nat>>, W: set<nat>): map<nat, int> {
    map k | k in rearrive :: CountIn(rearrive[k], W)
  }

  /** Re-arrivals still to come. */
  ghost function ScheduledIn(rearrive: map<nat, seq<nat>>, W: set<nat>): int {
    Sum(Counts(rearrive, W))
  }

  lemma {:induction false} CountInAppend(s: seq<nat>, x: nat, W: set<nat>)
    ensures CountIn(s + [x], W) == CountIn(s, W) + if x in W then 1 else 0
  {
    if s == [] {
    } else {
      CountInAppend(s[1..], x, W);
      assert (s + [x])[1..] == s[1..] + [x];
    }
  }

  lemma ScheduleOne(rearrive: map<nat, seq<nat>>, at: nat, source: nat, W: set<nat>)
    ensures var queue := if at in rearrive then rearrive[at] else [];
            ScheduledIn(rearrive[at := queue + [source]], W)
              == ScheduledIn(rearrive, W) + if source in W then 1 else 0
  {
    var queue := if at in rearrive then rearrive[at] else [];
    CountInAppend(queue, source, W);
    SumUpdate(Counts(rearrive, W), at, CountIn(queue + [source], W));
    assert Counts(rearrive[at := queue + [source]], W) == Counts(rearrive, W)[at := CountIn(queue + [source], W)];
  }

  lemma TakeDue(rearrive: map<nat, seq<nat>>, t: nat, W: set<nat>)
    ensures ScheduledIn(rearrive, W)
         == ScheduledIn(rearrive - {t}, W) + if t in rearrive then CountIn(rearrive[t], W) else 0
  {
    if t in rearrive {
      SumRemove(Counts(rearrive, W), t);
      assert Counts(rearrive - {t}, W) == Counts(rearrive, W) - {t};
    } else {
      assert rearrive - {t} == rearrive;
    }
  }

  function Repeat(source: nat, k: nat): seq<nat> {
    seq(k, _ => source)
  }

  lemma {:induction false} CountInRepeat(source: nat, k: nat, rest: seq<nat>, W: set<nat>)
    ensures CountIn(Repeat(source, k) + rest, W) == (if source in W then k else 0) + CountIn(rest, W)
  {
    if k == 0 {
      assert Repeat(source, k) + rest == rest;
    } else {
      CountInRepeat(source, k - 1, rest, W);
      assert (Repeat(source, k) + rest)[1..] == Repeat(source, k - 1) + rest;
    }
  }

  /** Where the rows of a minute come from: fresh arrivals, then the returns in
      the order due. */
  function Origins(arrivals: nat, due: seq<nat>): seq<Option<nat>> {
    seq(arrivals, _ => None) + seq(|due|, i requires 0 <= i < |due| => Some(due[i]))
  }

  // ---- demand, apart from how far its rows get ----

  /** origins holds, for each row in order, the blackout it is a return from. */
  datatype Demand = Demand(
    draws: nat, suppressed: seq<SuppressedMinute>, rearrive: map<nat, seq<nat>>, lost: seq<nat>, origins: seq<Option<nat>>)

  const NO_DEMAND := Demand(0, [], map[], [], [])

  /** When demand that blackout f suppressed returns, given the integer it drew. */
  function ReturnAt(f: FaultSpec, draw: nat): (at: nat)
    requires f.recoveryWithin > 0
    ensures at >= f.to && at * NANOS_PER_MINUTE < f.to * NANOS_PER_MINUTE + f.recoveryWithin
  {
    f.to + draw % f.recoveryWithin / NANOS_PER_MINUTE
  }

  /** It can be any minute of the recovery window. */
  lemma ReturnsSpread(f: FaultSpec, minute: nat)
    requires f.to * NANOS_PER_MINUTE <= minute * NANOS_PER_MINUTE < f.to * NANOS_PER_MINUTE + f.recoveryWithin
    ensures exists draw :: ReturnAt(f, draw) == minute
  {
    var draw := (minute - f.to) * NANOS_PER_MINUTE;
    assert draw % f.recoveryWithin == draw;
    assert ReturnAt(f, draw) == minute;
  }

  /** One suppressed arrival under blackout f: it returns after the blackout, or
      never. */
  function Rerolled(cfg: Config, oracle: Oracle, f: FaultSpec, source: nat, d: Demand): Demand
    requires f.Validate() && f.kind.Blackout?
  {
    if oracle.float(d.draws) < f.recoveredFraction then
      var at := ReturnAt(f, oracle.integer(d.draws + 1));
      if at < cfg.end then
        d.(draws := d.draws + 2, rearrive := d.rearrive[at := (if at in d.rearrive then d.rearrive[at] else []) + [source]])
      else d.(draws := d.draws + 2, lost := d.lost + [source])
    else d.(draws := d.draws + 1, lost := d.lost + [source])
  }

  function AllRerolled(cfg: Config, oracle: Oracle, f: FaultSpec, sources: seq<nat>, d: Demand): Demand
    requires f.Validate() && f.kind.Blackout?
  {
    if sources == [] then d
    else
      var n := |sources| - 1;
      Rerolled(cfg, oracle, f, sources[n], AllRerolled(cfg, oracle, f, sources[..n], d))
  }

  lemma DrawsDoNotDependOnId(cfg: Config, oracle: Oracle, draws: nat, id: nat, t: nat, origin: Option<nat>)
    requires cfg.customers >= 1
    ensures FreshTxn(cfg, oracle, draws, id, t, origin).1 == FreshTxn(cfg, oracle, draws, 0, t, origin).1
  {
  }

  /** One row: what it draws, and where it comes from. */
  function Entered(cfg: Config, oracle: Oracle, t: nat, origin: Option<nat>, d: Demand): Demand
    requires cfg.customers >= 1
  {
    d.(draws := ApiFate(cfg.faults, t, oracle, FreshTxn(cfg, oracle, d.draws, 0, t, origin).1, Created).1,
       origins := d.origins + [origin])
  }

  function AllEntered(cfg: Config, oracle: Oracle, t: nat, origins: seq<Option<nat>>, d: Demand): Demand
    requires cfg.customers >= 1
  {
    if origins == [] then d
    else
      var n := |origins| - 1;
      Entered(cfg, oracle, t, origins[n], AllEntered(cfg, oracle, t, origins[..n], d))
  }

  function DueAt(rearrive: map<nat, seq<nat>>, t: nat): seq<nat> { if t in rearrive then rearrive[t] else [] }

  /** Fresh arrivals of a blacked-out minute are recorded. */
  function Noted(d: Demand, t: nat, arrivals: nat): Demand {
    if arrivals > 0 then d.(suppressed := d.suppressed + [SuppressedMinute(t, arrivals)]) else d
  }

  /** What a minute does with demand. Under a blackout fresh arrivals are recorded
      as suppressed, and they and the returns due roll again; otherwise every
      arrival and then every return due becomes a row. */
  function MinuteOf(cfg: Config, oracle: Oracle, t: nat, d: Demand): Demand
    requires cfg.Valid()
  {
    var arrivals, due, g := oracle.poisson(d.draws), DueAt(d.rearrive, t), Governing(cfg.faults, t);
    var taken := d.(draws := d.draws + 1, rearrive := d.rearrive - {t});
    if g.Some? then
      AllRerolled(cfg, oracle, g.value, Repeat(g.value.from, arrivals) + due, Noted(taken, t, arrivals))
    else AllEntered(cfg, oracle, t, Origins(arrivals, due), taken)
  }

  /** The minutes from t to the end of the run. */
  function DemandFrom(cfg: Config, oracle: Oracle, t: nat, d: Demand): Demand
    requires cfg.Valid()
    decreases cfg.end - t
  {
    if t >= cfg.end then d else DemandFrom(cfg, oracle, t + 1, MinuteOf(cfg, oracle, t, d))
  }

  function DemandOf(cfg: Config, oracle: Oracle): Demand
    requires cfg.Valid()
  {
    DemandFrom(cfg, oracle, cfg.start, NO_DEMAND)
  }

  lemma NoneRerolled(cfg: Config, oracle: Oracle, f: FaultSpec, d: Demand)
    requires f.Validate() && f.kind.Blackout?
    ensures AllRerolled(cfg, oracle, f, [], d) == d
  {
  }

  lemma NextEntered(cfg: Config, oracle: Oracle, t: nat, origins: seq<Option<nat>>, origin: Option<nat>, d: Demand)
    requires cfg.customers >= 1
    ensures AllEntered(cfg, oracle, t, origins + [origin], d) == Entered(cfg, oracle, t, origin, AllEntered(cfg, oracle, t, origins, d))
  {
    assert (origins + [origin])[..|origins|] == origins;
  }

  lemma NoneEntered(cfg: Config, oracle: Oracle, t: nat, rows: seq<Txn>, d: Demand)
    requires cfg.customers >= 1
    ensures AllEntered(cfg, oracle, t, [], d) == d && AddedAt(rows, rows, t, [])
  {
  }

  // ---- its balance ----

  /** Rows that return from the blackouts that start in W. */
  ghost function ReturnedIn(origins: seq<Option<nat>>, W: set<nat>): nat {
    if origins == [] then 0 else
      var from := origins[|origins| - 1];
      ReturnedIn(origins[..|origins| - 1], W) + if from.Some? && from.value in W then 1 else 0
  }

  /** What the blackouts in W suppressed and is neither returned, nor scheduled to,
      nor lost. */
  ghost function Missing(faults: seq<FaultSpec>, d: Demand, W: set<nat>): int {
    FreshIn(faults, d.suppressed, W) - ReturnedIn(d.origins, W) - ScheduledIn(d.rearrive, W) - CountIn(d.lost, W)
  }

  /** Every scheduled return is due strictly later than t and within the run. */
  ghost predicate DueAfter(cfg: Config, d: Demand, t: int) {
    forall k :: k in d.rearrive ==> t < k < cfg.end
  }

  lemma RerollSettlesOne(cfg: Config, oracle: Oracle, f: FaultSpec, source: nat, t: nat, d: Demand, W: set<nat>)
    requires f.Validate() && f.kind.Blackout? && f.Active(t) && DueAfter(cfg, d, t)
    ensures var d' := Rerolled(cfg, oracle, f, source, d);
            && Missing(cfg.faults, d', W) == Missing(cfg.faults, d, W) - (if source in W then 1 else 0)
            && DueAfter(cfg, d', t) && d'.suppressed == d.suppressed && d'.origins == d.origins
  {
    CountInAppend(d.lost, source, W);
    if oracle.float(d.draws) < f.recoveredFraction {
      ScheduleOne(d.rearrive, ReturnAt(f, oracle.integer(d.draws + 1)), source, W);
    }
  }

  lemma {:induction false} RerollsSettleAll(cfg: Config, oracle: Oracle, f: FaultSpec, sources: seq<nat>, t: nat, d: Demand, W: set<nat>)
    requires f.Validate() && f.kind.Blackout? && f.Active(t) && DueAfter(cfg, d, t)
    ensures var d' := AllRerolled(cfg, oracle, f, sources, d);
            && Missing(cfg.faults, d', W) == Missing(cfg.faults, d, W) - CountIn(sources, W)
            && DueAfter(cfg, d', t) && d'.suppressed == d.suppressed && d'.origins == d.origins
  {
    hide Rerolled, Missing, DueAfter;
    if sources != [] {
      var n := |sources| - 1;
      RerollsSettleAll(cfg, oracle, f, sources[..n], t, d, W);
      RerollSettlesOne(cfg, oracle, f, sources[n], t, AllRerolled(cfg, oracle, f, sources[..n], d), W);
      CountInAppend(sources[..n], sources[n], W);
      assert sources == sources[..n] + [sources[n]];
    }
  }

  lemma {:induction false} RowsReturn(cfg: Config, oracle: Oracle, t: nat, origins: seq<Option<nat>>, d: Demand, W: set<nat>)
    requires cfg.customers >= 1
    ensures var d' := AllEntered(cfg, oracle, t, origins, d);
            && d' == d.(draws := d'.draws, origins := d.origins + origins)
            && Missing(cfg.faults, d', W) == Missing(cfg.faults, d, W) - ReturnedIn(origins, W)
  {
    hide ApiFate, FreshTxn, FreshIn, ScheduledIn, CountIn;
    if origins == [] {
      assert d.origins + origins == d.origins;
    } else {
      var n := |origins| - 1;
      RowsReturn(cfg, oracle, t, origins[..n], d, W);
      assert d.origins + origins == d.origins + origins[..n] + [origins[n]];
      assert (d.origins + origins)[..|d.origins + origins| - 1] == d.origins + origins[..n];
    }
  }

  lemma {:induction false} ReturnsDue(arrivals: nat, due: seq<nat>, W: set<nat>)
    ensures ReturnedIn(Origins(arrivals, due), W) == CountIn(due, W)
    decreases |due|, arrivals
  {
    var all := Origins(arrivals, due);
    if due != [] {
      var n := |due| - 1;
      ReturnsDue(arrivals, due[..n], W);
      CountInAppend(due[..n], due[n], W);
      assert due == due[..n] + [due[n]];
      assert all[..|all| - 1] == Origins(arrivals, due[..n]);
    } else if arrivals > 0 {
      ReturnsDue(arrivals - 1, due, W);
      assert all[..|all| - 1] == Origins(arrivals - 1, due);
    }
  }

  lemma TakenIsMissing(faults: seq<FaultSpec>, d: Demand, t: nat, W: set<nat>)
    ensures Missing(faults, d.(draws := d.draws + 1, rearrive := d.rearrive - {t}), W)
         == Missing(faults, d, W) + CountIn(DueAt(d.rearrive, t), W)
  {
    TakeDue(d.rearrive, t, W);
  }

  lemma NotedIsMissing(faults: seq<FaultSpec>, d: Demand, t: nat, arrivals: nat, W: set<nat>)
    requires Governing(faults, t).Some?
    ensures Missing(faults, Noted(d, t, arrivals), W)
         == Missing(faults, d, W) + if Governing(faults, t).value.from in W then arrivals else 0
  {
    var s := Noted(d, t, arrivals).suppressed;
    if arrivals > 0 {
      assert s[..|s| - 1] == d.suppressed;
    }
  }

  /** Nothing goes missing in any minute. */
  lemma MinuteIsBalanced(cfg: Config, oracle: Oracle, t: nat, d: Demand, W: set<nat>)
    requires cfg.Valid() && DueAfter(cfg, d, t - 1)
    ensures var d' := MinuteOf(cfg, oracle, t, d);
            Missing(cfg.faults, d', W) == Missing(cfg.faults, d, W) && DueAfter(cfg, d', t)
  {
    hide AllRerolled, AllEntered, Origins, Missing, CountIn;
    var arrivals, due, g := oracle.poisson(d.draws), DueAt(d.rearrive, t), Governing(cfg.faults, t);
    var taken := d.(draws := d.draws + 1, rearrive := d.rearrive - {t});
    TakenIsMissing(cfg.faults, d, t, W);
    if g.Some? {
      NotedIsMissing(cfg.faults, taken, t, arrivals, W);
      CountInRepeat(g.value.from, arrivals, due, W);
      RerollsSettleAll(cfg, oracle, g.value, Repeat(g.value.from, arrivals) + due, t, Noted(taken, t, arrivals), W);
    } else {
      ReturnsDue(arrivals, due, W);
      RowsReturn(cfg, oracle, t, Origins(arrivals, due), taken, W);
    }
  }

  lemma {:induction false} RunIsBalanced(cfg: Config, oracle: Oracle, t: nat, d: Demand, W: set<nat>)
    requires cfg.Valid() && DueAfter(cfg, d, t - 1) && Missing(cfg.faults, d, W) == 0
    ensures var d' := DemandFrom(cfg, oracle, t, d);
            Missing(cfg.faults, d', W) == 0 && (t <= cfg.end ==> d'.rearrive == map[])
    decreases cfg.end - t
  {
    hide MinuteOf, Missing;
    if t < cfg.end {
      MinuteIsBalanced(cfg, oracle, t, d, W);
      RunIsBalanced(cfg, oracle, t + 1, MinuteOf(cfg, oracle, t, d), W);
    }
  }

  /** For every random source and every set W of blackout starts: what those
      blackouts suppressed has returned or is lost. */
  lemma NothingLeftWaiting(cfg: Config, oracle: Oracle, W: set<nat>)
    requires cfg.Valid()
    ensures var d := DemandOf(cfg, oracle);
            FreshIn(cfg.faults, d.suppressed, W) == ReturnedIn(d.origins, W) + CountIn(d.lost, W)
  {
    assert Counts(NO_DEMAND.rearrive, W) == map[];
    assert Missing(cfg.faults, NO_DEMAND, W) == 0;
    RunIsBalanced(cfg, oracle, cfg.start, NO_DEMAND, W);
    if cfg.start <= cfg.end {
      assert Counts(DemandOf(cfg, oracle).rearrive, W) == map[];
    }
  }

  function OriginsOf(ledger: seq<Txn>): seq<Option<nat>> {
    seq(|ledger|, i requires 0 <= i < |ledger| => ledger[i].recoveredFrom)
  }

  lemma {:induction false} RecoveredIsReturned(ledger: seq<Txn>, W: set<nat>)
    ensures RecoveredIn(ledger, W) == ReturnedIn(OriginsOf(ledger), W)
  {
    if ledger != [] {
      var n := |ledger| - 1;
      RecoveredIsReturned(ledger[..n], W);
      assert OriginsOf(ledger)[..n] == OriginsOf(ledger[..n]);
    }
  }

  ghost predicate AddedAt(before: seq<Txn>, after: seq<Txn>, t: nat, origins: seq<Option<nat>>) {
    && |after| == |before| + |origins| && before <= after
    && forall i :: |before| <= i < |after| ==> after[i].createdAt == t && after[i].recoveredFrom == origins[i - |before|]
  }

  lemma AddOne(before: seq<Txn>, rows: seq<Txn>, rows': seq<Txn>, t: nat, origins: seq<Option<nat>>, origin: Option<nat>)
    requires AddedAt(before, rows, t, origins)
    requires |rows'| == |rows| + 1 && rows'[..|rows|] == rows
    requires rows'[|rows|].createdAt == t && rows'[|rows|].recoveredFrom == origin
    ensures AddedAt(before, rows', t, origins + [origin])
  {
    assert forall k :: 0 <= k < |rows| ==> rows'[k] == rows[k];
  }

  // ---- the run ----

  class Simulation {
    const cfg: Config
    const oracle: Oracle
    const capture: Stage
    const settle: Stage
    var draws: nat
    var ledger: seq<Txn>
    var suppressed: seq<SuppressedMinute>
    var rearrive: map<nat, seq<nat>>
    var n: nat

    /** The source of every suppressed arrival that will not return. */
    ghost var lost: seq<nat>

    /** The settle stage has seen nothing later than the capture stage's last
        completion. */
    ghost predicate Chained()
      reads capture, settle
    {
      && capture != settle && capture.Valid() && settle.Valid()
      && (settle.lastEligible == 0 ||
          (capture.completions != [] && settle.lastEligible <= capture.completions[|capture.completions| - 1]))
    }

    /** The stages are those of the configuration. */
    ghost predicate Configured() {
      && capture.delay == cfg.captureDelay && capture.capacity == cfg.captureCapacity
      && (forall t: nat :: InUnion(capture.stalls, t) <==> StalledBy(cfg.faults, Queue.Capture, t))
      && settle.delay == cfg.settleDelay && settle.capacity == cfg.settleCapacity
      && (forall t: nat :: InUnion(settle.stalls, t) <==> StalledBy(cfg.faults, Queue.Settle, t))
    }

    /** The given rows are what the stages and the draws made of their arrivals. */
    ghost predicate Records(rows: seq<Txn>)
      reads capture, settle
    {
      Captures(rows, cfg.end, capture.History()) && Settles(rows, cfg.end, settle.History()) && RowsDrawn(cfg, oracle, rows)
    }

    ghost predicate Valid()
      reads this, capture, settle
    {
      Sound() && Records(ledger)
    }

    ghost predicate Sound()
      reads this, capture, settle
    {
      && cfg.Valid() && Configured() && Chained() && n == |ledger| && LedgerOk(ledger, cfg.end)
      && Fifo(ledger, capture.completions, settle.completions)
    }

    /** The demand side of the state. */
    ghost function View(): Demand
      reads this
    {
      Demand(draws, suppressed, rearrive, lost, OriginsOf(ledger))
    }

    constructor (cfg: Config, oracle: Oracle)
      requires cfg.Valid()
      ensures Valid() && View() == NO_DEMAND
      ensures this.cfg == cfg && this.oracle == oracle && capture.lastEligible == 0 && ledger == []
      ensures fresh(capture) && fresh(settle)
    {
      this.cfg := cfg;
      this.oracle := oracle;
      var c := new Stage(cfg.captureDelay, cfg.captureCapacity, Queue.Capture, cfg.faults);
      var s := new Stage(cfg.settleDelay, cfg.settleCapacity, Queue.Settle, cfg.faults);
      capture := c;
      settle := s;
      draws, n := 0, 0;
      ledger, suppressed, lost := [], [], [];
      rearrive := map[];
    }

    method Float() returns (x: unit)
      modifies `draws
      ensures x == oracle.float(old(draws)) && draws == old(draws) + 1
    {
      x := oracle.float(draws);
      draws := draws + 1;
    }

    method IntBelow(bound: nat) returns (x: nat)
      requires bound > 0
      modifies `draws
      ensures x == oracle.integer(old(draws)) % bound < bound && draws == old(draws) + 1
    {
      x := oracle.integer(draws) % bound;
      draws := draws + 1;
    }

    method NewTxn(id: nat, t: nat, recoveredFrom: Option<nat>) returns (txn: Txn)
      requires cfg.customers >= 1
      modifies `draws
      ensures (txn, draws) == FreshTxn(cfg, oracle, old(draws), id, t, recoveredFrom)
      ensures txn.id == id && txn.createdAt == t && txn.recoveredFrom == recoveredFrom
      ensures txn.authedAt.None? && txn.capturedAt.None? && txn.settledAt.None?
      ensures if txn.enterprise then 31000 <= txn.amountMinor < 151000 else 4200 <= txn.amountMinor < 24200
    {
      var spread := IntBelow(20000);
      var enterprise, amount := false, 4200 + spread;
      var x := Float();
      if x < cfg.enterpriseFraction {
        spread := IntBelow(120000);
        enterprise, amount := true, 31000 + spread;
      }
      var customer := IntBelow(cfg.customers);
      txn := Txn(id, customer, enterprise, amount, t, None, None, None, Created, recoveredFrom);
    }

    /** The api faults, in the order they are listed. */
    method ApiOutcome(t: nat) returns (state: State)
      modifies `draws
      ensures state == Created || state == Abandoned || state == AuthFail
      ensures (state, draws) == ApiFate(cfg.faults, t, oracle, old(draws), Created)
    {
      state := Created;
      for i := 0 to |cfg.faults|
        invariant state == Created || state == Abandoned || state == AuthFail
        invariant ApiFate(cfg.faults[i..], t, oracle, draws, state)
               == ApiFate(cfg.faults, t, oracle, old(draws), Created)
      {
        var f := cfg.faults[i];
        assert cfg.faults[i..][0] == f && cfg.faults[i..][1..] == cfg.faults[i + 1..];
        if f.Active(t) {
          if f.kind.ApiLatency? {
            var x := Float();
            if x < f.rate {
              state := Abandoned;
            }
          } else if f.kind.Api5xx? {
            if state != Abandoned {
              var x := Float();
              if x < f.rate {
                state := AuthFail;
              }
            }
          }
        }
      }
    }

    /** Capture, then settle. Captures complete in order, so neither stage's
        ordering check can fail. */
    method ThroughStages(t: nat) returns (capturedAt: Option<nat>, settledAt: Option<nat>)
      requires Chained() && capture.lastEligible <= t
      modifies capture, settle
      ensures Chained()
      ensures capturedAt.Some? ==> t <= capturedAt.value < cfg.end
      ensures settledAt.Some? ==> capturedAt.Some? && capturedAt.value <= settledAt.value < cfg.end
      ensures Passed(cfg.end, old(capture.History()), capture.History(), t, capturedAt) && capture.lastEligible == t
      ensures if capturedAt.Some? then
                Passed(cfg.end, old(settle.History()), settle.History(), capturedAt.value, settledAt)
                && settle.lastEligible == capturedAt.value
              else settledAt.None? && unchanged(settle)
    {
      hide Stage.Valid, TakenThroughout;
      ghost var before := capture.completions;
      var capAt, _ := capture.Schedule(t);
      assert capAt.Success?;
      capture.CompletionsInOrder();
      assert before != [] ==> before[|before| - 1] <= capAt.value by {
        assert capture.completions == before + [capAt.value];
        assert before != [] ==> capture.completions[|before| - 1] <= capture.completions[|before|];
      }
      if capAt.value >= cfg.end {
        return None, None;
      }
      var setAt, _ := settle.Schedule(capAt.value);
      assert setAt.Success?;
      return Some(capAt.value), IfBefore(setAt.value, cfg.end);
    }

    /** One arrival at minute t: a new one, or a return. */
    method Process(t: nat, recoveredFrom: Option<nat>)
      requires Valid() && capture.lastEligible <= t < cfg.end
      modifies `draws, `n, `ledger, capture, settle
      ensures Valid() && capture.lastEligible <= t
      ensures |ledger| == |old(ledger)| + 1 && ledger[..|old(ledger)|] == old(ledger)
      ensures ledger[|old(ledger)|].createdAt == t && ledger[|old(ledger)|].recoveredFrom == recoveredFrom
      ensures var (txn, rolls) := FreshTxn(cfg, oracle, old(draws), old(n) + 1, t, recoveredFrom);
              var (fate, rest) := ApiFate(cfg.faults, t, oracle, rolls, Created);
              && draws == rest
              && var row := ledger[|old(ledger)|];
                 if fate != Created then row == txn.(state := fate) && unchanged(capture) && unchanged(settle)
                 else
                   && row == Progress(txn, t, row.capturedAt, row.settledAt)
                   && Passed(cfg.end, old(capture.History()), capture.History(), t, row.capturedAt)
                   && if row.capturedAt.Some? then
                        Passed(cfg.end, old(settle.History()), settle.History(), row.capturedAt.value, row.settledAt)
                      else row.settledAt.None? && unchanged(settle)
    {
      hide ApiFate, FreshTxn, Stage.Valid, Fifo, Passed, Captures, Settles, RowsDrawn, Drawn, RowFated, LedgerOk,
           Simulation.Configured;
      ghost var rows, captures, settles := ledger, capture.History(), settle.History();
      FreshIsDrawn(cfg, oracle, draws, n + 1, t, recoveredFrom);
      var txn := NewTxn(n + 1, t, recoveredFrom);
      ghost var made := txn;
      ghost var rolls := draws;
      var state := ApiOutcome(t);
      txn := txn.(state := state);
      if state == Created {
        var capturedAt, settledAt := ThroughStages(t);
        txn := Progress(txn, t, capturedAt, settledAt);
        PassedIsLast(cfg.end, captures, capture.History(), t, capturedAt);
        if capturedAt.Some? {
          PassedIsLast(cfg.end, settles, settle.History(), capturedAt.value, settledAt);
        }
        GrowsFifo(captures, settles);
      }
      StaysDrawn(cfg, oracle, made, txn);
      RowIsFated(cfg, oracle, rolls, txn);
      CapturesRow(rows, txn, cfg.end, captures, capture.History());
      SettlesRow(rows, txn, cfg.end, settles, settle.History());
      DrawnNext(cfg, oracle, rows, txn);
      Append(txn);
    }

    lemma GrowsFifo(captures: Log, settles: Log)
      requires Fifo(ledger, captures.completions, settles.completions) && Chained()
      requires captures.completions <= capture.completions && settles.completions <= settle.completions
      ensures Fifo(ledger, capture.completions, settle.completions)
    {
      capture.CompletionsInOrder();
      settle.CompletionsInOrder();
      FifoGrows(ledger, captures.completions, settles.completions, capture.completions, settle.completions);
    }

    lemma IsScheduled()
      requires Valid()
      ensures Scheduled(cfg, ledger)
    {
      hide Stage.Valid, IsSchedule, StalledBy, Captures, Settles, RowsDrawn, Fifo, LedgerOk;
      capture.IsOnSchedule(cfg.faults, Queue.Capture);
      settle.IsOnSchedule(cfg.faults, Queue.Settle);
    }

    method Append(txn: Txn)
      requires Sound() && Records(ledger + [txn])
      requires txn.id == n + 1 && TxnOk(txn, cfg.end)
      requires IsLast(txn.capturedAt, capture.completions) && IsLast(txn.settledAt, settle.completions)
      modifies `n, `ledger
      ensures Valid() && ledger == old(ledger) + [txn]
    {
      hide Captures, Settles, RowsDrawn, Stage.Valid, Simulation.Configured, Fifo;
      FifoAppend(ledger, txn, capture.completions, settle.completions);
      n := n + 1;
      ledger := ledger + [txn];
    }

    /** A suppressed arrival rolls for its return. */
    method Reroll(f: FaultSpec, source: nat)
      requires f.Validate() && f.kind.Blackout?
      modifies `draws, `rearrive, `lost
      ensures View() == Rerolled(cfg, oracle, f, source, old(View()))
    {
      var x := Float();
      if x < f.recoveredFraction {
        var offset := IntBelow(f.recoveryWithin);
        var at: nat := f.to + offset / NANOS_PER_MINUTE;
        if at < cfg.end {
          rearrive := rearrive[at := (if at in rearrive then rearrive[at] else []) + [source]];
          return;
        }
      }
      lost := lost + [source];
    }

    /** A minute under a blackout: nothing enters. Fresh arrivals are recorded as
        suppressed; they and the recoveries due now all roll again. */
    method BlackedOut(f: FaultSpec, t: nat, arrivals: nat, due: seq<nat>)
      requires f.Validate() && f.kind.Blackout?
      modifies `draws, `rearrive, `lost, `suppressed
      ensures View() == AllRerolled(cfg, oracle, f, Repeat(f.from, arrivals) + due, Noted(old(View()), t, arrivals))
    {
      hide AllRerolled;
      ghost var sources := Repeat(f.from, arrivals) + due;
      if arrivals > 0 {
        suppressed := suppressed + [SuppressedMinute(t, arrivals)];
      }
      ghost var noted := View();
      NoneRerolled(cfg, oracle, f, noted);
      assert sources[..0] == [] && sources[..|sources|] == sources;
      for i := 0 to arrivals
        invariant View() == AllRerolled(cfg, oracle, f, sources[..i], noted)
      {
        RollNext(f, f.from, sources, i, noted);
      }
      for i := 0 to |due|
        invariant View() == AllRerolled(cfg, oracle, f, sources[..arrivals + i], noted)
      {
        RollNext(f, due[i], sources, arrivals + i, noted);
      }
    }

    method RollNext(f: FaultSpec, source: nat, ghost sources: seq<nat>, ghost i: nat, ghost noted: Demand)
      requires f.Validate() && f.kind.Blackout? && i < |sources| && sources[i] == source
      requires View() == AllRerolled(cfg, oracle, f, sources[..i], noted)
      modifies `draws, `rearrive, `lost
      ensures View() == AllRerolled(cfg, oracle, f, sources[..i + 1], noted)
    {
      hide Rerolled;
      Reroll(f, source);
      assert sources[..i + 1][..i] == sources[..i];
    }

    /** The first i rows of a minute are in. */
    ghost predicate RowsIn(t: nat, rows: seq<Txn>, origins: seq<Option<nat>>, i: nat, was: Demand)
      requires i <= |origins| && cfg.customers >= 1
      reads this
    {
      AddedAt(rows, ledger, t, origins[..i]) && View() == AllEntered(cfg, oracle, t, origins[..i], was)
    }

    method OpenMinute(t: nat, arrivals: nat, due: seq<nat>)
      requires Valid() && capture.lastEligible <= t < cfg.end
      modifies `draws, `n, `ledger, capture, settle
      ensures Valid() && capture.lastEligible <= t
      ensures AddedAt(old(ledger), ledger, t, Origins(arrivals, due))
      ensures View() == AllEntered(cfg, oracle, t, Origins(arrivals, due), old(View()))
    {
      ghost var origins, was := Origins(arrivals, due), View();
      ghost var rows := ledger;
      assert origins[..0] == [] && origins[..|origins|] == origins;
      NoneEntered(cfg, oracle, t, rows, was);
      FreshArrivals(t, arrivals, rows, origins, was);
      DueReturns(t, arrivals, due, rows, origins, was);
    }

    method FreshArrivals(t: nat, arrivals: nat, ghost rows: seq<Txn>, ghost origins: seq<Option<nat>>, ghost was: Demand)
      requires Valid() && capture.lastEligible <= t < cfg.end
      requires arrivals <= |origins| && (forall i :: 0 <= i < arrivals ==> origins[i] == None) && RowsIn(t, rows, origins, 0, was)
      modifies `draws, `n, `ledger, capture, settle
      ensures Valid() && capture.lastEligible <= t && RowsIn(t, rows, origins, arrivals, was)
    {
      hide Stage.Valid, Simulation.RowsIn, Fifo, LedgerOk;
      for i := 0 to arrivals
        invariant Valid() && capture.lastEligible <= t && RowsIn(t, rows, origins, i, was)
      {
        Enter(t, None, rows, origins, i, was);
      }
    }

    method DueReturns(t: nat, ghost arrivals: nat, due: seq<nat>, ghost rows: seq<Txn>, ghost origins: seq<Option<nat>>,
                      ghost was: Demand)
      requires Valid() && capture.lastEligible <= t < cfg.end && |origins| == arrivals + |due|
      requires (forall i :: 0 <= i < |due| ==> origins[arrivals + i] == Some(due[i])) && RowsIn(t, rows, origins, arrivals, was)
      modifies `draws, `n, `ledger, capture, settle
      ensures Valid() && capture.lastEligible <= t && RowsIn(t, rows, origins, |origins|, was)
    {
      hide Stage.Valid, Simulation.RowsIn, Fifo, LedgerOk;
      for i := 0 to |due|
        invariant Valid() && capture.lastEligible <= t && RowsIn(t, rows, origins, arrivals + i, was)
      {
        Enter(t, Some(due[i]), rows, origins, arrivals + i, was);
      }
    }

    /** The row of the i-th origin. */
    method Enter(t: nat, origin: Option<nat>, ghost rows: seq<Txn>, ghost origins: seq<Option<nat>>, ghost i: nat, ghost was: Demand)
      requires Valid() && capture.lastEligible <= t < cfg.end
      requires i < |origins| && origins[i] == origin && RowsIn(t, rows, origins, i, was)
      modifies `draws, `n, `ledger, capture, settle
      ensures Valid() && capture.lastEligible <= t && RowsIn(t, rows, origins, i + 1, was)
    {
      ghost var before, v := ledger, View();
      hide Stage.Valid, AddedAt, AllEntered, Fifo, LedgerOk, ApiFate, FreshTxn, Passed, Simulation.Records, Simulation.Configured;
      Process(t, origin);
      DrawsDoNotDependOnId(cfg, oracle, v.draws, |v.origins| + 1, t, origin);
      NextEntered(cfg, oracle, t, origins[..i], origin, was);
      assert origins[..i + 1] == origins[..i] + [origin];
      AddOne(rows, before, ledger, t, origins[..i], origin);
      assert OriginsOf(ledger) == v.origins + [origin];
    }

    /** One tick of the clock. */
    method Minute(t: nat)
      requires Valid() && capture.lastEligible <= t < cfg.end
      modifies this, capture, settle
      ensures Valid() && capture.lastEligible <= t
      ensures View() == MinuteOf(cfg, oracle, t, old(View()))
      ensures if Governing(cfg.faults, t).Some? then ledger == old(ledger) && unchanged(capture) && unchanged(settle)
              else AddedAt(old(ledger), ledger, t, Origins(oracle.poisson(old(draws)), DueAt(old(rearrive), t)))
    {
      hide Stage.Valid, AllRerolled, AllEntered, AddedAt, Fifo, LedgerOk, Simulation.Chained, Simulation.Configured,
           Simulation.Records;
      var arrivals := oracle.poisson(draws);
      draws := draws + 1;
      var due := DueAt(rearrive, t);
      rearrive := rearrive - {t};
      var blackout := Governing(cfg.faults, t);
      if blackout.Some? {
        BlackedOut(blackout.value, t, arrivals, due);
      } else {
        OpenMinute(t, arrivals, due);
      }
    }
  }

  // ---- results ----

  datatype RunResult = RunResult(ledger: seq<Txn>, suppressed: seq<SuppressedMinute>)

  predicate SuppressedOk(cfg: Config, suppressed: seq<SuppressedMinute>) {
    forall i :: 0 <= i < |suppressed| ==>
      cfg.start <= suppressed[i].minute < cfg.end && Governing(cfg.faults, suppressed[i].minute).Some?
  }

  /** Rows come in order of creation, none of them in a blacked-out minute. */
  predicate CreatedOpen(cfg: Config, ledger: seq<Txn>) {
    && (forall i :: 0 <= i < |ledger| ==> cfg.start <= ledger[i].createdAt && Governing(cfg.faults, ledger[i].createdAt).None?)
    && forall i, j :: 0 <= i <= j < |ledger| ==> ledger[i].createdAt <= ledger[j].createdAt
  }

  /** What is known of a run before minute t. */
  ghost predicate SoFar(cfg: Config, oracle: Oracle, sim: Simulation, t: nat)
    requires cfg.Valid()
    reads sim
  {
    && SuppressedOk(cfg, sim.suppressed) && CreatedOpen(cfg, sim.ledger)
    && (forall i :: 0 <= i < |sim.ledger| ==> sim.ledger[i].createdAt < t)
    && DemandFrom(cfg, oracle, t, sim.View()) == DemandOf(cfg, oracle)
  }

  lemma StaysOpen(cfg: Config, before: seq<Txn>, after: seq<Txn>, t: nat, origins: seq<Option<nat>>)
    requires CreatedOpen(cfg, before) && (forall i :: 0 <= i < |before| ==> before[i].createdAt < t)
    requires cfg.start <= t && Governing(cfg.faults, t).None? && AddedAt(before, after, t, origins)
    ensures CreatedOpen(cfg, after) && forall i :: 0 <= i < |after| ==> after[i].createdAt < t + 1
  {
    assert forall i :: 0 <= i < |before| ==> after[i] == before[i];
    hide Governing;
  }

  /** A minute records at most itself as suppressed, and only under a blackout. */
  lemma SuppressesItself(cfg: Config, oracle: Oracle, t: nat, d: Demand)
    requires cfg.Valid() && cfg.start <= t < cfg.end && SuppressedOk(cfg, d.suppressed)
    ensures SuppressedOk(cfg, MinuteOf(cfg, oracle, t, d).suppressed)
  {
    hide AllRerolled, AllEntered;
    var arrivals, due, g := oracle.poisson(d.draws), DueAt(d.rearrive, t), Governing(cfg.faults, t);
    var taken := d.(draws := d.draws + 1, rearrive := d.rearrive - {t});
    if g.Some? {
      KeepsSuppressed(cfg, oracle, g.value, Repeat(g.value.from, arrivals) + due, Noted(taken, t, arrivals));
    } else {
      RowsReturn(cfg, oracle, t, Origins(arrivals, due), taken, {});
    }
  }

  lemma {:induction false} KeepsSuppressed(cfg: Config, oracle: Oracle, f: FaultSpec, sources: seq<nat>, d: Demand)
    requires f.Validate() && f.kind.Blackout?
    ensures AllRerolled(cfg, oracle, f, sources, d).suppressed == d.suppressed
  {
    if sources != [] {
      KeepsSuppressed(cfg, oracle, f, sources[..|sources| - 1], d);
    }
  }

  lemma Nothing(cfg: Config, oracle: Oracle, sim: Simulation)
    requires cfg.Valid() && sim.ledger == [] && sim.View() == NO_DEMAND
    ensures SoFar(cfg, oracle, sim, cfg.start)
  {
  }

  lemma AtTheEnd(cfg: Config, oracle: Oracle, sim: Simulation, t: nat)
    requires cfg.Valid() && t >= cfg.end && SoFar(cfg, oracle, sim, t) && sim.Valid() && sim.cfg == cfg
    ensures LedgerOk(sim.ledger, cfg.end) && CreatedOpen(cfg, sim.ledger) && InOrder(sim.ledger)
    ensures SuppressedOk(cfg, sim.suppressed) && sim.View() == DemandOf(cfg, oracle)
    ensures Scheduled(cfg, sim.ledger) && RowsDrawn(cfg, sim.oracle, sim.ledger)
  {
    sim.IsScheduled();
    hide Stage.Valid, Scheduled, RowsDrawn, Captures, Settles, Simulation.Configured;
  }

  method Tick(cfg: Config, oracle: Oracle, sim: Simulation, t: nat)
    requires cfg.Valid() && sim.Valid() && sim.capture.lastEligible <= t < cfg.end
    requires sim.cfg == cfg && sim.oracle == oracle && cfg.start <= t && SoFar(cfg, oracle, sim, t)
    modifies sim, sim.capture, sim.settle
    ensures sim.Valid() && sim.capture.lastEligible <= t && SoFar(cfg, oracle, sim, t + 1)
  {
    hide Stage.Valid, Governing, CreatedOpen, SuppressedOk, Origins, AddedAt, MinuteOf, Simulation.Valid;
    ghost var was, d := sim.ledger, sim.View();
    sim.Minute(t);
    SuppressesItself(cfg, oracle, t, d);
    if Governing(cfg.faults, t).None? {
      StaysOpen(cfg, was, sim.ledger, t, Origins(oracle.poisson(d.draws), DueAt(d.rearrive, t)));
    }
  }

  /** Whatever the random source does, the run finishes with a well-formed ledger.
      Its rows have the fates they rolled and were served by schedules of the
      configured stages; its demand is what the random source decides, whatever the
      stages do. */
  method Run(cfg: Config, oracle: Oracle) returns (res: RunResult, ghost lost: seq<nat>)
    requires cfg.Valid()
    ensures LedgerOk(res.ledger, cfg.end) && CreatedOpen(cfg, res.ledger) && InOrder(res.ledger)
    ensures SuppressedOk(cfg, res.suppressed)
    ensures Scheduled(cfg, res.ledger) && RowsDrawn(cfg, oracle, res.ledger)
    ensures var d := DemandOf(cfg, oracle);
            OriginsOf(res.ledger) == d.origins && res.suppressed == d.suppressed && lost == d.lost
    ensures forall W: set<nat> ::
              FreshIn(cfg.faults, res.suppressed, W) == RecoveredIn(res.ledger, W) + CountIn(lost, W)
  {
    hide Stage.Valid, CreatedOpen, SuppressedOk, LedgerOk, InOrder, DemandFrom, SoFar, FreshIn, RecoveredIn, CountIn, Scheduled,
         RowsDrawn, Simulation.Valid;
    var sim := new Simulation(cfg, oracle);
    var t := cfg.start;
    Nothing(cfg, oracle, sim);
    while t < cfg.end
      invariant cfg.start <= t && (t <= cfg.end || t == cfg.start)
      invariant fresh(sim) && fresh(sim.capture) && fresh(sim.settle) && sim.cfg == cfg && sim.oracle == oracle
      invariant sim.Valid() && sim.capture.lastEligible <= t
      invariant SoFar(cfg, oracle, sim, t)
      decreases cfg.end - t
    {
      Tick(cfg, oracle, sim, t);
      t := t + 1;
    }
    res := RunResult(sim.ledger, sim.suppressed);
    lost := sim.lost;
    AtTheEnd(cfg, oracle, sim, t);
    forall W: set<nat>
      ensures FreshIn(cfg.faults, res.suppressed, W) == RecoveredIn(res.ledger, W) + CountIn(lost, W)
    {
      NothingLeftWaiting(cfg, oracle, W);
      RecoveredIsReturned(res.ledger, W);
    }
  }
}
