/** The golden numbers a run is judged by (testkit/expected.go). */
module Expected {
  import opened Wrappers
  import opened Faults
  import opened FiniteSums
  import opened Checkout

  datatype Expected = Expected(
    realizedCount: nat, realizedMinor: nat,
    deferredCount: nat, deferredMinor: nat, inCapture: nat, inSettle: nat,
    oldestAgeMin: nat, captureBreaches: nat,
    abandonedCount: nat, abandonedMinor: nat,
    suppressedCount: nat, recoveredCount: nat, netLost: int,
    customers: set<nat>)

  datatype GuardError = RecoveredExceedsSuppressed

  predicate InWindow(t: nat, from: nat, to: nat) { from <= t < to }

  // ---- what each row is at the snapshot ----

  predicate Failed(txn: Txn, from: nat, to: nat) {
    (txn.state.AuthFail? || txn.state.CapFail?) && InWindow(txn.createdAt, from, to)
  }

  predicate GaveUp(txn: Txn, from: nat, to: nat) {
    txn.state.Abandoned? && InWindow(txn.createdAt, from, to)
  }

  /** Authed by the snapshot and not captured by then. */
  predicate InCapture(txn: Txn, snapshot: nat) {
    && !txn.state.AuthFail? && !txn.state.CapFail? && !txn.state.Abandoned?
    && txn.authedAt.Some? && txn.authedAt.value <= snapshot
    && (txn.capturedAt.None? || txn.capturedAt.value > snapshot)
  }

  predicate InSettle(txn: Txn, snapshot: nat) {
    && !txn.state.AuthFail? && !txn.state.CapFail? && !txn.state.Abandoned?
    && txn.authedAt.Some? && txn.authedAt.value <= snapshot
    && txn.capturedAt.Some? && txn.capturedAt.value <= snapshot
    && (txn.settledAt.None? || txn.settledAt.value > snapshot)
  }

  predicate Deferred(txn: Txn, snapshot: nat) { InCapture(txn, snapshot) || InSettle(txn, snapshot) }

  predicate Breached(txn: Txn, snapshot: nat, sla: nat) {
    InCapture(txn, snapshot) && snapshot - txn.authedAt.value > sla
  }

  function Age(txn: Txn, snapshot: nat): nat
    requires Deferred(txn, snapshot)
  {
    snapshot - (if InCapture(txn, snapshot) then txn.authedAt else txn.capturedAt).value
  }

  ghost function Count(ledger: seq<Txn>, p: Txn -> bool): nat {
    if ledger == [] then 0
    else Count(ledger[..|ledger| - 1], p) + if p(ledger[|ledger| - 1]) then 1 else 0
  }

  ghost function Total(ledger: seq<Txn>, p: Txn -> bool): nat {
    if ledger == [] then 0
    else Total(ledger[..|ledger| - 1], p) + if p(ledger[|ledger| - 1]) then ledger[|ledger| - 1].amountMinor else 0
  }

  ghost function SuppressedIn(suppressed: seq<SuppressedMinute>, from: nat, to: nat): nat {
    if suppressed == [] then 0 else
      var last := suppressed[|suppressed| - 1];
      SuppressedIn(suppressed[..|suppressed| - 1], from, to) + if InWindow(last.minute, from, to) then last.count else 0
  }

  ghost function Window(from: nat, to: nat): (W: set<nat>)
    ensures forall t: nat :: t in W <==> InWindow(t, from, to)
  {
    if to <= from then {} else Window(from, to - 1) + {to - 1}
  }

  /** The numbers, each by its own definition over the whole ledger. */
  ghost predicate Matches(e: Expected, ledger: seq<Txn>, from: nat, to: nat, sla: nat) {
    && e.realizedCount == Count(ledger, t => Failed(t, from, to))
    && e.realizedMinor == Total(ledger, t => Failed(t, from, to))
    && e.deferredCount == Count(ledger, t => Deferred(t, to))
    && e.deferredMinor == Total(ledger, t => Deferred(t, to))
    && e.inCapture == Count(ledger, t => InCapture(t, to))
    && e.inSettle == Count(ledger, t => InSettle(t, to))
    && e.captureBreaches == Count(ledger, t => Breached(t, to, sla))
    && e.abandonedCount == Count(ledger, t => GaveUp(t, from, to))
    && e.abandonedMinor == Total(ledger, t => GaveUp(t, from, to))
    && e.customers == (set t | t in ledger && (Failed(t, from, to) || Deferred(t, to)) :: t.customer)
    && (forall t :: t in ledger && Deferred(t, to) ==> Age(t, to) <= e.oldestAgeMin)
    && (e.oldestAgeMin == 0 || exists t :: t in ledger && Deferred(t, to) && Age(t, to) == e.oldestAgeMin)
  }

  const BLANK := Expected(0, 0, 0, 0, 0, 0, 0, 0, 0, 0, 0, 0, 0, {})

  /** One row of the ledger pass. */
  function AddRow(e: Expected, txn: Txn, from: nat, to: nat, sla: nat): Expected {
    if txn.state.AuthFail? || txn.state.CapFail? then
      if InWindow(txn.createdAt, from, to) then
        e.(realizedCount := e.realizedCount + 1, realizedMinor := e.realizedMinor + txn.amountMinor,
           customers := e.customers + {txn.customer})
      else e
    else if txn.state.Abandoned? then
      if InWindow(txn.createdAt, from, to) then
        e.(abandonedCount := e.abandonedCount + 1, abandonedMinor := e.abandonedMinor + txn.amountMinor)
      else e
    else if txn.authedAt.None? || txn.authedAt.value > to then e
    else
      var inCapture := txn.capturedAt.None? || txn.capturedAt.value > to;
      var inSettle := !inCapture && (txn.settledAt.None? || txn.settledAt.value > to);
      if !inCapture && !inSettle then e else
        var age: nat := to - (if inCapture then txn.authedAt.value else txn.capturedAt.value);
        e.(deferredCount := e.deferredCount + 1, deferredMinor := e.deferredMinor + txn.amountMinor,
           customers := e.customers + {txn.customer},
           inCapture := e.inCapture + (if inCapture then 1 else 0),
           inSettle := e.inSettle + (if inCapture then 0 else 1),
           captureBreaches := e.captureBreaches + (if inCapture && age > sla then 1 else 0),
           oldestAgeMin := if age > e.oldestAgeMin then age else e.oldestAgeMin)
  }

  lemma RowKeepsMatch(e: Expected, ledger: seq<Txn>, txn: Txn, from: nat, to: nat, sla: nat)
    requires Matches(e, ledger, from, to, sla)
    ensures Matches(AddRow(e, txn, from, to, sla), ledger + [txn], from, to, sla)
  {
    assert (ledger + [txn])[..|ledger|] == ledger;
    var e' := AddRow(e, txn, from, to, sla);
    assert forall t :: t in ledger + [txn] <==> t in ledger || t == txn;
    if e'.oldestAgeMin != 0 {
      if e'.oldestAgeMin == e.oldestAgeMin {
        var t :| t in ledger && Deferred(t, to) && Age(t, to) == e.oldestAgeMin;
        assert t in ledger + [txn];
      } else {
        assert txn in ledger + [txn] && Deferred(txn, to);
      }
    }
  }

  method ComputeExpected(res: RunResult, from: nat, to: nat, sla: nat) returns (r: Result<Expected, GuardError>)
    ensures r.Failure? <==> SuppressedIn(res.suppressed, from, to) < RecoveredIn(res.ledger, Window(from, to))
    ensures r.Success? ==>
              && Matches(r.value, res.ledger, from, to, sla)
              && r.value.suppressedCount == SuppressedIn(res.suppressed, from, to)
              && r.value.recoveredCount == RecoveredIn(res.ledger, Window(from, to))
              && r.value.netLost == r.value.suppressedCount - r.value.recoveredCount
  {
    var e := BLANK;
    for i := 0 to |res.ledger|
      invariant Matches(e, res.ledger[..i], from, to, sla)
      invariant e.suppressedCount == 0 && e.recoveredCount == 0
    {
      RowKeepsMatch(e, res.ledger[..i], res.ledger[i], from, to, sla);
      assert res.ledger[..i + 1] == res.ledger[..i] + [res.ledger[i]];
      e := AddRow(e, res.ledger[i], from, to, sla);
    }
    assert res.ledger[..|res.ledger|] == res.ledger;
    var suppressedCount := 0;
    for i := 0 to |res.suppressed|
      invariant suppressedCount == SuppressedIn(res.suppressed[..i], from, to)
    {
      assert res.suppressed[..i + 1][..i] == res.suppressed[..i];
      if InWindow(res.suppressed[i].minute, from, to) {
        suppressedCount := suppressedCount + res.suppressed[i].count;
      }
    }
    assert res.suppressed[..|res.suppressed|] == res.suppressed;
    var recoveredCount := 0;
    for i := 0 to |res.ledger|
      invariant recoveredCount == RecoveredIn(res.ledger[..i], Window(from, to))
    {
      assert res.ledger[..i + 1][..i] == res.ledger[..i];
      var source := res.ledger[i].recoveredFrom;
      if source.Some? && InWindow(source.value, from, to) {
        recoveredCount := recoveredCount + 1;
      }
    }
    var netLost := suppressedCount - recoveredCount;
    if netLost < 0 {
      return Failure(RecoveredExceedsSuppressed);
    }
    r := Success(e.(suppressedCount := suppressedCount, recoveredCount := recoveredCount, netLost := netLost));
  }
}
