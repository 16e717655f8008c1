/** The two deferred routes on checkout runs, and ledgers on which they differ
    (examples/checkout/checkout.go, testkit/querier.go, testkit/expected.go). */
module RunAgreement {
  import opened Wrappers
  import opened Money
  import opened Tracker
  import opened Deferred
  import opened DeferredGauge
  import opened DeferredEvents
  import opened Telemetry
  import opened Replay
  import opened DeferredAgreement
  import opened LegAgreement
  import Checkout
  import Emitter
  import Expected

  // ---- the rows of a run ----

  function Instant(minute: Option<nat>): Option<int> {
    if minute.Some? then Some(minute.value * MINUTE) else None
  }

  /** The transaction with its minutes as instants; names render ids and customers. */
  function RowOf(txn: Checkout.Txn, name: nat -> string): Row
    requires txn.amountMinor < Checkout.AMOUNT_BOUND
  {
    Row(name(txn.id), name(txn.customer), if txn.enterprise then "enterprise" else "smb", txn.amountMinor as int64, "USD",
        txn.createdAt * MINUTE, Instant(txn.authedAt), Instant(txn.capturedAt), Instant(txn.settledAt), txn.state)
  }

  function RowsOf(ledger: seq<Checkout.Txn>, end: nat, name: nat -> string): seq<Row>
    requires Checkout.LedgerOk(ledger, end)
  {
    seq(|ledger|, i requires 0 <= i < |ledger| => RowOf(ledger[i], name))
  }

  ghost predicate TellsApart(name: nat -> string) { forall i, j :: name(i) == name(j) ==> i == j }

  lemma RowIsOrderly(txn: Checkout.Txn, end: nat, name: nat -> string)
    requires Checkout.TxnOk(txn, end)
    ensures var row := RowOf(txn, name);
            && InStageOrder(row) && StateFits(row) && row.amount > 0 && MoneyOf(row).Valid() && !row.state.CapFail?
            && forall t :: t == row.authed || t == row.captured || t == row.settled ==> t.Some? ==> t.value <= (end - 1) * MINUTE
  {
  }

  /** No run of up to 2^20 transactions makes the replay panic. */
  lemma RunsFit(ledger: seq<Checkout.Txn>, end: nat, name: nat -> string)
    requires Checkout.LedgerOk(ledger, end) && TellsApart(name) && |ledger| <= TRACKER_BOUND
    ensures Fits(RowsOf(ledger, end, name))
  {
    var rows := RowsOf(ledger, end, name);
    forall i | 0 <= i < |rows|
      ensures InStageOrder(rows[i]) && MoneyOf(rows[i]).Valid()
    {
      RowIsOrderly(ledger[i], end, name);
    }
  }

  /** A run's last minute is over by its end, so a publish less than a minute before
      it and a window that closes less than a minute after it see one state. */
  lemma RunsAreRelated(ledger: seq<Checkout.Txn>, end: nat, name: nat -> string, reg: Option<Registry>, req: Request, at: int)
    requires Checkout.LedgerOk(ledger, end) && TellsApart(name) && OrdersStages(reg) && req.flow == Some(FLOW)
    requires (end - 1) * MINUTE <= at < req.to
    ensures Related(RowsOf(ledger, end, name), reg, req, at)
  {
    var rows := RowsOf(ledger, end, name);
    forall i | 0 <= i < |rows|
      ensures InStageOrder(rows[i]) && StateFits(rows[i]) && rows[i].amount >= 0 && NothingBetween(rows[i], at, req.to)
    {
      RowIsOrderly(ledger[i], end, name);
    }
  }

  // ---- what the events of a run tell of its ends ----

  datatype End = End(stage: string, result: Emitter.ResultKind, from: int, to: int)

  predicate Tells(o: Emitter.Outcome, e: End) { o.stage == e.stage && o.result == e.result && e.from <= o.at < e.to }

  function Weight(amount: int, counting: bool): int { if counting then 1 else amount }

  /** How many events tell such an end, or what their amounts add up to. */
  function Told(events: seq<Emitter.Outcome>, e: End, counting: bool): int {
    if events == [] then 0 else
      var o := events[|events| - 1];
      Told(events[..|events| - 1], e, counting) + if Tells(o, e) then Weight(o.money.amount as int, counting) else 0
  }

  lemma {:induction false} ToldAppend(a: seq<Emitter.Outcome>, b: seq<Emitter.Outcome>, e: End, counting: bool)
    ensures Told(a + b, e, counting) == Told(a, e, counting) + Told(b, e, counting)
  {
    if b == [] {
      assert a + b == a;
    } else {
      ToldAppend(a, b[..|b| - 1], e, counting);
      assert (a + b)[..|a + b| - 1] == a + b[..|b| - 1];
    }
  }

  lemma ToldOne(o: Emitter.Outcome, e: End, counting: bool)
    ensures Told([o], e, counting) == if Tells(o, e) then Weight(o.money.amount as int, counting) else 0
  {
    assert [o][..0] == [];
  }

  lemma {:induction false} EntriesTellNothing(row: Row, entries: seq<QueueEntry>, e: End, counting: bool)
    requires e.result != Emitter.Deferred
    ensures Told(EntryEvents(row, entries), e, counting) == 0
  {
    if entries != [] {
      var first := Event(row, entries[0].stage, Emitter.Deferred, entries[0].at);
      EntriesTellNothing(row, entries[1..], e, counting);
      ToldAppend([first], EntryEvents(row, entries[1..]), e, counting);
      ToldOne(first, e, counting);
    }
  }

  predicate SettledIn(txn: Checkout.Txn, from: nat, to: nat) {
    txn.settledAt.Some? && Expected.InWindow(txn.settledAt.value, from, to)
  }

  /** A row's only end is the failure of an authorisation when it was made, or its
      settlement. */
  lemma RowEnds(txn: Checkout.Txn, end: nat, name: nat -> string)
    requires Checkout.TxnOk(txn, end)
    ensures TelemetryOutcome(RowOf(txn, name)) ==
              match txn.state
              case AuthFail => Some(Terminal("auth", Emitter.Failed, txn.createdAt * MINUTE))
              case Settled => Some(Terminal("settle", Emitter.Succeeded, txn.settledAt.value * MINUTE))
              case _ => None
  {
    var row := RowOf(txn, name);
    assert row.settled.Some? ==> FirstNonZero([row.settled]) == row.settled.value;
    assert [row.authed, Some(row.created)][1..] == [Some(row.created)];
    assert row.authed.None? ==> FirstNonZero([row.authed, Some(row.created)]) == FirstNonZero([Some(row.created)]) == row.created;
  }

  lemma RowTells(txn: Checkout.Txn, end: nat, name: nat -> string, e: End, counting: bool)
    requires Checkout.TxnOk(txn, end) && e.result != Emitter.Deferred
    ensures var terminal := TelemetryOutcome(RowOf(txn, name));
            Told(RowEvents(RowOf(txn, name)), e, counting)
              == if terminal.Some? && terminal.value.stage == e.stage && terminal.value.result == e.result
                    && e.from <= terminal.value.at < e.to
                 then Weight(txn.amountMinor, counting) else 0
  {
    var row := RowOf(txn, name);
    var entries := EntryEvents(row, QueueEntries(row));
    var terminal := TelemetryOutcome(row);
    EntriesTellNothing(row, QueueEntries(row), e, counting);
    hide EntryEvents, QueueEntries, TelemetryOutcome, Told;
    if terminal.Some? {
      var last := Event(row, terminal.value.stage, terminal.value.result, terminal.value.at);
      ToldAppend(entries, [last], e, counting);
      ToldOne(last, e, counting);
    } else {
      assert RowEvents(row) == entries + [];
      assert entries + [] == entries;
    }
  }

  /** What a row adds to a golden number. */
  function Adds(txn: Checkout.Txn, p: Checkout.Txn -> bool, counting: bool): int {
    if p(txn) then Weight(txn.amountMinor, counting) else 0
  }

  lemma {:induction false} ToldIsCounted(ledger: seq<Checkout.Txn>, end: nat, name: nat -> string, e: End, counting: bool,
                                         p: Checkout.Txn -> bool)
    requires Checkout.LedgerOk(ledger, end)
    requires forall txn :: Checkout.TxnOk(txn, end) ==> Told(RowEvents(RowOf(txn, name)), e, counting) == Adds(txn, p, counting)
    ensures Told(EventsOf(RowsOf(ledger, end, name)), e, counting)
         == if counting then Expected.Count(ledger, p) else Expected.Total(ledger, p)
  {
    hide RowEvents;
    if ledger != [] {
      hide EventsOf;
      var n := |ledger| - 1;
      var rows := RowsOf(ledger, end, name);
      ToldIsCounted(ledger[..n], end, name, e, counting, p);
      assert rows[..n] == RowsOf(ledger[..n], end, name) && rows[n] == RowOf(ledger[n], name);
      EventsOneMore(rows);
      hide RowOf;
      ToldAppend(EventsOf(rows[..n]), RowEvents(rows[n]), e, counting);
      assert Checkout.TxnOk(ledger[n], end);
    }
  }

  lemma EventsOneMore(rows: seq<Row>)
    requires rows != []
    ensures EventsOf(rows) == EventsOf(rows[..|rows| - 1]) + RowEvents(rows[|rows| - 1])
  {
  }

  lemma InMinutes(t: nat, from: nat, to: nat)
    ensures from * MINUTE <= t * MINUTE < to * MINUTE <==> Expected.InWindow(t, from, to)
  {
  }

  lemma FailureTold(txn: Checkout.Txn, end: nat, name: nat -> string, from: nat, to: nat, counting: bool)
    requires Checkout.TxnOk(txn, end)
    ensures Told(RowEvents(RowOf(txn, name)), End("auth", Emitter.Failed, from * MINUTE, to * MINUTE), counting)
         == if Expected.Failed(txn, from, to) then Weight(txn.amountMinor, counting) else 0
  {
    RowTells(txn, end, name, End("auth", Emitter.Failed, from * MINUTE, to * MINUTE), counting);
    RowEnds(txn, end, name);
    assert "auth"[0] != "settle"[0];
    InMinutes(if txn.settledAt.Some? then txn.settledAt.value else 0, from, to);
    InMinutes(txn.createdAt, from, to);
    hide TelemetryOutcome, RowEvents, RowOf, Told;
  }

  lemma SettlementTold(txn: Checkout.Txn, end: nat, name: nat -> string, from: nat, to: nat, counting: bool)
    requires Checkout.TxnOk(txn, end)
    ensures Told(RowEvents(RowOf(txn, name)), End("settle", Emitter.Succeeded, from * MINUTE, to * MINUTE), counting)
         == if SettledIn(txn, from, to) then Weight(txn.amountMinor, counting) else 0
  {
    RowTells(txn, end, name, End("settle", Emitter.Succeeded, from * MINUTE, to * MINUTE), counting);
    RowEnds(txn, end, name);
    assert "auth"[0] != "settle"[0];
    InMinutes(if txn.settledAt.Some? then txn.settledAt.value else 0, from, to);
    InMinutes(txn.createdAt, from, to);
    hide TelemetryOutcome, RowEvents, RowOf, Told;
  }

  /** The golden realized loss of any window is what the failed authorisations in its
      events say, by number and by amount ... */
  lemma FailuresAreTold(ledger: seq<Checkout.Txn>, end: nat, name: nat -> string, from: nat, to: nat)
    requires Checkout.LedgerOk(ledger, end)
    ensures var events, e := EventsOf(RowsOf(ledger, end, name)), End("auth", Emitter.Failed, from * MINUTE, to * MINUTE);
            var p := (t: Checkout.Txn) => Expected.Failed(t, from, to);
            Told(events, e, true) == Expected.Count(ledger, p) && Told(events, e, false) == Expected.Total(ledger, p)
  {
    var e := End("auth", Emitter.Failed, from * MINUTE, to * MINUTE);
    var p := (t: Checkout.Txn) => Expected.Failed(t, from, to);
    forall txn, counting | Checkout.TxnOk(txn, end)
      ensures Told(RowEvents(RowOf(txn, name)), e, counting) == Adds(txn, p, counting)
    {
      FailureTold(txn, end, name, from, to, counting);
    }
    hide RowEvents, Told, Checkout.TxnOk, Expected.Failed;
    ToldIsCounted(ledger, end, name, e, true, p);
    ToldIsCounted(ledger, end, name, e, false, p);
  }

  /** ... and what was settled in it is what the successful settlements say. */
  lemma SettlementsAreTold(ledger: seq<Checkout.Txn>, end: nat, name: nat -> string, from: nat, to: nat)
    requires Checkout.LedgerOk(ledger, end)
    ensures var events, e := EventsOf(RowsOf(ledger, end, name)), End("settle", Emitter.Succeeded, from * MINUTE, to * MINUTE);
            var p := (t: Checkout.Txn) => SettledIn(t, from, to);
            Told(events, e, true) == Expected.Count(ledger, p) && Told(events, e, false) == Expected.Total(ledger, p)
  {
    var e := End("settle", Emitter.Succeeded, from * MINUTE, to * MINUTE);
    var p := (t: Checkout.Txn) => SettledIn(t, from, to);
    forall txn, counting | Checkout.TxnOk(txn, end)
      ensures Told(RowEvents(RowOf(txn, name)), e, counting) == Adds(txn, p, counting)
    {
      SettlementTold(txn, end, name, from, to, counting);
    }
    hide RowEvents, Told, Checkout.TxnOk, SettledIn;
    ToldIsCounted(ledger, end, name, e, true, p);
    ToldIsCounted(ledger, end, name, e, false, p);
  }

  // ---- the breaches of the two snapshots ----

  /** By the age of its bucket, the leg takes a waiting capture to be past a deadline
      of whole minutes. */
  predicate PastByBucket(txn: Checkout.Txn, snapshot: nat, sla: nat)
    requires Expected.Deferred(txn, snapshot)
  {
    sla * MINUTE <= BucketFloor(AgeBucketFor(Expected.Age(txn, snapshot) * MINUTE))
  }

  /** The leg counts a breach that the golden snapshot does not exactly if the capture
      is as old as its deadline and a bucket begins there; it misses one exactly if
      the deadline falls inside the bucket of an older one. */
  lemma BreachesDiffer(txn: Checkout.Txn, snapshot: nat, sla: nat)
    requires Expected.InCapture(txn, snapshot)
    ensures PastByBucket(txn, snapshot, sla) && !Expected.Breached(txn, snapshot, sla)
       <==> Expected.Age(txn, snapshot) == sla && (sla == 0 || OnAFloor(sla))
    ensures Expected.Breached(txn, snapshot, sla) && !PastByBucket(txn, snapshot, sla)
       <==> && sla < Expected.Age(txn, snapshot)
            && BucketFloor(AgeBucketFor(Expected.Age(txn, snapshot) * MINUTE)) < sla * MINUTE
  {
  }

  // ---- the condition on a run ----

  /** The age of what waits in a queue, in minutes, is one where a bucket begins. */
  predicate OnAFloor(minutes: int) { minutes == 1 || minutes == 5 || minutes == 30 || minutes == 120 }

  /** Some row waits in a queue at the run's end and is exactly that old. */
  ghost predicate SomeOnAFloor(ledger: seq<Checkout.Txn>, end: nat) {
    exists i :: 0 <= i < |ledger| && Expected.Deferred(ledger[i], end) && OnAFloor(Expected.Age(ledger[i], end))
  }

  /** The golden snapshot counts exactly what the tracker holds, at its age. */
  lemma SnapshotIsTracked(txn: Checkout.Txn, end: nat, name: nat -> string, snapshot: nat)
    requires Checkout.TxnOk(txn, end)
    ensures var row := RowOf(txn, name);
            && (Expected.InCapture(txn, snapshot) <==> ItemAt(row, "capture", snapshot * MINUTE).Some?)
            && (Expected.InSettle(txn, snapshot) <==> ItemAt(row, "settle", snapshot * MINUTE).Some?)
            && (Expected.Deferred(txn, snapshot) ==>
                  var stage := if Expected.InCapture(txn, snapshot) then "capture" else "settle";
                  snapshot * MINUTE - ItemAt(row, stage, snapshot * MINUTE).value.enqueuedAt
                    == Expected.Age(txn, snapshot) * MINUTE)
  {
  }

  /** Whatever waits near the end waits at the end. */
  lemma WaitsAtTheEnd(txn: Checkout.Txn, end: nat, name: nat -> string, stage: string, at: int)
    requires Checkout.TxnOk(txn, end) && (end - 1) * MINUTE <= at
    ensures ItemAt(RowOf(txn, name), stage, at) == ItemAt(RowOf(txn, name), stage, end * MINUTE)
    ensures ItemAt(RowOf(txn, name), stage, at).Some? ==> stage == "capture" || stage == "settle"
  {
    RowIsOrderly(txn, end, name);
  }

  /** Less than a minute more or less crosses a floor only at a floor. */
  lemma CrossesOnlyOnAFloor(minutes: int, at: int, to: int)
    requires minutes >= 1 && minutes * MINUTE - MINUTE < at <= to < minutes * MINUTE + MINUTE
    ensures at >= minutes * MINUTE ==> AgeBucketFor(at) == AgeBucketFor(to)
    ensures at < minutes * MINUTE && to == minutes * MINUTE ==> (AgeBucketFor(at) == AgeBucketFor(to) <==> !OnAFloor(minutes))
  {
  }

  lemma SameBucket(reg: Option<Registry>, k: Key, item: Item, at: int, to: int)
    requires at <= to
    ensures TrackedEntry(reg, k, item, at).bucket == TrackedEntry(reg, k, item, to).bucket
       <==> AgeBucketFor(at - item.enqueuedAt) == AgeBucketFor(to - item.enqueuedAt)
  {
    hide AgeBucketFor, BucketLabel;
    BucketsDiffer(AgeBucketFor(at - item.enqueuedAt), AgeBucketFor(to - item.enqueuedAt));
  }

  /** One row's item changes bucket exactly if its age ends up on a floor. */
  lemma RowChangesBucket(txn: Checkout.Txn, end: nat, name: nat -> string, stage: string, reg: Option<Registry>, at: int, to: int,
                         k: Key, item: Item)
    requires Checkout.TxnOk(txn, end) && ItemAt(RowOf(txn, name), stage, at) == Some(item)
    requires (end - 1) * MINUTE < at <= to < end * MINUTE + MINUTE && (at >= end * MINUTE || to == end * MINUTE)
    ensures Expected.Deferred(txn, end)
    ensures TrackedEntry(reg, k, item, at).bucket == TrackedEntry(reg, k, item, to).bucket
       <==> at >= end * MINUTE || !OnAFloor(Expected.Age(txn, end))
  {
    WaitsAtTheEnd(txn, end, name, stage, at);
    SnapshotIsTracked(txn, end, name, end);
    SameBucket(reg, k, item, at, to);
    hide TrackedEntry, AgeBucketFor, Expected.InCapture, Expected.InSettle;
    AtLeastAMinute(txn, end);
    CrossesOnlyOnAFloor(Expected.Age(txn, end), at - item.enqueuedAt, to - item.enqueuedAt);
  }

  /** One tracked item of a run: its row, its whole-minute age, and whether it
      changes bucket. */
  lemma ItemOfRun(ledger: seq<Checkout.Txn>, end: nat, name: nat -> string, reg: Option<Registry>, at: int, to: int,
                  items: map<Key, Item>, k: Key) returns (i: nat)
    requires Checkout.LedgerOk(ledger, end) && TellsApart(name) && ItemsAt(items, RowsOf(ledger, end, name), at) && k in items
    requires (end - 1) * MINUTE < at <= to < end * MINUTE + MINUTE && (at >= end * MINUTE || to == end * MINUTE)
    ensures i < |ledger| && k == Key(FLOW, k.stage, name(ledger[i].id)) && items[k].money.amount > 0
    ensures Expected.Deferred(ledger[i], end)
    ensures TrackedEntry(reg, k, items[k], at).bucket == TrackedEntry(reg, k, items[k], to).bucket
       <==> at >= end * MINUTE || !OnAFloor(Expected.Age(ledger[i], end))
  {
    var rows := RowsOf(ledger, end, name);
    UniqueNames(ledger, end, name);
    i := TrackedIsRow(rows, items, at, k);
    RowIsOrderly(ledger[i], end, name);
    RowChangesBucket(ledger[i], end, name, k.stage, reg, at, to, k, items[k]);
    hide TrackedEntry, ItemsAt, ItemAt, Expected.Deferred;
  }

  lemma AtLeastAMinute(txn: Checkout.Txn, end: nat)
    requires Checkout.TxnOk(txn, end) && Expected.Deferred(txn, end)
    ensures Expected.Age(txn, end) >= 1
  {
  }

  lemma UniqueNames(ledger: seq<Checkout.Txn>, end: nat, name: nat -> string)
    requires Checkout.LedgerOk(ledger, end) && TellsApart(name)
    ensures UniqueIds(RowsOf(ledger, end, name))
  {
  }

  lemma RunItemIsSeen(ledger: seq<Checkout.Txn>, end: nat, name: nat -> string, start: int, k: Key)
    requires Checkout.LedgerOk(ledger, end)
    requires forall i :: 0 <= i < |ledger| ==> start <= ledger[i].createdAt * MINUTE
    ensures SeenKey(RowsOf(ledger, end, name), start, k)
  {
    forall i | 0 <= i < |ledger|
      ensures !Unseen(RowsOf(ledger, end, name)[i], k.stage, start)
    {
      RowIsOrderly(ledger[i], end, name);
      assert ledger[i].createdAt * MINUTE >= start;
    }
  }

  /** On a run only bucket changes can part the legs. */
  lemma RunCondition(ledger: seq<Checkout.Txn>, end: nat, name: nat -> string, reg: Option<Registry>, start: int, at: int, to: int,
                     items: map<Key, Item>)
    requires Checkout.LedgerOk(ledger, end) && TellsApart(name) && ItemsAt(items, RowsOf(ledger, end, name), at)
    requires (end - 1) * MINUTE < at <= to < end * MINUTE + MINUTE && (at >= end * MINUTE || to == end * MINUTE)
    requires forall i :: 0 <= i < |ledger| ==> start <= ledger[i].createdAt * MINUTE
    ensures SameLegs(reg, items, SeenItems(items, RowsOf(ledger, end, name), start), at, to)
       <==> at >= end * MINUTE || !SomeOnAFloor(ledger, end)
  {
    var rows := RowsOf(ledger, end, name);
    hide TrackedEntry, ItemsAt, Checkout.LedgerOk, RowsOf, SeenKey, Expected.Deferred;
    forall k | k in items
      ensures SeenKey(rows, start, k)
    {
      RunItemIsSeen(ledger, end, name, start, k);
    }
    assert SeenItems(items, rows, start) == items;
    forall k | k in items
      ensures items[k].money.amount > 0
      ensures at >= end * MINUTE || !SomeOnAFloor(ledger, end) ==> EntryAt(reg, items, k, at) == EntryAt(reg, items, k, to)
    {
      var i := ItemOfRun(ledger, end, name, reg, at, to, items, k);
      if EntryAt(reg, items, k, at).bucket == EntryAt(reg, items, k, to).bucket {
        SameBucketSameEntry(reg, k, items[k], at, to);
      }
    }
    if at < end * MINUTE && SomeOnAFloor(ledger, end) {
      var k := FloorItem(ledger, end, name, reg, at, to, items);
    }
  }

  /** The row on a floor is a tracked item that changes bucket. */
  lemma FloorItem(ledger: seq<Checkout.Txn>, end: nat, name: nat -> string, reg: Option<Registry>, at: int, to: int,
                  items: map<Key, Item>) returns (k: Key)
    requires Checkout.LedgerOk(ledger, end) && TellsApart(name) && ItemsAt(items, RowsOf(ledger, end, name), at)
    requires (end - 1) * MINUTE < at < end * MINUTE == to && SomeOnAFloor(ledger, end)
    ensures k in items && items[k].money.amount > 0 && EntryAt(reg, items, k, at).bucket != EntryAt(reg, items, k, to).bucket
  {
    var i :| 0 <= i < |ledger| && Expected.Deferred(ledger[i], end) && OnAFloor(Expected.Age(ledger[i], end));
    var stage := if Expected.InCapture(ledger[i], end) then "capture" else "settle";
    SnapshotIsTracked(ledger[i], end, name, end);
    WaitsAtTheEnd(ledger[i], end, name, stage, at);
    k := Key(FLOW, stage, name(ledger[i].id));
    IsTracked(RowsOf(ledger, end, name), items, at, i, stage);
    RowIsOrderly(ledger[i], end, name);
    RowChangesBucket(ledger[i], end, name, stage, reg, at, to, k, items[k]);
    hide TrackedEntry, ItemsAt, Expected.Deferred;
  }

  // ---- a run from its random source to both legs ----

  /** The cadence of a live tracker. */
  const CADENCE := 15 * SECOND

  /** Any run, published one cadence before its end and at its end, read both ways.
      Read past the end the legs agree, and read up to the end they agree exactly
      if nothing then in a queue is on a bucket's floor. */
  method RunBothRoutes(cfg: Checkout.Config, oracle: Checkout.Oracle, name: nat -> string, hash: string -> nat,
                       reg: Option<Registry>, req: Request)
    returns (res: Checkout.RunResult, r: Option<(Leg, Leg)>)
    requires cfg.Valid() && TellsApart(name)
    requires OrdersStages(reg) && req.flow == Some(FLOW) && req.from <= cfg.start * MINUTE
    requires cfg.end * MINUTE <= req.to < cfg.end * MINUTE + MINUTE
    ensures |res.ledger| <= TRACKER_BOUND ==> r.Some?
    ensures r.Some? ==>
              (r.value.1 == r.value.0.(caveats := {EventsDerived})
               <==> req.to > cfg.end * MINUTE || !SomeOnAFloor(res.ledger, cfg.end))
  {
    hide Checkout.DemandOf, Checkout.OriginsOf, Checkout.InOrder, Checkout.SuppressedOk, Checkout.LedgerOk, Checkout.CreatedOpen,
         Checkout.FreshIn, Checkout.RecoveredIn, Checkout.CountIn, SameLegs, ItemsAt, SeenItems, Related, Fits, RowsOf, IsLookback,
         SomeOnAFloor, OrdersStages, TellsApart;
    ghost var lost, at, start, items;
    res, lost := Checkout.Run(cfg, oracle);
    var end := cfg.end * MINUTE;
    var rows := RowsOf(res.ledger, cfg.end, name);
    if |res.ledger| <= TRACKER_BOUND {
      RunsFit(res.ledger, cfg.end, name);
    }
    var instants := [end - CADENCE, end];
    assert instants[0] in instants && instants[1] in instants;
    r, at, start, items := BothRoutes(rows, instants, hash, reg, req);
    assert at == Some(if req.to > end then end else end - CADENCE);
    LooksBack(reg, req.flow, req.from - start);
    RunsAreRelated(res.ledger, cfg.end, name, reg, req, at.value);
    if r.Some? {
      CreatedSince(cfg, res.ledger, start);
      RunCondition(res.ledger, cfg.end, name, reg, start, at.value, req.to, items);
    }
  }

  lemma LooksBack(reg: Option<Registry>, flow: Option<string>, d: int)
    requires IsLookback(reg, flow, d)
    ensures d >= MIN_LOOKBACK
  {
  }

  lemma CreatedSince(cfg: Checkout.Config, ledger: seq<Checkout.Txn>, start: int)
    requires Checkout.CreatedOpen(cfg, ledger) && start <= cfg.start * MINUTE
    ensures forall i :: 0 <= i < |ledger| ==> start <= ledger[i].createdAt * MINUTE
  {
    forall i | 0 <= i < |ledger|
      ensures start <= ledger[i].createdAt * MINUTE
    {
      assert cfg.start <= ledger[i].createdAt;
    }
  }

  // ---- ledgers on which the legs differ ----

  const HARNESS: Registry := map[FLOW := Flow(["auth", "capture", "settle"], map[])]

  lemma HarnessOrdersStages()
    ensures OrdersStages(Some(HARNESS))
  {
    var stages := HARNESS[FLOW].stages;
    assert stages[1..] == ["capture", "settle"] && stages[1..][1..] == ["settle"];
    assert "auth"[0] != "capture"[0] && "auth"[0] != "settle"[0] && "capture"[0] != "settle"[0];
    assert IndexIn(stages, "auth") == 0 && IndexIn(stages, "capture") == 1;
    assert IndexIn(stages, "settle") == 2;
  }

  /** A row that waits for its capture since an instant. */
  function WaitingRow(amount: int64, since: int, state: Checkout.State): Row {
    Row("inv", "c", "smb", amount, "USD", since, Some(since), None, None, state)
  }

  const WAITING := Key(FLOW, "capture", "inv")

  lemma OneWaits(row: Row, at: int, items: map<Key, Item>)
    requires row == WaitingRow(row.amount, row.created, row.state) && row.created <= at && ItemsAt(items, [row], at)
    ensures items == map[WAITING := Item(MoneyOf(row), row.created)]
  {
    IsTracked([row], items, at, 0, "capture");
    forall k | k in items
      ensures k == WAITING
    {
      var i := TrackedIsRow([row], items, at, k);
    }
    hide ItemsAt;
  }

  lemma OneIsRelated(row: Row, req: Request, at: int)
    requires row == WaitingRow(row.amount, row.created, row.state) && row.amount >= 0 && !row.state.Settled?
    requires row.created <= at < req.to && req.flow == Some(FLOW)
    ensures Related([row], Some(HARNESS), req, at) && Fits([row])
  {
    HarnessOrdersStages();
  }

  /** A live report up to an instant reads the publish before it: what entered its
      queue a minute ago is then in different buckets on the two legs. */
  method AnEarlierPublishDiffers(hash: string -> nat, from: int, end: int) returns (r: Option<(Leg, Leg)>)
    ensures r.Some? && r.value.1 != r.value.0.(caveats := {EventsDerived})
  {
    hide SameLegs, ItemsAt, SeenItems, Related, Fits, IsLookback;
    var row := WaitingRow(4200, end - MINUTE, Checkout.Authed);
    var req := Request(Some(FLOW), from, end);
    var instants := [end - CADENCE, end];
    assert instants[0] in instants;
    ghost var at, start, items;
    OneIsRelated(row, req, end - CADENCE);
    r, at, start, items := BothRoutes([row], instants, hash, Some(HARNESS), req);
    assert at == Some(end - CADENCE);
    OneWaits(row, end - CADENCE, items);
    ABucketOn(items, SeenItems(items, [row], start), end);
  }

  lemma ABucketOn(items: map<Key, Item>, seen: map<Key, Item>, end: int)
    requires items == map[WAITING := Item(Money(4200, "USD", 2), end - MINUTE)]
    ensures !SameLegs(Some(HARNESS), items, seen, end - CADENCE, end)
  {
    SameBucket(Some(HARNESS), WAITING, items[WAITING], end - CADENCE, end);
    hide TrackedEntry;
    assert WAITING in items;
  }

  /** A row worth nothing lists its cell by the events and none on the gauge. */
  method AZeroAmountDiffers(hash: string -> nat, from: int, end: int) returns (r: Option<(Leg, Leg)>)
    ensures r.Some? && r.value.1 != r.value.0.(caveats := {EventsDerived})
  {
    hide SameLegs, ItemsAt, SeenItems, Related, Fits, IsLookback;
    var row := WaitingRow(0, end - SECOND, Checkout.Authed);
    var req := Request(Some(FLOW), from, end + 1);
    ghost var at, start, items;
    OneIsRelated(row, req, end);
    r, at, start, items := BothRoutes([row], [end], hash, Some(HARNESS), req);
    assert at == Some(end) by {
      assert [end][0] in [end];
    }
    OneWaits(row, end, items);
    NothingCovers(items, SeenItems(items, [row], start), end);
  }

  lemma NothingCovers(items: map<Key, Item>, seen: map<Key, Item>, end: int)
    requires items == map[WAITING := Item(Money(0, "USD", 2), end - SECOND)]
    ensures !SameLegs(Some(HARNESS), items, seen, end, end + 1)
  {
    assert WAITING in items && PositiveItems(items) == map[];
    hide TrackedEntry;
  }

  /** A capture that failed without a time stays on the gauge, where the events take
      it for an end: the counts differ by the one row. */
  method AFailedCaptureDiffers(hash: string -> nat, from: int, end: int) returns (r: Option<(Leg, Leg)>)
    ensures r.Some? && r.value.0.count == r.value.1.count + 1
  {
    hide SameLegs, ItemsAt, Related, Fits, IsLookback;
    var row := WaitingRow(4200, end - SECOND, Checkout.CapFail);
    var req := Request(Some(FLOW), from, end + 1);
    ghost var at, start, items;
    OneIsRelated(row, req, end);
    r, at, start, items := BothRoutes([row], [end], hash, Some(HARNESS), req);
    assert at == Some(end) by {
      assert [end][0] in [end];
    }
    OneWaits(row, end, items);
    assert SeenItems(items, [row], start) == map[] by {
      assert Unseen([row][0], "capture", start) && [row][0].id == WAITING.id;
    }
  }
}
