/** The deferred leg derived from events equals the leg read from the gauge, for
    every checkout ledger (engine/deferred.go, testkit/querier.go). */
module DeferredAgreement {
  import opened Wrappers
  import opened FiniteSums
  import opened Money
  import opened Tracker
  import opened Memq
  import opened PromQL
  import opened PromQLExact
  import opened Deferred
  import opened DeferredGauge
  import opened DeferredEvents
  import opened Telemetry
  import opened Replay
  import Checkout
  import Emitter

  // ---- grouping entries ----

  ghost function AmountsOf<K>(entries: map<K, Entry>): map<K, int> {
    map k | k in entries :: entries[k].amount
  }

  predicate Alike(e: Entry, e': Entry) {
    e.bucket == e'.bucket && e.currency == e'.currency && e.breached == e'.breached && e.lost == e'.lost
  }

  /** Every group's entry is like its members', at the sum of their amounts. */
  ghost predicate IsGrouping<K, G>(entries: map<K, Entry>, group: map<K, G>, grouped: map<G, Entry>) {
    && group.Keys == entries.Keys
    && (forall k :: k in entries ==> group[k] in grouped && Alike(grouped[group[k]], entries[k]))
    && (forall g :: g in grouped ==>
          Class(AmountsOf(entries), group, g) != map[]
          && grouped[g].amount == Sum(Class(AmountsOf(entries), group, g)))
  }

  /** Adding up by group changes no total of the leg. */
  lemma GroupingAgrees<K, G>(entries: map<K, Entry>, group: map<K, G>, grouped: map<G, Entry>, p: Pick)
    requires IsGrouping(entries, group, grouped)
    ensures SamePart(entries, grouped, p)
  {
    var m, sums := Deferred.Part(entries, p), Deferred.Part(grouped, p);
    var group' := map k | k in m :: group[k];
    forall k | k in m
      ensures group'[k] in sums
    {
      assert Alike(grouped[group[k]], entries[k]);
    }
    forall g | g in sums
      ensures sums[g] == Sum(Class(m, group', g)) && exists k :: k in m && group'[k] == g
    {
      ClassOfPart(entries, group, grouped, p, g);
    }
    SumByGroup(m, group', sums);
    if m != map[] {
      var k :| k in m;
      assert group'[k] in sums;
    }
    if sums != map[] {
      var g :| g in sums;
      assert exists k :: k in m && group'[k] == g;
    }
  }

  lemma ClassOfPart<K, G>(entries: map<K, Entry>, group: map<K, G>, grouped: map<G, Entry>, p: Pick, g: G)
    requires IsGrouping(entries, group, grouped) && g in Deferred.Part(grouped, p)
    ensures var m := Deferred.Part(entries, p);
            var group' := map k | k in m :: group[k];
            Deferred.Part(grouped, p)[g] == Sum(Class(m, group', g)) && exists k :: k in m && group'[k] == g
  {
    var m := Deferred.Part(entries, p);
    var group' := map k | k in m :: group[k];
    SameClass(entries, group, grouped, p, g);
    var k := Member(entries, group, grouped, g);
    hide IsGrouping;
    assert k in Class(AmountsOf(entries), group, g);
  }

  lemma SameClass<K, G>(entries: map<K, Entry>, group: map<K, G>, grouped: map<G, Entry>, p: Pick, g: G)
    requires IsGrouping(entries, group, grouped) && g in Deferred.Part(grouped, p)
    ensures var m := Deferred.Part(entries, p);
            Class(m, map k | k in m :: group[k], g) == Class(AmountsOf(entries), group, g)
  {
    forall k | k in entries && group[k] == g
      ensures Picks(p, entries[k])
    {
      assert Alike(grouped[g], entries[k]);
    }
    hide IsGrouping;
  }

  lemma Member<K, G>(entries: map<K, Entry>, group: map<K, G>, grouped: map<G, Entry>, g: G) returns (k: K)
    requires IsGrouping(entries, group, grouped) && g in grouped
    ensures k in entries && k in group && group[k] == g && Alike(grouped[g], entries[k])
  {
    k :| k in Class(AmountsOf(entries), group, g);
    assert Alike(grouped[group[k]], entries[k]);
  }

  lemma MembersBuckets<K, G>(entries: map<K, Entry>, group: map<K, G>, grouped: map<G, Entry>)
    requires IsGrouping(entries, group, grouped)
    ensures BucketsIn(entries, grouped)
  {
    forall k | k in entries
      ensures exists g :: g in grouped && grouped[g].bucket == entries[k].bucket
    {
      var g := group[k];
      assert g in grouped && Alike(grouped[g], entries[k]);
    }
    hide IsGrouping;
  }

  lemma GroupsBuckets<K, G>(entries: map<K, Entry>, group: map<K, G>, grouped: map<G, Entry>)
    requires IsGrouping(entries, group, grouped)
    ensures BucketsIn(grouped, entries)
  {
    hide IsGrouping;
    forall g | g in grouped
      ensures exists k :: k in entries && entries[k].bucket == grouped[g].bucket
    {
      var k := Member(entries, group, grouped, g);
    }
  }

  // ---- the hypotheses ----

  /** The state agrees with the times. */
  predicate StateFits(row: Row) { row.state.Settled? <==> row.settled.Some? }

  predicate NonNegative(ledger: seq<Row>) {
    forall i :: 0 <= i < |ledger| ==> ledger[i].amount >= 0
  }

  /** The registry orders the queued stages, and puts auth before them. */
  predicate OrdersStages(reg: Option<Registry>) {
    && StageIndex(reg, FLOW, "capture") >= 0
    && StageIndex(reg, FLOW, "settle") > StageIndex(reg, FLOW, "capture") > StageIndex(reg, FLOW, "auth")
  }

  predicate NotBetween(t: Option<int>, at: int, to: int) { t.Some? ==> !(at < t.value < to) }

  /** Nothing happens to the row between the publish and the window's end. */
  predicate NothingBetween(row: Row, at: int, to: int) {
    NotBetween(row.authed, at, to) && NotBetween(row.captured, at, to) && NotBetween(row.settled, at, to)
  }

  /** A publish at `at` and a window to req.to that look at one state of a ledger. */
  predicate Related(ledger: seq<Row>, reg: Option<Registry>, req: Request, at: int) {
    && Orderly(ledger) && NonNegative(ledger) && OrdersStages(reg)
    && req.flow == Some(FLOW) && at < req.to
    && forall i :: 0 <= i < |ledger| ==> StateFits(ledger[i]) && NothingBetween(ledger[i], at, req.to)
  }

  /** When a row entered the queue of a stage. */
  function Entered(row: Row, stage: string): Option<int> {
    if stage == "capture" then row.authed else if stage == "settle" then row.captured else None
  }

  /** Waiting in a queue, but not by the events: it entered before the lookback, or
      its capture failed without a time, which the events take for an end. */
  predicate Unseen(row: Row, stage: string, start: int) {
    || (Entered(row, stage).Some? && Entered(row, stage).value < start)
    || (stage == "capture" && row.state.CapFail? && row.captured.None?)
  }

  // ---- the events side ----

  predicate IsDeferralEvent(row: Row, o: Emitter.Outcome) {
    || (row.authed.Some? && o == Event(row, "capture", Emitter.Deferred, row.authed.value))
    || (row.captured.Some? && o == Event(row, "settle", Emitter.Deferred, row.captured.value))
  }

  predicate IsTerminalEvent(row: Row, o: Emitter.Outcome) {
    var t := TelemetryOutcome(row);
    t.Some? && o == Event(row, t.value.stage, t.value.result, t.value.at)
  }

  lemma RowEventsAre(row: Row, o: Emitter.Outcome)
    ensures o in RowEvents(row) <==> IsDeferralEvent(row, o) || IsTerminalEvent(row, o)
  {
    EntryEventsAre(row, o);
  }

  lemma EntryEventsAre(row: Row, o: Emitter.Outcome)
    ensures o in EntryEvents(row, QueueEntries(row)) <==> IsDeferralEvent(row, o)
  {
    var entries := QueueEntries(row);
    if |entries| > 0 {
      assert EntryEvents(row, entries)
          == [Event(row, entries[0].stage, Emitter.Deferred, entries[0].at)] + EntryEvents(row, entries[1..]);
      if |entries| > 1 {
        assert entries[1..][1..] == [];
        assert EntryEvents(row, entries[1..]) == [Event(row, entries[1].stage, Emitter.Deferred, entries[1].at)];
      } else {
        assert entries[1..] == [];
      }
    }
  }

  lemma RowHasEvent(ledger: seq<Row>, i: nat, o: Emitter.Outcome)
    requires i < |ledger| && (IsDeferralEvent(ledger[i], o) || IsTerminalEvent(ledger[i], o))
    ensures o in EventsOf(ledger)
  {
    RowEventsAre(ledger[i], o);
    EventsAreOfRows(ledger, o);
  }

  function EntityOf(row: Row, stage: string): EntityStage { EntityStage(FLOW, stage, row.currency, row.id) }

  /** A deferral is some row's entry into a queue. */
  lemma DeferralIsEntry(ledger: seq<Row>, req: Request, start: int, k: EntityStage, o: Emitter.Outcome) returns (i: nat)
    requires o in EventsOf(ledger) && Deferral(o, req, start, req.to, k)
    ensures i < |ledger| && k == EntityOf(ledger[i], k.stage) && Entered(ledger[i], k.stage) == Some(o.at)
    ensures o.money.amount == ledger[i].amount
  {
    EventsAreOfRows(ledger, o);
    i :| 0 <= i < |ledger| && o in RowEvents(ledger[i]);
    RowEventsAre(ledger[i], o);
  }

  lemma EntryIsDeferral(ledger: seq<Row>, req: Request, start: int, i: nat, stage: string)
    requires i < |ledger| && req.flow == Some(FLOW)
    requires Entered(ledger[i], stage).Some? && start <= Entered(ledger[i], stage).value < req.to
    ensures var o := Event(ledger[i], stage, Emitter.Deferred, Entered(ledger[i], stage).value);
            o in EventsOf(ledger) && Deferral(o, req, start, req.to, EntityOf(ledger[i], stage))
    ensures DeferredAt(EventsOf(ledger), req, start, EntityOf(ledger[i], stage))
  {
    var o := Event(ledger[i], stage, Emitter.Deferred, Entered(ledger[i], stage).value);
    RowHasEvent(ledger, i, o);
    assert Deferral(o, req, start, req.to, EntityOf(ledger[i], stage));
  }

  lemma DeferredIsEntered(ledger: seq<Row>, req: Request, start: int, k: EntityStage) returns (i: nat)
    requires DeferredAt(EventsOf(ledger), req, start, k)
    ensures i < |ledger| && k == EntityOf(ledger[i], k.stage) && Entered(ledger[i], k.stage).Some?
    ensures start <= Entered(ledger[i], k.stage).value < req.to
  {
    var o :| o in EventsOf(ledger) && Deferral(o, req, start, req.to, k);
    i := DeferralIsEntry(ledger, req, start, k, o);
  }

  lemma TerminalEventIs(row: Row, o: Emitter.Outcome)
    requires IsTerminalEvent(row, o) && StateFits(row)
    ensures o.flow == FLOW && o.entity == row.id && o.result != Emitter.Deferred
    ensures || o.stage == "auth" || (o.stage == "settle" && row.settled == Some(o.at))
            || (o.stage == "capture" && row.state.CapFail? && (row.captured.Some? ==> row.captured == Some(o.at)))
  {
  }

  predicate EndOk(row: Row, stage: string, to: int) {
    || stage == "auth" || (stage == "settle" && row.settled.Some? && row.settled.value < to)
    || (stage == "capture" && row.state.CapFail? && (row.captured.Some? ==> row.captured.value < to))
  }

  /** An end at a queued stage is a settlement or a failed capture. */
  lemma EndIsOfRow(ledger: seq<Row>, req: Request, start: int, fe: FlowEntity, stage: string) returns (i: nat)
    requires EndedAt(EventsOf(ledger), req, start, |TERMINAL_OUTCOMES|, fe, stage)
    requires forall i :: 0 <= i < |ledger| ==> StateFits(ledger[i])
    ensures i < |ledger| && fe == FlowEntity(FLOW, ledger[i].id) && EndOk(ledger[i], stage, req.to)
  {
    var o :| o in EventsOf(ledger) && Ends(o, req, start, |TERMINAL_OUTCOMES|, fe, stage);
    EventsAreOfRows(ledger, o);
    i :| 0 <= i < |ledger| && o in RowEvents(ledger[i]);
    RowEventsAre(ledger[i], o);
    hide EventsOf, RowEvents;
    assert o.result != Emitter.Deferred;
    TerminalEventIs(ledger[i], o);
  }

  /** A capture that failed without a time ends where it was authorised. */
  lemma FailureIsEnd(ledger: seq<Row>, req: Request, start: int, i: nat)
    requires i < |ledger| && req.flow == Some(FLOW) && ledger[i].state.CapFail? && ledger[i].captured.None?
    requires ledger[i].authed.Some? && start <= ledger[i].authed.value < req.to
    ensures EndedAt(EventsOf(ledger), req, start, |TERMINAL_OUTCOMES|, FlowEntity(FLOW, ledger[i].id), "capture")
  {
    var row := ledger[i];
    var o := Event(row, "capture", Emitter.Failed, row.authed.value);
    assert FirstNonZero([row.captured, row.authed, Some(row.created)]) == row.authed.value;
    assert IsTerminalEvent(row, o);
    RowHasEvent(ledger, i, o);
    assert TERMINAL_OUTCOMES[1] == Emitter.Failed;
    assert Reported(o, req, TERMINAL_OUTCOMES[1], start, req.to);
    assert Ends(o, req, start, |TERMINAL_OUTCOMES|, FlowEntity(FLOW, row.id), "capture");
  }

  lemma SettlementIsEnd(ledger: seq<Row>, req: Request, start: int, i: nat)
    requires i < |ledger| && StateFits(ledger[i]) && req.flow == Some(FLOW)
    requires ledger[i].settled.Some? && start <= ledger[i].settled.value < req.to
    ensures EndedAt(EventsOf(ledger), req, start, |TERMINAL_OUTCOMES|, FlowEntity(FLOW, ledger[i].id), "settle")
  {
    var row := ledger[i];
    var o := Event(row, "settle", Emitter.Succeeded, row.settled.value);
    assert IsTerminalEvent(row, o);
    RowHasEvent(ledger, i, o);
    assert Reported(o, req, TERMINAL_OUTCOMES[0], start, req.to);
    assert Ends(o, req, start, |TERMINAL_OUTCOMES|, FlowEntity(FLOW, row.id), "settle");
  }

  // ---- open deferrals are the tracked items ----

  lemma SameId(ledger: seq<Row>, i: nat, j: nat)
    requires UniqueIds(ledger) && i < |ledger| && j < |ledger| && ledger[i].id == ledger[j].id
    ensures i == j
  {
  }

  ghost predicate Waiting(ledger: seq<Row>, at: int, i: nat, stage: string) {
    i < |ledger| && ItemAt(ledger[i], stage, at).Some?
  }

  /** What waits in a queue has not ended at its stage or later ... */
  lemma ItemHasNotEnded(ledger: seq<Row>, reg: Option<Registry>, req: Request, start: int, at: int, i: nat, stage: string, s: string)
    requires Related(ledger, reg, req, at) && Waiting(ledger, at, i, stage) && !Unseen(ledger[i], stage, start)
    requires s == stage || StageIndex(reg, FLOW, s) > StageIndex(reg, FLOW, stage)
    ensures !EndedAt(EventsOf(ledger), req, start, |TERMINAL_OUTCOMES|, FlowEntity(FLOW, ledger[i].id), s)
  {
    hide StageIndex, EventsOf, EndedAt, DeferredAt, Deferral;
    if EndedAt(EventsOf(ledger), req, start, |TERMINAL_OUTCOMES|, FlowEntity(FLOW, ledger[i].id), s) {
      var j := EndIsOfRow(ledger, req, start, FlowEntity(FLOW, ledger[i].id), s);
      SameId(ledger, i, j);
      assert false;
    }
  }

  /** ... and was not deferred at a later one. */
  lemma ItemIsNotPast(ledger: seq<Row>, reg: Option<Registry>, req: Request, start: int, at: int, i: nat, stage: string, s: string)
    requires Related(ledger, reg, req, at) && Waiting(ledger, at, i, stage)
    requires StageIndex(reg, FLOW, s) > StageIndex(reg, FLOW, stage)
    ensures !DeferredStage(EventsOf(ledger), req, start, FlowEntity(FLOW, ledger[i].id), s)
  {
    var events := EventsOf(ledger);
    hide StageIndex, EventsOf, EndedAt, DeferredAt, Deferral;
    if DeferredStage(events, req, start, FlowEntity(FLOW, ledger[i].id), s) {
      var x :| DeferredAt(events, req, start, x) && DeferredEvents.At(x, FlowEntity(FLOW, ledger[i].id), s);
      var j := DeferredIsEntered(ledger, req, start, x);
      SameId(ledger, i, j);
      assert false;
    }
  }

  lemma WaitingEntered(ledger: seq<Row>, reg: Option<Registry>, req: Request, at: int, i: nat, stage: string)
    requires Related(ledger, reg, req, at) && Waiting(ledger, at, i, stage)
    ensures Entered(ledger[i], stage).Some? && Entered(ledger[i], stage).value < req.to
    ensures Entered(ledger[i], stage) == Some(ItemAt(ledger[i], stage, at).value.enqueuedAt)
  {
  }

  /** In flight on the gauge and seen means open by the events. */
  lemma ItemIsOpen(ledger: seq<Row>, reg: Option<Registry>, req: Request, start: int, at: int, i: nat, stage: string)
    requires Related(ledger, reg, req, at) && Waiting(ledger, at, i, stage) && !Unseen(ledger[i], stage, start)
    ensures Open(EventsOf(ledger), reg, req, start, EntityOf(ledger[i], stage))
  {
    var events, row := EventsOf(ledger), ledger[i];
    WaitingEntered(ledger, reg, req, at, i, stage);
    EntryIsDeferral(ledger, req, start, i, stage);
    hide StageIndex, EventsOf, EndedAt, DeferredAt, Deferral, DeferredStage, Related, Waiting, Unseen;
    forall s | s == stage || StageIndex(reg, FLOW, s) > StageIndex(reg, FLOW, stage)
      ensures !EndedAt(events, req, start, |TERMINAL_OUTCOMES|, FlowEntity(FLOW, row.id), s)
    {
      ItemHasNotEnded(ledger, reg, req, start, at, i, stage, s);
    }
    forall s | StageIndex(reg, FLOW, s) > StageIndex(reg, FLOW, stage)
      ensures !DeferredStage(events, req, start, FlowEntity(FLOW, row.id), s)
    {
      ItemIsNotPast(ledger, reg, req, start, at, i, stage, s);
    }
  }

  lemma SettleEntryShows(ledger: seq<Row>, req: Request, start: int, i: nat)
    requires i < |ledger| && req.flow == Some(FLOW)
    requires ledger[i].captured.Some? && start <= ledger[i].captured.value < req.to
    ensures DeferredStage(EventsOf(ledger), req, start, FlowEntity(FLOW, ledger[i].id), "settle")
  {
    EntryIsDeferral(ledger, req, start, i, "settle");
    assert DeferredEvents.At(EntityOf(ledger[i], "settle"), FlowEntity(FLOW, ledger[i].id), "settle");
  }

  /** Open by the events means in flight on the gauge, and seen. */
  lemma OpenIsItem(ledger: seq<Row>, reg: Option<Registry>, req: Request, start: int, at: int, k: EntityStage) returns (i: nat)
    requires Related(ledger, reg, req, at) && Open(EventsOf(ledger), reg, req, start, k)
    ensures Waiting(ledger, at, i, k.stage) && k == EntityOf(ledger[i], k.stage) && !Unseen(ledger[i], k.stage, start)
  {
    i := DeferredIsEntered(ledger, req, start, k);
    var row, fe := ledger[i], FlowEntity(FLOW, ledger[i].id);
    hide StageIndex, EventsOf, EndedAt, DeferredAt;
    assert StateFits(row) && NothingBetween(row, at, req.to) && InStageOrder(row);
    if row.settled.Some? && row.settled.value <= at {
      SettlementIsEnd(ledger, req, start, i);
    }
    if k.stage == "capture" && row.captured.Some? && row.captured.value <= at {
      SettleEntryShows(ledger, req, start, i);
    }
    if k.stage == "capture" && row.state.CapFail? && row.captured.None? {
      FailureIsEnd(ledger, req, start, i);
    }
  }

  lemma OwnDeferral(ledger: seq<Row>, req: Request, start: int, i: nat, stage: string, o: Emitter.Outcome)
    requires UniqueIds(ledger) && i < |ledger| && o in EventsOf(ledger)
    requires Deferral(o, req, start, req.to, EntityOf(ledger[i], stage))
    ensures Entered(ledger[i], stage) == Some(o.at) && o.money.amount == ledger[i].amount
  {
    var j := DeferralIsEntry(ledger, req, start, EntityOf(ledger[i], stage), o);
    hide EventsOf, Deferral;
    SameId(ledger, i, j);
  }

  lemma FirstOfItem(events: seq<Emitter.Outcome>, req: Request, start: int, k: EntityStage, item: InflightItem)
    returns (first: Emitter.Outcome)
    requires ItemOk(events, req, start, k, item)
    ensures first in events && Deferral(first, req, start, req.to, k) && first.money.amount as int <= item.minor
    ensures item.bucket == BucketLabel(AgeBucketFor(req.to - first.at))
  {
    hide BucketLabel, AgeBucketFor, Deferral;
    first :| IsFirst(events, req, start, k, first) && item.bucket == BucketLabel(AgeBucketFor(req.to - first.at));
  }

  lemma LargestOfItem(events: seq<Emitter.Outcome>, req: Request, start: int, k: EntityStage, item: InflightItem)
    returns (o: Emitter.Outcome)
    requires ItemOk(events, req, start, k, item) && item.minor > 0
    ensures o in events && Deferral(o, req, start, req.to, k) && o.money.amount as int == item.minor
  {
    hide BucketLabel, AgeBucketFor, Deferral;
    o :| o in events && Deferral(o, req, start, req.to, k) && o.money.amount as int == item.minor;
  }

  /** The one deferral of an entity at a stage fixes its bucket, that of its age at
      the window's end, and its amount. */
  lemma ItemIsRows(ledger: seq<Row>, reg: Option<Registry>, req: Request, start: int, at: int, i: nat, stage: string,
                   item: InflightItem)
    requires Related(ledger, reg, req, at) && Waiting(ledger, at, i, stage)
    requires ItemOk(EventsOf(ledger), req, start, EntityOf(ledger[i], stage), item)
    ensures item.bucket == BucketLabel(AgeBucketFor(req.to - ItemAt(ledger[i], stage, at).value.enqueuedAt))
    ensures item.minor == ledger[i].amount as int
  {
    hide EventsOf, BucketLabel, AgeBucketFor, Deferral, ItemOk;
    var events, k := EventsOf(ledger), EntityOf(ledger[i], stage);
    WaitingEntered(ledger, reg, req, at, i, stage);
    assert UniqueIds(ledger) && ledger[i].amount >= 0;
    hide Related, ItemAt, EntityOf;
    var first := FirstOfItem(events, req, start, k, item);
    OwnDeferral(ledger, req, start, i, stage, first);
    AmountAttained(events, req, start, k, item);
    if item.minor > 0 {
      var o := LargestOfItem(events, req, start, k, item);
      OwnDeferral(ledger, req, start, i, stage, o);
    }
  }

  lemma AmountAttained(events: seq<Emitter.Outcome>, req: Request, start: int, k: EntityStage, item: InflightItem)
    requires ItemOk(events, req, start, k, item)
    ensures item.minor >= 0
  {
  }

  // ---- entries of the tracked items ----

  /** What a tracked item adds to the leg, with its age read at the publish. */
  function TrackedEntry(reg: Option<Registry>, k: Key, item: Item, at: int): Entry {
    var bucket := BucketLabel(AgeBucketFor(at - item.enqueuedAt));
    Entry(bucket, item.money.currency, item.money.amount as int,
          reg.Some? && IsBreached(reg.value, k.flow, k.stage, bucket), reg.Some? && IsLost(reg.value, k.flow, k.stage, bucket))
  }

  ghost function TrackedEntries(reg: Option<Registry>, items: map<Key, Item>, at: int): map<Key, Entry> {
    map k | k in items :: TrackedEntry(reg, k, items[k], at)
  }

  function EntityKey(k: Key, item: Item): EntityStage { EntityStage(k.flow, k.stage, item.money.currency, k.id) }

  ghost function ByEntity(items: map<Key, Item>): map<Key, EntityStage> {
    map k | k in items :: EntityKey(k, items[k])
  }

  lemma TrackedIsRow(ledger: seq<Row>, items: map<Key, Item>, at: int, k: Key) returns (i: nat)
    requires ItemsAt(items, ledger, at) && UniqueIds(ledger) && k in items
    ensures i < |ledger| && k == Key(FLOW, k.stage, ledger[i].id) && ItemAt(ledger[i], k.stage, at) == Some(items[k])
    ensures EntityKey(k, items[k]) == EntityOf(ledger[i], k.stage) && items[k].money == MoneyOf(ledger[i])
  {
    i :| 0 <= i < |ledger| && k == Key(FLOW, k.stage, ledger[i].id) && ItemAt(ledger[i], k.stage, at).Some?;
  }

  lemma SameEntry(reg: Option<Registry>, k: Key, item: Item, at: int, e: EntityStage, x: InflightItem)
    requires e == EntityKey(k, item) && x.minor == item.money.amount as int
    requires x.bucket == BucketLabel(AgeBucketFor(at - item.enqueuedAt))
    ensures ItemEntry(reg, e, x) == TrackedEntry(reg, k, item, at)
  {
  }

  /** The tracked items the events see. */
  ghost function SeenItems(items: map<Key, Item>, ledger: seq<Row>, start: int): map<Key, Item> {
    map k | k in items && SeenKey(ledger, start, k) :: items[k]
  }

  predicate SeenKey(ledger: seq<Row>, start: int, k: Key) {
    forall i :: 0 <= i < |ledger| && ledger[i].id == k.id ==> !Unseen(ledger[i], k.stage, start)
  }

  /** Every seen item has its open entry, at its amount and aged to the end. */
  lemma SeenIsOpen(ledger: seq<Row>, reg: Option<Registry>, req: Request, start: int, at: int,
                   items: map<Key, Item>, entries: map<EntityStage, Entry>, k: Key)
    requires Related(ledger, reg, req, at) && ItemsAt(items, ledger, at) && k in items && SeenKey(ledger, start, k)
    requires OpenEntries(EventsOf(ledger), reg, req, start, entries)
    ensures EntityKey(k, items[k]) in entries
    ensures entries[EntityKey(k, items[k])] == TrackedEntry(reg, k, items[k], req.to)
  {
    hide Open, EventsOf, ItemOk, ItemsAt, ItemEntry, TrackedEntry, EntityKey, EntityOf, ItemAt, Unseen;
    RelatedIsOrderly(ledger, reg, req, at);
    hide Related;
    var i := TrackedIsRow(ledger, items, at, k);
    var e := EntityOf(ledger[i], k.stage);
    ItemIsOpen(ledger, reg, req, start, at, i, k.stage);
    assert e in entries;
    var item :| ItemOk(EventsOf(ledger), req, start, e, item) && entries[e] == ItemEntry(reg, e, item);
    ItemIsRows(ledger, reg, req, start, at, i, k.stage, item);
    SameEntry(reg, k, items[k], req.to, e, item);
  }

  lemma RelatedIsOrderly(ledger: seq<Row>, reg: Option<Registry>, req: Request, at: int)
    requires Related(ledger, reg, req, at)
    ensures Orderly(ledger) && UniqueIds(ledger)
  {
  }

  /** Every open entry is some seen item's. */
  lemma OpenIsSeen(ledger: seq<Row>, reg: Option<Registry>, req: Request, start: int, at: int,
                   items: map<Key, Item>, entries: map<EntityStage, Entry>, e: EntityStage) returns (k: Key)
    requires Related(ledger, reg, req, at) && ItemsAt(items, ledger, at) && e in entries
    requires OpenEntries(EventsOf(ledger), reg, req, start, entries)
    ensures k in SeenItems(items, ledger, start) && EntityKey(k, items[k]) == e
  {
    hide Open, EventsOf, Unseen, ItemAt;
    RelatedIsOrderly(ledger, reg, req, at);
    hide Related;
    assert Open(EventsOf(ledger), reg, req, start, e);
    hide OpenEntries;
    var i := OpenIsItem(ledger, reg, req, start, at, e);
    k := Key(FLOW, e.stage, ledger[i].id);
    forall j | 0 <= j < |ledger| && ledger[j].id == k.id
      ensures !Unseen(ledger[j], k.stage, start)
    {
      SameId(ledger, i, j);
    }
    IsTracked(ledger, items, at, i, e.stage);
  }

  lemma IsTracked(ledger: seq<Row>, items: map<Key, Item>, at: int, i: nat, stage: string)
    requires ItemsAt(items, ledger, at) && Waiting(ledger, at, i, stage)
    ensures var k := Key(FLOW, stage, ledger[i].id);
            k in items && Some(items[k]) == ItemAt(ledger[i], stage, at) && EntityKey(k, items[k]) == EntityOf(ledger[i], stage)
  {
  }

  /** One item each: the events' entries are the seen items, renamed. */
  lemma EntitiesAreItems(ledger: seq<Row>, reg: Option<Registry>, req: Request, start: int, at: int,
                         items: map<Key, Item>, entries: map<EntityStage, Entry>)
    requires Related(ledger, reg, req, at) && ItemsAt(items, ledger, at)
    requires OpenEntries(EventsOf(ledger), reg, req, start, entries)
    ensures var seen := SeenItems(items, ledger, start);
            var tracked := TrackedEntries(reg, seen, req.to);
            IsGrouping(tracked, ByEntity(seen), entries) && IsGrouping(Ones(tracked), ByEntity(seen), Ones(entries))
  {
    hide Related, EventsOf, OpenEntries, ItemsAt, TrackedEntry, Class, SeenKey, IsGrouping;
    var seen := SeenItems(items, ledger, start);
    var tracked, group := TrackedEntries(reg, seen, req.to), ByEntity(seen);
    forall k | k in tracked
      ensures k in group && group[k] in entries && entries[group[k]] == tracked[k]
    {
      SeenIsOpen(ledger, reg, req, start, at, items, entries, k);
    }
    assert group.Keys == tracked.Keys;
    hide SeenItems, TrackedEntries, ByEntity;
    forall e | e in entries
      ensures Class(AmountsOf(tracked), group, e) != map[]
              && entries[e].amount == Sum(Class(AmountsOf(tracked), group, e))
      ensures Class(AmountsOf(Ones(tracked)), group, e) != map[]
              && Sum(Class(AmountsOf(Ones(tracked)), group, e)) == 1
    {
      EntityClass(ledger, reg, req, start, at, items, entries, e);
    }
    Renamed(tracked, group, entries);
  }

  lemma Renamed(tracked: map<Key, Entry>, group: map<Key, EntityStage>, entries: map<EntityStage, Entry>)
    requires group.Keys == tracked.Keys && forall k :: k in tracked ==> group[k] in entries && entries[group[k]] == tracked[k]
    requires forall e :: e in entries ==>
               && Class(AmountsOf(tracked), group, e) != map[]
               && entries[e].amount == Sum(Class(AmountsOf(tracked), group, e))
               && Class(AmountsOf(Ones(tracked)), group, e) != map[]
               && Sum(Class(AmountsOf(Ones(tracked)), group, e)) == 1
    ensures IsGrouping(tracked, group, entries) && IsGrouping(Ones(tracked), group, Ones(entries))
  {
    hide Class;
  }

  lemma EntityClass(ledger: seq<Row>, reg: Option<Registry>, req: Request, start: int, at: int,
                    items: map<Key, Item>, entries: map<EntityStage, Entry>, e: EntityStage)
    requires Related(ledger, reg, req, at) && ItemsAt(items, ledger, at) && e in entries
    requires OpenEntries(EventsOf(ledger), reg, req, start, entries)
    ensures var seen := SeenItems(items, ledger, start);
            var tracked := TrackedEntries(reg, seen, req.to);
            && Class(AmountsOf(tracked), ByEntity(seen), e) != map[]
            && Class(AmountsOf(Ones(tracked)), ByEntity(seen), e) != map[]
            && entries[e].amount == Sum(Class(AmountsOf(tracked), ByEntity(seen), e))
            && Sum(Class(AmountsOf(Ones(tracked)), ByEntity(seen), e)) == 1
  {
    hide EventsOf, OpenEntries, ItemsAt, TrackedEntry, SeenKey;
    RelatedIsOrderly(ledger, reg, req, at);
    hide Related;
    var seen := SeenItems(items, ledger, start);
    var amounts, ones := AmountsOf(TrackedEntries(reg, seen, req.to)), AmountsOf(Ones(TrackedEntries(reg, seen, req.to)));
    var k := OpenIsSeen(ledger, reg, req, start, at, items, entries, e);
    SeenIsOpen(ledger, reg, req, start, at, items, entries, k);
    TrackedAmount(reg, k, items[k], req.to);
    LoneMember(ledger, items, seen, at, amounts, k);
    LoneMember(ledger, items, seen, at, ones, k);
    hide Class, ByEntity;
    assert k in map[k := amounts[k]] && k in map[k := ones[k]];
  }

  lemma TrackedAmount(reg: Option<Registry>, k: Key, item: Item, at: int)
    ensures TrackedEntry(reg, k, item, at).amount == item.money.amount as int
  {
  }

  lemma LoneMember(ledger: seq<Row>, items: map<Key, Item>, some: map<Key, Item>, at: int, m: map<Key, int>, k: Key)
    requires ItemsAt(items, ledger, at) && UniqueIds(ledger) && k in some && m.Keys == some.Keys
    requires some.Keys <= items.Keys && forall x :: x in some ==> some[x] == items[x]
    ensures Class(m, ByEntity(some), EntityKey(k, items[k])) == map[k := m[k]]
    ensures Sum(map[k := m[k]]) == m[k]
  {
    SumRemove(map[k := m[k]], k);
    assert map[k := m[k]] - {k} == map[];
    forall x | x in some && EntityKey(x, items[x]) == EntityKey(k, items[k])
      ensures x == k
    {
    }
    hide ItemsAt;
  }

  // ---- the gauge side ----

  function SeriesKey(k: Key, item: Item, at: int): Labels { SeriesLabels(Tracker.SeriesOf(k, item, at)) }

  ghost function BySeries(items: map<Key, Item>, at: int): map<Key, Labels> {
    map k | k in items :: SeriesKey(k, items[k], at)
  }

  lemma SeriesLabelsGroup(s: Series)
    ensures GroupKey(SeriesLabels(s), GAUGE_LABELS) == SeriesLabels(s)
    ensures forall req: Request :: req.flow == Some(FLOW) ==>
              (MatchFilters(SeriesLabels(s), FlowFilter(req)) <==> s.flow == FLOW)
  {
    assert forall l :: l in GAUGE_LABELS <==> l == "flow" || l == "stage" || l == "age_bucket" || l == "currency" by {
      assert GAUGE_LABELS[0] == "flow" && GAUGE_LABELS[1] == "stage" && GAUGE_LABELS[2] == "age_bucket"
          && GAUGE_LABELS[3] == "currency";
    }
    forall req: Request | req.flow == Some(FLOW)
      ensures MatchFilters(SeriesLabels(s), FlowFilter(req)) <==> s.flow == FLOW
    {
      assert "flow" in FlowFilter(req);
    }
  }

  /** A group of the gauge answer is one series. */
  lemma GroupIsLone(points: seq<Point>, req: Request, name: string, s: Series, x: SeriesId)
    requires forall p :: p in points ==> GaugePoint(p)
    requires x in GroupSeries(points, GaugeQuery(name, req), SeriesLabels(s))
    ensures x == SeriesId(name, SeriesLabels(s))
  {
    hide SeriesLabels, GroupKey;
    var q := GaugeQuery(name, req);
    var p :| p in points && Selects(q, PromQL.SeriesOf(p)) && GroupKey(p.labels, q.groupBy) == SeriesLabels(s)
             && PromQL.SeriesOf(p) == x;
    var s' :| p.labels == SeriesLabels(s');
    SeriesLabelsGroup(s');
  }

  lemma SetIsGrouped(points: seq<Point>, req: Request, name: string, s: Series)
    requires req.flow == Some(FLOW) && s.flow == FLOW
    requires name in GAUGE_FAMILIES && LastSet(points, SeriesId(name, SeriesLabels(s)), req.to).Some?
    ensures SeriesId(name, SeriesLabels(s)) in GroupSeries(points, GaugeQuery(name, req), SeriesLabels(s))
    ensures SeriesLabels(s) in Memq.Groups(points, GaugeQuery(name, req))
  {
    var q, id := GaugeQuery(name, req), SeriesId(name, SeriesLabels(s));
    SeriesLabelsGroup(s);
    SetIsBorn(points, id, req.to);
    hide SeriesLabels, GroupKey, MatchFilters, LastSet;
    var p :| p in points && Before(p, id, req.to);
    assert PromQL.SeriesOf(p) == id;
    assert Memq.Kept(q, p);
  }

  /** ... at its last level. */
  lemma GroupIsSeries(points: seq<Point>, req: Request, name: string, s: Series)
    requires name in GAUGE_FAMILIES
    requires req.flow == Some(FLOW) && s.flow == FLOW && forall p :: p in points ==> GaugePoint(p)
    ensures var q, id := GaugeQuery(name, req), SeriesId(name, SeriesLabels(s));
            && LevelIn(points, q, SeriesLabels(s)) == LevelBefore(points, id, req.to)
            && (LevelIn(points, q, SeriesLabels(s)) != 0 ==> SeriesLabels(s) in Memq.Groups(points, q))
  {
    var q, g := GaugeQuery(name, req), SeriesLabels(s);
    var id := SeriesId(name, g);
    GaugeTotal(points, q, g, q.to);
    forall x | x in GroupSeries(points, q, g)
      ensures x == id
    {
      GroupIsLone(points, req, name, s, x);
    }
    if LastSet(points, id, req.to).Some? {
      SetIsGrouped(points, req, name, s);
    }
    LoneSeries(points, GroupSeries(points, q, g), id, req.to);
    LevelIsTotal(points, q, g);
    hide LastSet, GroupPoints, SeriesLabels, GroupSeries, Memq.Groups, LevelIn, LastLevels;
  }

  lemma LevelIsTotal(points: seq<Point>, q: Query, g: Labels)
    requires q.metric in GAUGE_FAMILIES && q.agg == AggSum && q.step == 0
    ensures var mine := GroupPoints(points, q, g);
            LevelIn(points, q, g) == if LastLevels(mine, q.to) == map[] then 0 else Sum(Levels(mine, q.to))
  {
    hide GroupPoints, LastLevels;
    var mine := GroupPoints(points, q, g);
    if LastLevels(mine, q.to) != map[] {
      var r := Reading(q.from, Sum(Levels(mine, q.to)));
      assert BucketPoints(mine, q) == [r];
      assert [r][1..] == [];
      assert SumReadings([r]) == r.value;
    } else {
      assert BucketPoints(mine, q) == [];
    }
  }

  lemma LoneSeries(points: seq<Point>, ids: set<SeriesId>, id: SeriesId, b: int)
    requires forall x :: x in ids ==> x == id
    ensures True(points, ids, b) == if id in ids then ValueAt(points, id, b) else 0
  {
    var m := map x | x in ids :: ValueAt(points, x, b);
    if id in ids {
      OneSeries(id, m);
    } else {
      assert m == map[];
    }
  }

  lemma GroupHasSeries(points: seq<Point>, req: Request, name: string, g: Labels) returns (s: Series)
    requires req.flow == Some(FLOW) && forall p :: p in points ==> GaugePoint(p)
    requires g in Memq.Groups(points, GaugeQuery(name, req))
    ensures g == SeriesLabels(s) && s.flow == FLOW
  {
    hide SeriesLabels, GroupKey, MatchFilters, FlowFilter;
    var q := GaugeQuery(name, req);
    var p :| p in points && Memq.Kept(q, p) && GroupKey(p.labels, q.groupBy) == g;
    s :| p.labels == SeriesLabels(s);
    SeriesLabelsGroup(s);
  }

  /** The tracked items of a series, whatever is summed over them. */
  lemma SeriesClass(items: map<Key, Item>, at: int, s: Series, m: map<Key, int>)
    requires m.Keys == items.Keys
    ensures Class(m, BySeries(items, at), SeriesLabels(s)) == map k | k in InSeries(items, s, at) :: m[k]
  {
    hide SeriesLabels;
    forall k | k in items
      ensures SeriesLabels(Tracker.SeriesOf(k, items[k], at)) == SeriesLabels(s) <==> Tracker.SeriesOf(k, items[k], at) == s
    {
      LabelsNameTheSeries(Tracker.SeriesOf(k, items[k], at), s);
    }
  }

  ghost predicate Countable(items: map<Key, Item>, counts: bool) {
    forall k :: k in items ==> k.flow == FLOW && (counts || items[k].money.amount > 0)
  }

  /** Every tracked entry by its amount, or as one. */
  ghost function Entries(reg: Option<Registry>, items: map<Key, Item>, at: int, counts: bool): map<Key, Entry> {
    if counts then Ones(TrackedEntries(reg, items, at)) else TrackedEntries(reg, items, at)
  }

  function Part(level: Level, counts: bool): int { if counts then level.count else level.minor }

  function Family(counts: bool): string { if counts then COUNT else VALUE }

  /** A series' value and count are the sums over its class. */
  lemma SeriesSums(reg: Option<Registry>, items: map<Key, Item>, at: int, s: Series, counts: bool)
    requires Countable(items, counts)
    ensures var mine := Class(AmountsOf(Entries(reg, items, at, counts)), BySeries(items, at), SeriesLabels(s));
            Part(LevelOf(items, s, at), counts) == Sum(mine) && (mine != map[] <==> Sum(mine) != 0)
  {
    hide SeriesLabels, BySeries;
    var amounts := AmountsOf(Entries(reg, items, at, counts));
    SeriesClass(items, at, s, amounts);
    MineIsTracked(reg, items, at, s, counts);
    hide Class, InSeries, Entries, AmountsOf, Countable;
    if counts {
      UnitsAdd(InSeries(items, s, at), amounts);
    } else {
      ValuesAdd(InSeries(items, s, at), amounts);
    }
  }

  lemma ValuesAdd(mine: map<Key, Item>, amounts: map<Key, int>)
    requires mine.Keys <= amounts.Keys
    requires forall k :: k in mine ==> amounts[k] == mine[k].money.amount as int && mine[k].money.amount > 0
    ensures var values := map k | k in mine :: amounts[k];
            Tracker.Total(mine).minor == Sum(values) && (values != map[] <==> Sum(values) != 0)
  {
    var values := map k | k in mine :: amounts[k];
    assert values == Amounts(mine);
    if mine == map[] {
      assert values == map[];
    } else if values != map[] {
      assert forall k :: k in values ==> values[k] == mine[k].money.amount as int > 0;
      SumPositive(values);
    }
    assert values.Keys == mine.Keys;
  }

  lemma UnitsAdd(mine: map<Key, Item>, ones: map<Key, int>)
    requires mine.Keys <= ones.Keys && forall k :: k in mine ==> ones[k] == 1
    ensures var units := map k | k in mine :: ones[k];
            Tracker.Total(mine).count == Sum(units) && (units != map[] <==> Sum(units) != 0)
  {
    var units := map k | k in mine :: ones[k];
    SumOfOnes(units);
    assert units.Keys == mine.Keys;
  }

  lemma MineIsTracked(reg: Option<Registry>, items: map<Key, Item>, at: int, s: Series, counts: bool)
    requires Countable(items, counts)
    ensures var mine, amounts := InSeries(items, s, at), AmountsOf(Entries(reg, items, at, counts));
            && amounts.Keys == items.Keys && mine.Keys <= items.Keys
            && (forall k :: k in mine ==> mine[k] == items[k] && (counts || mine[k].money.amount > 0))
            && (forall k :: k in mine ==> amounts[k] == if counts then 1 else mine[k].money.amount as int)
  {
  }

  lemma SeriesEntryAlike(reg: Option<Registry>, k: Key, item: Item, at: int, amount: int)
    ensures Alike(SeriesEntry(reg, SeriesKey(k, item, at), amount), TrackedEntry(reg, k, item, at))
  {
  }

  /** A reader of one family sees exactly these items. */
  ghost predicate GaugeReads(points: seq<Point>, items: map<Key, Item>, req: Request, at: int, counts: bool) {
    && req.flow == Some(FLOW) && Countable(items, counts)
    && (forall p :: p in points ==> GaugePoint(p))
    && forall s :: Part(ReadLevel(points, s, req.to), counts) == Part(LevelOf(items, s, at), counts)
  }

  lemma ReadOf(points: seq<Point>, items: map<Key, Item>, req: Request, at: int, s: Series, counts: bool)
    requires GaugeReads(points, items, req, at, counts) && s.flow == FLOW
    ensures var q := GaugeQuery(Family(counts), req);
            && LevelIn(points, q, SeriesLabels(s)) == Part(LevelOf(items, s, at), counts)
            && (Part(LevelOf(items, s, at), counts) != 0 ==> SeriesLabels(s) in Memq.Groups(points, q))
  {
    GroupIsSeries(points, req, Family(counts), s);
    assert Part(ReadLevel(points, s, req.to), counts) == Part(LevelOf(items, s, at), counts);
    hide LevelBefore, LevelOf, LevelIn, SeriesLabels, Memq.Groups, GaugePoint, Countable;
  }

  /** The gauge's entries are the tracked ones, added up by series. */
  lemma SeriesAreItems(points: seq<Point>, reg: Option<Registry>, items: map<Key, Item>, req: Request, at: int, counts: bool)
    requires GaugeReads(points, items, req, at, counts)
    ensures IsGrouping(Entries(reg, items, at, counts), BySeries(items, at), GaugeEntries(points, GaugeQuery(Family(counts), req), reg))
  {
    hide GaugeReads, LevelIn, LevelOf, SeriesLabels, TrackedEntry, SeriesEntry, GaugeEntries, Class;
    var entries, group := Entries(reg, items, at, counts), BySeries(items, at);
    var grouped := GaugeEntries(points, GaugeQuery(Family(counts), req), reg);
    assert AmountsOf(entries).Keys == entries.Keys;
    forall k | k in entries
      ensures group[k] in grouped && Alike(grouped[group[k]], entries[k])
    {
      MemberIsGrouped(points, reg, items, req, at, counts, k);
    }
    forall g | g in grouped
      ensures Class(AmountsOf(entries), group, g) != map[] && grouped[g].amount == Sum(Class(AmountsOf(entries), group, g))
    {
      GroupIsSummed(points, reg, items, req, at, counts, g);
    }
  }

  lemma MemberHasLevel(reg: Option<Registry>, items: map<Key, Item>, at: int, k: Key, counts: bool)
    requires Countable(items, counts) && k in items
    ensures Part(LevelOf(items, Tracker.SeriesOf(k, items[k], at), at), counts) != 0
  {
    var s := Tracker.SeriesOf(k, items[k], at);
    var entries := Entries(reg, items, at, counts);
    SeriesSums(reg, items, at, s, counts);
    hide LevelOf, SeriesLabels, Countable, Entries;
    assert entries.Keys == items.Keys by {
      EntriesOfItems(reg, items, at, counts);
    }
    assert k in Class(AmountsOf(entries), BySeries(items, at), SeriesLabels(s));
  }

  lemma EntriesOfItems(reg: Option<Registry>, items: map<Key, Item>, at: int, counts: bool)
    ensures Entries(reg, items, at, counts).Keys == items.Keys
  {
  }

  lemma MemberIsGrouped(points: seq<Point>, reg: Option<Registry>, items: map<Key, Item>, req: Request, at: int,
                        counts: bool, k: Key)
    requires GaugeReads(points, items, req, at, counts) && k in items
    ensures var g, grouped := SeriesKey(k, items[k], at), GaugeEntries(points, GaugeQuery(Family(counts), req), reg);
            k in Entries(reg, items, at, counts) && g in grouped && Alike(grouped[g], Entries(reg, items, at, counts)[k])
  {
    var s := Tracker.SeriesOf(k, items[k], at);
    var q := GaugeQuery(Family(counts), req);
    MemberHasLevel(reg, items, at, k, counts);
    ReadOf(points, items, req, at, s, counts);
    hide GaugeReads, LevelOf, SeriesLabels, SeriesEntry, TrackedEntry, LevelIn, GaugeEntries, Memq.Groups;
    SeriesEntryAlike(reg, k, items[k], at, LevelIn(points, q, SeriesLabels(s)));
    EntryOf(points, q, reg, SeriesLabels(s));
  }

  lemma GroupIsSummed(points: seq<Point>, reg: Option<Registry>, items: map<Key, Item>, req: Request, at: int,
                      counts: bool, g: Labels)
    requires GaugeReads(points, items, req, at, counts)
    requires g in GaugeEntries(points, GaugeQuery(Family(counts), req), reg)
    ensures var mine := Class(AmountsOf(Entries(reg, items, at, counts)), BySeries(items, at), g);
            mine != map[] && GaugeEntries(points, GaugeQuery(Family(counts), req), reg)[g].amount == Sum(mine)
  {
    var s := GroupHasSeries(points, req, Family(counts), g);
    ReadOf(points, items, req, at, s, counts);
    SeriesSums(reg, items, at, s, counts);
    EntryOf(points, GaugeQuery(Family(counts), req), reg, g);
    hide GaugeReads, Class, AmountsOf, LevelOf, SeriesLabels, LevelIn;
  }

  // ---- both legs by the tracked items ----

  ghost function PositiveItems(items: map<Key, Item>): map<Key, Item> {
    map k | k in items && items[k].money.amount > 0 :: items[k]
  }

  /** Nothing worth zero moves a level. */
  lemma ZerosAddNothing(items: map<Key, Item>, s: Series, at: int)
    requires forall k :: k in items ==> items[k].money.amount >= 0
    ensures LevelOf(items, s, at).minor == LevelOf(PositiveItems(items), s, at).minor
  {
    SumPadded(Amounts(InSeries(items, s, at)), Amounts(InSeries(PositiveItems(items), s, at)));
  }

  /** A leg that matches some entries matches what they group. */
  lemma GroupedValues<K(!new), G(!new)>(leg: Leg, entries: map<K, Entry>, group: map<K, G>, grouped: map<G, Entry>)
    requires IsGrouping(entries, group, grouped) && ValuesMatch(leg, grouped)
    ensures ValuesMatch(leg, entries)
  {
    forall p
      ensures SamePart(entries, grouped, p)
    {
      GroupingAgrees(entries, group, grouped, p);
    }
    MembersBuckets(entries, group, grouped);
    GroupsBuckets(entries, group, grouped);
    hide IsGrouping;
    ValuesFollow(leg, grouped, entries);
  }

  lemma ValuesFollow<K(!new), L(!new)>(leg: Leg, entries: map<K, Entry>, entries': map<L, Entry>)
    requires ValuesMatch(leg, entries) && forall p :: SamePart(entries', entries, p)
    requires BucketsIn(entries, entries') && BucketsIn(entries', entries)
    ensures ValuesMatch(leg, entries')
  {
    hide TotalOk, SamePart, BucketsIn, OldestOk;
    forall cell
      ensures TotalOk(leg.byAgeBucket, cell, entries', InCell(cell))
    {
      TotalFollows(leg.byAgeBucket, cell, entries, entries', InCell(cell));
    }
    forall c
      ensures TotalOk(leg.byCurrency, c, entries', InCurrency(c)) && TotalOk(leg.projectedLost, c, entries', LostIn(c))
    {
      TotalFollows(leg.byCurrency, c, entries, entries', InCurrency(c));
      TotalFollows(leg.projectedLost, c, entries, entries', LostIn(c));
    }
    OldestFollows(leg.oldestAge, entries, entries');
  }

  lemma TotalFollows<K(!new), L(!new), X>(m: map<X, int>, x: X, entries: map<K, Entry>, entries': map<L, Entry>, p: Pick)
    requires TotalOk(m, x, entries, p) && SamePart(entries', entries, p)
    ensures TotalOk(m, x, entries', p)
  {
  }

  lemma LikeBucket<K, L>(entries: map<K, Entry>, entries': map<L, Entry>, k: K) returns (l: L)
    requires BucketsIn(entries, entries') && k in entries
    ensures l in entries' && entries'[l].bucket == entries[k].bucket
  {
    l :| l in entries' && entries'[l].bucket == entries[k].bucket;
  }

  lemma OldestFollows<K(!new), L(!new)>(age: nat, entries: map<K, Entry>, entries': map<L, Entry>)
    requires OldestOk(age, entries) && BucketsIn(entries, entries') && BucketsIn(entries', entries)
    ensures OldestOk(age, entries')
  {
    hide FloorMinutes, BucketsIn;
    forall l | l in entries'
      ensures FloorMinutes(entries'[l].bucket) <= age
    {
      var k := LikeBucket(entries', entries, l);
    }
    if age != 0 {
      var k :| k in entries && FloorMinutes(entries[k].bucket) == age;
      var l := LikeBucket(entries, entries', k);
    }
  }

  lemma GroupedCounts<K, G>(leg: Leg, entries: map<K, Entry>, group: map<K, G>, grouped: map<G, Entry>)
    requires IsGrouping(entries, group, grouped) && CountsMatch(leg, grouped)
    ensures CountsMatch(leg, entries)
  {
    GroupingAgrees(entries, group, grouped, Every);
    GroupingAgrees(entries, group, grouped, Breaching);
  }

  /** What the gauge leg says: the values of the positive items and the number of
      all, in the buckets of their ages at the publish. */
  ghost predicate GaugeLegOf(leg: Leg, reg: Option<Registry>, items: map<Key, Item>, at: int) {
    ValuesMatch(leg, TrackedEntries(reg, PositiveItems(items), at)) && CountsMatch(leg, Ones(TrackedEntries(reg, items, at)))
  }

  /** What the events leg says: the values and the number of the items it sees, in
      the buckets of their ages at the window's end. */
  ghost predicate EventsLegOf(leg: Leg, reg: Option<Registry>, seen: map<Key, Item>, to: int) {
    ValuesMatch(leg, TrackedEntries(reg, seen, to)) && CountsMatch(leg, Ones(TrackedEntries(reg, seen, to)))
  }

  lemma ItemsCount(ledger: seq<Row>, reg: Option<Registry>, req: Request, at: int, items: map<Key, Item>)
    requires Related(ledger, reg, req, at) && ItemsAt(items, ledger, at)
    ensures Countable(items, true) && Countable(PositiveItems(items), false)
    ensures forall k :: k in items ==> items[k].money.amount >= 0
  {
    RelatedIsOrderly(ledger, reg, req, at);
    forall k | k in items
      ensures k.flow == FLOW && items[k].money.amount >= 0
    {
      var i := TrackedIsRow(ledger, items, at, k);
      assert ledger[i].amount >= 0;
    }
  }

  lemma ReadsGauge(ledger: seq<Row>, reg: Option<Registry>, req: Request, at: int, items: map<Key, Item>, points: seq<Point>)
    requires Related(ledger, reg, req, at) && ItemsAt(items, ledger, at)
    requires (forall p :: p in points ==> GaugePoint(p)) && ReadsExactly(points, items, at, req.to)
    ensures GaugeReads(points, items, req, at, true) && GaugeReads(points, PositiveItems(items), req, at, false)
  {
    ItemsCount(ledger, reg, req, at, items);
    forall s
      ensures ReadLevel(points, s, req.to) == LevelOf(items, s, at)
              && LevelOf(items, s, at).minor == LevelOf(PositiveItems(items), s, at).minor
    {
      ZerosAddNothing(items, s, at);
    }
    hide ItemsAt, ReadsExactly, GaugePoint, Countable, LevelOf, ReadLevel;
  }

  lemma GaugeLegIs(points: seq<Point>, reg: Option<Registry>, items: map<Key, Item>, req: Request, at: int, gauge: Leg)
    requires GaugeReads(points, items, req, at, true) && GaugeReads(points, PositiveItems(items), req, at, false)
    requires ValuesMatch(gauge, GaugeEntries(points, GaugeQuery(VALUE, req), reg))
    requires CountsMatch(gauge, GaugeEntries(points, GaugeQuery(COUNT, req), reg))
    ensures GaugeLegOf(gauge, reg, items, at)
    ensures gauge.byAgeBucket != map[] ==> GaugeEntries(points, GaugeQuery(COUNT, req), reg) != map[]
  {
    var some := PositiveItems(items);
    SeriesAreItems(points, reg, some, req, at, false);
    SeriesAreItems(points, reg, items, req, at, true);
    hide GaugeReads, GaugeEntries, ValuesMatch, CountsMatch, IsGrouping, TrackedEntries, Ones, PositiveItems;
    GroupedValues(gauge, TrackedEntries(reg, some, at), BySeries(some, at), GaugeEntries(points, GaugeQuery(VALUE, req), reg));
    GroupedCounts(gauge, Ones(TrackedEntries(reg, items, at)), BySeries(items, at), GaugeEntries(points, GaugeQuery(COUNT, req), reg));
    if cell :| cell in gauge.byAgeBucket {
      var k := ListedByItem(gauge, reg, some, at, cell);
      PositiveIsItem(items, k);
      MemberIsCounted(points, reg, items, req, at, k);
    }
  }

  lemma PositiveIsItem(items: map<Key, Item>, k: Key)
    requires k in PositiveItems(items)
    ensures k in items
  {
  }

  lemma ListedByItem(leg: Leg, reg: Option<Registry>, items: map<Key, Item>, at: int, cell: Cell) returns (k: Key)
    requires ValuesMatch(leg, TrackedEntries(reg, items, at)) && cell in leg.byAgeBucket
    ensures k in items && cell == Cell(TrackedEntry(reg, k, items[k], at).bucket, items[k].money.currency)
  {
    var entries := TrackedEntries(reg, items, at);
    assert TotalOk(leg.byAgeBucket, cell, entries, InCell(cell));
    k :| k in Deferred.Part(entries, InCell(cell));
  }

  lemma MemberIsCounted(points: seq<Point>, reg: Option<Registry>, items: map<Key, Item>, req: Request, at: int, k: Key)
    requires k in items && IsGrouping(Entries(reg, items, at, true), BySeries(items, at), GaugeEntries(points, GaugeQuery(COUNT, req), reg))
    ensures GaugeEntries(points, GaugeQuery(COUNT, req), reg) != map[]
  {
    assert BySeries(items, at)[k] in GaugeEntries(points, GaugeQuery(COUNT, req), reg);
  }

  lemma EventsLegIs(ledger: seq<Row>, reg: Option<Registry>, req: Request, start: int, at: int, items: map<Key, Item>,
                    events: Leg, entries: map<EntityStage, Entry>)
    requires Related(ledger, reg, req, at) && ItemsAt(items, ledger, at)
    requires OpenEntries(EventsOf(ledger), reg, req, start, entries)
    requires ValuesMatch(events, entries) && CountsMatch(events, Ones(entries))
    ensures EventsLegOf(events, reg, SeenItems(items, ledger, start), req.to)
  {
    EntitiesAreItems(ledger, reg, req, start, at, items, entries);
    hide Related, ItemsAt, EventsOf, OpenEntries, ValuesMatch, CountsMatch, IsGrouping, TrackedEntries, Ones, SeenItems;
    var seen := SeenItems(items, ledger, start);
    GroupedValues(events, TrackedEntries(reg, seen, req.to), ByEntity(seen), entries);
    GroupedCounts(events, Ones(TrackedEntries(reg, seen, req.to)), ByEntity(seen), Ones(entries));
  }
}
