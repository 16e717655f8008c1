/** What telemetry sees of a checkout ledger (testkit/querier.go): its events, and
    the in-flight gauge a tracker publishes when the ledger is replayed through
    it. Instants are nanoseconds. */
module Telemetry {
  import opened Wrappers
  import opened Money
  import opened Tracker
  import opened Memq
  import opened PromQL
  import opened Deferred
  import Checkout
  import Emitter

  const FLOW := "invoice.pay"

  /** A ledger row with its times as instants. */
  datatype Row = Row(
    id: string, customer: string, segment: string, amount: int64, currency: string,
    created: int, authed: Option<int>, captured: Option<int>, settled: Option<int>, state: Checkout.State)

  function MoneyOf(row: Row): Money { Money(row.amount, row.currency, 2) }

  // ---- the events ----

  /** Go's zero time. */
  const ZERO_TIME: int := -62135596800 * SECOND

  function FirstNonZero(times: seq<Option<int>>): int {
    if times == [] then ZERO_TIME
    else if times[0].Some? then times[0].value
    else FirstNonZero(times[1..])
  }

  datatype QueueEntry = QueueEntry(stage: string, at: int)

  function QueueEntries(row: Row): seq<QueueEntry> {
    (if row.authed.Some? then [QueueEntry("capture", row.authed.value)] else [])
    + if row.captured.Some? then [QueueEntry("settle", row.captured.value)] else []
  }

  datatype Terminal = Terminal(stage: string, result: Emitter.ResultKind, at: int)

  /** Abandoned and unfinished transactions are not seen to end. */
  function TelemetryOutcome(row: Row): Option<Terminal> {
    match row.state
    case Settled => Some(Terminal("settle", Emitter.Succeeded, FirstNonZero([row.settled])))
    case CapFail => Some(Terminal("capture", Emitter.Failed, FirstNonZero([row.captured, row.authed, Some(row.created)])))
    case AuthFail => Some(Terminal("auth", Emitter.Failed, FirstNonZero([row.authed, Some(row.created)])))
    case _ => None
  }

  function Event(row: Row, stage: string, result: Emitter.ResultKind, at: int): Emitter.Outcome {
    Emitter.Outcome(at, FLOW, row.id, row.customer, row.segment, MoneyOf(row), "fee", false, stage, result)
  }

  function EntryEvents(row: Row, entries: seq<QueueEntry>): seq<Emitter.Outcome> {
    if entries == [] then []
    else [Event(row, entries[0].stage, Emitter.Deferred, entries[0].at)] + EntryEvents(row, entries[1..])
  }

  function RowEvents(row: Row): seq<Emitter.Outcome> {
    EntryEvents(row, QueueEntries(row))
    + match TelemetryOutcome(row)
      case Some(t) => [Event(row, t.stage, t.result, t.at)]
      case None => []
  }

  function EventsOf(ledger: seq<Row>): seq<Emitter.Outcome> {
    if ledger == [] then [] else EventsOf(ledger[..|ledger| - 1]) + RowEvents(ledger[|ledger| - 1])
  }

  method EventsFromResult(ledger: seq<Row>) returns (events: seq<Emitter.Outcome>)
    ensures events == EventsOf(ledger)
  {
    events := [];
    for i := 0 to |ledger|
      invariant events == EventsOf(ledger[..i])
    {
      assert ledger[..i + 1][..i] == ledger[..i];
      var row := ledger[i];
      var mine: seq<Emitter.Outcome> := [];
      var entries := QueueEntries(row);
      assert entries[0..] == entries;
      for j := 0 to |entries|
        invariant mine + EntryEvents(row, entries[j..]) == EntryEvents(row, entries)
      {
        assert entries[j..][1..] == entries[j + 1..];
        mine := mine + [Event(row, entries[j].stage, Emitter.Deferred, entries[j].at)];
      }
      assert mine == EntryEvents(row, entries);
      var outcome := TelemetryOutcome(row);
      if outcome.Some? {
        var t := outcome.value;
        mine := mine + [Event(row, t.stage, t.result, t.at)];
      }
      events := events + mine;
    }
    assert ledger[..|ledger|] == ledger;
  }

  /** The events are those of the rows, and nothing else. */
  lemma {:induction false} EventsAreOfRows(ledger: seq<Row>, o: Emitter.Outcome)
    ensures o in EventsOf(ledger) <==> exists i :: 0 <= i < |ledger| && o in RowEvents(ledger[i])
  {
    hide RowEvents;
    if ledger != [] {
      var n := |ledger| - 1;
      EventsAreOfRows(ledger[..n], o);
      if o in EventsOf(ledger[..n]) {
        var i :| 0 <= i < n && o in RowEvents(ledger[..n][i]);
        assert o in RowEvents(ledger[i]);
      }
    }
  }

  /** Each carries its row's entity, customer, segment and exact money. */
  lemma EventsCarryTheirRow(ledger: seq<Row>, o: Emitter.Outcome) returns (i: nat)
    requires o in EventsOf(ledger)
    ensures i < |ledger| && o.flow == "invoice.pay" && o.entity == ledger[i].id && o.customer == ledger[i].customer
    ensures o.segment == ledger[i].segment && !o.estimated && o.money == Money(ledger[i].amount, ledger[i].currency, 2)
  {
    EventsAreOfRows(ledger, o);
    i :| 0 <= i < |ledger| && o in RowEvents(ledger[i]);
    EntriesCarry(ledger[i], QueueEntries(ledger[i]), o);
  }

  lemma {:induction false} EntriesCarry(row: Row, entries: seq<QueueEntry>, o: Emitter.Outcome)
    ensures o in EntryEvents(row, entries) ==> o == Event(row, o.stage, o.result, o.at)
  {
    if entries != [] {
      EntriesCarry(row, entries[1..], o);
    }
  }

  // ---- the replay's timeline ----

  datatype Action = TrackCapture | DoneCapture | TrackSettle | DoneSettle

  /** One call the replay makes: for which row, and when. */
  datatype QueueEvent = QueueEvent(at: int, row: nat, action: Action)

  function When(row: Row, action: Action): Option<int> {
    match action
    case TrackCapture => row.authed
    case DoneCapture => row.captured
    case TrackSettle => row.captured
    case DoneSettle => row.settled
  }

  const LIFECYCLE := [TrackCapture, DoneCapture, TrackSettle, DoneSettle]

  function Rank(a: Action): nat {
    match a
    case TrackCapture => 0
    case DoneCapture => 1
    case TrackSettle => 2
    case DoneSettle => 3
  }

  /** Built row by row, each in lifecycle order. */
  predicate InBuildOrder(timeline: seq<QueueEvent>) {
    forall i, j :: 0 <= i < j < |timeline| ==>
      timeline[i].row < timeline[j].row
      || (timeline[i].row == timeline[j].row && Rank(timeline[i].action) < Rank(timeline[j].action))
  }

  predicate IsOfLedger(ledger: seq<Row>, e: QueueEvent) {
    e.row < |ledger| && When(ledger[e.row], e.action) == Some(e.at)
  }

  method BuildTimeline(ledger: seq<Row>) returns (timeline: seq<QueueEvent>)
    ensures InBuildOrder(timeline)
    ensures forall e :: e in timeline <==> IsOfLedger(ledger, e)
  {
    timeline := [];
    for i := 0 to |ledger|
      invariant InBuildOrder(timeline) && forall e :: e in timeline <==> IsOfLedger(ledger, e) && e.row < i
    {
      for a := 0 to 4
        invariant InBuildOrder(timeline)
        invariant forall e :: e in timeline <==>
                    IsOfLedger(ledger, e) && (e.row < i || (e.row == i && Rank(e.action) < a))
      {
        ghost var was := timeline;
        var at := When(ledger[i], LIFECYCLE[a]);
        if at.Some? {
          timeline := timeline + [QueueEvent(at.value, i, LIFECYCLE[a])];
        }
        forall e
          ensures e in timeline <==> IsOfLedger(ledger, e) && (e.row < i || (e.row == i && Rank(e.action) < a + 1))
        {
          assert e in timeline <==> e in was || (at.Some? && e == QueueEvent(at.value, i, LIFECYCLE[a]));
        }
      }
    }
  }

  // ---- the stable sort ----

  predicate InTime(s: seq<QueueEvent>) {
    forall i, j :: 0 <= i < j < |s| ==> s[i].at <= s[j].at
  }

  /** At most one of each, a row's calls at one instant in lifecycle order, earlier
      calls first: what a stable sort by time makes of the build order. */
  predicate StablySorted(s: seq<QueueEvent>) {
    && InTime(s)
    && forall i, j :: 0 <= i < j < |s| && s[i].at == s[j].at && s[i].row == s[j].row ==> Rank(s[i].action) < Rank(s[j].action)
  }

  predicate Comes(e: QueueEvent, e': QueueEvent) {
    e.row < e'.row || (e.row == e'.row && Rank(e.action) < Rank(e'.action))
  }

  method SortStable(raw: seq<QueueEvent>) returns (sorted: seq<QueueEvent>)
    requires InBuildOrder(raw)
    ensures StablySorted(sorted) && forall e :: e in sorted <==> e in raw
  {
    sorted := [];
    for i := 0 to |raw|
      invariant StablySorted(sorted)
      invariant forall e :: e in sorted <==> e in raw[..i]
    {
      assert raw[..i + 1] == raw[..i] + [raw[i]];
      forall e | e in sorted
        ensures Comes(e, raw[i])
      {
        var j :| 0 <= j < i && raw[j] == e;
      }
      sorted := InsertStable(sorted, raw[i]);
    }
    assert raw[..|raw|] == raw;
  }

  /** After everything no later than it. */
  method InsertStable(s: seq<QueueEvent>, e: QueueEvent) returns (r: seq<QueueEvent>)
    requires StablySorted(s) && forall x :: x in s ==> Comes(x, e)
    ensures StablySorted(r) && forall x :: x in r <==> x in s || x == e
  {
    var k := 0;
    while k < |s| && s[k].at <= e.at
      invariant k <= |s| && forall j :: 0 <= j < k ==> s[j].at <= e.at
    {
      k := k + 1;
    }
    r := s[..k] + [e] + s[k..];
    Inserted(s, e, k, r);
  }

  lemma Inserted(s: seq<QueueEvent>, e: QueueEvent, k: nat, r: seq<QueueEvent>)
    requires StablySorted(s) && k <= |s| && r == s[..k] + [e] + s[k..]
    requires forall x :: x in s ==> Comes(x, e)
    requires forall j :: 0 <= j < k ==> s[j].at <= e.at
    requires k < |s| ==> s[k].at > e.at
    ensures StablySorted(r) && forall x :: x in r <==> x in s || x == e
  {
    assert s == s[..k] + s[k..];
    forall j | 0 <= j < |r|
      ensures r[j] == if j < k then s[j] else if j == k then e else s[j - 1]
    {
    }
    forall i, j | 0 <= i < j < |r|
      ensures r[i].at <= r[j].at
      ensures r[i].at == r[j].at && r[i].row == r[j].row ==> Rank(r[i].action) < Rank(r[j].action)
    {
      if j == k {
        assert Comes(s[i], e);
      }
    }
  }

  // ---- what the replay leaves tracked ----

  /** What a row has in a queue once some of its calls were made. */
  function ItemAfter(row: Row, i: nat, stage: string, done: seq<QueueEvent>): Option<Item> {
    if stage == "capture" then
      if row.authed.Some? && QueueEvent(row.authed.value, i, TrackCapture) in done
         && !(row.captured.Some? && QueueEvent(row.captured.value, i, DoneCapture) in done)
      then Some(Item(MoneyOf(row), row.authed.value)) else None
    else if stage == "settle" then
      if row.captured.Some? && QueueEvent(row.captured.value, i, TrackSettle) in done
         && !(row.settled.Some? && QueueEvent(row.settled.value, i, DoneSettle) in done)
      then Some(Item(MoneyOf(row), row.captured.value)) else None
    else None
  }

  /** What a row has in a queue at an instant. */
  function ItemAt(row: Row, stage: string, at: int): Option<Item> {
    if stage == "capture" then
      if row.authed.Some? && row.authed.value <= at && !(row.captured.Some? && row.captured.value <= at)
      then Some(Item(MoneyOf(row), row.authed.value)) else None
    else if stage == "settle" then
      if row.captured.Some? && row.captured.value <= at && !(row.settled.Some? && row.settled.value <= at)
      then Some(Item(MoneyOf(row), row.captured.value)) else None
    else None
  }

  /** The tracked set holds each row's items, and nothing else. */
  ghost predicate Holds(items: map<Key, Item>, ledger: seq<Row>, itemOf: (nat, string) -> Option<Item>) {
    && (forall i: nat, stage :: i < |ledger| && itemOf(i, stage).Some? ==>
          Key(FLOW, stage, ledger[i].id) in items && items[Key(FLOW, stage, ledger[i].id)] == itemOf(i, stage).value)
    && (forall k :: k in items ==> exists i: nat :: i < |ledger| && k == Key(FLOW, k.stage, ledger[i].id) && itemOf(i, k.stage).Some?)
  }

  ghost predicate ItemsAfter(items: map<Key, Item>, ledger: seq<Row>, done: seq<QueueEvent>) {
    Holds(items, ledger, (i: nat, stage) => if i < |ledger| then ItemAfter(ledger[i], i, stage, done) else None)
  }

  ghost predicate ItemsAt(items: map<Key, Item>, ledger: seq<Row>, at: int) {
    Holds(items, ledger, (i: nat, stage) => if i < |ledger| then ItemAt(ledger[i], stage, at) else None)
  }

  predicate UniqueIds(ledger: seq<Row>) {
    forall i, j :: 0 <= i < j < |ledger| ==> ledger[i].id != ledger[j].id
  }

  predicate InStageOrder(row: Row) {
    && (row.captured.Some? ==> row.authed.Some? && row.authed.value <= row.captured.value)
    && (row.settled.Some? ==> row.captured.Some? && row.captured.value <= row.settled.value)
  }

  predicate Orderly(ledger: seq<Row>) {
    UniqueIds(ledger) && forall i :: 0 <= i < |ledger| ==> InStageOrder(ledger[i])
  }

  function KeyOf(ledger: seq<Row>, e: QueueEvent): Key
    requires e.row < |ledger|
  {
    Key(FLOW, if e.action.TrackCapture? || e.action.DoneCapture? then "capture" else "settle", ledger[e.row].id)
  }

  predicate IsTrack(a: Action) { a.TrackCapture? || a.TrackSettle? }

  /** The tracker after one more call. */
  function CallStep(v: View, maxItems: nat, ledger: seq<Row>, e: QueueEvent): View
    requires e.row < |ledger|
  {
    if IsTrack(e.action) then TrackStep(v, maxItems, KeyOf(ledger, e), MoneyOf(ledger[e.row]), e.at)
    else DoneStep(v, KeyOf(ledger, e))
  }

  /** A call touches its own row's item in its own stage only. */
  lemma OtherItemsStay(ledger: seq<Row>, done: seq<QueueEvent>, e: QueueEvent, i: nat, stage: string)
    requires IsOfLedger(ledger, e) && i < |ledger| && !(i == e.row && stage == KeyOf(ledger, e).stage)
    ensures ItemAfter(ledger[i], i, stage, done + [e]) == ItemAfter(ledger[i], i, stage, done)
  {
    assert forall x :: x in done + [e] <==> x in done || x == e;
  }

  /** In stage order, a track finds nothing and leaves its item; a done leaves
      nothing. */
  lemma OwnItemChanges(ledger: seq<Row>, done: seq<QueueEvent>, e: QueueEvent)
    requires IsOfLedger(ledger, e) && ComesLast(done, e) && InStageOrder(ledger[e.row])
    ensures var stage := KeyOf(ledger, e).stage;
            && (IsTrack(e.action) ==>
                  && ItemAfter(ledger[e.row], e.row, stage, done) == None
                  && ItemAfter(ledger[e.row], e.row, stage, done + [e]) == Some(Item(MoneyOf(ledger[e.row]), e.at)))
            && (!IsTrack(e.action) ==> ItemAfter(ledger[e.row], e.row, stage, done + [e]) == None)
  {
    assert forall x :: x in done + [e] <==> x in done || x == e;
  }

  ghost predicate ComesLast(done: seq<QueueEvent>, e: QueueEvent) {
    && e !in done
    && forall x :: x in done && x.row == e.row ==> x.at < e.at || (x.at == e.at && Rank(x.action) < Rank(e.action))
  }

  lemma TracksNewKeys(items: map<Key, Item>, ledger: seq<Row>, done: seq<QueueEvent>, e: QueueEvent)
    requires Orderly(ledger) && ItemsAfter(items, ledger, done) && IsOfLedger(ledger, e) && ComesLast(done, e)
    requires IsTrack(e.action)
    ensures KeyOf(ledger, e) !in items
  {
    var k := KeyOf(ledger, e);
    OwnItemChanges(ledger, done, e);
    hide ItemAfter;
    assert forall i :: 0 <= i < |ledger| && ledger[i].id == ledger[e.row].id ==> i == e.row;
  }

  /** The tracked set after a call that was neither refused nor rejected. */
  function Called(items: map<Key, Item>, ledger: seq<Row>, e: QueueEvent): map<Key, Item>
    requires e.row < |ledger|
  {
    var k := KeyOf(ledger, e);
    if IsTrack(e.action) then items[k := Item(MoneyOf(ledger[e.row]), e.at)] else items - {k}
  }

  lemma CallEffect(v: View, maxItems: nat, ledger: seq<Row>, e: QueueEvent)
    requires e.row < |ledger| && (IsTrack(e.action) ==> KeyOf(ledger, e) !in v.items)
    requires var v' := CallStep(v, maxItems, ledger, e); v'.overflow == v.overflow && v'.rejected == v.rejected
    ensures CallStep(v, maxItems, ledger, e).items == Called(v.items, ledger, e)
  {
    hide KeyOf, MoneyOf, IsTrack;
  }

  lemma CalledHasAll(items: map<Key, Item>, ledger: seq<Row>, done: seq<QueueEvent>, e: QueueEvent, i: nat, stage: string)
    requires Orderly(ledger) && ItemsAfter(items, ledger, done) && IsOfLedger(ledger, e) && ComesLast(done, e)
    requires i < |ledger| && ItemAfter(ledger[i], i, stage, done + [e]).Some?
    ensures var x, items' := Key(FLOW, stage, ledger[i].id), Called(items, ledger, e);
            x in items' && items'[x] == ItemAfter(ledger[i], i, stage, done + [e]).value
  {
    OwnItemChanges(ledger, done, e);
    OwnKey(ledger, e);
    hide ItemAfter, ComesLast, KeyOf;
    if !(i == e.row && stage == KeyOf(ledger, e).stage) {
      OtherItemsStay(ledger, done, e, i, stage);
      OtherKey(ledger, e, i, stage);
    }
  }

  lemma CalledHasOnly(items: map<Key, Item>, ledger: seq<Row>, done: seq<QueueEvent>, e: QueueEvent, x: Key)
    requires Orderly(ledger) && ItemsAfter(items, ledger, done) && IsOfLedger(ledger, e) && ComesLast(done, e)
    requires x in Called(items, ledger, e)
    ensures exists i: nat :: i < |ledger| && x == Key(FLOW, x.stage, ledger[i].id)
                             && ItemAfter(ledger[i], i, x.stage, done + [e]).Some?
  {
    OwnItemChanges(ledger, done, e);
    OwnKey(ledger, e);
    hide ItemAfter, ComesLast, KeyOf;
    if x != KeyOf(ledger, e) {
      var i: nat :| i < |ledger| && x == Key(FLOW, x.stage, ledger[i].id) && ItemAfter(ledger[i], i, x.stage, done).Some?;
      OtherItemsStay(ledger, done, e, i, x.stage);
    }
  }

  lemma CalledHolds(items: map<Key, Item>, ledger: seq<Row>, done: seq<QueueEvent>, e: QueueEvent)
    requires Orderly(ledger) && ItemsAfter(items, ledger, done) && IsOfLedger(ledger, e) && ComesLast(done, e)
    ensures ItemsAfter(Called(items, ledger, e), ledger, done + [e])
  {
    hide ItemAfter, ComesLast, KeyOf, Called;
    forall i: nat, stage | i < |ledger| && ItemAfter(ledger[i], i, stage, done + [e]).Some?
      ensures var x, items' := Key(FLOW, stage, ledger[i].id), Called(items, ledger, e);
              x in items' && items'[x] == ItemAfter(ledger[i], i, stage, done + [e]).value
    {
      CalledHasAll(items, ledger, done, e, i, stage);
    }
    forall x | x in Called(items, ledger, e)
      ensures exists i: nat :: i < |ledger| && x == Key(FLOW, x.stage, ledger[i].id)
                               && ItemAfter(ledger[i], i, x.stage, done + [e]).Some?
    {
      CalledHasOnly(items, ledger, done, e, x);
    }
  }

  lemma OwnKey(ledger: seq<Row>, e: QueueEvent)
    requires e.row < |ledger|
    ensures KeyOf(ledger, e) == Key(FLOW, KeyOf(ledger, e).stage, ledger[e.row].id)
  {
  }

  lemma OtherKey(ledger: seq<Row>, e: QueueEvent, i: nat, stage: string)
    requires UniqueIds(ledger) && e.row < |ledger| && i < |ledger| && !(i == e.row && stage == KeyOf(ledger, e).stage)
    ensures Key(FLOW, stage, ledger[i].id) != KeyOf(ledger, e)
  {
  }

  lemma CallKeepsItems(v: View, maxItems: nat, ledger: seq<Row>, done: seq<QueueEvent>, e: QueueEvent)
    requires Orderly(ledger) && ItemsAfter(v.items, ledger, done) && IsOfLedger(ledger, e) && ComesLast(done, e)
    requires var v' := CallStep(v, maxItems, ledger, e); v'.overflow == v.overflow && v'.rejected == v.rejected
    ensures ItemsAfter(CallStep(v, maxItems, ledger, e).items, ledger, done + [e])
  {
    hide ItemsAfter, ComesLast;
    if IsTrack(e.action) {
      TracksNewKeys(v.items, ledger, done, e);
    }
    CallEffect(v, maxItems, ledger, e);
    CalledHolds(v.items, ledger, done, e);
  }

  /** Every call up to an instant made, and none after. */
  lemma AfterIsAt(items: map<Key, Item>, ledger: seq<Row>, done: seq<QueueEvent>, at: int)
    requires ItemsAfter(items, ledger, done)
    requires forall e :: e in done <==> IsOfLedger(ledger, e) && e.at <= at
    ensures ItemsAt(items, ledger, at)
  {
    forall i: nat, stage | i < |ledger|
      ensures ItemAfter(ledger[i], i, stage, done) == ItemAt(ledger[i], stage, at)
    {
      var row := ledger[i];
      if row.authed.Some? {
        assert IsOfLedger(ledger, QueueEvent(row.authed.value, i, TrackCapture));
      }
      if row.captured.Some? {
        assert IsOfLedger(ledger, QueueEvent(row.captured.value, i, DoneCapture));
        assert IsOfLedger(ledger, QueueEvent(row.captured.value, i, TrackSettle));
      }
      if row.settled.Some? {
        assert IsOfLedger(ledger, QueueEvent(row.settled.value, i, DoneSettle));
      }
    }
  }

  // ---- a replay that is never refused ----

  const TRACKER_BOUND := 0x10_0000

  /** The tracker has room for every row and accepts every amount. */
  predicate Fits(ledger: seq<Row>) {
    Orderly(ledger) && |ledger| <= TRACKER_BOUND && forall i :: 0 <= i < |ledger| ==> MoneyOf(ledger[i]).Valid()
  }

  /** The part of a timeline already replayed has every earlier call. */
  ghost predicate AllEarlier(done: seq<QueueEvent>, ledger: seq<Row>, e: QueueEvent) {
    forall x :: IsOfLedger(ledger, x) && x.row == e.row && (x.at < e.at || (x.at == e.at && Rank(x.action) < Rank(e.action))) ==>
      x in done
  }

  /** A row waits in one queue at a time. */
  predicate OneQueueEach(ledger: seq<Row>, done: seq<QueueEvent>) {
    forall i :: 0 <= i < |ledger| ==> ItemAfter(ledger[i], i, "capture", done).None? || ItemAfter(ledger[i], i, "settle", done).None?
  }

  /** A track finds its row in neither queue. */
  lemma TrackedRowIsNowhere(ledger: seq<Row>, done: seq<QueueEvent>, e: QueueEvent, stage: string)
    requires IsOfLedger(ledger, e) && ComesLast(done, e) && AllEarlier(done, ledger, e) && InStageOrder(ledger[e.row])
    requires IsTrack(e.action)
    ensures ItemAfter(ledger[e.row], e.row, stage, done).None?
  {
    var row := ledger[e.row];
    if e.action.TrackSettle? {
      assert IsOfLedger(ledger, QueueEvent(e.at, e.row, DoneCapture));
    }
  }

  lemma StillOneQueueEach(ledger: seq<Row>, done: seq<QueueEvent>, e: QueueEvent)
    requires OneQueueEach(ledger, done) && Orderly(ledger)
    requires IsOfLedger(ledger, e) && ComesLast(done, e) && AllEarlier(done, ledger, e)
    ensures OneQueueEach(ledger, done + [e])
  {
    forall i | 0 <= i < |ledger|
      ensures ItemAfter(ledger[i], i, "capture", done + [e]).None? || ItemAfter(ledger[i], i, "settle", done + [e]).None?
    {
      var other := if KeyOf(ledger, e).stage == "capture" then "settle" else "capture";
      OtherItemsStay(ledger, done, e, i, other);
      if i == e.row {
        OwnItemChanges(ledger, done, e);
        if IsTrack(e.action) {
          TrackedRowIsNowhere(ledger, done, e, other);
        }
      } else {
        OtherItemsStay(ledger, done, e, i, KeyOf(ledger, e).stage);
      }
      hide ItemAfter;
    }
  }

  function IdsOf(keys: set<Key>): set<string> { set k | k in keys :: k.id }

  /** No two keys of one transaction. */
  predicate OneEach(keys: set<Key>) { forall k, k' :: k in keys && k' in keys && k.id == k'.id ==> k == k' }

  lemma {:induction false} AsManyIds(keys: set<Key>)
    requires OneEach(keys)
    ensures |IdsOf(keys)| == |keys|
    decreases |keys|
  {
    if k :| k in keys {
      AsManyIds(keys - {k});
      assert IdsOf(keys) == IdsOf(keys - {k}) + {k.id};
    } else {
      assert IdsOf(keys) == {};
    }
  }

  function LedgerIds(ledger: seq<Row>): set<string> { set i | 0 <= i < |ledger| :: ledger[i].id }

  lemma {:induction false} NoMoreIdsThanRows(ledger: seq<Row>)
    ensures |LedgerIds(ledger)| <= |ledger|
  {
    if ledger != [] {
      var n := |ledger| - 1;
      NoMoreIdsThanRows(ledger[..n]);
      assert LedgerIds(ledger) == LedgerIds(ledger[..n]) + {ledger[n].id};
    }
  }

  lemma Smaller(a: set<string>, b: set<string>, x: string)
    requires a <= b && x in b && x !in a
    ensures |a| < |b|
  {
    assert a <= b - {x};
    assert |a| <= |b - {x}| by {
      CardSubset(a, b - {x});
    }
  }

  lemma {:induction false} CardSubset(a: set<string>, b: set<string>)
    requires a <= b
    ensures |a| <= |b|
    decreases |a|
  {
    if x :| x in a {
      CardSubset(a - {x}, b - {x});
    }
  }

  /** While a row is in no queue, fewer items are tracked than there are rows. */
  lemma RoomForOneMore(items: map<Key, Item>, ledger: seq<Row>, done: seq<QueueEvent>, e: QueueEvent)
    requires Orderly(ledger) && ItemsAfter(items, ledger, done) && OneQueueEach(ledger, done)
    requires IsOfLedger(ledger, e) && ComesLast(done, e) && AllEarlier(done, ledger, e) && IsTrack(e.action)
    ensures |items| < |ledger|
  {
    hide ItemAfter, ItemsAfter, ComesLast, AllEarlier, OneQueueEach;
    var keys := items.Keys;
    forall k | k in keys
      ensures k.id in LedgerIds(ledger) && k.id != ledger[e.row].id
    {
      var i := RowOf(items, ledger, done, k);
      TrackedRowIsNowhere(ledger, done, e, k.stage);
    }
    forall k, k' | k in keys && k' in keys && k.id == k'.id
      ensures k == k'
    {
      SameRowSameKey(items, ledger, done, k, k');
    }
    AsManyIds(keys);
    NoMoreIdsThanRows(ledger);
    assert ledger[e.row].id in LedgerIds(ledger);
    Smaller(IdsOf(keys), LedgerIds(ledger), ledger[e.row].id);
  }

  lemma RowOf(items: map<Key, Item>, ledger: seq<Row>, done: seq<QueueEvent>, k: Key) returns (i: nat)
    requires ItemsAfter(items, ledger, done) && k in items
    ensures i < |ledger| && k == Key(FLOW, k.stage, ledger[i].id) && ItemAfter(ledger[i], i, k.stage, done).Some?
  {
    hide ItemAfter;
    i :| i < |ledger| && k == Key(FLOW, k.stage, ledger[i].id) && ItemAfter(ledger[i], i, k.stage, done).Some?;
  }

  lemma InOneOfTwo(row: Row, i: nat, stage: string, done: seq<QueueEvent>)
    ensures ItemAfter(row, i, stage, done).Some? ==> stage == "capture" || stage == "settle"
  {
  }

  lemma SameRowSameKey(items: map<Key, Item>, ledger: seq<Row>, done: seq<QueueEvent>, k: Key, k': Key)
    requires UniqueIds(ledger) && ItemsAfter(items, ledger, done) && OneQueueEach(ledger, done)
    requires k in items && k' in items && k.id == k'.id
    ensures k == k'
  {
    hide ItemAfter, ItemsAfter;
    var i := RowOf(items, ledger, done, k);
    var j := RowOf(items, ledger, done, k');
    assert i == j;
    InOneOfTwo(ledger[i], i, k.stage, done);
    InOneOfTwo(ledger[i], i, k'.stage, done);
  }
}
