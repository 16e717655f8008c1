/** The in-flight tracker (emit/inflight.go): which messages are in which queue,
    and the gauge levels published for them. Instants and ages are nanoseconds.
    Money sums are mathematical integers. */
module Tracker {
  import opened FiniteSums
  import opened Money
  import opened Wrappers

  const SECOND: int := 1000000000
  const MINUTE: int := 60 * SECOND
  const HOUR: int := 60 * MINUTE

  datatype Bucket = Lt1m | From1mTo5m | From5mTo30m | From30mTo2h | Gt2h

  const AGE_BUCKETS: seq<Bucket> := [Lt1m, From1mTo5m, From5mTo30m, From30mTo2h, Gt2h]

  function AgeBucketFor(age: int): Bucket {
    if age < MINUTE then Lt1m
    else if age < 5 * MINUTE then From1mTo5m
    else if age < 30 * MINUTE then From5mTo30m
    else if age < 2 * HOUR then From30mTo2h
    else Gt2h
  }

  /** The youngest age a bucket holds. */
  function BucketFloor(b: Bucket): int {
    match b
    case Lt1m => 0
    case From1mTo5m => MINUTE
    case From5mTo30m => 5 * MINUTE
    case From30mTo2h => 30 * MINUTE
    case Gt2h => 2 * HOUR
  }

  /** Buckets are left-closed and tile the non-negative ages: an age's bucket is
      the last one whose floor it has reached. Negative ages clamp to the first. */
  lemma BucketIsLastFloorReached(age: int, b: Bucket)
    ensures AgeBucketFor(age) == b <==>
              && (b == Lt1m || BucketFloor(b) <= age)
              && forall c :: BucketFloor(b) < BucketFloor(c) ==> age < BucketFloor(c)
  {
    if AgeBucketFor(age) != b {
      assert BucketFloor(b) < BucketFloor(AgeBucketFor(age)) || BucketFloor(AgeBucketFor(age)) < BucketFloor(b);
    }
  }

  datatype Key = Key(flow: string, stage: string, id: string)

  datatype Item = Item(money: Money, enqueuedAt: int)

  datatype Combo = Combo(flow: string, stage: string, currency: string, exponent: int8)

  /** A gauge series as a backend sees it: the exponent is not a label. */
  datatype Series = Series(flow: string, stage: string, bucket: Bucket, currency: string)

  datatype Level = Level(minor: int, count: int)

  const ZERO := Level(0, 0)

  /** One SetInFlight call. */
  datatype Sample = Sample(series: Series, exponent: int8, level: Level)

  // ---- what the tracked items add up to ----

  function ComboOf(k: Key, item: Item): Combo {
    Combo(k.flow, k.stage, item.money.currency, item.money.exponent)
  }

  function SeriesOf(k: Key, item: Item, now: int): Series {
    Series(k.flow, k.stage, AgeBucketFor(now - item.enqueuedAt), item.money.currency)
  }

  function ComboSeries(c: Combo, b: Bucket): Series {
    Series(c.flow, c.stage, b, c.currency)
  }

  ghost function Amounts(items: map<Key, Item>): map<Key, int> {
    map k | k in items :: items[k].money.amount as int
  }

  ghost function Total(items: map<Key, Item>): Level {
    Level(Sum(Amounts(items)), |items|)
  }

  ghost function InSeries(items: map<Key, Item>, s: Series, now: int): map<Key, Item> {
    map k | k in items && SeriesOf(k, items[k], now) == s :: items[k]
  }

  /** The exact level of a series: the sum and number of the items in it. */
  ghost function LevelOf(items: map<Key, Item>, s: Series, now: int): Level {
    Total(InSeries(items, s, now))
  }

  predicate Within(k: Key, item: Item, c: Combo, b: Bucket, now: int) {
    ComboOf(k, item) == c && AgeBucketFor(now - item.enqueuedAt) == b
  }

  ghost function InCell(items: map<Key, Item>, c: Combo, b: Bucket, now: int): map<Key, Item> {
    map k | k in items && Within(k, items[k], c, b, now) :: items[k]
  }

  ghost function CellLevel(items: map<Key, Item>, c: Combo, b: Bucket, now: int): Level {
    Total(InCell(items, c, b, now))
  }

  ghost function Combos(items: map<Key, Item>): set<Combo> {
    set k | k in items :: ComboOf(k, items[k])
  }

  lemma TotalAdd(items: map<Key, Item>, k: Key, item: Item)
    requires k !in items
    ensures Total(items[k := item])
         == Level(Total(items).minor + item.money.amount as int, Total(items).count + 1)
  {
    var amounts, amount := Amounts(items), item.money.amount as int;
    CardUpdate(items, k, item);
    assert Amounts(items[k := item]) == amounts[k := amount];
    SumUpdate(amounts, k, amount);
  }

  lemma InCellAdd(items: map<Key, Item>, k: Key, item: Item, c: Combo, b: Bucket, now: int)
    requires k !in items
    ensures InCell(items[k := item], c, b, now)
         == if Within(k, item, c, b, now) then InCell(items, c, b, now)[k := item] else InCell(items, c, b, now)
  {
  }

  lemma CellAdd(items: map<Key, Item>, k: Key, item: Item, c: Combo, b: Bucket, now: int)
    requires k !in items
    ensures var before := CellLevel(items, c, b, now);
            CellLevel(items[k := item], c, b, now)
              == if Within(k, item, c, b, now) then Level(before.minor + item.money.amount as int, before.count + 1)
                 else before
  {
    InCellAdd(items, k, item, c, b, now);
    if Within(k, item, c, b, now) {
      TotalAdd(InCell(items, c, b, now), k, item);
    }
  }

  lemma CombosAdd(items: map<Key, Item>, k: Key, item: Item)
    requires k !in items
    ensures Combos(items[k := item]) == Combos(items) + {ComboOf(k, item)}
  {
    var items' := items[k := item];
    assert items'[k] == item && ComboOf(k, items'[k]) in Combos(items');
    forall j | j in items
      ensures ComboOf(j, items[j]) in Combos(items')
    {
      assert j in items' && items'[j] == items[j];
    }
  }

  // ---- abstract state and its steps ----

  /** Everything the tracker knows: what is tracked, the exponent each currency
      is pinned to, the combos with a level outstanding, what it has published,
      and its two reject counters. */
  datatype View = View(
    items: map<Key, Item>, exponents: map<string, int8>, live: set<Combo>,
    emitted: seq<Sample>, overflow: nat, rejected: nat)

  const EMPTY := View(map[], map[], {}, [], 0, 0)

  function Earlier(a: int, b: int): int { if a < b then a else b }

  /** Valid money, at its currency's pinned exponent if it has one. */
  predicate Accepts(v: View, money: Money) {
    money.Valid() && (money.currency in v.exponents ==> v.exponents[money.currency] == money.exponent)
  }

  /** A retracked id keeps the oldest enqueue time and takes the new money; a new
      one must fit the bound. */
  function StoreStep(v: View, maxItems: nat, key: Key, money: Money, enqueuedAt: int): View {
    if key in v.items then
      v.(items := v.items[key := Item(money, Earlier(v.items[key].enqueuedAt, enqueuedAt))])
    else if |v.items| >= maxItems then v.(overflow := v.overflow + 1)
    else v.(items := v.items[key := Item(money, enqueuedAt)])
  }

  /** Track: validation, then the pin (kept even if the bound then rejects the
      call), then the set. */
  function TrackStep(v: View, maxItems: nat, key: Key, money: Money, enqueuedAt: int): View {
    if !Accepts(v, money) then v.(rejected := v.rejected + 1)
    else StoreStep(v.(exponents := v.exponents[money.currency := money.exponent]), maxItems, key, money, enqueuedAt)
  }

  function DoneStep(v: View, key: Key): View {
    v.(items := v.items - {key})
  }

  ghost function SampleOf(items: map<Key, Item>, c: Combo, b: Bucket, now: int): Sample {
    Sample(ComboSeries(c, b), c.exponent, CellLevel(items, c, b, now))
  }

  /** One cycle's calls, in any order: every bucket of every combo that has items
      or had some last time, once each. */
  ghost predicate IsPublication(out: seq<Sample>, items: map<Key, Item>, live: set<Combo>, now: int) {
    && |out| == 5 * |Combos(items) + live|
    && (forall x :: x in out ==>
          exists c, b :: c in Combos(items) + live && x == SampleOf(items, c, b, now))
    && (forall c, b :: c in Combos(items) + live ==> SampleOf(items, c, b, now) in out)
  }

  ghost predicate PublishStep(v: View, v': View, now: int) {
    exists out ::
      && IsPublication(out, v.items, v.live, now)
      && v' == v.(live := Combos(v.items), emitted := v.emitted + out)
  }

  // ---- what every step keeps ----

  /** The last level published for a series; a series never published reads as
      zero. */
  ghost function LastLevel(emitted: seq<Sample>, s: Series): Level {
    if emitted == [] then ZERO
    else if emitted[|emitted| - 1].series == s then emitted[|emitted| - 1].level
    else LastLevel(emitted[..|emitted| - 1], s)
  }

  ghost predicate Pinned(v: View, currency: string, exponent: int8) {
    currency in v.exponents && v.exponents[currency] == exponent
  }

  /** A series whose last level is not zero is one the next cycle will visit. */
  ghost predicate Outstanding(v: View, s: Series) {
    LastLevel(v.emitted, s) != ZERO ==> exists c :: c in v.live && ComboSeries(c, s.bucket) == s
  }

  ghost predicate Inv(v: View, maxItems: nat) {
    && |v.items| <= maxItems
    && (forall k :: k in v.items ==>
          v.items[k].money.Valid() && Pinned(v, v.items[k].money.currency, v.items[k].money.exponent))
    && (forall c :: c in v.live ==> Pinned(v, c.currency, c.exponent))
    && (forall s :: Outstanding(v, s))
  }

  lemma TrackKeepsInv(v: View, maxItems: nat, key: Key, money: Money, enqueuedAt: int)
    requires Inv(v, maxItems)
    ensures Inv(TrackStep(v, maxItems, key, money, enqueuedAt), maxItems)
  {
    var v' := TrackStep(v, maxItems, key, money, enqueuedAt);
    if key in v.items {
      CardUpdate(v.items, key, Item(money, Earlier(v.items[key].enqueuedAt, enqueuedAt)));
    } else {
      CardUpdate(v.items, key, Item(money, enqueuedAt));
    }
    forall s
      ensures Outstanding(v', s)
    {
      assert Outstanding(v, s);
    }
  }

  lemma DoneKeepsInv(v: View, maxItems: nat, key: Key)
    requires Inv(v, maxItems)
    ensures Inv(DoneStep(v, key), maxItems)
  {
    var v' := DoneStep(v, key);
    CardRemove(v.items, key);
    forall s
      ensures Outstanding(v', s)
    {
      assert Outstanding(v, s);
    }
  }

  /** The pin makes a combo's series its own: two combos of the tracker never
      share one. */
  lemma SeriesNamesOneCombo(v: View, maxItems: nat, c: Combo, c': Combo, b: Bucket)
    requires Inv(v, maxItems)
    requires c in Combos(v.items) + v.live && c' in Combos(v.items) + v.live
    requires ComboSeries(c, b) == ComboSeries(c', b)
    ensures c == c'
  {
  }

  /** For a pinned currency the items of a series are those of one combo. */
  lemma SeriesLevelIsCellLevel(v: View, maxItems: nat, c: Combo, b: Bucket, now: int)
    requires Inv(v, maxItems) && c in Combos(v.items) + v.live
    ensures LevelOf(v.items, ComboSeries(c, b), now) == CellLevel(v.items, c, b, now)
  {
    assert InSeries(v.items, ComboSeries(c, b), now) == InCell(v.items, c, b, now);
  }

  lemma {:induction false} LastLevelAfter(emitted: seq<Sample>, out: seq<Sample>, s: Series, level: Level)
    requires forall x :: x in out && x.series == s ==> x.level == level
    ensures LastLevel(emitted + out, s)
         == if exists x :: x in out && x.series == s then level else LastLevel(emitted, s)
  {
    if out == [] {
      assert emitted + out == emitted;
    } else {
      var init, last := out[..|out| - 1], out[|out| - 1];
      assert (emitted + out)[..|emitted + out| - 1] == emitted + init;
      assert forall x :: x in init ==> x in out;
      LastLevelAfter(emitted, init, s, level);
      assert out == init + [last];
      assert last in out;
    }
  }

  ghost predicate Exact(v: View, now: int) {
    forall s :: LastLevel(v.emitted, s) == LevelOf(v.items, s, now)
  }

  /** After every publish, the last level of every series is exactly the sum and
      count of the items in it at that instant — zero for a series with none. */
  lemma PublishIsExact(v: View, v': View, maxItems: nat, now: int)
    requires Inv(v, maxItems) && PublishStep(v, v', now)
    ensures Exact(v', now)
  {
    var out :| IsPublication(out, v.items, v.live, now) && v' == v.(live := Combos(v.items), emitted := v.emitted + out);
    forall s
      ensures LastLevel(v'.emitted, s) == LevelOf(v'.items, s, now)
    {
      PublishedSeriesIsExact(v, maxItems, now, out, s);
    }
  }

  /** Every sample of a publication carries its series' exact level. */
  lemma SampleIsExact(v: View, maxItems: nat, now: int, out: seq<Sample>, x: Sample)
    requires Inv(v, maxItems) && IsPublication(out, v.items, v.live, now) && x in out
    ensures x.level == LevelOf(v.items, x.series, now)
  {
    var c, b :| c in Combos(v.items) + v.live && x == SampleOf(v.items, c, b, now);
    SeriesLevelIsCellLevel(v, maxItems, c, b, now);
  }

  lemma PublishedSeriesIsExact(v: View, maxItems: nat, now: int, out: seq<Sample>, s: Series)
    requires Inv(v, maxItems) && IsPublication(out, v.items, v.live, now)
    ensures LastLevel(v.emitted + out, s) == LevelOf(v.items, s, now)
  {
    forall x | x in out && x.series == s
      ensures x.level == LevelOf(v.items, s, now)
    {
      SampleIsExact(v, maxItems, now, out, x);
    }
    LastLevelAfter(v.emitted, out, s, LevelOf(v.items, s, now));
    if c :| c in Combos(v.items) + v.live && ComboSeries(c, s.bucket) == s {
      assert SampleOf(v.items, c, s.bucket, now) in out;
    } else {
      assert Outstanding(v, s);
      forall k | k in v.items
        ensures SeriesOf(k, v.items[k], now) != s
      {
        assert ComboOf(k, v.items[k]) in Combos(v.items);
        assert ComboSeries(ComboOf(k, v.items[k]), s.bucket) != s;
      }
      assert InSeries(v.items, s, now) == map[];
    }
  }

  lemma PublishKeepsInv(v: View, v': View, maxItems: nat, now: int)
    requires Inv(v, maxItems) && PublishStep(v, v', now)
    ensures Inv(v', maxItems)
  {
    PublishIsExact(v, v', maxItems, now);
    forall s
      ensures Outstanding(v', s)
    {
      if LastLevel(v'.emitted, s) != ZERO {
        assert LevelOf(v.items, s, now) != ZERO;
        assert InSeries(v.items, s, now) != map[];
        var k :| k in InSeries(v.items, s, now);
        assert ComboSeries(ComboOf(k, v.items[k]), s.bucket) == s;
      }
    }
  }

  // ---- whole runs ----

  datatype Op =
    | Track(key: Key, money: Money, enqueuedAt: int)
    | Done(key: Key)
    | Publish(now: int)

  ghost predicate Step(v: View, op: Op, v': View, maxItems: nat) {
    match op
    case Track(key, money, enqueuedAt) => v' == TrackStep(v, maxItems, key, money, enqueuedAt)
    case Done(key) => v' == DoneStep(v, key)
    case Publish(now) => PublishStep(v, v', now)
  }

  ghost predicate StepAt(ops: seq<Op>, views: seq<View>, i: nat, maxItems: nat)
    requires i < |ops| < |views|
  {
    Step(views[i], ops[i], views[i + 1], maxItems)
  }

  ghost predicate IsRun(ops: seq<Op>, views: seq<View>, maxItems: nat) {
    && |views| == |ops| + 1
    && views[0] == EMPTY
    && forall i :: 0 <= i < |ops| ==> StepAt(ops, views, i, maxItems)
  }

  lemma {:induction false} RunKeepsInv(ops: seq<Op>, views: seq<View>, maxItems: nat, i: nat)
    requires IsRun(ops, views, maxItems) && i <= |ops|
    ensures Inv(views[i], maxItems)
  {
    if i > 0 {
      RunKeepsInv(ops, views, maxItems, i - 1);
      assert StepAt(ops, views, i - 1, maxItems);
      match ops[i - 1] {
        case Track(key, money, enqueuedAt) => TrackKeepsInv(views[i - 1], maxItems, key, money, enqueuedAt);
        case Done(key) => DoneKeepsInv(views[i - 1], maxItems, key);
        case Publish(now) => PublishKeepsInv(views[i - 1], views[i], maxItems, now);
      }
    }
  }

  /** In every run of Track, Done and Publish, after each Publish every series
      reads exactly what is tracked, however its items came and went before. */
  lemma EveryPublishIsExact(ops: seq<Op>, views: seq<View>, maxItems: nat, i: nat)
    requires IsRun(ops, views, maxItems) && i < |ops| && ops[i].Publish?
    ensures Exact(views[i + 1], ops[i].now)
  {
    RunKeepsInv(ops, views, maxItems, i);
    assert StepAt(ops, views, i, maxItems);
    PublishIsExact(views[i], views[i + 1], maxItems, ops[i].now);
  }

  // ---- which series a publish mentions ----

  /** The combos that had items at the last publish among the first i calls. */
  ghost function LastShown(ops: seq<Op>, views: seq<View>, i: nat): set<Combo>
    requires i <= |ops| < |views|
  {
    if i == 0 then {}
    else if ops[i - 1].Publish? then Combos(views[i - 1].items)
    else LastShown(ops, views, i - 1)
  }

  lemma {:induction false} LiveIsLastShown(ops: seq<Op>, views: seq<View>, maxItems: nat, i: nat)
    requires IsRun(ops, views, maxItems) && i <= |ops|
    ensures views[i].live == LastShown(ops, views, i)
  {
    if i > 0 {
      LiveIsLastShown(ops, views, maxItems, i - 1);
      assert StepAt(ops, views, i - 1, maxItems);
      hide IsRun, IsPublication, Combos;
    }
  }

  /** In every run a publish mentions exactly the series of the combos that have
      items or had some at the publish before it: a drained combo is shown at zero
      once, and then no more. */
  lemma DrainedIsShownOnce(ops: seq<Op>, views: seq<View>, maxItems: nat, i: nat, s: Series)
    requires IsRun(ops, views, maxItems) && i < |ops| && ops[i].Publish?
    ensures views[i].emitted <= views[i + 1].emitted
    ensures (exists x :: x in views[i + 1].emitted[|views[i].emitted|..] && x.series == s)
       <==> exists c :: c in Combos(views[i].items) + LastShown(ops, views, i) && ComboSeries(c, s.bucket) == s
  {
    LiveIsLastShown(ops, views, maxItems, i);
    assert StepAt(ops, views, i, maxItems);
    var v, v' := views[i], views[i + 1];
    hide IsRun, Combos, LastShown;
    var out :| IsPublication(out, v.items, v.live, ops[i].now) && v' == v.(live := Combos(v.items), emitted := v.emitted + out);
    assert v'.emitted[|v.emitted|..] == out;
    if c :| c in Combos(v.items) + v.live && ComboSeries(c, s.bucket) == s {
      assert SampleOf(v.items, c, s.bucket, ops[i].now) in out;
    }
    hide CellLevel;
  }

  // ---- which Track calls are refused ----

  /** The exponent of the first valid money in a currency. */
  function FirstExponent(ops: seq<Op>, i: nat, currency: string): Option<int8>
    requires i <= |ops|
  {
    if i == 0 then None
    else if FirstExponent(ops, i - 1, currency).Some? then FirstExponent(ops, i - 1, currency)
    else
      var op := ops[i - 1];
      if op.Track? && op.money.Valid() && op.money.currency == currency then Some(op.money.exponent) else None
  }

  ghost predicate PinIs(v: View, currency: string, exponent: Option<int8>) {
    if exponent.Some? then Pinned(v, currency, exponent.value) else currency !in v.exponents
  }

  /** In every run a currency's exponent is that of the first valid money in it. */
  lemma {:induction false} FirstMoneyPins(ops: seq<Op>, views: seq<View>, maxItems: nat, i: nat, currency: string)
    requires IsRun(ops, views, maxItems) && i <= |ops|
    ensures PinIs(views[i], currency, FirstExponent(ops, i, currency))
  {
    if i > 0 {
      FirstMoneyPins(ops, views, maxItems, i - 1, currency);
      assert StepAt(ops, views, i - 1, maxItems);
      hide IsRun;
      PinNext(views[i - 1], ops[i - 1], views[i], maxItems, currency, FirstExponent(ops, i - 1, currency));
    }
  }

  lemma PinNext(v: View, op: Op, v': View, maxItems: nat, currency: string, exponent: Option<int8>)
    requires Step(v, op, v', maxItems) && PinIs(v, currency, exponent)
    ensures PinIs(v', currency, if exponent.Some? then exponent
                                else if op.Track? && op.money.Valid() && op.money.currency == currency then Some(op.money.exponent)
                                else None)
  {
  }

  /** The i-th call brings money that is invalid or not at the first one's exponent. */
  predicate BadMoney(ops: seq<Op>, i: nat)
    requires i < |ops| && ops[i].Track?
  {
    var first := FirstExponent(ops, i, ops[i].money.currency);
    !ops[i].money.Valid() || (first.Some? && first.value != ops[i].money.exponent)
  }

  lemma AcceptedUnlessBad(ops: seq<Op>, views: seq<View>, maxItems: nat, i: nat)
    requires IsRun(ops, views, maxItems) && i < |ops| && ops[i].Track?
    ensures Accepts(views[i], ops[i].money) <==> !BadMoney(ops, i)
  {
    FirstMoneyPins(ops, views, maxItems, i, ops[i].money.currency);
    hide IsRun;
  }

  /** The i-th call brings good money for a key that is not tracked after it. */
  ghost predicate TurnedAway(ops: seq<Op>, views: seq<View>, i: nat)
    requires i < |ops| < |views|
  {
    ops[i].Track? && !BadMoney(ops, i) && ops[i].key !in views[i + 1].items
  }

  /** How many of the first i calls bring bad money, and how many are turned away. */
  ghost function Refusals(ops: seq<Op>, views: seq<View>, i: nat): (nat, nat)
    requires i <= |ops| < |views|
  {
    if i == 0 then (0, 0)
    else
      var (bad, full) := Refusals(ops, views, i - 1);
      if ops[i - 1].Track? && BadMoney(ops, i - 1) then (bad + 1, full)
      else if TurnedAway(ops, views, i - 1) then (bad, full + 1)
      else (bad, full)
  }

  lemma CountersNext(ops: seq<Op>, views: seq<View>, maxItems: nat, i: nat)
    requires IsRun(ops, views, maxItems) && i < |ops|
    ensures views[i + 1].rejected == views[i].rejected + if ops[i].Track? && BadMoney(ops, i) then 1 else 0
    ensures views[i + 1].overflow == views[i].overflow + if TurnedAway(ops, views, i) then 1 else 0
  {
    assert StepAt(ops, views, i, maxItems);
    if ops[i].Track? {
      AcceptedUnlessBad(ops, views, maxItems, i);
    }
    hide IsRun, Accepts, BadMoney;
  }

  /** Both counters count exactly these calls ... */
  lemma {:induction false} RefusalsAreCounted(ops: seq<Op>, views: seq<View>, maxItems: nat, i: nat)
    requires IsRun(ops, views, maxItems) && i <= |ops|
    ensures (views[i].rejected, views[i].overflow) == Refusals(ops, views, i)
  {
    if i > 0 {
      RefusalsAreCounted(ops, views, maxItems, i - 1);
      CountersNext(ops, views, maxItems, i - 1);
      hide IsRun, BadMoney, TurnedAway;
      assert ops[i - 1].Track? && BadMoney(ops, i - 1) ==> !TurnedAway(ops, views, i - 1) by {
        BadIsNotTurnedAway(ops, views, i - 1);
      }
    }
  }

  lemma BadIsNotTurnedAway(ops: seq<Op>, views: seq<View>, i: nat)
    requires i < |ops| < |views|
    ensures ops[i].Track? && BadMoney(ops, i) ==> !TurnedAway(ops, views, i)
  {
  }

  /** ... and only a full set turns a new key away. */
  lemma TurnedAwayWhenFull(ops: seq<Op>, views: seq<View>, maxItems: nat, i: nat)
    requires IsRun(ops, views, maxItems) && i < |ops|
    ensures TurnedAway(ops, views, i) <==>
              ops[i].Track? && !BadMoney(ops, i) && ops[i].key !in views[i].items && |views[i].items| == maxItems
  {
    RunKeepsInv(ops, views, maxItems, i);
    assert StepAt(ops, views, i, maxItems);
    if ops[i].Track? {
      AcceptedUnlessBad(ops, views, maxItems, i);
    }
    hide IsRun, Accepts, BadMoney;
  }

  // ---- what a tracked key keeps of its Track calls ----

  /** The i-th call tracks k, and its money is good. */
  ghost predicate Tracks(ops: seq<Op>, i: nat, k: Key)
    requires i < |ops|
  {
    ops[i].Track? && ops[i].key == k && !BadMoney(ops, i)
  }

  /** k has been tracked since, and only since, the j-th call. */
  ghost predicate TrackedSince(views: seq<View>, j: nat, i: nat, k: Key) {
    && j < i < |views| && k !in views[j].items
    && forall n :: j < n <= i ==> k in views[n].items
  }

  /** No accepted call from j on reports an earlier time, one reports this one, and
      the last of them reports this money. */
  ghost predicate Remembers(ops: seq<Op>, j: nat, i: nat, k: Key, item: Item)
    requires j <= i <= |ops|
  {
    && (forall n: nat :: j <= n < i && Tracks(ops, n, k) ==> item.enqueuedAt <= ops[n].enqueuedAt)
    && (exists n: nat :: j <= n < i && Tracks(ops, n, k) && item.enqueuedAt == ops[n].enqueuedAt)
    && (exists n: nat :: j <= n < i && Tracks(ops, n, k) && item.money == ops[n].money
                         && forall m: nat :: n < m < i ==> !Tracks(ops, m, k))
  }

  /** One call's effect on a key that stays tracked. */
  lemma KeyNext(ops: seq<Op>, views: seq<View>, maxItems: nat, i: nat, k: Key)
    requires IsRun(ops, views, maxItems) && i < |ops| && k in views[i + 1].items
    ensures var item := views[i + 1].items[k];
            if Tracks(ops, i, k) then
              && item.money == ops[i].money && item.enqueuedAt <= ops[i].enqueuedAt
              && if k in views[i].items then
                   && item.enqueuedAt <= views[i].items[k].enqueuedAt
                   && (item.enqueuedAt == ops[i].enqueuedAt || item.enqueuedAt == views[i].items[k].enqueuedAt)
                 else item.enqueuedAt == ops[i].enqueuedAt
            else k in views[i].items && item == views[i].items[k]
  {
    assert StepAt(ops, views, i, maxItems);
    if ops[i].Track? {
      AcceptedUnlessBad(ops, views, maxItems, i);
    }
    hide IsRun, Accepts, BadMoney;
  }

  /** In every run, a tracked key holds the earliest time and the latest money of
      its Track calls since it was last absent. */
  lemma {:induction false} RetracksNeverRejuvenate(ops: seq<Op>, views: seq<View>, maxItems: nat, i: nat, k: Key) returns (j: nat)
    requires IsRun(ops, views, maxItems) && i < |views| && k in views[i].items
    ensures TrackedSince(views, j, i, k) && Remembers(ops, j, i, k, views[i].items[k])
  {
    KeyNext(ops, views, maxItems, i - 1, k);
    if k in views[i - 1].items {
      j := RetracksNeverRejuvenate(ops, views, maxItems, i - 1, k);
    } else {
      j := i - 1;
    }
    hide IsRun, Tracks;
  }

  /** The n-th of i calls tracked k, and none of the later ones was a Done of k. */
  ghost predicate StillTracked(ops: seq<Op>, views: seq<View>, n: nat, i: nat, k: Key)
    requires i <= |ops| < |views|
  {
    && n < i && Tracks(ops, n, k) && !TurnedAway(ops, views, n)
    && forall m: nat :: n < m < i ==> ops[m] != Op.Done(k)
  }

  lemma TrackedNext(ops: seq<Op>, views: seq<View>, maxItems: nat, i: nat, k: Key)
    requires IsRun(ops, views, maxItems) && i < |ops|
    ensures k in views[i + 1].items <==>
              (Tracks(ops, i, k) && !TurnedAway(ops, views, i)) || (k in views[i].items && ops[i] != Op.Done(k))
  {
    assert StepAt(ops, views, i, maxItems);
    if ops[i].Track? {
      AcceptedUnlessBad(ops, views, maxItems, i);
    }
    hide IsRun, Accepts, BadMoney;
  }

  /** A key is tracked exactly if some Track call of it was taken and no Done came
      since. */
  lemma {:induction false} TrackedUntilDone(ops: seq<Op>, views: seq<View>, maxItems: nat, i: nat, k: Key)
    requires IsRun(ops, views, maxItems) && i <= |ops|
    ensures k in views[i].items <==> exists n: nat :: StillTracked(ops, views, n, i, k)
  {
    if i > 0 {
      var p := i - 1;
      TrackedUntilDone(ops, views, maxItems, p, k);
      TrackedNext(ops, views, maxItems, p, k);
      hide IsRun, Tracks, TurnedAway;
      assert StillTracked(ops, views, p, i, k) <==> Tracks(ops, p, k) && !TurnedAway(ops, views, p);
      if n: nat :| StillTracked(ops, views, n, p, k) && ops[p] != Op.Done(k) {
        assert StillTracked(ops, views, n, i, k);
      }
      if n: nat :| StillTracked(ops, views, n, i, k) && n < p {
        assert StillTracked(ops, views, n, p, k);
      }
    }
  }

  /** So as long as it stays tracked its bucket never gets younger. */
  lemma {:induction false} BucketsOnlyAge(ops: seq<Op>, views: seq<View>, maxItems: nat, i: nat, i': nat, k: Key, now: int, now': int)
    requires IsRun(ops, views, maxItems) && i <= i' < |views| && now <= now'
    requires forall n :: i <= n <= i' ==> k in views[n].items
    ensures BucketFloor(AgeBucketFor(now - views[i].items[k].enqueuedAt))
         <= BucketFloor(AgeBucketFor(now' - views[i'].items[k].enqueuedAt))
  {
    if i < i' {
      BucketsOnlyAge(ops, views, maxItems, i, i' - 1, k, now, now');
      KeyNext(ops, views, maxItems, i' - 1, k);
      hide *;
      OlderIsLater(now' - views[i' - 1].items[k].enqueuedAt, now' - views[i'].items[k].enqueuedAt);
    } else {
      hide *;
      OlderIsLater(now - views[i].items[k].enqueuedAt, now' - views[i].items[k].enqueuedAt);
    }
  }

  lemma OlderIsLater(age: int, age': int)
    requires age <= age'
    ensures BucketFloor(AgeBucketFor(age)) <= BucketFloor(AgeBucketFor(age'))
  {
    BucketIsLastFloorReached(age, AgeBucketFor(age));
    BucketIsLastFloorReached(age', AgeBucketFor(age'));
  }

  // ---- the tracker object ----

  const TRACKER_SHARDS: nat := 32

  /** One publish cycle's running totals. */
  type Sums = map<Combo, map<Bucket, Level>>

  function Cell(sums: Sums, c: Combo, b: Bucket): Level {
    if c in sums && b in sums[c] then sums[c][b] else ZERO
  }

  function AddToCell(sums: Sums, c: Combo, b: Bucket, amount: int): Sums {
    var cells := if c in sums then sums[c] else map[];
    var cell := Cell(sums, c, b);
    sums[c := cells[b := Level(cell.minor + amount, cell.count + 1)]]
  }

  /** The totals are those of the items counted so far. */
  ghost predicate Totals(sums: Sums, counted: map<Key, Item>, now: int) {
    && sums.Keys == Combos(counted)
    && forall c, b :: Cell(sums, c, b) == CellLevel(counted, c, b, now)
  }

  lemma CellAfterAdd(sums: Sums, c': Combo, b': Bucket, amount: int, c: Combo, b: Bucket)
    ensures var before := Cell(sums, c, b);
            Cell(AddToCell(sums, c', b', amount), c, b)
              == if c == c' && b == b' then Level(before.minor + amount, before.count + 1) else before
  {
  }

  lemma CountInCell(sums: Sums, counted: map<Key, Item>, k: Key, item: Item, now: int, c: Combo, b: Bucket)
    requires k !in counted && Cell(sums, c, b) == CellLevel(counted, c, b, now)
    ensures Cell(AddToCell(sums, ComboOf(k, item), AgeBucketFor(now - item.enqueuedAt), item.money.amount as int), c, b)
         == CellLevel(counted[k := item], c, b, now)
  {
    CellAfterAdd(sums, ComboOf(k, item), AgeBucketFor(now - item.enqueuedAt), item.money.amount as int, c, b);
    CellAdd(counted, k, item, c, b, now);
  }

  lemma CountOne(sums: Sums, counted: map<Key, Item>, k: Key, item: Item, now: int)
    requires Totals(sums, counted, now) && k !in counted
    ensures Totals(AddToCell(sums, ComboOf(k, item), AgeBucketFor(now - item.enqueuedAt), item.money.amount as int),
                   counted[k := item], now)
  {
    var c', b' := ComboOf(k, item), AgeBucketFor(now - item.enqueuedAt);
    var sums' := AddToCell(sums, c', b', item.money.amount as int);
    CombosAdd(counted, k, item);
    forall c, b
      ensures Cell(sums', c, b) == CellLevel(counted[k := item], c, b, now)
    {
      CountInCell(sums, counted, k, item, now, c, b);
    }
  }

  lemma AllLeft(base: map<Key, Item>, shard: map<Key, Item>)
    ensures base + (shard - shard.Keys) == base
  {
  }

  lemma TakeKey(base: map<Key, Item>, shard: map<Key, Item>, todo: set<Key>, k: Key)
    requires k in todo && todo <= shard.Keys
    ensures base + (shard - (todo - {k})) == (base + (shard - todo))[k := shard[k]]
  {
  }

  lemma NothingCounted(now: int)
    ensures Totals(map[], map[], now)
  {
    assert Amounts(map[]) == map[];
    assert forall c, b :: InCell(map[], c, b, now) == map[];
  }

  class InFlightTracker {
    /** The hash of a message id: any function of the id. */
    const hash: string -> nat
    const maxItems: nat
    const shards: array<map<Key, Item>>
    var live: set<Combo>
    var exponents: map<string, int8>
    var itemCount: int
    var overflow: nat
    var rejected: nat

    /** Every SetInFlight call made so far. */
    var emitted: seq<Sample>

    /** The tracked set, whatever shards it is spread over. */
    ghost var items: map<Key, Item>

    function ShardFor(id: string): (i: nat)
      ensures i < TRACKER_SHARDS
    {
      hash(id) % TRACKER_SHARDS
    }

    /** Each key lives in its id's shard, and nowhere else. */
    ghost predicate Sharded()
      reads `items, shards
    {
      && shards.Length == TRACKER_SHARDS
      && (forall k :: k in items ==> k in shards[ShardFor(k.id)] && shards[ShardFor(k.id)][k] == items[k])
      && (forall i, k :: 0 <= i < shards.Length && k in shards[i] ==> ShardFor(k.id) == i && k in items)
    }

    ghost function Abs(): View
      reads this
    {
      View(items, exponents, live, emitted, overflow, rejected)
    }

    ghost predicate Counted()
      reads this, shards
    {
      Sharded() && itemCount == |items| <= maxItems
    }

    ghost predicate Valid()
      reads this, shards
    {
      Counted() && Inv(Abs(), maxItems)
    }

    constructor (hash: string -> nat, maxItems: nat)
      ensures Valid() && Abs() == EMPTY
      ensures this.hash == hash && this.maxItems == if maxItems < 1 then 0x10_0000 else maxItems
      ensures fresh(shards)
    {
      this.hash := hash;
      this.maxItems := if maxItems < 1 then 0x10_0000 else maxItems;
      shards := new map<Key, Item>[TRACKER_SHARDS](_ => map[]);
      live, exponents, emitted, items := {}, map[], [], map[];
      itemCount, overflow, rejected := 0, 0, 0;
    }

    method Track(flow: string, stage: string, id: string, money: Money, enqueuedAt: int)
      requires Valid()
      modifies this, shards
      ensures Valid()
      ensures Abs() == TrackStep(old(Abs()), maxItems, Key(flow, stage, id), money, enqueuedAt)
    {
      hide Inv, TrackStep;
      TrackKeepsInv(Abs(), maxItems, Key(flow, stage, id), money, enqueuedAt);
      TrackItem(flow, stage, id, money, enqueuedAt);
    }

    method TrackItem(flow: string, stage: string, id: string, money: Money, enqueuedAt: int)
      requires Counted()
      modifies this, shards
      ensures Counted()
      ensures Abs() == TrackStep(old(Abs()), maxItems, Key(flow, stage, id), money, enqueuedAt)
    {
      var ok := Pin(money);
      if ok {
        TrackInShard(Key(flow, stage, id), money, enqueuedAt);
      }
    }

    /** First sight of a currency fixes its exponent; a later mismatch is refused. */
    method Pin(money: Money) returns (ok: bool)
      modifies `exponents, `rejected
      ensures ok == Accepts(old(Abs()), money)
      ensures ok ==> rejected == old(rejected) && exponents == old(exponents)[money.currency := money.exponent]
      ensures !ok ==> rejected == old(rejected) + 1 && exponents == old(exponents)
    {
      if !money.Valid() {
        rejected := rejected + 1;
        return false;
      }
      if money.currency !in exponents {
        exponents := exponents[money.currency := money.exponent];
      }
      if exponents[money.currency] != money.exponent {
        rejected := rejected + 1;
        return false;
      }
      return true;
    }

    lemma KeyInShard(k: Key)
      requires Sharded()
      ensures shards.Length == TRACKER_SHARDS
      ensures k in shards[ShardFor(k.id)] <==> k in items
      ensures k in items ==> shards[ShardFor(k.id)][k] == items[k]
    {
    }

    method TrackInShard(k: Key, money: Money, enqueuedAt: int)
      requires Counted()
      modifies `items, `itemCount, `overflow, shards
      ensures Counted()
      ensures Abs() == StoreStep(old(Abs()), maxItems, k, money, enqueuedAt)
    {
      KeyInShard(k);
      hide InFlightTracker.Counted, InFlightTracker.Sharded;
      if k in shards[ShardFor(k.id)] {
        Refresh(k, money, enqueuedAt);
      } else {
        Reserve(k, Item(money, enqueuedAt));
      }
    }

    /** A tracked key keeps its oldest enqueue time and takes the new money. */
    method Refresh(k: Key, money: Money, enqueuedAt: int)
      requires Counted() && k in items
      modifies `items, shards
      ensures Counted()
      ensures items == old(items)[k := Item(money, Earlier(old(items)[k].enqueuedAt, enqueuedAt))]
    {
      KeyInShard(k);
      var prev := shards[ShardFor(k.id)][k];
      var oldest := if prev.enqueuedAt < enqueuedAt then prev.enqueuedAt else enqueuedAt;
      hide InFlightTracker.Sharded;
      Store(k, Item(money, oldest));
    }

    /** Reserve, then insert; roll back on over-reserve. */
    method Reserve(k: Key, item: Item)
      requires Counted() && k !in items
      modifies `items, `itemCount, `overflow, shards
      ensures Counted()
      ensures if |old(items)| >= maxItems then items == old(items) && overflow == old(overflow) + 1
              else items == old(items)[k := item] && overflow == old(overflow)
    {
      hide InFlightTracker.Sharded;
      itemCount := itemCount + 1;
      if itemCount > maxItems {
        itemCount := itemCount - 1;
        overflow := overflow + 1;
        return;
      }
      Store(k, item);
    }

    method Store(k: Key, item: Item)
      requires Sharded()
      modifies `items, shards
      ensures Sharded() && items == old(items)[k := item]
      ensures |items| == |old(items)| + if k in old(items) then 0 else 1
    {
      var i := ShardFor(k.id);
      CardUpdate(items, k, item);
      shards[i] := shards[i][k := item];
      items := items[k := item];
    }

    method Drop(k: Key)
      requires Sharded() && k in items
      modifies `items, shards
      ensures Sharded() && items == old(items) - {k}
      ensures |items| == |old(items)| - 1
    {
      var i := ShardFor(k.id);
      CardRemove(items, k);
      shards[i] := shards[i] - {k};
      items := items - {k};
    }

    method Done(flow: string, stage: string, id: string)
      requires Valid()
      modifies this, shards
      ensures Valid()
      ensures Abs() == DoneStep(old(Abs()), Key(flow, stage, id))
    {
      hide Inv, InFlightTracker.Counted;
      DoneKeepsInv(Abs(), maxItems, Key(flow, stage, id));
      RemoveItem(Key(flow, stage, id));
    }

    method RemoveItem(k: Key)
      requires Counted()
      modifies `items, `itemCount, shards
      ensures Counted() && items == old(items) - {k}
    {
      var i := ShardFor(k.id);
      assert k in shards[i] <==> k in items;
      if k in shards[i] {
        Drop(k);
        itemCount := itemCount - 1;
      } else {
        assert items - {k} == items;
      }
    }

    /** The items of the first n shards. */
    ghost function InShards(n: nat): map<Key, Item>
      reads this
    {
      map k | k in items && ShardFor(k.id) < n :: items[k]
    }

    lemma NextShard(i: nat)
      requires Sharded() && i < TRACKER_SHARDS
      ensures InShards(i) + (shards[i] - {}) == InShards(i + 1)
      ensures InShards(i).Keys !! shards[i].Keys
    {
      var shard, next := shards[i], InShards(i + 1);
      assert shard - {} == shard;
      forall k
        ensures k in InShards(i) + shard <==> k in next
        ensures k in shard ==> k in next && shard[k] == next[k]
      {
        if k in shard {
          assert ShardFor(k.id) == i;
        }
      }
    }

    lemma NoneAndAll()
      ensures InShards(0) == map[]
      ensures InShards(TRACKER_SHARDS) == items
    {
    }

    /** The aggregation pass over every shard. */
    method Aggregate(now: int) returns (sums: Sums)
      requires Sharded()
      ensures Totals(sums, items, now)
    {
      sums := map[];
      NothingCounted(now);
      NoneAndAll();
      for i := 0 to TRACKER_SHARDS
        invariant Totals(sums, InShards(i), now)
      {
        sums := AggregateShard(sums, i, now);
      }
    }

    /** One shard's items, in whatever order its map yields them. */
    method AggregateShard(before: Sums, i: nat, now: int) returns (sums: Sums)
      requires Sharded() && i < TRACKER_SHARDS && Totals(before, InShards(i), now)
      ensures Totals(sums, InShards(i + 1), now)
    {
      sums := before;
      var shard := shards[i];
      var todo := shard.Keys;
      ghost var base := InShards(i);
      ghost var counted := base;
      AllLeft(base, shard);
      NextShard(i);
      while todo != {}
        invariant todo <= shard.Keys
        invariant counted == base + (shard - todo)
        invariant Totals(sums, counted, now)
        decreases todo
      {
        var k :| k in todo;
        var item := shard[k];
        assert k !in base;
        CountOne(sums, counted, k, item, now);
        sums := AddToCell(sums, ComboOf(k, item), AgeBucketFor(now - item.enqueuedAt), item.money.amount as int);
        TakeKey(base, shard, todo, k);
        counted := counted[k := item];
        todo := todo - {k};
      }
    }

    method Publish(now: int)
      requires Valid()
      modifies `live, `emitted
      ensures Valid() && PublishStep(old(Abs()), Abs(), now)
      ensures Exact(Abs(), now)
    {
      ghost var before := Abs();
      PublishLevels(now);
      PublishIsExact(before, Abs(), maxItems, now);
      PublishKeepsInv(before, Abs(), maxItems, now);
    }

    method PublishLevels(now: int)
      requires Sharded()
      modifies `live, `emitted
      ensures PublishStep(old(Abs()), Abs(), now)
    {
      var sums := Aggregate(now);
      var toPublish := sums.Keys + live;
      var toRetire := live - sums.Keys;
      var out := Emit(sums, toPublish, now);
      assert IsPublication(out, items, live, now);
      assert sums.Keys == toPublish - toRetire;
      live := toPublish - toRetire;
      emitted := emitted + out;
    }

    /** Every bucket of every combo to publish; a retiring combo reads zero. */
    method Emit(sums: Sums, toPublish: set<Combo>, now: int) returns (out: seq<Sample>)
      requires Totals(sums, items, now)
      ensures |out| == 5 * |toPublish|
      ensures forall x :: x in out ==> exists c, b :: c in toPublish && x == SampleOf(items, c, b, now)
      ensures forall c, b :: c in toPublish ==> SampleOf(items, c, b, now) in out
    {
      out := [];
      var todo := toPublish;
      while todo != {}
        invariant todo <= toPublish
        invariant |out| == 5 * (|toPublish| - |todo|)
        invariant forall x :: x in out ==> exists c, b :: c in toPublish && x == SampleOf(items, c, b, now)
        invariant forall c, b :: c in toPublish - todo ==> SampleOf(items, c, b, now) in out
        decreases todo
      {
        var c :| c in todo;
        var five := EmitCombo(sums, c, now);
        out := out + five;
        todo := todo - {c};
      }
    }

    method EmitCombo(sums: Sums, c: Combo, now: int) returns (out: seq<Sample>)
      requires Totals(sums, items, now)
      ensures |out| == 5
      ensures forall x :: x in out ==> exists b :: x == SampleOf(items, c, b, now)
      ensures forall b :: SampleOf(items, c, b, now) in out
    {
      out := [];
      for i := 0 to |AGE_BUCKETS|
        invariant |out| == i
        invariant forall j :: 0 <= j < i ==> out[j] == SampleOf(items, c, AGE_BUCKETS[j], now)
      {
        var b := AGE_BUCKETS[i];
        out := out + [Sample(ComboSeries(c, b), c.exponent, Cell(sums, c, b))];
      }
      forall b
        ensures SampleOf(items, c, b, now) in out
      {
        var j := match b case Lt1m => 0 case From1mTo5m => 1 case From5mTo30m => 2 case From30mTo2h => 3 case Gt2h => 4;
        assert out[j] == SampleOf(items, c, b, now);
      }
    }
  }
}
