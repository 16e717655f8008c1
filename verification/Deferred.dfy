/** The deferred leg, read from the in-flight gauge or derived from events
    (engine/deferred.go). Instants and durations are nanoseconds; nested maps by
    bucket and currency are flattened. */
module Deferred {
  import opened Wrappers
  import opened FiniteSums
  import opened Money
  import opened Tracker
  import opened Memq
  import opened MemqEvents
  import Emitter

  // ---- the registry ----

  datatype Sla = Sla(deadline: int, lost: bool)

  /** Stages in their declared order. */
  datatype Flow = Flow(stages: seq<string>, sla: map<string, Sla>)

  type Registry = map<string, Flow>

  function IndexIn(names: seq<string>, name: string): (i: int)
    ensures -1 <= i < |names|
    ensures i >= 0 ==> names[i] == name && name !in names[..i]
    ensures i < 0 ==> name !in names
  {
    if names == [] then -1
    else if names[0] == name then 0
    else
      var i := IndexIn(names[1..], name);
      if i < 0 then -1
      else
        assert names[..i + 1] == [names[0]] + names[1..][..i];
        i + 1
  }

  /** -1 when the registry does not order the stage. */
  function StageIndex(reg: Option<Registry>, flow: string, stage: string): int {
    if reg.Some? && flow in reg.value then IndexIn(reg.value[flow].stages, stage) else -1
  }

  // ---- age buckets by name ----

  /** The tracker's names for its buckets. */
  function BucketLabel(b: Bucket): string {
    match b
    case Lt1m => "lt1m"
    case From1mTo5m => "1m-5m"
    case From5mTo30m => "5m-30m"
    case From30mTo2h => "30m-2h"
    case Gt2h => "gt2h"
  }

  /** The engine's own list of them, oldest last, and of their floors. */
  const BUCKET_LABELS := ["lt1m", "1m-5m", "5m-30m", "30m-2h", "gt2h"]

  function BucketIndex(bucket: string): int { IndexIn(BUCKET_LABELS, bucket) }

  const FLOOR_MINUTES := [0, 1, 5, 30, 120]

  /** The age, in minutes, everything in a bucket has reached. */
  function FloorMinutes(bucket: string): nat {
    var i := BucketIndex(bucket);
    if i < 0 then 0 else FLOOR_MINUTES[i]
  }

  /** Which of the buckets it is, youngest first. */
  function Steps(b: Bucket): (i: nat)
    ensures i < |AGE_BUCKETS| && AGE_BUCKETS[i] == b
  {
    match b
    case Lt1m => 0
    case From1mTo5m => 1
    case From5mTo30m => 2
    case From30mTo2h => 3
    case Gt2h => 4
  }

  lemma LabelIsListed(b: Bucket, i: nat)
    requires i < |AGE_BUCKETS| && AGE_BUCKETS[i] == b
    ensures BUCKET_LABELS[i] == BucketLabel(b) && BucketIndex(BucketLabel(b)) == i
  {
    assert BUCKET_LABELS[0][0] == 'l' && BUCKET_LABELS[1][0] == '1' && BUCKET_LABELS[2][0] == '5' && BUCKET_LABELS[3][0] == '3'
        && BUCKET_LABELS[4][0] == 'g';
    var j := IndexIn(BUCKET_LABELS, BucketLabel(b));
    assert BUCKET_LABELS[i] == BucketLabel(b);
    assert j >= 0 && BUCKET_LABELS[j][0] == BUCKET_LABELS[i][0];
  }

  /** The engine knows exactly the tracker's buckets, each at the floor the tracker
      gives it. */
  lemma FloorsAgree(b: Bucket)
    ensures BucketIndex(BucketLabel(b)) >= 0 && FloorMinutes(BucketLabel(b)) * MINUTE == BucketFloor(b)
  {
    LabelIsListed(b, Steps(b));
  }

  /** The emitter accepts exactly the tracker's names. */
  lemma EmitterKnowsBuckets(bucket: string)
    ensures bucket in Emitter.AGE_LABELS <==> exists b :: bucket == BucketLabel(b)
  {
    if bucket in Emitter.AGE_LABELS {
      var i :| 0 <= i < |Emitter.AGE_LABELS| && Emitter.AGE_LABELS[i] == bucket;
      assert bucket == BucketLabel(AGE_BUCKETS[i]);
    }
    if b :| bucket == BucketLabel(b) {
      assert Emitter.AGE_LABELS[Steps(b)] == bucket;
    }
  }

  lemma KnownBucket(bucket: string) returns (b: Bucket)
    requires BucketIndex(bucket) >= 0
    ensures bucket == BucketLabel(b)
  {
    b := AGE_BUCKETS[BucketIndex(bucket)];
    LabelIsListed(b, BucketIndex(bucket));
  }

  /** Entirely past the stage's deadline, whatever the policy. */
  predicate IsBreached(reg: Registry, flow: string, stage: string, bucket: string) {
    && flow in reg && stage in reg[flow].sla && BucketIndex(bucket) >= 0
    && reg[flow].sla[stage].deadline <= FloorMinutes(bucket) * MINUTE
  }

  predicate IsLost(reg: Registry, flow: string, stage: string, bucket: string) {
    IsBreached(reg, flow, stage, bucket) && reg[flow].sla[stage].lost
  }

  /** Everything in the bucket is at least as old as the stage's deadline. */
  ghost predicate PastDeadline(reg: Option<Registry>, flow: string, stage: string, bucket: string) {
    && reg.Some? && flow in reg.value && stage in reg.value[flow].sla
    && exists b :: bucket == BucketLabel(b) && reg.value[flow].sla[stage].deadline <= BucketFloor(b)
  }

  /** ... and the registry gives such value up. */
  ghost predicate ProjectedLost(reg: Option<Registry>, flow: string, stage: string, bucket: string) {
    PastDeadline(reg, flow, stage, bucket) && reg.value[flow].sla[stage].lost
  }

  lemma BreachesArePast(reg: Option<Registry>, flow: string, stage: string, bucket: string)
    ensures PastDeadline(reg, flow, stage, bucket) <==> reg.Some? && IsBreached(reg.value, flow, stage, bucket)
    ensures ProjectedLost(reg, flow, stage, bucket) <==> reg.Some? && IsLost(reg.value, flow, stage, bucket)
  {
    if PastDeadline(reg, flow, stage, bucket) {
      var b :| bucket == BucketLabel(b) && reg.value[flow].sla[stage].deadline <= BucketFloor(b);
      FloorsAgree(b);
    }
    if reg.Some? && IsBreached(reg.value, flow, stage, bucket) {
      var b := KnownBucket(bucket);
      FloorsAgree(b);
    }
    hide BucketIndex, FloorMinutes, BucketLabel, BucketFloor;
  }

  // ---- the leg ----

  datatype Cell = Cell(bucket: string, currency: string)

  datatype Caveat = EventsDerived | CountsUnavailable

  datatype Leg = Leg(
    byAgeBucket: map<Cell, int>, byCurrency: map<string, int>, projectedLost: map<string, int>,
    count: int, breaches: int, oldestAge: nat, caveats: set<Caveat>)

  const NEW_LEG := Leg(map[], map[], map[], 0, 0, 0, {})

  /** One addition to the leg: a gauge series at its level, or an entity at its
      amount. */
  datatype Entry = Entry(bucket: string, currency: string, amount: int, breached: bool, lost: bool)

  function Plus<X(==)>(m: map<X, int>, x: X, n: int): map<X, int> {
    m[x := (if x in m then m[x] else 0) + n]
  }

  function AddValue(leg: Leg, e: Entry): Leg {
    leg.(byAgeBucket := Plus(leg.byAgeBucket, Cell(e.bucket, e.currency), e.amount),
         byCurrency := Plus(leg.byCurrency, e.currency, e.amount),
         projectedLost := if e.lost then Plus(leg.projectedLost, e.currency, e.amount) else leg.projectedLost,
         oldestAge := if FloorMinutes(e.bucket) > leg.oldestAge then FloorMinutes(e.bucket) else leg.oldestAge)
  }

  function AddCount(leg: Leg, e: Entry): Leg {
    leg.(count := leg.count + e.amount, breaches := leg.breaches + if e.breached then e.amount else 0)
  }

  // ---- what a leg says about its entries ----

  datatype Pick = InCell(cell: Cell) | InCurrency(currency: string) | LostIn(currency: string) | Breaching | Every

  predicate Picks(p: Pick, e: Entry) {
    match p
    case InCell(cell) => cell == Cell(e.bucket, e.currency)
    case InCurrency(currency) => currency == e.currency
    case LostIn(currency) => e.lost && currency == e.currency
    case Breaching => e.breached
    case Every => true
  }

  /** x is listed exactly if there is something to add up, at the sum of it. */
  ghost predicate Lists<K(!new), X>(m: map<X, int>, x: X, amounts: map<K, int>) {
    (x in m <==> amounts != map[]) && (x in m ==> m[x] == Sum(amounts))
  }

  /** The floor, in minutes, of the oldest bucket that something is in. */
  ghost predicate IsOldest(age: nat, buckets: set<string>) {
    && (forall b :: BucketLabel(b) in buckets ==> BucketFloor(b) <= age * MINUTE)
    && (age == 0 || exists b :: BucketLabel(b) in buckets && BucketFloor(b) == age * MINUTE)
  }

  ghost function Part<K>(entries: map<K, Entry>, p: Pick): map<K, int> {
    map k | k in entries && Picks(p, entries[k]) :: entries[k].amount
  }

  /** A total is listed exactly if something adds to it, at exactly their sum. */
  ghost predicate TotalOk<K(!new), X>(m: map<X, int>, x: X, entries: map<K, Entry>, p: Pick) {
    Lists(m, x, Part(entries, p))
  }

  ghost predicate OldestOk<K(!new)>(age: nat, entries: map<K, Entry>) {
    && (forall k :: k in entries ==> FloorMinutes(entries[k].bucket) <= age)
    && (age == 0 || exists k :: k in entries && FloorMinutes(entries[k].bucket) == age)
  }

  lemma BucketOfFloor(bucket: string) returns (b: Bucket)
    requires FloorMinutes(bucket) > 0
    ensures bucket == BucketLabel(b) && BucketFloor(b) == FloorMinutes(bucket) * MINUTE
  {
    b := KnownBucket(bucket);
    FloorsAgree(b);
  }

  ghost function BucketsOf<K>(entries: map<K, Entry>): set<string> {
    set k | k in entries :: entries[k].bucket
  }

  lemma NoneOlder<K(!new)>(age: nat, entries: map<K, Entry>, b: Bucket)
    requires OldestOk(age, entries) && BucketLabel(b) in BucketsOf(entries)
    ensures BucketFloor(b) <= age * MINUTE
  {
    FloorsAgree(b);
    hide FloorMinutes, BucketLabel, BucketFloor, BucketIndex;
  }

  lemma OldestIsFloor<K(!new)>(age: nat, entries: map<K, Entry>)
    requires OldestOk(age, entries)
    ensures IsOldest(age, BucketsOf(entries))
  {
    hide FloorMinutes, BucketLabel, BucketFloor, BucketIndex;
    forall b | BucketLabel(b) in BucketsOf(entries)
      ensures BucketFloor(b) <= age * MINUTE
    {
      NoneOlder(age, entries, b);
    }
    if age != 0 {
      var k :| k in entries && FloorMinutes(entries[k].bucket) == age;
      var b := BucketOfFloor(entries[k].bucket);
      assert entries[k].bucket in BucketsOf(entries);
    }
  }

  ghost predicate ValuesMatch<K(!new)>(leg: Leg, entries: map<K, Entry>) {
    && (forall cell :: TotalOk(leg.byAgeBucket, cell, entries, InCell(cell)))
    && (forall c :: TotalOk(leg.byCurrency, c, entries, InCurrency(c)))
    && (forall c :: TotalOk(leg.projectedLost, c, entries, LostIn(c)))
    && OldestOk(leg.oldestAge, entries)
  }

  ghost predicate CountsMatch<K>(leg: Leg, counts: map<K, Entry>) {
    leg.count == Sum(Part(counts, Every)) && leg.breaches == Sum(Part(counts, Breaching))
  }

  lemma PartAdd<K>(entries: map<K, Entry>, k: K, e: Entry, p: Pick)
    requires k !in entries
    ensures Part(entries[k := e], p) == if Picks(p, e) then Part(entries, p)[k := e.amount] else Part(entries, p)
    ensures Sum(Part(entries[k := e], p)) == Sum(Part(entries, p)) + if Picks(p, e) then e.amount else 0
  {
    assert Part(entries[k := e], p) == if Picks(p, e) then Part(entries, p)[k := e.amount] else Part(entries, p);
    if Picks(p, e) {
      SumUpdate(Part(entries, p), k, e.amount);
    }
  }

  lemma TotalAdd<K(!new), X>(m: map<X, int>, x: X, entries: map<K, Entry>, k: K, e: Entry, p: Pick, y: X)
    requires k !in entries && TotalOk(m, x, entries, p)
    requires Picks(p, e) <==> x == y
    ensures TotalOk(Plus(m, y, e.amount), x, entries[k := e], p)
  {
    PartAdd(entries, k, e, p);
    if x !in m {
      assert Sum(Part(entries, p)) == 0;
    }
    if Picks(p, e) {
      assert k in Part(entries[k := e], p);
    }
  }

  lemma TotalKeep<K(!new), X>(m: map<X, int>, x: X, entries: map<K, Entry>, k: K, e: Entry, p: Pick)
    requires k !in entries && TotalOk(m, x, entries, p) && !Picks(p, e)
    ensures TotalOk(m, x, entries[k := e], p)
  {
    PartAdd(entries, k, e, p);
  }

  lemma AddValueMatches<K(!new)>(leg: Leg, entries: map<K, Entry>, k: K, e: Entry)
    requires ValuesMatch(leg, entries) && k !in entries
    ensures ValuesMatch(AddValue(leg, e), entries[k := e])
  {
    hide TotalOk;
    var leg' := AddValue(leg, e);
    forall cell
      ensures TotalOk(leg'.byAgeBucket, cell, entries[k := e], InCell(cell))
    {
      TotalAdd(leg.byAgeBucket, cell, entries, k, e, InCell(cell), Cell(e.bucket, e.currency));
    }
    forall c
      ensures TotalOk(leg'.byCurrency, c, entries[k := e], InCurrency(c))
      ensures TotalOk(leg'.projectedLost, c, entries[k := e], LostIn(c))
    {
      TotalAdd(leg.byCurrency, c, entries, k, e, InCurrency(c), e.currency);
      if e.lost {
        TotalAdd(leg.projectedLost, c, entries, k, e, LostIn(c), e.currency);
      } else {
        TotalKeep(leg.projectedLost, c, entries, k, e, LostIn(c));
      }
    }
    OldestAdd(leg.oldestAge, entries, k, e);
  }

  lemma OldestAdd<K(!new)>(age: nat, entries: map<K, Entry>, k: K, e: Entry)
    requires OldestOk(age, entries) && k !in entries
    ensures OldestOk(if FloorMinutes(e.bucket) > age then FloorMinutes(e.bucket) else age, entries[k := e])
  {
    hide FloorMinutes;
    var entries' := entries[k := e];
    assert entries'[k] == e;
    if FloorMinutes(e.bucket) <= age && age != 0 {
      var x :| x in entries && FloorMinutes(entries[x].bucket) == age;
      assert x in entries' && entries'[x] == entries[x];
    }
  }

  lemma AddCountMatches<K>(leg: Leg, counts: map<K, Entry>, k: K, e: Entry)
    requires CountsMatch(leg, counts) && k !in counts
    ensures CountsMatch(AddCount(leg, e), counts[k := e])
  {
    PartAdd(counts, k, e, Every);
    PartAdd(counts, k, e, Breaching);
  }

  lemma NewLegMatches<K(!new)>()
    ensures ValuesMatch<K>(NEW_LEG, map[]) && CountsMatch<K>(NEW_LEG, map[])
  {
    assert forall p :: Part<K>(map[], p) == map[];
  }

  lemma SameTotals<K(!new), L(!new), X>(m: map<X, int>, m': map<X, int>, x: X,
                                         entries: map<K, Entry>, entries': map<L, Entry>, p: Pick)
    requires TotalOk(m, x, entries, p) && TotalOk(m', x, entries', p) && SamePart(entries, entries', p)
    ensures (x in m <==> x in m') && (x in m ==> m[x] == m'[x])
  {
  }

  ghost predicate SamePart<K, L>(entries: map<K, Entry>, entries': map<L, Entry>, p: Pick) {
    && (Part(entries, p) == map[] <==> Part(entries', p) == map[])
    && Sum(Part(entries, p)) == Sum(Part(entries', p))
  }

  ghost predicate BucketsIn<K, L>(entries: map<K, Entry>, entries': map<L, Entry>) {
    forall k :: k in entries ==> exists l :: l in entries' && entries'[l].bucket == entries[k].bucket
  }

  lemma SameOldest<K(!new), L(!new)>(a: nat, b: nat, entries: map<K, Entry>, entries': map<L, Entry>)
    requires OldestOk(a, entries) && OldestOk(b, entries') && BucketsIn(entries, entries')
    ensures a <= b
  {
    hide FloorMinutes;
    if a > 0 {
      var k :| k in entries && FloorMinutes(entries[k].bucket) == a;
      var l :| l in entries' && entries'[l].bucket == entries[k].bucket;
    }
  }

  /** A leg is settled by its entries: two sets of entries that add up alike make
      the same leg. */
  lemma LegIsDetermined<K(!new), L(!new)>(a: Leg, b: Leg, entries: map<K, Entry>, entries': map<L, Entry>)
    requires ValuesMatch(a, entries) && ValuesMatch(b, entries')
    requires forall p: Pick :: p.InCell? || p.InCurrency? || p.LostIn? ==> SamePart(entries, entries', p)
    requires BucketsIn(entries, entries') && BucketsIn(entries', entries)
    ensures a.byAgeBucket == b.byAgeBucket && a.byCurrency == b.byCurrency && a.projectedLost == b.projectedLost
    ensures a.oldestAge == b.oldestAge
  {
    hide TotalOk, SamePart, BucketsIn, OldestOk;
    SameOldest(a.oldestAge, b.oldestAge, entries, entries');
    SameOldest(b.oldestAge, a.oldestAge, entries', entries);
    forall cell
      ensures cell in a.byAgeBucket <==> cell in b.byAgeBucket
      ensures cell in a.byAgeBucket ==> a.byAgeBucket[cell] == b.byAgeBucket[cell]
    {
      SameTotals(a.byAgeBucket, b.byAgeBucket, cell, entries, entries', InCell(cell));
    }
    forall c
      ensures c in a.byCurrency <==> c in b.byCurrency
      ensures c in a.byCurrency ==> a.byCurrency[c] == b.byCurrency[c]
      ensures c in a.projectedLost <==> c in b.projectedLost
      ensures c in a.projectedLost ==> a.projectedLost[c] == b.projectedLost[c]
    {
      SameTotals(a.byCurrency, b.byCurrency, c, entries, entries', InCurrency(c));
      SameTotals(a.projectedLost, b.projectedLost, c, entries, entries', LostIn(c));
    }
    assert a.byAgeBucket == b.byAgeBucket && a.byCurrency == b.byCurrency && a.projectedLost == b.projectedLost;
  }
}
