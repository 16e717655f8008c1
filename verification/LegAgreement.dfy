/** When the two routes give one deferred leg, for every ledger: exactly
    (engine/deferred.go, testkit/querier.go). */
module LegAgreement {
  import opened Wrappers
  import opened FiniteSums
  import opened Money
  import opened Tracker
  import opened Memq
  import opened PromQL
  import opened Deferred
  import opened DeferredGauge
  import opened DeferredEvents
  import opened Telemetry
  import opened Replay
  import opened DeferredAgreement
  import Checkout
  import Emitter

  function EntryAt(reg: Option<Registry>, items: map<Key, Item>, k: Key, at: int): Entry
    requires k in items
  {
    TrackedEntry(reg, k, items[k], at)
  }

  predicate SameCell(e: Entry, e': Entry) { e.bucket == e'.bucket && e.currency == e'.currency }

  /** A positive item in the same bucket and currency, and one lost in the same
      currency if this one is. */
  ghost predicate Covered(reg: Option<Registry>, items: map<Key, Item>, k: Key, to: int)
    requires k in items
  {
    && (exists j :: j in PositiveItems(items) && SameCell(EntryAt(reg, items, j, to), EntryAt(reg, items, k, to)))
    && (EntryAt(reg, items, k, to).lost ==>
          exists j :: j in PositiveItems(items) && EntryAt(reg, items, j, to).lost
                      && items[j].money.currency == items[k].money.currency)
  }

  /** No item is unseen by the events; no positive one changes bucket between the
      publish and the window's end, and none passes its deadline; and one worth
      nothing is where a positive one is. */
  ghost predicate SameLegs(reg: Option<Registry>, items: map<Key, Item>, seen: map<Key, Item>, at: int, to: int) {
    && seen == items
    && forall k :: k in items ==>
         && (items[k].money.amount > 0 ==> EntryAt(reg, items, k, at).bucket == EntryAt(reg, items, k, to).bucket)
         && (EntryAt(reg, items, k, at).breached <==> EntryAt(reg, items, k, to).breached)
         && (items[k].money.amount == 0 ==> Covered(reg, items, k, to))
  }

  ghost predicate IsPartOf(seen: map<Key, Item>, items: map<Key, Item>) {
    seen.Keys <= items.Keys && forall k :: k in seen ==> seen[k] == items[k]
  }

  ghost predicate Worth(items: map<Key, Item>) { forall k :: k in items ==> items[k].money.amount >= 0 }

  // ---- age only moves items on ----

  function Rank(bucket: string): int { BucketIndex(bucket) }

  /** Ages grow, so buckets only move on, and a deadline passed stays passed. */
  lemma MovesOn(reg: Option<Registry>, k: Key, item: Item, at: int, to: int)
    requires at <= to
    ensures var e, e' := TrackedEntry(reg, k, item, at), TrackedEntry(reg, k, item, to);
            && 0 <= Rank(e.bucket) <= Rank(e'.bucket) < 5 && (Rank(e.bucket) == Rank(e'.bucket) <==> e.bucket == e'.bucket)
            && (e.breached ==> e'.breached) && e.currency == e'.currency && e.amount == e'.amount == item.money.amount as int
  {
    hide BucketLabel, BucketIndex, AgeBucketFor, FloorMinutes;
    LabelsMoveOn(at - item.enqueuedAt, to - item.enqueuedAt);
    FloorMovesOn(BucketLabel(AgeBucketFor(at - item.enqueuedAt)), BucketLabel(AgeBucketFor(to - item.enqueuedAt)));
  }

  lemma LabelsMoveOn(age: int, age': int)
    requires age <= age'
    ensures var l, l' := BucketLabel(AgeBucketFor(age)), BucketLabel(AgeBucketFor(age'));
            0 <= BucketIndex(l) <= BucketIndex(l') < 5 && (BucketIndex(l) == BucketIndex(l') <==> l == l')
  {
    hide BucketLabel, BucketIndex, AgeBucketFor;
    LabelIsListed(AgeBucketFor(age), Steps(AgeBucketFor(age)));
    LabelIsListed(AgeBucketFor(age'), Steps(AgeBucketFor(age')));
    AgeMovesOn(age, age');
  }

  lemma AgeMovesOn(age: int, age': int)
    requires age <= age'
    ensures var b, b' := AgeBucketFor(age), AgeBucketFor(age'); Steps(b) <= Steps(b') && (Steps(b) == Steps(b') ==> b == b')
  {
  }

  lemma FloorMovesOn(bucket: string, bucket': string)
    requires 0 <= BucketIndex(bucket) <= BucketIndex(bucket') < 5
    ensures FloorMinutes(bucket) <= FloorMinutes(bucket')
  {
    hide BucketIndex;
    assert forall i, j :: 0 <= i <= j < 5 ==> FLOOR_MINUTES[i] <= FLOOR_MINUTES[j];
  }

  // ---- sums and sizes that leave no room ----

  /** A part that sums to the whole leaves out only zeros. */
  lemma LeftOutIsZero<K>(part: map<K, int>, whole: map<K, int>, k: K)
    requires part.Keys <= whole.Keys && (forall x :: x in part ==> part[x] == whole[x])
    requires (forall x :: x in whole ==> whole[x] >= 0) && Sum(part) == Sum(whole)
    requires k in whole && k !in part
    ensures whole[k] == 0
  {
    var inside := map x | x in whole && x in part.Keys :: whole[x];
    SumSplit(whole, part.Keys);
    assert inside == part;
    SumRemove(whole - part.Keys, k);
    SumNonNegative(whole - part.Keys - {k});
  }

  lemma {:induction false} FewerKeys<K>(a: set<K>, b: set<K>)
    requires a <= b
    ensures |a| <= |b| && (|a| == |b| ==> a == b)
    decreases |a|
  {
    if x :| x in a {
      FewerKeys(a - {x}, b - {x});
      assert a == a - {x} + {x} && b == b - {x} + {x};
    }
  }

  // ---- what the counts of two legs tell ----

  ghost function Breached(reg: Option<Registry>, items: map<Key, Item>, at: int): set<Key> {
    set k | k in items && EntryAt(reg, items, k, at).breached
  }

  lemma CountsAre(leg: Leg, reg: Option<Registry>, items: map<Key, Item>, at: int)
    requires CountsMatch(leg, Ones(TrackedEntries(reg, items, at)))
    ensures leg.count == |items| && leg.breaches == |Breached(reg, items, at)|
  {
    hide TrackedEntry;
    var ones := Ones(TrackedEntries(reg, items, at));
    var all, late := Deferred.Part(ones, Every), Deferred.Part(ones, Breaching);
    SumOfOnes(all);
    SumOfOnes(late);
    assert all.Keys == items.Keys && late.Keys == Breached(reg, items, at);
    KeysCount(all);
    KeysCount(late);
    KeysCount(items);
  }

  lemma BreachedMovesOn(reg: Option<Registry>, items: map<Key, Item>, at: int, to: int)
    requires at <= to
    ensures Breached(reg, items, at) <= Breached(reg, items, to)
  {
    forall k | k in Breached(reg, items, at)
      ensures k in Breached(reg, items, to)
    {
      MovesOn(reg, k, items[k], at, to);
    }
  }

  // ---- what the values tell ----

  ghost function CellOf(items: map<Key, Item>, reg: Option<Registry>, at: int, cell: Cell): map<Key, int> {
    Deferred.Part(TrackedEntries(reg, items, at), InCell(cell))
  }

  lemma CellTotal(leg: Leg, reg: Option<Registry>, items: map<Key, Item>, at: int, cell: Cell)
    requires ValuesMatch(leg, TrackedEntries(reg, items, at))
    ensures cell in leg.byAgeBucket <==> CellOf(items, reg, at, cell) != map[]
    ensures Sum(CellOf(items, reg, at, cell)) == if cell in leg.byAgeBucket then leg.byAgeBucket[cell] else 0
  {
    assert TotalOk(leg.byAgeBucket, cell, TrackedEntries(reg, items, at), InCell(cell));
  }

  lemma InCellOf(items: map<Key, Item>, reg: Option<Registry>, at: int, cell: Cell, k: Key)
    ensures k in CellOf(items, reg, at, cell) <==>
              k in items && cell == Cell(EntryAt(reg, items, k, at).bucket, items[k].money.currency)
    ensures k in CellOf(items, reg, at, cell) ==> CellOf(items, reg, at, cell)[k] == items[k].money.amount as int
  {
  }

  ghost predicate KeepsFrom(reg: Option<Registry>, items: map<Key, Item>, at: int, to: int, n: nat) {
    forall k :: k in items && items[k].money.amount > 0 && Rank(EntryAt(reg, items, k, to).bucket) >= n ==>
      EntryAt(reg, items, k, at).bucket == EntryAt(reg, items, k, to).bucket
  }

  /** From the oldest bucket down: equal totals leave no positive item room to have
      moved into a bucket. */
  lemma {:induction false} NoneMoved(reg: Option<Registry>, items: map<Key, Item>, at: int, to: int, gauge: Leg, events: Leg, n: nat)
    requires at <= to && Worth(items) && n <= 5
    requires ValuesMatch(gauge, TrackedEntries(reg, PositiveItems(items), at)) && ValuesMatch(events, TrackedEntries(reg, items, to))
    requires gauge.byAgeBucket == events.byAgeBucket
    ensures KeepsFrom(reg, items, at, to, n)
    decreases 5 - n
  {
    hide ValuesMatch, TrackedEntries, TrackedEntry;
    if n == 5 {
      forall k | k in items
        ensures Rank(EntryAt(reg, items, k, to).bucket) < 5
      {
        MovesOn(reg, k, items[k], at, to);
      }
    } else {
      NoneMoved(reg, items, at, to, gauge, events, n + 1);
      forall k | k in items && items[k].money.amount > 0 && Rank(EntryAt(reg, items, k, to).bucket) >= n
        ensures EntryAt(reg, items, k, at).bucket == EntryAt(reg, items, k, to).bucket
      {
        if Rank(EntryAt(reg, items, k, to).bucket) == n {
          NotMovedTo(reg, items, at, to, gauge, events, n, k);
        }
      }
    }
  }

  lemma NotMovedTo(reg: Option<Registry>, items: map<Key, Item>, at: int, to: int, gauge: Leg, events: Leg, n: nat, k: Key)
    requires at <= to && Worth(items) && n < 5 && KeepsFrom(reg, items, at, to, n + 1)
    requires ValuesMatch(gauge, TrackedEntries(reg, PositiveItems(items), at)) && ValuesMatch(events, TrackedEntries(reg, items, to))
    requires gauge.byAgeBucket == events.byAgeBucket
    requires k in items && items[k].money.amount > 0 && Rank(EntryAt(reg, items, k, to).bucket) == n
    ensures EntryAt(reg, items, k, at).bucket == EntryAt(reg, items, k, to).bucket
  {
    hide ValuesMatch, TrackedEntry;
    var some := PositiveItems(items);
    var cell := Cell(EntryAt(reg, items, k, to).bucket, items[k].money.currency);
    CellTotal(gauge, reg, some, at, cell);
    CellTotal(events, reg, items, to, cell);
    var before, after := CellOf(some, reg, at, cell), CellOf(items, reg, to, cell);
    forall x | x in before
      ensures x in after && before[x] == after[x]
    {
      StaysIn(reg, items, at, to, n, cell, x);
    }
    forall x | x in after
      ensures after[x] >= 0
    {
      InCellOf(items, reg, to, cell, x);
    }
    InCellOf(items, reg, to, cell, k);
    if k !in before {
      LeftOutIsZero(before, after, k);
    }
    InCellOf(some, reg, at, cell, k);
  }

  /** A positive item in the bucket at the publish is still there at the end: what
      moves on has been ruled out. */
  lemma StaysIn(reg: Option<Registry>, items: map<Key, Item>, at: int, to: int, n: nat, cell: Cell, x: Key)
    requires at <= to && KeepsFrom(reg, items, at, to, n + 1) && Rank(cell.bucket) == n
    requires x in CellOf(PositiveItems(items), reg, at, cell)
    ensures x in CellOf(items, reg, to, cell) && CellOf(PositiveItems(items), reg, at, cell)[x] == CellOf(items, reg, to, cell)[x]
  {
    InCellOf(PositiveItems(items), reg, at, cell, x);
    InCellOf(items, reg, to, cell, x);
    MovesOn(reg, x, items[x], at, to);
    hide TrackedEntries, CellOf, BucketIndex, TrackedEntry;
  }

  // ---- equal legs tell the condition ----

  lemma AllSeen(seen: map<Key, Item>, items: map<Key, Item>)
    requires IsPartOf(seen, items) && |seen| == |items|
    ensures seen == items
  {
    KeysCount(seen);
    KeysCount(items);
    FewerKeys(seen.Keys, items.Keys);
  }

  lemma SameBreaches(reg: Option<Registry>, items: map<Key, Item>, at: int, to: int, k: Key)
    requires at <= to && |Breached(reg, items, at)| == |Breached(reg, items, to)| && k in items
    ensures EntryAt(reg, items, k, at).breached <==> EntryAt(reg, items, k, to).breached
  {
    hide TrackedEntry;
    BreachedMovesOn(reg, items, at, to);
    FewerKeys(Breached(reg, items, at), Breached(reg, items, to));
    assert k in Breached(reg, items, at) <==> k in Breached(reg, items, to);
  }

  lemma ZeroIsCovered(reg: Option<Registry>, items: map<Key, Item>, at: int, to: int, gauge: Leg, events: Leg, k: Key)
    requires at <= to && Worth(items) && KeepsFrom(reg, items, at, to, 0) && k in items
    requires ValuesMatch(gauge, TrackedEntries(reg, PositiveItems(items), at)) && ValuesMatch(events, TrackedEntries(reg, items, to))
    requires gauge.byAgeBucket == events.byAgeBucket && gauge.projectedLost == events.projectedLost
    ensures Covered(reg, items, k, to)
  {
    Amount(reg, items, k, to);
    var some, e := PositiveItems(items), EntryAt(reg, items, k, to);
    var cell := Cell(e.bucket, e.currency);
    hide ValuesMatch, TrackedEntry, TrackedEntries, CellOf, KeepsFrom;
    CellTotal(gauge, reg, some, at, cell);
    CellTotal(events, reg, items, to, cell);
    InCellOf(items, reg, to, cell, k);
    var j :| j in CellOf(some, reg, at, cell);
    InCellOf(some, reg, at, cell, j);
    Kept(reg, items, at, to, j);
    assert SameCell(EntryAt(reg, items, j, to), e);
    if e.lost {
      LostIsCovered(reg, items, at, to, gauge, events, k);
    }
  }

  lemma LostIsCovered(reg: Option<Registry>, items: map<Key, Item>, at: int, to: int, gauge: Leg, events: Leg, k: Key)
    requires at <= to && KeepsFrom(reg, items, at, to, 0) && k in items && EntryAt(reg, items, k, to).lost
    requires ValuesMatch(gauge, TrackedEntries(reg, PositiveItems(items), at)) && ValuesMatch(events, TrackedEntries(reg, items, to))
    requires gauge.projectedLost == events.projectedLost
    ensures exists j :: j in PositiveItems(items) && EntryAt(reg, items, j, to).lost
                        && items[j].money.currency == items[k].money.currency
  {
    var some, c := PositiveItems(items), items[k].money.currency;
    LostTotal(events, reg, items, to, c);
    LostTotal(gauge, reg, some, at, c);
    Amount(reg, items, k, to);
    assert k in Deferred.Part(TrackedEntries(reg, items, to), LostIn(c));
    hide ValuesMatch, TrackedEntry;
    var l :| l in Deferred.Part(TrackedEntries(reg, some, at), LostIn(c));
    Kept(reg, items, at, to, l);
    Amount(reg, items, l, to);
  }

  lemma LostTotal(leg: Leg, reg: Option<Registry>, items: map<Key, Item>, at: int, c: string)
    requires ValuesMatch(leg, TrackedEntries(reg, items, at))
    ensures c in leg.projectedLost <==> Deferred.Part(TrackedEntries(reg, items, at), LostIn(c)) != map[]
  {
    assert TotalOk(leg.projectedLost, c, TrackedEntries(reg, items, at), LostIn(c));
  }

  /** A positive item's entry is the same at both instants. */
  lemma Kept(reg: Option<Registry>, items: map<Key, Item>, at: int, to: int, k: Key)
    requires at <= to && KeepsFrom(reg, items, at, to, 0) && k in PositiveItems(items)
    ensures EntryAt(reg, items, k, at) == EntryAt(reg, items, k, to)
  {
    MovesOn(reg, k, items[k], at, to);
    assert EntryAt(reg, items, k, at).bucket == EntryAt(reg, items, k, to).bucket;
    SameBucketSameEntry(reg, k, items[k], at, to);
  }

  lemma SameBucketSameEntry(reg: Option<Registry>, k: Key, item: Item, at: int, to: int)
    requires TrackedEntry(reg, k, item, at).bucket == TrackedEntry(reg, k, item, to).bucket
    ensures TrackedEntry(reg, k, item, at) == TrackedEntry(reg, k, item, to)
  {
  }

  lemma EqualLegsTell(reg: Option<Registry>, items: map<Key, Item>, seen: map<Key, Item>, at: int, to: int, gauge: Leg, events: Leg)
    requires at <= to && Worth(items) && IsPartOf(seen, items)
    requires GaugeLegOf(gauge, reg, items, at) && EventsLegOf(events, reg, seen, to)
    requires gauge.(caveats := {}) == events.(caveats := {})
    ensures SameLegs(reg, items, seen, at, to)
  {
    hide ValuesMatch, CountsMatch, TrackedEntries, TrackedEntry, Covered;
    CountsAre(gauge, reg, items, at);
    CountsAre(events, reg, seen, to);
    AllSeen(seen, items);
    NoneMoved(reg, items, at, to, gauge, events, 0);
    forall k | k in items
      ensures items[k].money.amount > 0 ==> EntryAt(reg, items, k, at).bucket == EntryAt(reg, items, k, to).bucket
      ensures EntryAt(reg, items, k, at).breached <==> EntryAt(reg, items, k, to).breached
      ensures Covered(reg, items, k, to)
    {
      MovesOn(reg, k, items[k], at, to);
      SameBreaches(reg, items, at, to, k);
      ZeroIsCovered(reg, items, at, to, gauge, events, k);
    }
  }

  // ---- the condition makes legs equal ----

  lemma ConditionKeeps(reg: Option<Registry>, items: map<Key, Item>, at: int, to: int)
    requires SameLegs(reg, items, items, at, to)
    ensures KeepsFrom(reg, items, at, to, 0)
  {
  }

  /** Under the condition each total has the same positive entries on both sides,
      and none has zeros alone. */
  lemma SameTotal(reg: Option<Registry>, items: map<Key, Item>, at: int, to: int, p: Pick)
    requires at <= to && Worth(items) && SameLegs(reg, items, items, at, to)
    requires p.InCell? || p.InCurrency? || p.LostIn?
    ensures SamePart(TrackedEntries(reg, PositiveItems(items), at), TrackedEntries(reg, items, to), p)
  {
    ConditionKeeps(reg, items, at, to);
    var some := PositiveItems(items);
    var before, after := Deferred.Part(TrackedEntries(reg, some, at), p), Deferred.Part(TrackedEntries(reg, items, to), p);
    hide TrackedEntry, Covered;
    forall k | k in after
      ensures after[k] == if k in before then before[k] else 0
    {
      Amount(reg, items, k, to);
      if k in some {
        Kept(reg, items, at, to, k);
      }
    }
    forall k | k in before
      ensures k in after
    {
      Kept(reg, items, at, to, k);
    }
    SumPadded(after, before);
    if k :| k in after {
      NotAlone(reg, items, at, to, p, k);
    }
  }

  lemma Amount(reg: Option<Registry>, items: map<Key, Item>, k: Key, at: int)
    requires k in items
    ensures EntryAt(reg, items, k, at).amount == items[k].money.amount as int
    ensures EntryAt(reg, items, k, at).currency == items[k].money.currency
  {
  }

  lemma NotAlone(reg: Option<Registry>, items: map<Key, Item>, at: int, to: int, p: Pick, k: Key)
    requires at <= to && Worth(items) && SameLegs(reg, items, items, at, to) && KeepsFrom(reg, items, at, to, 0)
    requires p.InCell? || p.InCurrency? || p.LostIn?
    requires k in items && Picks(p, EntryAt(reg, items, k, to))
    ensures Deferred.Part(TrackedEntries(reg, PositiveItems(items), at), p) != map[]
  {
    var some := PositiveItems(items);
    var j := k;
    if k !in some {
      assert Covered(reg, items, k, to);
      if p.LostIn? {
        j :| j in some && EntryAt(reg, items, j, to).lost && items[j].money.currency == items[k].money.currency;
      } else {
        j :| j in some && SameCell(EntryAt(reg, items, j, to), EntryAt(reg, items, k, to));
      }
    }
    Amount(reg, items, k, to);
    Amount(reg, items, j, to);
    Kept(reg, items, at, to, j);
    hide TrackedEntry, Covered, SameLegs, KeepsFrom;
    assert Picks(p, EntryAt(reg, items, j, at));
    assert j in Deferred.Part(TrackedEntries(reg, some, at), p);
  }

  lemma SameBuckets(reg: Option<Registry>, items: map<Key, Item>, at: int, to: int)
    requires at <= to && Worth(items) && SameLegs(reg, items, items, at, to)
    ensures BucketsIn(TrackedEntries(reg, PositiveItems(items), at), TrackedEntries(reg, items, to))
    ensures BucketsIn(TrackedEntries(reg, items, to), TrackedEntries(reg, PositiveItems(items), at))
  {
    ConditionKeeps(reg, items, at, to);
    var before, after := TrackedEntries(reg, PositiveItems(items), at), TrackedEntries(reg, items, to);
    hide TrackedEntry;
    forall k | k in before
      ensures k in after && after[k].bucket == before[k].bucket
    {
      Kept(reg, items, at, to, k);
    }
    forall k | k in after
      ensures exists j :: j in before && before[j].bucket == after[k].bucket
    {
      if k in before {
        Kept(reg, items, at, to, k);
      } else {
        var j :| j in PositiveItems(items) && SameCell(EntryAt(reg, items, j, to), EntryAt(reg, items, k, to));
        Kept(reg, items, at, to, j);
        assert j in before;
      }
    }
  }

  lemma SameBreachedSet(reg: Option<Registry>, items: map<Key, Item>, at: int, to: int)
    requires SameLegs(reg, items, items, at, to)
    ensures Breached(reg, items, at) == Breached(reg, items, to)
  {
    hide TrackedEntry, Covered;
  }

  lemma ConditionMakesEqual(reg: Option<Registry>, items: map<Key, Item>, seen: map<Key, Item>, at: int, to: int, gauge: Leg, events: Leg)
    requires at <= to && Worth(items) && SameLegs(reg, items, seen, at, to)
    requires GaugeLegOf(gauge, reg, items, at) && EventsLegOf(events, reg, seen, to)
    ensures gauge.(caveats := {}) == events.(caveats := {})
  {
    var before, after := TrackedEntries(reg, PositiveItems(items), at), TrackedEntries(reg, items, to);
    forall p: Pick | p.InCell? || p.InCurrency? || p.LostIn?
      ensures SamePart(before, after, p)
    {
      SameTotal(reg, items, at, to, p);
    }
    SameBuckets(reg, items, at, to);
    SameBreachedSet(reg, items, at, to);
    assert seen == items && ValuesMatch(gauge, before) && ValuesMatch(events, after);
    hide ValuesMatch, CountsMatch, TrackedEntries, SamePart, BucketsIn, SameLegs, PositiveItems, Breached;
    LegIsDetermined(gauge, events, before, after);
    CountsAre(gauge, reg, items, at);
    CountsAre(events, reg, items, to);
  }

  // ---- the theorem ----

  lemma SeenIsPart(items: map<Key, Item>, ledger: seq<Row>, start: int)
    ensures IsPartOf(SeenItems(items, ledger, start), items)
  {
  }

  /** The two legs are one exactly if the items meet the condition, and in any case
      the gauge counts those the events do not see. */
  lemma LegsAgreeExactly(ledger: seq<Row>, reg: Option<Registry>, req: Request, start: int, at: int, items: map<Key, Item>,
                         points: seq<Point>, gauge: Leg, events: Leg, entries: map<EntityStage, Entry>)
    requires Related(ledger, reg, req, at) && ItemsAt(items, ledger, at)
    requires (forall p :: p in points ==> GaugePoint(p)) && ReadsExactly(points, items, at, req.to)
    requires ValuesMatch(gauge, GaugeEntries(points, GaugeQuery(VALUE, req), reg))
    requires CountsMatch(gauge, GaugeEntries(points, GaugeQuery(COUNT, req), reg))
    requires OpenEntries(EventsOf(ledger), reg, req, start, entries)
    requires ValuesMatch(events, entries) && CountsMatch(events, Ones(entries))
    ensures gauge.(caveats := {}) == events.(caveats := {})
       <==> SameLegs(reg, items, SeenItems(items, ledger, start), at, req.to)
    ensures gauge.count == events.count + |items| - |SeenItems(items, ledger, start)|
    ensures gauge.byAgeBucket != map[] ==> GaugeEntries(points, GaugeQuery(COUNT, req), reg) != map[]
  {
    var seen := SeenItems(items, ledger, start);
    assert at <= req.to;
    ReadsGauge(ledger, reg, req, at, items, points);
    GaugeLegIs(points, reg, items, req, at, gauge);
    EventsLegIs(ledger, reg, req, start, at, items, events, entries);
    ItemsCount(ledger, reg, req, at, items);
    SeenIsPart(items, ledger, start);
    hide Related, ItemsAt, GaugePoint, ReadsExactly, ValuesMatch, CountsMatch, GaugeEntries, OpenEntries, EventsOf, Ones,
         SeenItems, SameLegs, TrackedEntries, PositiveItems, IsPartOf, GaugeReads;
    CountsAre(gauge, reg, items, at);
    CountsAre(events, reg, seen, req.to);
    if SameLegs(reg, items, seen, at, req.to) {
      ConditionMakesEqual(reg, items, seen, at, req.to, gauge, events);
    }
    if gauge.(caveats := {}) == events.(caveats := {}) {
      EqualLegsTell(reg, items, seen, at, req.to, gauge, events);
    }
  }

  /** End to end: replay a ledger, publish, and read the leg both ways. The replay
      does not panic on a ledger that fits the tracker; and if the publish before
      the window's end and the window look at one state of the ledger, both ways
      then give the same leg exactly if the items meet the condition. Only the
      caveat differs always. */
  method BothRoutes(ledger: seq<Row>, instants: seq<int>, hash: string -> nat, reg: Option<Registry>, req: Request)
    returns (r: Option<(Leg, Leg)>, ghost at: Option<int>, ghost start: int, ghost items: map<Key, Item>)
    requires |instants| > 0
    ensures IsLastBefore(instants, req.to, at) && IsLookback(reg, req.flow, req.from - start)
    ensures Fits(ledger) ==> r.Some?
    ensures r.Some? && at.Some? && Replay.Distinct(instants) && Related(ledger, reg, req, at.value) ==>
              && ItemsAt(items, ledger, at.value)
              && r.value.0.caveats == {} && r.value.1.caveats == {EventsDerived}
              && r.value.0.count == r.value.1.count + |items| - |SeenItems(items, ledger, start)|
              && (r.value.1 == r.value.0.(caveats := {EventsDerived})
                  <==> SameLegs(reg, items, SeenItems(items, ledger, start), at.value, req.to))
  {
    hide GaugeSays, EventsSay, IsLastBefore, IsLookback, Related, EventsOf, OpenEntries, ValuesMatch, CountsMatch, GaugeEntries, ItemsAt, SameLegs,
         SeenItems, ReadsExactly, GaugePoint, Replay.Distinct, Memq.Groups, Ones, Fits;
    var published;
    published, at, items := InFlightPoints(ledger, instants, hash, req.to);
    var outcomes := EventsFromResult(ledger);
    var events;
    ghost var lookback, entries;
    events, lookback, entries := DeferredFromEvents(outcomes, reg, req);
    start := req.from - lookback;
    if published.None? {
      return None, at, start, items;
    }
    var gauge, sawGauge := DeferredFromGauge(published.value, reg, req);
    r := Some((gauge, events));
    if at.Some? && Replay.Distinct(instants) && Related(ledger, reg, req, at.value) {
      RelatedIsOrderly(ledger, reg, req, at.value);
      LegsAgreeExactly(ledger, reg, req, start, at.value, items, published.value, gauge, events, entries);
    }
  }
}
