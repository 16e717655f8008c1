/** Stepped queries: one instant expression per bucket, merged by group
    (adapters/query/promql/translate.go, adapters/query/promql/promql.go). */
module PromQLStepped {
  import opened Wrappers
  import opened FiniteSums
  import opened Memq
  import opened PromQL
  import opened PromQLExact

  datatype SteppedBucket = SteppedBucket(ex: PromExpr, start: int)

  /** Every lookback of a stepped query reaches back to the same instant. */
  function Anchor(q: Query): int { q.from - (q.to - q.from) }

  function SteppedBoundary(q: Query, b: int): Expr { Boundary(q, b - Anchor(q), b) }

  function BucketExpr(q: Query, start: int): Expr {
    var end := BucketEnd(q, start);
    if q.metric in GAUGE_FAMILIES then SteppedBoundary(q, end)
    else Difference(SteppedBoundary(q, end), SteppedBoundary(q, start))
  }

  function SteppedFrom(q: Query, start: int): seq<SteppedBucket>
    requires q.step > 0
    decreases q.to - start
  {
    if start >= q.to then []
    else [SteppedBucket(PromExpr(BucketExpr(q, start), BucketEnd(q, start) - 1), start)] + SteppedFrom(q, start + q.step)
  }

  method TranslateStepped(q: Query) returns (r: Result<seq<SteppedBucket>, TranslateError>)
    ensures q.agg == AggCount ==> r == Failure(CountUnsupported)
    ensures q.agg != AggCount && q.step <= 0 ==> r == Failure(WrongStep)
    ensures q.agg != AggCount && q.step > 0 ==> r == Success(SteppedFrom(q, q.from))
  {
    if q.agg == AggCount {
      return Failure(CountUnsupported);
    }
    if q.step <= 0 {
      return Failure(WrongStep);
    }
    hide Difference, SteppedBoundary;
    var out: seq<SteppedBucket> := [];
    var start := q.from;
    while start < q.to
      invariant out + SteppedFrom(q, start) == SteppedFrom(q, q.from)
      decreases q.to - start
    {
      var end := start + q.step;
      if end > q.to {
        end := q.to;
      }
      var expr := if q.metric in GAUGE_FAMILIES then SteppedBoundary(q, end)
                  else Difference(SteppedBoundary(q, end), SteppedBoundary(q, start));
      OneMoreBucket(q, out, start);
      out := out + [SteppedBucket(PromExpr(expr, end - 1), start)];
      start := start + q.step;
    }
    assert out + [] == out;
    return Success(out);
  }

  lemma OneMoreBucket(q: Query, out: seq<SteppedBucket>, start: int)
    requires q.step > 0 && start < q.to
    ensures out + SteppedFrom(q, start)
         == out + [SteppedBucket(PromExpr(BucketExpr(q, start), BucketEnd(q, start) - 1), start)]
            + SteppedFrom(q, start + q.step)
  {
  }

  // ---- merging the buckets' vectors ----

  /** What one bucket contributes to a group: a counter's zero is dropped. */
  function Kept1(start: int, v: Vector, g: Labels, gauge: bool): seq<Reading> {
    if g in v && (gauge || v[g] != 0) then [Reading(start, v[g])] else []
  }

  function Merged(buckets: seq<SteppedBucket>, vecs: seq<Vector>, g: Labels, gauge: bool): seq<Reading>
    requires |buckets| == |vecs|
  {
    if buckets == [] then []
    else Kept1(buckets[0].start, vecs[0], g, gauge) + Merged(buckets[1..], vecs[1..], g, gauge)
  }

  /** A slice for every group some bucket kept, its points in bucket order. */
  method Merge(buckets: seq<SteppedBucket>, vecs: seq<Vector>, gauge: bool) returns (out: map<Labels, seq<Reading>>)
    requires |buckets| == |vecs|
    ensures forall g :: Readings(out, g) == Merged(buckets, vecs, g, gauge)
    ensures forall g :: g in out ==> out[g] != []
  {
    out := map[];
    assert buckets[0..] == buckets && vecs[0..] == vecs;
    for i := 0 to |buckets|
      invariant forall g :: Readings(out, g) + Merged(buckets[i..], vecs[i..], g, gauge) == Merged(buckets, vecs, g, gauge)
      invariant forall g :: g in out ==> out[g] != []
    {
      ghost var was := out;
      out := MergeOne(out, buckets[i].start, vecs[i], gauge);
      forall g
        ensures Readings(out, g) + Merged(buckets[i + 1..], vecs[i + 1..], g, gauge) == Merged(buckets, vecs, g, gauge)
      {
        assert buckets[i..][1..] == buckets[i + 1..] && vecs[i..][1..] == vecs[i + 1..];
        Associate(Readings(was, g), Kept1(buckets[i].start, vecs[i], g, gauge), Merged(buckets[i + 1..], vecs[i + 1..], g, gauge));
      }
    }
    assert forall g :: Readings(out, g) + [] == Readings(out, g);
  }

  /** One bucket's vector, in whatever order its groups come. */
  method MergeOne(before: map<Labels, seq<Reading>>, start: int, v: Vector, gauge: bool)
    returns (out: map<Labels, seq<Reading>>)
    requires forall g :: g in before ==> before[g] != []
    ensures forall g :: Readings(out, g) == Readings(before, g) + Kept1(start, v, g, gauge)
    ensures forall g :: g in out ==> out[g] != []
  {
    out := before;
    var todo := v.Keys;
    while todo != {}
      invariant todo <= v.Keys
      invariant forall g :: Readings(out, g) == Readings(before, g) + if g in todo then [] else Kept1(start, v, g, gauge)
      invariant forall g :: g in out ==> out[g] != []
      decreases todo
    {
      var g :| g in todo;
      if gauge || v[g] != 0 {
        out := out[g := Readings(out, g) + [Reading(start, v[g])]];
      }
      todo := todo - {g};
    }
  }

  function Readings(out: map<Labels, seq<Reading>>, g: Labels): seq<Reading> {
    if g in out then out[g] else []
  }

  // ---- the stepped answer over a store ----

  ghost function Vectors(buckets: seq<SteppedBucket>, store: Store, closed: bool): (vecs: seq<Vector>)
    ensures |vecs| == |buckets|
  {
    if buckets == [] then [] else [Denote(buckets[0].ex.expr, store, closed)] + Vectors(buckets[1..], store, closed)
  }

  /** The merged answer of the buckets from one start on. */
  ghost function AnswerFrom(store: Store, q: Query, g: Labels, closed: bool, start: int): seq<Reading>
    requires q.step > 0
    decreases q.to - start
  {
    if start >= q.to then []
    else Kept1(start, Denote(BucketExpr(q, start), store, closed), g, q.metric in GAUGE_FAMILIES)
         + AnswerFrom(store, q, g, closed, start + q.step)
  }

  /** Merging the denotations bucket by bucket gives the stepped answer. */
  lemma {:induction false} MergeIsAnswer(store: Store, q: Query, g: Labels, closed: bool, start: int)
    requires q.step > 0
    ensures var buckets := SteppedFrom(q, start);
            Merged(buckets, Vectors(buckets, store, closed), g, q.metric in GAUGE_FAMILIES)
              == AnswerFrom(store, q, g, closed, start)
    decreases q.to - start
  {
    if start < q.to {
      hide Denote;
      MergeIsAnswer(store, q, g, closed, start + q.step);
      var buckets := SteppedFrom(q, start);
      assert buckets[1..] == SteppedFrom(q, start + q.step);
      assert Vectors(buckets, store, closed)[1..] == Vectors(buckets[1..], store, closed);
    }
  }

  // ---- any store: buckets telescope ----

  /** Windows and steps of whole seconds, as durations are rendered. */
  predicate Aligned(q: Query) {
    q.step > 0 && q.step % 1000 == 0 && q.from < q.to && (q.to - q.from) % 1000 == 0
  }

  /** A boundary of the query's grid. */
  predicate OnGrid(q: Query, b: int) {
    q.from <= b <= q.to && (b - q.from) % 1000 == 0
  }

  lemma AnchoredLookback(q: Query, b: int)
    requires Aligned(q) && OnGrid(q, b)
    ensures WholeSeconds(b - Anchor(q)) == b - Anchor(q)
  {
    var span := b - Anchor(q);
    assert span % 1000 == 0 && span >= 1000;
  }

  lemma NextOnGrid(q: Query, start: int)
    requires Aligned(q) && OnGrid(q, start) && start < q.to
    ensures OnGrid(q, BucketEnd(q, start))
    ensures start + q.step < q.to ==> BucketEnd(q, start) == start + q.step
    ensures start + q.step >= q.to ==> BucketEnd(q, start) == q.to
  {
  }

  ghost function ShownAt(store: Store, points: seq<Point>, q: Query, g: Labels, closed: bool, b: int): int {
    Shown(store, GroupSeries(points, q, g), b, b - Anchor(q), closed)
  }

  ghost predicate VisibleAt(store: Store, points: seq<Point>, q: Query, g: Labels, closed: bool, b: int) {
    Visible(store, GroupSeries(points, q, g), b, b - Anchor(q), closed)
  }

  lemma BucketDenotes(store: Store, points: seq<Point>, q: Query, g: Labels, closed: bool, start: int)
    requires Scraped(store, points) && Aligned(q) && OnGrid(q, start) && start < q.to && q.metric !in GAUGE_FAMILIES
    ensures var v, end := Denote(BucketExpr(q, start), store, closed), BucketEnd(q, start);
            && (g in v <==> VisibleAt(store, points, q, g, closed, end))
            && (g in v ==> v[g] == ShownAt(store, points, q, g, closed, end) - ShownAt(store, points, q, g, closed, start))
  {
    hide Scraped, Denote, GroupSeries;
    var end := BucketEnd(q, start);
    NextOnGrid(q, start);
    AnchoredLookback(q, start);
    AnchoredLookback(q, end);
    DifferenceDenotes(store, points, q, g, start - Anchor(q), start, end - Anchor(q), end, closed);
  }

  /** What one boundary shows of a group, every later one does too: all lookbacks
      share their far end. */
  lemma PresenceIsMonotone(store: Store, points: seq<Point>, ids: set<SeriesId>, q: Query, closed: bool, b: int, b': int)
    requires b <= b' && Visible(store, ids, b, b - Anchor(q), closed)
    requires Scraped(store, points)
    ensures Visible(store, ids, b', b' - Anchor(q), closed)
  {
    var id :| id in ids && id in store && LastOverTime(store[id], b - 1, b - Anchor(q), closed).Some?;
    var k := ReadSample(store[id], b - 1, b - Anchor(q), closed);
    SampleIsRead(store[id], b' - 1, b' - Anchor(q), closed, k);
  }

  lemma InvisibleShowsNothing(store: Store, ids: set<SeriesId>, b: int, lookback: int, closed: bool)
    requires !Visible(store, ids, b, lookback, closed)
    ensures Shown(store, ids, b, lookback, closed) == 0
  {
    AllZero(map id | id in ids :: ShownOf(store, id, b, lookback, closed));
  }

  /** A bucket adds exactly the step between its boundaries, whether it is kept,
      dropped as zero, or absent. */
  lemma BucketAdds(store: Store, points: seq<Point>, q: Query, g: Labels, closed: bool, start: int)
    requires Scraped(store, points) && Aligned(q) && OnGrid(q, start) && start < q.to && q.metric !in GAUGE_FAMILIES
    ensures At(Denote(BucketExpr(q, start), store, closed), g)
         == ShownAt(store, points, q, g, closed, BucketEnd(q, start)) - ShownAt(store, points, q, g, closed, start)
  {
    hide Denote, Scraped, GroupSeries, BucketExpr;
    var ids, end := GroupSeries(points, q, g), BucketEnd(q, start);
    BucketDenotes(store, points, q, g, closed, start);
    if !VisibleAt(store, points, q, g, closed, end) {
      if VisibleAt(store, points, q, g, closed, start) {
        PresenceIsMonotone(store, points, ids, q, closed, start, end);
      }
      InvisibleShowsNothing(store, ids, end, end - Anchor(q), closed);
      InvisibleShowsNothing(store, ids, start, start - Anchor(q), closed);
    }
  }

  lemma SumKept1(start: int, v: Vector, g: Labels, gauge: bool, rest: seq<Reading>)
    ensures SumReadings(Kept1(start, v, g, gauge) + rest) == At(v, g) + SumReadings(rest)
  {
    var kept := Kept1(start, v, g, gauge);
    if kept == [] {
      assert kept + rest == rest;
    } else {
      assert (kept + rest)[1..] == rest;
    }
  }

  /** For any store: the points of a stepped counter answer add up to the step
      between the window's two ends, so dropping zero buckets loses nothing. */
  lemma {:induction false} StepsTelescope(store: Store, points: seq<Point>, q: Query, g: Labels, closed: bool, start: int)
    requires Scraped(store, points) && Aligned(q) && q.metric !in GAUGE_FAMILIES && OnGrid(q, start)
    ensures SumReadings(AnswerFrom(store, q, g, closed, start))
         == ShownAt(store, points, q, g, closed, q.to) - ShownAt(store, points, q, g, closed, start)
    decreases q.to - start
  {
    hide Denote, Scraped, ShownAt, BucketExpr;
    if start < q.to {
      var v := Denote(BucketExpr(q, start), store, closed);
      BucketAdds(store, points, q, g, closed, start);
      NextOnGrid(q, start);
      SumKept1(start, v, g, false, AnswerFrom(store, q, g, closed, start + q.step));
      if start + q.step < q.to {
        StepsTelescope(store, points, q, g, closed, start + q.step);
      }
    }
  }

  // ---- sampled stores: buckets are exact ----

  /** Sampled at every change in the window or before, and once in the lookback of
      the window's start: this is enough for every bucket. */
  ghost predicate SampledThroughout(store: Store, points: seq<Point>, q: Query, closed: bool) {
    forall id :: Selects(q, id) ==>
      && (forall p :: p in points && Before(p, id, q.to) ==> id in store && SampledAt(store[id], p.at))
      && (Born(points, id, q.from) ==>
            id in store && exists i :: 0 <= i < |store[id]| && InLookback(store[id][i].at, q.from - 1, q.to - q.from, closed))
  }

  lemma OneLookbackSuffices(store: Store, points: seq<Point>, q: Query, closed: bool, b: int)
    requires Aligned(q) && OnGrid(q, b) && SampledThroughout(store, points, q, closed)
    ensures AllSampled(store, points, q, b, b - Anchor(q), closed)
  {
    AnchoredLookback(q, b);
    forall id | Selects(q, id) && Born(points, id, b)
      ensures id in store && Dense(store[id], points, id, b, b - Anchor(q), closed)
    {
      SeriesIsDense(store, points, q, closed, b, id);
    }
  }

  lemma SeriesIsDense(store: Store, points: seq<Point>, q: Query, closed: bool, b: int, id: SeriesId)
    requires Aligned(q) && OnGrid(q, b) && SampledThroughout(store, points, q, closed)
    requires Selects(q, id) && Born(points, id, b)
    ensures id in store && Dense(store[id], points, id, b, b - Anchor(q), closed)
  {
    var first :| first in points && Before(first, id, b);
    assert Before(first, id, q.to);
    forall p | p in points && Before(p, id, b)
      ensures SampledAt(store[id], p.at)
    {
      assert Before(p, id, q.to);
    }
    if Born(points, id, q.from) {
      var i :| 0 <= i < |store[id]| && InLookback(store[id][i].at, q.from - 1, q.to - q.from, closed);
      assert InLookback(store[id][i].at, b - 1, b - Anchor(q), closed);
    } else {
      assert !Before(first, id, q.from) && SampledAt(store[id], first.at);
      var i :| 0 <= i < |store[id]| && store[id][i].at == first.at;
      assert InLookback(store[id][i].at, b - 1, b - Anchor(q), closed);
    }
  }

  function NonZero(readings: seq<Reading>): seq<Reading> {
    if readings == [] then []
    else (if readings[0].value == 0 then [] else [readings[0]]) + NonZero(readings[1..])
  }

  lemma NonZeroStamped(at: int, v: Option<int>, rest: seq<Reading>)
    ensures NonZero(Stamped(at, v) + rest)
         == (if v.Some? && v.value != 0 then [Reading(at, v.value)] else []) + NonZero(rest)
  {
    if v.None? {
      assert Stamped(at, v) + rest == rest;
    } else {
      assert (Stamped(at, v) + rest)[1..] == rest;
    }
  }

  lemma ShownIsTrue(store: Store, points: seq<Point>, q: Query, g: Labels, closed: bool, b: int)
    requires Scraped(store, points) && Aligned(q) && OnGrid(q, b) && SampledThroughout(store, points, q, closed)
    ensures ShownAt(store, points, q, g, closed, b) == True(points, GroupSeries(points, q, g), b)
  {
    hide Scraped, SampledThroughout, AllSampled, GroupSeries;
    AnchoredLookback(q, b);
    OneLookbackSuffices(store, points, q, closed, b);
    NothingHidden(store, points, q, g, b, b - Anchor(q), closed);
  }

  lemma CounterBucketIsExact(store: Store, points: seq<Point>, q: Query, g: Labels, closed: bool, start: int)
    requires Scraped(store, points) && Aligned(q) && OnGrid(q, start) && start < q.to && q.metric !in GAUGE_FAMILIES
    requires SampledThroughout(store, points, q, closed)
    ensures At(Denote(BucketExpr(q, start), store, closed), g)
         == SumIn(GroupPoints(points, q, g), start, BucketEnd(q, start))
  {
    hide Denote, Scraped, SampledThroughout, GroupSeries, GroupPoints, BucketExpr, ShownAt, True;
    var end := BucketEnd(q, start);
    NextOnGrid(q, start);
    ShownIsTrue(store, points, q, g, closed, start);
    ShownIsTrue(store, points, q, g, closed, end);
    TrueIncrease(points, q, g, start, end);
    BucketAdds(store, points, q, g, closed, start);
  }

  /** The points of a stepped answer add up to the answer without steps, if the
      store is sampled for both. */
  lemma StepsAddUpToOne(store: Store, points: seq<Point>, q: Query, g: Labels, closed: bool)
    requires Scraped(store, points) && Aligned(q) && q.metric !in GAUGE_FAMILIES && q.agg == AggSum
    requires SampledThroughout(store, points, q, closed) && AllSampled(store, points, q, q.to, q.to - q.from, closed)
    ensures var whole := q.(step := 0);
            Translate(whole).Success?
            && SumReadings(AnswerFrom(store, q, g, closed, q.from)) == At(Denote(Translate(whole).value.expr, store, closed), g)
  {
    hide Scraped, AllSampled, GroupPoints, AnswerFrom, SampledThroughout, Denote, Translate;
    var whole := q.(step := 0);
    SampledAtStart(store, points, q, closed);
    SameGroup(points, q, whole, g);
    StepsAreIncrease(store, points, q, g, closed);
    WholeIsIncrease(store, points, whole, g, closed);
  }

  lemma WholeIsIncrease(store: Store, points: seq<Point>, q: Query, g: Labels, closed: bool)
    requires Scraped(store, points) && q.agg == AggSum && q.step <= 0 && q.metric !in GAUGE_FAMILIES && q.from <= q.to
    requires AllSampled(store, points, q, q.from, q.to - q.from, closed)
    requires AllSampled(store, points, q, q.to, q.to - q.from, closed)
    ensures Translate(q).Success?
    ensures At(Denote(Translate(q).value.expr, store, closed), g) == SumIn(GroupPoints(points, q, g), q.from, q.to)
  {
    assert Translate(q).Success?;
    hide *;
    CounterIsExact(store, points, q, g, closed);
    ReferenceIsIncrease(points, q, g);
  }

  lemma StepsAreIncrease(store: Store, points: seq<Point>, q: Query, g: Labels, closed: bool)
    requires Scraped(store, points) && Aligned(q) && q.metric !in GAUGE_FAMILIES && SampledThroughout(store, points, q, closed)
    ensures SumReadings(AnswerFrom(store, q, g, closed, q.from)) == SumIn(GroupPoints(points, q, g), q.from, q.to)
  {
    hide Scraped, SampledThroughout, GroupSeries, GroupPoints, True, AnswerFrom, ShownAt;
    StepsTelescope(store, points, q, g, closed, q.from);
    ShownIsTrue(store, points, q, g, closed, q.from);
    ShownIsTrue(store, points, q, g, closed, q.to);
    TrueIncrease(points, q, g, q.from, q.to);
  }

  lemma SampledAtStart(store: Store, points: seq<Point>, q: Query, closed: bool)
    requires Aligned(q) && SampledThroughout(store, points, q, closed)
    requires AllSampled(store, points, q, q.to, q.to - q.from, closed)
    ensures AllSampled(store, points, q.(step := 0), q.from, q.to - q.from, closed)
    ensures AllSampled(store, points, q.(step := 0), q.to, q.to - q.from, closed)
  {
    AnchoredLookback(q, q.from);
    OneLookbackSuffices(store, points, q, closed, q.from);
    forall id | Selects(q.(step := 0), id)
      ensures Selects(q, id)
    {
    }
  }

  lemma {:induction false} SameGroup(points: seq<Point>, q: Query, q': Query, g: Labels)
    requires q' == q.(step := q'.step)
    ensures GroupPoints(points, q', g) == GroupPoints(points, q, g)
  {
    if points != [] {
      SameGroup(points[..|points| - 1], q, q', g);
    }
  }

  /** A sampled store answers a stepped counter query with the reference's own
      points, less those that are zero. */
  lemma {:induction false} SteppedCounterIsExact(store: Store, points: seq<Point>, q: Query, g: Labels, closed: bool, start: int)
    requires Scraped(store, points) && Aligned(q) && OnGrid(q, start) && q.metric !in GAUGE_FAMILIES
    requires q.agg == AggSum && SampledThroughout(store, points, q, closed)
    ensures AnswerFrom(store, q, g, closed, start) == NonZero(BucketsFrom(GroupPoints(points, q, g), q, start))
    decreases q.to - start
  {
    hide Denote, Scraped, SampledThroughout, GroupPoints, BucketExpr;
    if start < q.to {
      var mine, end := GroupPoints(points, q, g), BucketEnd(q, start);
      CounterBucketIsExact(store, points, q, g, closed, start);
      NextOnGrid(q, start);
      if CountIn(mine, start, end) == 0 {
        NoneInNoSum(mine, start, end);
      }
      NonZeroStamped(start, BucketValue(mine, start, end, q.agg, false), BucketsFrom(mine, q, start + q.step));
      if start + q.step < q.to {
        SteppedCounterIsExact(store, points, q, g, closed, start + q.step);
      }
    }
  }

  lemma {:induction false} PositivePointsCount(points: seq<Point>, from: int, to: int)
    requires forall p :: p in points ==> p.value > 0
    ensures SumIn(points, from, to) >= CountIn(points, from, to)
  {
    if points != [] {
      assert points[|points| - 1] in points;
      PositivePointsCount(points[..|points| - 1], from, to);
    }
  }

  /** Increments that are never zero leave nothing to drop. */
  lemma {:induction false} NothingIsDropped(points: seq<Point>, q: Query, start: int)
    requires q.step > 0 && q.agg == AggSum && q.metric !in GAUGE_FAMILIES
    requires forall p :: p in points ==> p.value > 0
    ensures NonZero(BucketsFrom(points, q, start)) == BucketsFrom(points, q, start)
    decreases q.to - start
  {
    if start < q.to {
      NothingIsDropped(points, q, start + q.step);
      var end := BucketEnd(q, start);
      PositivePointsCount(points, start, end);
      NonZeroStamped(start, BucketValue(points, start, end, q.agg, false), BucketsFrom(points, q, start + q.step));
    }
  }

  lemma GaugeBucketIsExact(store: Store, points: seq<Point>, q: Query, g: Labels, closed: bool, start: int)
    requires Scraped(store, points) && Aligned(q) && OnGrid(q, start) && start < q.to && q.metric in GAUGE_FAMILIES
    requires q.agg == AggSum && SampledThroughout(store, points, q, closed)
    ensures Stamped(start, BucketValue(GroupPoints(points, q, g), start, BucketEnd(q, start), q.agg, true))
         == Kept1(start, Denote(BucketExpr(q, start), store, closed), g, true)
  {
    hide Denote, Scraped, SampledThroughout, AllSampled, GroupSeries, GroupPoints;
    var end := BucketEnd(q, start);
    NextOnGrid(q, start);
    AnchoredLookback(q, end);
    OneLookbackSuffices(store, points, q, closed, end);
    BoundaryIsSum(store, points, q, g, end - Anchor(q), end, closed);
    NothingHidden(store, points, q, g, end, end - Anchor(q), closed);
    GaugeTotal(points, q, g, end);
  }

  /** ... and a stepped gauge query with exactly the reference's points. */
  lemma {:induction false} SteppedGaugeIsExact(store: Store, points: seq<Point>, q: Query, g: Labels, closed: bool, start: int)
    requires Scraped(store, points) && Aligned(q) && OnGrid(q, start) && q.metric in GAUGE_FAMILIES
    requires q.agg == AggSum && SampledThroughout(store, points, q, closed)
    ensures AnswerFrom(store, q, g, closed, start) == BucketsFrom(GroupPoints(points, q, g), q, start)
    decreases q.to - start
  {
    hide Denote, Scraped, SampledThroughout, GroupPoints, BucketExpr;
    if start < q.to {
      GaugeBucketIsExact(store, points, q, g, closed, start);
      NextOnGrid(q, start);
      if start + q.step < q.to {
        SteppedGaugeIsExact(store, points, q, g, closed, start + q.step);
      }
    }
  }

  /** The two adapters agree on whole answers: what merging a sampled backend's
      bucket vectors returns is what the reference returns, group by group. */
  lemma SteppedAgrees(store: Store, points: seq<Point>, q: Query, g: Labels, closed: bool)
    requires Scraped(store, points) && Aligned(q) && q.agg == AggSum && SampledThroughout(store, points, q, closed)
    requires forall p :: p in points && Kept(q, p) && q.metric !in GAUGE_FAMILIES ==> p.value > 0
    ensures var buckets := SteppedFrom(q, q.from);
            Merged(buckets, Vectors(buckets, store, closed), g, q.metric in GAUGE_FAMILIES)
              == BucketPoints(GroupPoints(points, q, g), q)
  {
    hide Denote, Scraped, SampledThroughout;
    MergeIsAnswer(store, q, g, closed, q.from);
    if q.metric in GAUGE_FAMILIES {
      SteppedGaugeIsExact(store, points, q, g, closed, q.from);
    } else {
      SteppedCounterIsExact(store, points, q, g, closed, q.from);
      GroupHasPoints(points, q, g);
      NothingIsDropped(GroupPoints(points, q, g), q, q.from);
    }
  }
}
