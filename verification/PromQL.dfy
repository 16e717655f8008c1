/** Queries compiled to PromQL (adapters/query/promql/translate.go) and what they
    mean over a scraped backend. Instants are milliseconds. */
module PromQL {
  import opened Wrappers
  import opened FiniteSums
  import opened Memq

  // ---- the target language ----

  /** The fragment the compiler emits. SumLast is
      `sum by(...) (last_over_time(metric{filters}[lookback] @ at))`. */
  datatype Expr =
    | SumLast(groupBy: seq<string>, metric: string, filters: Labels, lookback: int, at: int)
    | Minus(left: Expr, right: Expr)
    | Or(left: Expr, right: Expr)
    | TimesZero(arg: Expr)

  datatype SeriesId = SeriesId(name: string, labels: Labels)

  datatype Sample = Sample(at: int, value: int)

  /** What the backend scraped of each series, oldest first. */
  type Store = map<SeriesId, seq<Sample>>

  type Vector = map<Labels, int>

  /** The lookback ends at the evaluation instant; whether it includes its own
      far end depends on the backend's version. */
  predicate InLookback(t: int, at: int, lookback: int, closed: bool) {
    t <= at && (if closed then at - lookback <= t else at - lookback < t)
  }

  /** The latest sample in the lookback. */
  function LastOverTime(samples: seq<Sample>, at: int, lookback: int, closed: bool): Option<int> {
    if samples == [] then None
    else if InLookback(samples[|samples| - 1].at, at, lookback, closed) then Some(samples[|samples| - 1].value)
    else LastOverTime(samples[..|samples| - 1], at, lookback, closed)
  }

  /** An absent label reads as the empty text, to a matcher and to `by`. */
  function TextOf(labels: Labels, k: string): string { if k in labels then labels[k] else "" }

  predicate MatchersHold(labels: Labels, matchers: Labels) {
    forall m :: m in matchers.Items ==> TextOf(labels, m.0) == m.1
  }

  function ByLabels(labels: Labels, groupBy: seq<string>): Labels {
    map k | k in groupBy :: TextOf(labels, k)
  }

  /** The backend selects and groups as the in-memory reference does. */
  lemma SelectorsAgree(labels: Labels, filters: Labels, groupBy: seq<string>)
    ensures MatchersHold(labels, filters) <==> MatchFilters(labels, filters)
    ensures ByLabels(labels, groupBy) == GroupKey(labels, groupBy)
  {
    if MatchersHold(labels, filters) {
      forall k | k in filters
        ensures Label(labels, k) == filters[k]
      {
        assert (k, filters[k]) in filters.Items;
      }
    }
  }

  predicate Matches(e: Expr, id: SeriesId)
    requires e.SumLast?
  {
    id.name == e.metric && MatchersHold(id.labels, e.filters)
  }

  /** The series an aggregation sees in a group, each with its value. */
  function Seen(e: Expr, store: Store, closed: bool, g: Labels): map<SeriesId, int>
    requires e.SumLast?
  {
    map id | && id in store && Matches(e, id) && ByLabels(id.labels, e.groupBy) == g
             && LastOverTime(store[id], e.at, e.lookback, closed).Some?
      :: LastOverTime(store[id], e.at, e.lookback, closed).value
  }

  ghost function Denote(e: Expr, store: Store, closed: bool): Vector {
    match e
    case SumLast(groupBy, metric, filters, lookback, at) =>
      map g | g in (set id | id in store && Matches(e, id) :: ByLabels(id.labels, groupBy)) && Seen(e, store, closed, g) != map[]
        :: Sum(Seen(e, store, closed, g))
    case Minus(left, right) =>
      var l, r := Denote(left, store, closed), Denote(right, store, closed);
      map g | g in l && g in r :: l[g] - r[g]
    case Or(left, right) =>
      var l, r := Denote(left, store, closed), Denote(right, store, closed);
      r + l
    case TimesZero(arg) =>
      var v := Denote(arg, store, closed);
      map g | g in v :: 0
  }

  // ---- the compiler ----

  datatype PromExpr = PromExpr(expr: Expr, at: int)

  datatype TranslateError = CountUnsupported | WrongStep

  /** Durations are rendered in whole seconds, at least one. */
  function WholeSeconds(d: int): (r: int)
    ensures r >= 1000 && r % 1000 == 0 && if d < 1000 then r == 1000 else r <= d < r + 1000
  {
    if d < 1000 then 1000 else d / 1000 * 1000
  }

  /** The levels one millisecond before an instant: exactly those before it. */
  function Boundary(q: Query, span: int, b: int): Expr {
    SumLast(q.groupBy, q.metric, q.filters, WholeSeconds(span), b - 1)
  }

  /** The end less the start, a group missing at the start counting from zero. */
  function Difference(end: Expr, start: Expr): Expr {
    Minus(end, Or(start, TimesZero(end)))
  }

  function Translate(q: Query): Result<PromExpr, TranslateError> {
    if q.agg == AggCount then Failure(CountUnsupported)
    else if q.step > 0 then Failure(WrongStep)
    else
      var end, start := Boundary(q, q.to - q.from, q.to), Boundary(q, q.to - q.from, q.from);
      Success(PromExpr(if q.metric in GAUGE_FAMILIES then end else Difference(end, start), q.to - 1))
  }

  // ---- what a scraped backend holds ----

  function SeriesOf(p: Point): SeriesId { SeriesId(p.name, p.labels) }

  predicate Before(p: Point, id: SeriesId, b: int) { SeriesOf(p) == id && p.at < b }

  ghost predicate Born(points: seq<Point>, id: SeriesId, b: int) {
    exists p :: p in points && Before(p, id, b)
  }

  /** All a counter series counted before an instant. */
  function Total(points: seq<Point>, id: SeriesId, b: int): int {
    if points == [] then 0 else
      var p := points[|points| - 1];
      Total(points[..|points| - 1], id, b) + if Before(p, id, b) then p.value else 0
  }

  /** The last level a gauge series was set to before an instant. */
  function LastSet(points: seq<Point>, id: SeriesId, b: int): Option<Reading> {
    if points == [] then None else
      var last, p := LastSet(points[..|points| - 1], id, b), points[|points| - 1];
      if Before(p, id, b) && (last.Some? ==> last.value.at < p.at) then Some(Reading(p.at, p.value)) else last
  }

  function LevelBefore(points: seq<Point>, id: SeriesId, b: int): int {
    var last := LastSet(points, id, b);
    if last.Some? then last.value.value else 0
  }

  function ValueAt(points: seq<Point>, id: SeriesId, b: int): int {
    if id.name in GAUGE_FAMILIES then LevelBefore(points, id, b) else Total(points, id, b)
  }

  predicate InTimeOrder(samples: seq<Sample>) {
    forall i, j :: 0 <= i < j < |samples| ==> samples[i].at < samples[j].at
  }

  /** Every sample shows its series as it stood at that instant. */
  ghost predicate Truthful(samples: seq<Sample>, points: seq<Point>, id: SeriesId) {
    && InTimeOrder(samples)
    && forall i :: 0 <= i < |samples| ==>
                     Born(points, id, samples[i].at + 1) && samples[i].value == ValueAt(points, id, samples[i].at + 1)
  }

  ghost predicate Scraped(store: Store, points: seq<Point>) {
    forall id :: id in store ==> Truthful(store[id], points, id)
  }

  /** A boundary sees a series fully: it was sampled at every change before the
      boundary, and at least once in the lookback. */
  ghost predicate Dense(samples: seq<Sample>, points: seq<Point>, id: SeriesId, b: int, lookback: int, closed: bool) {
    && (forall p :: p in points && Before(p, id, b) ==> SampledAt(samples, p.at))
    && exists i :: 0 <= i < |samples| && InLookback(samples[i].at, b - 1, lookback, closed)
  }

  ghost predicate Sampled(store: Store, points: seq<Point>, id: SeriesId, b: int, lookback: int, closed: bool) {
    Born(points, id, b) ==> id in store && Dense(store[id], points, id, b, lookback, closed)
  }

  predicate SampledAt(samples: seq<Sample>, t: int) {
    exists i :: 0 <= i < |samples| && samples[i].at == t
  }

  /** Which sample a lookback reads: one inside it with nothing newer before the
      instant. */
  lemma {:induction false} ReadSample(samples: seq<Sample>, at: int, lookback: int, closed: bool) returns (k: nat)
    requires InTimeOrder(samples) && LastOverTime(samples, at, lookback, closed).Some?
    ensures k < |samples| && samples[k].value == LastOverTime(samples, at, lookback, closed).value
    ensures InLookback(samples[k].at, at, lookback, closed)
    ensures forall j :: k < j < |samples| ==> samples[j].at > at
  {
    var n := |samples| - 1;
    if InLookback(samples[n].at, at, lookback, closed) {
      k := n;
    } else {
      k := ReadSample(samples[..n], at, lookback, closed);
      assert samples[n].at > samples[k].at;
    }
  }

  lemma {:induction false} SampleIsRead(samples: seq<Sample>, at: int, lookback: int, closed: bool, i: nat)
    requires i < |samples| && InLookback(samples[i].at, at, lookback, closed)
    ensures LastOverTime(samples, at, lookback, closed).Some?
  {
    if i < |samples| - 1 {
      SampleIsRead(samples[..|samples| - 1], at, lookback, closed, i);
    }
  }

  // ---- values between samples ----

  ghost predicate Quiet(points: seq<Point>, id: SeriesId, a: int, b: int) {
    forall p :: p in points && SeriesOf(p) == id ==> !(a <= p.at < b)
  }

  lemma {:induction false} QuietTotal(points: seq<Point>, id: SeriesId, a: int, b: int)
    requires a <= b && Quiet(points, id, a, b)
    ensures Total(points, id, a) == Total(points, id, b)
  {
    if points != [] {
      assert points[|points| - 1] in points;
      QuietTotal(points[..|points| - 1], id, a, b);
    }
  }

  lemma {:induction false} QuietLevel(points: seq<Point>, id: SeriesId, a: int, b: int)
    requires a <= b && Quiet(points, id, a, b)
    ensures LastSet(points, id, a) == LastSet(points, id, b)
  {
    if points != [] {
      assert points[|points| - 1] in points;
      QuietLevel(points[..|points| - 1], id, a, b);
    }
  }

  lemma QuietValue(points: seq<Point>, id: SeriesId, a: int, b: int)
    requires a <= b && Quiet(points, id, a, b)
    ensures ValueAt(points, id, a) == ValueAt(points, id, b)
  {
    QuietTotal(points, id, a, b);
    QuietLevel(points, id, a, b);
  }

  lemma QuietSinceSample(points: seq<Point>, samples: seq<Sample>, id: SeriesId, b: int, k: nat)
    requires k < |samples| && InTimeOrder(samples) && samples[k].at < b
    requires forall j :: k < j < |samples| ==> samples[j].at >= b
    requires forall p :: p in points && Before(p, id, b) ==> SampledAt(samples, p.at)
    ensures Quiet(points, id, samples[k].at + 1, b)
  {
    forall p | p in points && SeriesOf(p) == id
      ensures !(samples[k].at + 1 <= p.at < b)
    {
      if p.at < b {
        assert Before(p, id, b);
        var i :| 0 <= i < |samples| && samples[i].at == p.at;
      }
    }
  }

  /** A series sampled densely is seen with its true value. */
  lemma DenseIsSeen(samples: seq<Sample>, points: seq<Point>, id: SeriesId, b: int, lookback: int, closed: bool)
    requires Truthful(samples, points, id) && Dense(samples, points, id, b, lookback, closed)
    ensures LastOverTime(samples, b - 1, lookback, closed) == Some(ValueAt(points, id, b))
  {
    var i :| 0 <= i < |samples| && InLookback(samples[i].at, b - 1, lookback, closed);
    SampleIsRead(samples, b - 1, lookback, closed, i);
    var k := ReadSample(samples, b - 1, lookback, closed);
    QuietSinceSample(points, samples, id, b, k);
    QuietValue(points, id, samples[k].at + 1, b);
  }

  /** Nothing is seen of a series before its first point. */
  lemma SeenIsBorn(samples: seq<Sample>, points: seq<Point>, id: SeriesId, b: int, lookback: int, closed: bool)
    requires Truthful(samples, points, id) && LastOverTime(samples, b - 1, lookback, closed).Some?
    ensures Born(points, id, b)
  {
    var k := ReadSample(samples, b - 1, lookback, closed);
    var p :| p in points && Before(p, id, samples[k].at + 1);
    assert Before(p, id, b);
  }
}
