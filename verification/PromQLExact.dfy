/** When a compiled query answers what the in-memory reference answers
    (adapters/query/promql/translate.go, query/memq/memq.go). */
module PromQLExact {
  import opened Wrappers
  import opened FiniteSums
  import opened Memq
  import opened PromQL

  predicate Selects(q: Query, id: SeriesId) {
    id.name == q.metric && MatchFilters(id.labels, q.filters)
  }

  /** The series that make up a group. */
  ghost function GroupSeries(points: seq<Point>, q: Query, g: Labels): set<SeriesId> {
    set p | p in points && Selects(q, SeriesOf(p)) && GroupKey(p.labels, q.groupBy) == g :: SeriesOf(p)
  }

  function At(v: Vector, g: Labels): int { if g in v then v[g] else 0 }

  // ---- one boundary ----

  /** What a lookback shows of a series, nothing counting as zero. */
  function ShownOf(store: Store, id: SeriesId, b: int, lookback: int, closed: bool): int {
    if id in store then
      var v := LastOverTime(store[id], b - 1, lookback, closed);
      if v.Some? then v.value else 0
    else 0
  }

  ghost function Shown(store: Store, ids: set<SeriesId>, b: int, lookback: int, closed: bool): int {
    Sum(map id | id in ids :: ShownOf(store, id, b, lookback, closed))
  }

  ghost function True(points: seq<Point>, ids: set<SeriesId>, b: int): int {
    Sum(map id | id in ids :: ValueAt(points, id, b))
  }

  /** Some series of the group is visible at the boundary. */
  ghost predicate Visible(store: Store, ids: set<SeriesId>, b: int, lookback: int, closed: bool) {
    exists id :: id in ids && id in store && LastOverTime(store[id], b - 1, lookback, closed).Some?
  }

  lemma SeenIsInGroup(store: Store, points: seq<Point>, q: Query, g: Labels, span: int, b: int, closed: bool, id: SeriesId)
    requires Scraped(store, points) && id in Seen(Boundary(q, span, b), store, closed, g)
    ensures id in GroupSeries(points, q, g)
  {
    SelectorsAgree(id.labels, q.filters, q.groupBy);
    SeenIsBorn(store[id], points, id, b, WholeSeconds(span), closed);
    var p :| p in points && Before(p, id, b);
    assert SeriesOf(p) == id;
  }

  /** A boundary expression denotes, for a group, the sum of what is shown. */
  lemma BoundaryIsSum(store: Store, points: seq<Point>, q: Query, g: Labels, span: int, b: int, closed: bool)
    requires Scraped(store, points)
    ensures var v, ids := Denote(Boundary(q, span, b), store, closed), GroupSeries(points, q, g);
            && (g in v <==> Visible(store, ids, b, WholeSeconds(span), closed))
            && At(v, g) == Shown(store, ids, b, WholeSeconds(span), closed)
  {
    var e, ids, lookback := Boundary(q, span, b), GroupSeries(points, q, g), WholeSeconds(span);
    var seen := Seen(e, store, closed, g);
    forall id | id in seen
      ensures id in ids
    {
      SeenIsInGroup(store, points, q, g, span, b, closed, id);
    }
    forall id | id in ids && id in store && LastOverTime(store[id], b - 1, lookback, closed).Some?
      ensures id in seen
    {
      SelectorsAgree(id.labels, q.filters, q.groupBy);
    }
    SumPadded(map id | id in ids :: ShownOf(store, id, b, lookback, closed), seen);
    PresentIfSeen(e, store, closed, g);
  }

  lemma PresentIfSeen(e: Expr, store: Store, closed: bool, g: Labels)
    requires e.SumLast?
    ensures g in Denote(e, store, closed) <==> Seen(e, store, closed, g) != map[]
    ensures g in Denote(e, store, closed) ==> Denote(e, store, closed)[g] == Sum(Seen(e, store, closed, g))
  {
    if Seen(e, store, closed, g) != map[] {
      var id :| id in Seen(e, store, closed, g);
      assert ByLabels(id.labels, e.groupBy) == g;
    }
  }

  // ---- the counter expression ----

  lemma DifferenceMeans(end: Expr, start: Expr, store: Store, closed: bool, g: Labels)
    ensures var v, e, s := Denote(Difference(end, start), store, closed), Denote(end, store, closed), Denote(start, store, closed);
            && (g in v <==> g in e)
            && (g in v ==> v[g] == e[g] - At(s, g))
  {
    assert Denote(Or(start, TimesZero(end)), store, closed)
        == Denote(TimesZero(end), store, closed) + Denote(start, store, closed);
  }

  /** For any store, however badly sampled: what the difference of two boundaries
      denotes. */
  lemma DifferenceDenotes(store: Store, points: seq<Point>, q: Query, g: Labels,
                          s0: int, b0: int, s1: int, b1: int, closed: bool)
    requires Scraped(store, points)
    ensures var v, ids := Denote(Difference(Boundary(q, s1, b1), Boundary(q, s0, b0)), store, closed), GroupSeries(points, q, g);
            && (g in v <==> Visible(store, ids, b1, WholeSeconds(s1), closed))
            && (g in v ==> v[g] == Shown(store, ids, b1, WholeSeconds(s1), closed)
                                   - Shown(store, ids, b0, WholeSeconds(s0), closed))
  {
    var end, start := Boundary(q, s1, b1), Boundary(q, s0, b0);
    BoundaryIsSum(store, points, q, g, s1, b1, closed);
    BoundaryIsSum(store, points, q, g, s0, b0, closed);
    DifferenceMeans(end, start, store, closed, g);
  }

  // ---- the true increase ----

  ghost function Increases(points: seq<Point>, ids: set<SeriesId>, b0: int, b1: int): map<SeriesId, int> {
    map id | id in ids :: Total(points, id, b1) - Total(points, id, b0)
  }

  lemma OneMoreIncrease(points: seq<Point>, p: Point, ids: set<SeriesId>, b0: int, b1: int)
    requires b0 <= b1
    ensures Sum(Increases(points + [p], ids, b0, b1))
         == Sum(Increases(points, ids, b0, b1)) + if SeriesOf(p) in ids && b0 <= p.at < b1 then p.value else 0
  {
    var was, now, id := Increases(points, ids, b0, b1), Increases(points + [p], ids, b0, b1), SeriesOf(p);
    assert (points + [p])[..|points|] == points;
    if id in ids && b0 <= p.at < b1 {
      assert now == was[id := was[id] + p.value];
      SumUpdate(was, id, was[id] + p.value);
    } else {
      assert now == was;
    }
  }

  lemma OneMoreInGroup(points: seq<Point>, p: Point, q: Query, g: Labels, b0: int, b1: int)
    ensures SumIn(GroupPoints(points + [p], q, g), b0, b1)
         == SumIn(GroupPoints(points, q, g), b0, b1) + if InGroup(q, p, g) && b0 <= p.at < b1 then p.value else 0
  {
    var before := GroupPoints(points, q, g);
    GroupPointsGrow(points, p, q, g);
    assert (before + [p])[..|before|] == before;
  }

  /** Summing per series or per point is the same. */
  lemma {:induction false} IncreaseBySeries(points: seq<Point>, q: Query, g: Labels, ids: set<SeriesId>, b0: int, b1: int)
    requires q.metric !in GAUGE_FAMILIES && q.from <= b0 <= b1 <= q.to
    requires forall p :: p in points ==>
               (SeriesOf(p) in ids <==> Selects(q, SeriesOf(p)) && GroupKey(p.labels, q.groupBy) == g)
    ensures Sum(Increases(points, ids, b0, b1)) == SumIn(GroupPoints(points, q, g), b0, b1)
  {
    if points == [] {
      AllZero(Increases(points, ids, b0, b1));
    } else {
      var init, p := points[..|points| - 1], points[|points| - 1];
      assert points == init + [p];
      assert p in points;
      IncreaseBySeries(init, q, g, ids, b0, b1);
      OneMoreIncrease(init, p, ids, b0, b1);
      OneMoreInGroup(init, p, q, g, b0, b1);
    }
  }

  lemma {:induction false} AllZero<K>(m: map<K, int>)
    requires forall k :: k in m ==> m[k] == 0
    ensures Sum(m) == 0
  {
    SumPadded(m, map[]);
  }

  lemma TrueIncrease(points: seq<Point>, q: Query, g: Labels, b0: int, b1: int)
    requires q.metric !in GAUGE_FAMILIES && q.from <= b0 <= b1 <= q.to
    ensures var ids := GroupSeries(points, q, g);
            True(points, ids, b1) - True(points, ids, b0) == SumIn(GroupPoints(points, q, g), b0, b1)
  {
    var ids := GroupSeries(points, q, g);
    forall p | p in points
      ensures SeriesOf(p) in ids <==> Selects(q, SeriesOf(p)) && GroupKey(p.labels, q.groupBy) == g
    {
    }
    IncreaseBySeries(points, q, g, ids, b0, b1);
    SumDifference(map id | id in ids :: ValueAt(points, id, b1), map id | id in ids :: ValueAt(points, id, b0),
                  Increases(points, ids, b0, b1));
  }

  // ---- how far off an answer is ----

  /** What a boundary fails to show of a group. */
  ghost function Hidden(store: Store, points: seq<Point>, ids: set<SeriesId>, b: int, lookback: int, closed: bool): int {
    True(points, ids, b) - Shown(store, ids, b, lookback, closed)
  }

  /** For every store: the compiled counter query is off by exactly what its start
      hides less what its end hides. */
  lemma CounterError(store: Store, points: seq<Point>, q: Query, g: Labels, closed: bool)
    requires Scraped(store, points) && q.agg == AggSum && q.step <= 0 && q.metric !in GAUGE_FAMILIES && q.from <= q.to
    ensures Translate(q).Success?
    ensures var v := Denote(Translate(q).value.expr, store, closed);
            var ids, lookback := GroupSeries(points, q, g), WholeSeconds(q.to - q.from);
            var increase := SumIn(GroupPoints(points, q, g), q.from, q.to);
            var hiddenFrom := Hidden(store, points, ids, q.from, lookback, closed);
            var hiddenTo := Hidden(store, points, ids, q.to, lookback, closed);
            && (g in v <==> Visible(store, ids, q.to, lookback, closed))
            && (g in v ==> v[g] == increase + hiddenFrom - hiddenTo)
            && (At(v, g) == increase <==> if g in v then hiddenFrom == hiddenTo else increase == 0)
  {
    var span := q.to - q.from;
    DifferenceDenotes(store, points, q, g, span, q.from, span, q.to, closed);
    TrueIncrease(points, q, g, q.from, q.to);
    assert Translate(q).value.expr == Difference(Boundary(q, span, q.to), Boundary(q, span, q.from));
    hide Denote, GroupSeries, GroupPoints, Shown, Visible, True, Scraped, Difference, Boundary, Translate, SumIn, WholeSeconds;
  }

  // ---- what sampling hides ----

  /** No sample of the series is in the boundary's lookback. */
  predicate Stale(store: Store, id: SeriesId, b: int, lookback: int, closed: bool) {
    id !in store || forall i :: 0 <= i < |store[id]| ==> !InLookback(store[id][i].at, b - 1, lookback, closed)
  }

  ghost predicate SampledAtChanges(store: Store, points: seq<Point>, q: Query, b: int) {
    forall id, p :: Selects(q, id) && p in points && Before(p, id, b) ==> id in store && SampledAt(store[id], p.at)
  }

  /** The values of the group's series that the boundary has no sample of. */
  ghost function StaleTotal(store: Store, points: seq<Point>, ids: set<SeriesId>, b: int, lookback: int, closed: bool): int {
    Sum(map id | id in ids && Stale(store, id, b, lookback, closed) :: ValueAt(points, id, b))
  }

  lemma {:induction false} StaleIsUnseen(samples: seq<Sample>, at: int, lookback: int, closed: bool)
    requires forall i :: 0 <= i < |samples| ==> !InLookback(samples[i].at, at, lookback, closed)
    ensures LastOverTime(samples, at, lookback, closed).None?
  {
    if samples != [] {
      StaleIsUnseen(samples[..|samples| - 1], at, lookback, closed);
    }
  }

  /** Sampled at each change, a series is seen in full or, being stale, not at all. */
  lemma SeenUnlessStale(store: Store, points: seq<Point>, q: Query, id: SeriesId, b: int, lookback: int, closed: bool)
    requires Scraped(store, points) && Selects(q, id) && SampledAtChanges(store, points, q, b)
    ensures ShownOf(store, id, b, lookback, closed)
         == if Stale(store, id, b, lookback, closed) then 0 else ValueAt(points, id, b)
    ensures id in store && LastOverTime(store[id], b - 1, lookback, closed).Some? <==> !Stale(store, id, b, lookback, closed)
  {
    if Stale(store, id, b, lookback, closed) {
      if id in store {
        StaleIsUnseen(store[id], b - 1, lookback, closed);
      }
    } else {
      assert Dense(store[id], points, id, b, lookback, closed);
      DenseIsSeen(store[id], points, id, b, lookback, closed);
    }
  }

  /** Sampled at each change, a boundary hides exactly the stale series. */
  lemma HiddenIsStale(store: Store, points: seq<Point>, q: Query, g: Labels, b: int, lookback: int, closed: bool)
    requires Scraped(store, points) && SampledAtChanges(store, points, q, b)
    ensures var ids := GroupSeries(points, q, g);
            && Hidden(store, points, ids, b, lookback, closed) == StaleTotal(store, points, ids, b, lookback, closed)
            && (Visible(store, ids, b, lookback, closed) <==> exists id :: id in ids && !Stale(store, id, b, lookback, closed))
  {
    var ids := GroupSeries(points, q, g);
    forall id | id in ids
      ensures ShownOf(store, id, b, lookback, closed) == if Stale(store, id, b, lookback, closed) then 0 else ValueAt(points, id, b)
      ensures id in store && LastOverTime(store[id], b - 1, lookback, closed).Some? <==> !Stale(store, id, b, lookback, closed)
    {
      hide Stale, ShownOf, ValueAt, LastOverTime;
      SeenUnlessStale(store, points, q, id, b, lookback, closed);
    }
    hide Stale, ValueAt, GroupSeries, ShownOf, LastOverTime, SampledAtChanges, Scraped;
    GapIsStale(store, points, ids, b, lookback, closed);
  }

  lemma GapIsStale(store: Store, points: seq<Point>, ids: set<SeriesId>, b: int, lookback: int, closed: bool)
    requires forall id :: id in ids ==>
               ShownOf(store, id, b, lookback, closed) == if Stale(store, id, b, lookback, closed) then 0 else ValueAt(points, id, b)
    ensures Hidden(store, points, ids, b, lookback, closed) == StaleTotal(store, points, ids, b, lookback, closed)
  {
    hide Stale, ValueAt, ShownOf;
    var shown, values := map id | id in ids :: ShownOf(store, id, b, lookback, closed), map id | id in ids :: ValueAt(points, id, b);
    var gap := map id | id in ids :: if Stale(store, id, b, lookback, closed) then ValueAt(points, id, b) else 0;
    SumDifference(values, shown, gap);
    SumPadded(gap, map id | id in ids && Stale(store, id, b, lookback, closed) :: ValueAt(points, id, b));
  }

  /** Sampled at each change: the compiled counter query counts again the series it
      has no sample of around its start, and misses those it has none of around its
      end. It answers for a group exactly if some series has a sample there, and is
      then right exactly if the two outweigh each other. */
  lemma CounterErrorIsStale(store: Store, points: seq<Point>, q: Query, g: Labels, closed: bool)
    requires Scraped(store, points) && q.agg == AggSum && q.step <= 0 && q.metric !in GAUGE_FAMILIES && q.from <= q.to
    requires SampledAtChanges(store, points, q, q.to)
    ensures Translate(q).Success?
    ensures var v := Denote(Translate(q).value.expr, store, closed);
            var ids, lookback := GroupSeries(points, q, g), WholeSeconds(q.to - q.from);
            var increase := SumIn(GroupPoints(points, q, g), q.from, q.to);
            var again := StaleTotal(store, points, ids, q.from, lookback, closed);
            var missed := StaleTotal(store, points, ids, q.to, lookback, closed);
            && (g in v <==> exists id :: id in ids && !Stale(store, id, q.to, lookback, closed))
            && (g in v ==> v[g] == increase + again - missed)
            && (At(v, g) == increase <==> if g in v then again == missed else increase == 0)
  {
    var lookback := WholeSeconds(q.to - q.from);
    assert SampledAtChanges(store, points, q, q.from) by {
      ChangesBefore(store, points, q, q.from, q.to);
    }
    HiddenIsStale(store, points, q, g, q.from, lookback, closed);
    HiddenIsStale(store, points, q, g, q.to, lookback, closed);
    hide Scraped, SampledAtChanges, Denote, GroupSeries, Stale, Hidden, StaleTotal, Visible;
    CounterError(store, points, q, g, closed);
  }

  lemma ChangesBefore(store: Store, points: seq<Point>, q: Query, a: int, b: int)
    requires a <= b && SampledAtChanges(store, points, q, b)
    ensures SampledAtChanges(store, points, q, a)
  {
    forall id, p | Selects(q, id) && p in points && Before(p, id, a)
      ensures id in store && SampledAt(store[id], p.at)
    {
      assert Before(p, id, b);
    }
  }

  // ---- when nothing is hidden ----

  ghost predicate AllSampled(store: Store, points: seq<Point>, q: Query, b: int, span: int, closed: bool) {
    forall id :: Selects(q, id) ==> Sampled(store, points, id, b, WholeSeconds(span), closed)
  }

  lemma {:induction false} UnbornIsZero(points: seq<Point>, id: SeriesId, b: int)
    requires !Born(points, id, b)
    ensures Total(points, id, b) == 0 && LastSet(points, id, b) == None
  {
    if points != [] {
      var init, p := points[..|points| - 1], points[|points| - 1];
      assert p in points && !Before(p, id, b);
      assert forall x :: x in init ==> x in points;
      UnbornIsZero(init, id, b);
    }
  }

  lemma SampledShowsAll(store: Store, points: seq<Point>, q: Query, id: SeriesId, b: int, span: int, closed: bool)
    requires Scraped(store, points) && Selects(q, id) && AllSampled(store, points, q, b, span, closed)
    ensures ShownOf(store, id, b, WholeSeconds(span), closed) == ValueAt(points, id, b)
    ensures Born(points, id, b) <==>
              id in store && LastOverTime(store[id], b - 1, WholeSeconds(span), closed).Some?
  {
    if Born(points, id, b) {
      assert Sampled(store, points, id, b, WholeSeconds(span), closed);
      DenseIsSeen(store[id], points, id, b, WholeSeconds(span), closed);
    } else {
      UnbornIsZero(points, id, b);
      if id in store && LastOverTime(store[id], b - 1, WholeSeconds(span), closed).Some? {
        SeenIsBorn(store[id], points, id, b, WholeSeconds(span), closed);
      }
    }
  }

  lemma NothingHidden(store: Store, points: seq<Point>, q: Query, g: Labels, b: int, span: int, closed: bool)
    requires Scraped(store, points) && AllSampled(store, points, q, b, span, closed)
    ensures var ids := GroupSeries(points, q, g);
            && Shown(store, ids, b, WholeSeconds(span), closed) == True(points, ids, b)
            && (Visible(store, ids, b, WholeSeconds(span), closed) <==> exists id :: id in ids && Born(points, id, b))
  {
    var ids := GroupSeries(points, q, g);
    forall id | id in ids
      ensures ShownOf(store, id, b, WholeSeconds(span), closed) == ValueAt(points, id, b)
      ensures Born(points, id, b) <==>
                id in store && LastOverTime(store[id], b - 1, WholeSeconds(span), closed).Some?
    {
      SampledShowsAll(store, points, q, id, b, span, closed);
    }
    assert (map id | id in ids :: ShownOf(store, id, b, WholeSeconds(span), closed))
        == (map id | id in ids :: ValueAt(points, id, b));
  }

  lemma UnbornGroupCountsNothing(points: seq<Point>, ids: set<SeriesId>, b: int)
    requires forall id :: id in ids ==> id.name !in GAUGE_FAMILIES && !Born(points, id, b)
    ensures True(points, ids, b) == 0
  {
    forall id | id in ids
      ensures ValueAt(points, id, b) == 0
    {
      UnbornIsZero(points, id, b);
    }
    AllZero(map id | id in ids :: ValueAt(points, id, b));
  }

  /** A group in the reference's answer is one with points of its own. */
  lemma {:induction false} GroupHasPoints(points: seq<Point>, q: Query, g: Labels)
    ensures g in Groups(points, q) <==> GroupPoints(points, q, g) != []
    ensures forall p :: p in GroupPoints(points, q, g) ==> p in points && InGroup(q, p, g)
  {
    if points != [] {
      var init, p := points[..|points| - 1], points[|points| - 1];
      assert points == init + [p];
      GroupHasPoints(init, q, g);
      GroupsGrow(init, p, q);
    }
  }

  lemma {:induction false} AllInWindow(points: seq<Point>, from: int, to: int)
    requires forall p :: p in points ==> from <= p.at < to
    ensures CountIn(points, from, to) == |points|
  {
    if points != [] {
      assert points[|points| - 1] in points;
      AllInWindow(points[..|points| - 1], from, to);
    }
  }

  lemma BornLater(points: seq<Point>, id: SeriesId, a: int, b: int)
    requires a <= b && Born(points, id, a)
    ensures Born(points, id, b)
  {
    var p :| p in points && Before(p, id, a);
    assert Before(p, id, b);
  }

  /** What the reference says of a group, zero if it says nothing. */
  ghost function Reference(points: seq<Point>, q: Query, g: Labels): int {
    SumReadings(BucketPoints(GroupPoints(points, q, g), q))
  }

  lemma ReferenceIsIncrease(points: seq<Point>, q: Query, g: Labels)
    requires q.agg == AggSum && q.step <= 0 && q.metric !in GAUGE_FAMILIES
    ensures Reference(points, q, g) == SumIn(GroupPoints(points, q, g), q.from, q.to)
    ensures g in Groups(points, q) ==>
              BucketPoints(GroupPoints(points, q, g), q) == [Reading(q.from, SumIn(GroupPoints(points, q, g), q.from, q.to))]
  {
    var mine := GroupPoints(points, q, g);
    GroupHasPoints(points, q, g);
    AllInWindow(mine, q.from, q.to);
    var sum := SumIn(mine, q.from, q.to);
    if mine == [] {
      assert BucketPoints(mine, q) == [];
    } else {
      assert BucketPoints(mine, q) == [Reading(q.from, sum)];
      assert [Reading(q.from, sum)][1..] == [];
      assert SumReadings([Reading(q.from, sum)]) == sum;
    }
  }

  /** Sampled at every change and once per lookback, the compiled counter query
      denotes the reference's exact sum for every group; a group one of them
      leaves out counts as zero in the other. */
  lemma CounterIsExact(store: Store, points: seq<Point>, q: Query, g: Labels, closed: bool)
    requires Scraped(store, points) && q.agg == AggSum && q.step <= 0 && q.metric !in GAUGE_FAMILIES && q.from <= q.to
    requires AllSampled(store, points, q, q.from, q.to - q.from, closed)
    requires AllSampled(store, points, q, q.to, q.to - q.from, closed)
    ensures At(Denote(Translate(q).value.expr, store, closed), g) == Reference(points, q, g)
  {
    hide Scraped, AllSampled, Denote, GroupSeries, Visible, Reference, SampledAtChanges, Stale, StaleTotal;
    NothingHidden(store, points, q, g, q.from, q.to - q.from, closed);
    NothingHidden(store, points, q, g, q.to, q.to - q.from, closed);
    ExactIfShown(store, points, q, g, closed);
  }

  lemma ExactIfShown(store: Store, points: seq<Point>, q: Query, g: Labels, closed: bool)
    requires Scraped(store, points) && q.agg == AggSum && q.step <= 0 && q.metric !in GAUGE_FAMILIES && q.from <= q.to
    requires var ids, lookback := GroupSeries(points, q, g), WholeSeconds(q.to - q.from);
             && Hidden(store, points, ids, q.from, lookback, closed) == 0
             && Hidden(store, points, ids, q.to, lookback, closed) == 0
             && (Visible(store, ids, q.to, lookback, closed) <==> exists id :: id in ids && Born(points, id, q.to))
    ensures At(Denote(Translate(q).value.expr, store, closed), g) == Reference(points, q, g)
  {
    CounterError(store, points, q, g, closed);
    ReferenceIsIncrease(points, q, g);
    if !exists id :: id in GroupSeries(points, q, g) && Born(points, id, q.to) {
      UnbornGroupHasNoIncrease(points, q, g);
    }
  }

  lemma UnbornGroupHasNoIncrease(points: seq<Point>, q: Query, g: Labels)
    requires q.metric !in GAUGE_FAMILIES && q.from <= q.to
    requires !exists id :: id in GroupSeries(points, q, g) && Born(points, id, q.to)
    ensures SumIn(GroupPoints(points, q, g), q.from, q.to) == 0
  {
    var ids := GroupSeries(points, q, g);
    forall id | id in ids
      ensures !Born(points, id, q.from)
    {
      if Born(points, id, q.from) {
        BornLater(points, id, q.from, q.to);
      }
    }
    UnbornGroupCountsNothing(points, ids, q.to);
    UnbornGroupCountsNothing(points, ids, q.from);
    TrueIncrease(points, q, g, q.from, q.to);
  }

  /** Without a sample in the start's lookback an old counter is counted again. */
  lemma UndersampledCounterOvercounts(name: string, closed: bool) returns (store: Store, points: seq<Point>, q: Query)
    requires name !in GAUGE_FAMILIES
    ensures Scraped(store, points) && q.agg == AggSum && q.step == 0 && q.metric !in GAUGE_FAMILIES && q.from < q.to
    ensures At(Denote(Translate(q).value.expr, store, closed), map[]) == 5 && Reference(points, q, map[]) == 0
  {
    var p, id := Point(name, map[], 5, 0), SeriesId(name, map[]);
    var samples := [Sample(0, 5), Sample(25000, 5)];
    points, q, store := [p], Query(name, AggSum, map[], [], 20000, 30000, 0), map[id := samples];
    StaleSeries(name, closed);
    GroupOfOne(p, q);
    ShownOnce(store, points, q, id, closed);
    ReferenceIsIncrease(points, q, map[]);
  }

  /** ... and a series without a sample in the end's lookback is taken away. */
  lemma UndersampledCounterUndercounts(name: string, closed: bool) returns (store: Store, points: seq<Point>, q: Query)
    requires name !in GAUGE_FAMILIES
    ensures Scraped(store, points) && q.agg == AggSum && q.step == 0 && q.metric !in GAUGE_FAMILIES && q.from < q.to
    ensures SampledAtChanges(store, points, q, q.to)
    ensures At(Denote(Translate(q).value.expr, store, closed), map[]) == -3 && Reference(points, q, map[]) == 2
  {
    LabelsApart();
    var faded, young := SeriesId(name, map["x" := "a"]), SeriesId(name, map["x" := "b"]);
    var p, p' := Point(name, faded.labels, 5, 15000), Point(name, young.labels, 2, 25000);
    points, q := [p, p'], Query(name, AggSum, map[], [], 20000, 30000, 0);
    store := map[faded := [Sample(15000, 5)], young := [Sample(25000, 2)]];
    TwoSeries(p, p', q);
    TwoSampled(store, p, p', q);
    hide *;
    TakenAway(store, points, q, faded, young, closed);
  }

  lemma TakenAway(store: Store, points: seq<Point>, q: Query, faded: SeriesId, young: SeriesId, closed: bool)
    requires Scraped(store, points) && SampledAtChanges(store, points, q, q.to) && GroupSeries(points, q, map[]) == {faded, young}
    requires q.agg == AggSum && q.step == 0 && q.metric !in GAUGE_FAMILIES && q.to == q.from + 10000
    requires !Stale(store, faded, q.from, 10000, closed) && Stale(store, young, q.from, 10000, closed)
    requires Stale(store, faded, q.to, 10000, closed) && !Stale(store, young, q.to, 10000, closed)
    ensures Reference(points, q, map[]) == SumIn(GroupPoints(points, q, map[]), q.from, q.to)
    ensures Translate(q).Success?
    ensures At(Denote(Translate(q).value.expr, store, closed), map[])
         == Reference(points, q, map[]) + ValueAt(points, young, q.from) - ValueAt(points, faded, q.to)
  {
    hide Scraped, SampledAtChanges, GroupSeries, GroupPoints, Denote, Stale, StaleTotal, Reference, ValueAt;
    OneStale(store, points, {faded, young}, young, q.from, closed);
    OneStale(store, points, {faded, young}, faded, q.to, closed);
    CounterErrorIsStale(store, points, q, map[], closed);
    ReferenceIsIncrease(points, q, map[]);
  }

  lemma LabelsApart()
    ensures map["x" := "a"] != map["x" := "b"]
  {
    assert "a"[0] != "b"[0];
    assert map["x" := "a"]["x"] != map["x" := "b"]["x"];
  }

  lemma TotalOfOne(p: Point, id: SeriesId, b: int)
    ensures Total([p], id, b) == if Before(p, id, b) then p.value else 0
  {
    assert [p][..0] == [];
  }

  lemma TotalOfTwo(p: Point, p': Point, id: SeriesId, b: int)
    ensures Total([p, p'], id, b) == (if Before(p, id, b) then p.value else 0) + if Before(p', id, b) then p'.value else 0
  {
    assert [p, p'][..1] == [p];
    TotalOfOne(p, id, b);
  }

  lemma TwoSeries(p: Point, p': Point, q: Query)
    requires SeriesOf(p) != SeriesOf(p') && p.name == p'.name == q.metric && q.metric !in GAUGE_FAMILIES
    requires q.filters == map[] && q.groupBy == [] && p.at < q.from <= p'.at < q.to
    ensures GroupSeries([p, p'], q, map[]) == {SeriesOf(p), SeriesOf(p')}
    ensures SumIn(GroupPoints([p, p'], q, map[]), q.from, q.to) == p'.value
  {
    assert GroupKey(p.labels, []) == map[] && GroupKey(p'.labels, []) == map[];
    assert p in [p, p'] && p' in [p, p'];
    NewPointSums(p, p', q);
    hide GroupPoints, SumIn;
  }

  lemma NewPointSums(p: Point, p': Point, q: Query)
    requires p.name == p'.name == q.metric && q.metric !in GAUGE_FAMILIES
    requires q.filters == map[] && q.groupBy == [] && p.at < q.from <= p'.at < q.to
    ensures SumIn(GroupPoints([p, p'], q, map[]), q.from, q.to) == p'.value
  {
    assert GroupKey(p'.labels, []) == map[];
    OneMoreInGroup([], p, q, map[], q.from, q.to);
    OneMoreInGroup([p], p', q, map[], q.from, q.to);
    assert [] + [p] == [p] && [p] + [p'] == [p, p'];
    assert InGroup(q, p', map[]);
  }

  /** Each series sampled once, where it changed: the first is out of sight at the
      window's end, and the second not yet born at its start. */
  lemma TwoSampled(store: Store, p: Point, p': Point, q: Query)
    requires SeriesOf(p) != SeriesOf(p') && p.name == p'.name && p.name !in GAUGE_FAMILIES
    requires p.at == 15000 && p'.at == 25000 && q.from == 20000 && q.to == 30000
    requires store == map[SeriesOf(p) := [Sample(p.at, p.value)], SeriesOf(p') := [Sample(p'.at, p'.value)]]
    ensures Scraped(store, [p, p']) && SampledAtChanges(store, [p, p'], q, q.to)
    ensures forall closed :: !Stale(store, SeriesOf(p), q.from, 10000, closed) && Stale(store, SeriesOf(p'), q.from, 10000, closed)
    ensures forall closed :: Stale(store, SeriesOf(p), q.to, 10000, closed) && !Stale(store, SeriesOf(p'), q.to, 10000, closed)
    ensures ValueAt([p, p'], SeriesOf(p'), q.from) == 0 && ValueAt([p, p'], SeriesOf(p), q.to) == p.value
  {
    var points, a, b := [p, p'], SeriesOf(p), SeriesOf(p');
    assert p in points && p' in points;
    TotalOfTwo(p, p', a, p.at + 1);
    TotalOfTwo(p, p', b, p'.at + 1);
    TotalOfTwo(p, p', b, q.from);
    TotalOfTwo(p, p', a, q.to);
    assert Before(p, a, p.at + 1) && Before(p', b, p'.at + 1);
    assert store[a][0].at == p.at && store[b][0].at == p'.at;
    hide Total;
  }

  lemma OneStale(store: Store, points: seq<Point>, ids: set<SeriesId>, id: SeriesId, b: int, closed: bool)
    requires id in ids && Stale(store, id, b, 10000, closed)
    requires forall x :: x in ids && x != id ==> !Stale(store, x, b, 10000, closed)
    ensures StaleTotal(store, points, ids, b, 10000, closed) == ValueAt(points, id, b)
  {
    hide Stale;
    OneSeries(id, map x | x in ids && Stale(store, x, b, 10000, closed) :: ValueAt(points, x, b));
  }

  lemma ShownOnce(store: Store, points: seq<Point>, q: Query, id: SeriesId, closed: bool)
    requires Scraped(store, points) && id in store && GroupSeries(points, q, map[]) == {id}
    requires q.to - q.from == 10000 && q.metric !in GAUGE_FAMILIES && q.step == 0 && q.agg == AggSum
    requires LastOverTime(store[id], q.to - 1, 10000, closed) == Some(5)
    requires LastOverTime(store[id], q.from - 1, 10000, closed) == None
    ensures At(Denote(Translate(q).value.expr, store, closed), map[]) == 5
  {
    hide Scraped, Denote, GroupSeries;
    var ids := GroupSeries(points, q, map[]);
    ShownOne(store, ids, id, q.to, closed);
    ShownOne(store, ids, id, q.from, closed);
    assert Visible(store, ids, q.to, 10000, closed);
    DifferenceDenotes(store, points, q, map[], 10000, q.from, 10000, q.to, closed);
  }

  lemma ShownOne(store: Store, ids: set<SeriesId>, id: SeriesId, b: int, closed: bool)
    requires ids == {id}
    ensures Shown(store, ids, b, 10000, closed) == ShownOf(store, id, b, 10000, closed)
  {
    OneSeries(id, map x | x in ids :: ShownOf(store, x, b, 10000, closed));
  }

  lemma GroupOfOne(p: Point, q: Query)
    requires p.name == q.metric && q.filters == map[] && q.groupBy == [] && p.at < q.from && q.metric !in GAUGE_FAMILIES
    ensures GroupSeries([p], q, map[]) == {SeriesOf(p)} && GroupPoints([p], q, map[]) == []
  {
    assert p in [p] && GroupKey(p.labels, []) == map[];
    assert [p][..0] == [];
  }

  /** Sampled at its one change and much later, but not in between. */
  lemma StaleSeries(name: string, closed: bool)
    requires name !in GAUGE_FAMILIES
    ensures var p, id := Point(name, map[], 5, 0), SeriesId(name, map[]);
            var samples := [Sample(0, 5), Sample(25000, 5)];
            && Truthful(samples, [p], id)
            && LastOverTime(samples, 29999, 10000, closed) == Some(5)
            && LastOverTime(samples, 19999, 10000, closed) == None
  {
    var p, id := Point(name, map[], 5, 0), SeriesId(name, map[]);
    var samples := [Sample(0, 5), Sample(25000, 5)];
    assert p in [p] && Before(p, id, 1) && Before(p, id, 25001);
    TotalOfOne(p, id, 1);
    TotalOfOne(p, id, 25001);
    assert Truthful(samples, [p], id);
    assert samples[..1] == [Sample(0, 5)] && [Sample(0, 5)][..0] == [];
    assert LastOverTime([Sample(0, 5)], 19999, 10000, closed) == None;
  }

  lemma OneSeries(id: SeriesId, m: map<SeriesId, int>)
    requires m.Keys == {id}
    ensures Sum(m) == m[id]
  {
    SumRemove(m, id);
    assert m - {id} == map[];
  }

  // ---- the gauge expression ----

  lemma NextLevels(mine: seq<Point>, p: Point, b: int)
    ensures var was := LastLevels(mine, b);
            LastLevels(mine + [p], b)
              == if p.at < b && (p.labels in was ==> was[p.labels].at < p.at) then was[p.labels := Reading(p.at, p.value)] else was
  {
    assert (mine + [p])[..|mine|] == mine;
  }

  lemma NextSet(points: seq<Point>, p: Point, id: SeriesId, b: int)
    ensures var was := LastSet(points, id, b);
            LastSet(points + [p], id, b)
              == if Before(p, id, b) && (was.Some? ==> was.value.at < p.at) then Some(Reading(p.at, p.value)) else was
  {
    assert (points + [p])[..|points|] == points;
  }

  lemma {:induction false} LevelsBySeries(points: seq<Point>, q: Query, g: Labels, b: int, labels: Labels)
    requires q.metric in GAUGE_FAMILIES && b <= q.to
    ensures var last, id := LastLevels(GroupPoints(points, q, g), b), SeriesId(q.metric, labels);
            if MatchFilters(labels, q.filters) && GroupKey(labels, q.groupBy) == g then
              && (labels in last <==> LastSet(points, id, b).Some?)
              && (labels in last ==> LastSet(points, id, b) == Some(last[labels]))
            else labels !in last
  {
    if points != [] {
      var init, p := points[..|points| - 1], points[|points| - 1];
      assert points == init + [p];
      LevelsBySeries(init, q, g, b, labels);
      var mine := GroupPoints(init, q, g);
      GroupPointsGrow(init, p, q, g);
      NextLevels(mine, p, b);
      NextSet(init, p, SeriesId(q.metric, labels), b);
      hide MatchFilters, GroupKey, LastLevels, LastSet, GroupPoints;
    }
  }

  lemma {:induction false} SumRekeyed(m: map<Labels, int>, m': map<SeriesId, int>, name: string)
    requires forall labels :: labels in m <==> SeriesId(name, labels) in m'
    requires forall id :: id in m' ==> id.name == name
    requires forall labels :: labels in m ==> m[labels] == m'[SeriesId(name, labels)]
    ensures Sum(m) == Sum(m')
    decreases |m|
  {
    if m == map[] {
      assert m' == map[] by {
        forall id
          ensures id !in m'
        {
          assert id == SeriesId(id.name, id.labels);
        }
      }
    } else {
      var labels :| labels in m;
      SumRemove(m, labels);
      SumRemove(m', SeriesId(name, labels));
      SumRekeyed(m - {labels}, m' - {SeriesId(name, labels)}, name);
    }
  }

  lemma {:induction false} SetIsBorn(points: seq<Point>, id: SeriesId, b: int)
    requires LastSet(points, id, b).Some?
    ensures exists p :: p in points && Before(p, id, b)
  {
    if Before(points[|points| - 1], id, b) {
      assert points[|points| - 1] in points;
    } else {
      SetIsBorn(points[..|points| - 1], id, b);
    }
  }

  lemma {:induction false} BornIsSet(points: seq<Point>, id: SeriesId, b: int, p: Point)
    requires p in points && Before(p, id, b)
    ensures LastSet(points, id, b).Some?
  {
    if points[|points| - 1] != p {
      assert points == points[..|points| - 1] + [points[|points| - 1]];
      BornIsSet(points[..|points| - 1], id, b, p);
    }
  }

  /** The levels the reference sums are those of the group's series. */
  lemma GaugeTotal(points: seq<Point>, q: Query, g: Labels, b: int)
    requires q.metric in GAUGE_FAMILIES && b <= q.to
    ensures Sum(Levels(GroupPoints(points, q, g), b)) == True(points, GroupSeries(points, q, g), b)
    ensures LastLevels(GroupPoints(points, q, g), b) != map[] <==>
              exists id :: id in GroupSeries(points, q, g) && Born(points, id, b)
  {
    var ids, levels := GroupSeries(points, q, g), Levels(GroupPoints(points, q, g), b);
    var set' := map id | id in ids && LastSet(points, id, b).Some? :: LevelBefore(points, id, b);
    forall labels
      ensures labels in levels <==> SeriesId(q.metric, labels) in set'
      ensures labels in levels ==> levels[labels] == set'[SeriesId(q.metric, labels)]
    {
      var id := SeriesId(q.metric, labels);
      LevelsBySeries(points, q, g, b, labels);
      if LastSet(points, id, b).Some? {
        SetIsBorn(points, id, b);
        var p :| p in points && Before(p, id, b);
        assert SeriesOf(p) == id;
      }
    }
    SumRekeyed(levels, set', q.metric);
    SumPadded(map id | id in ids :: ValueAt(points, id, b), set');
    GaugePresence(points, q, g, b, set', levels);
  }

  lemma GaugePresence(points: seq<Point>, q: Query, g: Labels, b: int, set': map<SeriesId, int>, levels: map<Labels, int>)
    requires levels.Keys == LastLevels(GroupPoints(points, q, g), b).Keys
    requires set'.Keys == set id | id in GroupSeries(points, q, g) && LastSet(points, id, b).Some?
    requires forall labels :: labels in levels <==> SeriesId(q.metric, labels) in set'
    ensures LastLevels(GroupPoints(points, q, g), b) != map[] <==>
              exists id :: id in GroupSeries(points, q, g) && Born(points, id, b)
  {
    if labels :| labels in levels {
      var id := SeriesId(q.metric, labels);
      assert id in set';
      SetIsBorn(points, id, b);
    }
    if id :| id in GroupSeries(points, q, g) && Born(points, id, b) {
      var p :| p in points && Before(p, id, b);
      BornIsSet(points, id, b, p);
      assert id in set' && id == SeriesId(q.metric, id.labels);
      assert id.labels in levels;
    }
  }

  /** Sampled likewise, the compiled gauge query denotes exactly the reference's
      levels, group by group. */
  lemma GaugeIsExact(store: Store, points: seq<Point>, q: Query, g: Labels, closed: bool)
    requires Scraped(store, points) && q.agg == AggSum && q.step <= 0 && q.metric in GAUGE_FAMILIES
    requires AllSampled(store, points, q, q.to, q.to - q.from, closed)
    ensures var v := Denote(Translate(q).value.expr, store, closed);
            BucketPoints(GroupPoints(points, q, g), q) == if g in v then [Reading(q.from, v[g])] else []
  {
    BoundaryIsSum(store, points, q, g, q.to - q.from, q.to, closed);
    NothingHidden(store, points, q, g, q.to, q.to - q.from, closed);
    GaugeTotal(points, q, g, q.to);
    assert Translate(q).value.expr == Boundary(q, q.to - q.from, q.to);
    hide Denote, Translate, Boundary, Scraped, AllSampled, GroupSeries, GroupPoints, Shown, Visible, True, WholeSeconds;
  }
}
