/** The gauge route to the deferred leg (deferredFromGauge, fillDeferredCounts in
    engine/deferred.go). */
module DeferredGauge {
  import opened Wrappers
  import opened FiniteSums
  import opened Memq
  import opened Deferred

  /** What the leg is asked for: one flow, or every flow at once. */
  datatype Request = Request(flow: Option<string>, from: int, to: int)

  const GAUGE_LABELS := ["flow", "stage", "age_bucket", "currency"]

  function FlowFilter(req: Request): Labels {
    if req.flow.Some? then map["flow" := req.flow.value] else map[]
  }

  function GaugeQuery(metric: string, req: Request): Query {
    Query(metric, AggSum, FlowFilter(req), GAUGE_LABELS, req.from, req.to, 0)
  }

  ghost function LevelIn(points: seq<Point>, q: Query, g: Labels): int {
    SumReadings(BucketPoints(GroupPoints(points, q, g), q))
  }

  /** What a series adds to the leg at some amount. */
  function SeriesEntry(reg: Option<Registry>, g: Labels, amount: int): Entry {
    var flow, stage, bucket := Label(g, "flow"), Label(g, "stage"), Label(g, "age_bucket");
    Entry(bucket, Label(g, "currency"), amount,
          reg.Some? && IsBreached(reg.value, flow, stage, bucket), reg.Some? && IsLost(reg.value, flow, stage, bucket))
  }

  /** Every series with a level adds it; a level of zero adds nothing. */
  ghost function GaugeEntries(points: seq<Point>, q: Query, reg: Option<Registry>): map<Labels, Entry> {
    map g | g in Groups(points, q) && LevelIn(points, q, g) != 0 :: SeriesEntry(reg, g, LevelIn(points, q, g))
  }

  // ---- the leg, said of its series ----

  ghost predicate SeriesPicked(reg: Option<Registry>, g: Labels, p: Pick) {
    var flow, stage, bucket, currency := Label(g, "flow"), Label(g, "stage"), Label(g, "age_bucket"), Label(g, "currency");
    match p
    case InCell(cell) => cell == Cell(bucket, currency)
    case InCurrency(c) => c == currency
    case LostIn(c) => c == currency && ProjectedLost(reg, flow, stage, bucket)
    case Breaching => PastDeadline(reg, flow, stage, bucket)
    case Every => true
  }

  /** The levels, where there are any, of the series picked. */
  ghost function LevelsOf(points: seq<Point>, q: Query, reg: Option<Registry>, p: Pick): map<Labels, int> {
    map g | g in Groups(points, q) && LevelIn(points, q, g) != 0 && SeriesPicked(reg, g, p) :: LevelIn(points, q, g)
  }

  ghost function BucketsSeen(points: seq<Point>, q: Query): set<string> {
    set g | g in Groups(points, q) && LevelIn(points, q, g) != 0 :: Label(g, "age_bucket")
  }

  /** Every figure of the leg is the sum over the series it speaks of: value by
      bucket and currency, the value projected lost in a currency, and, from the
      companion gauge, the count and what of it is past its deadline. */
  ghost predicate GaugeSays(leg: Leg, points: seq<Point>, reg: Option<Registry>, req: Request) {
    var values, counts := GaugeQuery("biz_inflight_value", req), GaugeQuery("biz_inflight_count", req);
    && (forall cell :: Lists(leg.byAgeBucket, cell, LevelsOf(points, values, reg, InCell(cell))))
    && (forall c :: Lists(leg.byCurrency, c, LevelsOf(points, values, reg, InCurrency(c))))
    && (forall c :: Lists(leg.projectedLost, c, LevelsOf(points, values, reg, LostIn(c))))
    && IsOldest(leg.oldestAge, BucketsSeen(points, values))
    && leg.count == Sum(LevelsOf(points, counts, reg, Every))
    && leg.breaches == Sum(LevelsOf(points, counts, reg, Breaching))
  }

  lemma SeriesPicks(reg: Option<Registry>, g: Labels, amount: int, p: Pick)
    ensures Picks(p, SeriesEntry(reg, g, amount)) <==> SeriesPicked(reg, g, p)
  {
    BreachesArePast(reg, Label(g, "flow"), Label(g, "stage"), Label(g, "age_bucket"));
    hide PastDeadline, ProjectedLost, IsBreached, IsLost;
  }

  lemma EntriesAreLevels(points: seq<Point>, q: Query, reg: Option<Registry>, p: Pick)
    ensures Part(GaugeEntries(points, q, reg), p) == LevelsOf(points, q, reg, p)
  {
    hide Groups, LevelIn, SeriesPicked, Picks;
    var entries := GaugeEntries(points, q, reg);
    forall g | g in entries
      ensures Picks(p, entries[g]) <==> SeriesPicked(reg, g, p)
    {
      SeriesPicks(reg, g, LevelIn(points, q, g), p);
    }
    hide SeriesEntry;
  }

  lemma BucketsAreSeen(points: seq<Point>, q: Query, reg: Option<Registry>)
    ensures BucketsOf(GaugeEntries(points, q, reg)) == BucketsSeen(points, q)
  {
    hide Groups, LevelIn, IsBreached, IsLost;
    var entries := GaugeEntries(points, q, reg);
    assert forall g :: g in Groups(points, q) && LevelIn(points, q, g) != 0 ==> g in entries && entries[g].bucket == Label(g, "age_bucket");
  }

  lemma MatchSays(leg: Leg, points: seq<Point>, reg: Option<Registry>, req: Request)
    requires ValuesMatch(leg, GaugeEntries(points, GaugeQuery("biz_inflight_value", req), reg))
    requires CountsMatch(leg, GaugeEntries(points, GaugeQuery("biz_inflight_count", req), reg))
    ensures GaugeSays(leg, points, reg, req)
  {
    hide GaugeEntries, GaugeQuery, Part, LevelsOf, OldestOk, IsOldest, BucketsSeen, BucketsOf;
    var values, counts := GaugeQuery("biz_inflight_value", req), GaugeQuery("biz_inflight_count", req);
    var entries := GaugeEntries(points, values, reg);
    forall p
      ensures Part(entries, p) == LevelsOf(points, values, reg, p)
      ensures Part(GaugeEntries(points, counts, reg), p) == LevelsOf(points, counts, reg, p)
    {
      EntriesAreLevels(points, values, reg, p);
      EntriesAreLevels(points, counts, reg, p);
    }
    OldestIsFloor(leg.oldestAge, entries);
    BucketsAreSeen(points, values, reg);
    assert forall cell :: TotalOk(leg.byAgeBucket, cell, entries, InCell(cell));
    assert forall c :: TotalOk(leg.byCurrency, c, entries, InCurrency(c)) && TotalOk(leg.projectedLost, c, entries, LostIn(c));
  }

  method LastLevel(readings: seq<Reading>) returns (v: int)
    ensures v == SumReadings(readings)
  {
    v := 0;
    assert readings[0..] == readings;
    for i := 0 to |readings|
      invariant v + SumReadings(readings[i..]) == SumReadings(readings)
    {
      assert readings[i..][1..] == readings[i + 1..];
      v := v + readings[i].value;
    }
  }

  lemma EntryOf(points: seq<Point>, q: Query, reg: Option<Registry>, g: Labels)
    requires g in Groups(points, q)
    ensures var entries, level := GaugeEntries(points, q, reg), LevelIn(points, q, g);
            if level == 0 then g !in entries else g in entries && entries[g] == SeriesEntry(reg, g, level)
  {
  }

  lemma NextVisited(entries: map<Labels, Entry>, todo: set<Labels>, g: Labels)
    requires g in todo
    ensures g !in entries - todo
    ensures entries - (todo - {g}) == if g in entries then (entries - todo)[g := entries[g]] else entries - todo
  {
  }

  lemma NoneAndAllVisited(points: seq<Point>, q: Query, reg: Option<Registry>)
    ensures GaugeEntries(points, q, reg) - Groups(points, q) == map[]
    ensures GaugeEntries(points, q, reg) - {} == GaugeEntries(points, q, reg)
  {
  }

  /** sawGauge: the backend returned some series, at whatever level. */
  method DeferredFromGauge(points: seq<Point>, reg: Option<Registry>, req: Request) returns (leg: Leg, sawGauge: bool)
    ensures ValuesMatch(leg, GaugeEntries(points, GaugeQuery("biz_inflight_value", req), reg))
    ensures CountsMatch(leg, GaugeEntries(points, GaugeQuery("biz_inflight_count", req), reg))
    ensures GaugeSays(leg, points, reg, req)
    ensures sawGauge <==> Groups(points, GaugeQuery("biz_inflight_value", req)) != {}
    ensures leg.caveats == if GaugeEntries(points, GaugeQuery("biz_inflight_count", req), reg) == map[]
                              && leg.byAgeBucket != map[] then {CountsUnavailable} else {}
  {
    var q := GaugeQuery("biz_inflight_value", req);
    var series := QueryMetric(points, q);
    sawGauge := |series| > 0;
    assert series != map[] ==> exists g :: g in series.Keys;
    leg := AddSeries(points, q, reg, series);
    leg := FillDeferredCounts(points, reg, req, leg);
    MatchSays(leg, points, reg, req);
    hide GaugeSays, GaugeEntries, OldestOk;
  }

  method AddSeries(points: seq<Point>, q: Query, reg: Option<Registry>, series: map<Labels, seq<Reading>>) returns (leg: Leg)
    requires series.Keys == Groups(points, q)
    requires forall g :: g in series ==> series[g] == BucketPoints(GroupPoints(points, q, g), q)
    ensures ValuesMatch(leg, GaugeEntries(points, q, reg)) && leg.count == leg.breaches == 0 && leg.caveats == {}
  {
    hide ValuesMatch, GaugeEntries, Groups;
    leg := NEW_LEG;
    var todo := series.Keys;
    ghost var entries := GaugeEntries(points, q, reg);
    NoneAndAllVisited(points, q, reg);
    NewLegMatches<Labels>();
    while todo != {}
      invariant todo <= series.Keys
      invariant ValuesMatch(leg, entries - todo) && leg.count == leg.breaches == 0 && leg.caveats == {}
      decreases todo
    {
      var g :| g in todo;
      var level := LastLevel(series[g]);
      EntryOf(points, q, reg, g);
      NextVisited(entries, todo, g);
      if level != 0 {
        AddValueMatches(leg, entries - todo, g, SeriesEntry(reg, g, level));
        leg := AddValue(leg, SeriesEntry(reg, g, level));
      }
      todo := todo - {g};
    }
  }

  /** The companion gauge; a value without one is noted. */
  method FillDeferredCounts(points: seq<Point>, reg: Option<Registry>, req: Request, before: Leg) returns (leg: Leg)
    requires before.count == before.breaches == 0 && before.caveats == {}
    ensures CountsMatch(leg, GaugeEntries(points, GaugeQuery("biz_inflight_count", req), reg))
    ensures leg == before.(count := leg.count, breaches := leg.breaches, caveats := leg.caveats)
    ensures leg.caveats == if GaugeEntries(points, GaugeQuery("biz_inflight_count", req), reg) == map[]
                              && leg.byAgeBucket != map[] then {CountsUnavailable} else {}
  {
    hide GaugeEntries, Groups;
    var q := GaugeQuery("biz_inflight_count", req);
    var series := QueryMetric(points, q);
    leg := before;
    var sawCount := false;
    var todo := series.Keys;
    ghost var entries := GaugeEntries(points, q, reg);
    NoneAndAllVisited(points, q, reg);
    NewLegMatches<Labels>();
    while todo != {}
      invariant todo <= series.Keys
      invariant CountsMatch(leg, entries - todo)
      invariant leg == before.(count := leg.count, breaches := leg.breaches)
      invariant sawCount <==> entries - todo != map[]
      decreases todo
    {
      var g :| g in todo;
      var count := LastLevel(series[g]);
      EntryOf(points, q, reg, g);
      NextVisited(entries, todo, g);
      if count != 0 {
        sawCount := true;
        AddCountMatches(leg, entries - todo, g, SeriesEntry(reg, g, count));
        leg := AddCount(leg, SeriesEntry(reg, g, count));
        assert g in entries - (todo - {g});
      }
      todo := todo - {g};
    }
    if !sawCount && |leg.byAgeBucket| > 0 {
      leg := leg.(caveats := {CountsUnavailable});
    }
  }

  /** A series whose level is zero lists no cell, where an entity deferred for
      nothing does on the other route: the two can only agree on positive amounts. */
  lemma ZeroLevelsAreNotListed(points: seq<Point>, q: Query, reg: Option<Registry>, leg: Leg, cell: Cell)
    requires ValuesMatch(leg, GaugeEntries(points, q, reg))
    ensures cell in leg.byAgeBucket <==>
              exists g :: g in Groups(points, q) && LevelIn(points, q, g) != 0
                          && cell == Cell(Label(g, "age_bucket"), Label(g, "currency"))
  {
    hide Groups, LevelIn, IsBreached, IsLost;
    var entries := GaugeEntries(points, q, reg);
    assert TotalOk(leg.byAgeBucket, cell, entries, InCell(cell));
    if cell in leg.byAgeBucket {
      var g :| g in Part(entries, InCell(cell));
      assert g in Groups(points, q) && LevelIn(points, q, g) != 0;
    }
    if g :| g in Groups(points, q) && LevelIn(points, q, g) != 0
            && cell == Cell(Label(g, "age_bucket"), Label(g, "currency")) {
      assert g in Part(entries, InCell(cell));
    }
  }

  lemma ZeroEntriesAreListed<K(!new)>(leg: Leg, entries: map<K, Entry>, k: K)
    requires ValuesMatch(leg, entries) && k in entries
    ensures Cell(entries[k].bucket, entries[k].currency) in leg.byAgeBucket
  {
    var cell := Cell(entries[k].bucket, entries[k].currency);
    assert TotalOk(leg.byAgeBucket, cell, entries, InCell(cell));
    assert k in Part(entries, InCell(cell));
  }
}
