/** The in-memory reference for metric queries (query/memq/memq.go). Instants are
    integers of the caller's unit; sums are integers. */
module Memq {
  import opened Wrappers
  import opened FiniteSums

  type Labels = map<string, string>

  datatype Point = Point(name: string, labels: Labels, value: int, at: int)

  datatype Agg = AggSum | AggCount

  /** A half-open window [from, to), cut into buckets of step if step > 0. */
  datatype Query = Query(
    metric: string, agg: Agg, filters: Labels, groupBy: seq<string>, from: int, to: int, step: int)

  /** One value of an answer, stamped at its bucket's start. */
  datatype Reading = Reading(at: int, value: int)

  const GAUGE_FAMILIES := {"biz_inflight_value", "biz_inflight_count"}

  function Label(labels: Labels, k: string): string { if k in labels then labels[k] else "" }

  predicate MatchFilters(labels: Labels, filters: Labels) {
    forall k :: k in filters ==> Label(labels, k) == filters[k]
  }

  function GroupKey(labels: Labels, groupBy: seq<string>): Labels {
    map k | k in groupBy :: Label(labels, k)
  }

  /** A counter increment counts inside the window; a gauge level lasts. */
  predicate Kept(q: Query, p: Point) {
    && p.name == q.metric && MatchFilters(p.labels, q.filters)
    && (if q.metric in GAUGE_FAMILIES then p.at < q.to else q.from <= p.at < q.to)
  }

  predicate InGroup(q: Query, p: Point, g: Labels) {
    Kept(q, p) && GroupKey(p.labels, q.groupBy) == g
  }

  function GroupPoints(points: seq<Point>, q: Query, g: Labels): seq<Point> {
    if points == [] then [] else
      var init, p := GroupPoints(points[..|points| - 1], q, g), points[|points| - 1];
      if InGroup(q, p, g) then init + [p] else init
  }

  function Groups(points: seq<Point>, q: Query): set<Labels> {
    set p | p in points && Kept(q, p) :: GroupKey(p.labels, q.groupBy)
  }

  // ---- one bucket ----

  function SumIn(points: seq<Point>, from: int, to: int): int {
    if points == [] then 0 else
      var p := points[|points| - 1];
      SumIn(points[..|points| - 1], from, to) + if from <= p.at < to then p.value else 0
  }

  function CountIn(points: seq<Point>, from: int, to: int): nat {
    if points == [] then 0 else
      var p := points[|points| - 1];
      CountIn(points[..|points| - 1], from, to) + if from <= p.at < to then 1 else 0
  }

  /** Each series' last level before an instant, the first of a tie. */
  function LastLevels(points: seq<Point>, to: int): map<Labels, Reading> {
    if points == [] then map[] else
      var last, p := LastLevels(points[..|points| - 1], to), points[|points| - 1];
      if p.at < to && (p.labels in last ==> last[p.labels].at < p.at) then last[p.labels := Reading(p.at, p.value)]
      else last
  }

  predicate IsLevel(points: seq<Point>, id: Labels, to: int, i: nat) {
    i < |points| && points[i].labels == id && points[i].at < to
  }

  /** A series has a level exactly if it was set before the instant. */
  lemma {:induction false} LevelMeansSet(points: seq<Point>, id: Labels, to: int)
    ensures id in LastLevels(points, to) <==> exists i: nat :: IsLevel(points, id, to, i)
  {
    if points != [] {
      var n := |points| - 1;
      LevelMeansSet(points[..n], id, to);
      assert forall i: nat :: i < n ==> (IsLevel(points, id, to, i) <==> IsLevel(points[..n], id, to, i));
      if points[n].labels == id && points[n].at < to {
        assert IsLevel(points, id, to, n);
      }
    }
  }

  /** It is that of its latest sample, the earliest recorded among equals. */
  lemma {:induction false} LastLevelIsTheLatest(points: seq<Point>, id: Labels, to: int) returns (i: nat)
    requires id in LastLevels(points, to)
    ensures IsLevel(points, id, to, i) && LastLevels(points, to)[id] == Reading(points[i].at, points[i].value)
    ensures forall j: nat :: IsLevel(points, id, to, j) ==>
                             points[j].at < points[i].at || (points[j].at == points[i].at && i <= j)
  {
    var n := |points| - 1;
    var init := points[..n];
    assert forall j: nat :: j < n && IsLevel(points, id, to, j) ==> IsLevel(init, id, to, j);
    if id in LastLevels(init, to) {
      i := LastLevelIsTheLatest(init, id, to);
      if LastLevels(points, to)[id] != LastLevels(init, to)[id] {
        i := n;
      }
    } else {
      LevelMeansSet(init, id, to);
      i := n;
    }
  }

  ghost function Levels(points: seq<Point>, to: int): map<Labels, int> {
    var last := LastLevels(points, to);
    map id | id in last :: last[id].value
  }

  /** Nothing at all, or the group's level at the end, or its increase within. */
  ghost function BucketValue(points: seq<Point>, from: int, to: int, agg: Agg, gauge: bool): Option<int> {
    if gauge then
      if LastLevels(points, to) == map[] then None
      else Some(if agg == AggCount then |LastLevels(points, to)| else Sum(Levels(points, to)))
    else if CountIn(points, from, to) == 0 then None
    else Some(if agg == AggCount then CountIn(points, from, to) else SumIn(points, from, to))
  }

  method Aggregate(points: seq<Point>, from: int, to: int, agg: Agg, gauge: bool) returns (v: Option<int>)
    ensures v == BucketValue(points, from, to, agg, gauge)
  {
    if gauge {
      v := AggregateGauge(points, to, agg);
      return;
    }
    var sum, count, seen := 0, 0, false;
    for i := 0 to |points|
      invariant sum == SumIn(points[..i], from, to)
      invariant count == CountIn(points[..i], from, to)
      invariant seen == (count > 0)
    {
      assert points[..i + 1][..i] == points[..i];
      var p := points[i];
      if from <= p.at && p.at < to {
        seen := true;
        sum := sum + p.value;
        count := count + 1;
      }
    }
    assert points[..|points|] == points;
    if !seen {
      return None;
    }
    return Some(if agg == AggCount then count else sum);
  }

  method AggregateGauge(points: seq<Point>, to: int, agg: Agg) returns (v: Option<int>)
    ensures v == BucketValue(points, to, to, agg, true)
  {
    var last: map<Labels, Reading> := map[];
    for i := 0 to |points|
      invariant last == LastLevels(points[..i], to)
    {
      assert points[..i + 1][..i] == points[..i];
      var p := points[i];
      if p.at < to {
        if p.labels !in last || p.at > last[p.labels].at {
          last := last[p.labels := Reading(p.at, p.value)];
        }
      }
    }
    assert points[..|points|] == points;
    if |last| == 0 {
      return None;
    }
    if agg == AggCount {
      return Some(|last|);
    }
    var sum := SumLevels(last);
    assert (map id | id in last :: last[id].value) == Levels(points, to);
    return Some(sum);
  }

  method SumLevels(last: map<Labels, Reading>) returns (sum: int)
    ensures sum == Sum(map id | id in last :: last[id].value)
  {
    sum := 0;
    var todo := last.Keys;
    ghost var levels := map id | id in last :: last[id].value;
    assert Restricted(levels, todo) == levels;
    while todo != {}
      invariant todo <= last.Keys
      invariant sum + Sum(Restricted(levels, todo)) == Sum(levels)
      decreases todo
    {
      var id :| id in todo;
      SumRemove(Restricted(levels, todo), id);
      assert Restricted(levels, todo) - {id} == Restricted(levels, todo - {id});
      sum := sum + last[id].value;
      todo := todo - {id};
    }
    assert Restricted(levels, todo) == map[];
  }

  ghost function Restricted(m: map<Labels, int>, keys: set<Labels>): map<Labels, int>
    requires keys <= m.Keys
  {
    map k | k in keys :: m[k]
  }

  // ---- buckets ----

  function BucketEnd(q: Query, start: int): int {
    if start + q.step > q.to then q.to else start + q.step
  }

  ghost function Stamped(at: int, v: Option<int>): seq<Reading> {
    if v.None? then [] else [Reading(at, v.value)]
  }

  ghost function BucketsFrom(points: seq<Point>, q: Query, start: int): seq<Reading>
    requires q.step > 0
    decreases q.to - start
  {
    if start >= q.to then [] else
      Stamped(start, BucketValue(points, start, BucketEnd(q, start), q.agg, q.metric in GAUGE_FAMILIES))
      + BucketsFrom(points, q, start + q.step)
  }

  ghost function BucketPoints(points: seq<Point>, q: Query): seq<Reading> {
    if q.step <= 0 then Stamped(q.from, BucketValue(points, q.from, q.to, q.agg, q.metric in GAUGE_FAMILIES))
    else BucketsFrom(points, q, q.from)
  }

  method Bucket(points: seq<Point>, q: Query) returns (out: seq<Reading>)
    ensures out == BucketPoints(points, q)
  {
    if q.step <= 0 {
      var v := Aggregate(points, q.from, q.to, q.agg, q.metric in GAUGE_FAMILIES);
      if v.None? {
        return [];
      }
      return [Reading(q.from, v.value)];
    }
    out := BucketAll(points, q);
  }

  method BucketAll(points: seq<Point>, q: Query) returns (out: seq<Reading>)
    requires q.step > 0
    ensures out == BucketsFrom(points, q, q.from)
  {
    out := [];
    var start := q.from;
    while start < q.to
      invariant out + BucketsFrom(points, q, start) == BucketsFrom(points, q, q.from)
      decreases q.to - start
    {
      var end := start + q.step;
      if end > q.to {
        end := q.to;
      }
      var v := Aggregate(points, start, end, q.agg, q.metric in GAUGE_FAMILIES);
      Associate(out, Stamped(start, v), BucketsFrom(points, q, start + q.step));
      if v.Some? {
        out := out + [Reading(start, v.value)];
      } else {
        assert out == out + Stamped(start, v);
      }
      start := start + q.step;
    }
  }

  lemma Associate(a: seq<Reading>, b: seq<Reading>, c: seq<Reading>)
    ensures a + (b + c) == (a + b) + c
  {
  }

  /** One slice for every group with a point that matters, holding that group's
      buckets. */
  method QueryMetric(points: seq<Point>, q: Query) returns (out: map<Labels, seq<Reading>>)
    ensures out.Keys == Groups(points, q)
    ensures forall g :: g in out ==> out[g] == BucketPoints(GroupPoints(points, q, g), q)
  {
    var groups := Collect(points, q);
    out := Slices(groups, q);
  }

  method Slices(groups: map<Labels, seq<Point>>, q: Query) returns (out: map<Labels, seq<Reading>>)
    ensures out.Keys == groups.Keys
    ensures forall g :: g in out ==> out[g] == BucketPoints(groups[g], q)
  {
    out := map[];
    var todo := groups.Keys;
    while todo != {}
      invariant todo <= groups.Keys && out.Keys == groups.Keys - todo
      invariant forall g :: g in out ==> out[g] == BucketPoints(groups[g], q)
      decreases todo
    {
      var g :| g in todo;
      var readings := Bucket(groups[g], q);
      out := out[g := readings];
      todo := todo - {g};
    }
  }

  function AddPoint(groups: map<Labels, seq<Point>>, q: Query, p: Point): map<Labels, seq<Point>> {
    if !Kept(q, p) then groups else
      var g := GroupKey(p.labels, q.groupBy);
      groups[g := (if g in groups then groups[g] else []) + [p]]
  }

  lemma GroupsGrow(points: seq<Point>, p: Point, q: Query)
    ensures Groups(points + [p], q) == Groups(points, q) + if Kept(q, p) then {GroupKey(p.labels, q.groupBy)} else {}
  {
    var all, grown := points + [p], Groups(points + [p], q);
    forall x | x in points && Kept(q, x)
      ensures GroupKey(x.labels, q.groupBy) in grown
    {
      assert x in all;
    }
    assert p in all;
  }

  lemma GroupPointsGrow(points: seq<Point>, p: Point, q: Query, g: Labels)
    ensures GroupPoints(points + [p], q, g)
         == if InGroup(q, p, g) then GroupPoints(points, q, g) + [p] else GroupPoints(points, q, g)
  {
    assert (points + [p])[..|points|] == points;
  }

  /** The groups hold exactly the points read so far. */
  ghost predicate Collected(groups: map<Labels, seq<Point>>, points: seq<Point>, q: Query) {
    && groups.Keys == Groups(points, q)
    && forall g :: GroupPoints(points, q, g) == if g in groups then groups[g] else []
  }

  lemma CollectOne(groups: map<Labels, seq<Point>>, points: seq<Point>, p: Point, q: Query)
    requires Collected(groups, points, q)
    ensures Collected(AddPoint(groups, q, p), points + [p], q)
  {
    GroupsGrow(points, p, q);
    var groups' := AddPoint(groups, q, p);
    forall g
      ensures GroupPoints(points + [p], q, g) == if g in groups' then groups'[g] else []
    {
      GroupPointsGrow(points, p, q, g);
    }
  }

  method Collect(points: seq<Point>, q: Query) returns (groups: map<Labels, seq<Point>>)
    ensures Collected(groups, points, q)
  {
    groups := map[];
    for i := 0 to |points|
      invariant Collected(groups, points[..i], q)
    {
      assert points[..i + 1] == points[..i] + [points[i]];
      CollectOne(groups, points[..i], points[i], q);
      groups := AddPoint(groups, q, points[i]);
    }
    assert points[..|points|] == points;
  }

  // ---- what the answer says ----

  function SumReadings(readings: seq<Reading>): int {
    if readings == [] then 0 else readings[0].value + SumReadings(readings[1..])
  }

  lemma {:induction false} SumInSplits(points: seq<Point>, from: int, mid: int, to: int)
    requires from <= mid <= to
    ensures SumIn(points, from, to) == SumIn(points, from, mid) + SumIn(points, mid, to)
    ensures CountIn(points, from, to) == CountIn(points, from, mid) + CountIn(points, mid, to)
  {
    if points != [] {
      SumInSplits(points[..|points| - 1], from, mid, to);
    }
  }

  lemma {:induction false} NoneInNoSum(points: seq<Point>, from: int, to: int)
    requires CountIn(points, from, to) == 0
    ensures SumIn(points, from, to) == 0
  {
    if points != [] {
      NoneInNoSum(points[..|points| - 1], from, to);
    }
  }

  lemma SumStamped(at: int, v: Option<int>, rest: seq<Reading>)
    ensures SumReadings(Stamped(at, v) + rest) == SumReadings(rest) + if v.Some? then v.value else 0
  {
    if v.None? {
      assert Stamped(at, v) + rest == rest;
    } else {
      assert (Stamped(at, v) + rest)[1..] == rest;
    }
  }

  /** A counter's buckets add up to the whole window, whatever the step. */
  lemma {:induction false} BucketsTileTheWindow(points: seq<Point>, q: Query, start: int)
    requires q.step > 0 && q.agg == AggSum && q.metric !in GAUGE_FAMILIES
    ensures SumReadings(BucketsFrom(points, q, start)) == if start <= q.to then SumIn(points, start, q.to) else 0
    decreases q.to - start
  {
    if start >= q.to {
      EmptyWindow(points, start);
    } else {
      var end := BucketEnd(q, start);
      SumInSplits(points, start, end, q.to);
      if CountIn(points, start, end) == 0 {
        NoneInNoSum(points, start, end);
      }
      SumStamped(start, BucketValue(points, start, end, q.agg, false), BucketsFrom(points, q, start + q.step));
      BucketsTileTheWindow(points, q, start + q.step);
      EmptyWindow(points, q.to);
    }
  }

  lemma {:induction false} EmptyWindow(points: seq<Point>, at: int)
    ensures SumIn(points, at, at) == 0 && CountIn(points, at, at) == 0
  {
    if points != [] {
      EmptyWindow(points[..|points| - 1], at);
    }
  }
}
