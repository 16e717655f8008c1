/** Replaying a ledger through one tracker and reading back the gauge it publishes
    (inFlightPointsAtInstants in testkit/querier.go). */
module Replay {
  import opened Wrappers
  import opened Money
  import opened Tracker
  import opened Memq
  import opened PromQL
  import opened Deferred
  import opened Telemetry

  // ---- the published points ----

  function SeriesLabels(s: Series): Labels {
    map["flow" := s.flow, "stage" := s.stage, "age_bucket" := BucketLabel(s.bucket), "currency" := s.currency]
  }

  const VALUE := "biz_inflight_value"
  const COUNT := "biz_inflight_count"

  function ValueId(s: Series): SeriesId { SeriesId(VALUE, SeriesLabels(s)) }

  function CountId(s: Series): SeriesId { SeriesId(COUNT, SeriesLabels(s)) }

  /** One SetInFlight call: a value and a count, stamped with the clock. */
  function PointsFor(x: Tracker.Sample, now: int): seq<Point> {
    [Point(VALUE, SeriesLabels(x.series), x.level.minor, now), Point(COUNT, SeriesLabels(x.series), x.level.count, now)]
  }

  function Points(out: seq<Tracker.Sample>, now: int): seq<Point> {
    if out == [] then [] else Points(out[..|out| - 1], now) + PointsFor(out[|out| - 1], now)
  }

  /** What a reader sees of a series before an instant. */
  function ReadLevel(points: seq<Point>, s: Series, b: int): Level {
    Level(LevelBefore(points, ValueId(s), b), LevelBefore(points, CountId(s), b))
  }

  lemma BucketsDiffer(b: Bucket, b': Bucket)
    ensures BucketLabel(b) == BucketLabel(b') <==> b == b'
  {
    if b != b' {
      var l, l' := BucketLabel(b), BucketLabel(b');
      assert |l| != |l'| || l[0] != l'[0];
    }
  }

  lemma LabelsNameTheSeries(s: Series, s': Series)
    ensures SeriesLabels(s) == SeriesLabels(s') <==> s == s'
  {
    BucketsDiffer(s.bucket, s'.bucket);
    if SeriesLabels(s) == SeriesLabels(s') {
      assert SeriesLabels(s)["flow"] == s'.flow && SeriesLabels(s)["stage"] == s'.stage;
      assert SeriesLabels(s)["age_bucket"] == BucketLabel(s'.bucket) && SeriesLabels(s)["currency"] == s'.currency;
    }
  }

  lemma NamesApart()
    ensures VALUE != COUNT
  {
    assert VALUE[13] != COUNT[13];
  }

  lemma LastSetAfterTwo(points: seq<Point>, p: Point, p': Point, id: SeriesId, b: int)
    ensures LastSet(points + [p, p'], id, b) == LastSet(points + [p] + [p'], id, b)
    ensures (points + [p] + [p'])[..|points| + 1] == points + [p] && (points + [p])[..|points|] == points
  {
    assert points + [p, p'] == points + [p] + [p'];
  }

  /** A newer sample replaces what is read of its series, and touches no other. */
  lemma OneMoreSample(points: seq<Point>, x: Tracker.Sample, now: int, b: int, s: Series)
    requires now < b
    requires var v, c := LastSet(points, ValueId(s), b), LastSet(points, CountId(s), b);
             x.series == s ==> (v.Some? ==> v.value.at < now) && (c.Some? ==> c.value.at < now)
    ensures ReadLevel(points + PointsFor(x, now), s, b) == if x.series == s then x.level else ReadLevel(points, s, b)
    ensures x.series != s ==>
              LastSet(points + PointsFor(x, now), ValueId(s), b) == LastSet(points, ValueId(s), b)
              && LastSet(points + PointsFor(x, now), CountId(s), b) == LastSet(points, CountId(s), b)
    ensures x.series == s ==>
              LastSet(points + PointsFor(x, now), ValueId(s), b) == Some(Reading(now, x.level.minor))
              && LastSet(points + PointsFor(x, now), CountId(s), b) == Some(Reading(now, x.level.count))
  {
    var p, p' := PointsFor(x, now)[0], PointsFor(x, now)[1];
    LabelsNameTheSeries(x.series, s);
    NamesApart();
    LastSetAfterTwo(points, p, p', ValueId(s), b);
    LastSetAfterTwo(points, p, p', CountId(s), b);
    hide SeriesLabels;
  }

  /** A tie keeps what is there. */
  lemma SameSampleAgain(points: seq<Point>, x: Tracker.Sample, now: int, b: int, s: Series)
    requires x.series == s
    requires LastSet(points, ValueId(s), b) == Some(Reading(now, x.level.minor))
    requires LastSet(points, CountId(s), b) == Some(Reading(now, x.level.count))
    ensures LastSet(points + PointsFor(x, now), ValueId(s), b) == Some(Reading(now, x.level.minor))
    ensures LastSet(points + PointsFor(x, now), CountId(s), b) == Some(Reading(now, x.level.count))
  {
    var p, p' := PointsFor(x, now)[0], PointsFor(x, now)[1];
    LastSetAfterTwo(points, p, p', ValueId(s), b);
    LastSetAfterTwo(points, p, p', CountId(s), b);
    hide SeriesLabels;
  }

  ghost predicate Mentions(out: seq<Tracker.Sample>, s: Series) { exists x :: x in out && x.series == s }

  /** Both gauges of a series were last set to this, at this instant. */
  predicate SetTo(points: seq<Point>, s: Series, b: int, at: int, level: Level) {
    && LastSet(points, ValueId(s), b) == Some(Reading(at, level.minor))
    && LastSet(points, CountId(s), b) == Some(Reading(at, level.count))
  }

  predicate SetBefore(points: seq<Point>, s: Series, b: int, now: int) {
    var v, c := LastSet(points, ValueId(s), b), LastSet(points, CountId(s), b);
    (v.Some? ==> v.value.at < now) && (c.Some? ==> c.value.at < now)
  }

  /** What a publication makes readable of one series. */
  lemma {:induction false} PublicationReads(points: seq<Point>, out: seq<Tracker.Sample>, now: int, b: int, s: Series, level: Level)
    requires now < b && SetBefore(points, s, b, now)
    requires forall x :: x in out && x.series == s ==> x.level == level
    ensures Mentions(out, s) ==> SetTo(points + Points(out, now), s, b, now, level)
    ensures !Mentions(out, s) ==>
              LastSet(points + Points(out, now), ValueId(s), b) == LastSet(points, ValueId(s), b)
              && LastSet(points + Points(out, now), CountId(s), b) == LastSet(points, CountId(s), b)
  {
    if out == [] {
      assert points + Points(out, now) == points;
    } else {
      var init, last := out[..|out| - 1], out[|out| - 1];
      assert out == init + [last];
      assert last in out && forall x :: x in init ==> x in out;
      PublicationReads(points, init, now, b, s, level);
      var before := points + Points(init, now);
      assert points + Points(out, now) == before + PointsFor(last, now);
      assert Mentions(out, s) <==> Mentions(init, s) || last.series == s;
      hide PointsFor, ValueId, CountId, Points;
      if last.series == s && Mentions(init, s) {
        SameSampleAgain(before, last, now, b, s);
      } else {
        OneMoreSample(before, last, now, b, s);
      }
    }
  }

  /** A point of one of the two families, labelled by a series. */
  ghost predicate GaugePoint(p: Point) {
    (p.name == VALUE || p.name == COUNT) && exists s :: p.labels == SeriesLabels(s)
  }

  lemma {:induction false} PointsAt(out: seq<Tracker.Sample>, now: int)
    ensures forall p :: p in Points(out, now) ==> p.at == now && GaugePoint(p)
  {
    if out != [] {
      PointsAt(out[..|out| - 1], now);
    }
  }

  /** Points no earlier than an instant do not show before it. */
  lemma {:induction false} LateDoesNotShow(points: seq<Point>, late: seq<Point>, id: SeriesId, b: int)
    requires forall p :: p in late ==> p.at >= b
    ensures LastSet(points + late, id, b) == LastSet(points, id, b)
  {
    if late == [] {
      assert points + late == points;
    } else {
      var n := |late| - 1;
      assert late[n] in late;
      LateDoesNotShow(points, late[..n], id, b);
      assert (points + late)[..|points + late| - 1] == points + late[..n];
    }
  }

  lemma {:induction false} SetIsEarly(points: seq<Point>, id: SeriesId, b: int, now: int)
    requires forall p :: p in points ==> p.at < now
    ensures LastSet(points, id, b).Some? ==> LastSet(points, id, b).value.at < now
  {
    if points != [] {
      assert points[|points| - 1] in points;
      SetIsEarly(points[..|points| - 1], id, b, now);
    }
  }

  // ---- what the reader knows after each publish ----

  /** A reader before b sees every series at the tracker's last level. */
  ghost predicate Shows(points: seq<Point>, emitted: seq<Tracker.Sample>, b: int) {
    forall s :: ReadLevel(points, s, b) == LastLevel(emitted, s)
  }

  lemma PublishShows(points: seq<Point>, v: View, v': View, maxItems: nat, out: seq<Tracker.Sample>, now: int, b: int)
    requires Inv(v, maxItems) && IsPublication(out, v.items, v.live, now)
    requires v' == v.(live := Combos(v.items), emitted := v.emitted + out)
    requires Shows(points, v.emitted, b) && now < b && forall p :: p in points ==> p.at < now
    ensures Shows(points + Points(out, now), v'.emitted, b)
  {
    forall s
      ensures ReadLevel(points + Points(out, now), s, b) == LastLevel(v'.emitted, s)
    {
      OneSeriesShows(points, v, maxItems, out, now, b, s);
    }
  }

  lemma OneSeriesShows(points: seq<Point>, v: View, maxItems: nat, out: seq<Tracker.Sample>, now: int, b: int, s: Series)
    requires Inv(v, maxItems) && IsPublication(out, v.items, v.live, now)
    requires Shows(points, v.emitted, b) && now < b && forall p :: p in points ==> p.at < now
    ensures ReadLevel(points + Points(out, now), s, b) == LastLevel(v.emitted + out, s)
  {
    var level := LevelOf(v.items, s, now);
    forall x | x in out && x.series == s
      ensures x.level == level
    {
      SampleIsExact(v, maxItems, now, out, x);
    }
    SetIsEarly(points, ValueId(s), b, now);
    SetIsEarly(points, CountId(s), b, now);
    PublicationReads(points, out, now, b, s, level);
    LastLevelAfter(v.emitted, out, s, level);
    assert ReadLevel(points, s, b) == LastLevel(v.emitted, s);
    hide LastLevel, Points, ValueId, CountId, Inv, IsPublication, LevelOf;
  }

  // ---- the replay ----

  method ApplyCall(tr: InFlightTracker, ledger: seq<Row>, e: QueueEvent)
    requires tr.Valid() && e.row < |ledger|
    modifies tr, tr.shards
    ensures tr.Valid() && tr.Abs() == CallStep(old(tr.Abs()), tr.maxItems, ledger, e)
  {
    hide Inv, TrackStep, DoneStep, MoneyOf;
    var row := ledger[e.row];
    match e.action {
      case TrackCapture => tr.Track(FLOW, "capture", row.id, MoneyOf(row), e.at);
      case DoneCapture => tr.Done(FLOW, "capture", row.id);
      case TrackSettle => tr.Track(FLOW, "settle", row.id, MoneyOf(row), e.at);
      case DoneSettle => tr.Done(FLOW, "settle", row.id);
    }
  }

  /** Nothing refused so far. */
  predicate Clean(v: View) { v.overflow == 0 && v.rejected == 0 }

  /** The calls made are a part of the timeline, in its order. */
  ghost predicate Followed(v: View, ledger: seq<Row>, timeline: seq<QueueEvent>, next: nat)
    requires next <= |timeline|
  {
    && (Orderly(ledger) && Clean(v) ==> ItemsAfter(v.items, ledger, timeline[..next]))
    && (Fits(ledger) ==> NeverRefused(v, ledger, timeline[..next]))
  }

  /** Every currency seen is pinned to the harness's exponent, and there is room. */
  ghost predicate NeverRefused(v: View, ledger: seq<Row>, done: seq<QueueEvent>) {
    Clean(v) && (forall c :: c in v.exponents ==> v.exponents[c] == 2) && OneQueueEach(ledger, done)
  }

  lemma CallNotRefused(v: View, maxItems: nat, ledger: seq<Row>, done: seq<QueueEvent>, e: QueueEvent)
    requires Fits(ledger) && maxItems == TRACKER_BOUND
    requires NeverRefused(v, ledger, done) && ItemsAfter(v.items, ledger, done)
    requires IsOfLedger(ledger, e) && ComesLast(done, e) && AllEarlier(done, ledger, e)
    ensures NeverRefused(CallStep(v, maxItems, ledger, e), ledger, done + [e])
  {
    StillOneQueueEach(ledger, done, e);
    if IsTrack(e.action) {
      RoomForOneMore(v.items, ledger, done, e);
    }
    hide OneQueueEach, ItemsAfter, ComesLast, AllEarlier, Orderly;
  }

  lemma EarlierAreMade(timeline: seq<QueueEvent>, ledger: seq<Row>, next: nat)
    requires StablySorted(timeline) && next < |timeline| && forall e :: e in timeline <==> IsOfLedger(ledger, e)
    ensures AllEarlier(timeline[..next], ledger, timeline[next])
  {
    var e := timeline[next];
    forall x | IsOfLedger(ledger, x) && x.row == e.row && (x.at < e.at || (x.at == e.at && Rank(x.action) < Rank(e.action)))
      ensures x in timeline[..next]
    {
      var j :| 0 <= j < |timeline| && timeline[j] == x;
      assert j < next;
      assert timeline[..next][j] == x;
    }
  }

  lemma NextComesLast(timeline: seq<QueueEvent>, next: nat)
    requires StablySorted(timeline) && next < |timeline|
    ensures ComesLast(timeline[..next], timeline[next])
  {
  }

  lemma CleanIfNeverRefused(v: View, ledger: seq<Row>, done: seq<QueueEvent>)
    ensures NeverRefused(v, ledger, done) ==> Clean(v)
  {
  }

  lemma CallFollows(v: View, maxItems: nat, ledger: seq<Row>, timeline: seq<QueueEvent>, next: nat)
    requires StablySorted(timeline) && next < |timeline| && timeline[next].row < |ledger|
    requires forall e :: e in timeline <==> IsOfLedger(ledger, e)
    requires Followed(v, ledger, timeline, next) && maxItems == TRACKER_BOUND
    ensures Followed(CallStep(v, maxItems, ledger, timeline[next]), ledger, timeline, next + 1)
    ensures var v' := CallStep(v, maxItems, ledger, timeline[next]);
            v'.emitted == v.emitted && v'.overflow >= v.overflow && v'.rejected >= v.rejected
  {
    var e := timeline[next];
    NextComesLast(timeline, next);
    assert timeline[..next + 1] == timeline[..next] + [e];
    assert e in timeline;
    CallGrows(v, maxItems, ledger, e);
    EarlierAreMade(timeline, ledger, next);
    hide NeverRefused, ItemsAfter, CallStep, StablySorted, ComesLast, AllEarlier, IsOfLedger;
    if Fits(ledger) {
      CleanIfNeverRefused(v, ledger, timeline[..next]);
      CallNotRefused(v, maxItems, ledger, timeline[..next], e);
    }
    if Orderly(ledger) && Clean(CallStep(v, maxItems, ledger, e)) {
      CallKeepsItems(v, maxItems, ledger, timeline[..next], e);
    }
  }

  lemma CallGrows(v: View, maxItems: nat, ledger: seq<Row>, e: QueueEvent)
    requires e.row < |ledger|
    ensures var v' := CallStep(v, maxItems, ledger, e);
            v'.emitted == v.emitted && v'.overflow >= v.overflow && v'.rejected >= v.rejected
  {
    hide KeyOf, MoneyOf, IsTrack;
  }

  method ApplyNext(tr: InFlightTracker, ledger: seq<Row>, timeline: seq<QueueEvent>, next: nat)
    requires tr.Valid() && tr.maxItems == TRACKER_BOUND && next < |timeline| && StablySorted(timeline)
    requires forall e :: e in timeline <==> IsOfLedger(ledger, e)
    requires Followed(tr.Abs(), ledger, timeline, next)
    modifies tr, tr.shards
    ensures tr.Valid() && Followed(tr.Abs(), ledger, timeline, next + 1)
    ensures tr.emitted == old(tr.emitted) && tr.overflow >= old(tr.overflow) && tr.rejected >= old(tr.rejected)
  {
    hide Followed, StablySorted, CallStep, Inv, IsOfLedger;
    assert timeline[next] in timeline;
    InRow(ledger, timeline[next]);
    CallFollows(tr.Abs(), tr.maxItems, ledger, timeline, next);
    ApplyCall(tr, ledger, timeline[next]);
  }

  /** All calls due by an instant. */
  method ApplyDue(tr: InFlightTracker, ledger: seq<Row>, timeline: seq<QueueEvent>, from: nat, at: int) returns (next: nat)
    requires tr.Valid() && tr.maxItems == TRACKER_BOUND && from <= |timeline| && StablySorted(timeline)
    requires forall e :: e in timeline <==> IsOfLedger(ledger, e)
    requires Followed(tr.Abs(), ledger, timeline, from)
    modifies tr, tr.shards
    ensures tr.Valid() && from <= next <= |timeline| && Followed(tr.Abs(), ledger, timeline, next)
    ensures forall j :: from <= j < next ==> timeline[j].at <= at
    ensures next < |timeline| ==> timeline[next].at > at
    ensures tr.emitted == old(tr.emitted) && tr.overflow >= old(tr.overflow) && tr.rejected >= old(tr.rejected)
  {
    hide Followed, IsOfLedger, StablySorted, InFlightTracker.Valid, InFlightTracker.Abs;
    next := from;
    while next < |timeline| && timeline[next].at <= at
      invariant tr.Valid() && from <= next <= |timeline| && Followed(tr.Abs(), ledger, timeline, next)
      invariant forall j :: from <= j < next ==> timeline[j].at <= at
      invariant tr.emitted == old(tr.emitted) && tr.overflow >= old(tr.overflow) && tr.rejected >= old(tr.rejected)
    {
      assert timeline[next] in timeline;
      ApplyNext(tr, ledger, timeline, next);
      next := next + 1;
    }
  }

  lemma InRow(ledger: seq<Row>, e: QueueEvent)
    requires IsOfLedger(ledger, e)
    ensures e.row < |ledger|
  {
  }

  method EmitPoints(out: seq<Tracker.Sample>, now: int) returns (points: seq<Point>)
    ensures points == Points(out, now)
  {
    points := [];
    for i := 0 to |out|
      invariant points == Points(out[..i], now)
    {
      assert out[..i + 1][..i] == out[..i];
      points := points + PointsFor(out[i], now);
    }
    assert out[..|out|] == out;
  }

  /** What one publish makes readable, before its instant and after it. */
  lemma PublishedReads(before: seq<Point>, v: View, v': View, maxItems: nat, out: seq<Tracker.Sample>, now: int, to: int)
    requires Inv(v, maxItems) && IsPublication(out, v.items, v.live, now)
    requires v' == v.(live := Combos(v.items), emitted := v.emitted + out)
    ensures forall p :: p in before + Points(out, now) ==> p in before || (p.at == now && GaugePoint(p))
    ensures Shows(before, v.emitted, to) && now < to && (forall p :: p in before ==> p.at < now) ==>
              Shows(before + Points(out, now), v'.emitted, to)
    ensures now >= to ==> forall s :: ReadLevel(before + Points(out, now), s, to) == ReadLevel(before, s, to)
  {
    hide Inv, IsPublication, GaugePoint, Shows;
    PointsAt(out, now);
    if Shows(before, v.emitted, to) && now < to && forall p :: p in before ==> p.at < now {
      PublishShows(before, v, v', maxItems, out, now, to);
    }
    if now >= to {
      forall s
        ensures ReadLevel(before + Points(out, now), s, to) == ReadLevel(before, s, to)
      {
        LateDoesNotShow(before, Points(out, now), ValueId(s), to);
        LateDoesNotShow(before, Points(out, now), CountId(s), to);
      }
    }
  }

  /** One publish, with the clock fixed: the points of its samples. */
  method PublishAt(tr: InFlightTracker, now: int, before: seq<Point>, ghost to: int) returns (points: seq<Point>)
    requires tr.Valid()
    modifies tr
    ensures tr.Valid() && tr.items == old(tr.items) && tr.exponents == old(tr.exponents)
    ensures tr.overflow == old(tr.overflow) && tr.rejected == old(tr.rejected)
    ensures forall p :: p in points ==> p in before || (p.at == now && GaugePoint(p))
    ensures Exact(tr.Abs(), now)
    ensures Shows(before, old(tr.emitted), to) && now < to && (forall p :: p in before ==> p.at < now) ==>
              Shows(points, tr.emitted, to)
    ensures now >= to ==> forall s :: ReadLevel(points, s, to) == ReadLevel(before, s, to)
  {
    hide Inv, Shows, Exact, ReadLevel, GaugePoint, IsPublication, Points, Combos;
    ghost var v := tr.Abs();
    var n := |tr.emitted|;
    tr.Publish(now);
    var samples := tr.emitted[n..];
    ghost var out :| IsPublication(out, v.items, v.live, now) && tr.Abs() == v.(live := Combos(v.items), emitted := v.emitted + out);
    assert samples == out;
    var mine := EmitPoints(samples, now);
    points := before + mine;
    PublishedReads(before, v, tr.Abs(), tr.maxItems, out, now, to);
  }

  // ---- all instants ----

  predicate Ascending(xs: seq<int>) { forall i, j :: 0 <= i < j < |xs| ==> xs[i] <= xs[j] }

  predicate Distinct(xs: seq<int>) { forall i, j :: 0 <= i < j < |xs| ==> xs[i] != xs[j] }

  method SortInstants(raw: seq<int>) returns (sorted: seq<int>)
    ensures Ascending(sorted) && multiset(sorted) == multiset(raw)
  {
    sorted := [];
    for i := 0 to |raw|
      invariant Ascending(sorted) && multiset(sorted) == multiset(raw[..i])
    {
      var k := 0;
      while k < |sorted| && sorted[k] <= raw[i]
        invariant k <= |sorted| && forall j :: 0 <= j < k ==> sorted[j] <= raw[i]
      {
        k := k + 1;
      }
      assert raw[..i + 1] == raw[..i] + [raw[i]];
      assert sorted == sorted[..k] + sorted[k..];
      sorted := sorted[..k] + [raw[i]] + sorted[k..];
    }
    assert raw[..|raw|] == raw;
  }

  /** Sorting keeps instants distinct. */
  lemma SortedDistinct(raw: seq<int>, sorted: seq<int>)
    requires multiset(sorted) == multiset(raw) && Distinct(raw)
    ensures Distinct(sorted)
  {
    forall i, j | 0 <= i < j < |sorted|
      ensures sorted[i] != sorted[j]
    {
      if sorted[i] == sorted[j] {
        var x := sorted[i];
        assert sorted == sorted[..i] + [x] + sorted[i + 1..j] + [x] + sorted[j + 1..];
        assert multiset(sorted)[x] >= 2;
        OnceAtMost(raw, x);
      }
    }
  }

  lemma {:induction false} OnceAtMost(raw: seq<int>, x: int)
    requires Distinct(raw)
    ensures multiset(raw)[x] <= 1
  {
    if raw != [] {
      var n := |raw| - 1;
      OnceAtMost(raw[..n], x);
      assert raw == raw[..n] + [raw[n]];
      if raw[n] == x {
        assert x !in raw[..n];
        assert multiset(raw[..n])[x] == 0;
      }
    }
  }

  /** The last instant before b, if there is one. */
  predicate IsLastBefore(instants: seq<int>, b: int, at: Option<int>) {
    if at.None? then forall x :: x in instants ==> x >= b
    else at.value in instants && at.value < b && forall x :: x in instants && x < b ==> x <= at.value
  }

  /** What a reader before b sees is exactly what was tracked at an instant. */
  ghost predicate ReadsExactly(points: seq<Point>, items: map<Key, Item>, at: int, b: int) {
    forall s :: ReadLevel(points, s, b) == LevelOf(items, s, at)
  }

  /** What is known after the first n instants; at and items are those of the last
      publish before b. */
  ghost predicate Known(v: View, ledger: seq<Row>, sorted: seq<int>, n: nat, points: seq<Point>, b: int,
                        at: Option<int>, items: map<Key, Item>)
    requires n <= |sorted|
  {
    && (n == 0 ==> points == [])
    && (forall p :: p in points ==> p.at in sorted[..n] && GaugePoint(p))
    && IsLastBefore(sorted[..n], b, at)
    && (Distinct(sorted) && (forall j :: 0 <= j < n ==> sorted[j] < b) ==> Shows(points, v.emitted, b))
    && (at.Some? && Distinct(sorted) ==> ReadsExactly(points, items, at.value, b))
    && (at.Some? && Orderly(ledger) && Clean(v) ==> ItemsAt(items, ledger, at.value))
  }

  lemma EarlierPoints(points: seq<Point>, sorted: seq<int>, n: nat)
    requires n < |sorted| && Ascending(sorted) && Distinct(sorted) && forall p :: p in points ==> p.at in sorted[..n]
    ensures forall p :: p in points ==> p.at < sorted[n]
  {
    forall p | p in points
      ensures p.at < sorted[n]
    {
      var j :| 0 <= j < n && sorted[j] == p.at;
    }
  }

  lemma LastBeforeNext(sorted: seq<int>, n: nat, b: int, at: Option<int>)
    requires n < |sorted| && Ascending(sorted) && IsLastBefore(sorted[..n], b, at)
    ensures sorted[..n + 1] == sorted[..n] + [sorted[n]]
    ensures IsLastBefore(sorted[..n + 1], b, if sorted[n] < b then Some(sorted[n]) else at)
    ensures sorted[n] < b ==> forall j :: 0 <= j <= n ==> sorted[j] < b
    ensures at.None? && n > 0 ==> sorted[n] >= b
  {
    if n > 0 {
      assert sorted[..n][n - 1] in sorted[..n];
    }
  }

  lemma NothingShown(b: int)
    ensures Shows([], [], b)
  {
  }

  /** Every call due and none other has been made by the n-th publish. */
  lemma DueAreMade(v: View, ledger: seq<Row>, timeline: seq<QueueEvent>, next: nat, at: int)
    requires StablySorted(timeline) && next <= |timeline| && forall e :: e in timeline <==> IsOfLedger(ledger, e)
    requires (forall j :: 0 <= j < next ==> timeline[j].at <= at) && (next < |timeline| ==> timeline[next].at > at)
    requires Followed(v, ledger, timeline, next) && Orderly(ledger) && Clean(v)
    ensures ItemsAt(v.items, ledger, at)
  {
    hide Holds;
    forall e
      ensures e in timeline[..next] <==> IsOfLedger(ledger, e) && e.at <= at
    {
      if e in timeline {
        var j :| 0 <= j < |timeline| && timeline[j] == e;
        if j < next {
          assert timeline[..next][j] == e;
        }
      }
    }
    AfterIsAt(v.items, ledger, timeline[..next], at);
  }

  /** Publishes at each instant in order. The result is None where the original
      panics: if the tracker refused a call, which it never does of an orderly
      ledger that fits it. Otherwise, for every instant b, a reader before b sees
      of every series exactly the items that an orderly ledger has in its queues
      at the last publish before b. */
  method InFlightPoints(ledger: seq<Row>, instants: seq<int>, hash: string -> nat, ghost b: int)
    returns (r: Option<seq<Point>>, ghost at: Option<int>, ghost items: map<Key, Item>)
    requires |instants| > 0
    ensures IsLastBefore(instants, b, at)
    ensures Fits(ledger) ==> r.Some?
    ensures r.Some? ==> forall p :: p in r.value ==> GaugePoint(p)
    ensures r.Some? && at.None? ==> forall p :: p in r.value ==> p.at >= b
    ensures r.Some? && at.Some? && Distinct(instants) ==> ReadsExactly(r.value, items, at.value, b)
    ensures r.Some? && at.Some? && Orderly(ledger) ==> ItemsAt(items, ledger, at.value)
  {
    hide IsLastBefore, Distinct, StablySorted, Ascending, Fits;
    var raw := BuildTimeline(ledger);
    var timeline := SortStable(raw);
    var sorted := SortInstants(instants);
    var tr := new InFlightTracker(hash, 0);
    var points: seq<Point>;
    points, at, items := PublishAll(tr, ledger, timeline, sorted, b);
    SortedAlike(instants, sorted, b, at);
    if tr.overflow != 0 || tr.rejected != 0 {
      return None, at, items;
    }
    KnownAtLast(tr.Abs(), ledger, sorted, points, b, at, items);
    return Some(points), at, items;
  }

  lemma SortedAlike(instants: seq<int>, sorted: seq<int>, b: int, at: Option<int>)
    requires multiset(sorted) == multiset(instants)
    ensures IsLastBefore(sorted[..|sorted|], b, at) ==> IsLastBefore(instants, b, at)
    ensures Distinct(instants) ==> Distinct(sorted)
  {
    assert sorted[..|sorted|] == sorted;
    assert forall x :: x in sorted <==> x in multiset(instants);
    assert forall x :: x in instants <==> x in multiset(instants);
    if Distinct(instants) {
      SortedDistinct(instants, sorted);
    }
  }

  lemma KnownAtLast(v: View, ledger: seq<Row>, sorted: seq<int>, points: seq<Point>, b: int,
                    at: Option<int>, items: map<Key, Item>)
    requires Known(v, ledger, sorted, |sorted|, points, b, at, items) && Clean(v)
    ensures forall p :: p in points ==> GaugePoint(p)
    ensures at.None? ==> forall p :: p in points ==> p.at >= b
    ensures at.Some? && Distinct(sorted) ==> ReadsExactly(points, items, at.value, b)
    ensures at.Some? && Orderly(ledger) ==> ItemsAt(items, ledger, at.value)
  {
  }

  method PublishAll(tr: InFlightTracker, ledger: seq<Row>, timeline: seq<QueueEvent>, sorted: seq<int>, ghost b: int)
    returns (points: seq<Point>, ghost at: Option<int>, ghost items: map<Key, Item>)
    requires tr.Valid() && tr.maxItems == TRACKER_BOUND && tr.Abs() == EMPTY && StablySorted(timeline) && Ascending(sorted)
    requires forall e :: e in timeline <==> IsOfLedger(ledger, e)
    modifies tr, tr.shards
    ensures tr.Valid() && Known(tr.Abs(), ledger, sorted, |sorted|, points, b, at, items)
    ensures IsLastBefore(sorted[..|sorted|], b, at)
    ensures Fits(ledger) ==> tr.overflow == 0 && tr.rejected == 0
  {
    hide Followed, Fits, StablySorted, Ascending, IsOfLedger, InFlightTracker.Valid;
    points, at, items := [], None, map[];
    var next: nat := 0;
    Start(ledger, timeline, sorted, b);
    hide Known;
    for n := 0 to |sorted|
      invariant tr.Valid() && next <= |timeline| && Followed(tr.Abs(), ledger, timeline, next)
      invariant n > 0 ==> forall j :: 0 <= j < next ==> timeline[j].at <= sorted[n - 1]
      invariant n == 0 ==> next == 0
      invariant Known(tr.Abs(), ledger, sorted, n, points, b, at, items)
    {
      next, points, at, items := OneInstant(tr, ledger, timeline, next, sorted, n, points, b, at, items);
    }
    LastKnown(tr.Abs(), ledger, sorted, points, b, at, items);
    CleanThroughout(tr.Abs(), ledger, timeline, next);
  }

  lemma CleanThroughout(v: View, ledger: seq<Row>, timeline: seq<QueueEvent>, next: nat)
    requires next <= |timeline| && Followed(v, ledger, timeline, next)
    ensures Fits(ledger) ==> v.overflow == 0 && v.rejected == 0
  {
  }

  lemma LastKnown(v: View, ledger: seq<Row>, sorted: seq<int>, points: seq<Point>, b: int,
                  at: Option<int>, items: map<Key, Item>)
    requires Known(v, ledger, sorted, |sorted|, points, b, at, items)
    ensures IsLastBefore(sorted[..|sorted|], b, at)
  {
  }

  lemma Start(ledger: seq<Row>, timeline: seq<QueueEvent>, sorted: seq<int>, b: int)
    ensures Followed(EMPTY, ledger, timeline, 0) && Known(EMPTY, ledger, sorted, 0, [], b, None, map[])
  {
    NothingShown(b);
    NothingTracked(ledger);
    assert NeverRefused(EMPTY, ledger, []);
    assert timeline[..0] == [];
  }

  lemma NothingTracked(ledger: seq<Row>)
    ensures ItemsAfter(map[], ledger, [])
  {
  }

  method OneInstant(tr: InFlightTracker, ledger: seq<Row>, timeline: seq<QueueEvent>, from: nat, sorted: seq<int>, n: nat,
                    before: seq<Point>, ghost b: int, ghost at: Option<int>, ghost items: map<Key, Item>)
    returns (next: nat, points: seq<Point>, ghost at': Option<int>, ghost items': map<Key, Item>)
    requires tr.Valid() && tr.maxItems == TRACKER_BOUND && n < |sorted| && Ascending(sorted) && StablySorted(timeline) && from <= |timeline|
    requires forall e :: e in timeline <==> IsOfLedger(ledger, e)
    requires Followed(tr.Abs(), ledger, timeline, from) && Known(tr.Abs(), ledger, sorted, n, before, b, at, items)
    requires n > 0 ==> forall j :: 0 <= j < from ==> timeline[j].at <= sorted[n - 1]
    requires n == 0 ==> from == 0
    modifies tr, tr.shards
    ensures tr.Valid() && next <= |timeline| && Followed(tr.Abs(), ledger, timeline, next)
    ensures forall j :: 0 <= j < next ==> timeline[j].at <= sorted[n]
    ensures Known(tr.Abs(), ledger, sorted, n + 1, points, b, at', items')
  {
    hide Followed, Known, StablySorted, IsOfLedger, Inv, Shows, Exact, ReadLevel;
    ghost var v0 := tr.Abs();
    next := ApplyDue(tr, ledger, timeline, from, sorted[n]);
    ghost var v1 := tr.Abs();
    points := PublishAt(tr, sorted[n], before, b);
    at', items' := at, items;
    if sorted[n] < b {
      at', items' := Some(sorted[n]), tr.items;
    }
    KnownNext(v0, v1, tr.Abs(), ledger, timeline, next, sorted, n, before, points, b, at, items);
  }

  lemma KnownNext(v0: View, v1: View, v2: View, ledger: seq<Row>, timeline: seq<QueueEvent>, next: nat,
                  sorted: seq<int>, n: nat, before: seq<Point>, points: seq<Point>, b: int, at: Option<int>, items: map<Key, Item>)
    requires n < |sorted| && Ascending(sorted) && StablySorted(timeline) && next <= |timeline|
    requires forall e :: e in timeline <==> IsOfLedger(ledger, e)
    requires Known(v0, ledger, sorted, n, before, b, at, items)
    requires v1.emitted == v0.emitted && v1.overflow >= v0.overflow && v1.rejected >= v0.rejected
    requires v2.items == v1.items && v2.exponents == v1.exponents && v2.overflow == v1.overflow && v2.rejected == v1.rejected
    requires Followed(v1, ledger, timeline, next)
    requires (forall j :: 0 <= j < next ==> timeline[j].at <= sorted[n]) && (next < |timeline| ==> timeline[next].at > sorted[n])
    requires forall p :: p in points ==> p in before || (p.at == sorted[n] && GaugePoint(p))
    requires Exact(v2, sorted[n])
    requires Shows(before, v1.emitted, b) && sorted[n] < b && (forall p :: p in before ==> p.at < sorted[n]) ==>
               Shows(points, v2.emitted, b)
    requires sorted[n] >= b ==> forall s :: ReadLevel(points, s, b) == ReadLevel(before, s, b)
    ensures Followed(v2, ledger, timeline, next)
    ensures Known(v2, ledger, sorted, n + 1, points, b,
                  if sorted[n] < b then Some(sorted[n]) else at, if sorted[n] < b then v2.items else items)
  {
    LastBeforeNext(sorted, n, b, at);
    if sorted[n] < b && Distinct(sorted) {
      EarlierPoints(before, sorted, n);
      assert Shows(points, v2.emitted, b);
    }
    if sorted[n] < b && Orderly(ledger) && Clean(v2) {
      DueAreMade(v1, ledger, timeline, next, sorted[n]);
    }
    hide Followed, ItemsAt, Orderly, Distinct, LastLevel, ReadLevel;
  }
}
