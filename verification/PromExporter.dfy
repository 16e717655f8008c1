/** The Prometheus exporter (adapters/export/prometheus/prometheus.go): deltas
    become cumulative counters, and a stale gauge sample never overwrites a fresher
    one. */
module PromExporter {
  import opened Wrappers
  import opened Memq
  import opened PromQL

  /** Label values are positional, in each family's fixed order. */
  const COUNTER_LABELS: map<string, seq<string>> := map[
    "biz_value_total" := ["flow", "stage", "outcome", "currency", "kind", "segment"],
    "biz_txn_total" := ["flow", "stage", "outcome", "currency", "segment"],
    "biz_provider_calls_total" := ["provider", "op", "outcome"],
    "biz_dropped_events_total" := ["reason"]]
  const INFLIGHT_LABELS := ["flow", "stage", "age_bucket", "currency"]

  function LabelOrder(name: string): seq<string> {
    if name in COUNTER_LABELS then COUNTER_LABELS[name] else INFLIGHT_LABELS
  }

  function Values(labels: Labels, order: seq<string>): seq<string> {
    seq(|order|, i requires 0 <= i < |order| => Label(labels, order[i]))
  }

  method OrderedValues(labels: Labels, order: seq<string>) returns (out: seq<string>)
    ensures out == Values(labels, order)
  {
    out := [];
    for i := 0 to |order|
      invariant out == Values(labels, order)[..i]
    {
      out := out + [Label(labels, order[i])];
    }
  }

  datatype Key = Key(name: string, values: seq<string>)

  function KeyOf(name: string, labels: Labels): Key { Key(name, Values(labels, LabelOrder(name))) }

  predicate IsCounter(p: Point) { p.name in COUNTER_LABELS }

  /** A known family, and a counter never goes down. */
  predicate Good(p: Point) {
    if IsCounter(p) then p.value >= 0 else p.name in GAUGE_FAMILIES
  }

  // ---- what the registry should show after a history of points ----

  function CounterTotal(applied: seq<Point>, k: Key): int {
    if applied == [] then 0 else
      var p := applied[|applied| - 1];
      CounterTotal(applied[..|applied| - 1], k) + if IsCounter(p) && KeyOf(p.name, p.labels) == k then p.value else 0
  }

  /** The freshest level applied, the last of a tie. */
  function Fresh(applied: seq<Point>, k: Key): Option<Reading> {
    if applied == [] then None else
      var was, p := Fresh(applied[..|applied| - 1], k), applied[|applied| - 1];
      if !IsCounter(p) && KeyOf(p.name, p.labels) == k && (was.Some? ==> was.value.at <= p.at) then Some(Reading(p.at, p.value))
      else was
  }

  predicate Counted(applied: seq<Point>, k: Key) {
    exists p :: p in applied && IsCounter(p) && KeyOf(p.name, p.labels) == k
  }

  /** How much of a batch is applied before its first bad point. */
  function GoodPrefix(batch: seq<Point>): (n: nat)
    ensures n <= |batch| && (forall i :: 0 <= i < n ==> Good(batch[i])) && (n < |batch| ==> !Good(batch[n]))
  {
    if batch == [] || !Good(batch[0]) then 0 else
      var n := GoodPrefix(batch[1..]);
      assert forall i :: 0 < i < n + 1 ==> batch[i] == batch[1..][i - 1];
      n + 1
  }

  datatype ExportError = UnknownFamily | NegativeDelta

  class Exporter {
    var counters: map<Key, int>
    var gauges: map<Key, int>
    var inflightAt: map<Key, int>

    /** Every point applied so far, in order of arrival. */
    ghost var applied: seq<Point>

    ghost predicate CounterOk(k: Key)
      reads this
    {
      (k in counters <==> Counted(applied, k)) && (k in counters ==> counters[k] == CounterTotal(applied, k))
    }

    ghost predicate GaugeOk(k: Key)
      reads this
    {
      var level := Fresh(applied, k);
      && (k in gauges <==> level.Some?) && (k in inflightAt <==> level.Some?)
      && (level.Some? ==> gauges[k] == level.value.value && inflightAt[k] == level.value.at)
    }

    /** The registry shows exactly what its history adds up to. */
    ghost predicate Valid()
      reads this
    {
      forall k :: CounterOk(k) && GaugeOk(k)
    }

    constructor ()
      ensures Valid() && applied == []
    {
      counters, gauges, inflightAt, applied := map[], map[], map[], [];
    }

    /** Applies a batch up to its first bad point, which is the error; what came
        before stays applied. */
    method ExportMetrics(batch: seq<Point>) returns (err: Option<ExportError>)
      requires Valid()
      modifies this
      ensures Valid() && applied == old(applied) + batch[..GoodPrefix(batch)]
      ensures err.None? <==> GoodPrefix(batch) == |batch|
      ensures err.Some? ==> err.value == if IsCounter(batch[GoodPrefix(batch)]) then NegativeDelta else UnknownFamily
    {
      for i := 0 to |batch|
        invariant Valid() && applied == old(applied) + batch[..i]
        invariant forall j :: 0 <= j < i ==> Good(batch[j])
      {
        var p := batch[i];
        assert batch[..i + 1] == batch[..i] + [p];
        if p.name in COUNTER_LABELS {
          var ok := AddCounter(p);
          if !ok {
            return Some(NegativeDelta);
          }
        } else if p.name in GAUGE_FAMILIES {
          SetInflight(p);
        } else {
          return Some(UnknownFamily);
        }
      }
      return None;
    }

    method AddCounter(p: Point) returns (ok: bool)
      requires Valid() && IsCounter(p)
      modifies `counters, `applied
      ensures Valid() && ok == Good(p) && applied == old(applied) + if ok then [p] else []
    {
      if p.value < 0 {
        return false;
      }
      hide Fresh, CounterTotal, Counted;
      var values := OrderedValues(p.labels, COUNTER_LABELS[p.name]);
      var k := Key(p.name, values);
      ghost var was := applied;
      counters := counters[k := (if k in counters then counters[k] else 0) + p.value];
      applied := applied + [p];
      forall x
        ensures CounterOk(x) && GaugeOk(x)
      {
        assert old(CounterOk(x) && GaugeOk(x) && CounterOk(k));
        OneMore(was, p, x);
        if !Counted(was, k) {
          NeverCounted(was, k);
        }
      }
      return true;
    }

    /** A level older than the one shown is ignored; an equal one replaces it. */
    method SetInflight(p: Point)
      requires Valid() && !IsCounter(p)
      modifies `gauges, `inflightAt, `applied
      ensures Valid() && applied == old(applied) + [p]
    {
      hide Fresh, CounterTotal, Counted;
      var values := OrderedValues(p.labels, INFLIGHT_LABELS);
      var k := Key(p.name, values);
      ghost var was := applied;
      applied := applied + [p];
      assert old(GaugeOk(k));
      if !(k in inflightAt && p.at < inflightAt[k]) {
        gauges := gauges[k := p.value];
        inflightAt := inflightAt[k := p.at];
      }
      forall x
        ensures CounterOk(x) && GaugeOk(x)
      {
        assert old(CounterOk(x) && GaugeOk(x));
        OneMore(was, p, x);
      }
    }
  }

  lemma OneMore(applied: seq<Point>, p: Point, k: Key)
    ensures CounterTotal(applied + [p], k)
         == CounterTotal(applied, k) + if IsCounter(p) && KeyOf(p.name, p.labels) == k then p.value else 0
    ensures Counted(applied + [p], k) <==> Counted(applied, k) || (IsCounter(p) && KeyOf(p.name, p.labels) == k)
    ensures Fresh(applied + [p], k)
         == if !IsCounter(p) && KeyOf(p.name, p.labels) == k
               && (Fresh(applied, k).Some? ==> Fresh(applied, k).value.at <= p.at) then Some(Reading(p.at, p.value))
            else Fresh(applied, k)
  {
    var all := applied + [p];
    assert all[..|applied|] == applied;
    assert p in all && forall x :: x in all <==> x in applied || x == p;
  }

  lemma {:induction false} NeverCounted(applied: seq<Point>, k: Key)
    requires !Counted(applied, k)
    ensures CounterTotal(applied, k) == 0
  {
    if applied != [] {
      assert applied[|applied| - 1] in applied;
      NeverCounted(applied[..|applied| - 1], k);
    }
  }

  // ---- arrival order ----

  lemma {:induction false} TakeOut(applied: seq<Point>, i: nat, k: Key)
    requires i < |applied|
    ensures CounterTotal(applied, k)
         == CounterTotal(applied[..i] + applied[i + 1..], k)
            + if IsCounter(applied[i]) && KeyOf(applied[i].name, applied[i].labels) == k then applied[i].value else 0
  {
    hide KeyOf, IsCounter;
    var n := |applied| - 1;
    if i == n {
      assert applied[..i] + applied[i + 1..] == applied[..n];
    } else {
      TakeOut(applied[..n], i, k);
      assert applied[..n][..i] + applied[..n][i + 1..] == (applied[..i] + applied[i + 1..])[..n - 1];
    }
  }

  lemma MultisetWithout(s: seq<Point>, i: nat)
    requires i < |s|
    ensures multiset(s) == multiset(s[..i] + s[i + 1..]) + multiset{s[i]}
  {
    assert s == s[..i] + [s[i]] + s[i + 1..];
  }

  lemma Cancel(a: multiset<Point>, b: multiset<Point>, p: Point)
    requires a + multiset{p} == b + multiset{p}
    ensures a == b
  {
    forall x
      ensures a[x] == b[x]
    {
      assert (a + multiset{p})[x] == (b + multiset{p})[x];
    }
  }

  /** Counters do not depend on the order points arrive in. */
  lemma {:induction false} TotalsIgnoreOrder(a: seq<Point>, b: seq<Point>, k: Key)
    requires multiset(a) == multiset(b)
    ensures CounterTotal(a, k) == CounterTotal(b, k)
  {
    hide KeyOf, IsCounter;
    if a == [] {
      assert |multiset(b)| == |b|;
    } else {
      var n := |a| - 1;
      var p := a[n];
      assert p in multiset(a);
      var i :| 0 <= i < |b| && b[i] == p;
      MultisetWithout(a, n);
      MultisetWithout(b, i);
      assert a[..n] + a[n + 1..] == a[..n];
      Cancel(multiset(a[..n]), multiset(b[..i] + b[i + 1..]), p);
      TakeOut(b, i, k);
      TotalsIgnoreOrder(a[..n], b[..i] + b[i + 1..], k);
    }
  }

  predicate IsLevelOf(p: Point, k: Key) { !IsCounter(p) && KeyOf(p.name, p.labels) == k }

  /** What is shown is some sample of the series that no other is fresher than. */
  lemma {:induction false} FreshIsLatest(applied: seq<Point>, k: Key)
    ensures Fresh(applied, k).None? <==> forall p :: p in applied ==> !IsLevelOf(p, k)
    ensures Fresh(applied, k).Some? ==>
              && (exists p :: p in applied && IsLevelOf(p, k) && Fresh(applied, k).value == Reading(p.at, p.value))
              && (forall p :: p in applied && IsLevelOf(p, k) ==> p.at <= Fresh(applied, k).value.at)
  {
    if applied != [] {
      var init, last := applied[..|applied| - 1], applied[|applied| - 1];
      FreshIsLatest(init, k);
      assert applied == init + [last];
      assert last in applied;
    }
  }

  predicate NoneFresher(applied: seq<Point>, p: Point, k: Key) {
    forall x :: x in applied && IsLevelOf(x, k) ==> x.at <= p.at
  }

  /** All samples of the series at its latest time agree. */
  predicate LatestAgree(applied: seq<Point>, k: Key) {
    forall p, p' ::
      p in applied && p' in applied && IsLevelOf(p, k) && IsLevelOf(p', k) && NoneFresher(applied, p, k) && p.at == p'.at ==>
        p.value == p'.value
  }

  lemma AgreeingLatest(a: seq<Point>, b: seq<Point>, k: Key)
    requires multiset(a) == multiset(b) && LatestAgree(a, k)
    ensures Fresh(a, k) == Fresh(b, k)
  {
    FreshIsLatest(a, k);
    FreshIsLatest(b, k);
    assert forall p :: p in a <==> p in multiset(a);
    assert forall p :: p in b <==> p in multiset(b);
  }

  /** A sample at the latest time is shown if it arrives last. */
  lemma MovedLast(a: seq<Point>, p: Point, k: Key) returns (b: seq<Point>)
    requires p in a && IsLevelOf(p, k) && NoneFresher(a, p, k)
    ensures multiset(b) == multiset(a) && Fresh(b, k) == Some(Reading(p.at, p.value))
  {
    var i :| 0 <= i < |a| && a[i] == p;
    var rest := a[..i] + a[i + 1..];
    b := rest + [p];
    MultisetWithout(a, i);
    FreshIsLatest(rest, k);
    assert forall x :: x in rest ==> x in a;
    OneMore(rest, p, k);
  }

  /** Whatever the order of arrival, the same level is shown, exactly if all samples
      of the series at its latest time agree. */
  lemma FreshIgnoresOrder(a: seq<Point>, k: Key)
    ensures (forall b :: multiset(b) == multiset(a) ==> Fresh(b, k) == Fresh(a, k)) <==> LatestAgree(a, k)
  {
    if LatestAgree(a, k) {
      forall b | multiset(b) == multiset(a)
        ensures Fresh(b, k) == Fresh(a, k)
      {
        AgreeingLatest(a, b, k);
      }
    } else {
      var p, p' :| p in a && p' in a && IsLevelOf(p, k) && IsLevelOf(p', k)
                   && NoneFresher(a, p, k) && p.at == p'.at && p.value != p'.value;
      var b := MovedLast(a, p, k);
      var b' := MovedLast(a, p', k);
    }
  }

  lemma FreshOfTwo(p: Point, p': Point, k: Key)
    requires IsLevelOf(p, k) && IsLevelOf(p', k) && p.at == p'.at
    ensures Fresh([p, p'], k) == Some(Reading(p'.at, p'.value))
  {
    hide KeyOf;
    assert [p, p'][..1] == [p] && [p][..0] == [];
    assert Fresh([p], k) == Some(Reading(p.at, p.value));
  }

  lemma LastSetOfTwo(p: Point, p': Point)
    requires SeriesOf(p) == SeriesOf(p') && p.at == p'.at
    ensures LastSet([p, p'], SeriesOf(p), p.at + 1) == Some(Reading(p.at, p.value))
  {
    assert [p, p'][..1] == [p] && [p][..0] == [];
    assert LastSet([p], SeriesOf(p), p.at + 1) == Some(Reading(p.at, p.value));
  }

  /** With a tie the order does show, and the in-memory reference, which keeps the
      first, differs from the exporter, which keeps the last. */
  lemma TiesDiffer(p: Point, p': Point)
    requires p.name == p'.name && !IsCounter(p) && p.labels == p'.labels && p.at == p'.at && p.value != p'.value
    ensures var k := KeyOf(p.name, p.labels);
            Fresh([p, p'], k) == Some(Reading(p.at, p'.value)) != Fresh([p', p], k)
    ensures LastSet([p, p'], SeriesOf(p), p.at + 1) == Some(Reading(p.at, p.value))
  {
    var k := KeyOf(p.name, p.labels);
    FreshOfTwo(p, p', k);
    FreshOfTwo(p', p, k);
    LastSetOfTwo(p, p');
  }

  // ---- what a scrape shows ----

  /** The point carries its family's labels and no others. */
  predicate ProperLabels(name: string, labels: Labels) {
    labels.Keys == set l | l in LabelOrder(name)
  }

  lemma ValuesNameTheSeries(name: string, a: Labels, b: Labels)
    requires ProperLabels(name, a) && ProperLabels(name, b)
    ensures KeyOf(name, a) == KeyOf(name, b) <==> a == b
  {
    if KeyOf(name, a) == KeyOf(name, b) {
      var order := LabelOrder(name);
      forall l | l in a.Keys
        ensures a[l] == b[l]
      {
        var i :| 0 <= i < |order| && order[i] == l;
        assert Values(a, order)[i] == a[l] && Values(b, order)[i] == b[l];
      }
    }
  }

  /** The first sample of the series at its latest time, by arrival. */
  predicate IsFirstLatest(applied: seq<Point>, k: Key, i: nat) {
    && i < |applied| && IsLevelOf(applied[i], k) && NoneFresher(applied, applied[i], k)
    && forall j :: 0 <= j < i && IsLevelOf(applied[j], k) ==> applied[j].at < applied[i].at
  }

  /** The last one. */
  predicate IsLastLatest(applied: seq<Point>, k: Key, i: nat) {
    && i < |applied| && IsLevelOf(applied[i], k) && NoneFresher(applied, applied[i], k)
    && forall j :: i < j < |applied| && IsLevelOf(applied[j], k) ==> applied[j].at < applied[i].at
  }

  ghost predicate EndsAgree(applied: seq<Point>, k: Key) {
    forall i: nat, j: nat :: IsFirstLatest(applied, k, i) && IsLastLatest(applied, k, j) ==> applied[i].value == applied[j].value
  }

  predicate Proper(applied: seq<Point>, b: int) {
    forall p :: p in applied ==> Good(p) && ProperLabels(p.name, p.labels) && p.at < b
  }

  lemma LevelsOfSeries(applied: seq<Point>, id: SeriesId, b: int, p: Point)
    requires Proper(applied, b) && p in applied && ProperLabels(id.name, id.labels)
    ensures id.name !in COUNTER_LABELS ==> (Before(p, id, b) <==> IsLevelOf(p, KeyOf(id.name, id.labels)))
    ensures id.name in COUNTER_LABELS ==>
              (Before(p, id, b) <==> IsCounter(p) && KeyOf(p.name, p.labels) == KeyOf(id.name, id.labels))
  {
    if p.name == id.name {
      ValuesNameTheSeries(id.name, p.labels, id.labels);
    }
    hide Values;
  }

  lemma {:induction false} FreshIsLast(applied: seq<Point>, k: Key) returns (i: nat)
    requires Fresh(applied, k).Some?
    ensures IsLastLatest(applied, k, i) && Fresh(applied, k) == Some(Reading(applied[i].at, applied[i].value))
  {
    var n := |applied| - 1;
    var init, p := applied[..n], applied[n];
    FreshIsLatest(init, k);
    assert applied == init + [p];
    if IsLevelOf(p, k) && (Fresh(init, k).Some? ==> Fresh(init, k).value.at <= p.at) {
      i := n;
    } else {
      i := FreshIsLast(init, k);
    }
  }

  lemma NextFirst(init: seq<Point>, p: Point, k: Key, i: nat)
    requires i < |init| && IsFirstLatest(init, k, i)
    ensures if IsLevelOf(p, k) && init[i].at < p.at then IsFirstLatest(init + [p], k, |init|) else IsFirstLatest(init + [p], k, i)
  {
    hide KeyOf, IsCounter;
    assert init[i] in init;
    assert forall x :: x in init + [p] <==> x in init || x == p;
  }

  lemma OnlyFirst(init: seq<Point>, p: Point, k: Key)
    requires IsLevelOf(p, k) && forall x :: x in init ==> !IsLevelOf(x, k)
    ensures IsFirstLatest(init + [p], k, |init|)
  {
    hide KeyOf, IsCounter;
    assert forall j :: 0 <= j < |init| ==> init[j] in init;
  }

  lemma {:induction false} LastSetIsFirst(applied: seq<Point>, id: SeriesId, b: int) returns (i: nat)
    requires Proper(applied, b) && ProperLabels(id.name, id.labels) && id.name !in COUNTER_LABELS
    ensures var k := KeyOf(id.name, id.labels);
            && (LastSet(applied, id, b).None? ==> forall p :: p in applied ==> !IsLevelOf(p, k))
            && (LastSet(applied, id, b).Some? ==>
                  i < |applied| && IsFirstLatest(applied, k, i) && LastSet(applied, id, b) == Some(Reading(applied[i].at, applied[i].value)))
  {
    i := 0;
    if applied != [] {
      var n, k := |applied| - 1, KeyOf(id.name, id.labels);
      var init, p := applied[..n], applied[n];
      assert applied == init + [p] && p in applied && forall x :: x in init ==> x in applied;
      i := LastSetIsFirst(init, id, b);
      LevelsOfSeries(applied, id, b, p);
      hide KeyOf, ProperLabels, Good, IsFirstLatest, Before;
      if LastSet(init, id, b).Some? {
        NextFirst(init, p, k, i);
      } else if IsLevelOf(p, k) {
        OnlyFirst(init, p, k);
      }
      if Before(p, id, b) && (LastSet(init, id, b).Some? ==> LastSet(init, id, b).value.at < p.at) {
        i := n;
      }
    }
  }

  /** The exporter and the in-memory reference, which keeps the first sample of a
      tie, show one level exactly if the first and the last at the latest time agree. */
  lemma ShowsTheReference(applied: seq<Point>, id: SeriesId, b: int)
    requires Proper(applied, b) && ProperLabels(id.name, id.labels) && id.name !in COUNTER_LABELS
    ensures var k := KeyOf(id.name, id.labels); Fresh(applied, k) == LastSet(applied, id, b) <==> EndsAgree(applied, k)
  {
    var k := KeyOf(id.name, id.labels);
    FreshIsLatest(applied, k);
    var i := LastSetIsFirst(applied, id, b);
    if LastSet(applied, id, b).Some? {
      var j := FreshIsLast(applied, k);
      OneFirstOneLast(applied, k, i, j);
    } else {
      assert forall i: nat :: i < |applied| ==> applied[i] in applied;
    }
    hide KeyOf, Proper, ProperLabels;
  }

  lemma OneFirstOneLast(applied: seq<Point>, k: Key, i: nat, j: nat)
    requires IsFirstLatest(applied, k, i) && IsLastLatest(applied, k, j)
    ensures applied[i].at == applied[j].at
    ensures EndsAgree(applied, k) <==> applied[i].value == applied[j].value
  {
    assert applied[i] in applied && applied[j] in applied;
    forall x: nat, y: nat | IsFirstLatest(applied, k, x) && IsLastLatest(applied, k, y)
      ensures x == i && y == j
    {
      assert applied[x] in applied && applied[y] in applied;
    }
  }

  /** A scrape after some points shows what the query language is given to read: the
      totals, always, and a level exactly if its series' latest samples agree. */
  lemma ScrapeIsTruthful(applied: seq<Point>, id: SeriesId, b: int)
    requires Proper(applied, b) && ProperLabels(id.name, id.labels)
    ensures var k := KeyOf(id.name, id.labels);
            if id.name in COUNTER_LABELS then CounterTotal(applied, k) == Total(applied, id, b)
            else Fresh(applied, k) == LastSet(applied, id, b) <==> EndsAgree(applied, k)
  {
    if id.name in COUNTER_LABELS {
      TotalsAreShown(applied, id, b);
    } else {
      ShowsTheReference(applied, id, b);
    }
  }

  lemma {:induction false} TotalsAreShown(applied: seq<Point>, id: SeriesId, b: int)
    requires Proper(applied, b) && ProperLabels(id.name, id.labels) && id.name in COUNTER_LABELS
    ensures CounterTotal(applied, KeyOf(id.name, id.labels)) == Total(applied, id, b)
  {
    if applied != [] {
      var init, p := applied[..|applied| - 1], applied[|applied| - 1];
      assert p in applied && forall x :: x in init ==> x in applied;
      TotalsAreShown(init, id, b);
      LevelsOfSeries(applied, id, b, p);
      hide KeyOf, ProperLabels, Good;
    }
  }
}
