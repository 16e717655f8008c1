/** From admitted calls to a scraped page: the emitter's points as the Prometheus
    exporter gets them (emit/emitter.go, adapters/export/prometheus/prometheus.go). */
module EmitterScrape {
  import opened Wrappers
  import opened Memq
  import opened PromExporter
  import opened EmitterMeters
  import Emitter
  import EmitterSteps

  function ReasonName(r: Emitter.Reason): string {
    match r
    case Overflow => "overflow"
    case Invalid => "invalid"
    case Export => "export"
  }

  function TxnLabels(flow: string, stage: string, result: Emitter.ResultKind, currency: string, segment: string): Labels {
    map["flow" := flow, "stage" := stage, "outcome" := Emitter.ResultName(result), "currency" := currency,
        "segment" := segment]
  }

  function InFlightLabels(flow: string, stage: string, bucket: string, currency: string): Labels {
    map["flow" := flow, "stage" := stage, "age_bucket" := bucket, "currency" := currency]
  }

  /** The metric point the emitter appends. */
  function Wire(p: Emitter.Point): Point {
    match p
    case ValueTotal(flow, stage, result, currency, kind, segment, value, at) =>
      Point("biz_value_total", TxnLabels(flow, stage, result, currency, segment)["kind" := kind], value, at)
    case TxnTotal(flow, stage, result, currency, segment, at) =>
      Point("biz_txn_total", TxnLabels(flow, stage, result, currency, segment), 1, at)
    case InFlightValue(flow, stage, bucket, currency, value, at) =>
      Point("biz_inflight_value", InFlightLabels(flow, stage, bucket, currency), value, at)
    case InFlightCount(flow, stage, bucket, currency, value, at) =>
      Point("biz_inflight_count", InFlightLabels(flow, stage, bucket, currency), value, at)
    case ProviderCall(provider, op, outcome, at) =>
      Point("biz_provider_calls_total", map["provider" := provider, "op" := op, "outcome" := outcome], 1, at)
    case DroppedEvents(reason, n, at) =>
      Point("biz_dropped_events_total", map["reason" := ReasonName(reason)], n, at)
  }

  // ---- every family is known, by all its labels ----

  lemma FamiliesDiffer(p: Emitter.Point)
    ensures Wire(p).name in COUNTER_LABELS <==> !p.InFlightValue? && !p.InFlightCount?
    ensures p.ValueTotal? ==> LabelOrder(Wire(p).name) == ["flow", "stage", "outcome", "currency", "kind", "segment"]
    ensures p.TxnTotal? ==> LabelOrder(Wire(p).name) == ["flow", "stage", "outcome", "currency", "segment"]
    ensures p.ProviderCall? ==> LabelOrder(Wire(p).name) == ["provider", "op", "outcome"]
    ensures p.DroppedEvents? ==> LabelOrder(Wire(p).name) == ["reason"]
    ensures p.InFlightValue? || p.InFlightCount? ==> LabelOrder(Wire(p).name) == ["flow", "stage", "age_bucket", "currency"]
  {
    assert |"biz_value_total"| == 15 && |"biz_txn_total"| == 13 && |"biz_inflight_value"| == 18 && |"biz_provider_calls_total"| == 24;
  }

  /** The exporter knows every family the emitter has, under exactly the labels the
      emitter sets, and refuses nothing but a negative amount. */
  lemma EmittedIsExportable(p: Emitter.Point)
    ensures ProperLabels(Wire(p).name, Wire(p).labels)
    ensures Good(Wire(p)) <==> (p.ValueTotal? ==> p.value >= 0)
  {
    FamiliesDiffer(p);
    hide LabelOrder;
  }

  // ---- what a scrape shows of the calls ----

  function MeterName(m: Meter): string { if m.ValueOf? then "biz_value_total" else "biz_txn_total" }

  function MeterLabels(m: Meter): Labels {
    match m
    case ValueOf(flow, stage, result, currency, kind, segment) =>
      TxnLabels(flow, stage, result, currency, segment)["kind" := kind]
    case TxnsOf(flow, stage, result, currency, segment) => TxnLabels(flow, stage, result, currency, segment)
  }

  function SeriesKey(m: Meter): Key { KeyOf(MeterName(m), MeterLabels(m)) }

  function Wires(points: seq<Emitter.Point>): seq<Point> {
    if points == [] then [] else Wires(points[..|points| - 1]) + [Wire(points[|points| - 1])]
  }

  /** A point of the meter's family is in its series exactly if it carries its labels. */
  predicate Fits(p: Emitter.Point, m: Meter) {
    match m
    case ValueOf(flow, stage, result, currency, kind, segment) =>
      p.ValueTotal? && p == Emitter.ValueTotal(flow, stage, result, currency, kind, segment, p.value, p.at)
    case TxnsOf(flow, stage, result, currency, segment) =>
      p.TxnTotal? && p == Emitter.TxnTotal(flow, stage, result, currency, segment, p.at)
  }

  lemma SameLabels(p: Emitter.Point, m: Meter)
    requires if m.ValueOf? then p.ValueTotal? else p.TxnTotal?
    ensures Wire(p).labels == MeterLabels(m) <==> Fits(p, m)
  {
    Emitter.NamesDiffer(p.result, m.result);
    var a, b := Wire(p).labels, MeterLabels(m);
    if a == b {
      assert a["flow"] == b["flow"] && a["stage"] == b["stage"] && a["outcome"] == b["outcome"]
          && a["currency"] == b["currency"] && a["segment"] == b["segment"];
      assert m.ValueOf? ==> a["kind"] == b["kind"];
    }
  }

  lemma MeterIsProper(m: Meter)
    ensures MeterName(m) in COUNTER_LABELS && ProperLabels(MeterName(m), MeterLabels(m))
  {
    var p := match m
      case ValueOf(flow, stage, result, currency, kind, segment) => Emitter.ValueTotal(flow, stage, result, currency, kind, segment, 0, 0)
      case TxnsOf(flow, stage, result, currency, segment) => Emitter.TxnTotal(flow, stage, result, currency, segment, 0);
    EmittedIsExportable(p);
    FamiliesDiffer(p);
    hide LabelOrder, Good;
  }

  /** No two series of the emitter share one on the page. */
  lemma PointsInSeries(p: Emitter.Point, m: Meter)
    ensures IsCounter(Wire(p)) && KeyOf(Wire(p).name, Wire(p).labels) == SeriesKey(m) <==> Fits(p, m)
  {
    MeterIsProper(m);
    EmittedIsExportable(p);
    hide Good, Values;
    if Wire(p).name == MeterName(m) {
      NameTellsFamily(p, m);
      ValuesNameTheSeries(MeterName(m), Wire(p).labels, MeterLabels(m));
      SameLabels(p, m);
    } else {
      assert !Fits(p, m);
    }
    hide *;
  }

  lemma NameTellsFamily(p: Emitter.Point, m: Meter)
    ensures Wire(p).name == MeterName(m) <==> if m.ValueOf? then p.ValueTotal? else p.TxnTotal?
  {
    assert |"biz_value_total"| == 15 && |"biz_txn_total"| == 13 && |"biz_inflight_value"| == 18 && |"biz_inflight_count"| == 18
        && |"biz_provider_calls_total"| == 24 && |"biz_dropped_events_total"| == 24;
  }

  /** What a scrape shows of a counter is what was delivered to it. */
  lemma {:induction false} ScrapeIsMetered(points: seq<Emitter.Point>, m: Meter)
    ensures CounterTotal(Wires(points), SeriesKey(m)) == Metered(points, m)
  {
    if points != [] {
      var init, last := points[..|points| - 1], points[|points| - 1];
      ScrapeIsMetered(init, m);
      PointsInSeries(last, m);
      hide SeriesKey;
      assert Wires(points)[..|Wires(points)| - 1] == Wires(init);
    }
  }

  /** In every interleaving, once all is flushed and if no point was given up, the
      scraped counters are the number of admitted calls and the sum of their
      amounts, estimates left out, under every set of labels. */
  lemma ScrapeTellsWhatWasAdmitted(c: EmitterSteps.Config, states: seq<EmitterSteps.State>, i: nat, m: Meter)
    requires EmitterSteps.IsRun(c, states) && i < |states| && EmitterSteps.Drained(states[i])
    requires states[i].view.points == [] && states[i].spilled == []
    ensures CounterTotal(Wires(states[i].sent), SeriesKey(m)) == OwedByAll(c.reg, states[i].admitted, m)
  {
    BackendTotals(c, states, i, m);
    ScrapeIsMetered(states[i].sent, m);
  }
}
