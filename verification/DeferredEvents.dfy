/** The events route to the deferred leg (deferredFromEvents in
    engine/deferred.go). */
module DeferredEvents {
  import opened Wrappers
  import opened FiniteSums
  import opened Money
  import opened Tracker
  import opened Memq
  import opened MemqEvents
  import opened Deferred
  import opened DeferredGauge
  import Emitter

  datatype EntityStage = EntityStage(flow: string, stage: string, currency: string, entity: string)

  datatype InflightItem = InflightItem(bucket: string, minor: int)

  const EVENT_LABELS := ["flow", "stage", "currency", "entity"]

  function KeyLabels(k: EntityStage): Labels {
    map["flow" := k.flow, "stage" := k.stage, "currency" := k.currency, "entity" := k.entity]
  }

  function KeyFrom(g: Labels): EntityStage {
    EntityStage(Label(g, "flow"), Label(g, "stage"), Label(g, "currency"), Label(g, "entity"))
  }

  function KeyOfEvent(o: Emitter.Outcome): EntityStage {
    EntityStage(o.flow, o.stage, o.money.currency, o.entity)
  }

  predicate FlowOk(req: Request, flow: string) { req.flow.None? || req.flow.value == flow }

  function OutcomeFilter(req: Request, result: Emitter.ResultKind): Labels {
    FlowFilter(req)["outcome" := Emitter.ResultName(result)]
  }

  function EventsQuery(req: Request, result: Emitter.ResultKind, start: int, end: int, agg: EventAgg): EventQuery {
    EventQuery(OutcomeFilter(req, result), EVENT_LABELS, start, end, agg)
  }

  predicate Reported(o: Emitter.Outcome, req: Request, result: Emitter.ResultKind, start: int, end: int) {
    o.result == result && FlowOk(req, o.flow) && start <= o.at < end
  }

  /** What a query's keys stand for. */
  lemma QueryReads(o: Emitter.Outcome, req: Request, result: Emitter.ResultKind, start: int, end: int, agg: EventAgg, g: Labels)
    ensures Belongs(EventsQuery(req, result, start, end, agg), o, g)
       <==> Reported(o, req, result, start, end) && g == KeyLabels(KeyOfEvent(o))
  {
    var q := EventsQuery(req, result, start, end, agg);
    Emitter.NamesDiffer(o.result, result);
    FilterReads(o, req, result);
    assert GroupKey(EventLabels(o), EVENT_LABELS) == KeyLabels(KeyOfEvent(o));
  }

  lemma FilterReads(o: Emitter.Outcome, req: Request, result: Emitter.ResultKind)
    ensures MatchFilters(EventLabels(o), OutcomeFilter(req, result))
       <==> FlowOk(req, o.flow) && Emitter.ResultName(o.result) == Emitter.ResultName(result)
  {
    var labels, filters := EventLabels(o), OutcomeFilter(req, result);
    assert "outcome" in filters && Label(labels, "outcome") == Emitter.ResultName(o.result);
    if req.flow.Some? {
      assert "flow" in filters && filters["flow"] == req.flow.value && Label(labels, "flow") == o.flow;
    }
  }

  lemma KeyLabelsInvert(k: EntityStage)
    ensures KeyFrom(KeyLabels(k)) == k
  {
  }

  // ---- the lookback ----

  const MIN_LOOKBACK := 2 * HOUR

  predicate HasDeadline(reg: Option<Registry>, flow: Option<string>, d: int) {
    reg.Some? && exists f, s :: f in reg.value && (flow.None? || flow.value == f)
                                && s in reg.value[f].sla && reg.value[f].sla[s].deadline == d
  }

  /** Two hours, or the longest deadline of the flows asked for. */
  ghost predicate IsLookback(reg: Option<Registry>, flow: Option<string>, d: int) {
    && d >= MIN_LOOKBACK && (d == MIN_LOOKBACK || HasDeadline(reg, flow, d))
    && forall x :: HasDeadline(reg, flow, x) ==> x <= d
  }

  /** It reaches back to the floor of every bucket, and to every deadline. */
  lemma LookbackReaches(reg: Option<Registry>, flow: Option<string>, d: int)
    requires IsLookback(reg, flow, d)
    ensures forall b :: BucketFloor(b) <= d
    ensures forall f, s :: reg.Some? && f in reg.value && (flow.None? || flow.value == f) && s in reg.value[f].sla ==>
                             reg.value[f].sla[s].deadline <= d
  {
    forall f, s | reg.Some? && f in reg.value && (flow.None? || flow.value == f) && s in reg.value[f].sla
      ensures reg.value[f].sla[s].deadline <= d
    {
      assert HasDeadline(reg, flow, reg.value[f].sla[s].deadline);
    }
    hide IsLookback, HasDeadline;
  }

  method EventsLookback(reg: Option<Registry>, flow: Option<string>) returns (d: int)
    ensures IsLookback(reg, flow, d)
  {
    d := MIN_LOOKBACK;
    if reg.None? {
      return;
    }
    var flows := if flow.Some? then {flow.value} else reg.value.Keys;
    var todo := flows;
    while todo != {}
      invariant todo <= flows
      invariant d >= MIN_LOOKBACK && (d == MIN_LOOKBACK || HasDeadline(reg, flow, d))
      invariant forall f, s :: f in flows - todo && f in reg.value && s in reg.value[f].sla ==>
                  reg.value[f].sla[s].deadline <= d
      decreases todo
    {
      var f :| f in todo;
      if f in reg.value {
        d := LongestDeadline(reg, flow, f, d);
      }
      todo := todo - {f};
    }
  }

  method LongestDeadline(reg: Option<Registry>, flow: Option<string>, f: string, before: int) returns (d: int)
    requires reg.Some? && f in reg.value && (flow.None? || flow.value == f)
    requires before == MIN_LOOKBACK || HasDeadline(reg, flow, before)
    ensures d >= before && (d == MIN_LOOKBACK || HasDeadline(reg, flow, d))
    ensures forall s :: s in reg.value[f].sla ==> reg.value[f].sla[s].deadline <= d
  {
    d := before;
    var sla := reg.value[f].sla;
    var todo := sla.Keys;
    while todo != {}
      invariant todo <= sla.Keys && d >= before && (d == MIN_LOOKBACK || HasDeadline(reg, flow, d))
      invariant forall s :: s in sla && s !in todo ==> sla[s].deadline <= d
      decreases todo
    {
      var s :| s in todo;
      if sla[s].deadline > d {
        d := sla[s].deadline;
      }
      todo := todo - {s};
    }
  }

  // ---- the nested ranges ----

  datatype Cut = Cut(bucket: Bucket, before: int)

  const AGE_CUTOFFS := [Cut(Gt2h, 2 * HOUR), Cut(From30mTo2h, 30 * MINUTE), Cut(From5mTo30m, 5 * MINUTE),
                        Cut(From1mTo5m, MINUTE), Cut(Lt1m, 0)]

  /** One nanosecond past the cut, so that an event at the cut is inside. */
  function CutEnd(to: int, before: int): int { if before == 0 then to else to - before + 1 }

  function CutGroup(events: seq<Emitter.Outcome>, req: Request, start: int, i: nat, k: EntityStage): Option<EventGroup>
    requires i < |AGE_CUTOFFS|
  {
    GroupOf(events, EventsQuery(req, Emitter.Deferred, start, CutEnd(req.to, AGE_CUTOFFS[i].before), MaxPerGroup), KeyLabels(k))
  }

  /** A first sight fixes the bucket; every sight can raise the amount. */
  function MergeItem(was: Option<InflightItem>, g: Option<EventGroup>, bucket: string): Option<InflightItem> {
    if g.None? then was
    else
      var item := if was.Some? then was.value else InflightItem(bucket, 0);
      Some(item.(minor := Larger(item.minor, g.value.max)))
  }

  function ItemAfter(events: seq<Emitter.Outcome>, req: Request, start: int, c: nat, k: EntityStage): Option<InflightItem>
    requires c <= |AGE_CUTOFFS|
  {
    if c == 0 then None
    else MergeItem(ItemAfter(events, req, start, c - 1, k), CutGroup(events, req, start, c - 1, k),
                   BucketLabel(AGE_CUTOFFS[c - 1].bucket))
  }

  // ---- what an item is ----

  predicate Deferral(o: Emitter.Outcome, req: Request, start: int, end: int, k: EntityStage) {
    Reported(o, req, Emitter.Deferred, start, end) && KeyOfEvent(o) == k
  }

  ghost predicate DeferredAt(events: seq<Emitter.Outcome>, req: Request, start: int, k: EntityStage) {
    exists o :: o in events && Deferral(o, req, start, req.to, k)
  }

  ghost predicate IsFirst(events: seq<Emitter.Outcome>, req: Request, start: int, k: EntityStage, first: Emitter.Outcome) {
    && first in events && Deferral(first, req, start, req.to, k)
    && forall o :: o in events && Deferral(o, req, start, req.to, k) ==> first.at <= o.at
  }

  /** Aged from the first deferral, at the largest amount (or zero). */
  ghost predicate ItemOk(events: seq<Emitter.Outcome>, req: Request, start: int, k: EntityStage, item: InflightItem) {
    && (exists first :: IsFirst(events, req, start, k, first)
                        && item.bucket == BucketLabel(AgeBucketFor(req.to - first.at)))
    && (forall o :: o in events && Deferral(o, req, start, req.to, k) ==> o.money.amount as int <= item.minor)
    && item.minor >= 0
    && (item.minor == 0 || exists o :: o in events && Deferral(o, req, start, req.to, k) && o.money.amount as int == item.minor)
  }

  lemma {:induction false} FirstExists(events: seq<Emitter.Outcome>, req: Request, start: int, k: EntityStage)
    returns (first: Emitter.Outcome)
    requires DeferredAt(events, req, start, k)
    ensures IsFirst(events, req, start, k, first)
  {
    var init, last := events[..|events| - 1], events[|events| - 1];
    assert events == init + [last];
    if DeferredAt(init, req, start, k) {
      first := FirstExists(init, req, start, k);
      if Deferral(last, req, start, req.to, k) && last.at < first.at {
        first := last;
      }
    } else {
      first := last;
    }
  }

  lemma CutGroupMeans(events: seq<Emitter.Outcome>, req: Request, start: int, i: nat, k: EntityStage)
    requires i < |AGE_CUTOFFS|
    ensures var end, g := CutEnd(req.to, AGE_CUTOFFS[i].before), CutGroup(events, req, start, i, k);
            && (g.Some? <==> exists o :: o in events && Deferral(o, req, start, end, k))
            && (g.Some? ==> (forall o :: o in events && Deferral(o, req, start, end, k) ==> o.money.amount as int <= g.value.max)
                            && exists o :: o in events && Deferral(o, req, start, end, k) && o.money.amount as int == g.value.max)
  {
    var end := CutEnd(req.to, AGE_CUTOFFS[i].before);
    var q := EventsQuery(req, Emitter.Deferred, start, end, MaxPerGroup);
    GroupMaxIsLargest(events, q, KeyLabels(k));
    forall o
      ensures Belongs(q, o, KeyLabels(k)) <==> Deferral(o, req, start, end, k)
    {
      QueryReads(o, req, Emitter.Deferred, start, end, MaxPerGroup, KeyLabels(k));
      KeyLabelsInvert(k);
      KeyLabelsInvert(KeyOfEvent(o));
    }
  }

  lemma CutSeesFirst(events: seq<Emitter.Outcome>, req: Request, start: int, i: nat, k: EntityStage, first: Emitter.Outcome)
    requires i < |AGE_CUTOFFS| && IsFirst(events, req, start, k, first)
    ensures CutGroup(events, req, start, i, k).Some? <==> first.at < CutEnd(req.to, AGE_CUTOFFS[i].before)
  {
    var end := CutEnd(req.to, AGE_CUTOFFS[i].before);
    CutGroupMeans(events, req, start, i, k);
    hide CutGroup, KeyOfEvent, FlowOk;
    assert Deferral(first, req, start, end, k) <==> first.at < end;
    if o :| o in events && Deferral(o, req, start, end, k) {
      assert Deferral(o, req, start, req.to, k);
    }
  }

  /** An item appears with the first range its first deferral falls in, and that
      range is its age's bucket: left-closed, as on the gauge. */
  lemma {:induction false} BucketAfter(events: seq<Emitter.Outcome>, req: Request, start: int, c: nat, k: EntityStage,
                                       first: Emitter.Outcome)
    requires c <= |AGE_CUTOFFS| && IsFirst(events, req, start, k, first) && first.at < req.to
    ensures var item, age := ItemAfter(events, req, start, c, k), req.to - first.at;
            && (item.Some? <==> c > 0 && first.at < CutEnd(req.to, AGE_CUTOFFS[c - 1].before))
            && (item.Some? ==> item.value.bucket == BucketLabel(AgeBucketFor(age)))
  {
    hide AgeBucketFor, BucketLabel, CutGroup, IsFirst;
    if c > 0 {
      BucketAfter(events, req, start, c - 1, k, first);
      CutSeesFirst(events, req, start, c - 1, k, first);
      if ItemAfter(events, req, start, c - 1, k).None? && CutGroup(events, req, start, c - 1, k).Some? {
        AgeOfCut(c - 1, req.to - first.at);
      }
    }
  }

  lemma AgeOfCut(i: nat, age: int)
    requires i < |AGE_CUTOFFS| && age > 0
    requires if AGE_CUTOFFS[i].before == 0 then true else age >= AGE_CUTOFFS[i].before
    requires i > 0 ==> age < AGE_CUTOFFS[i - 1].before
    ensures AgeBucketFor(age) == AGE_CUTOFFS[i].bucket
  {
  }

  lemma {:induction false} MinorAfter(events: seq<Emitter.Outcome>, req: Request, start: int, c: nat, k: EntityStage)
    requires c <= |AGE_CUTOFFS|
    ensures var item := ItemAfter(events, req, start, c, k);
            item.Some? ==>
              && c > 0 && CutGroup(events, req, start, c - 1, k).Some?
              && item.value.minor == Larger(0, CutGroup(events, req, start, c - 1, k).value.max)
  {
    if c > 0 && ItemAfter(events, req, start, c, k).Some? {
      MinorAfter(events, req, start, c - 1, k);
      CutGroupMeans(events, req, start, c - 1, k);
      if ItemAfter(events, req, start, c - 1, k).Some? {
        CutGroupMeans(events, req, start, c - 2, k);
        RangesNest(events, req, start, c - 2, k);
      }
    }
  }

  /** Each range holds the one before it. */
  lemma RangesNest(events: seq<Emitter.Outcome>, req: Request, start: int, i: nat, k: EntityStage)
    requires i + 1 < |AGE_CUTOFFS| && CutGroup(events, req, start, i, k).Some?
    ensures var g := CutGroup(events, req, start, i + 1, k);
            g.Some? && CutGroup(events, req, start, i, k).value.max <= g.value.max
  {
    CutGroupMeans(events, req, start, i, k);
    CutGroupMeans(events, req, start, i + 1, k);
    var end, end' := CutEnd(req.to, AGE_CUTOFFS[i].before), CutEnd(req.to, AGE_CUTOFFS[i + 1].before);
    assert end <= end';
    var o :| o in events && Deferral(o, req, start, end, k)
      && o.money.amount as int == CutGroup(events, req, start, i, k).value.max;
    assert Deferral(o, req, start, end', k);
  }

  /** What the nested ranges make of an entity: in flight exactly if it was deferred
      in the window or its lookback, aged from the first deferral, at the largest
      amount. */
  lemma ItemMeans(events: seq<Emitter.Outcome>, req: Request, start: int, k: EntityStage)
    ensures var item := ItemAfter(events, req, start, |AGE_CUTOFFS|, k);
            && (item.Some? <==> DeferredAt(events, req, start, k))
            && (item.Some? ==> ItemOk(events, req, start, k, item.value))
  {
    var n := |AGE_CUTOFFS|;
    MinorAfter(events, req, start, n, k);
    CutGroupMeans(events, req, start, n - 1, k);
    if DeferredAt(events, req, start, k) {
      var first := FirstExists(events, req, start, k);
      BucketAfter(events, req, start, n, k, first);
      ItemIsOk(events, req, start, k, first);
    }
  }

  lemma ItemIsOk(events: seq<Emitter.Outcome>, req: Request, start: int, k: EntityStage, first: Emitter.Outcome)
    requires IsFirst(events, req, start, k, first)
    requires var item := ItemAfter(events, req, start, |AGE_CUTOFFS|, k);
             item.Some? && item.value.bucket == BucketLabel(AgeBucketFor(req.to - first.at))
    ensures ItemOk(events, req, start, k, ItemAfter(events, req, start, |AGE_CUTOFFS|, k).value)
  {
    hide AgeBucketFor, BucketLabel, ItemAfter, CutGroup;
    var n := |AGE_CUTOFFS|;
    MinorAfter(events, req, start, n, k);
    CutGroupMeans(events, req, start, n - 1, k);
    assert CutEnd(req.to, AGE_CUTOFFS[n - 1].before) == req.to;
  }

  // ---- collecting the items ----

  ghost predicate Holds(inflight: map<EntityStage, InflightItem>, events: seq<Emitter.Outcome>, req: Request, start: int, c: nat)
    requires c <= |AGE_CUTOFFS|
  {
    forall k :: ItemAfter(events, req, start, c, k) == if k in inflight then Some(inflight[k]) else None
  }

  /** One range's groups, in whatever order they come. */
  method MergeCut(before: map<EntityStage, InflightItem>, groups: map<Labels, EventGroup>, bucket: string)
    returns (inflight: map<EntityStage, InflightItem>)
    requires forall g :: g in groups ==> g == KeyLabels(KeyFrom(g))
    ensures forall k :: Find(inflight, k) == MergeItem(Find(before, k), Find(groups, KeyLabels(k)), bucket)
  {
    hide KeyLabels, KeyFrom, MergeItem;
    inflight := before;
    var todo := groups.Keys;
    while todo != {}
      invariant todo <= groups.Keys
      invariant forall k :: KeyLabels(k) in todo ==> Find(inflight, k) == Find(before, k)
      invariant forall k :: KeyLabels(k) in groups && KeyLabels(k) !in todo ==>
                  Find(inflight, k) == MergeItem(Find(before, k), Find(groups, KeyLabels(k)), bucket)
      invariant forall k :: KeyLabels(k) !in groups ==> Find(inflight, k) == Find(before, k)
      decreases todo
    {
      var g :| g in todo;
      var k := KeyFrom(g);
      OneKey(g);
      var item := if k in inflight then inflight[k] else InflightItem(bucket, 0);
      if groups[g].max > item.minor {
        item := item.(minor := groups[g].max);
      }
      SightMerges(Find(before, k), groups[g], bucket, item);
      inflight := inflight[k := item];
      todo := todo - {g};
    }
    forall k | KeyLabels(k) !in groups
      ensures MergeItem(Find(before, k), Find(groups, KeyLabels(k)), bucket) == Find(before, k)
    {
      NoSight(Find(before, k), bucket);
    }
  }

  lemma SightMerges(was: Option<InflightItem>, g: EventGroup, bucket: string, item: InflightItem)
    requires var old' := if was.Some? then was.value else InflightItem(bucket, 0);
             item == if g.max > old'.minor then old'.(minor := g.max) else old'
    ensures MergeItem(was, Some(g), bucket) == Some(item)
  {
  }

  lemma NoSight(was: Option<InflightItem>, bucket: string)
    ensures MergeItem(was, None, bucket) == was
  {
  }

  lemma OneKey(g: Labels)
    requires g == KeyLabels(KeyFrom(g))
    ensures forall k :: KeyLabels(k) == g <==> k == KeyFrom(g)
  {
    forall k
      ensures KeyLabels(k) == g <==> k == KeyFrom(g)
    {
      KeyLabelsInvert(k);
    }
  }

  function Find<K, V>(m: map<K, V>, k: K): Option<V> { if k in m then Some(m[k]) else None }

  method CollectInflight(events: seq<Emitter.Outcome>, req: Request, start: int)
    returns (inflight: map<EntityStage, InflightItem>)
    ensures Holds(inflight, events, req, start, |AGE_CUTOFFS|)
  {
    inflight := map[];
    for c := 0 to |AGE_CUTOFFS|
      invariant Holds(inflight, events, req, start, c)
    {
      var end := CutEnd(req.to, AGE_CUTOFFS[c].before);
      ghost var was := inflight;
      if end <= start {
        EmptyRange(events, req, start, c);
      } else {
        inflight := CollectCut(inflight, events, req, start, c);
      }
      forall k
        ensures ItemAfter(events, req, start, c + 1, k) == Find(inflight, k)
      {
        assert ItemAfter(events, req, start, c, k) == Find(was, k);
      }
    }
  }

  lemma EmptyRange(events: seq<Emitter.Outcome>, req: Request, start: int, i: nat)
    requires i < |AGE_CUTOFFS| && CutEnd(req.to, AGE_CUTOFFS[i].before) <= start
    ensures forall k :: CutGroup(events, req, start, i, k) == None
  {
    forall k
      ensures CutGroup(events, req, start, i, k) == None
    {
      CutGroupMeans(events, req, start, i, k);
    }
  }

  method CollectCut(before: map<EntityStage, InflightItem>, events: seq<Emitter.Outcome>, req: Request, start: int, c: nat)
    returns (inflight: map<EntityStage, InflightItem>)
    requires c < |AGE_CUTOFFS|
    ensures forall k :: Find(inflight, k) == MergeItem(Find(before, k), CutGroup(events, req, start, c, k),
                                                       BucketLabel(AGE_CUTOFFS[c].bucket))
  {
    var q := EventsQuery(req, Emitter.Deferred, start, CutEnd(req.to, AGE_CUTOFFS[c].before), MaxPerGroup);
    var r := QueryEvents(events, q);
    assert "currency" in q.groupBy by {
      assert q.groupBy[2] == "currency";
    }
    forall g | g in r.value
      ensures g == KeyLabels(KeyFrom(g))
    {
      KeysAreProper(events, q, g, req, c, start);
    }
    inflight := MergeCut(before, r.value, BucketLabel(AGE_CUTOFFS[c].bucket));
    forall k
      ensures Find(r.value, KeyLabels(k)) == CutGroup(events, req, start, c, k)
    {
    }
  }

  lemma KeysAreProper(events: seq<Emitter.Outcome>, q: EventQuery, g: Labels, req: Request, c: nat, start: int)
    requires c < |AGE_CUTOFFS|
    requires q == EventsQuery(req, Emitter.Deferred, start, CutEnd(req.to, AGE_CUTOFFS[c].before), MaxPerGroup)
    requires GroupOf(events, q, g).Some?
    ensures g == KeyLabels(KeyFrom(g))
  {
    GroupMaxIsLargest(events, q, g);
    var o :| o in events && Belongs(q, o, g);
    QueryReads(o, req, Emitter.Deferred, start, q.to, MaxPerGroup, g);
    KeyLabelsInvert(KeyOfEvent(o));
  }

  // ---- what resolves a deferral ----

  datatype FlowEntity = FlowEntity(flow: string, entity: string)

  const TERMINAL_OUTCOMES := [Emitter.Succeeded, Emitter.Failed, Emitter.Abandoned]

  type StageSets = map<FlowEntity, set<string>>

  function StagesOf(m: StageSets, fe: FlowEntity): set<string> { if fe in m then m[fe] else {} }

  function AddStage(m: StageSets, k: EntityStage): StageSets {
    var fe := FlowEntity(k.flow, k.entity);
    m[fe := StagesOf(m, fe) + {k.stage}]
  }

  predicate At(k: EntityStage, fe: FlowEntity, stage: string) {
    k.flow == fe.flow && k.entity == fe.entity && k.stage == stage
  }

  ghost predicate SomeAt(ks: set<EntityStage>, fe: FlowEntity, stage: string) {
    exists k :: k in ks && At(k, fe, stage)
  }

  method AddStages(before: StageSets, ks: set<EntityStage>) returns (m: StageSets)
    ensures forall fe, stage :: stage in StagesOf(m, fe) <==> stage in StagesOf(before, fe) || SomeAt(ks, fe, stage)
  {
    m := before;
    var todo := ks;
    while todo != {}
      invariant todo <= ks
      invariant forall fe, stage ::
                  stage in StagesOf(m, fe) <==> stage in StagesOf(before, fe) || SomeAt(ks - todo, fe, stage)
      decreases todo
    {
      var k :| k in todo;
      forall fe, stage
        ensures SomeAt(ks - (todo - {k}), fe, stage) <==> SomeAt(ks - todo, fe, stage) || At(k, fe, stage)
      {
        OneMoreKey(ks - todo, ks - (todo - {k}), k, fe, stage);
      }
      hide SomeAt;
      m := AddStage(m, k);
      todo := todo - {k};
    }
    assert ks - {} == ks;
  }

  lemma OneMoreKey(ks: set<EntityStage>, ks': set<EntityStage>, k: EntityStage, fe: FlowEntity, stage: string)
    requires ks' == ks + {k}
    ensures SomeAt(ks', fe, stage) <==> SomeAt(ks, fe, stage) || At(k, fe, stage)
  {
    if SomeAt(ks, fe, stage) {
      var x :| x in ks && At(x, fe, stage);
      assert x in ks';
    }
    if At(k, fe, stage) {
      assert k in ks';
    }
  }

  predicate Ends(o: Emitter.Outcome, req: Request, start: int, n: nat, fe: FlowEntity, stage: string)
    requires n <= |TERMINAL_OUTCOMES|
  {
    At(KeyOfEvent(o), fe, stage) && exists i :: 0 <= i < n && Reported(o, req, TERMINAL_OUTCOMES[i], start, req.to)
  }

  /** The entity reached a terminal outcome at the stage, by the first n kinds. */
  ghost predicate EndedAt(events: seq<Emitter.Outcome>, req: Request, start: int, n: nat, fe: FlowEntity, stage: string)
    requires n <= |TERMINAL_OUTCOMES|
  {
    exists o :: o in events && Ends(o, req, start, n, fe, stage)
  }

  /** Any outcome but a deferral or an unknown one is terminal. */
  lemma EndsAreTerminal(events: seq<Emitter.Outcome>, req: Request, start: int, fe: FlowEntity, stage: string)
    ensures EndedAt(events, req, start, |TERMINAL_OUTCOMES|, fe, stage) <==>
              exists o :: o in events && IsTerminal(o, req, start) && At(KeyOfEvent(o), fe, stage)
  {
    forall o
      ensures Ends(o, req, start, |TERMINAL_OUTCOMES|, fe, stage) <==> IsTerminal(o, req, start) && At(KeyOfEvent(o), fe, stage)
    {
      if IsTerminal(o, req, start) && At(KeyOfEvent(o), fe, stage) {
        var i := match o.result case Succeeded => 0 case Failed => 1 case _ => 2;
        assert TERMINAL_OUTCOMES[i] == o.result && Reported(o, req, TERMINAL_OUTCOMES[i], start, req.to);
      }
    }
    hide Ends, IsTerminal;
  }

  predicate IsTerminal(o: Emitter.Outcome, req: Request, start: int) {
    o.result != Emitter.Deferred && o.result != Emitter.Unknown && FlowOk(req, o.flow) && start <= o.at < req.to
  }

  method CollectTerminals(events: seq<Emitter.Outcome>, req: Request, start: int) returns (terminals: StageSets)
    ensures forall fe, stage ::
              stage in StagesOf(terminals, fe) <==> EndedAt(events, req, start, |TERMINAL_OUTCOMES|, fe, stage)
  {
    terminals := map[];
    for i := 0 to |TERMINAL_OUTCOMES|
      invariant forall fe, stage :: stage in StagesOf(terminals, fe) <==> EndedAt(events, req, start, i, fe, stage)
    {
      hide EndedAt;
      ghost var was := terminals;
      terminals := CollectOutcome(events, req, start, i, terminals);
      forall fe, stage
        ensures stage in StagesOf(terminals, fe) <==> EndedAt(events, req, start, i + 1, fe, stage)
      {
        OneMoreOutcome(events, req, start, i, fe, stage);
      }
    }
  }

  ghost predicate ReportedAt(events: seq<Emitter.Outcome>, req: Request, result: Emitter.ResultKind, start: int,
                             fe: FlowEntity, stage: string)
  {
    exists o :: o in events && Reported(o, req, result, start, req.to) && At(KeyOfEvent(o), fe, stage)
  }

  lemma OneMoreOutcome(events: seq<Emitter.Outcome>, req: Request, start: int, i: nat, fe: FlowEntity, stage: string)
    requires i < |TERMINAL_OUTCOMES|
    ensures EndedAt(events, req, start, i + 1, fe, stage)
       <==> EndedAt(events, req, start, i, fe, stage) || ReportedAt(events, req, TERMINAL_OUTCOMES[i], start, fe, stage)
  {
    if EndedAt(events, req, start, i + 1, fe, stage) {
      var o :| o in events && Ends(o, req, start, i + 1, fe, stage);
      assert Ends(o, req, start, i, fe, stage) || Reported(o, req, TERMINAL_OUTCOMES[i], start, req.to);
    }
    if EndedAt(events, req, start, i, fe, stage) {
      var o :| o in events && Ends(o, req, start, i, fe, stage);
      assert Ends(o, req, start, i + 1, fe, stage);
    }
    if ReportedAt(events, req, TERMINAL_OUTCOMES[i], start, fe, stage) {
      var o :| o in events && Reported(o, req, TERMINAL_OUTCOMES[i], start, req.to) && At(KeyOfEvent(o), fe, stage);
      assert Ends(o, req, start, i + 1, fe, stage);
    }
  }

  method CollectOutcome(events: seq<Emitter.Outcome>, req: Request, start: int, i: nat, before: StageSets)
    returns (terminals: StageSets)
    requires i < |TERMINAL_OUTCOMES|
    ensures forall fe, stage ::
              stage in StagesOf(terminals, fe) <==>
                stage in StagesOf(before, fe) || ReportedAt(events, req, TERMINAL_OUTCOMES[i], start, fe, stage)
  {
    var q := EventsQuery(req, TERMINAL_OUTCOMES[i], start, req.to, EventGroups);
    var r := QueryEvents(events, q);
    assert "currency" in q.groupBy by {
      assert q.groupBy[2] == "currency";
    }
    var ks := set g | g in r.value :: KeyFrom(g);
    forall fe, stage
      ensures SomeAt(ks, fe, stage) <==> ReportedAt(events, req, TERMINAL_OUTCOMES[i], start, fe, stage)
    {
      KeysAreReports(events, req, TERMINAL_OUTCOMES[i], start, r.value.Keys, fe, stage);
    }
    hide SomeAt, ReportedAt;
    terminals := AddStages(before, ks);
  }

  lemma KeysAreReports(events: seq<Emitter.Outcome>, req: Request, result: Emitter.ResultKind, start: int, gs: set<Labels>,
                       fe: FlowEntity, stage: string)
    requires forall g :: g in gs <==> GroupOf(events, EventsQuery(req, result, start, req.to, EventGroups), g).Some?
    ensures SomeAt(set g | g in gs :: KeyFrom(g), fe, stage) <==> ReportedAt(events, req, result, start, fe, stage)
  {
    var q := EventsQuery(req, result, start, req.to, EventGroups);
    var ks := set g | g in gs :: KeyFrom(g);
    if SomeAt(ks, fe, stage) {
      var k :| k in ks && At(k, fe, stage);
      var g :| g in gs && KeyFrom(g) == k;
      GroupMaxIsLargest(events, q, g);
      var o :| o in events && Belongs(q, o, g);
      QueryReads(o, req, result, start, req.to, EventGroups, g);
      KeyLabelsInvert(KeyOfEvent(o));
    }
    if ReportedAt(events, req, result, start, fe, stage) {
      var o :| o in events && Reported(o, req, result, start, req.to) && At(KeyOfEvent(o), fe, stage);
      var g := KeyLabels(KeyOfEvent(o));
      QueryReads(o, req, result, start, req.to, EventGroups, g);
      GroupMaxIsLargest(events, q, g);
      KeyLabelsInvert(KeyOfEvent(o));
      assert KeyFrom(g) in ks;
    }
  }

  /** A terminal outcome at the stage itself, or at one the registry orders later. */
  predicate ResolvedByLaterStage(reg: Option<Registry>, flow: string, stage: string, terminals: set<string>) {
    || stage in terminals
    || (StageIndex(reg, flow, stage) >= 0
        && exists t :: t in terminals && StageIndex(reg, flow, t) > StageIndex(reg, flow, stage))
  }

  /** Deferred again at a later stage: it left this queue. */
  predicate ProgressedPast(reg: Option<Registry>, flow: string, stage: string, deferred: set<string>) {
    && StageIndex(reg, flow, stage) >= 0
    && exists d :: d in deferred && StageIndex(reg, flow, d) > StageIndex(reg, flow, stage)
  }

  // ---- the leg ----

  ghost predicate DeferredStage(events: seq<Emitter.Outcome>, req: Request, start: int, fe: FlowEntity, stage: string) {
    exists k :: DeferredAt(events, req, start, k) && At(k, fe, stage)
  }

  /** Deferred, with nothing since that shows it left the queue. */
  ghost predicate Open(events: seq<Emitter.Outcome>, reg: Option<Registry>, req: Request, start: int, k: EntityStage) {
    var fe := FlowEntity(k.flow, k.entity);
    && DeferredAt(events, req, start, k)
    && !EndedAt(events, req, start, |TERMINAL_OUTCOMES|, fe, k.stage)
    && (StageIndex(reg, k.flow, k.stage) >= 0 ==>
          forall stage :: StageIndex(reg, k.flow, stage) > StageIndex(reg, k.flow, k.stage) ==>
                            !EndedAt(events, req, start, |TERMINAL_OUTCOMES|, fe, stage)
                            && !DeferredStage(events, req, start, fe, stage))
  }

  function ItemEntry(reg: Option<Registry>, k: EntityStage, item: InflightItem): Entry {
    Entry(item.bucket, k.currency, item.minor,
          reg.Some? && IsBreached(reg.value, k.flow, k.stage, item.bucket),
          reg.Some? && IsLost(reg.value, k.flow, k.stage, item.bucket))
  }

  function One(e: Entry): Entry { e.(amount := 1) }

  /** One entry for every open deferral, and for no other. */
  ghost predicate OpenEntries(events: seq<Emitter.Outcome>, reg: Option<Registry>, req: Request, start: int,
                              entries: map<EntityStage, Entry>)
  {
    forall k ::
      && (k in entries <==> Open(events, reg, req, start, k))
      && (k in entries ==> exists item :: ItemOk(events, req, start, k, item) && entries[k] == ItemEntry(reg, k, item))
  }

  /** Every entry again, to be counted as one. */
  function Ones<K>(entries: map<K, Entry>): map<K, Entry> {
    map k | k in entries :: One(entries[k])
  }

  // ---- the leg, said of its entities ----

  /** The open deferrals, each aged from its first and at its largest amount. */
  ghost predicate OpenItems(events: seq<Emitter.Outcome>, reg: Option<Registry>, req: Request, start: int,
                            items: map<EntityStage, InflightItem>)
  {
    forall k ::
      (k in items <==> Open(events, reg, req, start, k)) && (k in items ==> ItemOk(events, req, start, k, items[k]))
  }

  ghost predicate EntityPicked(reg: Option<Registry>, k: EntityStage, item: InflightItem, p: Pick) {
    match p
    case InCell(cell) => cell == Cell(item.bucket, k.currency)
    case InCurrency(c) => c == k.currency
    case LostIn(c) => c == k.currency && ProjectedLost(reg, k.flow, k.stage, item.bucket)
    case Breaching => PastDeadline(reg, k.flow, k.stage, item.bucket)
    case Every => true
  }

  ghost function AmountsIn(items: map<EntityStage, InflightItem>, reg: Option<Registry>, p: Pick): map<EntityStage, int> {
    map k | k in items && EntityPicked(reg, k, items[k], p) :: items[k].minor
  }

  ghost function CountIn(items: map<EntityStage, InflightItem>, reg: Option<Registry>, p: Pick): nat {
    |set k | k in items && EntityPicked(reg, k, items[k], p)|
  }

  ghost function BucketsWithin(items: map<EntityStage, InflightItem>): set<string> {
    set k | k in items :: items[k].bucket
  }

  /** Every figure of the leg is the sum over the open deferrals it speaks of, or the
      number of them. */
  ghost predicate ItemsSay(leg: Leg, items: map<EntityStage, InflightItem>, reg: Option<Registry>) {
    && (forall cell :: Lists(leg.byAgeBucket, cell, AmountsIn(items, reg, InCell(cell))))
    && (forall c :: Lists(leg.byCurrency, c, AmountsIn(items, reg, InCurrency(c))))
    && (forall c :: Lists(leg.projectedLost, c, AmountsIn(items, reg, LostIn(c))))
    && IsOldest(leg.oldestAge, BucketsWithin(items))
    && leg.count == |items| && leg.breaches == CountIn(items, reg, Breaching)
  }

  ghost predicate EventsSay(leg: Leg, events: seq<Emitter.Outcome>, reg: Option<Registry>, req: Request, start: int) {
    exists items :: OpenItems(events, reg, req, start, items) && ItemsSay(leg, items, reg)
  }

  ghost function ItemsOf(entries: map<EntityStage, Entry>): map<EntityStage, InflightItem> {
    map k | k in entries :: InflightItem(entries[k].bucket, entries[k].amount)
  }

  /** Each entry is its item's. */
  ghost predicate EntriesFit(entries: map<EntityStage, Entry>, reg: Option<Registry>) {
    forall k :: k in entries ==> entries[k] == ItemEntry(reg, k, InflightItem(entries[k].bucket, entries[k].amount))
  }

  lemma EntityPicks(reg: Option<Registry>, k: EntityStage, item: InflightItem, p: Pick)
    ensures Picks(p, ItemEntry(reg, k, item)) <==> EntityPicked(reg, k, item, p)
    ensures Picks(p, One(ItemEntry(reg, k, item))) <==> EntityPicked(reg, k, item, p)
  {
    BreachesArePast(reg, k.flow, k.stage, item.bucket);
    hide PastDeadline, ProjectedLost, IsBreached, IsLost;
  }

  /** An entry is picked like its item. */
  lemma EntriesPick(entries: map<EntityStage, Entry>, reg: Option<Registry>, p: Pick)
    requires EntriesFit(entries, reg)
    ensures forall k :: k in entries ==> (Picks(p, entries[k]) <==> EntityPicked(reg, k, ItemsOf(entries)[k], p))
    ensures forall k :: k in entries ==> (Picks(p, One(entries[k])) <==> EntityPicked(reg, k, ItemsOf(entries)[k], p))
  {
    hide EntityPicked, Picks;
    forall k | k in entries
      ensures Picks(p, entries[k]) <==> EntityPicked(reg, k, ItemsOf(entries)[k], p)
      ensures Picks(p, One(entries[k])) <==> EntityPicked(reg, k, ItemsOf(entries)[k], p)
    {
      EntityPicks(reg, k, ItemsOf(entries)[k], p);
    }
  }

  lemma EntriesAreAmounts(entries: map<EntityStage, Entry>, reg: Option<Registry>, p: Pick)
    requires EntriesFit(entries, reg)
    ensures Part(entries, p) == AmountsIn(ItemsOf(entries), reg, p)
  {
    EntriesPick(entries, reg, p);
    hide EntityPicked, Picks, EntriesFit;
  }

  lemma OnesAreOnes(entries: map<EntityStage, Entry>, reg: Option<Registry>, p: Pick)
    requires EntriesFit(entries, reg)
    ensures Part(Ones(entries), p) == OnesIn(ItemsOf(entries), reg, p)
  {
    EntriesPick(entries, reg, p);
    hide EntityPicked, Picks, EntriesFit;
  }

  lemma SameBuckets(entries: map<EntityStage, Entry>)
    ensures BucketsWithin(ItemsOf(entries)) == BucketsOf(entries)
  {
    var items := ItemsOf(entries);
    forall b
      ensures b in BucketsWithin(items) <==> b in BucketsOf(entries)
    {
      if b in BucketsWithin(items) {
        var k :| k in items && items[k].bucket == b;
        assert k in entries && entries[k].bucket == b;
      }
      if b in BucketsOf(entries) {
        var k :| k in entries && entries[k].bucket == b;
        assert k in items && items[k].bucket == b;
      }
    }
  }

  ghost function OnesIn(items: map<EntityStage, InflightItem>, reg: Option<Registry>, p: Pick): map<EntityStage, int> {
    map k | k in items && EntityPicked(reg, k, items[k], p) :: 1
  }

  lemma OnesCount(items: map<EntityStage, InflightItem>, reg: Option<Registry>, p: Pick)
    ensures Sum(OnesIn(items, reg, p)) == CountIn(items, reg, p)
  {
    hide EntityPicked;
    SumOfOnes(OnesIn(items, reg, p));
    KeysCount(OnesIn(items, reg, p));
    assert OnesIn(items, reg, p).Keys == set k | k in items && EntityPicked(reg, k, items[k], p);
  }

  lemma MatchSaysItems(leg: Leg, entries: map<EntityStage, Entry>, reg: Option<Registry>)
    requires EntriesFit(entries, reg) && ValuesMatch(leg, entries) && CountsMatch(leg, Ones(entries))
    ensures ItemsSay(leg, ItemsOf(entries), reg)
  {
    hide Part, AmountsIn, OldestOk, IsOldest, Ones, OnesIn, CountIn;
    var items := ItemsOf(entries);
    forall p
      ensures Part(entries, p) == AmountsIn(items, reg, p)
      ensures Sum(Part(Ones(entries), p)) == CountIn(items, reg, p)
    {
      EntriesAreAmounts(entries, reg, p);
      OnesAreOnes(entries, reg, p);
      OnesCount(items, reg, p);
    }
    OldestIsFloor(leg.oldestAge, entries);
    SameBuckets(entries);
    EveryCounts(items, reg);
    hide ItemsOf, EntriesFit, BucketsOf, BucketsWithin;
    assert forall cell :: TotalOk(leg.byAgeBucket, cell, entries, InCell(cell));
    assert forall c :: TotalOk(leg.byCurrency, c, entries, InCurrency(c)) && TotalOk(leg.projectedLost, c, entries, LostIn(c));
  }

  lemma EveryCounts(items: map<EntityStage, InflightItem>, reg: Option<Registry>)
    ensures CountIn(items, reg, Every) == |items|
  {
    assert (set k | k in items && EntityPicked(reg, k, items[k], Every)) == items.Keys;
    KeysCount(items);
  }

  lemma OpenEntriesSay(leg: Leg, events: seq<Emitter.Outcome>, reg: Option<Registry>, req: Request, start: int,
                       entries: map<EntityStage, Entry>)
    requires OpenEntries(events, reg, req, start, entries) && ValuesMatch(leg, entries) && CountsMatch(leg, Ones(entries))
    ensures EventsSay(leg, events, reg, req, start)
  {
    hide Open, ItemOk, ValuesMatch, CountsMatch, ItemsSay;
    MatchSaysItems(leg, entries, reg);
    assert OpenItems(events, reg, req, start, ItemsOf(entries));
  }

  method DeferredFromEvents(events: seq<Emitter.Outcome>, reg: Option<Registry>, req: Request)
    returns (leg: Leg, ghost lookback: int, ghost entries: map<EntityStage, Entry>)
    ensures IsLookback(reg, req.flow, lookback)
    ensures OpenEntries(events, reg, req, req.from - lookback, entries)
    ensures ValuesMatch(leg, entries) && CountsMatch(leg, Ones(entries)) && leg.caveats == {EventsDerived}
    ensures EventsSay(leg, events, reg, req, req.from - lookback)
  {
    hide EventsSay, IsLookback, Holds, Open, ItemOk, ItemEntry, ValuesMatch, CountsMatch, SomeAt, EndedAt, Kept, Ones;
    var back := EventsLookback(reg, req.flow);
    lookback := back;
    var start := req.from - back;
    var inflight := CollectInflight(events, req, start);
    var later := AddStages(map[], inflight.Keys);
    var terminals := CollectTerminals(events, req, start);
    leg, entries := AddOpen(reg, inflight, terminals, later);
    forall k
      ensures k in entries <==> Open(events, reg, req, start, k)
      ensures k in entries ==> exists item :: ItemOk(events, req, start, k, item) && entries[k] == ItemEntry(reg, k, item)
    {
      EntryIsOpen(events, reg, req, start, inflight, terminals, later, entries, k);
    }
    OpenEntriesSay(leg, events, reg, req, start, entries);
  }

  predicate Unresolved(reg: Option<Registry>, k: EntityStage, terminals: StageSets, later: StageSets) {
    var fe := FlowEntity(k.flow, k.entity);
    && !ResolvedByLaterStage(reg, k.flow, k.stage, StagesOf(terminals, fe))
    && !ProgressedPast(reg, k.flow, k.stage, StagesOf(later, fe))
  }

  function Kept(reg: Option<Registry>, inflight: map<EntityStage, InflightItem>, terminals: StageSets, later: StageSets)
    : map<EntityStage, Entry>
  {
    map k | k in inflight && Unresolved(reg, k, terminals, later) :: ItemEntry(reg, k, inflight[k])
  }

  method AddOpen(reg: Option<Registry>, inflight: map<EntityStage, InflightItem>, terminals: StageSets, later: StageSets)
    returns (leg: Leg, ghost entries: map<EntityStage, Entry>)
    ensures entries == Kept(reg, inflight, terminals, later)
    ensures ValuesMatch(leg, entries) && CountsMatch(leg, Ones(entries)) && leg.caveats == {EventsDerived}
  {
    hide ValuesMatch, CountsMatch, Unresolved, ItemEntry, Kept, Ones;
    leg := NEW_LEG.(caveats := {EventsDerived});
    entries := map[];
    var todo := inflight.Keys;
    ghost var kept := Kept(reg, inflight, terminals, later);
    KeptEnds(reg, inflight, terminals, later);
    NewLegMatches<EntityStage>();
    CaveatsOnly<EntityStage>(NEW_LEG, leg, map[]);
    while todo != {}
      invariant todo <= inflight.Keys
      invariant entries == kept - todo
      invariant ValuesMatch(leg, entries) && CountsMatch(leg, Ones(entries)) && leg.caveats == {EventsDerived}
      decreases todo
    {
      var k :| k in todo;
      NextKept(reg, inflight, terminals, later, todo, k);
      if Unresolved(reg, k, terminals, later) {
        var e := ItemEntry(reg, k, inflight[k]);
        AddBoth(leg, entries, k, e);
        leg := AddCount(AddValue(leg, e), One(e));
        entries := entries[k := e];
      }
      todo := todo - {k};
    }
  }

  lemma KeptEnds(reg: Option<Registry>, inflight: map<EntityStage, InflightItem>, terminals: StageSets, later: StageSets)
    ensures Kept(reg, inflight, terminals, later) - inflight.Keys == map[]
    ensures Kept(reg, inflight, terminals, later) - {} == Kept(reg, inflight, terminals, later)
    ensures Ones<EntityStage>(map[]) == map[]
  {
  }

  lemma NextKept(reg: Option<Registry>, inflight: map<EntityStage, InflightItem>, terminals: StageSets, later: StageSets,
                 todo: set<EntityStage>, k: EntityStage)
    requires k in todo && todo <= inflight.Keys
    ensures var kept := Kept(reg, inflight, terminals, later);
            && k !in kept - todo
            && kept - (todo - {k}) == if Unresolved(reg, k, terminals, later) then (kept - todo)[k := ItemEntry(reg, k, inflight[k])]
                                      else kept - todo
  {
    hide Unresolved, ItemEntry;
  }

  lemma AddBoth(leg: Leg, entries: map<EntityStage, Entry>, k: EntityStage, e: Entry)
    requires ValuesMatch(leg, entries) && CountsMatch(leg, Ones(entries)) && k !in entries
    ensures var leg' := AddCount(AddValue(leg, e), One(e));
            ValuesMatch(leg', entries[k := e]) && CountsMatch(leg', Ones(entries[k := e]))
  {
    hide ValuesMatch, CountsMatch;
    AddValueMatches(leg, entries, k, e);
    CountsOnly(leg, AddValue(leg, e), Ones(entries));
    AddCountMatches(AddValue(leg, e), Ones(entries), k, One(e));
    ValuesOnly(AddValue(leg, e), AddCount(AddValue(leg, e), One(e)), entries[k := e]);
    assert Ones(entries[k := e]) == Ones(entries)[k := One(e)];
  }

  lemma CaveatsOnly<K(!new)>(leg: Leg, leg': Leg, entries: map<K, Entry>)
    requires ValuesMatch(leg, entries) && CountsMatch(leg, entries) && leg' == leg.(caveats := leg'.caveats)
    ensures ValuesMatch(leg', entries) && CountsMatch(leg', entries)
  {
  }

  lemma CountsOnly<K>(leg: Leg, leg': Leg, counts: map<K, Entry>)
    requires CountsMatch(leg, counts) && leg'.count == leg.count && leg'.breaches == leg.breaches
    ensures CountsMatch(leg', counts)
  {
  }

  lemma ValuesOnly<K(!new)>(leg: Leg, leg': Leg, entries: map<K, Entry>)
    requires ValuesMatch(leg, entries)
    requires leg' == leg.(count := leg'.count, breaches := leg'.breaches)
    ensures ValuesMatch(leg', entries)
  {
  }

  lemma EntryIsOpen(events: seq<Emitter.Outcome>, reg: Option<Registry>, req: Request, start: int,
                    inflight: map<EntityStage, InflightItem>, terminals: StageSets, later: StageSets,
                    entries: map<EntityStage, Entry>, k: EntityStage)
    requires Holds(inflight, events, req, start, |AGE_CUTOFFS|)
    requires forall fe, stage :: stage in StagesOf(later, fe) <==> SomeAt(inflight.Keys, fe, stage)
    requires forall fe, stage ::
               stage in StagesOf(terminals, fe) <==> EndedAt(events, req, start, |TERMINAL_OUTCOMES|, fe, stage)
    requires entries == Kept(reg, inflight, terminals, later)
    ensures k in entries <==> Open(events, reg, req, start, k)
    ensures k in entries ==> exists item :: ItemOk(events, req, start, k, item) && entries[k] == ItemEntry(reg, k, item)
  {
    var fe := FlowEntity(k.flow, k.entity);
    ItemMeans(events, req, start, k);
    LaterMeans(events, req, start, inflight, fe);
    OpenMeans(events, reg, req, start, k, StagesOf(terminals, fe), StagesOf(later, fe));
    hide EndedAt, DeferredAt, DeferredStage, SomeAt, ItemOk, ItemAfter, Open, ResolvedByLaterStage, ProgressedPast;
  }

  lemma LaterMeans(events: seq<Emitter.Outcome>, req: Request, start: int, inflight: map<EntityStage, InflightItem>,
                   fe: FlowEntity)
    requires Holds(inflight, events, req, start, |AGE_CUTOFFS|)
    ensures forall stage :: SomeAt(inflight.Keys, fe, stage) <==> DeferredStage(events, req, start, fe, stage)
  {
    forall x
      ensures x in inflight.Keys <==> DeferredAt(events, req, start, x)
    {
      ItemMeans(events, req, start, x);
    }
    hide DeferredAt, ItemAfter, Holds;
  }

  lemma OpenMeans(events: seq<Emitter.Outcome>, reg: Option<Registry>, req: Request, start: int, k: EntityStage,
                  terminals: set<string>, later: set<string>)
    requires forall stage ::
               stage in terminals <==> EndedAt(events, req, start, |TERMINAL_OUTCOMES|, FlowEntity(k.flow, k.entity), stage)
    requires forall stage :: stage in later <==> DeferredStage(events, req, start, FlowEntity(k.flow, k.entity), stage)
    ensures Open(events, reg, req, start, k)
       <==> DeferredAt(events, req, start, k) && !ResolvedByLaterStage(reg, k.flow, k.stage, terminals)
            && !ProgressedPast(reg, k.flow, k.stage, later)
  {
    hide EndedAt, DeferredAt, DeferredStage, StageIndex;
  }
}
