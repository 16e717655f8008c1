/** The in-memory reference for event queries (QueryEvents in query/memq/memq.go). */
module MemqEvents {
  import opened Wrappers
  import opened Money
  import opened Emitter
  import opened Memq

  datatype EventAgg = EventGroups | DistinctCount | MaxPerGroup

  datatype EventQuery = EventQuery(filters: Labels, groupBy: seq<string>, from: int, to: int, agg: EventAgg)

  /** max is filled only when asked for. */
  datatype EventGroup = EventGroup(count: nat, sum: int, max: int)

  datatype EventError = CrossesCurrencies

  function EventLabels(o: Outcome): Labels {
    map["flow" := o.flow, "stage" := o.stage, "outcome" := ResultName(o.result), "currency" := o.money.currency,
        "segment" := o.segment, "kind" := o.kind, "customer" := o.customer, "entity" := o.entity]
  }

  predicate Matched(q: EventQuery, o: Outcome) {
    q.from <= o.at < q.to && MatchFilters(EventLabels(o), q.filters)
  }

  function EventKey(q: EventQuery, o: Outcome): Labels { GroupKey(EventLabels(o), q.groupBy) }

  predicate Belongs(q: EventQuery, o: Outcome, key: Labels) { Matched(q, o) && EventKey(q, o) == key }

  predicate PinsCurrency(q: EventQuery) { "currency" in q.filters || "currency" in q.groupBy }

  function Larger(a: int, b: int): int { if a < b then b else a }

  /** The count, the sum and the largest amount of a key's matched events, if it has
      any. */
  function GroupOf(events: seq<Outcome>, q: EventQuery, key: Labels): Option<EventGroup> {
    if events == [] then None else
      var was, o := GroupOf(events[..|events| - 1], q, key), events[|events| - 1];
      var amount := o.money.amount as int;
      if !Belongs(q, o, key) then was
      else if was.None? then Some(EventGroup(1, amount, amount))
      else Some(EventGroup(was.value.count + 1, was.value.sum + amount, Larger(was.value.max, amount)))
  }

  /** There is a group exactly if some event belongs to it, and its maximum is the
      amount of one of its events, no smaller than any other's. */
  lemma {:induction false} GroupMaxIsLargest(events: seq<Outcome>, q: EventQuery, key: Labels)
    ensures GroupOf(events, q, key).Some? <==> exists o :: o in events && Belongs(q, o, key)
    ensures GroupOf(events, q, key).Some? ==>
              var max := GroupOf(events, q, key).value.max;
              && (exists o :: o in events && Belongs(q, o, key) && o.money.amount as int == max)
              && (forall o :: o in events && Belongs(q, o, key) ==> o.money.amount as int <= max)
  {
    if events != [] {
      var init, last := events[..|events| - 1], events[|events| - 1];
      GroupMaxIsLargest(init, q, key);
      assert events == init + [last];
      assert last in events;
    }
  }

  /** Its count and sum are those of the events that belong to it. */
  lemma {:induction false} GroupAddsUp(events: seq<Outcome>, q: EventQuery, key: Labels)
    requires GroupOf(events, q, key).Some?
    ensures var g := GroupOf(events, q, key).value;
            g.count == |BelongingTo(events, q, key)| && g.sum == SumAmounts(BelongingTo(events, q, key))
  {
    var n := |events| - 1;
    var last := events[n];
    var rest := BelongingTo(events[..n], q, key);
    if GroupOf(events[..n], q, key).Some? {
      GroupAddsUp(events[..n], q, key);
    } else {
      NoneBelong(events[..n], q, key);
    }
    assert (rest + [last])[..|rest|] == rest;
  }

  lemma {:induction false} NoneBelong(events: seq<Outcome>, q: EventQuery, key: Labels)
    requires GroupOf(events, q, key).None?
    ensures BelongingTo(events, q, key) == []
  {
    if events != [] {
      NoneBelong(events[..|events| - 1], q, key);
    }
  }

  function BelongingTo(events: seq<Outcome>, q: EventQuery, key: Labels): seq<Outcome> {
    if events == [] then [] else
      var init, o := BelongingTo(events[..|events| - 1], q, key), events[|events| - 1];
      if Belongs(q, o, key) then init + [o] else init
  }

  function SumAmounts(events: seq<Outcome>): int {
    if events == [] then 0 else SumAmounts(events[..|events| - 1]) + events[|events| - 1].money.amount as int
  }

  // ---- how many customers ----

  /** Every customer of a segment and kind whose event falls in the window. */
  function CustomersIn(events: seq<Outcome>, segment: string, kind: string, from: int, to: int): set<string> {
    set o | o in events && from <= o.at < to && o.segment == segment && o.kind == kind :: o.customer
  }

  lemma {:induction false} KeysOfNames(name: string, values: set<string>)
    ensures |set v | v in values :: map[name := v]| == |values|
  {
    var keys := set v | v in values :: map[name := v];
    if values != {} {
      var v :| v in values;
      KeysOfNames(name, values - {v});
      assert map[name := v][name] == v;
      assert forall x :: x in values && map[name := x] == map[name := v] ==> map[name := x][name] == v;
      assert keys - {map[name := v]} == set x | x in values - {v} :: map[name := x];
    }
  }

  lemma CustomerQueryReads(q: EventQuery, segment: string, kind: string, o: Outcome)
    requires q.filters == map["segment" := segment, "kind" := kind] && q.groupBy == ["customer"]
    ensures Matched(q, o) <==> q.from <= o.at < q.to && o.segment == segment && o.kind == kind
    ensures EventKey(q, o) == map["customer" := o.customer]
  {
    assert "segment" in q.filters && "kind" in q.filters;
  }

  /** A distinct count by customer counts customers, of one segment and kind if these
      are filtered. */
  lemma CustomersAreCounted(events: seq<Outcome>, q: EventQuery, segment: string, kind: string)
    requires q.filters == map["segment" := segment, "kind" := kind] && q.groupBy == ["customer"]
    ensures |set o | o in events && Matched(q, o) :: EventKey(q, o)|
         == |CustomersIn(events, segment, kind, q.from, q.to)|
  {
    var customers := CustomersIn(events, segment, kind, q.from, q.to);
    forall o
      ensures Matched(q, o) <==> q.from <= o.at < q.to && o.segment == segment && o.kind == kind
      ensures EventKey(q, o) == map["customer" := o.customer]
    {
      CustomerQueryReads(q, segment, kind, o);
    }
    hide Matched, EventKey;
    var keys := set o | o in events && Matched(q, o) :: EventKey(q, o);
    forall o | o in events && Matched(q, o)
      ensures o.customer in customers
    {
    }
    assert keys == set c | c in customers :: map["customer" := c];
    KeysOfNames("customer", customers);
  }

  function EventGroupsOf(groups: map<Labels, EventGroup>, agg: EventAgg): map<Labels, EventGroup> {
    map k | k in groups :: if agg == MaxPerGroup then groups[k] else groups[k].(max := 0)
  }

  /** What is collected so far is what the events so far make of every key. */
  ghost predicate Grouped(groups: map<Labels, EventGroup>, events: seq<Outcome>, q: EventQuery) {
    forall k :: GroupOf(events, q, k) == if k in groups then Some(groups[k]) else None
  }

  lemma GroupedGrows(groups: map<Labels, EventGroup>, events: seq<Outcome>, q: EventQuery, o: Outcome)
    requires Grouped(groups, events, q)
    ensures !Matched(q, o) ==> Grouped(groups, events + [o], q)
    ensures Matched(q, o) ==>
              var k, amount := EventKey(q, o), o.money.amount as int;
              var g := if k in groups then groups[k] else EventGroup(0, 0, amount);
              Grouped(groups[k := EventGroup(g.count + 1, g.sum + amount, Larger(g.max, amount))], events + [o], q)
  {
    assert (events + [o])[..|events|] == events;
    forall k
      ensures GroupOf(events + [o], q, k)
           == (var was, amount := GroupOf(events, q, k), o.money.amount as int;
               if !Belongs(q, o, k) then was
               else if was.None? then Some(EventGroup(1, amount, amount))
               else Some(EventGroup(was.value.count + 1, was.value.sum + amount, Larger(was.value.max, amount))))
    {
    }
  }

  /** Money is read per group, so its currency must be grouped or pinned. A distinct
      count reads none. */
  method QueryEvents(events: seq<Outcome>, q: EventQuery) returns (r: Result<map<Labels, EventGroup>, EventError>)
    ensures r.Failure? <==> q.agg != DistinctCount && !PinsCurrency(q)
    ensures q.agg == DistinctCount ==>
              r == Success(map[map[] := EventGroup(|set o | o in events && Matched(q, o) :: EventKey(q, o)|, 0, 0)])
    ensures r.Success? && q.agg != DistinctCount ==>
              forall k :: (k in r.value <==> GroupOf(events, q, k).Some?)
                          && (k in r.value ==>
                                r.value[k] == (if q.agg == MaxPerGroup then GroupOf(events, q, k).value
                                               else GroupOf(events, q, k).value.(max := 0)))
  {
    if q.agg == DistinctCount {
      var seen := set o | o in events && Matched(q, o) :: EventKey(q, o);
      return Success(map[map[] := EventGroup(|seen|, 0, 0)]);
    }
    if !PinsCurrency(q) {
      return Failure(CrossesCurrencies);
    }
    var groups := Group(events, q);
    return Success(EventGroupsOf(groups, q.agg));
  }

  method Group(events: seq<Outcome>, q: EventQuery) returns (groups: map<Labels, EventGroup>)
    ensures Grouped(groups, events, q)
  {
    groups := map[];
    for i := 0 to |events|
      invariant Grouped(groups, events[..i], q)
    {
      hide Grouped;
      var o := events[i];
      assert events[..i + 1] == events[..i] + [o];
      GroupedGrows(groups, events[..i], q, o);
      if Matched(q, o) {
        var k, amount := EventKey(q, o), o.money.amount as int;
        var g := if k in groups then groups[k] else EventGroup(0, 0, amount);
        groups := groups[k := EventGroup(g.count + 1, g.sum + amount, Larger(g.max, amount))];
      }
    }
    assert events[..|events|] == events;
  }
}
