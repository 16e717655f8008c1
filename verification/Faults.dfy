/** Fault windows of the checkout simulation (examples/checkout/faults.go) and
    their merging into disjoint intervals. Time is in whole minutes; minute 0 is
    Go's zero time. */
module Faults {
  datatype Interval = Interval(from: nat, to: nat) {
    predicate Covers(t: nat) { from <= t < to }
  }

  datatype FaultKind = Api5xx | ApiLatency | ConsumerStall | Blackout

  datatype Queue = Capture | Settle

  /** One fault over [from, to). rate, queue, recoveredFraction and
      recoveryWithin (in nanoseconds) apply to the kinds that read them. */
  datatype FaultSpec = FaultSpec(
    kind: FaultKind, from: nat, to: nat, rate: real, queue: Queue,
    recoveredFraction: real, recoveryWithin: nat)
  {
    predicate Active(t: nat) { from <= t < to }

    predicate Validate() {
      && from < to
      && (kind.Api5xx? || kind.ApiLatency? ==> 0.0 < rate <= 1.0)
      && (kind.Blackout? ==> 0.0 <= recoveredFraction <= 1.0)
      && (kind.Blackout? && recoveredFraction > 0.0 ==> recoveryWithin > 0)
    }

    function Window(): Interval { Interval(from, to) }
  }

  predicate InUnion(ivs: seq<Interval>, t: nat) {
    exists i :: 0 <= i < |ivs| && ivs[i].Covers(t)
  }

  predicate NonEmpty(ivs: seq<Interval>) {
    forall i :: 0 <= i < |ivs| ==> ivs[i].from < ivs[i].to
  }

  /** Sorted, disjoint and not even touching. */
  predicate Merged(ivs: seq<Interval>) {
    NonEmpty(ivs) && forall i, j :: 0 <= i < j < |ivs| ==> ivs[i].to < ivs[j].from
  }

  predicate SortedByStart(ivs: seq<Interval>) {
    forall i, j :: 0 <= i < j < |ivs| ==> ivs[i].from <= ivs[j].from
  }

  /** Stands for sort.Slice by start: some ordering of the same intervals. */
  method SortByStart(raw: seq<Interval>) returns (sorted: seq<Interval>)
    ensures multiset(sorted) == multiset(raw)
    ensures SortedByStart(sorted)
  {
    sorted := [];
    for i := 0 to |raw|
      invariant multiset(sorted) == multiset(raw[..i])
      invariant SortedByStart(sorted)
    {
      sorted := InsertByStart(sorted, raw[i]);
      assert raw[..i + 1] == raw[..i] + [raw[i]];
    }
    assert raw[..|raw|] == raw;
  }

  method InsertByStart(sorted: seq<Interval>, iv: Interval) returns (r: seq<Interval>)
    requires SortedByStart(sorted)
    ensures multiset(r) == multiset(sorted) + multiset{iv}
    ensures SortedByStart(r)
  {
    var k := 0;
    while k < |sorted| && sorted[k].from <= iv.from
      invariant 0 <= k <= |sorted|
      invariant forall j :: 0 <= j < k ==> sorted[j].from <= iv.from
    {
      k := k + 1;
    }
    InsertKeeps(sorted, k, iv);
    r := sorted[..k] + [iv] + sorted[k..];
  }

  lemma InsertKeeps(sorted: seq<Interval>, k: nat, iv: Interval)
    requires k <= |sorted|
    ensures multiset(sorted[..k] + [iv] + sorted[k..]) == multiset(sorted) + multiset{iv}
  {
    assert sorted == sorted[..k] + sorted[k..];
  }

  lemma SameMembers<T>(a: seq<T>, b: seq<T>)
    requires multiset(a) == multiset(b)
    ensures forall x :: x in a <==> x in b
  {
    forall x
      ensures x in a <==> x in b
    {
      assert x in a <==> x in multiset(a);
      assert x in b <==> x in multiset(b);
    }
  }

  /** The merge loop of newStage: the union of the windows, as disjoint
      intervals in order. */
  method MergeIntervals(raw: seq<Interval>) returns (merged: seq<Interval>)
    requires NonEmpty(raw)
    ensures Merged(merged)
    ensures forall t :: InUnion(merged, t) <==> InUnion(raw, t)
  {
    var sorted := SortByStart(raw);
    SameMembers(sorted, raw);
    assert NonEmpty(sorted) by {
      forall i | 0 <= i < |sorted|
        ensures sorted[i].from < sorted[i].to
      {
        assert sorted[i] in raw;
      }
    }
    merged := [];
    for i := 0 to |sorted|
      invariant Merged(merged)
      invariant forall t :: InUnion(merged, t) <==> InUnion(sorted[..i], t)
      invariant forall k, j :: 0 <= k < |merged| && i <= j < |sorted| ==> merged[k].from <= sorted[j].from
    {
      var iv, n := sorted[i], |merged|;
      ghost var before := merged;
      if n > 0 && iv.from <= merged[n - 1].to {
        if iv.to > merged[n - 1].to {
          merged := merged[n - 1 := Interval(merged[n - 1].from, iv.to)];
        }
      } else {
        merged := merged + [iv];
      }
      MergeStep(before, iv, merged, sorted[..i]);
      assert sorted[..i + 1] == sorted[..i] + [iv];
    }
    assert sorted[..|sorted|] == sorted;
    forall t
      ensures InUnion(sorted, t) <==> InUnion(raw, t)
    {
      SameUnion(sorted, raw, t);
    }
  }

  /** The union does not depend on the order of the intervals. */
  lemma SameUnion(a: seq<Interval>, b: seq<Interval>, t: nat)
    requires multiset(a) == multiset(b)
    ensures InUnion(a, t) <==> InUnion(b, t)
  {
    SameMembers(a, b);
    if i :| 0 <= i < |a| && a[i].Covers(t) {
      assert a[i] in b;
    }
    if i :| 0 <= i < |b| && b[i].Covers(t) {
      assert b[i] in a;
    }
  }

  lemma InUnionAppend(ivs: seq<Interval>, iv: Interval, t: nat)
    ensures InUnion(ivs + [iv], t) <==> InUnion(ivs, t) || iv.Covers(t)
  {
    if i :| 0 <= i < |ivs| && ivs[i].Covers(t) {
      assert (ivs + [iv])[i].Covers(t);
    }
    assert (ivs + [iv])[|ivs|] == iv;
  }

  /** Widening the last interval to reach iv's end adds exactly iv's minutes. */
  lemma InUnionWiden(init: seq<Interval>, last: Interval, iv: Interval, t: nat)
    requires last.from <= iv.from <= last.to < iv.to
    ensures InUnion(init + [Interval(last.from, iv.to)], t) <==> InUnion(init + [last], t) || iv.Covers(t)
  {
    InUnionAppend(init, last, t);
    InUnionAppend(init, Interval(last.from, iv.to), t);
  }

  lemma MergeStep(before: seq<Interval>, iv: Interval, after: seq<Interval>, done: seq<Interval>)
    requires Merged(before)
    requires forall k :: 0 <= k < |before| ==> before[k].from <= iv.from
    requires iv.from < iv.to
    requires forall t :: InUnion(before, t) <==> InUnion(done, t)
    requires var n := |before|;
             after == if n > 0 && iv.from <= before[n - 1].to then
                        (if iv.to > before[n - 1].to then before[n - 1 := Interval(before[n - 1].from, iv.to)] else before)
                      else before + [iv]
    ensures forall t :: InUnion(after, t) <==> InUnion(done + [iv], t)
  {
    var n := |before|;
    forall t
      ensures InUnion(after, t) <==> InUnion(done + [iv], t)
    {
      InUnionAppend(done, iv, t);
      if n > 0 && iv.from <= before[n - 1].to {
        var init, last := before[..n - 1], before[n - 1];
        assert before == init + [last];
        if iv.to > last.to {
          assert after == init + [Interval(last.from, iv.to)];
          InUnionWiden(init, last, iv, t);
        } else {
          InUnionAppend(init, last, t);
        }
      } else {
        InUnionAppend(before, iv, t);
      }
    }
  }

  // ---- at most one blackout at a time ----

  function Blackouts(faults: seq<FaultSpec>): seq<Interval> {
    if faults == [] then []
    else (if faults[0].kind.Blackout? then [faults[0].Window()] else []) + Blackouts(faults[1..])
  }

  /** No two of the windows, counted with repetition, share a minute. */
  ghost predicate Disjoint(windows: multiset<Interval>) {
    && (forall x :: x in windows ==> windows[x] == 1)
    && (forall x, y :: x in windows && y in windows && x != y ==> x.to <= y.from || y.to <= x.from)
  }

  /** The overlap check of applyDefaults: comparing neighbours in start order
      finds an overlap if there is any. */
  method BlackoutsDisjoint(faults: seq<FaultSpec>) returns (ok: bool)
    requires NonEmpty(Blackouts(faults))
    ensures ok <==> Disjoint(multiset(Blackouts(faults)))
  {
    var sorted := SortByStart(Blackouts(faults));
    SameMembers(sorted, Blackouts(faults));
    assert NonEmpty(sorted) by {
      forall i | 0 <= i < |sorted|
        ensures sorted[i].from < sorted[i].to
      {
        assert sorted[i] in Blackouts(faults);
      }
    }
    var i := 1;
    while i < |sorted|
      invariant forall j :: 0 < j < i && j < |sorted| ==> sorted[j - 1].to <= sorted[j].from
    {
      if sorted[i].from < sorted[i - 1].to {
        NeighboursOverlap(sorted, i);
        return false;
      }
      i := i + 1;
    }
    NeighboursApart(sorted);
    return true;
  }

  lemma NeighboursOverlap(s: seq<Interval>, i: nat)
    requires 0 < i < |s| && s[i - 1].from <= s[i].from < s[i - 1].to && s[i].from < s[i].to
    ensures !Disjoint(multiset(s))
  {
    if s[i - 1] == s[i] {
      assert s == s[..i - 1] + [s[i - 1], s[i]] + s[i + 1..];
    } else {
      assert s[i - 1] in multiset(s) && s[i] in multiset(s);
    }
  }

  lemma {:induction false} StartsAfterAllBefore(s: seq<Interval>, i: nat, j: nat)
    requires NonEmpty(s) && forall k :: 0 < k < |s| ==> s[k - 1].to <= s[k].from
    requires i < j < |s|
    ensures s[i].to <= s[j].from
  {
    if i < j - 1 {
      StartsAfterAllBefore(s, i, j - 1);
      assert s[j - 1].from < s[j - 1].to;
    }
  }

  lemma DisjointAdd(m: multiset<Interval>, last: Interval)
    requires Disjoint(m) && last !in m
    requires forall x :: x in m ==> x.to <= last.from
    ensures Disjoint(m + multiset{last})
  {
  }

  lemma {:induction false} NeighboursApart(s: seq<Interval>)
    requires NonEmpty(s) && forall j :: 0 < j < |s| ==> s[j - 1].to <= s[j].from
    ensures Disjoint(multiset(s))
  {
    if s != [] {
      var init, last := s[..|s| - 1], s[|s| - 1];
      NeighboursApart(init);
      assert s == init + [last];
      forall x | x in init
        ensures x.to <= last.from && x.from < x.to
      {
        var i :| 0 <= i < |init| && init[i] == x;
        StartsAfterAllBefore(s, i, |s| - 1);
      }
      assert last !in init;
      DisjointAdd(multiset(init), last);
    }
  }
}
