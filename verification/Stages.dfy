/** One capacity-limited FIFO stage of the checkout simulation
    (stage in examples/checkout/checkout.go). */
module Stages {
  import opened Wrappers
  import opened Faults

  datatype OrderingError = EligibilityWentBackwards

  // ---- service time under freeze and resume ----

  /** How many of the minutes in [a, b) are not stalled. */
  ghost function Unstalled(stalls: seq<Interval>, a: nat, b: nat): nat
    decreases b
  {
    if b <= a then 0 else Unstalled(stalls, a, b - 1) + if InUnion(stalls, b - 1) then 0 else 1
  }

  /** c is when a service of `delay` minutes that starts at s ends: the first
      instant by which exactly `delay` un-stalled minutes have passed. */
  ghost predicate IsCompletion(stalls: seq<Interval>, s: nat, delay: nat, c: nat) {
    && s <= c
    && Unstalled(stalls, s, c) == delay
    && (s < c ==> !InUnion(stalls, c - 1))
  }

  lemma {:induction false} UnstalledSplit(stalls: seq<Interval>, a: nat, b: nat, c: nat)
    requires a <= b <= c
    ensures Unstalled(stalls, a, c) == Unstalled(stalls, a, b) + Unstalled(stalls, b, c)
  {
    if b < c {
      UnstalledSplit(stalls, a, b, c - 1);
    }
  }

  /** Stalls that agree on [a, b) count the same there. */
  lemma {:induction false} UnstalledAgrees(s1: seq<Interval>, s2: seq<Interval>, a: nat, b: nat)
    requires forall t :: a <= t < b ==> (InUnion(s1, t) <==> InUnion(s2, t))
    ensures Unstalled(s1, a, b) == Unstalled(s2, a, b)
  {
    if a < b {
      UnstalledAgrees(s1, s2, a, b - 1);
    }
  }

  lemma {:induction false} UnstalledClear(stalls: seq<Interval>, a: nat, b: nat)
    requires a <= b && forall t :: a <= t < b ==> !InUnion(stalls, t)
    ensures Unstalled(stalls, a, b) == b - a
  {
    if a < b {
      UnstalledClear(stalls, a, b - 1);
    }
  }

  lemma {:induction false} UnstalledFull(stalls: seq<Interval>, a: nat, b: nat)
    requires a <= b && forall t :: a <= t < b ==> InUnion(stalls, t)
    ensures Unstalled(stalls, a, b) == 0
  {
    if a < b {
      UnstalledFull(stalls, a, b - 1);
    }
  }

  /** Services that start in order end in order, whatever the stalls. With equal
      starts this says that the completion is unique. */
  lemma CompletionsKeepOrder(stalls: seq<Interval>, delay: nat, s1: nat, c1: nat, s2: nat, c2: nat)
    requires IsCompletion(stalls, s1, delay, c1) && IsCompletion(stalls, s2, delay, c2)
    requires s1 <= s2
    ensures c1 <= c2
  {
    if c2 < c1 {
      UnstalledSplit(stalls, s1, s2, c2);
      UnstalledSplit(stalls, s1, c1 - 1, c1);
      UnstalledSplit(stalls, s1, c2, c1 - 1);
    }
  }

  /** Nothing completes strictly inside a stall. */
  lemma CompletionNeverInsideStall(stalls: seq<Interval>, s: nat, delay: nat, c: nat, i: nat)
    requires IsCompletion(stalls, s, delay, c) && !InUnion(stalls, s)
    requires i < |stalls|
    ensures !(stalls[i].from < c < stalls[i].to)
  {
    assert InUnion(stalls, s) || !stalls[i].Covers(s);
    if s < c {
      var last: nat := c - 1;
      assert InUnion(stalls, last) || !stalls[i].Covers(last);
    }
  }

  lemma InUnionOfPrefix(stalls: seq<Interval>, k: nat, t: nat)
    requires k < |stalls|
    ensures InUnion(stalls[..k + 1], t) <==> InUnion(stalls[..k], t) || stalls[k].Covers(t)
  {
    if InUnion(stalls[..k], t) {
      var i :| 0 <= i < k && stalls[..k][i].Covers(t);
      assert stalls[..k + 1][i].Covers(t);
    }
    if stalls[k].Covers(t) {
      assert stalls[..k + 1][k].Covers(t);
    }
    if InUnion(stalls[..k + 1], t) {
      var i :| 0 <= i < k + 1 && stalls[..k + 1][i].Covers(t);
      assert i < k ==> stalls[..k][i].Covers(t);
    }
  }

  /** One step of the extension pass: taking the next stall into account. */
  lemma ExtendCompletion(stalls: seq<Interval>, k: nat, s: nat, delay: nat, c: nat)
    requires Merged(stalls) && k < |stalls| && !stalls[k].Covers(s)
    requires IsCompletion(stalls[..k], s, delay, c)
    ensures var iv := stalls[k];
            var c' := if s < iv.from && c > iv.from then c + (iv.to - iv.from) else c;
            IsCompletion(stalls[..k + 1], s, delay, c')
  {
    var iv, old_, new_ := stalls[k], stalls[..k], stalls[..k + 1];
    forall t
      ensures InUnion(new_, t) <==> InUnion(old_, t) || iv.Covers(t)
    {
      InUnionOfPrefix(stalls, k, t);
    }
    if s < iv.from && c > iv.from {
      var c' := c + (iv.to - iv.from);
      forall t | iv.from <= t
        ensures !InUnion(old_, t)
      {
      }
      UnstalledSplit(old_, s, iv.from, c);
      UnstalledClear(old_, iv.from, c);
      UnstalledAgrees(old_, new_, s, iv.from);
      UnstalledFull(new_, iv.from, iv.to);
      UnstalledClear(new_, iv.to, c');
      UnstalledSplit(new_, s, iv.from, c');
      UnstalledSplit(new_, iv.from, iv.to, c');
    } else {
      UnstalledAgrees(old_, new_, s, c);
    }
  }

  ghost predicate NonDecreasing(s: seq<nat>) {
    forall i, j :: 0 <= i < j < |s| ==> s[i] <= s[j]
  }

  // ---- what a run of services has taken ----

  /** Minute m can take no more: it is stalled, or has its capacity of starts. */
  ghost predicate Taken(stalls: seq<Interval>, capacity: nat, starts: seq<nat>, m: nat) {
    InUnion(stalls, m) || multiset(starts)[m] == capacity
  }

  ghost predicate TakenThroughout(stalls: seq<Interval>, capacity: nat, starts: seq<nat>, a: nat, b: nat) {
    forall m :: a <= m < b ==> Taken(stalls, capacity, starts, m)
  }

  /** Every service started outside the stalls and completes as freeze and
      resume demand. */
  ghost predicate AllServed(stalls: seq<Interval>, delay: nat, starts: seq<nat>, completions: seq<nat>) {
    && |starts| == |completions|
    && forall i :: 0 <= i < |starts| ==>
         !InUnion(stalls, starts[i]) && IsCompletion(stalls, starts[i], delay, completions[i])
  }

  ghost predicate WithinCapacity(capacity: nat, starts: seq<nat>) {
    forall m: nat :: multiset(starts)[m] <= capacity
  }

  lemma AppendOrdered(s: seq<nat>, x: nat)
    requires NonDecreasing(s) && (s != [] ==> s[|s| - 1] <= x)
    ensures NonDecreasing(s + [x])
  {
  }

  ghost predicate LogOk(stalls: seq<Interval>, delay: nat, capacity: nat, starts: seq<nat>, completions: seq<nat>) {
    && NonDecreasing(starts) && NonDecreasing(completions)
    && AllServed(stalls, delay, starts, completions)
    && WithinCapacity(capacity, starts)
  }

  lemma AppendService(stalls: seq<Interval>, delay: nat, capacity: nat,
                      starts: seq<nat>, completions: seq<nat>, s: nat, c: nat)
    requires LogOk(stalls, delay, capacity, starts, completions)
    requires !InUnion(stalls, s) && IsCompletion(stalls, s, delay, c) && multiset(starts)[s] < capacity
    requires starts != [] ==> starts[|starts| - 1] <= s
    ensures LogOk(stalls, delay, capacity, starts + [s], completions + [c])
  {
    if starts != [] {
      var last := |starts| - 1;
      CompletionsKeepOrder(stalls, delay, starts[last], completions[last], s, c);
    }
    AppendOrdered(starts, s);
    AppendOrdered(completions, c);
    AppendKeepsCapacity(capacity, starts, s);
  }

  lemma AppendKeepsCapacity(capacity: nat, starts: seq<nat>, x: nat)
    requires WithinCapacity(capacity, starts) && multiset(starts)[x] < capacity
    ensures WithinCapacity(capacity, starts + [x])
  {
    forall m: nat
      ensures multiset(starts + [x])[m] <= capacity
    {
      assert multiset(starts)[m] <= capacity;
    }
  }

  lemma NoneBeyond(starts: seq<nat>, t: nat)
    requires forall i :: 0 <= i < |starts| ==> starts[i] < t
    ensures multiset(starts)[t] == 0
  {
    assert t in multiset(starts) <==> t in starts;
  }

  /** Each service started no earlier than it could, and every minute it waited was
      taken. */
  ghost predicate Queued(stalls: seq<Interval>, capacity: nat, eligibles: seq<nat>, starts: seq<nat>) {
    && |eligibles| == |starts|
    && forall i :: 0 <= i < |starts| ==>
         eligibles[i] <= starts[i] && TakenThroughout(stalls, capacity, starts, eligibles[i], starts[i])
  }

  lemma TakenStays(stalls: seq<Interval>, capacity: nat, starts: seq<nat>, a: nat, b: nat, s: nat)
    requires TakenThroughout(stalls, capacity, starts, a, b) && b <= s
    ensures TakenThroughout(stalls, capacity, starts + [s], a, b)
  {
    forall m | a <= m < b
      ensures Taken(stalls, capacity, starts + [s], m)
    {
      assert Taken(stalls, capacity, starts, m);
    }
  }

  lemma QueuesNext(stalls: seq<Interval>, capacity: nat, eligibles: seq<nat>, starts: seq<nat>, eligible: nat, s: nat)
    requires Queued(stalls, capacity, eligibles, starts) && (forall i :: 0 <= i < |starts| ==> starts[i] <= s)
    requires eligible <= s && TakenThroughout(stalls, capacity, starts, eligible, s)
    ensures Queued(stalls, capacity, eligibles + [eligible], starts + [s])
  {
    forall i | 0 <= i <= |starts|
      ensures TakenThroughout(stalls, capacity, starts + [s], (eligibles + [eligible])[i], (starts + [s])[i])
    {
      if i < |starts| {
        TakenStays(stalls, capacity, starts, eligibles[i], starts[i], s);
      } else {
        TakenStays(stalls, capacity, starts, eligible, s, s);
      }
    }
  }

  lemma OneMoreService(stalls: seq<Interval>, delay: nat, capacity: nat, log: Log, eligible: nat, s: nat, c: nat)
    requires LogOk(stalls, delay, capacity, log.starts, log.completions) && Queued(stalls, capacity, log.eligibles, log.starts)
    requires (forall i :: 0 <= i < |log.starts| ==> log.starts[i] <= s) && eligible <= s
    requires !InUnion(stalls, s) && IsCompletion(stalls, s, delay, c) && multiset(log.starts)[s] < capacity
    requires TakenThroughout(stalls, capacity, log.starts, eligible, s)
    ensures LogOk(stalls, delay, capacity, log.starts + [s], log.completions + [c])
    ensures Queued(stalls, capacity, log.eligibles + [eligible], log.starts + [s])
    ensures TakenThroughout(stalls, capacity, log.starts + [s], eligible, s)
    ensures multiset(log.starts + [s])[s] == multiset(log.starts)[s] + 1 && s <= c
  {
    AppendService(stalls, delay, capacity, log.starts, log.completions, s, c);
    TakenStays(stalls, capacity, log.starts, eligible, s, s);
    QueuesNext(stalls, capacity, log.eligibles, log.starts, eligible, s);
    hide LogOk, Queued, TakenThroughout;
  }

  // ---- a queue's schedule, by its faults ----

  /** Some consumer stall of the queue covers the minute. */
  ghost predicate StalledBy(faults: seq<FaultSpec>, queue: Queue, t: nat) {
    exists f :: f in faults && f.kind.ConsumerStall? && f.queue == queue && f.from <= t < f.to
  }

  /** How many of the minutes in [a, b) no stall covers. */
  ghost function WorkedMinutes(faults: seq<FaultSpec>, queue: Queue, a: nat, b: nat): nat
    decreases b
  {
    if b <= a then 0 else WorkedMinutes(faults, queue, a, b - 1) + if StalledBy(faults, queue, b - 1) then 0 else 1
  }

  /** When each service could start, when it did, and when it was complete. */
  datatype Log = Log(eligibles: seq<nat>, starts: seq<nat>, completions: seq<nat>)

  /** A service that starts at s takes exactly `delay` un-stalled minutes, the last
      of them just before c. */
  ghost predicate Serves(faults: seq<FaultSpec>, queue: Queue, delay: nat, s: nat, c: nat) {
    && s <= c && !StalledBy(faults, queue, s) && WorkedMinutes(faults, queue, s, c) == delay
    && (s < c ==> !StalledBy(faults, queue, c - 1))
  }

  /** First come first served, never more starts than the capacity in a minute, and
      nobody waits through a minute that is neither stalled nor full. */
  ghost predicate IsSchedule(faults: seq<FaultSpec>, queue: Queue, delay: nat, capacity: nat, log: Log) {
    && |log.eligibles| == |log.starts| == |log.completions|
    && NonDecreasing(log.starts) && NonDecreasing(log.completions)
    && (forall i :: 0 <= i < |log.starts| ==>
          log.eligibles[i] <= log.starts[i] && Serves(faults, queue, delay, log.starts[i], log.completions[i]))
    && (forall m: nat :: multiset(log.starts)[m] <= capacity)
    && (forall i, m: nat :: 0 <= i < |log.starts| && log.eligibles[i] <= m < log.starts[i] ==>
          StalledBy(faults, queue, m) || multiset(log.starts)[m] == capacity)
  }

  lemma {:induction false} WorkedIsUnstalled(stalls: seq<Interval>, faults: seq<FaultSpec>, queue: Queue, a: nat, b: nat)
    requires forall t: nat :: InUnion(stalls, t) <==> StalledBy(faults, queue, t)
    ensures Unstalled(stalls, a, b) == WorkedMinutes(faults, queue, a, b)
    decreases b
  {
    if a < b {
      WorkedIsUnstalled(stalls, faults, queue, a, b - 1);
    }
  }

  /** What a stage keeps is a schedule of its queue. */
  lemma KeepsSchedule(stalls: seq<Interval>, faults: seq<FaultSpec>, queue: Queue, delay: nat, capacity: nat, log: Log)
    requires forall t: nat :: InUnion(stalls, t) <==> StalledBy(faults, queue, t)
    requires LogOk(stalls, delay, capacity, log.starts, log.completions) && Queued(stalls, capacity, log.eligibles, log.starts)
    ensures IsSchedule(faults, queue, delay, capacity, log)
  {
    forall i | 0 <= i < |log.starts|
      ensures Serves(faults, queue, delay, log.starts[i], log.completions[i])
    {
      WorkedIsUnstalled(stalls, faults, queue, log.starts[i], log.completions[i]);
    }
    forall i, m: nat | 0 <= i < |log.starts| && log.eligibles[i] <= m < log.starts[i]
      ensures StalledBy(faults, queue, m) || multiset(log.starts)[m] == capacity
    {
      assert TakenThroughout(stalls, capacity, log.starts, log.eligibles[i], log.starts[i]);
      assert Taken(stalls, capacity, log.starts, m);
    }
  }

  // ---- the stage ----

  class Stage {
    const delay: nat
    const capacity: nat
    const stalls: seq<Interval>
    var cursor: nat
    var used: nat
    var lastEligible: nat

    /** Every service so far: when it could start, the minute it did and when it
        completes. */
    ghost var eligibles: seq<nat>
    ghost var starts: seq<nat>
    ghost var completions: seq<nat>

    ghost predicate Valid()
      reads this
    {
      && capacity >= 1
      && Merged(stalls)
      && used == multiset(starts)[cursor]
      && LogOk(stalls, delay, capacity, starts, completions)
      && Queued(stalls, capacity, eligibles, starts)
      && (forall i :: 0 <= i < |starts| ==> starts[i] <= cursor)
      && TakenThroughout(stalls, capacity, starts, lastEligible, cursor)
    }

    ghost function History(): Log
      reads this
    {
      Log(eligibles, starts, completions)
    }

    lemma IsOnSchedule(faults: seq<FaultSpec>, queue: Queue)
      requires Valid() && forall t: nat :: InUnion(stalls, t) <==> StalledBy(faults, queue, t)
      ensures IsSchedule(faults, queue, delay, capacity, History())
    {
      hide LogOk, Queued;
      KeepsSchedule(stalls, faults, queue, delay, capacity, History());
    }

    lemma CompletionsInOrder()
      requires Valid()
      ensures NonDecreasing(completions)
    {
    }

    constructor (delayMin: nat, capacity: nat, queue: Queue, faults: seq<FaultSpec>)
      requires capacity >= 1
      requires forall f :: f in faults ==> f.Validate()
      ensures Valid() && History() == Log([], [], []) && lastEligible == 0
      ensures delay == delayMin && this.capacity == capacity
      ensures forall t: nat :: InUnion(stalls, t) <==> StalledBy(faults, queue, t)
    {
      var raw := [];
      for i := 0 to |faults|
        invariant NonEmpty(raw)
        invariant forall iv :: iv in raw ==>
                    exists f :: f in faults && f.kind.ConsumerStall? && f.queue == queue && f.Window() == iv
        invariant forall k :: 0 <= k < i && faults[k].kind.ConsumerStall? && faults[k].queue == queue ==>
                    faults[k].Window() in raw
      {
        var f := faults[i];
        if f.kind.ConsumerStall? && f.queue == queue {
          assert f in faults && f.Validate();
          raw := raw + [f.Window()];
        }
      }
      var merged := MergeIntervals(raw);
      delay := delayMin;
      this.capacity := capacity;
      stalls := merged;
      cursor, used, lastEligible := 0, 0, 0;
      eligibles, starts, completions := [], [], [];
      new;
      forall t: nat
        ensures InUnion(stalls, t) <==> StalledBy(faults, queue, t)
      {
        if InUnion(raw, t) {
          var i :| 0 <= i < |raw| && raw[i].Covers(t);
          assert raw[i] in raw;
        }
        if f :| f in faults && f.kind.ConsumerStall? && f.queue == queue && f.from <= t < f.to {
          assert f.Window() in raw;
          var i :| 0 <= i < |raw| && raw[i] == f.Window();
          assert raw[i].Covers(t);
        }
      }
    }

    method Stalled(t: nat) returns (stalled: bool)
      ensures stalled <==> InUnion(stalls, t)
    {
      for i := 0 to |stalls|
        invariant forall k :: 0 <= k < i ==> !stalls[k].Covers(t)
      {
        if stalls[i].from <= t && t < stalls[i].to {
          assert stalls[i].Covers(t);
          return true;
        }
      }
      return false;
    }

    /** An instant past every stall. */
    ghost function Horizon(): nat {
      if stalls == [] then 0 else stalls[|stalls| - 1].to
    }

    lemma StalledBeforeHorizon(t: nat)
      requires Merged(stalls) && InUnion(stalls, t)
      ensures t < Horizon()
    {
      var i :| 0 <= i < |stalls| && stalls[i].Covers(t);
      if i < |stalls| - 1 {
        assert stalls[i].to < stalls[|stalls| - 1].from;
      }
    }

    /** One forward pass over the stalls: each one the growing service crosses
        pushes its completion back by that stall's length. */
    method CompletionFrom(start: nat) returns (completion: nat)
      requires Merged(stalls) && !InUnion(stalls, start)
      ensures IsCompletion(stalls, start, delay, completion)
    {
      completion := start + delay;
      UnstalledClear(stalls[..0], start, completion);
      for k := 0 to |stalls|
        invariant IsCompletion(stalls[..k], start, delay, completion)
      {
        var iv := stalls[k];
        assert !iv.Covers(start) && iv.from < iv.to;
        ExtendCompletion(stalls, k, start, delay, completion);
        if start < iv.from && completion > iv.from {
          completion := completion + (iv.to - iv.from);
        }
      }
      assert stalls[..|stalls|] == stalls;
    }

    /** Moves the cursor to the first minute from `eligible` on that is neither
        stalled nor full. Stops because no stall reaches past the horizon. */
    method FindSlot(eligible: nat)
      requires Valid() && lastEligible <= eligible
      modifies `cursor, `used
      ensures eligible <= cursor && old(cursor) <= cursor
      ensures !InUnion(stalls, cursor) && used == multiset(starts)[cursor] < capacity
      ensures TakenThroughout(stalls, capacity, starts, eligible, cursor)
    {
      if cursor < eligible {
        NoneBeyond(starts, eligible);
        cursor := eligible;
        used := 0;
      }
      var stalled := Stalled(cursor);
      while stalled || used >= capacity
        invariant stalled <==> InUnion(stalls, cursor)
        invariant eligible <= cursor && old(cursor) <= cursor
        invariant forall i :: 0 <= i < |starts| ==> starts[i] <= cursor
        invariant used == multiset(starts)[cursor] <= capacity
        invariant TakenThroughout(stalls, capacity, starts, eligible, cursor)
        decreases (if cursor < Horizon() then Horizon() - cursor else 0) + if used >= capacity then 1 else 0
      {
        if stalled {
          StalledBeforeHorizon(cursor);
        }
        assert Taken(stalls, capacity, starts, cursor);
        NoneBeyond(starts, cursor + 1);
        cursor := cursor + 1;
        used := 0;
        stalled := Stalled(cursor);
      }
    }

    /** Finds the first free slot at or after `eligible` and returns when the
        service that takes it completes. Fails, changing nothing, exactly when
        eligibility goes backwards. */
    method Schedule(eligible: nat) returns (r: Result<nat, OrderingError>, ghost start: nat)
      requires Valid()
      modifies this
      ensures Valid()
      ensures r.Failure? <==> eligible < old(lastEligible)
      ensures r.Failure? ==> unchanged(this)
      ensures r.Success? ==>
                && lastEligible == eligible
                && eligibles == old(eligibles) + [eligible]
                && starts == old(starts) + [start]
                && completions == old(completions) + [r.value]
                && eligible <= start <= r.value
                && TakenThroughout(stalls, capacity, old(starts), eligible, start)
    {
      if eligible < lastEligible {
        return Failure(EligibilityWentBackwards), 0;
      }
      FindSlot(eligible);
      var completion := Serve(eligible);
      r, start := Success(completion), cursor;
    }

    /** Starts a service in the slot at the cursor. */
    method Serve(eligible: nat) returns (completion: nat)
      requires Merged(stalls) && LogOk(stalls, delay, capacity, starts, completions)
      requires Queued(stalls, capacity, eligibles, starts) && forall i :: 0 <= i < |starts| ==> starts[i] <= cursor
      requires eligible <= cursor && !InUnion(stalls, cursor) && used == multiset(starts)[cursor] < capacity
      requires TakenThroughout(stalls, capacity, starts, eligible, cursor)
      modifies `lastEligible, `used, `eligibles, `starts, `completions
      ensures Valid() && lastEligible == eligible && cursor <= completion
      ensures eligibles == old(eligibles) + [eligible]
      ensures starts == old(starts) + [cursor] && completions == old(completions) + [completion]
    {
      hide LogOk, Queued, TakenThroughout, InUnion;
      completion := CompletionFrom(cursor);
      OneMoreService(stalls, delay, capacity, History(), eligible, cursor, completion);
      hide IsCompletion;
      lastEligible := eligible;
      used := used + 1;
      eligibles := eligibles + [eligible];
      starts := starts + [cursor];
      completions := completions + [completion];
    }
  }
}
