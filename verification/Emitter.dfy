/** The standard emitter (emit/emitter.go): bounded buffers, in-process de-dup,
    and drop counters that survive a failing backend. */
module Emitter {
  import opened Wrappers
  import opened DedupSet
  import opened Money

  datatype ResultKind = Succeeded | Failed | Deferred | Abandoned | Unknown

  function ResultName(r: ResultKind): string {
    match r
    case Succeeded => "success"
    case Failed => "failed"
    case Deferred => "deferred"
    case Abandoned => "abandoned"
    case Unknown => "unknown"
  }

  /** A stage transition; at is in nanoseconds. */
  datatype Outcome = Outcome(
    at: int, flow: string, entity: string, customer: string, segment: string, money: Money, kind: string,
    estimated: bool, stage: string, result: ResultKind)

  // ---- the de-dup key ----

  const NUL := '\0'

  function KeyOf(o: Outcome): string {
    o.flow + [NUL] + (o.entity + [NUL] + (o.stage + [NUL] + ResultName(o.result)))
  }

  lemma NulPosition(s: string, a: string, b: string)
    requires s == a + [NUL] + b && NUL !in a
    ensures |a| < |s| && s[|a|] == NUL && forall i :: 0 <= i < |a| ==> s[i] != NUL
    ensures s[..|a|] == a && s[|a| + 1..] == b
  {
    assert forall i :: 0 <= i < |a| ==> s[i] == a[i];
  }

  lemma SplitAtNul(a: string, b: string, a': string, b': string)
    requires a + [NUL] + b == a' + [NUL] + b'
    requires NUL !in a && NUL !in a'
    ensures a == a' && b == b'
  {
    NulPosition(a + [NUL] + b, a, b);
    NulPosition(a + [NUL] + b, a', b');
  }

  /** Validation lets no NUL into a name, so two calls share a key exactly when
      they report the same result for the same stage of the same entity. */
  lemma KeyNamesOneTransition(o: Outcome, o': Outcome)
    requires NUL !in o.flow && NUL !in o.entity && NUL !in o.stage
    requires NUL !in o'.flow && NUL !in o'.entity && NUL !in o'.stage
    ensures KeyOf(o) == KeyOf(o') <==>
              o.flow == o'.flow && o.entity == o'.entity && o.stage == o'.stage && o.result == o'.result
  {
    if KeyOf(o) == KeyOf(o') {
      SplitAtNul(o.flow, o.entity + [NUL] + (o.stage + [NUL] + ResultName(o.result)),
                 o'.flow, o'.entity + [NUL] + (o'.stage + [NUL] + ResultName(o'.result)));
      SplitAtNul(o.entity, o.stage + [NUL] + ResultName(o.result),
                 o'.entity, o'.stage + [NUL] + ResultName(o'.result));
      SplitAtNul(o.stage, ResultName(o.result), o'.stage, ResultName(o'.result));
      NamesDiffer(o.result, o'.result);
    }
  }

  lemma NamesDiffer(r: ResultKind, r': ResultKind)
    ensures ResultName(r) == ResultName(r') <==> r == r'
  {
    if r != r' {
      var n, n' := ResultName(r), ResultName(r');
      assert |n| != |n'| || n[0] != n'[0];
    }
  }

  // ---- points ----

  datatype Reason = Overflow | Invalid | Export

  datatype Point =
    | ValueTotal(flow: string, stage: string, result: ResultKind, currency: string, kind: string,
                 segment: string, value: int, at: int)
    | TxnTotal(flow: string, stage: string, result: ResultKind, currency: string, segment: string, at: int)
    | InFlightValue(flow: string, stage: string, bucket: string, currency: string, value: int, at: int)
    | InFlightCount(flow: string, stage: string, bucket: string, currency: string, value: int, at: int)
    | ProviderCall(provider: string, op: string, outcome: string, at: int)
    | DroppedEvents(reason: Reason, n: nat, at: int)

  datatype Registry = Registry(stages: map<string, set<string>>, segments: set<string>)

  const UNREGISTERED := "unregistered"
  const PROVIDER_OTHER := "other"
  const AGE_LABELS := ["lt1m", "1m-5m", "5m-30m", "30m-2h", "gt2h"]

  /** Names outside the registry collapse to fixed values. */
  function FlowLabel(reg: Registry, flow: string): string {
    if flow in reg.stages then flow else UNREGISTERED
  }

  function StageLabel(reg: Registry, flow: string, stage: string): string {
    if flow in reg.stages && stage in reg.stages[flow] then stage else UNREGISTERED
  }

  function SegmentLabel(reg: Registry, segment: string): string {
    if segment in reg.segments then segment else ""
  }

  /** An admitted transition counts once; its amount counts too unless estimated. */
  function PointsOf(reg: Registry, o: Outcome): seq<Point> {
    var flow, stage, segment := FlowLabel(reg, o.flow), StageLabel(reg, o.flow, o.stage), SegmentLabel(reg, o.segment);
    var txn := TxnTotal(flow, stage, o.result, o.money.currency, segment, o.at);
    if o.estimated then [txn]
    else [ValueTotal(flow, stage, o.result, o.money.currency, o.kind, segment, o.money.amount as int, o.at), txn]
  }

  // ---- drop counters ----

  type Drops = map<Reason, nat>

  function Count(drops: Drops, r: Reason): nat { if r in drops then drops[r] else 0 }

  function Bump(drops: Drops, r: Reason, n: nat): Drops { drops[r := Count(drops, r) + n] }

  /** What the drop points of a batch add up to under one reason. */
  function DropSum(points: seq<Point>, r: Reason): nat {
    if points == [] then 0 else
      var p := points[|points| - 1];
      DropSum(points[..|points| - 1], r) + if p.DroppedEvents? && p.reason == r then p.n else 0
  }

  /** The counters with a batch's drop points put back. */
  function Credit(drops: Drops, points: seq<Point>): Drops {
    if points == [] then drops else
      var init, p := Credit(drops, points[..|points| - 1]), points[|points| - 1];
      if p.DroppedEvents? then Bump(init, p.reason, p.n) else init
  }

  lemma {:induction false} CreditAddsSums(drops: Drops, points: seq<Point>, r: Reason)
    ensures Count(Credit(drops, points), r) == Count(drops, r) + DropSum(points, r)
  {
    if points != [] {
      CreditAddsSums(drops, points[..|points| - 1], r);
    }
  }

  lemma {:induction false} DropSumAppend(a: seq<Point>, b: seq<Point>, r: Reason)
    ensures DropSum(a + b, r) == DropSum(a, r) + DropSum(b, r)
  {
    if b == [] {
      assert a + b == a;
    } else {
      DropSumAppend(a, b[..|b| - 1], r);
      assert (a + b)[..|a + b| - 1] == a + b[..|b| - 1];
    }
  }

  predicate NoDropPoints(points: seq<Point>) {
    forall p :: p in points ==> !p.DroppedEvents?
  }

  lemma {:induction false} NoDropPointsSumToZero(points: seq<Point>, r: Reason)
    requires NoDropPoints(points)
    ensures DropSum(points, r) == 0
  {
    if points != [] {
      assert points[|points| - 1] in points;
      NoDropPointsSumToZero(points[..|points| - 1], r);
    }
  }

  /** One point for every reason counted so far, in any order. */
  ghost predicate ListsDrops(points: seq<Point>, drops: Drops) {
    && |points| == |drops|
    && (forall p :: p in points ==> p.DroppedEvents?)
    && forall r :: DropSum(points, r) == Count(drops, r)
  }

  // ---- abstract state and its atomic steps ----

  /** Everything guarded by the emitter's lock. */
  datatype View = View(
    events: seq<Outcome>, points: seq<Point>, drops: Drops, pointOverflow: nat,
    gens: Generations, pairs: set<(string, string)>)

  datatype Verdict = Admitted | Suppressed | Overflowed

  /** A full buffer refuses before de-dup is asked, so the refusal leaves no
      memory behind. */
  function Judge(v: View, bufSize: nat, o: Outcome): Verdict {
    if |v.events| >= bufSize then Overflowed
    else if v.gens.Remembers(KeyOf(o)) then Suppressed
    else Admitted
  }

  function AdmissionStep(v: View, bufSize: nat, dedupCap: int, o: Outcome): View {
    match Judge(v, bufSize, o)
    case Overflowed => v.(drops := Bump(v.drops, Reason.Overflow, 1))
    case Suppressed => v
    case Admitted => v.(events := v.events + [o], gens := Insert(v.gens, dedupCap, KeyOf(o)))
  }

  /** How many of n new points still fit. */
  function Fitting(held: nat, cap: nat, n: nat): (k: nat)
    ensures k <= n
  {
    if held + n <= cap then n else if held <= cap then cap - held else 0
  }

  function AppendStep(v: View, cap: nat, points: seq<Point>): View {
    var k := Fitting(|v.points|, cap, |points|);
    v.(points := v.points + points[..k], pointOverflow := v.pointOverflow + |points| - k)
  }

  function BumpStep(v: View, r: Reason, n: nat): View { v.(drops := Bump(v.drops, r, n)) }

  function CreditStep(v: View, points: seq<Point>): View { v.(drops := Credit(v.drops, points)) }

  /** A flush takes everything. */
  function TakenStep(v: View): View { v.(events := [], points := [], drops := map[], pointOverflow := 0) }

  predicate Bounded(v: View, bufSize: nat, pairCap: nat) {
    |v.events| <= bufSize && |v.points| <= 8 * bufSize && |v.pairs| <= pairCap
  }

  /** Every provider series is an admitted pair or the one they collapse to. */
  predicate PairsFenced(points: seq<Point>, pairs: set<(string, string)>) {
    forall p :: p in points && p.ProviderCall? ==>
      (p.provider, p.op) in pairs || (p.provider == PROVIDER_OTHER && p.op == PROVIDER_OTHER)
  }

  // ---- one flush, undisturbed ----

  datatype ExportError = EventsFailed | PointsFailed | ShutdownFailed

  /** The first error wins. */
  function FlushError(v: View, taken: seq<Point>, eventsOk: bool, pointsOk: bool): Option<ExportError> {
    if v.events != [] && !eventsOk then Some(EventsFailed)
    else if taken != [] && !pointsOk then Some(PointsFailed)
    else None
  }

  /** What a flush that nobody overtakes leaves behind: a failed event batch is
      counted, and the drop points of a failed metric batch are put back. */
  function Flushed(v: View, taken: seq<Point>, eventsOk: bool, pointsOk: bool): View {
    var lost := if v.events != [] && !eventsOk then BumpStep(TakenStep(v), Export, |v.events|) else TakenStep(v);
    if taken != [] && !pointsOk then CreditStep(lost, taken) else lost
  }

  ghost predicate Takes(v: View, taken: seq<Point>) {
    |v.points| <= |taken| && taken[..|v.points|] == v.points && ListsDrops(taken[|v.points|..], v.drops)
  }

  /** No drop is ever forgotten: what a flush leaves counted under a reason is
      what was counted before, plus a batch it lost, less what it delivered. */
  lemma FlushConservesDrops(v: View, taken: seq<Point>, eventsOk: bool, pointsOk: bool, r: Reason)
    requires Takes(v, taken) && NoDropPoints(v.points)
    ensures Count(Flushed(v, taken, eventsOk, pointsOk).drops, r)
         == (if pointsOk then 0 else Count(v.drops, r))
            + if r == Export && !eventsOk then |v.events| else 0
  {
    var lost := if v.events != [] && !eventsOk then BumpStep(TakenStep(v), Export, |v.events|) else TakenStep(v);
    CreditAddsSums(lost.drops, taken, r);
    assert taken == v.points + taken[|v.points|..];
    DropSumAppend(v.points, taken[|v.points|..], r);
    NoDropPointsSumToZero(v.points, r);
    if taken == [] {
      assert taken[|v.points|..] == [];
    }
  }

  // ---- the emitter object ----

  datatype NewError = BufferTooSmall | PairCapTooSmall

  const DEDUP_CAP := 0x1_0000

  class Std {
    const reg: Registry
    const bufSize: nat
    const pointsCap: nat
    const pairCap: nat
    const dedup: TwoGenSet

    var events: seq<Outcome>
    var points: seq<Point>
    var drops: Drops
    var pointOverflow: nat
    var pairs: set<(string, string)>

    /** What the exporter has accepted. */
    var sentEvents: seq<Outcome>
    var sentPoints: seq<Point>

    /** The result of the first Close, once there was one. */
    var closeErr: Option<seq<Option<ExportError>>>

    ghost function Abs(): View
      reads this, dedup
    {
      View(events, points, drops, pointOverflow, dedup.gens, pairs)
    }

    ghost predicate Valid()
      reads this, dedup, dedup.Repr()
    {
      && this !in dedup.Repr() && dedup.Valid() && dedup.cap == DEDUP_CAP
      && pointsCap == 8 * bufSize
      && Bounded(Abs(), bufSize, pairCap)
      && NoDropPoints(points)
      && PairsFenced(points, pairs) && PairsFenced(sentPoints, pairs)
    }

    constructor (reg: Registry, bufSize: nat, pairCap: nat)
      ensures Valid() && fresh(dedup.Repr())
      ensures Abs() == View([], [], map[], 0, NOTHING, {}) && sentEvents == [] && sentPoints == [] && closeErr == None
      ensures this.reg == reg && this.bufSize == bufSize && this.pairCap == pairCap && dedup.cap == 0x1_0000
    {
      this.reg, this.bufSize, this.pointsCap, this.pairCap := reg, bufSize, 8 * bufSize, pairCap;
      dedup := new TwoGenSet(DEDUP_CAP);
      events, points, drops, pointOverflow, pairs := [], [], map[], 0, {};
      sentEvents, sentPoints, closeErr := [], [], None;
    }

    static method New(reg: Registry, bufSize: int, pairCap: int) returns (r: Result<Std, NewError>)
      ensures r.Success? <==> bufSize >= 1 && pairCap >= 1
      ensures r.Success? ==> fresh(r.value) && r.value.Valid() && fresh(r.value.dedup.Repr())
      ensures r.Failure? ==> r.error == if bufSize < 1 then BufferTooSmall else PairCapTooSmall
    {
      if bufSize < 1 {
        return Failure(BufferTooSmall);
      }
      if pairCap < 1 {
        return Failure(PairCapTooSmall);
      }
      var s := new Std(reg, bufSize, pairCap);
      return Success(s);
    }

    /** One call with its outcome, or with none if there was no usable context or
        it failed validation. */
    method Record(o: Option<Outcome>)
      requires Valid()
      modifies this, dedup.Repr()
      ensures Valid() && fresh(dedup.Repr() - old(dedup.Repr()))
      ensures o.None? ==> Abs() == BumpStep(old(Abs()), Invalid, 1)
      ensures o.Some? ==>
                var v := AdmissionStep(old(Abs()), bufSize, DEDUP_CAP, o.value);
                Abs() == if Judge(old(Abs()), bufSize, o.value).Admitted?
                         then AppendStep(v, 8 * bufSize, PointsOf(reg, o.value)) else v
      ensures sentEvents == old(sentEvents) && sentPoints == old(sentPoints) && closeErr == old(closeErr)
    {
      if o.None? {
        DropInvalid();
        return;
      }
      var verdict := Admit(o.value);
      if verdict.Admitted? {
        AppendPoints(PointsOf(reg, o.value));
      }
    }

    method DropInvalid()
      modifies `drops
      ensures drops == Bump(old(drops), Invalid, 1)
    {
      drops := Bump(drops, Invalid, 1);
    }

    /** The critical section of Record. */
    method Admit(o: Outcome) returns (verdict: Verdict)
      requires Valid()
      modifies `events, `drops, dedup.Repr()
      ensures Valid() && fresh(dedup.Repr() - old(dedup.Repr()))
      ensures verdict == Judge(old(Abs()), bufSize, o)
      ensures Abs() == AdmissionStep(old(Abs()), bufSize, DEDUP_CAP, o)
    {
      if |events| >= bufSize {
        drops := Bump(drops, Reason.Overflow, 1);
        return Overflowed;
      }
      var seen := dedup.Seen(KeyOf(o));
      if seen {
        return Suppressed;
      }
      events := events + [o];
      return Admitted;
    }

    /** Appends what fits and counts the rest. */
    method AppendPoints(more: seq<Point>)
      requires |points| <= pointsCap == 8 * bufSize
      requires NoDropPoints(points) && PairsFenced(points, pairs)
      requires NoDropPoints(more) && PairsFenced(more, pairs)
      modifies `points, `pointOverflow
      ensures Abs() == AppendStep(old(Abs()), 8 * bufSize, more)
      ensures |points| <= pointsCap && NoDropPoints(points) && PairsFenced(points, pairs)
    {
      ghost var held := |points|;
      ghost var was := points;
      var i := 0;
      while i < |more|
        invariant i <= |more|
        invariant points == was + more[..Fitting(held, pointsCap, i)]
        invariant pointOverflow == old(pointOverflow) + i - Fitting(held, pointsCap, i)
        invariant |points| <= pointsCap && NoDropPoints(points) && PairsFenced(points, pairs)
      {
        if |points| >= pointsCap {
          pointOverflow := pointOverflow + 1;
        } else {
          assert more[..i + 1] == more[..i] + [more[i]];
          points := points + [more[i]];
        }
        i := i + 1;
      }
      assert more[..|more|] == more;
    }

    /** One gauge sample: its value and its count, or a counted refusal. */
    method SetInFlight(flow: string, stage: string, bucket: string, money: Money, count: int, now: int)
      requires Valid()
      modifies `points, `pointOverflow, `drops
      ensures Valid()
      ensures if bucket !in AGE_LABELS || !money.Valid() || count < 0 then Abs() == BumpStep(old(Abs()), Invalid, 1)
              else
                var f, s, c := FlowLabel(reg, flow), StageLabel(reg, flow, stage), money.currency;
                Abs() == AppendStep(old(Abs()), 8 * bufSize,
                                    [InFlightValue(f, s, bucket, c, money.amount as int, now),
                                     InFlightCount(f, s, bucket, c, count, now)])
    {
      if bucket !in AGE_LABELS || !money.Valid() || count < 0 {
        DropInvalid();
        return;
      }
      var f, s, c := FlowLabel(reg, flow), StageLabel(reg, flow, stage), money.currency;
      AppendPoints([InFlightValue(f, s, bucket, c, money.amount as int, now),
                    InFlightCount(f, s, bucket, c, count, now)]);
    }

    /** A provider call; fenced says whether provider, op and outcome passed their
        label fences. Past the cap a new pair is counted under one shared series. */
    method RecordProviderCall(provider: string, op: string, outcome: string, fenced: bool, now: int)
      requires Valid()
      modifies `points, `pointOverflow, `pairs, `drops
      ensures Valid() && old(pairs) <= pairs
      ensures !fenced ==> pairs == old(pairs) && Abs() == BumpStep(old(Abs()), Invalid, 1)
      ensures var known := (provider, op) in old(pairs) || |old(pairs)| < pairCap;
              fenced ==>
                && pairs == (if known then old(pairs) + {(provider, op)} else old(pairs))
                && Abs() == AppendStep(old(Abs()).(pairs := pairs), 8 * bufSize,
                              [if known then ProviderCall(provider, op, outcome, now)
                               else ProviderCall(PROVIDER_OTHER, PROVIDER_OTHER, outcome, now)])
    {
      if !fenced {
        DropInvalid();
        return;
      }
      var p, o := provider, op;
      if (provider, op) in pairs {
        assert pairs == pairs + {(provider, op)};
      } else if |pairs| >= pairCap {
        p, o := PROVIDER_OTHER, PROVIDER_OTHER;
      } else {
        pairs := pairs + {(provider, op)};
      }
      AppendPoints([ProviderCall(p, o, outcome, now)]);
    }

    /** The critical section of Flush. */
    method TakeAll(now: int) returns (batch: seq<Outcome>, taken: seq<Point>)
      requires Valid()
      modifies `events, `points, `drops, `pointOverflow
      ensures Valid() && batch == old(events) && Takes(old(Abs()), taken)
      ensures Abs() == TakenStep(old(Abs()))
    {
      batch, taken := events, points;
      var listed := ListDrops(now);
      taken := taken + listed;
      events, points, drops, pointOverflow := [], [], map[], 0;
    }

    method ListDrops(now: int) returns (listed: seq<Point>)
      ensures ListsDrops(listed, drops)
    {
      listed := [];
      var todo := drops.Keys;
      while todo != {}
        invariant todo <= drops.Keys && |listed| == |drops| - |todo|
        invariant forall p :: p in listed ==> p.DroppedEvents?
        invariant forall r :: DropSum(listed, r) == if r in todo then 0 else Count(drops, r)
        decreases todo
      {
        var r :| r in todo;
        var p := DroppedEvents(r, drops[r], now);
        assert (listed + [p])[..|listed|] == listed;
        listed := listed + [p];
        todo := todo - {r};
      }
    }

    /** A flush that nobody overtakes; the two flags are the exporter's answers. */
    method Flush(eventsOk: bool, pointsOk: bool, now: int) returns (err: Option<ExportError>)
      requires Valid()
      modifies `events, `points, `drops, `pointOverflow, `sentEvents, `sentPoints
      ensures Valid() && sentEvents == old(sentEvents) + if eventsOk then old(events) else []
      ensures exists taken ::
                && Takes(old(Abs()), taken) && Abs() == Flushed(old(Abs()), taken, eventsOk, pointsOk)
                && sentPoints == old(sentPoints) + (if pointsOk then taken else [])
                && err == FlushError(old(Abs()), taken, eventsOk, pointsOk)
      ensures forall r :: Count(drops, r) == (if pointsOk then 0 else Count(old(drops), r))
                                             + if r == Export && !eventsOk then |old(events)| else 0
      ensures pointsOk ==> forall r :: DropSum(sentPoints, r) == DropSum(old(sentPoints), r) + Count(old(drops), r)
    {
      ghost var v, sent := Abs(), sentPoints;
      ghost var taken;
      err, taken := FlushTaking(eventsOk, pointsOk, now);
      forall r
        ensures Count(drops, r) == (if pointsOk then 0 else Count(v.drops, r))
                                   + if r == Export && !eventsOk then |v.events| else 0
        ensures pointsOk ==> DropSum(sentPoints, r) == DropSum(sent, r) + Count(v.drops, r)
      {
        FlushConservesDrops(v, taken, eventsOk, pointsOk, r);
        TakenSums(v, taken, r);
        DropSumAppend(sent, taken, r);
      }
    }

    method FlushTaking(eventsOk: bool, pointsOk: bool, now: int)
      returns (err: Option<ExportError>, ghost taken: seq<Point>)
      requires Valid()
      modifies `events, `points, `drops, `pointOverflow, `sentEvents, `sentPoints
      ensures Valid() && Takes(old(Abs()), taken) && Abs() == Flushed(old(Abs()), taken, eventsOk, pointsOk)
      ensures sentEvents == old(sentEvents) + if eventsOk then old(events) else []
      ensures sentPoints == old(sentPoints) + if pointsOk then taken else []
      ensures err == FlushError(old(Abs()), taken, eventsOk, pointsOk)
    {
      ghost var v := Abs();
      var batch, all := TakeAll(now);
      taken := all;
      Delivered(v, taken);
      err := None;
      if |batch| > 0 {
        if eventsOk {
          sentEvents := sentEvents + batch;
        } else {
          err := Some(EventsFailed);
          drops := Bump(drops, Export, |batch|);
        }
      }
      if |all| > 0 {
        if pointsOk {
          sentPoints := sentPoints + all;
        } else {
          err := if err.None? then Some(PointsFailed) else err;
          drops := Credit(drops, all);
        }
      }
    }

    lemma Delivered(v: View, taken: seq<Point>)
      requires Takes(v, taken) && PairsFenced(v.points, v.pairs)
      ensures PairsFenced(taken, v.pairs)
    {
      assert taken == v.points + taken[|v.points|..];
    }

    /** The first call flushes twice, so that an event batch lost to the first
        flush is still reported by the second, then shuts the exporter down;
        later calls only repeat its answer. */
    method Close(eventsOk: bool, pointsOk: bool, pointsOk2: bool, stopOk: bool, now: int)
      returns (err: seq<Option<ExportError>>)
      requires Valid()
      modifies `events, `points, `drops, `pointOverflow, `sentEvents, `sentPoints, `closeErr
      ensures Valid() && closeErr == Some(err)
      ensures old(closeErr).Some? ==> closeErr == old(closeErr) && Abs() == old(Abs())
                                      && sentEvents == old(sentEvents) && sentPoints == old(sentPoints)
      ensures old(closeErr).None? ==>
                && events == [] && points == [] && |err| == 3 && err[2] == (if stopOk then None else Some(ShutdownFailed))
                && (exists taken ::
                      && Takes(old(Abs()), taken) && err[0] == FlushError(old(Abs()), taken, eventsOk, pointsOk)
                      && old(sentPoints) + (if pointsOk then taken else []) <= sentPoints)
                && (err[1].None? || (err[1] == Some(PointsFailed) && !pointsOk2))
      ensures old(closeErr).None? && err[1].None? && !pointsOk2 ==> forall r :: Count(drops, r) == 0
      ensures old(closeErr).None? ==> sentEvents == old(sentEvents) + if eventsOk then old(events) else []
      ensures old(closeErr).None? && pointsOk2 ==>
                forall r :: Count(drops, r) == 0
                            && DropSum(sentPoints, r) == DropSum(old(sentPoints), r) + Count(old(drops), r)
                               + if r == Export && !eventsOk then |old(events)| else 0
      ensures old(closeErr).None? && !pointsOk2 ==>
                forall r :: Count(drops, r) == (if pointsOk then 0 else Count(old(drops), r))
                                               + if r == Export && !eventsOk then |old(events)| else 0
    {
      if closeErr.Some? {
        return closeErr.value;
      }
      hide Flushed, FlushError, Takes, PairsFenced;
      ghost var v, sent := Abs(), sentPoints;
      ghost var taken, taken2;
      var first, second;
      first, taken := FlushTaking(eventsOk, pointsOk, now);
      ghost var v1 := Abs();
      second, taken2 := FlushTaking(true, pointsOk2, now);
      err := [first, second, if stopOk then None else Some(ShutdownFailed)];
      closeErr := Some(err);
      FlushedEmpties(v, taken, eventsOk, pointsOk);
      FlushedEmpties(v1, taken2, true, pointsOk2);
      forall r
        ensures Count(drops, r) == if pointsOk2 then 0 else Count(v1.drops, r)
        ensures Count(v1.drops, r) == (if pointsOk then 0 else Count(v.drops, r))
                                      + if r == Export && !eventsOk then |v.events| else 0
        ensures pointsOk2 ==> DropSum(sentPoints, r) == DropSum(sent, r) + Count(v.drops, r)
                                                        + if r == Export && !eventsOk then |v.events| else 0
        ensures second.None? && !pointsOk2 ==> Count(drops, r) == 0
      {
        FlushConservesDrops(v, taken, eventsOk, pointsOk, r);
        FlushConservesDrops(v1, taken2, true, pointsOk2, r);
        TakenSums(v, taken, r);
        TakenSums(v1, taken2, r);
        SilentMeansNothingTaken(v1, taken2, pointsOk2);
        DropSumAppend(sent, if pointsOk then taken else [], r);
        DropSumAppend(sent + if pointsOk then taken else [], taken2, r);
      }
    }
  }

  lemma FlushedEmpties(v: View, taken: seq<Point>, eventsOk: bool, pointsOk: bool)
    ensures Flushed(v, taken, eventsOk, pointsOk).events == [] && Flushed(v, taken, eventsOk, pointsOk).points == []
    ensures v.events == [] ==> FlushError(v, taken, eventsOk, pointsOk).None?
                               || (FlushError(v, taken, eventsOk, pointsOk) == Some(PointsFailed) && !pointsOk)
  {
  }

  lemma SilentMeansNothingTaken(v: View, taken: seq<Point>, pointsOk: bool)
    ensures FlushError(v, taken, true, pointsOk).None? && !pointsOk ==> taken == []
  {
  }

  lemma TakenSums(v: View, taken: seq<Point>, r: Reason)
    requires Takes(v, taken) && NoDropPoints(v.points)
    ensures DropSum(taken, r) == Count(v.drops, r)
  {
    assert taken == v.points + taken[|v.points|..];
    DropSumAppend(v.points, taken[|v.points|..], r);
    NoDropPointsSumToZero(v.points, r);
  }
}
