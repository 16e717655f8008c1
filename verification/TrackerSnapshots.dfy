/** What concurrent publishing reads and emits (emit/inflight.go): the totals of
    one publish are those of a single state of the tracked set. */
module TrackerSnapshots {
  import opened Wrappers
  import opened Money
  import opened Tracker
  import opened TrackerSteps

  /** The i-th value of the tracked set, counting from the empty one; the current
      value is the last. */
  ghost function ValueAt(s: State, i: nat): map<Key, Item>
    requires i <= |s.past|
  {
    if i < |s.past| then s.past[i] else s.items
  }

  // ---- the exponent pins ----

  ghost predicate MoneyPinned(exponents: map<string, int8>, m: Money) {
    m.Valid() && m.currency in exponents && exponents[m.currency] == m.exponent
  }

  ghost predicate VersionOk(exponents: map<string, int8>, v: map<Key, Item>) {
    forall k :: k in v ==> MoneyPinned(exponents, v[k].money)
  }

  ghost predicate WorkerPinned(exponents: map<string, int8>, w: Worker) {
    && (w.Loading? || w.Missed? ==> w.item.money.Valid())
    && (w.Waiting? || w.InShard? || w.Reserved? ==> MoneyPinned(exponents, w.item.money))
  }

  ghost predicate AllPinned(s: State) {
    && (forall t :: 0 <= t < |s.workers| ==> WorkerPinned(s.exponents, s.workers[t]))
    && VersionOk(s.exponents, s.items)
    && (forall i :: 0 <= i < |s.past| ==> VersionOk(s.exponents, s.past[i]))
  }

  /** A pin is never moved. */
  ghost predicate PinsOnlyGrow(s: State, s': State) {
    forall cur :: cur in s.exponents ==> cur in s'.exponents && s'.exponents[cur] == s.exponents[cur]
  }

  ghost predicate PinStep(s: State, t: nat, s': State)
    requires t < |s.workers| == |s'.workers|
  {
    PinsOnlyGrow(s, s') && (WorkerPinned(s.exponents, s.workers[t]) ==> WorkerPinned(s'.exponents, s'.workers[t]))
  }

  lemma TrackPins(c: Config, s: State, t: nat, s': State)
    requires t < |s.workers| == |s'.workers| && |s.locks| == TRACKER_SHARDS && TrackStepOf(c, s, t, s')
    ensures PinStep(s, t, s')
  {
  }

  lemma DonePins(c: Config, s: State, t: nat, s': State)
    requires t < |s.workers| == |s'.workers| && |s.locks| == TRACKER_SHARDS && DoneStepOf(c, s, t, s')
    ensures PinStep(s, t, s')
  {
  }

  lemma PublishPins(c: Config, s: State, t: nat, s': State)
    requires t < |s.workers| == |s'.workers| && |s.locks| == TRACKER_SHARDS && PublishStepOf(c, s, t, s')
    ensures PinStep(s, t, s')
  {
  }

  lemma StepPins(c: Config, s: State, t: nat, s': State)
    requires Locked(c, s) && Next(c, s, t, s') && Framed(c, s, t, s')
    ensures PinStep(s, t, s')
  {
    if s.workers[t].Idle? && BeginStep(s, t, s') {
    } else if TrackStepOf(c, s, t, s') {
      TrackPins(c, s, t, s');
    } else if DoneStepOf(c, s, t, s') {
      DonePins(c, s, t, s');
    } else {
      PublishPins(c, s, t, s');
    }
  }

  lemma PinsCarryOver(s: State, s': State, v: map<Key, Item>)
    requires PinsOnlyGrow(s, s') && VersionOk(s.exponents, v)
    ensures VersionOk(s'.exponents, v)
  {
    forall k | k in v
      ensures MoneyPinned(s'.exponents, v[k].money)
    {
      assert MoneyPinned(s.exponents, v[k].money);
    }
  }

  lemma AllPinnedKept(c: Config, s: State, t: nat, s': State)
    requires AllPinned(s) && t < |s.workers| && Framed(c, s, t, s') && PinStep(s, t, s')
    ensures AllPinned(s')
  {
    forall u | 0 <= u < |s'.workers|
      ensures WorkerPinned(s'.exponents, s'.workers[u])
    {
      assert WorkerPinned(s.exponents, s.workers[u]);
    }
    PinsCarryOver(s, s', s.items);
    assert VersionOk(s'.exponents, s'.items) by {
      assert WorkerPinned(s.exponents, s.workers[t]);
      forall k | k in s'.items
        ensures MoneyPinned(s'.exponents, s'.items[k].money)
      {
        assert k in s.items && s'.items[k] == s.items[k] ==> MoneyPinned(s'.exponents, s.items[k].money);
      }
    }
    forall i | 0 <= i < |s'.past|
      ensures VersionOk(s'.exponents, s'.past[i])
    {
      if i < |s.past| {
        PinsCarryOver(s, s', s.past[i]);
      }
    }
  }

  // ---- the values of the set over time ----

  lemma ValuesStay(c: Config, s: State, t: nat, s': State)
    requires t < |s.workers| && Framed(c, s, t, s')
    ensures |s.past| <= |s'.past| && (|s'.past| == |s.past| ==> s'.items == s.items)
    ensures forall i :: 0 <= i <= |s.past| ==> ValueAt(s', i) == ValueAt(s, i)
  {
  }

  /** While one goroutine reads, holding every shard, no other changes the set. */
  lemma ReadersSeeNoChange(c: Config, s: State, t: nat, u: nat, s': State)
    requires Locked(c, s) && t < |s.workers| && u < |s.workers| && t != u
    requires Framed(c, s, t, s') && s.workers[u].Reading?
    ensures s'.items == s.items && s'.past == s.past
  {
    var w := s.workers[t];
    if w.InShard? || w.Reserved? || w.DoneInShard? {
      var i := ShardOf(c, w.key);
      assert Holds(c, w, i) && Holds(c, s.workers[u], i);
      ShardIsExclusive(c, s, t, u, i);
    }
  }

  // ---- publishing ----

  ghost predicate ShotOk(s: State, call: Call, shot: Snapshot) {
    && call.from <= shot.at <= |s.past|
    && shot.items == ValueAt(s, shot.at)
  }

  /** The levels a reader of the stream ends up with are those of these items. */
  ghost predicate ReadsAs(emitted: seq<Sample>, items: map<Key, Item>, now: int) {
    forall series :: LastLevel(emitted, series) == LevelOf(items, series, now)
  }

  ghost predicate PublisherOk(c: Config, s: State, w: Worker) {
    match w
    case PublishWaiting(from) => from <= |s.past|
    case Locking(call, _) => call.from <= |s.past|
    case Reading(call, n, read) => call.from <= |s.past| && read == InFirstShards(c, s.items, n)
    case Unlocking(call, _, shot) =>
      ShotOk(s, call, shot) && forall i :: 0 <= i < |s.published| ==> s.published[i].shot.at <= shot.at
    case Emitting(call, shot, base, out, n) =>
      && ShotOk(s, call, shot) && (forall i :: 0 <= i < |s.published| ==> s.published[i].shot.at <= shot.at)
      && n <= |out| && s.emitted == base + out[..n]
      && s.live == Combos(shot.items) && ReadsAs(base + out, shot.items, call.now)
    case _ => true
  }

  ghost predicate PublicationOk(s: State, p: Publication) {
    ShotOk(s, p.call, p.shot) && p.shot.at <= p.end <= |s.past|
  }

  /** Unless levels are being emitted right now, the stream reads as the set was
      at the latest publication. */
  ghost predicate GaugeCurrent(s: State) {
    if s.published == [] then s.emitted == [] && s.live == {}
    else
      var last := s.published[|s.published| - 1];
      s.live == Combos(last.shot.items) && ReadsAs(s.emitted, last.shot.items, last.call.now)
  }

  ghost predicate SomeoneEmits(s: State) {
    exists t :: 0 <= t < |s.workers| && s.workers[t].Emitting?
  }

  ghost predicate Published(c: Config, s: State) {
    && (forall t :: 0 <= t < |s.workers| ==> PublisherOk(c, s, s.workers[t]))
    && (forall i :: 0 <= i < |s.published| ==> PublicationOk(s, s.published[i]))
    && (forall i, j :: 0 <= i < j < |s.published| ==> s.published[i].shot.at <= s.published[j].shot.at)
    && (SomeoneEmits(s) || GaugeCurrent(s))
  }

  /** Steps other than Publish's leave the publishing side alone. */
  ghost predicate Quiet(s: State, t: nat, s': State)
    requires t < |s.workers| == |s'.workers|
  {
    && s'.published == s.published && s'.emitted == s.emitted && s'.live == s.live
    && !Publishing(s.workers[t]) && !Publishing(s'.workers[t])
    && (s'.workers[t].PublishWaiting? ==> s'.workers[t].from == |s.past| == |s'.past|)
  }

  lemma BeginIsQuiet(c: Config, s: State, t: nat, s': State)
    requires t < |s.workers| && s.workers[t].Idle? && BeginStep(s, t, s')
    ensures |s'.workers| == |s.workers| && Quiet(s, t, s')
  {
  }

  lemma TrackIsQuiet(c: Config, s: State, t: nat, s': State)
    requires t < |s.workers| == |s'.workers| && |s.locks| == TRACKER_SHARDS && TrackStepOf(c, s, t, s')
    ensures Quiet(s, t, s')
  {
  }

  lemma DoneIsQuiet(c: Config, s: State, t: nat, s': State)
    requires t < |s.workers| == |s'.workers| && |s.locks| == TRACKER_SHARDS && DoneStepOf(c, s, t, s')
    ensures Quiet(s, t, s')
  {
  }

  lemma OthersStayOk(c: Config, s: State, t: nat, u: nat, s': State)
    requires Locked(c, s) && t < |s.workers| && u < |s.workers| && u != t
    requires Framed(c, s, t, s') && Quiet(s, t, s') && PublisherOk(c, s, s.workers[u])
    ensures PublisherOk(c, s', s'.workers[u])
  {
    ValuesStay(c, s, t, s');
    if s.workers[u].Reading? {
      ReadersSeeNoChange(c, s, t, u, s');
    }
  }

  /** The other goroutines' and the finished calls' claims survive any step that
      does not move the publishing side. */
  lemma QuietKeepsPublished(c: Config, s: State, t: nat, s': State)
    requires Locked(c, s) && Published(c, s) && t < |s.workers| && Framed(c, s, t, s') && Quiet(s, t, s')
    ensures Published(c, s')
  {
    forall u | 0 <= u < |s'.workers|
      ensures PublisherOk(c, s', s'.workers[u])
    {
      if u != t {
        OthersStayOk(c, s, t, u, s');
      }
    }
    ValuesStay(c, s, t, s');
    forall i | 0 <= i < |s'.published|
      ensures PublicationOk(s', s'.published[i])
    {
      assert PublicationOk(s, s.published[i]);
    }
    if SomeoneEmits(s) {
      var e :| 0 <= e < |s.workers| && s.workers[e].Emitting?;
      assert s'.workers[e].Emitting?;
    }
  }

  // ---- Publish's own steps ----

  lemma OnePublisher(c: Config, s: State, t: nat, u: nat)
    requires Locked(c, s) && t < |s.workers| && u < |s.workers|
    requires Publishing(s.workers[t]) && Publishing(s.workers[u])
    ensures t == u
  {
    assert s.publishMu == Some(t) && s.publishMu == Some(u);
  }

  /** A goroutine that is not publishing promises only about what has been. */
  lemma BystandersStayOk(c: Config, s: State, t: nat, u: nat, s': State)
    requires Locked(c, s) && t < |s.workers| == |s'.workers| && u < |s.workers| && u != t
    requires Publishing(s.workers[t]) || s.publishMu.None?
    requires s'.workers == s.workers[t := s'.workers[t]] && s'.past == s.past && s'.items == s.items
    requires PublisherOk(c, s, s.workers[u])
    ensures PublisherOk(c, s', s'.workers[u])
  {
    if Publishing(s.workers[u]) {
      assert s.publishMu == Some(u);
      OnePublisher(c, s, t, u);
    }
  }

  lemma FirstShards(c: Config, items: map<Key, Item>, n: nat)
    ensures InFirstShards(c, items, 0) == map[]
    ensures InFirstShards(c, items, TRACKER_SHARDS) == items
    ensures InFirstShards(c, items, n) + (map k | k in items && ShardOf(c, k) == n :: items[k])
         == InFirstShards(c, items, n + 1)
  {
  }

  /** Every step up to the end of unlocking keeps the publishing goroutine's claim. */
  lemma CollectingKeepsOk(c: Config, s: State, t: nat, s': State)
    requires Locked(c, s) && Published(c, s) && t < |s.workers| && PublishStepOf(c, s, t, s')
    requires var w := s.workers[t];
             w.PublishWaiting? || w.Locking? || w.Reading? || (w.Unlocking? && w.n < TRACKER_SHARDS)
    ensures |s'.workers| == |s.workers| && PublisherOk(c, s', s'.workers[t]) && !s'.workers[t].Emitting?
    ensures s'.published == s.published && s'.emitted == s.emitted && s'.live == s.live
  {
    assert PublisherOk(c, s, s.workers[t]);
    match s.workers[t] {
      case Locking(call, n) => FirstShards(c, s.items, 0);
      case Reading(call, n, read) =>
        FirstShards(c, s.items, n);
        forall i | 0 <= i < |s.published|
          ensures s.published[i].shot.at <= |s.past|
        {
          assert PublicationOk(s, s.published[i]);
        }
      case _ =>
    }
  }

  /** What publishing starts from: the set as last read, and a stream that still
      reads as it was at the publication before. */
  lemma SnapshotIsConsistent(s: State, call: Call, shot: Snapshot)
    requires AllPinned(s) && GaugeCurrent(s) && ShotOk(s, call, shot)
    requires forall i :: 0 <= i < |s.published| ==> PublicationOk(s, s.published[i])
    ensures Inv(View(shot.items, s.exponents, s.live, s.emitted, 0, 0), |shot.items|)
  {
    var v := View(shot.items, s.exponents, s.live, s.emitted, 0, 0);
    assert VersionOk(s.exponents, shot.items);
    forall k | k in shot.items
      ensures shot.items[k].money.Valid() && Pinned(v, shot.items[k].money.currency, shot.items[k].money.exponent)
    {
      assert MoneyPinned(s.exponents, shot.items[k].money);
    }
    if s.published != [] {
      LiveIsPinned(s);
    }
    forall series
      ensures Outstanding(v, series)
    {
      if s.published != [] && LastLevel(s.emitted, series) != ZERO {
        var last := s.published[|s.published| - 1];
        NonZeroLevelHasACombo(last.shot.items, series, last.call.now);
      }
    }
  }

  lemma LiveIsPinned(s: State)
    requires AllPinned(s) && GaugeCurrent(s) && s.published != []
    requires PublicationOk(s, s.published[|s.published| - 1])
    ensures forall c :: c in s.live ==> c.currency in s.exponents && s.exponents[c.currency] == c.exponent
  {
    var items := s.published[|s.published| - 1].shot.items;
    assert VersionOk(s.exponents, items);
    forall c | c in s.live
      ensures c.currency in s.exponents && s.exponents[c.currency] == c.exponent
    {
      var k :| k in items && ComboOf(k, items[k]) == c;
      assert MoneyPinned(s.exponents, items[k].money);
    }
  }

  lemma NonZeroLevelHasACombo(items: map<Key, Item>, series: Series, now: int)
    requires LevelOf(items, series, now) != ZERO
    ensures exists c :: c in Combos(items) && ComboSeries(c, series.bucket) == series
  {
    assert InSeries(items, series, now) != map[];
    var k :| k in InSeries(items, series, now);
    assert ComboOf(k, items[k]) in Combos(items);
  }

  lemma EmissionStartsOk(c: Config, s: State, t: nat, s': State)
    requires Locked(c, s) && Published(c, s) && AllPinned(s) && t < |s.workers| && PublishStepOf(c, s, t, s')
    requires s.workers[t].Unlocking? && s.workers[t].n == TRACKER_SHARDS
    ensures |s'.workers| == |s.workers| && s'.workers[t].Emitting? && PublisherOk(c, s', s'.workers[t])
    ensures s'.published == s.published
  {
    var w := s.workers[t];
    assert PublisherOk(c, s, w);
    if u :| 0 <= u < |s.workers| && s.workers[u].Emitting? {
      OnePublisher(c, s, t, u);
    }
    SnapshotIsConsistent(s, w.call, w.shot);
    var v := View(w.shot.items, s.exponents, s.live, s.emitted, 0, 0);
    var out := s'.workers[t].out;
    assert out[..0] == [];
    forall series
      ensures LastLevel(s.emitted + out, series) == LevelOf(w.shot.items, series, w.call.now)
    {
      PublishedSeriesIsExact(v, |w.shot.items|, w.call.now, out, series);
    }
  }

  lemma EmissionGoesOn(c: Config, s: State, t: nat, s': State)
    requires Locked(c, s) && Published(c, s) && t < |s.workers| && PublishStepOf(c, s, t, s')
    requires s.workers[t].Emitting? && s.workers[t].n < |s.workers[t].out|
    ensures |s'.workers| == |s.workers| && s'.workers[t].Emitting? && PublisherOk(c, s', s'.workers[t])
    ensures s'.published == s.published
  {
    var w := s.workers[t];
    assert PublisherOk(c, s, w);
    assert w.out[..w.n + 1] == w.out[..w.n] + [w.out[w.n]];
  }

  lemma EmissionEnds(c: Config, s: State, t: nat, s': State)
    requires Locked(c, s) && Published(c, s) && t < |s.workers| && PublishStepOf(c, s, t, s')
    requires s.workers[t].Emitting? && s.workers[t].n >= |s.workers[t].out|
    ensures |s'.workers| == |s.workers| && s'.workers[t].Idle? && GaugeCurrent(s')
    ensures |s'.published| == |s.published| + 1 && s'.published[..|s.published|] == s.published
    ensures var p := s'.published[|s.published|];
            PublicationOk(s', p) && forall i :: 0 <= i < |s.published| ==> s.published[i].shot.at <= p.shot.at
  {
    var w := s.workers[t];
    assert PublisherOk(c, s, w);
    assert w.out[..w.n] == w.out;
  }

  /** Once the publishing goroutine's own claim is settled, so is everything. */
  lemma PublisherMovesOn(c: Config, s: State, t: nat, s': State)
    requires Locked(c, s) && Published(c, s) && t < |s.workers| == |s'.workers|
    requires Publishing(s.workers[t]) || s.publishMu.None?
    requires s'.workers == s.workers[t := s'.workers[t]] && s'.past == s.past && s'.items == s.items
    requires PublisherOk(c, s', s'.workers[t])
    requires |s.published| <= |s'.published| <= |s.published| + 1 && s'.published[..|s.published|] == s.published
    requires |s'.published| > |s.published| ==>
               var p := s'.published[|s.published|];
               PublicationOk(s', p) && forall i :: 0 <= i < |s.published| ==> s.published[i].shot.at <= p.shot.at
    requires SomeoneEmits(s') || GaugeCurrent(s')
    ensures Published(c, s')
  {
    forall u | 0 <= u < |s'.workers|
      ensures PublisherOk(c, s', s'.workers[u])
    {
      if u != t {
        BystandersStayOk(c, s, t, u, s');
      }
    }
    assert forall i :: 0 <= i < |s.published| ==> s'.published[i] == s.published[i];
    forall i | 0 <= i < |s'.published|
      ensures PublicationOk(s', s'.published[i])
    {
      if i < |s.published| {
        assert PublicationOk(s, s.published[i]);
      }
    }
  }

  lemma PublishKeepsPublished(c: Config, s: State, t: nat, s': State)
    requires Locked(c, s) && Published(c, s) && AllPinned(s) && t < |s.workers|
    requires PublishStepOf(c, s, t, s') && Framed(c, s, t, s') && s'.items == s.items && s'.past == s.past
    ensures Published(c, s')
  {
    var w := s.workers[t];
    if w.Emitting? {
      PublishMuIsMine(c, s, t);
      if w.n >= |w.out| {
        EmissionEnds(c, s, t, s');
      } else {
        EmissionGoesOn(c, s, t, s');
        assert SomeoneEmits(s');
      }
    } else if w.Unlocking? && w.n >= TRACKER_SHARDS {
      EmissionStartsOk(c, s, t, s');
      assert SomeoneEmits(s');
    } else {
      CollectingKeepsOk(c, s, t, s');
      EmittersStay(s, t, s');
    }
    PublisherMovesOn(c, s, t, s');
  }

  lemma PublishMuIsMine(c: Config, s: State, t: nat)
    requires Locked(c, s) && t < |s.workers| && Publishing(s.workers[t])
    ensures s.publishMu == Some(t)
  {
  }

  lemma EmittersStay(s: State, t: nat, s': State)
    requires t < |s.workers| == |s'.workers| && !s.workers[t].Emitting?
    requires s'.workers == s.workers[t := s'.workers[t]]
    requires s'.published == s.published && s'.emitted == s.emitted && s'.live == s.live
    requires SomeoneEmits(s) || GaugeCurrent(s)
    ensures SomeoneEmits(s') || GaugeCurrent(s')
  {
    if SomeoneEmits(s) {
      var e :| 0 <= e < |s.workers| && s.workers[e].Emitting?;
      assert s'.workers[e].Emitting?;
    }
  }

  // ---- every reachable state ----

  ghost predicate Sound(c: Config, s: State) {
    && Locked(c, s) && KeysAbsent(s) && Bounded(c, s) && FirstComeFirstServed(c, s)
    && AllPinned(s) && Published(c, s)
  }

  lemma SoundInit(c: Config, s: State)
    requires Init(c, s)
    ensures Sound(c, s)
  {
    LockedInit(c, s);
    BoundedInit(c, s);
  }

  lemma SoundKept(c: Config, s: State, t: nat, s': State)
    requires Sound(c, s) && Next(c, s, t, s')
    ensures Sound(c, s')
  {
    StepIsFramed(c, s, t, s');
    LockedKept(c, s, t, s');
    KeysAbsentKept(c, s, t, s');
    StepCounts(c, s, t, s');
    BoundedKept(c, s, t, s');
    StepPins(c, s, t, s');
    AllPinnedKept(c, s, t, s');
    PublishedKept(c, s, t, s');
  }

  lemma PublishedKept(c: Config, s: State, t: nat, s': State)
    requires Locked(c, s) && Published(c, s) && AllPinned(s) && Next(c, s, t, s') && Framed(c, s, t, s')
    ensures Published(c, s')
  {
    if s.workers[t].Idle? && BeginStep(s, t, s') {
      BeginIsQuiet(c, s, t, s');
      QuietKeepsPublished(c, s, t, s');
    } else if TrackStepOf(c, s, t, s') {
      TrackIsQuiet(c, s, t, s');
      QuietKeepsPublished(c, s, t, s');
    } else if DoneStepOf(c, s, t, s') {
      DoneIsQuiet(c, s, t, s');
      QuietKeepsPublished(c, s, t, s');
    } else {
      PublishIsFramed(c, s, t, s');
      PublishKeepsPublished(c, s, t, s');
    }
  }

  ghost predicate StepsTo(c: Config, s: State, s': State) {
    |s.locks| == TRACKER_SHARDS && exists t :: Next(c, s, t, s')
  }

  ghost predicate IsInterleaving(c: Config, states: seq<State>) {
    && states != [] && Init(c, states[0])
    && forall i, j :: 0 <= i && j == i + 1 < |states| ==> StepsTo(c, states[i], states[j])
  }

  lemma {:induction false} RunIsSound(c: Config, states: seq<State>, i: nat)
    requires IsInterleaving(c, states) && i < |states|
    ensures Sound(c, states[i])
  {
    if i == 0 {
      SoundInit(c, states[0]);
    } else {
      RunIsSound(c, states, i - 1);
      assert StepsTo(c, states[i - 1], states[i]);
      var t :| Next(c, states[i - 1], t, states[i]);
      SoundKept(c, states[i - 1], t, states[i]);
    }
  }

  // ---- every change is a call's ----

  predicate CarriesItem(w: Worker) {
    w.Loading? || w.Missed? || w.Waiting? || w.InShard? || w.Reserved?
  }

  /** What one atomic Track, or one atomic Done, does to the set. */
  ghost predicate ChangesLike(w: Worker, items: map<Key, Item>, items': map<Key, Item>) {
    var v := EMPTY.(items := items);
    if CarriesItem(w) then items' == StoreStep(v, |items| + 1, w.key, w.item.money, w.item.enqueuedAt).items
    else w.DoneInShard? && items' == DoneStep(v, w.key).items
  }

  ghost predicate LikeCalls(w: Worker, w': Worker, items: map<Key, Item>, items': map<Key, Item>) {
    && (items' != items ==> ChangesLike(w, items, items'))
    && (CarriesItem(w) && CarriesItem(w') ==> w'.key == w.key && w'.item == w.item)
  }

  lemma TrackChangesLike(c: Config, s: State, t: nat, s': State)
    requires |s.locks| == TRACKER_SHARDS && KeysAbsent(s) && t < |s.workers| && TrackStepOf(c, s, t, s')
    ensures |s'.workers| == |s.workers| && LikeCalls(s.workers[t], s'.workers[t], s.items, s'.items)
  {
  }

  lemma DoneChangesLike(c: Config, s: State, t: nat, s': State)
    requires |s.locks| == TRACKER_SHARDS && t < |s.workers| && DoneStepOf(c, s, t, s')
    ensures |s'.workers| == |s.workers| && LikeCalls(s.workers[t], s'.workers[t], s.items, s'.items)
  {
  }

  lemma PublishChangesNothing(c: Config, s: State, t: nat, s': State)
    requires |s.locks| == TRACKER_SHARDS && t < |s.workers| && PublishStepOf(c, s, t, s')
    ensures |s'.workers| == |s.workers| && LikeCalls(s.workers[t], s'.workers[t], s.items, s'.items)
  {
  }

  /** Taken apart, Track and Done still change the set as they do in one piece, and a
      Track call carries its key and item through unchanged. */
  lemma StepsChangeLikeCalls(c: Config, s: State, t: nat, s': State)
    requires Locked(c, s) && KeysAbsent(s) && Next(c, s, t, s')
    ensures |s'.workers| == |s.workers| && LikeCalls(s.workers[t], s'.workers[t], s.items, s'.items)
  {
    assert |s.locks| == TRACKER_SHARDS;
    if TrackStepOf(c, s, t, s') {
      TrackChangesLike(c, s, t, s');
    } else if DoneStepOf(c, s, t, s') {
      DoneChangesLike(c, s, t, s');
    } else if PublishStepOf(c, s, t, s') {
      PublishChangesNothing(c, s, t, s');
    }
    hide Locked, KeysAbsent, ChangesLike, TrackStepOf, DoneStepOf, PublishStepOf;
  }

  /** A rejection is counted exactly when a call brings invalid money or meets another
      pin, and an overflow exactly when it reserved past the bound. */
  ghost predicate RefusalsCounted(s: State, t: nat, s': State)
    requires t < |s.workers| == |s'.workers|
  {
    var (w, w') := (s.workers[t], s'.workers[t]);
    && (w'.Idle? && w.Idle? ==> s'.rejected == s.rejected + 1)
    && (w.Loading? || w.Missed? ==>
          var money := w.item.money;
          var refused := money.currency in s.exponents && s.exponents[money.currency] != money.exponent;
          (w'.Idle? <==> refused) && s'.rejected == s.rejected + if refused then 1 else 0)
    && (!w.Loading? && !w.Missed? && !(w.Idle? && w'.Idle?) ==> s'.rejected == s.rejected)
    && s'.overflow == s.overflow + if w.OverReserved? then 1 else 0
  }

  lemma StepsCountRefusals(c: Config, s: State, t: nat, s': State)
    requires Locked(c, s) && Next(c, s, t, s')
    ensures |s'.workers| == |s.workers| && RefusalsCounted(s, t, s')
  {
    assert |s.locks| == TRACKER_SHARDS;
    hide Locked;
    if TrackStepOf(c, s, t, s') {
      TrackCountsRefusals(c, s, t, s');
    } else if DoneStepOf(c, s, t, s') {
      DoneCountsRefusals(c, s, t, s');
    } else if PublishStepOf(c, s, t, s') {
      PublishCountsRefusals(c, s, t, s');
    }
    hide TrackStepOf, DoneStepOf, PublishStepOf;
  }

  lemma TrackCountsRefusals(c: Config, s: State, t: nat, s': State)
    requires |s.locks| == TRACKER_SHARDS && t < |s.workers| && TrackStepOf(c, s, t, s')
    ensures |s'.workers| == |s.workers| && RefusalsCounted(s, t, s')
  {
  }

  lemma DoneCountsRefusals(c: Config, s: State, t: nat, s': State)
    requires |s.locks| == TRACKER_SHARDS && t < |s.workers| && DoneStepOf(c, s, t, s')
    ensures |s'.workers| == |s.workers| && RefusalsCounted(s, t, s')
  {
  }

  lemma PublishCountsRefusals(c: Config, s: State, t: nat, s': State)
    requires |s.locks| == TRACKER_SHARDS && t < |s.workers| && PublishStepOf(c, s, t, s')
    ensures |s'.workers| == |s.workers| && RefusalsCounted(s, t, s')
  {
  }

  lemma ChangesMoveBack(w: Worker, items: map<Key, Item>, items': map<Key, Item>, k: Key)
    requires items' != items ==> ChangesLike(w, items, items')
    requires k in items && k in items'
    ensures items'[k].enqueuedAt <= items[k].enqueuedAt
  {
  }

  lemma StepMovesBack(c: Config, s: State, s': State, k: Key)
    requires Sound(c, s) && StepsTo(c, s, s') && k in s.items && k in s'.items
    ensures s'.items[k].enqueuedAt <= s.items[k].enqueuedAt
  {
    var t: nat :| Next(c, s, t, s');
    StepsChangeLikeCalls(c, s, t, s');
    hide *;
    ChangesLikeOnly(s.workers[t], s'.workers[t], s.items, s'.items);
    ChangesMoveBack(s.workers[t], s.items, s'.items, k);
  }

  lemma ChangesLikeOnly(w: Worker, w': Worker, items: map<Key, Item>, items': map<Key, Item>)
    requires LikeCalls(w, w', items, items')
    ensures items' != items ==> ChangesLike(w, items, items')
  {
  }

  /** In every interleaving, while a key stays tracked its enqueue time only ever
      moves back. */
  lemma {:induction false} NeverRejuvenated(c: Config, states: seq<State>, i: nat, j: nat, k: Key)
    requires IsInterleaving(c, states) && i <= j < |states|
    requires forall n :: i <= n <= j ==> k in states[n].items
    ensures states[j].items[k].enqueuedAt <= states[i].items[k].enqueuedAt
  {
    hide Sound, StepsTo, Init;
    if i < j {
      NeverRejuvenated(c, states, i, j - 1, k);
      RunIsSound(c, states, j - 1);
      StepMovesBack(c, states[j - 1], states[j], k);
    }
  }

  // ---- what follows for every interleaving ----

  /** The item count is the stored items plus what is in transit, and the set
      never exceeds its bound. */
  lemma BoundHolds(c: Config, states: seq<State>, i: nat)
    requires IsInterleaving(c, states) && i < |states|
    ensures var s := states[i];
            && s.itemCount == |s.items| + Weigh(s.workers, Transit)
            && |s.items| <= c.maxItems
  {
    RunIsSound(c, states, i);
  }

  lemma {:induction false} AllIdleWeighNothing(workers: seq<Worker>, kind: Kind)
    requires forall t :: 0 <= t < |workers| ==> workers[t].Idle?
    ensures Weigh(workers, kind) == 0
  {
    if workers != [] {
      AllIdleWeighNothing(workers[..|workers| - 1], kind);
    }
  }

  /** In a run that removes nothing, once all calls have returned the tracker
      holds as many of the new keys as fit, and has counted every other attempt
      as overflow — whatever the interleaving. */
  lemma FirstMaxItemsAreKept(c: Config, states: seq<State>, i: nat)
    requires IsInterleaving(c, states) && i < |states|
    requires states[i].tally.removed == 0
    requires forall t :: 0 <= t < |states[i].workers| ==> states[i].workers[t].Idle?
    ensures var s := states[i];
            && |s.items| == (if s.tally.attempts <= c.maxItems then s.tally.attempts else c.maxItems)
            && s.overflow == s.tally.attempts - |s.items|
  {
    RunIsSound(c, states, i);
    AllIdleWeighNothing(states[i].workers, Promise);
    AllIdleWeighNothing(states[i].workers, Refusal);
  }

  /** Each finished publish call emitted the totals of one value the tracked set
      had at a moment within the call, and later publications never go back to an
      earlier moment. */
  lemma PublishedStatesAreRealAndOrdered(c: Config, states: seq<State>, i: nat)
    requires IsInterleaving(c, states) && i < |states|
    ensures var s := states[i];
            && (forall p :: p in s.published ==>
                  && p.call.from <= p.shot.at <= p.end <= |s.past|
                  && p.shot.items == ValueAt(s, p.shot.at))
            && (forall a, b :: 0 <= a < b < |s.published| ==> s.published[a].shot.at <= s.published[b].shot.at)
  {
    RunIsSound(c, states, i);
    var s := states[i];
    forall p | p in s.published
      ensures p.call.from <= p.shot.at <= p.end <= |s.past| && p.shot.items == ValueAt(s, p.shot.at)
    {
      assert PublicationOk(s, p);
    }
  }

  /** Between publications every series reads exactly what its items were at the
      moment the latest publication read them. */
  lemma GaugeReadsTheLastSnapshot(c: Config, states: seq<State>, i: nat)
    requires IsInterleaving(c, states) && i < |states|
    requires states[i].publishMu.None? && states[i].published != []
    ensures var s := states[i];
            var last := s.published[|s.published| - 1];
            forall series :: LastLevel(s.emitted, series) == LevelOf(last.shot.items, series, last.call.now)
  {
    RunIsSound(c, states, i);
    NobodyEmitsWhenFree(c, states[i]);
  }

  lemma NobodyEmitsWhenFree(c: Config, s: State)
    requires Locked(c, s) && s.publishMu.None?
    ensures !SomeoneEmits(s)
  {
    forall t | 0 <= t < |s.workers|
      ensures !s.workers[t].Emitting?
    {
      assert Publishing(s.workers[t]) <==> s.publishMu == Some(t);
    }
  }
}
