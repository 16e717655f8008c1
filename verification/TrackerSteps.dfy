/** The in-flight tracker at the granularity of its locks and atomics
    (emit/inflight.go): any number of goroutines interleave the steps of Track,
    Done and Publish. */
module TrackerSteps {
  import opened Wrappers
  import opened FiniteSums
  import opened Money
  import opened Tracker

  /** What never changes: the hash, the bound and the number of goroutines. */
  datatype Config = Config(hash: string -> nat, maxItems: nat, goroutines: nat)

  function ShardOf(c: Config, k: Key): (i: nat)
    ensures i < TRACKER_SHARDS
  {
    c.hash(k.id) % TRACKER_SHARDS
  }

  /** Where a goroutine stands. Each value is a point between two atomic steps. */
  datatype Worker =
    | Idle
      // Track
    | Loading(key: Key, item: Item)
    | Missed(key: Key, item: Item)
    | Waiting(key: Key, item: Item)
    | InShard(key: Key, item: Item)
    | Reserved(key: Key, item: Item)
    | OverReserved(key: Key)
      // Done
    | DoneWaiting(key: Key)
    | DoneInShard(key: Key)
    | Removed(key: Key)
      // about to unlock
    | Leaving(key: Key)
      // Publish
    | PublishWaiting(from: nat)
    | Locking(call: Call, n: nat)
    | Reading(call: Call, n: nat, read: map<Key, Item>)
    | Unlocking(call: Call, n: nat, shot: Snapshot)
    | Emitting(call: Call, shot: Snapshot, base: seq<Sample>, out: seq<Sample>, n: nat)

  /** A publish call: how much history there was when it began, and its clock. */
  datatype Call = Call(from: nat, now: int)

  /** What it read, and the moment it finished reading. */
  datatype Snapshot = Snapshot(at: nat, items: map<Key, Item>)

  datatype Publication = Publication(call: Call, shot: Snapshot, end: nat)

  /** items stands for all shards together. past lists the values it has had
      before, oldest first; published lists the finished publish calls. */
  datatype State = State(
    workers: seq<Worker>, locks: seq<Option<nat>>, publishMu: Option<nat>,
    items: map<Key, Item>, itemCount: int, exponents: map<string, int8>,
    overflow: nat, rejected: nat, live: set<Combo>, emitted: seq<Sample>,
    past: seq<map<Key, Item>>, published: seq<Publication>,
    tally: Tally)

  /** Counts kept only to state theorems: Track calls that reached the bound,
      calls that found their key, and removals. */
  datatype Tally = Tally(attempts: nat, retracked: nat, removed: nat)

  ghost predicate Init(c: Config, s: State) {
    && s.workers == seq(c.goroutines, _ => Idle)
    && s.locks == seq(TRACKER_SHARDS, _ => None)
    && s.publishMu == None && s.items == map[] && s.itemCount == 0 && s.exponents == map[]
    && s.overflow == 0 && s.rejected == 0 && s.live == {} && s.emitted == []
    && s.past == [] && s.published == [] && s.tally == Tally(0, 0, 0)
  }

  // ---- the steps ----

  function Go(s: State, t: nat, w: Worker): State
    requires t < |s.workers|
  {
    s.(workers := s.workers[t := w])
  }

  function SetItems(s: State, items: map<Key, Item>): State {
    s.(items := items, past := s.past + [s.items])
  }

  function Lock(s: State, i: nat, t: nat): State
    requires i < |s.locks|
  {
    s.(locks := s.locks[i := Some(t)])
  }

  function Unlock(s: State, i: nat): State
    requires i < |s.locks|
  {
    s.(locks := s.locks[i := None])
  }

  function InFirstShards(c: Config, items: map<Key, Item>, n: nat): map<Key, Item> {
    map k | k in items && ShardOf(c, k) < n :: items[k]
  }

  /** Comparing the pin: a mismatch is refused and counted. */
  function ComparePin(s: State, t: nat, key: Key, item: Item, pinned: int8): State
    requires t < |s.workers|
  {
    if pinned == item.money.exponent then Go(s, t, Waiting(key, item))
    else Go(s, t, Idle).(rejected := s.rejected + 1)
  }

  ghost predicate BeginStep(s: State, t: nat, s': State)
    requires t < |s.workers|
  {
    || (exists key: Key, item: Item ::
          s' == if item.money.Valid() then Go(s, t, Loading(key, item)) else s.(rejected := s.rejected + 1))
    || (exists key: Key :: s' == Go(s, t, DoneWaiting(key)))
    || s' == Go(s, t, PublishWaiting(|s.past|))
  }

  predicate TrackStepOf(c: Config, s: State, t: nat, s': State)
    requires t < |s.workers| && |s.locks| == TRACKER_SHARDS
  {
    match s.workers[t]
    case Loading(key, item) =>
      s' == if item.money.currency in s.exponents then ComparePin(s, t, key, item, s.exponents[item.money.currency])
            else Go(s, t, Missed(key, item))
    case Missed(key, item) =>
      s' == if item.money.currency in s.exponents then ComparePin(s, t, key, item, s.exponents[item.money.currency])
            else Go(s, t, Waiting(key, item)).(exponents := s.exponents[item.money.currency := item.money.exponent])
    case Waiting(key, item) =>
      && s.locks[ShardOf(c, key)].None?
      && s' == Lock(Go(s, t, InShard(key, item)), ShardOf(c, key), t)
    case InShard(key, item) =>
      s' == if key in s.items then
              SetItems(Go(s, t, Leaving(key)),
                       s.items[key := Item(item.money, Earlier(s.items[key].enqueuedAt, item.enqueuedAt))])
                .(tally := s.tally.(retracked := s.tally.retracked + 1))
            else
              Go(s, t, if s.itemCount + 1 <= c.maxItems then Reserved(key, item) else OverReserved(key))
                .(itemCount := s.itemCount + 1, tally := s.tally.(attempts := s.tally.attempts + 1))
    case Reserved(key, item) =>
      s' == SetItems(Go(s, t, Leaving(key)), s.items[key := item])
    case OverReserved(key) =>
      s' == Go(s, t, Leaving(key)).(itemCount := s.itemCount - 1, overflow := s.overflow + 1)
    case Leaving(key) =>
      s' == Unlock(Go(s, t, Idle), ShardOf(c, key))
    case _ => false
  }

  predicate DoneStepOf(c: Config, s: State, t: nat, s': State)
    requires t < |s.workers| && |s.locks| == TRACKER_SHARDS
  {
    match s.workers[t]
    case DoneWaiting(key) =>
      && s.locks[ShardOf(c, key)].None?
      && s' == Lock(Go(s, t, DoneInShard(key)), ShardOf(c, key), t)
    case DoneInShard(key) =>
      s' == if key in s.items then
              SetItems(Go(s, t, Removed(key)), s.items - {key})
                .(tally := s.tally.(removed := s.tally.removed + 1))
            else Go(s, t, Leaving(key))
    case Removed(key) =>
      s' == Go(s, t, Leaving(key)).(itemCount := s.itemCount - 1)
    case _ => false
  }

  ghost predicate PublishStepOf(c: Config, s: State, t: nat, s': State)
    requires t < |s.workers| && |s.locks| == TRACKER_SHARDS
  {
    match s.workers[t]
    case PublishWaiting(from) =>
      && s.publishMu.None?
      && exists now :: s' == Go(s, t, Locking(Call(from, now), 0)).(publishMu := Some(t))
    case Locking(call, n) =>
      if n < TRACKER_SHARDS then
        s.locks[n].None? && s' == Lock(Go(s, t, Locking(call, n + 1)), n, t)
      else s' == Go(s, t, Reading(call, 0, map[]))
    case Reading(call, n, read) =>
      s' == if n < TRACKER_SHARDS then
              Go(s, t, Reading(call, n + 1, read + (map k | k in s.items && ShardOf(c, k) == n :: s.items[k])))
            else Go(s, t, Unlocking(call, 0, Snapshot(|s.past|, read)))
    case Unlocking(call, n, shot) =>
      if n < TRACKER_SHARDS then s' == Unlock(Go(s, t, Unlocking(call, n + 1, shot)), n)
      else exists out ::
          && IsPublication(out, shot.items, s.live, call.now)
          && s' == Go(s, t, Emitting(call, shot, s.emitted, out, 0)).(live := Combos(shot.items))
    case Emitting(call, shot, base, out, n) =>
      s' == if n < |out| then Go(s, t, Emitting(call, shot, base, out, n + 1)).(emitted := s.emitted + [out[n]])
            else Go(s, t, Idle).(publishMu := None,
                                 published := s.published + [Publication(call, shot, |s.past|)])
    case _ => false
  }

  ghost predicate Next(c: Config, s: State, t: nat, s': State)
    requires |s.locks| == TRACKER_SHARDS
  {
    && t < |s.workers|
    && ( || (s.workers[t].Idle? && BeginStep(s, t, s'))
         || TrackStepOf(c, s, t, s')
         || DoneStepOf(c, s, t, s')
         || PublishStepOf(c, s, t, s'))
  }

  // ---- who holds which lock ----

  predicate Holds(c: Config, w: Worker, i: nat) {
    match w
    case InShard(key, _) => ShardOf(c, key) == i
    case Reserved(key, _) => ShardOf(c, key) == i
    case OverReserved(key) => ShardOf(c, key) == i
    case DoneInShard(key) => ShardOf(c, key) == i
    case Removed(key) => ShardOf(c, key) == i
    case Leaving(key) => ShardOf(c, key) == i
    case Locking(_, n) => i < n
    case Reading(_, _, _) => true
    case Unlocking(_, n, _) => n <= i
    case _ => false
  }

  predicate InBounds(w: Worker) {
    match w
    case Locking(_, n) => n <= TRACKER_SHARDS
    case Reading(_, n, _) => n <= TRACKER_SHARDS
    case Unlocking(_, n, _) => n <= TRACKER_SHARDS
    case _ => true
  }

  predicate Publishing(w: Worker) {
    w.Locking? || w.Reading? || w.Unlocking? || w.Emitting?
  }

  ghost predicate Locked(c: Config, s: State) {
    && |s.workers| == c.goroutines && |s.locks| == TRACKER_SHARDS
    && (forall i, t :: 0 <= i < TRACKER_SHARDS && 0 <= t < |s.workers| ==>
          (Holds(c, s.workers[t], i) <==> s.locks[i] == Some(t)))
    && (forall i :: 0 <= i < TRACKER_SHARDS && s.locks[i].Some? ==> s.locks[i].value < |s.workers|)
    && (forall t :: 0 <= t < |s.workers| ==> (Publishing(s.workers[t]) <==> s.publishMu == Some(t)))
    && (s.publishMu.Some? ==> s.publishMu.value < |s.workers|)
    && (forall t :: 0 <= t < |s.workers| ==> InBounds(s.workers[t]))
  }

  lemma LockedInit(c: Config, s: State)
    requires Init(c, s)
    ensures Locked(c, s)
  {
  }

  /** A step that leaves the locks alone must leave its goroutine holding the same. */
  lemma HoldsTheSame(c: Config, s: State, t: nat, s': State)
    requires Locked(c, s) && t < |s.workers| == |s'.workers|
    requires s'.workers == s.workers[t := s'.workers[t]] && s'.locks == s.locks && s'.publishMu == s.publishMu
    requires forall i :: 0 <= i < TRACKER_SHARDS ==> (Holds(c, s'.workers[t], i) <==> Holds(c, s.workers[t], i))
    requires Publishing(s'.workers[t]) <==> Publishing(s.workers[t])
    requires InBounds(s'.workers[t])
    ensures Locked(c, s')
  {
  }

  lemma TakesLock(c: Config, s: State, t: nat, i: nat, s': State)
    requires Locked(c, s) && t < |s.workers| == |s'.workers| && i < TRACKER_SHARDS && s.locks[i].None?
    requires s'.workers == s.workers[t := s'.workers[t]]
    requires s'.locks == s.locks[i := Some(t)] && s'.publishMu == s.publishMu
    requires forall j :: 0 <= j < TRACKER_SHARDS ==>
               (Holds(c, s'.workers[t], j) <==> Holds(c, s.workers[t], j) || j == i)
    requires Publishing(s'.workers[t]) <==> Publishing(s.workers[t])
    requires InBounds(s'.workers[t])
    ensures Locked(c, s')
  {
  }

  lemma DropsLock(c: Config, s: State, t: nat, i: nat, s': State)
    requires Locked(c, s) && t < |s.workers| == |s'.workers| && i < TRACKER_SHARDS
    requires Holds(c, s.workers[t], i)
    requires s'.workers == s.workers[t := s'.workers[t]]
    requires s'.locks == s.locks[i := None] && s'.publishMu == s.publishMu
    requires forall j :: 0 <= j < TRACKER_SHARDS ==>
               (Holds(c, s'.workers[t], j) <==> Holds(c, s.workers[t], j) && j != i)
    requires Publishing(s'.workers[t]) <==> Publishing(s.workers[t])
    requires InBounds(s'.workers[t])
    ensures Locked(c, s')
  {
    assert s.locks[i] == Some(t);
    forall u | 0 <= u < |s.workers| && u != t
      ensures !Holds(c, s.workers[u], i) && s'.workers[u] == s.workers[u]
    {
    }
  }

  lemma MovesPublishMu(c: Config, s: State, t: nat, s': State)
    requires Locked(c, s) && t < |s.workers| == |s'.workers|
    requires s'.workers == s.workers[t := s'.workers[t]] && s'.locks == s.locks
    requires forall i :: 0 <= i < TRACKER_SHARDS ==> !Holds(c, s'.workers[t], i) && !Holds(c, s.workers[t], i)
    requires || (s.publishMu.None? && s'.publishMu == Some(t) && Publishing(s'.workers[t]))
             || (s.publishMu == Some(t) && s'.publishMu.None? && !Publishing(s'.workers[t]))
    requires InBounds(s'.workers[t])
    ensures Locked(c, s')
  {
  }

  lemma LockedKept(c: Config, s: State, t: nat, s': State)
    requires Locked(c, s) && Next(c, s, t, s')
    ensures Locked(c, s')
  {
    if s.workers[t].Idle? && BeginStep(s, t, s') {
      assert s'.workers == s.workers[t := s'.workers[t]];
      HoldsTheSame(c, s, t, s');
    } else if TrackStepOf(c, s, t, s') {
      LockedKeptByTrack(c, s, t, s');
    } else if DoneStepOf(c, s, t, s') {
      LockedKeptByDone(c, s, t, s');
    } else {
      LockedKeptByPublish(c, s, t, s');
    }
  }

  lemma LockedKeptByTrack(c: Config, s: State, t: nat, s': State)
    requires Locked(c, s) && t < |s.workers| && TrackStepOf(c, s, t, s')
    ensures Locked(c, s')
  {
    hide Locked;
    match s.workers[t] {
      case Waiting(key, item) => TakesLock(c, s, t, ShardOf(c, key), s');
      case Leaving(key) => DropsLock(c, s, t, ShardOf(c, key), s');
      case _ => HoldsTheSame(c, s, t, s');
    }
  }

  lemma LockedKeptByDone(c: Config, s: State, t: nat, s': State)
    requires Locked(c, s) && t < |s.workers| && DoneStepOf(c, s, t, s')
    ensures Locked(c, s')
  {
    match s.workers[t] {
      case DoneWaiting(key) => TakesLock(c, s, t, ShardOf(c, key), s');
      case _ => HoldsTheSame(c, s, t, s');
    }
  }

  lemma LockedKeptByPublish(c: Config, s: State, t: nat, s': State)
    requires Locked(c, s) && t < |s.workers| && PublishStepOf(c, s, t, s')
    ensures Locked(c, s')
  {
    match s.workers[t] {
      case PublishWaiting(from) => MovesPublishMu(c, s, t, s');
      case Locking(call, n) =>
        if n < TRACKER_SHARDS {
          TakesLock(c, s, t, n, s');
        } else {
          HoldsTheSame(c, s, t, s');
        }
      case Reading(call, n, read) => HoldsTheSame(c, s, t, s');
      case _ => LockedKeptByRelease(c, s, t, s');
    }
  }

  lemma LockedKeptByRelease(c: Config, s: State, t: nat, s': State)
    requires Locked(c, s) && t < |s.workers| && PublishStepOf(c, s, t, s')
    requires s.workers[t].Unlocking? || s.workers[t].Emitting?
    ensures Locked(c, s')
  {
    var w := s.workers[t];
    if w.Unlocking? && w.n < TRACKER_SHARDS {
      DropsLock(c, s, t, w.n, s');
    } else if w.Emitting? && w.n >= |w.out| {
      MovesPublishMu(c, s, t, s');
    } else {
      HoldsTheSame(c, s, t, s');
    }
  }

  // ---- the bound ----

  datatype Kind = Transit | Promise | Refusal

  /** What one goroutine contributes: a count not yet settled either way, a slot
      it will fill, or a slot it must give back. */
  function Weight(w: Worker, kind: Kind): nat {
    match kind
    case Transit => if w.Reserved? || w.OverReserved? || w.Removed? then 1 else 0
    case Promise => if w.Reserved? then 1 else 0
    case Refusal => if w.OverReserved? then 1 else 0
  }

  function Weigh(workers: seq<Worker>, kind: Kind): nat {
    if workers == [] then 0 else Weigh(workers[..|workers| - 1], kind) + Weight(workers[|workers| - 1], kind)
  }

  lemma {:induction false} WeighUpdate(workers: seq<Worker>, t: nat, w: Worker, kind: Kind)
    requires t < |workers|
    ensures Weigh(workers[t := w], kind) == Weigh(workers, kind) - Weight(workers[t], kind) + Weight(w, kind)
  {
    var n := |workers| - 1;
    if t == n {
      assert workers[t := w][..n] == workers[..n];
    } else {
      WeighUpdate(workers[..n], t, w, kind);
      assert workers[t := w][..n] == workers[..n][t := w];
    }
  }

  /** A goroutine that has reserved, or found no room, has a key that is not in
      the set: it holds that key's shard. */
  ghost predicate KeysAbsent(s: State) {
    forall t :: 0 <= t < |s.workers| ==>
      && (s.workers[t].Reserved? ==> s.workers[t].key !in s.items)
  }

  ghost predicate Bounded(c: Config, s: State) {
    && s.itemCount == |s.items| + Weigh(s.workers, Transit)
    && |s.items| + Weigh(s.workers, Promise) <= c.maxItems
  }

  /** Until something is removed, slots are never given back: every attempt has
      taken one or been refused, and none is refused while there is room. */
  ghost predicate FirstComeFirstServed(c: Config, s: State) {
    s.tally.removed == 0 ==>
      var taken := |s.items| + Weigh(s.workers, Promise);
      && (forall t :: 0 <= t < |s.workers| ==> !s.workers[t].Removed?)
      && Weigh(s.workers, Transit) == Weigh(s.workers, Promise) + Weigh(s.workers, Refusal)
      && s.tally.attempts == taken + Weigh(s.workers, Refusal) + s.overflow
      && (Weigh(s.workers, Refusal) + s.overflow > 0 ==> taken == c.maxItems)
  }

  lemma {:induction false} NothingWeighs(n: nat, kind: Kind)
    ensures Weigh(seq(n, _ => Idle), kind) == 0
  {
    if n > 0 {
      NothingWeighs(n - 1, kind);
      assert seq(n, _ => Idle)[..n - 1] == seq(n - 1, _ => Idle);
    }
  }

  lemma BoundedInit(c: Config, s: State)
    requires Init(c, s)
    ensures KeysAbsent(s) && Bounded(c, s) && FirstComeFirstServed(c, s)
  {
    NothingWeighs(c.goroutines, Transit);
    NothingWeighs(c.goroutines, Promise);
    NothingWeighs(c.goroutines, Refusal);
  }

  /** While one goroutine is in a shard, nobody else touches that shard's keys. */
  lemma ShardIsExclusive(c: Config, s: State, t: nat, u: nat, i: nat)
    requires Locked(c, s) && t < |s.workers| && u < |s.workers| && i < TRACKER_SHARDS
    requires Holds(c, s.workers[t], i) && Holds(c, s.workers[u], i)
    ensures t == u
  {
    assert s.locks[i] == Some(t) && s.locks[i] == Some(u);
  }

  /** How a step can change the set: not at all, or at its goroutine's own key,
      whose shard it holds. */
  ghost predicate SetStep(w: Worker, s: State, s': State) {
    var same := s'.items == s.items && s'.past == s.past;
    match w
    case InShard(key, item) =>
      same || (s'.past == s.past + [s.items] && exists at :: s'.items == s.items[key := Item(item.money, at)])
    case Reserved(key, item) => s'.past == s.past + [s.items] && s'.items == s.items[key := item]
    case DoneInShard(key) =>
      same || (s'.past == s.past + [s.items] && key in s.items && s'.items == s.items - {key})
    case _ => same
  }

  /** The rest of what most invariants need to know about a step. */
  ghost predicate Framed(c: Config, s: State, t: nat, s': State)
    requires t < |s.workers|
  {
    && |s'.workers| == |s.workers|
    && s'.workers == s.workers[t := s'.workers[t]]
    && SetStep(s.workers[t], s, s')
    && (s'.workers[t].Reserved? ==>
          s.workers[t].InShard? && s'.workers[t].key !in s.items && s'.items == s.items)
  }

  lemma TrackIsFramed(c: Config, s: State, t: nat, s': State)
    requires Locked(c, s) && t < |s.workers| && TrackStepOf(c, s, t, s')
    ensures Framed(c, s, t, s')
  {
    match s.workers[t] {
      case InShard(key, item) =>
        if key in s.items {
          assert s'.items == s.items[key := Item(item.money, Earlier(s.items[key].enqueuedAt, item.enqueuedAt))];
        }
      case _ =>
    }
  }

  lemma DoneIsFramed(c: Config, s: State, t: nat, s': State)
    requires Locked(c, s) && t < |s.workers| && DoneStepOf(c, s, t, s')
    ensures Framed(c, s, t, s')
  {
  }

  lemma PublishIsFramed(c: Config, s: State, t: nat, s': State)
    requires Locked(c, s) && t < |s.workers| && PublishStepOf(c, s, t, s')
    ensures Framed(c, s, t, s') && s'.items == s.items && s'.past == s.past
  {
  }

  lemma StepIsFramed(c: Config, s: State, t: nat, s': State)
    requires Locked(c, s) && Next(c, s, t, s')
    ensures Framed(c, s, t, s')
  {
    if s.workers[t].Idle? && BeginStep(s, t, s') {
      assert s'.workers == s.workers[t := s'.workers[t]];
    } else if TrackStepOf(c, s, t, s') {
      TrackIsFramed(c, s, t, s');
    } else if DoneStepOf(c, s, t, s') {
      DoneIsFramed(c, s, t, s');
    } else {
      PublishIsFramed(c, s, t, s');
    }
  }

  lemma KeysAbsentKept(c: Config, s: State, t: nat, s': State)
    requires Locked(c, s) && KeysAbsent(s) && t < |s.workers| && Framed(c, s, t, s')
    ensures KeysAbsent(s')
  {
    forall u | 0 <= u < |s'.workers| && s'.workers[u].Reserved?
      ensures s'.workers[u].key !in s'.items
    {
      if u != t {
        var k := s'.workers[u].key;
        assert s'.workers[u] == s.workers[u] && Holds(c, s.workers[u], ShardOf(c, k));
        if Holds(c, s.workers[t], ShardOf(c, k)) {
          ShardIsExclusive(c, s, t, u, ShardOf(c, k));
        }
      }
    }
  }

  /** How a step moves the counters, by what its goroutine was doing. */
  ghost predicate CountStep(c: Config, s: State, t: nat, s': State)
    requires t < |s.workers| == |s'.workers|
  {
    var w, w' := s.workers[t], s'.workers[t];
    match w
    case InShard(key, item) =>
      if key in s.items then
        && s'.itemCount == s.itemCount && s'.overflow == s.overflow && w' == Leaving(key)
        && s'.tally == s.tally.(retracked := s.tally.retracked + 1) && |s'.items| == |s.items|
      else
        && s'.itemCount == s.itemCount + 1 && s'.overflow == s.overflow
        && w' == (if s.itemCount + 1 <= c.maxItems then Reserved(key, item) else OverReserved(key))
        && s'.tally == s.tally.(attempts := s.tally.attempts + 1) && |s'.items| == |s.items|
    case Reserved(key, item) =>
      && s'.itemCount == s.itemCount && s'.overflow == s.overflow && w' == Leaving(key)
      && s'.tally == s.tally && |s'.items| == |s.items| + 1
    case OverReserved(key) =>
      && s'.itemCount == s.itemCount - 1 && s'.overflow == s.overflow + 1 && w' == Leaving(key)
      && s'.tally == s.tally && |s'.items| == |s.items|
    case DoneInShard(key) =>
      && s'.itemCount == s.itemCount && s'.overflow == s.overflow
      && if key in s.items then
           && w' == Removed(key) && |s'.items| == |s.items| - 1
           && s'.tally == s.tally.(removed := s.tally.removed + 1)
         else w' == Leaving(key) && s'.tally == s.tally && |s'.items| == |s.items|
    case Removed(key) =>
      && s'.itemCount == s.itemCount - 1 && s'.overflow == s.overflow && w' == Leaving(key)
      && s'.tally == s.tally && |s'.items| == |s.items|
    case _ =>
      && s'.itemCount == s.itemCount && s'.overflow == s.overflow
      && !w'.Reserved? && !w'.OverReserved? && !w'.Removed?
      && s'.tally == s.tally && |s'.items| == |s.items|
  }

  lemma StepCounts(c: Config, s: State, t: nat, s': State)
    requires Locked(c, s) && KeysAbsent(s) && Next(c, s, t, s') && Framed(c, s, t, s')
    ensures CountStep(c, s, t, s')
  {
    if s.workers[t].Idle? && BeginStep(s, t, s') {
    } else if TrackStepOf(c, s, t, s') {
      TrackCounts(c, s, t, s');
    } else if DoneStepOf(c, s, t, s') {
      DoneCounts(c, s, t, s');
    } else {
      PublishCounts(c, s, t, s');
    }
  }

  lemma TrackCounts(c: Config, s: State, t: nat, s': State)
    requires Locked(c, s) && KeysAbsent(s) && t < |s.workers| && TrackStepOf(c, s, t, s') && Framed(c, s, t, s')
    ensures CountStep(c, s, t, s')
  {
    match s.workers[t] {
      case InShard(key, item) =>
        if key in s.items {
          CardUpdate(s.items, key, Item(item.money, Earlier(s.items[key].enqueuedAt, item.enqueuedAt)));
        }
      case Reserved(key, item) => CardUpdate(s.items, key, item);
      case _ =>
    }
  }

  lemma DoneCounts(c: Config, s: State, t: nat, s': State)
    requires Locked(c, s) && t < |s.workers| && DoneStepOf(c, s, t, s')
    requires |s'.workers| == |s.workers|
    ensures CountStep(c, s, t, s')
  {
    if s.workers[t].DoneInShard? {
      CardRemove(s.items, s.workers[t].key);
    }
  }

  lemma PublishCounts(c: Config, s: State, t: nat, s': State)
    requires Locked(c, s) && t < |s.workers| && PublishStepOf(c, s, t, s')
    requires |s'.workers| == |s.workers|
    ensures CountStep(c, s, t, s')
  {
  }

  lemma {:induction false} PromisesAreInTransit(workers: seq<Worker>)
    ensures Weigh(workers, Promise) <= Weigh(workers, Transit)
  {
    if workers != [] {
      PromisesAreInTransit(workers[..|workers| - 1]);
    }
  }

  /** The reserve-then-insert protocol keeps the bound exact. */
  lemma BoundedKept(c: Config, s: State, t: nat, s': State)
    requires t < |s.workers| && Framed(c, s, t, s') && CountStep(c, s, t, s')
    requires Bounded(c, s) && FirstComeFirstServed(c, s)
    ensures Bounded(c, s') && FirstComeFirstServed(c, s')
  {
    var w' := s'.workers[t];
    WeighUpdate(s.workers, t, w', Transit);
    WeighUpdate(s.workers, t, w', Promise);
    WeighUpdate(s.workers, t, w', Refusal);
    PromisesAreInTransit(s.workers);
  }
}
