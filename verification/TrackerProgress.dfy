/** Deadlock freedom of the tracker's locks, and exactly when the bound refuses a
    call (emit/inflight.go). */
module TrackerProgress {
  import opened Wrappers
  import opened Money
  import opened Tracker
  import opened TrackerSteps
  import opened TrackerSnapshots

  // ---- index-order locking cannot deadlock ----

  /** The goroutine wants a lock that someone has. */
  predicate Blocked(c: Config, s: State, t: nat)
    requires t < |s.workers| && |s.locks| == TRACKER_SHARDS
  {
    match s.workers[t]
    case Waiting(key, _) => s.locks[ShardOf(c, key)].Some?
    case DoneWaiting(key) => s.locks[ShardOf(c, key)].Some?
    case PublishWaiting(_) => s.publishMu.Some?
    case Locking(_, n) => n < TRACKER_SHARDS && s.locks[n].Some?
    case _ => false
  }

  lemma {:induction false} SamplesExist(items: map<Key, Item>, todo: set<Combo>, now: int) returns (out: seq<Sample>)
    ensures |out| == 5 * |todo|
    ensures forall x :: x in out ==> exists c, b :: c in todo && x == SampleOf(items, c, b, now)
    ensures forall c, b :: c in todo ==> SampleOf(items, c, b, now) in out
    decreases todo
  {
    out := [];
    if todo != {} {
      var c :| c in todo;
      var rest := SamplesExist(items, todo - {c}, now);
      var five := [SampleOf(items, c, Lt1m, now), SampleOf(items, c, From1mTo5m, now),
                   SampleOf(items, c, From5mTo30m, now), SampleOf(items, c, From30mTo2h, now),
                   SampleOf(items, c, Gt2h, now)];
      out := rest + five;
      assert |todo| == |todo - {c}| + 1;
      forall b
        ensures SampleOf(items, c, b, now) in out
      {
        assert SampleOf(items, c, b, now) in five by {
          match b {
            case Lt1m => assert five[0] == SampleOf(items, c, b, now);
            case From1mTo5m => assert five[1] == SampleOf(items, c, b, now);
            case From5mTo30m => assert five[2] == SampleOf(items, c, b, now);
            case From30mTo2h => assert five[3] == SampleOf(items, c, b, now);
            case Gt2h => assert five[4] == SampleOf(items, c, b, now);
          }
        }
      }
    }
  }

  lemma TrackCanStep(c: Config, s: State, t: nat) returns (s': State)
    requires t < |s.workers| && |s.locks| == TRACKER_SHARDS && !Blocked(c, s, t)
    requires var w := s.workers[t];
             w.Loading? || w.Missed? || w.Waiting? || w.InShard? || w.Reserved? || w.OverReserved? || w.Leaving?
    ensures TrackStepOf(c, s, t, s')
  {
    match s.workers[t] {
      case Loading(key, item) =>
        s' := if item.money.currency in s.exponents then ComparePin(s, t, key, item, s.exponents[item.money.currency])
              else Go(s, t, Missed(key, item));
      case Missed(key, item) =>
        s' := if item.money.currency in s.exponents then ComparePin(s, t, key, item, s.exponents[item.money.currency])
              else Go(s, t, Waiting(key, item)).(exponents := s.exponents[item.money.currency := item.money.exponent]);
      case Waiting(key, item) => s' := Lock(Go(s, t, InShard(key, item)), ShardOf(c, key), t);
      case InShard(key, item) =>
        s' := if key in s.items then
                SetItems(Go(s, t, Leaving(key)),
                         s.items[key := Item(item.money, Earlier(s.items[key].enqueuedAt, item.enqueuedAt))])
                  .(tally := s.tally.(retracked := s.tally.retracked + 1))
              else
                Go(s, t, if s.itemCount + 1 <= c.maxItems then Reserved(key, item) else OverReserved(key))
                  .(itemCount := s.itemCount + 1, tally := s.tally.(attempts := s.tally.attempts + 1));
      case Reserved(key, item) => s' := SetItems(Go(s, t, Leaving(key)), s.items[key := item]);
      case OverReserved(key) =>
        s' := Go(s, t, Leaving(key)).(itemCount := s.itemCount - 1, overflow := s.overflow + 1);
      case Leaving(key) => s' := Unlock(Go(s, t, Idle), ShardOf(c, key));
    }
  }

  lemma DoneCanStep(c: Config, s: State, t: nat) returns (s': State)
    requires t < |s.workers| && |s.locks| == TRACKER_SHARDS && !Blocked(c, s, t)
    requires var w := s.workers[t]; w.DoneWaiting? || w.DoneInShard? || w.Removed?
    ensures DoneStepOf(c, s, t, s')
  {
    match s.workers[t] {
      case DoneWaiting(key) => s' := Lock(Go(s, t, DoneInShard(key)), ShardOf(c, key), t);
      case DoneInShard(key) =>
        s' := if key in s.items then
                SetItems(Go(s, t, Removed(key)), s.items - {key})
                  .(tally := s.tally.(removed := s.tally.removed + 1))
              else Go(s, t, Leaving(key));
      case Removed(key) => s' := Go(s, t, Leaving(key)).(itemCount := s.itemCount - 1);
    }
  }

  lemma PublishCanStep(c: Config, s: State, t: nat) returns (s': State)
    requires t < |s.workers| && |s.locks| == TRACKER_SHARDS && !Blocked(c, s, t)
    requires s.workers[t].PublishWaiting? || Publishing(s.workers[t])
    ensures PublishStepOf(c, s, t, s')
  {
    match s.workers[t] {
      case PublishWaiting(from) =>
        s' := Go(s, t, Locking(Call(from, 0), 0)).(publishMu := Some(t));
      case Locking(call, n) =>
        s' := if n < TRACKER_SHARDS then Lock(Go(s, t, Locking(call, n + 1)), n, t)
              else Go(s, t, Reading(call, 0, map[]));
      case Reading(call, n, read) =>
        s' := if n < TRACKER_SHARDS then
                Go(s, t, Reading(call, n + 1, read + (map k | k in s.items && ShardOf(c, k) == n :: s.items[k])))
              else Go(s, t, Unlocking(call, 0, Snapshot(|s.past|, read)));
      case Unlocking(call, n, shot) =>
        if n < TRACKER_SHARDS {
          s' := Unlock(Go(s, t, Unlocking(call, n + 1, shot)), n);
        } else {
          var out := SamplesExist(shot.items, Combos(shot.items) + s.live, call.now);
          assert IsPublication(out, shot.items, s.live, call.now);
          s' := Go(s, t, Emitting(call, shot, s.emitted, out, 0)).(live := Combos(shot.items));
        }
      case Emitting(call, shot, base, out, n) =>
        s' := if n < |out| then Go(s, t, Emitting(call, shot, base, out, n + 1)).(emitted := s.emitted + [out[n]])
              else Go(s, t, Idle).(publishMu := None,
                                   published := s.published + [Publication(call, shot, |s.past|)]);
    }
  }

  lemma CanStep(c: Config, s: State, t: nat) returns (s': State)
    requires t < |s.workers| && |s.locks| == TRACKER_SHARDS
    requires !s.workers[t].Idle? && !Blocked(c, s, t)
    ensures Next(c, s, t, s')
  {
    var w := s.workers[t];
    if w.DoneWaiting? || w.DoneInShard? || w.Removed? {
      s' := DoneCanStep(c, s, t);
    } else if w.PublishWaiting? || Publishing(w) {
      s' := PublishCanStep(c, s, t);
    } else {
      s' := TrackCanStep(c, s, t);
    }
  }

  /** Whoever holds a shard is running, or waits for a later shard whose holder
      is running: Publish is the only one to take more than one. */
  lemma HolderLeadsToARunner(c: Config, s: State, i: nat) returns (r: nat)
    requires Locked(c, s) && i < TRACKER_SHARDS && s.locks[i].Some?
    ensures r < |s.workers| && !s.workers[r].Idle? && !Blocked(c, s, r)
  {
    r := s.locks[i].value;
    assert Holds(c, s.workers[r], i);
    if Blocked(c, s, r) {
      var v, n := r, s.workers[r].n;
      r := s.locks[n].value;
      assert Holds(c, s.workers[r], n) && !Holds(c, s.workers[v], n);
      if Publishing(s.workers[r]) {
        OnePublisher(c, s, v, r);
      }
    }
  }

  /** In every reachable state with a call in progress, some call can move. */
  lemma NoDeadlock(c: Config, states: seq<State>, i: nat, t: nat) returns (r: nat, s': State)
    requires IsInterleaving(c, states) && i < |states|
    requires t < |states[i].workers| && !states[i].workers[t].Idle?
    ensures r < |states[i].workers| && !states[i].workers[r].Idle? && |states[i].locks| == TRACKER_SHARDS
    ensures Next(c, states[i], r, s')
  {
    RunIsSound(c, states, i);
    var s := states[i];
    r := t;
    if Blocked(c, s, t) {
      match s.workers[t] {
        case Waiting(key, _) => r := HolderLeadsToARunner(c, s, ShardOf(c, key));
        case DoneWaiting(key) => r := HolderLeadsToARunner(c, s, ShardOf(c, key));
        case Locking(_, n) => r := HolderLeadsToARunner(c, s, n);
        case PublishWaiting(_) =>
          r := s.publishMu.value;
          assert Publishing(s.workers[r]);
          if Blocked(c, s, r) {
            r := HolderLeadsToARunner(c, s, s.workers[r].n);
          }
      }
    }
    s' := CanStep(c, s, r);
  }

  // ---- when the bound refuses ----

  /** A new key is refused exactly when stored items and slots in transit
      together fill the bound. */
  lemma RefusedExactlyWhenFull(c: Config, states: seq<State>, i: nat, t: nat, s': State)
    requires IsInterleaving(c, states) && i < |states| && t < |states[i].workers|
    requires states[i].workers[t].InShard? && states[i].workers[t].key !in states[i].items
    requires |states[i].locks| == TRACKER_SHARDS && TrackStepOf(c, states[i], t, s')
    ensures s'.workers[t].OverReserved? <==>
              |states[i].items| + Weigh(states[i].workers, Transit) >= c.maxItems
  {
    RunIsSound(c, states, i);
  }

  ghost predicate Reachable(c: Config, s: State) {
    exists states :: IsInterleaving(c, states) && states[|states| - 1] == s
  }

  lemma ReachInit(c: Config, s: State)
    requires Init(c, s)
    ensures Reachable(c, s)
  {
    assert IsInterleaving(c, [s]);
  }

  lemma ReachStep(c: Config, s: State, t: nat, s': State)
    requires Reachable(c, s) && |s.locks| == TRACKER_SHARDS && Next(c, s, t, s')
    ensures Reachable(c, s')
  {
    var states :| IsInterleaving(c, states) && states[|states| - 1] == s;
    var longer := states + [s'];
    assert StepsTo(c, s, s');
    forall i, j | 0 <= i && j == i + 1 < |longer|
      ensures StepsTo(c, longer[i], longer[j])
    {
      if j < |states| {
        assert StepsTo(c, states[i], states[j]);
      }
    }
    assert IsInterleaving(c, longer);
  }

  // A room of one, three goroutines, and ids that hash by length.
  const ROOM_FOR_ONE := Config(id => |id|, 1, 3)
  const USD := Money(1, "USD", 2)
  const A := Key("f", "q", "a")
  const B := Key("f", "q", "bb")
  const C := Key("f", "q", "ccc")
  const ITEM := Item(USD, 0)

  /** One goroutine brings a key with a known currency as far as its shard. */
  lemma ReachShard(s: State, t: nat, key: Key) returns (s': State)
    requires Reachable(ROOM_FOR_ONE, s) && |s.locks| == TRACKER_SHARDS
    requires t < |s.workers| && s.workers[t].Idle?
    requires s.locks[ShardOf(ROOM_FOR_ONE, key)].None?
    ensures Reachable(ROOM_FOR_ONE, s')
    ensures s' == Lock(Go(s, t, InShard(key, ITEM)), ShardOf(ROOM_FOR_ONE, key), t)
                    .(exponents := if "USD" in s.exponents then s.exponents else s.exponents["USD" := 2])
    requires "USD" in s.exponents ==> s.exponents["USD"] == 2
  {
    var c := ROOM_FOR_ONE;
    assert USD.Valid();
    var s1 := Go(s, t, Loading(key, ITEM));
    ReachStep(c, s, t, s1);
    var s2 := s1;
    if "USD" !in s.exponents {
      s2 := Go(s1, t, Missed(key, ITEM));
      ReachStep(c, s1, t, s2);
    }
    var s3 := Go(s2, t, Waiting(key, ITEM))
                .(exponents := if "USD" in s.exponents then s.exponents else s.exponents["USD" := 2]);
    ReachStep(c, s2, t, s3);
    s' := Lock(Go(s3, t, InShard(key, ITEM)), ShardOf(c, key), t);
    ReachStep(c, s3, t, s');
    assert s'.workers == s.workers[t := InShard(key, ITEM)];
  }

  /** A goroutine in its shard, with room, stores its item and leaves. */
  lemma ReachStored(s: State, t: nat, key: Key) returns (s': State)
    requires Reachable(ROOM_FOR_ONE, s) && |s.locks| == TRACKER_SHARDS && t < |s.workers|
    requires s.workers[t] == InShard(key, ITEM) && key !in s.items && s.itemCount == 0
    ensures Reachable(ROOM_FOR_ONE, s')
    ensures s'.workers == s.workers[t := Idle] && s'.locks == s.locks[ShardOf(ROOM_FOR_ONE, key) := None]
    ensures s'.items == s.items[key := ITEM] && s'.itemCount == 1 && s'.exponents == s.exponents
  {
    var c := ROOM_FOR_ONE;
    var s1 := Go(s, t, Reserved(key, ITEM))
                .(itemCount := 1, tally := s.tally.(attempts := s.tally.attempts + 1));
    ReachStep(c, s, t, s1);
    var s2 := SetItems(Go(s1, t, Leaving(key)), s.items[key := ITEM]);
    ReachStep(c, s1, t, s2);
    s' := Unlock(Go(s2, t, Idle), ShardOf(c, key));
    ReachStep(c, s2, t, s');
    assert s'.workers == s.workers[t := Idle];
  }

  /** A goroutine removes a stored key and is about to unlock. */
  lemma ReachRemoved(s: State, t: nat, key: Key) returns (s': State)
    requires Reachable(ROOM_FOR_ONE, s) && |s.locks| == TRACKER_SHARDS && t < |s.workers|
    requires s.workers[t].Idle? && key in s.items && s.locks[ShardOf(ROOM_FOR_ONE, key)].None?
    ensures Reachable(ROOM_FOR_ONE, s')
    ensures s'.workers == s.workers[t := Leaving(key)] && s'.locks == s.locks[ShardOf(ROOM_FOR_ONE, key) := Some(t)]
    ensures s'.items == s.items - {key} && s'.itemCount == s.itemCount - 1 && s'.exponents == s.exponents
  {
    var c := ROOM_FOR_ONE;
    var s1 := Go(s, t, DoneWaiting(key));
    ReachStep(c, s, t, s1);
    var s2 := Lock(Go(s1, t, DoneInShard(key)), ShardOf(c, key), t);
    ReachStep(c, s1, t, s2);
    var s3 := SetItems(Go(s2, t, Removed(key)), s.items - {key}).(tally := s.tally.(removed := s.tally.removed + 1));
    ReachStep(c, s2, t, s3);
    s' := Go(s3, t, Leaving(key)).(itemCount := s.itemCount - 1);
    ReachStep(c, s3, t, s');
    assert s'.workers == s.workers[t := Leaving(key)];
  }

  /** One key is stored and the others wait outside. */
  lemma OneStored() returns (s: State)
    ensures Reachable(ROOM_FOR_ONE, s)
    ensures s.items == map[A := ITEM] && s.itemCount == 1 && s.workers == [Idle, Idle, Idle]
    ensures s.locks == seq(TRACKER_SHARDS, _ => None) && s.exponents == map["USD" := 2]
  {
    var empty := State(seq(3, _ => Idle), seq(TRACKER_SHARDS, _ => None), None, map[], 0, map[], 0, 0, {}, [], [], [],
                       Tally(0, 0, 0));
    assert empty.workers == [Idle, Idle, Idle];
    ReachInit(ROOM_FOR_ONE, empty);
    var inside := ReachShard(empty, 0, A);
    s := ReachStored(inside, 0, A);
    assert s.locks == seq(TRACKER_SHARDS, _ => None);
  }

  /** A second key finds no room and is about to give its slot back. */
  lemma OneRefused() returns (s: State)
    ensures Reachable(ROOM_FOR_ONE, s)
    ensures s.items == map[A := ITEM] && s.itemCount == 2 && s.workers == [Idle, OverReserved(B), Idle]
    ensures s.locks == seq(TRACKER_SHARDS, _ => None)[2 := Some(1)] && s.exponents == map["USD" := 2]
  {
    var stored := OneStored();
    var inside := ReachShard(stored, 1, B);
    s := Go(inside, 1, OverReserved(B))
           .(itemCount := 2, tally := inside.tally.(attempts := inside.tally.attempts + 1));
    ReachStep(ROOM_FOR_ONE, inside, 1, s);
  }

  /** The only stored item has gone, yet a refused call has not given its slot
      back. */
  lemma SlotStillInTransit() returns (s: State)
    ensures Reachable(ROOM_FOR_ONE, s)
    ensures s.items == map[] && s.itemCount == 1 && s.workers == [Leaving(A), OverReserved(B), Idle]
    ensures |s.locks| == TRACKER_SHARDS && s.locks[3].None? && s.exponents == map["USD" := 2]
  {
    var refused := OneRefused();
    s := ReachRemoved(refused, 0, A);
    assert map[A := ITEM] - {A} == map[];
  }

  /** "Refused only when the set is full" is not what the code promises: with a
      removal racing a refusal, a call can be refused while nothing is stored. */
  lemma CanRefuseWhileEmpty() returns (s: State, s': State)
    ensures Reachable(ROOM_FOR_ONE, s) && |s.items| == 0 < ROOM_FOR_ONE.maxItems
    ensures |s.locks| == TRACKER_SHARDS && Next(ROOM_FOR_ONE, s, 2, s')
    ensures s.workers[2] == InShard(C, ITEM) && s'.workers[2] == OverReserved(C)
  {
    var early := SlotStillInTransit();
    s := ReachShard(early, 2, C);
    s' := Go(s, 2, OverReserved(C)).(itemCount := 2, tally := s.tally.(attempts := s.tally.attempts + 1));
  }
}
