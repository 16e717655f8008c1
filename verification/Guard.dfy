/** The guard on the golden net loss: recovered demand may not exceed suppressed
    demand in a window (testkit/expected.go), and exactly when it can. */
module Guard {
  import opened Wrappers
  import opened Faults
  import opened Checkout
  import opened Expected

  // ---- the net loss of any run ----

  /** Demand suppressed in the window by blackouts that began before it. */
  ghost function EarlierIn(faults: seq<FaultSpec>, suppressed: seq<SuppressedMinute>, from: nat, to: nat): nat {
    if suppressed == [] then 0 else
      var last := suppressed[|suppressed| - 1];
      EarlierIn(faults, suppressed[..|suppressed| - 1], from, to)
      + if InWindow(last.minute, from, to) && !SourceIn(faults, last.minute, Window(from, to)) then last.count else 0
  }

  /** Demand suppressed after the window by blackouts that began in it. */
  ghost function LaterIn(faults: seq<FaultSpec>, suppressed: seq<SuppressedMinute>, from: nat, to: nat): nat {
    if suppressed == [] then 0 else
      var last := suppressed[|suppressed| - 1];
      LaterIn(faults, suppressed[..|suppressed| - 1], from, to)
      + if to <= last.minute && SourceIn(faults, last.minute, Window(from, to)) then last.count else 0
  }

  lemma {:induction false} WindowSplits(cfg: Config, suppressed: seq<SuppressedMinute>, from: nat, to: nat)
    requires SuppressedOk(cfg, suppressed)
    ensures SuppressedIn(suppressed, from, to) + LaterIn(cfg.faults, suppressed, from, to)
         == FreshIn(cfg.faults, suppressed, Window(from, to)) + EarlierIn(cfg.faults, suppressed, from, to)
  {
    if suppressed != [] {
      WindowSplits(cfg, suppressed[..|suppressed| - 1], from, to);
      assert Governing(cfg.faults, suppressed[|suppressed| - 1].minute).Some?;
    }
  }

  /** The guard's two sides for a run. */
  ghost predicate Fires(cfg: Config, oracle: Oracle, from: nat, to: nat)
    requires cfg.Valid()
  {
    var d := DemandOf(cfg, oracle);
    SuppressedIn(d.suppressed, from, to) < ReturnedIn(d.origins, Window(from, to))
  }

  lemma {:induction false} SuppressedAreOk(cfg: Config, oracle: Oracle, t: nat, d: Demand)
    requires cfg.Valid() && cfg.start <= t && SuppressedOk(cfg, d.suppressed)
    ensures SuppressedOk(cfg, DemandFrom(cfg, oracle, t, d).suppressed)
    decreases cfg.end - t
  {
    hide MinuteOf, SuppressedOk;
    if t < cfg.end {
      SuppressesItself(cfg, oracle, t, d);
      SuppressedAreOk(cfg, oracle, t + 1, MinuteOf(cfg, oracle, t, d));
    }
  }

  /** For every run and window: the net loss is what never came back, plus what
      blackouts from before the window took in it, less what its own took after it. */
  lemma NetLoss(cfg: Config, oracle: Oracle, from: nat, to: nat)
    requires cfg.Valid()
    ensures var d := DemandOf(cfg, oracle);
            SuppressedIn(d.suppressed, from, to) - ReturnedIn(d.origins, Window(from, to))
              == CountIn(d.lost, Window(from, to)) + EarlierIn(cfg.faults, d.suppressed, from, to)
                 - LaterIn(cfg.faults, d.suppressed, from, to)
    ensures SuppressedOk(cfg, DemandOf(cfg, oracle).suppressed)
  {
    NothingLeftWaiting(cfg, oracle, Window(from, to));
    SuppressedAreOk(cfg, oracle, cfg.start, NO_DEMAND);
    WindowSplits(cfg, DemandOf(cfg, oracle).suppressed, from, to);
  }

  // ---- when the guard can fire ----

  /** A suppressed arrival at a minute, and the integer it draws for its return. */
  datatype Hop = Hop(at: nat, draw: nat)

  /** The return may land at the minute `next`. */
  predicate CanHop(cfg: Config, h: Hop, next: nat) {
    var g := Governing(cfg.faults, h.at);
    && g.Some? && 0.0 < g.value.recoveredFraction && g.value.recoveryWithin > 0
    && next == ReturnAt(g.value, h.draw) && next < cfg.end
  }

  function AtOf(hops: seq<Hop>, last: nat, i: nat): nat { if i < |hops| then hops[i].at else last }

  /** Suppressed again and again, until it lands at `last`. */
  predicate IsPath(cfg: Config, hops: seq<Hop>, last: nat): (ok: bool)
    ensures ok ==> |hops| > 0
  {
    |hops| > 0 && forall i :: 0 <= i < |hops| ==> CanHop(cfg, hops[i], AtOf(hops, last, i + 1))
  }

  function Source(cfg: Config, hops: seq<Hop>, last: nat): nat
    requires IsPath(cfg, hops, last)
  {
    assert CanHop(cfg, hops[0], AtOf(hops, last, 1));
    Governing(cfg.faults, hops[0].at).value.from
  }

  /** A blackout that starts in the window, is active in the run after it, and
      whose demand can come back to an open minute. */
  predicate Firing(cfg: Config, from: nat, to: nat, hops: seq<Hop>, last: nat) {
    && IsPath(cfg, hops, last) && Governing(cfg.faults, last).None?
    && cfg.start <= hops[0].at && to <= hops[0].at && from <= Source(cfg, hops, last) < to
  }

  ghost predicate CanFire(cfg: Config, from: nat, to: nat) {
    exists hops, last :: Firing(cfg, from, to, hops, last)
  }

  // ---- a run fires only if it can ----

  ghost predicate Reaches(cfg: Config, source: nat, t: nat) {
    exists hops :: IsPath(cfg, hops, t) && Source(cfg, hops, t) == source
  }

  ghost predicate Returns(cfg: Config, source: nat) {
    exists t :: Reaches(cfg, source, t) && Governing(cfg.faults, t).None?
  }

  ghost predicate Tracked(cfg: Config, d: Demand) {
    && (forall k, s :: k in d.rearrive && s in d.rearrive[k] ==> Reaches(cfg, s, k))
    && (forall o :: o in d.origins && o.Some? ==> Returns(cfg, o.value))
  }

  /** In hand at a minute: just suppressed, or back from an earlier blackout. */
  ghost predicate InHand(cfg: Config, source: nat, t: nat) {
    Reaches(cfg, source, t) || (Governing(cfg.faults, t).Some? && Governing(cfg.faults, t).value.from == source)
  }

  lemma HopOn(cfg: Config, source: nat, t: nat, draw: nat, next: nat)
    requires InHand(cfg, source, t) && CanHop(cfg, Hop(t, draw), next)
    ensures Reaches(cfg, source, next)
  {
    hide CanHop;
    if Reaches(cfg, source, t) {
      var hops: seq<Hop> :| IsPath(cfg, hops, t) && Source(cfg, hops, t) == source;
      var more := hops + [Hop(t, draw)];
      forall i | 0 <= i < |more|
        ensures CanHop(cfg, more[i], AtOf(more, next, i + 1))
      {
        if i < |hops| {
          assert CanHop(cfg, hops[i], AtOf(hops, t, i + 1));
        }
      }
      assert IsPath(cfg, more, next) && Source(cfg, more, next) == source;
    } else {
      var one := [Hop(t, draw)];
      assert IsPath(cfg, one, next) && Source(cfg, one, next) == source;
    }
  }

  lemma RerollIsTracked(cfg: Config, oracle: Oracle, f: FaultSpec, source: nat, t: nat, d: Demand)
    requires cfg.Valid() && Governing(cfg.faults, t) == Some(f) && InHand(cfg, source, t) && Tracked(cfg, d)
    ensures Tracked(cfg, Rerolled(cfg, oracle, f, source, d))
  {
    hide Governing, ReturnAt, InHand, Reaches, Returns;
    if oracle.float(d.draws) < f.recoveredFraction && ReturnAt(f, oracle.integer(d.draws + 1)) < cfg.end {
      HopOn(cfg, source, t, oracle.integer(d.draws + 1), ReturnAt(f, oracle.integer(d.draws + 1)));
    }
  }

  lemma {:induction false} RerollsAreTracked(cfg: Config, oracle: Oracle, f: FaultSpec, sources: seq<nat>, t: nat, d: Demand)
    requires cfg.Valid() && Governing(cfg.faults, t) == Some(f) && (forall s :: s in sources ==> InHand(cfg, s, t)) && Tracked(cfg, d)
    ensures Tracked(cfg, AllRerolled(cfg, oracle, f, sources, d))
  {
    hide Rerolled, Tracked, InHand;
    if sources != [] {
      var n := |sources| - 1;
      RerollsAreTracked(cfg, oracle, f, sources[..n], t, d);
      RerollIsTracked(cfg, oracle, f, sources[n], t, AllRerolled(cfg, oracle, f, sources[..n], d));
    }
  }

  lemma MinuteIsTracked(cfg: Config, oracle: Oracle, t: nat, d: Demand)
    requires cfg.Valid() && Tracked(cfg, d)
    ensures Tracked(cfg, MinuteOf(cfg, oracle, t, d))
  {
    hide AllRerolled, AllEntered, Reaches;
    var arrivals, due, g := oracle.poisson(d.draws), DueAt(d.rearrive, t), Governing(cfg.faults, t);
    var taken := d.(draws := d.draws + 1, rearrive := d.rearrive - {t});
    if g.Some? {
      RerollsAreTracked(cfg, oracle, g.value, Repeat(g.value.from, arrivals) + due, t, Noted(taken, t, arrivals));
    } else {
      RowsReturn(cfg, oracle, t, Origins(arrivals, due), taken, {});
      forall o | o in Origins(arrivals, due) && o.Some?
        ensures Returns(cfg, o.value)
      {
        assert Reaches(cfg, o.value, t);
      }
    }
  }

  lemma {:induction false} RunIsTracked(cfg: Config, oracle: Oracle, t: nat, d: Demand)
    requires cfg.Valid() && Tracked(cfg, d)
    ensures Tracked(cfg, DemandFrom(cfg, oracle, t, d))
    decreases cfg.end - t
  {
    hide MinuteOf, Tracked;
    if t < cfg.end {
      MinuteIsTracked(cfg, oracle, t, d);
      RunIsTracked(cfg, oracle, t + 1, MinuteOf(cfg, oracle, t, d));
    }
  }

  /** Two blackouts with a minute in common are one. */
  lemma SharedMinute(cfg: Config, f: FaultSpec, f': FaultSpec, t: nat)
    requires cfg.Valid() && f in cfg.faults && f' in cfg.faults && f.kind.Blackout? && f'.kind.Blackout?
    requires f.Active(t) && f'.Active(t)
    ensures f == f'
  {
    var m := multiset(Blackouts(cfg.faults));
    WindowCounted(cfg.faults, f);
    WindowCounted(cfg.faults, f');
    assert f.Window() == f'.Window();
    if f != f' {
      BothCounted(cfg.faults, f, f');
    }
  }

  lemma {:induction false} WindowCounted(faults: seq<FaultSpec>, f: FaultSpec)
    requires f in faults && f.kind.Blackout?
    ensures multiset(Blackouts(faults))[f.Window()] >= 1
  {
    if faults[0] != f {
      WindowCounted(faults[1..], f);
    }
  }

  lemma {:induction false} BothCounted(faults: seq<FaultSpec>, f: FaultSpec, f': FaultSpec)
    requires f in faults && f' in faults && f != f' && f.kind.Blackout? && f'.kind.Blackout? && f.Window() == f'.Window()
    ensures multiset(Blackouts(faults))[f.Window()] >= 2
  {
    var first := if faults[0].kind.Blackout? then [faults[0].Window()] else [];
    assert Blackouts(faults) == first + Blackouts(faults[1..]);
    if faults[0] == f {
      WindowCounted(faults[1..], f');
    } else if faults[0] == f' {
      WindowCounted(faults[1..], f);
    } else {
      BothCounted(faults[1..], f, f');
    }
  }

  lemma SameSource(cfg: Config, a: nat, b: nat, to: nat)
    requires cfg.Valid() && Governing(cfg.faults, a).Some? && Governing(cfg.faults, b).Some?
    requires var s, s' := Governing(cfg.faults, a).value.from, Governing(cfg.faults, b).value.from;
             s == s' || (s < to <= a && s' < to <= b)
    ensures Governing(cfg.faults, a) == Governing(cfg.faults, b)
  {
    var f, f' := Governing(cfg.faults, a).value, Governing(cfg.faults, b).value;
    hide Governing;
    assert f.Validate() && f'.Validate();
    SharedMinute(cfg, f, f', if f.from == f'.from then f.from else to);
  }

  lemma {:induction false} LaterIsSome(faults: seq<FaultSpec>, suppressed: seq<SuppressedMinute>, from: nat, to: nat) returns (i: nat)
    requires LaterIn(faults, suppressed, from, to) > 0
    ensures i < |suppressed| && to <= suppressed[i].minute && SourceIn(faults, suppressed[i].minute, Window(from, to))
  {
    var n := |suppressed| - 1;
    if LaterIn(faults, suppressed[..n], from, to) > 0 {
      i := LaterIsSome(faults, suppressed[..n], from, to);
    } else {
      i := n;
    }
  }

  /** What the other blackouts of the window took, they took in it. */
  lemma {:induction false} OthersTookInside(cfg: Config, suppressed: seq<SuppressedMinute>, from: nat, to: nat, m: nat)
    requires cfg.Valid() && SuppressedOk(cfg, suppressed)
    requires to <= m && SourceIn(cfg.faults, m, Window(from, to))
    ensures FreshIn(cfg.faults, suppressed, Window(from, to) - {Governing(cfg.faults, m).value.from})
         <= SuppressedIn(suppressed, from, to)
  {
    if suppressed != [] {
      OthersTookInside(cfg, suppressed[..|suppressed| - 1], from, to, m);
      var minute := suppressed[|suppressed| - 1].minute;
      assert Governing(cfg.faults, minute).Some?;
      if to <= minute && SourceIn(cfg.faults, minute, Window(from, to)) {
        SameSource(cfg, m, minute, to);
      }
    }
  }

  lemma {:induction false} ReturnsApart(origins: seq<Option<nat>>, W: set<nat>, s: nat)
    requires s in W
    ensures ReturnedIn(origins, W) == ReturnedIn(origins, {s}) + ReturnedIn(origins, W - {s})
    ensures ReturnedIn(origins, {s}) > 0 ==> Some(s) in origins
  {
    if origins != [] {
      ReturnsApart(origins[..|origins| - 1], W, s);
    }
  }

  /** A run can fire the guard only on a window that some blackout which starts in
      it outlasts, with demand that can come back. */
  lemma FiresOnlyIf(cfg: Config, oracle: Oracle, from: nat, to: nat)
    requires cfg.Valid() && Fires(cfg, oracle, from, to)
    ensures CanFire(cfg, from, to)
  {
    hide DemandOf, IsPath, Source, Governing, Reaches, Returns;
    var d, W := DemandOf(cfg, oracle), Window(from, to);
    NetLoss(cfg, oracle, from, to);
    var i := LaterIsSome(cfg.faults, d.suppressed, from, to);
    var m := d.suppressed[i].minute;
    var s := Governing(cfg.faults, m).value.from;
    OthersTookInside(cfg, d.suppressed, from, to, m);
    NothingLeftWaiting(cfg, oracle, W - {s});
    ReturnsApart(d.origins, W, s);
    AllTracked(cfg, oracle);
    assert Some(s) in d.origins;
    var hops, t := ReturnPath(cfg, s);
    StartAt(cfg, hops, t, m);
    assert Firing(cfg, from, to, hops[0 := Hop(m, hops[0].draw)], t);
  }

  lemma ReturnPath(cfg: Config, s: nat) returns (hops: seq<Hop>, t: nat)
    requires Returns(cfg, s)
    ensures IsPath(cfg, hops, t) && Source(cfg, hops, t) == s && Governing(cfg.faults, t).None?
  {
    hide IsPath, Source, Governing;
    t :| Reaches(cfg, s, t) && Governing(cfg.faults, t).None?;
    hops :| IsPath(cfg, hops, t) && Source(cfg, hops, t) == s;
  }

  lemma AllTracked(cfg: Config, oracle: Oracle)
    requires cfg.Valid()
    ensures Tracked(cfg, DemandOf(cfg, oracle))
  {
    RunIsTracked(cfg, oracle, cfg.start, NO_DEMAND);
  }

  /** A path may start at any minute of its blackout. */
  lemma StartAt(cfg: Config, hops: seq<Hop>, last: nat, m: nat)
    requires cfg.Valid() && IsPath(cfg, hops, last)
    requires Governing(cfg.faults, m).Some? && Governing(cfg.faults, m).value.from == Source(cfg, hops, last)
    ensures IsPath(cfg, hops[0 := Hop(m, hops[0].draw)], last)
    ensures Source(cfg, hops[0 := Hop(m, hops[0].draw)], last) == Source(cfg, hops, last)
  {
    var moved := hops[0 := Hop(m, hops[0].draw)];
    assert CanHop(cfg, hops[0], AtOf(hops, last, 1));
    SameSource(cfg, m, hops[0].at, 0);
    forall i | 0 <= i < |moved|
      ensures CanHop(cfg, moved[i], AtOf(moved, last, i + 1))
    {
      assert CanHop(cfg, hops[i], AtOf(hops, last, i + 1));
    }
  }

  // ---- and whenever it can, some run does ----

  /** What the hop draws whose integer is the k-th draw. */
  function DrawAt(start: nat, hops: seq<Hop>, i: nat, k: nat): nat
    decreases |hops| - i
  {
    if i >= |hops| then 0
    else if k + start == hops[i].at + 2 * i + 2 then hops[i].draw
    else DrawAt(start, hops, i + 1, k)
  }

  /** One arrival, at the first hop, and every roll along the path. */
  function Steering(cfg: Config, hops: seq<Hop>): Oracle
    requires |hops| > 0
  {
    Oracle(_ => 0.0, k => DrawAt(cfg.start, hops, 0, k), k => if k + cfg.start == hops[0].at then 1 else 0)
  }

  lemma HopGoesOn(cfg: Config, hops: seq<Hop>, last: nat, i: nat)
    requires IsPath(cfg, hops, last) && i < |hops|
    ensures CanHop(cfg, hops[i], AtOf(hops, last, i + 1)) && hops[i].at < AtOf(hops, last, i + 1) < cfg.end
  {
    hide ReturnAt;
    assert CanHop(cfg, hops[i], AtOf(hops, last, i + 1));
  }

  lemma {:induction false} PathGoesOn(cfg: Config, hops: seq<Hop>, last: nat, i: nat, j: nat)
    requires IsPath(cfg, hops, last) && i < j <= |hops|
    ensures AtOf(hops, last, i) < AtOf(hops, last, j) < cfg.end
  {
    hide IsPath, CanHop;
    HopGoesOn(cfg, hops, last, j - 1);
    if i < j - 1 {
      PathGoesOn(cfg, hops, last, i, j - 1);
    }
  }

  lemma {:induction false} DrawIsHops(cfg: Config, hops: seq<Hop>, last: nat, i: nat, j: nat, k: nat)
    requires IsPath(cfg, hops, last) && i <= j < |hops| && k + cfg.start == hops[j].at + 2 * j + 2
    ensures DrawAt(cfg.start, hops, i, k) == hops[j].draw
    decreases j - i
  {
    hide IsPath;
    if i < j {
      PathGoesOn(cfg, hops, last, i, j);
      DrawIsHops(cfg, hops, last, i + 1, j, k);
    }
  }

  /** Before minute t, i hops were made and the next is still to come. */
  ghost predicate OnPath(cfg: Config, hops: seq<Hop>, last: nat, i: nat, t: nat, d: Demand)
    requires IsPath(cfg, hops, last)
  {
    && i <= |hops| && cfg.start <= t <= AtOf(hops, last, i) && (i > 0 ==> hops[0].at < t)
    && d.draws + cfg.start == t + 2 * i && d.origins == []
    && d.suppressed == (if i == 0 then [] else [SuppressedMinute(hops[0].at, 1)])
    && d.rearrive == if i == 0 then map[] else map[AtOf(hops, last, i) := [Source(cfg, hops, last)]]
  }

  lemma NothingToDo(cfg: Config, oracle: Oracle, t: nat, d: Demand)
    requires cfg.Valid() && oracle.poisson(d.draws) == 0 && t !in d.rearrive
    ensures MinuteOf(cfg, oracle, t, d) == d.(draws := d.draws + 1)
  {
    assert d.rearrive - {t} == d.rearrive;
    if Governing(cfg.faults, t).Some? {
      assert Repeat(Governing(cfg.faults, t).value.from, 0) + [] == [];
    } else {
      assert Origins(0, []) == [];
    }
  }

  lemma Hops(cfg: Config, hops: seq<Hop>, last: nat, i: nat, t: nat, d: Demand)
    requires cfg.Valid() && IsPath(cfg, hops, last) && OnPath(cfg, hops, last, i, t, d) && i < |hops| && t == hops[i].at
    ensures OnPath(cfg, hops, last, i + 1, t + 1, MinuteOf(cfg, Steering(cfg, hops), t, d))
  {
    var s := Source(cfg, hops, last);
    HopGoesOn(cfg, hops, last, i);
    SourceIsFirst(cfg, hops, last);
    hide IsPath, Governing, ReturnAt, DrawAt, AllRerolled, Rerolled, CanHop, MinuteOf;
    var noted := Noted(d.(draws := d.draws + 1, rearrive := map[]), t, if i == 0 then 1 else 0);
    OneInHand(cfg, Steering(cfg, hops), t, d, if i == 0 then 1 else 0, s);
    HopRerolls(cfg, hops, last, i, noted);
  }

  /** A blacked-out minute with a single arrival in hand. */
  lemma OneInHand(cfg: Config, oracle: Oracle, t: nat, d: Demand, arrivals: nat, source: nat)
    requires cfg.Valid() && Governing(cfg.faults, t).Some? && oracle.poisson(d.draws) == arrivals
    requires if arrivals == 0 then d.rearrive == map[t := [source]]
             else arrivals == 1 && d.rearrive == map[] && Governing(cfg.faults, t).value.from == source
    ensures MinuteOf(cfg, oracle, t, d)
         == Rerolled(cfg, oracle, Governing(cfg.faults, t).value, source,
                     Noted(d.(draws := d.draws + 1, rearrive := map[]), t, arrivals))
  {
    hide Governing, AllRerolled, Rerolled;
    var f := Governing(cfg.faults, t).value;
    assert Repeat(f.from, arrivals) + DueAt(d.rearrive, t) == [source];
    assert d.rearrive - {t} == map[];
    OneRerolled(cfg, oracle, f, source, Noted(d.(draws := d.draws + 1, rearrive := map[]), t, arrivals));
  }

  lemma HopRerolls(cfg: Config, hops: seq<Hop>, last: nat, i: nat, d: Demand)
    requires cfg.Valid() && IsPath(cfg, hops, last) && i < |hops| && d.rearrive == map[]
    requires d.draws + cfg.start == hops[i].at + 2 * i + 1
    ensures CanHop(cfg, hops[i], AtOf(hops, last, i + 1))
    ensures Rerolled(cfg, Steering(cfg, hops), Governing(cfg.faults, hops[i].at).value, Source(cfg, hops, last), d)
         == d.(draws := d.draws + 2, rearrive := map[AtOf(hops, last, i + 1) := [Source(cfg, hops, last)]])
  {
    HopGoesOn(cfg, hops, last, i);
    DrawIsHops(cfg, hops, last, 0, i, d.draws + 1);
    hide IsPath, Governing, ReturnAt, DrawAt, Source;
    var oracle, f, next := Steering(cfg, hops), Governing(cfg.faults, hops[i].at).value, AtOf(hops, last, i + 1);
    assert oracle.float(d.draws) == 0.0 && oracle.integer(d.draws + 1) == hops[i].draw;
    ScheduledAlone(cfg, oracle, f, Source(cfg, hops, last), d, next);
  }

  lemma ScheduledAlone(cfg: Config, oracle: Oracle, f: FaultSpec, source: nat, d: Demand, next: nat)
    requires f.Validate() && f.kind.Blackout? && d.rearrive == map[] && oracle.float(d.draws) < f.recoveredFraction
    requires next == ReturnAt(f, oracle.integer(d.draws + 1)) < cfg.end
    ensures Rerolled(cfg, oracle, f, source, d) == d.(draws := d.draws + 2, rearrive := map[next := [source]])
  {
    hide ReturnAt;
    assert [] + [source] == [source] && d.rearrive[next := [source]] == map[next := [source]];
  }

  lemma SourceIsFirst(cfg: Config, hops: seq<Hop>, last: nat)
    requires IsPath(cfg, hops, last)
    ensures Governing(cfg.faults, hops[0].at).Some? && Governing(cfg.faults, hops[0].at).value.from == Source(cfg, hops, last)
  {
    HopGoesOn(cfg, hops, last, 0);
  }

  lemma OneRerolled(cfg: Config, oracle: Oracle, f: FaultSpec, source: nat, d: Demand)
    requires f.Validate() && f.kind.Blackout?
    ensures AllRerolled(cfg, oracle, f, [source], d) == Rerolled(cfg, oracle, f, source, d)
  {
    assert [source][..0] == [];
  }

  /** The arrival is back as a row, and nothing else happens. */
  ghost predicate Landed(cfg: Config, hops: seq<Hop>, last: nat, d: Demand)
    requires IsPath(cfg, hops, last)
  {
    && d.draws + cfg.start > hops[0].at && d.rearrive == map[]
    && d.origins == [Some(Source(cfg, hops, last))] && d.suppressed == [SuppressedMinute(hops[0].at, 1)]
  }

  lemma Lands(cfg: Config, hops: seq<Hop>, last: nat, d: Demand)
    requires cfg.Valid() && IsPath(cfg, hops, last) && OnPath(cfg, hops, last, |hops|, last, d)
    requires Governing(cfg.faults, last).None?
    ensures Landed(cfg, hops, last, MinuteOf(cfg, Steering(cfg, hops), last, d))
  {
    hide AllEntered, Source, Governing, IsPath, DrawAt;
    var oracle, s := Steering(cfg, hops), Source(cfg, hops, last);
    var taken := d.(draws := d.draws + 1, rearrive := d.rearrive - {last});
    assert d.rearrive - {last} == map[];
    assert Origins(0, [s]) == [Some(s)];
    OneEntered(cfg, oracle, last, Some(s), taken);
  }

  lemma OneEntered(cfg: Config, oracle: Oracle, t: nat, origin: Option<nat>, d: Demand)
    requires cfg.customers >= 1
    ensures var d' := AllEntered(cfg, oracle, t, [origin], d);
            d' == d.(draws := d'.draws, origins := d.origins + [origin]) && d'.draws >= d.draws
  {
    assert [origin][..0] == [];
    hide FreshTxn;
    FateDraws(cfg.faults, t, oracle, FreshTxn(cfg, oracle, d.draws, 0, t, origin).1, Created);
    FreshDraws(cfg, oracle, d.draws, t, origin);
  }

  lemma FreshDraws(cfg: Config, oracle: Oracle, draws: nat, t: nat, origin: Option<nat>)
    requires cfg.customers >= 1
    ensures FreshTxn(cfg, oracle, draws, 0, t, origin).1 > draws
  {
  }

  lemma {:induction false} FateDraws(faults: seq<FaultSpec>, t: nat, oracle: Oracle, draws: nat, state: State)
    ensures ApiFate(faults, t, oracle, draws, state).1 >= draws
  {
    if faults != [] {
      var f, rest := faults[0], faults[1..];
      var hit := oracle.float(draws) < f.rate;
      if f.Active(t) && f.kind.ApiLatency? {
        FateDraws(rest, t, oracle, draws + 1, if hit then State.Abandoned else state);
      } else if f.Active(t) && f.kind.Api5xx? && state != State.Abandoned {
        FateDraws(rest, t, oracle, draws + 1, if hit then State.AuthFail else state);
      } else {
        FateDraws(rest, t, oracle, draws, state);
      }
    }
  }

  lemma {:induction false} StaysLanded(cfg: Config, hops: seq<Hop>, last: nat, t: nat, d: Demand)
    requires cfg.Valid() && IsPath(cfg, hops, last) && Landed(cfg, hops, last, d)
    ensures Landed(cfg, hops, last, DemandFrom(cfg, Steering(cfg, hops), t, d))
    decreases cfg.end - t
  {
    hide MinuteOf, Source, IsPath, DrawAt;
    if t < cfg.end {
      NothingToDo(cfg, Steering(cfg, hops), t, d);
      StaysLanded(cfg, hops, last, t + 1, MinuteOf(cfg, Steering(cfg, hops), t, d));
    }
  }

  lemma {:induction false} FollowsPath(cfg: Config, hops: seq<Hop>, last: nat, i: nat, t: nat, d: Demand)
    requires cfg.Valid() && IsPath(cfg, hops, last) && OnPath(cfg, hops, last, i, t, d) && Governing(cfg.faults, last).None?
    ensures Landed(cfg, hops, last, DemandFrom(cfg, Steering(cfg, hops), t, d))
    decreases cfg.end - t
  {
    hide MinuteOf, Source, Landed, IsPath, DrawAt;
    var oracle := Steering(cfg, hops);
    PathEnds(cfg, hops, last, i);
    if t < AtOf(hops, last, i) {
      NothingToDo(cfg, oracle, t, d);
      FollowsPath(cfg, hops, last, i, t + 1, MinuteOf(cfg, oracle, t, d));
    } else if i < |hops| {
      Hops(cfg, hops, last, i, t, d);
      FollowsPath(cfg, hops, last, i + 1, t + 1, MinuteOf(cfg, oracle, t, d));
    } else {
      Lands(cfg, hops, last, d);
      StaysLanded(cfg, hops, last, t + 1, MinuteOf(cfg, oracle, t, d));
    }
  }

  lemma PathEnds(cfg: Config, hops: seq<Hop>, last: nat, i: nat)
    requires IsPath(cfg, hops, last) && i <= |hops|
    ensures AtOf(hops, last, i) < cfg.end
  {
    PathGoesOn(cfg, hops, last, 0, |hops|);
    if 0 < i {
      PathGoesOn(cfg, hops, last, 0, i);
    }
  }

  /** ... and on every such window some random source makes a run fire it. */
  lemma FiresIf(cfg: Config, from: nat, to: nat, hops: seq<Hop>, last: nat)
    requires cfg.Valid() && Firing(cfg, from, to, hops, last)
    ensures Fires(cfg, Steering(cfg, hops), from, to)
  {
    PathGoesOn(cfg, hops, last, 0, |hops|);
    FollowsPath(cfg, hops, last, 0, cfg.start, NO_DEMAND);
    var d, s, W := DemandOf(cfg, Steering(cfg, hops)), Source(cfg, hops, last), Window(from, to);
    hide Source, DemandFrom, IsPath, Steering;
    assert d.suppressed[..0] == [] && d.origins[..0] == [];
    assert ReturnedIn(d.origins[..0], W) == 0 && SuppressedIn(d.suppressed[..0], from, to) == 0;
  }

  /** The golden numbers of a run. The guard fires exactly if the run's demand says
      so, which no random source can bring about unless a blackout outlasts the
      window with demand that can come back. */
  method ExpectedOfRun(cfg: Config, oracle: Oracle, from: nat, to: nat, sla: nat)
    returns (res: RunResult, r: Result<Expected, GuardError>, ghost lost: seq<nat>)
    requires cfg.Valid()
    ensures LedgerOk(res.ledger, cfg.end)
    ensures r.Failure? <==> Fires(cfg, oracle, from, to)
    ensures !CanFire(cfg, from, to) ==> r.Success?
    ensures r.Success? ==>
              && Matches(r.value, res.ledger, from, to, sla)
              && r.value.netLost == CountIn(lost, Window(from, to)) + EarlierIn(cfg.faults, res.suppressed, from, to)
                                    - LaterIn(cfg.faults, res.suppressed, from, to) >= 0
  {
    hide Matches, DemandOf, LedgerOk, CreatedOpen, InOrder, CanFire;
    res, lost := Run(cfg, oracle);
    NetLoss(cfg, oracle, from, to);
    RecoveredIsReturned(res.ledger, Window(from, to));
    r := ComputeExpected(res, from, to, sla);
    if Fires(cfg, oracle, from, to) {
      FiresOnlyIf(cfg, oracle, from, to);
    }
  }

  /** A run that fires the guard, for every window on which one can. */
  method FiringRun(cfg: Config, from: nat, to: nat, sla: nat, hops: seq<Hop>, last: nat)
    returns (res: RunResult, r: Result<Expected, GuardError>)
    requires cfg.Valid() && Firing(cfg, from, to, hops, last)
    ensures r.Failure?
  {
    hide Fires, DemandOf, Steering, IsPath, LaterIn, EarlierIn, Matches;
    ghost var lost;
    FiresIf(cfg, from, to, hops, last);
    res, r, lost := ExpectedOfRun(cfg, Steering(cfg, hops), from, to, sla);
  }

  /** Ten minutes of blackout, of which the window sees the first five. */
  method CuttingABlackoutCanFireTheGuard() returns (res: RunResult, r: Result<Expected, GuardError>)
    ensures r.Failure?
  {
    var blackout := FaultSpec(Blackout, 10, 20, 0.0, Queue.Capture, 1.0, 1);
    var cfg := Config(0, 100, [blackout], 1, 0.0, 0, 0, 1, 1);
    assert Blackouts(cfg.faults) == [Interval(10, 20)];
    assert Governing(cfg.faults, 17) == Some(blackout);
    assert Governing(cfg.faults, 20) == Governing(cfg.faults[1..], 20) == None;
    assert Disjoint(multiset(Blackouts(cfg.faults))) && cfg.Valid();
    var hops := [Hop(17, 0)];
    assert ReturnAt(blackout, 0) == 20;
    assert CanHop(cfg, hops[0], AtOf(hops, 20, 1));
    assert IsPath(cfg, hops, 20) && Source(cfg, hops, 20) == 10;
    res, r := FiringRun(cfg, 5, 15, 0, hops, 20);
  }

  /** A window no blackout which starts in it outlasts is safe, even if it begins
      inside one. */
  lemma NoOverhangIsSafe(cfg: Config, from: nat, to: nat)
    requires forall f, t: nat :: f in cfg.faults && f.kind.Blackout? && f.Active(t) && to <= t < cfg.end ==> !InWindow(f.from, from, to)
    ensures !CanFire(cfg, from, to)
  {
  }
}
