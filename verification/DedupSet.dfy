/** The emitter's bounded de-dup memory (emit/emitter.go): two generations of
    keys, the older discarded when the newer fills. */
module DedupSet {
  function Max(a: int, b: int): int { if a < b then b else a }

  /** The two generations with the order in which their keys arrived. */
  datatype Generations = Generations(cur: seq<string>, prev: seq<string>) {
    predicate Remembers(key: string) { key in cur || key in prev }

    /** Everything remembered, oldest first. */
    function Window(): seq<string> { prev + cur }
  }

  const NOTHING := Generations([], [])

  function Keys(s: seq<string>): set<string> { set k | k in s }

  function Insert(g: Generations, cap: int, key: string): Generations {
    if |g.cur| >= cap then Generations([key], g.cur) else Generations(g.cur + [key], g.prev)
  }

  function SeenStep(g: Generations, cap: int, key: string): Generations {
    if g.Remembers(key) then g else Insert(g, cap, key)
  }

  predicate Distinct(s: seq<string>) {
    forall i, j :: 0 <= i < j < |s| ==> s[i] != s[j]
  }

  predicate EndsWith(log: seq<string>, w: seq<string>) {
    |w| <= |log| && w == log[|log| - |w|..]
  }

  /** log lists every insertion so far. What is remembered is exactly its last n
      keys, all different, with n at least min(|log|, cap) and at most 2 * cap.
      A capacity below one acts as one. */
  ghost predicate Remembered(g: Generations, cap: int, log: seq<string>) {
    var room := Max(cap, 1);
    && EndsWith(log, g.Window())
    && Distinct(g.Window())
    && |g.cur| <= room && |g.prev| <= room
    && (|g.cur| + |g.prev| == |log| || |g.cur| + |g.prev| >= room)
  }

  lemma DistinctSuffix(s: seq<string>, i: nat)
    requires Distinct(s) && i <= |s|
    ensures Distinct(s[i..])
  {
  }

  lemma DistinctAppend(s: seq<string>, key: string)
    requires Distinct(s) && key !in s
    ensures Distinct(s + [key])
  {
  }

  lemma SuffixAppend(log: seq<string>, w: seq<string>, d: nat, key: string)
    requires EndsWith(log, w) && d <= |w|
    ensures EndsWith(log + [key], w[d..] + [key])
  {
  }

  lemma InsertedWindow(g: Generations, cap: int, key: string)
    ensures var d := if |g.cur| >= cap then |g.prev| else 0;
            Insert(g, cap, key).Window() == g.Window()[d..] + [key]
  {
  }

  lemma SeenKeepsRemembered(g: Generations, cap: int, log: seq<string>, key: string)
    requires Remembered(g, cap, log)
    ensures Remembered(SeenStep(g, cap, key), cap, if g.Remembers(key) then log else log + [key])
    ensures SeenStep(g, cap, key).Remembers(key)
  {
    if !g.Remembers(key) {
      var w, dropped := g.Window(), if |g.cur| >= cap then |g.prev| else 0;
      InsertedWindow(g, cap, key);
      SuffixAppend(log, w, dropped, key);
      DistinctSuffix(w, dropped);
      DistinctAppend(w[dropped..], key);
    }
  }

  /** One of the last n keys of a log. */
  ghost predicate AmongLast(log: seq<string>, n: nat, key: string) {
    exists k :: 0 <= k < |log| && |log| - n <= k && log[k] == key
  }

  lemma SuffixHolds(log: seq<string>, w: seq<string>, key: string)
    requires EndsWith(log, w)
    ensures key in w <==> AmongLast(log, |w|, key)
  {
    var d := |log| - |w|;
    if key in w {
      var j :| 0 <= j < |w| && w[j] == key;
      assert log[d + j] == key;
    }
    if k :| 0 <= k < |log| && d <= k && log[k] == key {
      assert w[k - d] == key;
    }
  }

  /** A key is suppressed exactly if it is one of the last n inserted, for the n
      remembered: never fewer than cap unless no more were, never over 2 * cap. */
  lemma RememberedExactly(g: Generations, cap: int, log: seq<string>, key: string)
    requires Remembered(g, cap, log)
    ensures var (n, room) := (|g.Window()|, Max(cap, 1));
            && n <= |log| && n <= 2 * room && (n >= room || n == |log|)
            && (g.Remembers(key) <==> AmongLast(log, n, key))
  {
    hide Distinct, AmongLast;
    SuffixHolds(log, g.Window(), key);
  }

  /** A key inserted among the last cap insertions is suppressed. */
  lemma RecentIsRemembered(g: Generations, cap: int, log: seq<string>, i: nat)
    requires Remembered(g, cap, log) && i < |log| && |log| - i <= Max(cap, 1)
    ensures g.Remembers(log[i])
  {
    RememberedExactly(g, cap, log, log[i]);
    hide Remembered;
  }

  /** Only a key inserted among the last 2 * cap is. */
  lemma RememberedIsRecent(g: Generations, cap: int, log: seq<string>, key: string)
    requires Remembered(g, cap, log) && g.Remembers(key)
    ensures exists i :: 0 <= i < |log| && log[i] == key && |log| - i <= 2 * Max(cap, 1)
  {
    RememberedExactly(g, cap, log, key);
    hide Remembered;
    var i :| 0 <= i < |log| && |log| - |g.Window()| <= i && log[i] == key;
  }

  /** A set of keys on the heap: the two generations swap and reuse them. */
  class KeySet {
    var keys: set<string>

    constructor ()
      ensures keys == {}
    {
      keys := {};
    }

    method Add(key: string)
      modifies this
      ensures keys == old(keys) + {key}
    {
      keys := keys + {key};
    }

    method Clear()
      modifies this
      ensures keys == {}
    {
      keys := {};
    }
  }

  class TwoGenSet {
    const cap: int
    var cur: KeySet
    var prev: KeySet?
    ghost var gens: Generations
    ghost var log: seq<string>

    ghost function Repr(): set<object>
      reads this
    {
      var older: set<object> := if prev == null then {} else {prev};
      {this, cur} + older
    }

    /** The two maps hold what the ordered generations do. */
    ghost predicate Represented()
      reads this, Repr()
    {
      && cur != prev
      && cur.keys == Keys(gens.cur) && |cur.keys| == |gens.cur|
      && (if prev == null then gens.prev == [] else prev.keys == Keys(gens.prev))
    }

    ghost predicate Valid()
      reads this, Repr()
    {
      Represented() && Remembered(gens, cap, log)
    }

    constructor (capacity: int)
      ensures Valid() && cap == capacity && gens == NOTHING && log == []
      ensures fresh(Repr())
    {
      cap, prev := capacity, null;
      cur := new KeySet();
      gens, log := NOTHING, [];
    }

    /** Whether the key is remembered; it is from now on. */
    method Seen(key: string) returns (seen: bool)
      requires Valid()
      modifies Repr()
      ensures Valid() && fresh(Repr() - old(Repr()))
      ensures seen == old(gens).Remembers(key)
      ensures gens == SeenStep(old(gens), cap, key)
      ensures log == if seen then old(log) else old(log) + [key]
    {
      SeenKeepsRemembered(gens, cap, log, key);
      seen := Admit(key);
    }

    method Admit(key: string) returns (seen: bool)
      requires Represented()
      modifies Repr()
      ensures Represented() && fresh(Repr() - old(Repr()))
      ensures seen == old(gens).Remembers(key)
      ensures gens == SeenStep(old(gens), cap, key)
      ensures log == if seen then old(log) else old(log) + [key]
    {
      if key in cur.keys {
        return true;
      }
      if prev != null && key in prev.keys {
        return true;
      }
      if |cur.keys| >= cap {
        Rotate();
      }
      AddsOne(cur.keys, key);
      cur.Add(key);
      gens, log := Generations(gens.cur + [key], gens.prev), log + [key];
      return false;
    }

    /** The newer generation becomes the older; the older map, if there is one, is
        emptied and used again. */
    method Rotate()
      requires Represented()
      modifies this, prev
      ensures Represented() && fresh(Repr() - old(Repr()))
      ensures gens == Generations([], old(gens).cur) && log == old(log)
    {
      var older := prev;
      prev := cur;
      if older != null {
        older.Clear();
        cur := older;
      } else {
        cur := new KeySet();
      }
      gens := Generations([], gens.cur);
    }
  }

  lemma AddsOne(s: set<string>, key: string)
    requires key !in s
    ensures |s + {key}| == |s| + 1
  {
  }

  // ---- the whole life of a set ----

  /** What the set holds, and all it ever inserted, after a sequence of calls. */
  function After(cap: int, calls: seq<string>): (Generations, seq<string>) {
    if calls == [] then (NOTHING, []) else
      var (g, log) := After(cap, calls[..|calls| - 1]);
      var key := calls[|calls| - 1];
      (SeenStep(g, cap, key), if g.Remembers(key) then log else log + [key])
  }

  lemma {:induction false} AlwaysTheLastKeys(cap: int, calls: seq<string>)
    ensures var (g, log) := After(cap, calls); Remembered(g, cap, log)
  {
    if calls != [] {
      var init := calls[..|calls| - 1];
      AlwaysTheLastKeys(cap, init);
      var (g, log) := After(cap, init);
      SeenKeepsRemembered(g, cap, log, calls[|calls| - 1]);
    }
  }
}
