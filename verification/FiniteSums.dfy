/** Sums over the values of finite maps, independent of any order. */
module FiniteSums {
  ghost function Sum<K>(m: map<K, int>): int
    decreases |m|
  {
    if m == map[] then 0 else
      var k :| k in m;
      m[k] + Sum(m - {k})
  }

  /** Any key may be taken out first. */
  lemma {:induction false} SumRemove<K>(m: map<K, int>, k: K)
    requires k in m
    ensures Sum(m) == m[k] + Sum(m - {k})
    decreases |m|
  {
    var p :| p in m && Sum(m) == m[p] + Sum(m - {p});
    if p != k {
      SumRemove(m - {p}, k);
      SumRemove(m - {k}, p);
      assert m - {p} - {k} == m - {k} - {p};
    }
  }

  lemma SumUpdate<K>(m: map<K, int>, k: K, v: int)
    ensures Sum(m[k := v]) == Sum(m) - (if k in m then m[k] else 0) + v
  {
    SumRemove(m[k := v], k);
    assert m[k := v] - {k} == m - {k};
    if k in m {
      SumRemove(m, k);
    } else {
      assert m - {k} == m;
    }
  }

  lemma {:induction false} SumNonNegative<K>(m: map<K, int>)
    requires forall k :: k in m ==> m[k] >= 0
    ensures Sum(m) >= 0
    decreases |m|
  {
    if m != map[] {
      var k :| k in m;
      SumRemove(m, k);
      SumNonNegative(m - {k});
    }
  }

  lemma SumPositive<K>(m: map<K, int>)
    requires m != map[] && forall k :: k in m ==> m[k] > 0
    ensures Sum(m) > 0
  {
    var k :| k in m;
    SumRemove(m, k);
    SumNonNegative(m - {k});
  }

  lemma {:induction false} SumOfOnes<K>(m: map<K, int>)
    requires forall k :: k in m ==> m[k] == 1
    ensures Sum(m) == |m|
    decreases |m|
  {
    if m != map[] {
      var k :| k in m;
      SumRemove(m, k);
      CardRemove(m, k);
      SumOfOnes(m - {k});
    }
  }

  lemma {:induction false} SumDifference<K>(a: map<K, int>, b: map<K, int>, c: map<K, int>)
    requires a.Keys == b.Keys == c.Keys && forall k :: k in c ==> c[k] == a[k] - b[k]
    ensures Sum(c) == Sum(a) - Sum(b)
    decreases |a|
  {
    if a == map[] {
      assert b == map[] && c == map[];
    } else {
      var k :| k in a;
      SumRemove(a, k);
      SumRemove(b, k);
      SumRemove(c, k);
      SumDifference(a - {k}, b - {k}, c - {k});
    }
  }

  /** Zeros do not count. */
  lemma {:induction false} SumPadded<K>(a: map<K, int>, b: map<K, int>)
    requires b.Keys <= a.Keys && forall k :: k in a ==> a[k] == if k in b then b[k] else 0
    ensures Sum(a) == Sum(b)
    decreases |a|
  {
    if a == map[] {
      assert b == map[];
    } else {
      var k :| k in a;
      SumRemove(a, k);
      if k in b {
        SumRemove(b, k);
      } else {
        assert b - {k} == b;
      }
      SumPadded(a - {k}, b - {k});
    }
  }

  lemma {:induction false} SumSplit<K>(m: map<K, int>, part: set<K>)
    ensures Sum(m) == Sum(map k | k in m && k in part :: m[k]) + Sum(m - part)
    decreases |m|
  {
    var inside := map k | k in m && k in part :: m[k];
    if m == map[] {
      assert inside == map[] && m - part == map[];
    } else {
      var k :| k in m;
      var rest := m - {k};
      SumRemove(m, k);
      SumSplit(rest, part);
      if k in part {
        SumRemove(inside, k);
        assert inside - {k} == map x | x in rest && x in part :: rest[x];
        assert m - part == rest - part;
      } else {
        SumRemove(m - part, k);
        assert inside == map x | x in rest && x in part :: rest[x];
        assert m - part - {k} == rest - part;
      }
    }
  }

  ghost function Class<K, G>(m: map<K, int>, group: map<K, G>, g: G): map<K, int>
    requires group.Keys == m.Keys
  {
    map k | k in m && group[k] == g :: m[k]
  }

  lemma ClassApart<K, G>(m: map<K, int>, group: map<K, G>, g: G, x: G)
    requires group.Keys == m.Keys && x != g
    ensures var part := Class(m, group, g).Keys; Class(m - part, group - part, x) == Class(m, group, x)
  {
  }

  lemma ClassIsPart<K, G>(m: map<K, int>, group: map<K, G>, g: G)
    requires group.Keys == m.Keys
    ensures var part := Class(m, group, g).Keys; Class(m, group, g) == map k | k in m && k in part :: m[k]
  {
  }

  /** Adding up group by group is adding up one by one. */
  lemma {:induction false} SumByGroup<K, G>(m: map<K, int>, group: map<K, G>, sums: map<G, int>)
    requires group.Keys == m.Keys
    requires forall k :: k in m ==> group[k] in sums
    requires forall g :: g in sums ==> sums[g] == Sum(Class(m, group, g))
    ensures Sum(sums) == Sum(m)
    decreases |sums|
  {
    if sums == map[] {
      assert m == map[];
    } else {
      var g :| g in sums;
      var part := Class(m, group, g).Keys;
      SumRemove(sums, g);
      SumSplit(m, part);
      ClassIsPart(m, group, g);
      forall x | x in sums - {g}
        ensures (sums - {g})[x] == Sum(Class(m - part, group - part, x))
      {
        ClassApart(m, group, g, x);
      }
      hide Class;
      SumByGroup(m - part, group - part, sums - {g});
    }
  }

  lemma {:induction false} KeysCount<K, V>(m: map<K, V>)
    ensures |m.Keys| == |m|
  {
  }

  lemma CardUpdate<K, V>(m: map<K, V>, k: K, v: V)
    ensures |m[k := v]| == |m| + if k in m then 0 else 1
  {
    assert m[k := v].Keys == m.Keys + {k};
  }

  lemma CardRemove<K, V>(m: map<K, V>, k: K)
    ensures |m - {k}| == |m| - if k in m then 1 else 0
  {
    assert (m - {k}).Keys == m.Keys - {k};
  }
}
