/**
 Sums over finite maps. A sum does not depend on the order in which a map is
 walked, so every loop over a map below is proved for all iteration orders.
 */
module Sums {

  ghost function Pick<K, V>(m: map<K, V>): (k: K)
    requires m != map[]
    ensures k in m
  {
    assert m.Keys != {};
    var k :| k in m;
    k
  }

  ghost function Sum<K>(m: map<K, int>): int
    decreases |m|
  {
    if m == map[] then
      0
    else
      var k := Pick(m);
      assert (m - {k}).Keys == m.Keys - {k};
      m[k] + Sum(m - {k})
  }

  lemma {:induction false} SumRemove<K>(m: map<K, int>, k: K)
    requires k in m
    ensures Sum(m) == m[k] + Sum(m - {k})
    decreases |m|
  {
    var j := Pick(m);
    if j != k {
      assert (m - {j}).Keys == m.Keys - {j};
      assert (m - {k}).Keys == m.Keys - {k};
      SumRemove(m - {j}, k);
      SumRemove(m - {k}, j);
      assert m - {j} - {k} == m - {k} - {j};
    }
  }

  lemma SumUpdate<K>(m: map<K, int>, k: K, v: int)
    ensures Sum(m[k := v]) == Sum(m) + v - (if k in m then m[k] else 0)
  {
    SumRemove(m[k := v], k);
    if k in m {
      SumRemove(m, k);
      assert m[k := v] - {k} == m - {k};
    } else {
      assert m[k := v] - {k} == m;
    }
  }

  lemma {:induction false} SumBounds<K>(m: map<K, int>)
    requires forall k :: k in m ==> 0 <= m[k]
    ensures 0 <= Sum(m)
    ensures forall k :: k in m ==> m[k] <= Sum(m)
    decreases |m|
  {
    if m != map[] {
      forall k | k in m
        ensures m[k] <= Sum(m) && 0 <= Sum(m)
      {
        assert (m - {k}).Keys == m.Keys - {k};
        SumRemove(m, k);
        SumBounds(m - {k});
      }
      assert Pick(m) in m;
    }
  }

  lemma {:induction false} SumLe<K>(a: map<K, int>, b: map<K, int>)
    requires a.Keys == b.Keys
    requires forall k :: k in a ==> a[k] <= b[k]
    ensures Sum(a) <= Sum(b)
    decreases |a|
  {
    if a == map[] {
      assert b == map[];
    } else {
      var k := Pick(a);
      assert (a - {k}).Keys == a.Keys - {k} == (b - {k}).Keys;
      SumLe(a - {k}, b - {k});
      SumRemove(b, k);
    }
  }

  lemma Distribute(x: int, p: int, q: int)
    ensures x * (p + q) == x * p + x * q
  {
  }

  function Scaled<K>(x: int, m: map<K, int>): map<K, int> {
    map k | k in m :: x * m[k]
  }

  lemma {:induction false} SumScaled<K>(x: int, m: map<K, int>)
    ensures Sum(Scaled(x, m)) == x * Sum(m)
    decreases |m|
  {
    if m == map[] {
      assert Scaled(x, m) == map[];
    } else {
      var k := Pick(m);
      assert (m - {k}).Keys == m.Keys - {k};
      SumScaled(x, m - {k});
      SumRemove(Scaled(x, m), k);
      assert Scaled(x, m) - {k} == Scaled(x, m - {k});
      Distribute(x, m[k], Sum(m - {k}));
    }
  }

  lemma SumScaledLe<K>(x: int, a: map<K, int>, y: int, b: map<K, int>)
    requires a.Keys == b.Keys
    requires forall k :: k in a ==> Scaled(x, a)[k] <= Scaled(y, b)[k]
    ensures x * Sum(a) <= y * Sum(b)
  {
    SumScaled(x, a);
    SumScaled(y, b);
    SumLe(Scaled(x, a), Scaled(y, b));
  }

  lemma {:induction false} SumAtMost<K>(m: map<K, int>, c: int)
    requires forall k :: k in m ==> m[k] <= c
    ensures Sum(m) <= c * |m|
    decreases |m|
  {
    if m != map[] {
      var k := Pick(m);
      assert (m - {k}).Keys == m.Keys - {k};
      SumAtMost(m - {k}, c);
      Distribute(c, |m - {k}|, 1);
    }
  }

  lemma {:induction false} SumPlus<K>(a: map<K, int>, b: map<K, int>, c: map<K, int>)
    requires a.Keys == b.Keys == c.Keys
    requires forall k :: k in a ==> c[k] == a[k] + b[k]
    ensures Sum(c) == Sum(a) + Sum(b)
    decreases |a|
  {
    if a == map[] {
      assert b == map[] && c == map[];
    } else {
      var k := Pick(a);
      assert (a - {k}).Keys == a.Keys - {k} == (b - {k}).Keys == (c - {k}).Keys;
      SumPlus(a - {k}, b - {k}, c - {k});
      SumRemove(b, k);
      SumRemove(c, k);
    }
  }

  /** Entries that are zero may be added or dropped. */
  lemma {:induction false} SumIgnoresZeros<K>(small: map<K, int>, big: map<K, int>)
    requires small.Keys <= big.Keys
    requires forall k :: k in big ==> big[k] == if k in small then small[k] else 0
    ensures Sum(small) == Sum(big)
    decreases |big|
  {
    if big == map[] {
      assert small == map[];
    } else {
      var k := Pick(big);
      assert (big - {k}).Keys == big.Keys - {k};
      SumIgnoresZeros(small - {k}, big - {k});
      if k in small {
        SumRemove(small, k);
      } else {
        assert small - {k} == small;
      }
    }
  }

  lemma SumSubset<K>(small: map<K, int>, big: map<K, int>)
    requires small.Keys <= big.Keys
    requires forall k :: k in small ==> small[k] == big[k]
    requires forall k :: k in big ==> 0 <= big[k]
    ensures Sum(small) <= Sum(big)
    ensures Sum(small) == Sum(big) <==> forall k :: k in big && k !in small ==> big[k] == 0
  {
    var rest := big - small.Keys;
    SumOfParts(small, big);
    SumBounds(rest);
    if k :| k in big && k !in small && big[k] != 0 {
      assert k in rest;
    } else {
      SumIgnoresZeros(small, big);
    }
  }

  lemma SumOfParts<K>(small: map<K, int>, big: map<K, int>)
    requires small.Keys <= big.Keys
    requires forall k :: k in small ==> small[k] == big[k]
    ensures Sum(big) == Sum(small) + Sum(big - small.Keys)
  {
    assert small + (big - small.Keys) == big;
    SumSplit(small, big - small.Keys);
  }

  lemma {:induction false} SumSplit<K>(a: map<K, int>, b: map<K, int>)
    requires a.Keys !! b.Keys
    ensures Sum(a + b) == Sum(a) + Sum(b)
    decreases |b|
  {
    if b == map[] {
      assert a + b == a;
    } else {
      var k := Pick(b);
      MergeRemove(a, b, k);
      SumSplit(a, b - {k});
      SumRemove(a + b, k);
    }
  }

  lemma MergeRemove<K>(a: map<K, int>, b: map<K, int>, k: K)
    requires k in b && k !in a
    ensures (a + b) - {k} == a + (b - {k})
    ensures (b - {k}).Keys == b.Keys - {k} && |b - {k}| < |b|
  {
    assert (b - {k}).Keys == b.Keys - {k};
  }

  // Grouping: amounts d[k].1 labelled with a group d[k].0.

  function Amounts<K, G>(d: map<K, (G, int)>): map<K, int> {
    map k | k in d :: d[k].1
  }

  function Group<K, G(==)>(d: map<K, (G, int)>, g: G): map<K, int> {
    map k | k in d && d[k].0 == g :: d[k].1
  }

  ghost function GroupSums<K, G>(d: map<K, (G, int)>, groups: set<G>): map<G, int> {
    map g | g in groups :: Sum(Group(d, g))
  }

  lemma GroupStep<K, G>(d: map<K, (G, int)>, groups: set<G>, k: K)
    requires k in d && d[k].0 in groups
    ensures Sum(GroupSums(d, groups)) == Sum(GroupSums(d - {k}, groups)) + d[k].1
    ensures Sum(Amounts(d)) == Sum(Amounts(d - {k})) + d[k].1
    ensures |d - {k}| < |d|
  {
    assert (d - {k}).Keys == d.Keys - {k};
    SumRemove(Amounts(d), k);
    assert Amounts(d) - {k} == Amounts(d - {k});
    var rest, g := d - {k}, d[k].0;
    SumRemove(Group(d, g), k);
    assert Group(d, g) - {k} == Group(rest, g);
    forall h | h in groups && h != g
      ensures Group(d, h) == Group(rest, h)
    {}
    assert GroupSums(d, groups) == GroupSums(rest, groups)[g := Sum(Group(d, g))];
    SumUpdate(GroupSums(rest, groups), g, Sum(Group(d, g)));
  }

  lemma GroupsOfNothing<K, G>(d: map<K, (G, int)>, groups: set<G>)
    requires d == map[]
    ensures Sum(GroupSums(d, groups)) == 0 == Sum(Amounts(d))
  {
    assert Amounts(d) == map[];
    forall g | g in groups
      ensures Sum(Group(d, g)) == 0
    {
      assert Group(d, g) == map[];
    }
    var empty: map<G, int> := map[];
    SumIgnoresZeros(empty, GroupSums(d, groups));
  }

  /** Summing group by group gives the whole. */
  lemma {:induction false} SumByGroup<K, G>(d: map<K, (G, int)>, groups: set<G>)
    requires forall k :: k in d ==> d[k].0 in groups
    ensures Sum(GroupSums(d, groups)) == Sum(Amounts(d))
    decreases |d|
  {
    if d == map[] {
      GroupsOfNothing(d, groups);
    } else {
      var k := Pick(d);
      GroupStep(d, groups, k);
      SumByGroup(d - {k}, groups);
    }
  }

  lemma SumOfTwo<K>(p: K, q: K, x: int, y: int)
    requires p != q
    ensures Sum(map[p := x, q := y]) == x + y
  {
    var none: map<K, int> := map[];
    assert map[p := x, q := y] == none[p := x][q := y];
    SumUpdate(none, p, x);
    SumUpdate(none[p := x], q, y);
  }

  /** Walking a map in any order: the entries taken so far are those that do not remain. */
  lemma TakenStep<K, V>(m: map<K, V>, remaining: set<K>, done: map<K, V>, k: K)
    requires k in remaining && remaining <= m.Keys && done == m - remaining
    ensures done[k := m[k]] == m - (remaining - {k}) && k !in done
  {
  }

  lemma AllTaken<K, V>(m: map<K, V>)
    ensures m - {} == m && m - m.Keys == map[]
  {
  }
}
