/** Sums over the values of a finite map. */
module MapSums {

  ghost function Sum<K(!new)>(m: map<K, nat>): nat {
    if m == map[] then 0
    else
      var k :| k in m;
      m[k] + Sum(m - {k})
  }

  lemma {:induction false} SumSplit<K(!new)>(m: map<K, nat>, k: K)
    requires k in m
    ensures Sum(m) == m[k] + Sum(m - {k})
    decreases |m|
  {
    var first :| first in m && Sum(m) == m[first] + Sum(m - {first});
    if first != k {
      SumSplit(m - {first}, k);
      SumSplit(m - {k}, first);
      assert m - {first} - {k} == m - {k} - {first};
    }
  }

  /** Storing a value at one key changes the sum by the difference at that key. */
  lemma SumStore<K(!new)>(m: map<K, nat>, k: K, v: nat)
    ensures Sum(m[k := v]) == Sum(m) - (if k in m then m[k] else 0) + v
  {
    SumSplit(m[k := v], k);
    assert m[k := v] - {k} == m - {k};
    if k in m {
      SumSplit(m, k);
    } else {
      assert m - {k} == m;
    }
  }

  lemma {:induction false} SumWithout<K(!new)>(m: map<K, nat>, gone: set<K>)
    requires forall k :: k in gone ==> k in m && m[k] == 0
    ensures Sum(m - gone) == Sum(m)
    decreases |gone|
  {
    if gone == {} {
      assert m - gone == m;
    } else {
      var k :| k in gone;
      SumSplit(m, k);
      SumWithout(m - {k}, gone - {k});
      assert m - {k} - (gone - {k}) == m - gone;
    }
  }

  lemma SumAtLeast<K(!new)>(m: map<K, nat>, k: K)
    requires k in m
    ensures m[k] <= Sum(m)
  {
    SumSplit(m, k);
  }

  lemma {:induction false} SumZero<K(!new)>(m: map<K, nat>)
    requires forall k :: k in m ==> m[k] == 0
    ensures Sum(m) == 0
    decreases |m|
  {
    if m != map[] {
      var k :| k in m;
      SumSplit(m, k);
      SumZero(m - {k});
    }
  }

  /** Fewer keys and smaller values make a smaller sum. */
  lemma {:induction false} SumLess<K(!new)>(m: map<K, nat>, n: map<K, nat>)
    requires forall k :: k in m ==> k in n && m[k] <= n[k]
    ensures Sum(m) <= Sum(n)
    decreases |m|
  {
    if m != map[] {
      var k :| k in m;
      SumSplit(m, k);
      SumSplit(n, k);
      SumLess(m - {k}, n - {k});
    }
  }

  /** What the values of one key differ by, the sums differ by at least. */
  lemma SumRoom<K(!new)>(m: map<K, nat>, n: map<K, nat>, k: K, room: nat)
    requires k in m && k in n && m[k] + room <= n[k] && forall j :: j in m ==> j in n && m[j] <= n[j]
    ensures Sum(m) + room <= Sum(n)
  {
    SumStore(m, k, m[k] + room);
    SumLess(m[k := m[k] + room], n);
  }
}
