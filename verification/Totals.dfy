/** The sum of a map's values, whatever the order they are visited in. */
module Totals {
  ghost function Total<T(!new)>(m: map<T, nat>): nat
    decreases |m|
  {
    if m == map[] then 0
    else
      var k :| k in m;
      m[k] + Total(m - {k})
  }

  lemma {:induction false} TotalWithout<T(!new)>(m: map<T, nat>, k: T)
    requires k in m
    ensures Total(m) == m[k] + Total(m - {k})
    decreases |m|
  {
    var c :| c in m && Total(m) == m[c] + Total(m - {c});
    if c != k {
      TotalWithout(m - {c}, k);
      TotalWithout(m - {k}, c);
      assert m - {c} - {k} == m - {k} - {c};
    }
  }

  lemma {:induction false} TotalGrows<T(!new)>(small: map<T, nat>, big: map<T, nat>)
    requires forall k | k in small :: k in big && small[k] <= big[k]
    ensures Total(small) <= Total(big)
    decreases |small|
  {
    if small != map[] {
      var k :| k in small;
      TotalWithout(small, k);
      TotalWithout(big, k);
      TotalGrows(small - {k}, big - {k});
    }
  }
}
