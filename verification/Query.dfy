/**
 SELECT ... ORDER BY ... LIMIT ... OFFSET ... over a finite set of rows and a strict total
 order: the listing of the rows is unique, and a page is a slice of it.
 */
module Query {
  ghost predicate StrictTotal<T(!new)>(less: (T, T) -> bool, rows: set<T>) {
    && (forall x | x in rows :: !less(x, x))
    && (forall x, y | x in rows && y in rows && x != y :: less(x, y) || less(y, x))
    && (forall x, y, z | x in rows && y in rows && z in rows && less(x, y) && less(y, z) :: less(x, z))
  }

  ghost predicate Ascending<T(!new)>(less: (T, T) -> bool, l: seq<T>) {
    forall i, j | 0 <= i < j < |l| :: less(l[i], l[j])
  }

  /** l lists exactly these rows in ascending order. */
  ghost predicate Lists<T(!new)>(rows: set<T>, less: (T, T) -> bool, l: seq<T>) {
    Ascending(less, l) && forall x :: x in l <==> x in rows
  }

  predicate Least<T(!new)>(x: T, rows: set<T>, less: (T, T) -> bool) {
    x in rows && forall y | y in rows && y != x :: less(x, y)
  }

  lemma Asymmetric<T(!new)>(less: (T, T) -> bool, rows: set<T>, x: T, y: T)
    requires StrictTotal(less, rows) && x in rows && y in rows
    ensures !(less(x, y) && less(y, x))
  {
  }

  lemma {:induction false} LeastExists<T(!new)>(rows: set<T>, less: (T, T) -> bool) returns (x: T)
    requires rows != {} && StrictTotal(less, rows)
    ensures Least(x, rows, less)
  {
    var first :| first in rows;
    var rest := rows - {first};
    assert forall z | z in rows :: z == first || z in rest;
    if rest == {} {
      x := first;
    } else {
      var y := LeastExists(rest, less);
      assert y in rows && (less(y, first) || less(first, y));
      x := if less(y, first) then y else first;
      forall z | z in rows && z != x ensures less(x, z) {
        if z != first && z != y {
          assert z in rest && less(y, z);
        }
      }
    }
  }

  ghost function Listing<T(!new)>(rows: set<T>, less: (T, T) -> bool): seq<T>
    requires StrictTotal(less, rows)
  {
    if rows == {} then []
    else
      var x := (assert exists x :: Least(x, rows, less) by { var x := LeastExists(rows, less); }
                var x :| Least(x, rows, less); x);
      [x] + Listing(rows - {x}, less)
  }

  lemma {:induction false} ListingLists<T(!new)>(rows: set<T>, less: (T, T) -> bool)
    requires StrictTotal(less, rows)
    ensures Lists(rows, less, Listing(rows, less)) && |Listing(rows, less)| == |rows|
  {
    if rows != {} {
      var l := Listing(rows, less);
      var x, rest := l[0], l[1..];
      assert Least(x, rows, less);
      ListingLists(rows - {x}, less);
      assert l == [x] + Listing(rows - {x}, less);
      LeastFirst(rows, less, x, rest);
    }
  }

  lemma LeastFirst<T(!new)>(rows: set<T>, less: (T, T) -> bool, x: T, rest: seq<T>)
    requires Least(x, rows, less) && Lists(rows - {x}, less, rest)
    ensures Lists(rows, less, [x] + rest)
  {
    var l := [x] + rest;
    forall i, j | 0 <= i < j < |l| ensures less(l[i], l[j]) {
      assert l[j] == rest[j - 1] && rest[j - 1] in rest;
      if i > 0 {
        assert l[i] == rest[i - 1];
      }
    }
  }

  /** There is only one way to list rows in ascending order. */
  lemma {:induction false} ListsUnique<T(!new)>(rows: set<T>, less: (T, T) -> bool, a: seq<T>, b: seq<T>)
    requires StrictTotal(less, rows) && Lists(rows, less, a) && Lists(rows, less, b)
    ensures a == b
    decreases |a|
  {
    assert forall i | 0 <= i < |a| :: a[i] in b;
    assert forall i | 0 <= i < |b| :: b[i] in a;
    if a != [] && b != [] {
      assert a[0] in rows && b[0] in rows;
      var k :| 0 <= k < |b| && b[k] == a[0];
      var m :| 0 <= m < |a| && a[m] == b[0];
      Asymmetric(less, rows, a[0], b[0]);
      TailLists(rows, less, a);
      TailLists(rows, less, b);
      ListsUnique(rows - {a[0]}, less, a[1..], b[1..]);
    }
  }

  lemma TailLists<T(!new)>(rows: set<T>, less: (T, T) -> bool, l: seq<T>)
    requires StrictTotal(less, rows) && Lists(rows, less, l) && l != []
    ensures Lists(rows - {l[0]}, less, l[1..])
  {
    forall x ensures x in l[1..] <==> x in rows - {l[0]} {
      if x in l[1..] {
        var i :| 0 <= i < |l[1..]| && l[1..][i] == x;
        assert l[i + 1] == x && less(l[0], x);
      } else if x in rows {
        assert x in l;
      }
    }
  }

  function Slice<T>(l: seq<T>, offset: nat, limit: nat): seq<T> {
    if offset >= |l| then [] else if offset + limit >= |l| then l[offset..] else l[offset..offset + limit]
  }

  /** Runs the query: takes the least rows one after the other and skips the first offset of them. */
  method Select<T(!new, ==)>(rows: set<T>, less: (T, T) -> bool, limit: nat, offset: nat) returns (page: seq<T>)
    requires StrictTotal(less, rows)
    ensures page == Slice(Listing(rows, less), offset, limit)
  {
    var taken: seq<T>, rest := [], rows;
    assert [] + Listing(rows, less) == Listing(rows, less);
    while rest != {} && |taken| < offset + limit
      invariant rest <= rows
      invariant Listing(rows, less) == taken + Listing(rest, less)
      invariant |taken| <= offset + limit
      decreases |rest|
    {
      var x := Minimum(rest, less);
      LeastUnique(rest, less, x);
      assert taken + ([x] + Listing(rest - {x}, less)) == (taken + [x]) + Listing(rest - {x}, less);
      taken := taken + [x];
      rest := rest - {x};
    }
    page := if offset >= |taken| then [] else taken[offset..];
  }

  lemma LeastUnique<T(!new)>(rows: set<T>, less: (T, T) -> bool, x: T)
    requires StrictTotal(less, rows) && Least(x, rows, less)
    ensures Listing(rows, less) == [x] + Listing(rows - {x}, less)
  {
    var y := Listing(rows, less)[0];
    assert Least(y, rows, less);
    Asymmetric(less, rows, x, y);
  }

  method Minimum<T(!new, ==)>(rows: set<T>, less: (T, T) -> bool) returns (x: T)
    requires rows != {} && StrictTotal(less, rows)
    ensures Least(x, rows, less)
  {
    x :| x in rows;
    var rest := rows - {x};
    while rest != {}
      invariant rest <= rows && x in rows - rest
      invariant forall y | y in rows - rest && y != x :: less(x, y)
      decreases |rest|
    {
      var y :| y in rest;
      if less(y, x) {
        x := y;
      }
      rest := rest - {y};
    }
  }
}
