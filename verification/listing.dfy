/**
 Turning the rows a SELECT matches into the sequence it returns: every
 matching row exactly once, ordered by a key (ORDER BY ... ASC).
 */
module Listing {

  predicate SortedBy<T>(r: seq<T>, key: T -> int) {
    forall i, j :: 0 <= i < j < |r| ==> key(r[i]) <= key(r[j])
  }

  /** Inserts `x` before the first element with a larger key. */
  function Insert<T(==)>(r: seq<T>, x: T, key: T -> int): (o: seq<T>)
    requires SortedBy(r, key)
    ensures multiset(o) == multiset(r) + multiset{x}
    ensures SortedBy(o, key)
    ensures |o| == |r| + 1
    ensures o[0] == x || (|r| > 0 && o[0] == r[0])
    decreases |r|
  {
    if |r| == 0 then [x]
    else if key(x) <= key(r[0]) then [x] + r
    else
      assert r == [r[0]] + r[1..];
      [r[0]] + Insert(r[1..], x, key)
  }

  /**
   The rows of `rows` as a sequence, each exactly once (a multiset equal to the
   set's), ordered by `key`.
   */
  method SortedRows<T(==)>(rows: set<T>, key: T -> int) returns (r: seq<T>)
    ensures multiset(r) == multiset(rows)
    ensures SortedBy(r, key)
  {
    r := [];
    var rest := rows;
    while rest != {}
      invariant rest <= rows
      invariant multiset(r) + multiset(rest) == multiset(rows)
      invariant SortedBy(r, key)
      decreases |rest|
    {
      var x :| x in rest;
      r := Insert(r, x, key);
      assert multiset(rest) == multiset(rest - {x}) + multiset{x};
      rest := rest - {x};
    }
  }

  /** The rows of `rows` as a sequence, each exactly once, in no particular order. */
  method Rows<T(==)>(rows: set<T>) returns (r: seq<T>)
    ensures multiset(r) == multiset(rows)
  {
    r := [];
    var rest := rows;
    while rest != {}
      invariant rest <= rows
      invariant multiset(r) + multiset(rest) == multiset(rows)
      decreases |rest|
    {
      var x :| x in rest;
      r := r + [x];
      assert multiset(rest) == multiset(rest - {x}) + multiset{x};
      rest := rest - {x};
    }
  }
}
