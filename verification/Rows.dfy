/** Filtering the rows of a table by a key column. */
module Rows {
  import opened Common

  /** The rows whose key is the given one, in table order. */
  function Select<T, K(==)>(rows: seq<T>, keys: seq<K>, key: K): (r: seq<T>)
    requires |keys| == |rows|
    ensures |r| <= |rows|
  {
    if rows == [] then []
    else
      var n := |rows| - 1;
      Select(rows[..n], keys[..n], key) + (if keys[n] == key then [rows[n]] else [])
  }

  lemma {:induction false} SelectConcat<T, K>(a: seq<T>, ka: seq<K>, b: seq<T>, kb: seq<K>, key: K)
    requires |ka| == |a| && |kb| == |b|
    ensures Select(a + b, ka + kb, key) == Select(a, ka, key) + Select(b, kb, key)
  {
    if b == [] {
      assert a + b == a && ka + kb == ka;
    } else {
      var n := |b| - 1;
      assert (a + b)[..|a + b| - 1] == a + b[..n];
      assert (ka + kb)[..|a + b| - 1] == ka + kb[..n];
      SelectConcat(a, ka, b[..n], kb[..n], key);
    }
  }

  lemma {:induction false} SelectAll<T, K>(rows: seq<T>, keys: seq<K>, key: K)
    requires |keys| == |rows| && forall k :: 0 <= k < |rows| ==> keys[k] == key
    ensures Select(rows, keys, key) == rows
  {
    if rows != [] { SelectAll(rows[..|rows| - 1], keys[..|rows| - 1], key); }
  }

  lemma {:induction false} SelectNone<T, K>(rows: seq<T>, keys: seq<K>, key: K)
    requires |keys| == |rows| && forall k :: 0 <= k < |rows| ==> keys[k] != key
    ensures Select(rows, keys, key) == []
  {
    if rows != [] { SelectNone(rows[..|rows| - 1], keys[..|rows| - 1], key); }
  }

  /** Rows appended after a table either all have the key or none has; in the first case none of the table does. */
  lemma SelectAppended<T, K>(rows: seq<T>, keys: seq<K>, more: seq<T>, moreKeys: seq<K>, key: K, newest: bool)
    requires |keys| == |rows| && |moreKeys| == |more|
    requires forall k :: 0 <= k < |more| ==> (moreKeys[k] == key) == newest
    requires newest ==> forall k :: 0 <= k < |rows| ==> keys[k] != key
    ensures Select(rows + more, keys + moreKeys, key) == if newest then more else Select(rows, keys, key)
  {
    SelectConcat(rows, keys, more, moreKeys, key);
    if newest {
      SelectNone(rows, keys, key);
      SelectAll(more, moreKeys, key);
    } else {
      SelectNone(more, moreKeys, key);
    }
  }

  // ---- Order and duplicates in a selection -----------------------------------------------

  predicate Ascending(keys: seq<int>) { forall i, j :: 0 <= i < j < |keys| ==> keys[i] <= keys[j] }

  lemma {:induction false} SelectMembers<T, K>(rows: seq<T>, keys: seq<K>, key: K, x: T)
    requires |keys| == |rows|
    ensures x in Select(rows, keys, key) <==> exists k :: 0 <= k < |rows| && rows[k] == x && keys[k] == key
  {
    if rows != [] {
      var n := |rows| - 1;
      SelectMembers(rows[..n], keys[..n], key, x);
      if k :| 0 <= k < |rows| && rows[k] == x && keys[k] == key {
        if k < n { assert rows[..n][k] == x && keys[..n][k] == key; }
      }
    }
  }

  lemma {:induction false} SelectIsDistinct<T, K>(rows: seq<T>, keys: seq<K>, key: K)
    requires |keys| == |rows| && Distinct(rows)
    ensures Distinct(Select(rows, keys, key))
  {
    if rows != [] {
      var n := |rows| - 1;
      SelectIsDistinct(rows[..n], keys[..n], key);
      SelectMembers(rows[..n], keys[..n], key, rows[n]);
    }
  }

  /** Rows that ascend within a key stay ascending when selected. */
  lemma {:induction false} SelectAscends<K>(orders: seq<int>, keys: seq<K>, key: K)
    requires |keys| == |orders|
    requires forall i, j :: 0 <= i < j < |orders| && keys[i] == key && keys[j] == key ==> orders[i] <= orders[j]
    ensures Ascending(Select(orders, keys, key))
  {
    if orders != [] {
      var n := |orders| - 1;
      SelectAscends(orders[..n], keys[..n], key);
      var before := Select(orders[..n], keys[..n], key);
      forall i | 0 <= i < |before| && keys[n] == key ensures before[i] <= orders[n] {
        SelectMembers(orders[..n], keys[..n], key, before[i]);
      }
    }
  }

  ghost predicate SameMembers<T(!new)>(a: seq<T>, b: seq<T>) { forall x :: x in a <==> x in b }

  lemma SameElements<T(!new)>(a: seq<T>, b: seq<T>)
    requires multiset(a) == multiset(b) && Distinct(b)
    ensures Distinct(a)
    ensures SameMembers(a, b)
  {
    forall x ensures x in a <==> x in b { assert x in multiset(a) <==> x in multiset(b); }
    forall i, j | 0 <= i < j < |a| ensures a[i] != a[j] {
      if a[i] == a[j] {
        assert a == a[..i] + [a[i]] + a[i + 1..j] + [a[j]] + a[j + 1..];
        assert multiset(a)[a[i]] >= 2;
        OnceInDistinct(b, a[i]);
      }
    }
  }

  lemma {:induction false} OnceInDistinct<T>(s: seq<T>, x: T)
    requires Distinct(s)
    ensures multiset(s)[x] <= 1
  {
    if s != [] {
      var n := |s| - 1;
      assert s == s[..n] + [s[n]];
      OnceInDistinct(s[..n], x);
      if x == s[n] { assert x !in s[..n]; }
    }
  }

  /** A list without duplicates, ascending, with the elements of a strictly ascending one is that one. */
  lemma {:induction false} SortedListing<T(!new)>(found: seq<T>, orders: seq<int>, expected: seq<T>, expectedOrders: seq<int>)
    requires |orders| == |found| && |expectedOrders| == |expected|
    requires Distinct(found) && Ascending(orders)
    requires SameMembers(found, expected)
    requires forall i, j :: 0 <= i < j < |expected| ==> expectedOrders[i] < expectedOrders[j]
    requires forall i, j :: 0 <= i < |found| && 0 <= j < |expected| && found[i] == expected[j] ==> orders[i] == expectedOrders[j]
    ensures found == expected
  {
    assert found != [] ==> found[0] in found;
    if expected != [] {
      var m := |expected| - 1;
      var last := expected[m];
      assert last in found;
      var i :| 0 <= i < |found| && found[i] == last;
      var n := |found| - 1;
      assert found[n] in expected;
      var j :| 0 <= j < |expected| && expected[j] == found[n];
      assert orders[i] <= orders[n];
      assert j == m;
      ExpectedIsDistinct(found, orders, expected, expectedOrders);
      WithoutLast(found, expected);
      SortedListing(found[..n], orders[..n], expected[..m], expectedOrders[..m]);
      assert found == found[..n] + [last] && expected == expected[..m] + [last];
    }
  }

  lemma ExpectedIsDistinct<T(!new)>(found: seq<T>, orders: seq<int>, expected: seq<T>, expectedOrders: seq<int>)
    requires |orders| == |found| && |expectedOrders| == |expected|
    requires SameMembers(found, expected)
    requires forall i, j :: 0 <= i < j < |expected| ==> expectedOrders[i] < expectedOrders[j]
    requires forall i, j :: 0 <= i < |found| && 0 <= j < |expected| && found[i] == expected[j] ==> orders[i] == expectedOrders[j]
    ensures Distinct(expected)
  {
    forall i, j | 0 <= i < j < |expected| ensures expected[i] != expected[j] {
      assert expected[i] in found;
      var k :| 0 <= k < |found| && found[k] == expected[i];
    }
  }

  lemma WithoutLast<T(!new)>(a: seq<T>, b: seq<T>)
    requires Distinct(a) && Distinct(b) && a != [] && b != [] && a[|a| - 1] == b[|b| - 1]
    requires SameMembers(a, b)
    ensures SameMembers(a[..|a| - 1], b[..|b| - 1])
  {
    var n, m := |a| - 1, |b| - 1;
    assert a == a[..n] + [a[n]] && b == b[..m] + [b[m]];
    assert a[n] !in a[..n] && b[m] !in b[..m];
    forall x ensures x in a[..n] <==> x in b[..m] {
      assert x in a[..n] <==> x in a && x != a[n];
      assert x in b[..m] <==> x in b && x != b[m];
    }
  }
}
