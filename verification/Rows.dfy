/** Ordered queries: rows of a table sorted by a lexicographic key, ties broken by identifier. */
module Rows {
  /** Identifiers are opaque and generated fresh; only equality and a fixed order matter. */
  datatype Id = Id(n: nat)
  type Key = (int, int, int)

  predicate KeyLess(a: Key, b: Key) {
    a.0 < b.0 || (a.0 == b.0 && (a.1 < b.1 || (a.1 == b.1 && a.2 < b.2)))
  }

  predicate NotAfter(key: map<Id, Key>, a: Id, b: Id)
    requires a in key && b in key
  {
    KeyLess(key[a], key[b]) || (key[a] == key[b] && a.n <= b.n)
  }

  predicate IsEarliest(rows: set<Id>, key: map<Id, Key>, m: Id)
    requires rows <= key.Keys
  {
    m in rows && forall x :: x in rows ==> NotAfter(key, m, x)
  }

  lemma {:induction false} EarliestExists(rows: set<Id>, key: map<Id, Key>)
    requires rows != {} && rows <= key.Keys
    ensures exists m :: IsEarliest(rows, key, m)
  {
    var x :| x in rows;
    if rows == {x} {
      assert IsEarliest(rows, key, x);
    } else {
      EarliestExists(rows - {x}, key);
      var m :| IsEarliest(rows - {x}, key, m);
      if NotAfter(key, m, x) {
        assert IsEarliest(rows, key, m);
      } else {
        forall y | y in rows - {x} ensures NotAfter(key, x, y) {
          assert NotAfter(key, m, y);
        }
        assert IsEarliest(rows, key, x);
      }
    }
  }

  lemma EarliestIsUnique(rows: set<Id>, key: map<Id, Key>, m: Id, n: Id)
    requires rows <= key.Keys && IsEarliest(rows, key, m) && IsEarliest(rows, key, n)
    ensures m == n
  {
    assert NotAfter(key, m, n) && NotAfter(key, n, m);
  }

  ghost function Earliest(rows: set<Id>, key: map<Id, Key>): (m: Id)
    requires rows != {} && rows <= key.Keys
    ensures IsEarliest(rows, key, m)
  {
    EarliestExists(rows, key);
    var m :| IsEarliest(rows, key, m);
    m
  }

  /** The rows in query order. */
  ghost function Sorted(rows: set<Id>, key: map<Id, Key>): (s: seq<Id>)
    requires rows <= key.Keys
  {
    if rows == {} then [] else
      var m := Earliest(rows, key);
      [m] + Sorted(rows - {m}, key)
  }

  /** A query returns each row exactly once, in key order. */
  lemma {:induction false} SortedIsOrdered(rows: set<Id>, key: map<Id, Key>)
    requires rows <= key.Keys
    ensures var s := Sorted(rows, key);
      && |s| == |rows|
      && (forall x :: x in s <==> x in rows)
      && (forall i, j :: 0 <= i < j < |s| ==> s[i] != s[j] && NotAfter(key, s[i], s[j]))
  {
    if rows != {} {
      var m := Earliest(rows, key);
      SortedIsOrdered(rows - {m}, key);
      var t := Sorted(rows - {m}, key);
      assert Sorted(rows, key) == [m] + t;
      forall j | 0 <= j < |t| ensures t[j] != m && NotAfter(key, m, t[j]) {
        assert t[j] in t;
      }
    }
  }

  /** Runs an ORDER BY query row by row. */
  method SortRows(rows: set<Id>, key: map<Id, Key>) returns (s: seq<Id>)
    requires rows <= key.Keys
    ensures s == Sorted(rows, key)
  {
    var rest := rows;
    s := [];
    while rest != {}
      invariant rest <= rows
      invariant s + Sorted(rest, key) == Sorted(rows, key)
      decreases rest
    {
      EarliestExists(rest, key);
      var m :| m in rest && IsEarliest(rest, key, m);
      EarliestIsUnique(rest, key, m, Earliest(rest, key));
      assert s + Sorted(rest, key) == (s + [m]) + Sorted(rest - {m}, key);
      s := s + [m];
      rest := rest - {m};
    }
  }
}
