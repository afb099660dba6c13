/**
 * Queries over a table held as a sequence of rows in ascending key order:
 * `filter(...).first()`, `filter(...).all()`, `count()`, `order_by(id.desc())`
 * and the key SQLite gives a new row.
 */
module Tables {
  import opened Common

  /** The keys of `rows` are positive and strictly increasing. */
  predicate KeysIncreasing<T>(rows: seq<T>, key: T -> int) {
    && (forall i :: 0 <= i < |rows| ==> key(rows[i]) >= 1)
    && (forall i, j :: 0 <= i < j < |rows| ==> key(rows[i]) < key(rows[j]))
  }

  /** The keys of `rows` are strictly decreasing: `ORDER BY id DESC`. */
  predicate KeysDecreasing<T>(rows: seq<T>, key: T -> int) {
    forall i, j :: 0 <= i < j < |rows| ==> key(rows[i]) > key(rows[j])
  }

  /** Position of the first row satisfying `p`. */
  function FirstIndex<T>(rows: seq<T>, p: T -> bool): (r: Option<nat>)
    ensures r.Some? ==> r.value < |rows| && p(rows[r.value])
    ensures r.Some? ==> forall j :: 0 <= j < r.value ==> !p(rows[j])
    ensures r.None? <==> forall j :: 0 <= j < |rows| ==> !p(rows[j])
  {
    if rows == [] then None
    else if p(rows[0]) then Some(0)
    else match FirstIndex(rows[1..], p)
      case None => None
      case Some(i) => Some(i + 1)
  }

  /** `query.filter(p).first()` */
  function First<T>(rows: seq<T>, p: T -> bool): (r: Option<T>)
    ensures r.Some? ==> r.value in rows && p(r.value)
    ensures r.None? <==> forall j :: 0 <= j < |rows| ==> !p(rows[j])
  {
    match FirstIndex(rows, p)
    case None => None
    case Some(i) => Some(rows[i])
  }

  /** `query.filter(p).all()`: the matching rows, in table order. */
  function Filter<T>(rows: seq<T>, p: T -> bool): (r: seq<T>)
    ensures |r| <= |rows|
    ensures forall i :: 0 <= i < |r| ==> r[i] in rows && p(r[i])
    ensures forall i :: 0 <= i < |rows| && p(rows[i]) ==> rows[i] in r
  {
    if rows == [] then []
    else (if p(rows[0]) then [rows[0]] else []) + Filter(rows[1..], p)
  }

  /** Dropping the first row keeps a list descending. */
  lemma TailDecreasing<T>(rows: seq<T>, key: T -> int)
    requires KeysDecreasing(rows, key) && rows != []
    ensures KeysDecreasing(rows[1..], key)
  {
    var tail := rows[1..];
    forall i, j | 0 <= i < j < |tail| ensures key(tail[i]) > key(tail[j]) {
      assert tail[i] == rows[i + 1] && tail[j] == rows[j + 1];
    }
  }

  /** A row with a smaller key than every row of an ascending list can go in front of it. */
  lemma ConsIncreasing<T>(x: T, rest: seq<T>, key: T -> int)
    requires KeysIncreasing(rest, key) && key(x) >= 1
    requires forall i :: 0 <= i < |rest| ==> key(x) < key(rest[i])
    ensures KeysIncreasing([x] + rest, key)
  {
    var r := [x] + rest;
    forall i, j | 0 <= i < j < |r| ensures key(r[i]) < key(r[j]) {
      assert r[j] == rest[j - 1];
      if i > 0 {
        assert r[i] == rest[i - 1];
      }
    }
  }

  /** A row with a larger key than every row of a descending list can go in front of it. */
  lemma ConsDecreasing<T>(x: T, rest: seq<T>, key: T -> int)
    requires KeysDecreasing(rest, key)
    requires forall i :: 0 <= i < |rest| ==> key(x) > key(rest[i])
    ensures KeysDecreasing([x] + rest, key)
  {
    var r := [x] + rest;
    forall i, j | 0 <= i < j < |r| ensures key(r[i]) > key(r[j]) {
      assert r[j] == rest[j - 1];
      if i > 0 {
        assert r[i] == rest[i - 1];
      }
    }
  }

  /** A filter keeps the rows it keeps in their order, so an ordered table stays ordered. */
  lemma {:induction false} FilterKeepsOrder<T>(rows: seq<T>, p: T -> bool, key: T -> int)
    requires KeysIncreasing(rows, key)
    ensures KeysIncreasing(Filter(rows, p), key)
  {
    if rows != [] {
      var tail := rows[1..];
      assert KeysIncreasing(tail, key) by {
        forall i, j | 0 <= i < j < |tail| ensures key(tail[i]) < key(tail[j]) {
          assert tail[i] == rows[i + 1] && tail[j] == rows[j + 1];
        }
      }
      FilterKeepsOrder(tail, p, key);
      var rest := Filter(tail, p);
      if p(rows[0]) {
        forall i | 0 <= i < |rest| ensures key(rows[0]) < key(rest[i]) {
          var j :| 0 <= j < |tail| && tail[j] == rest[i];
          assert rows[j + 1] == rest[i];
        }
        ConsIncreasing(rows[0], rest, key);
      }
    }
  }

  /** A filter keeps a descending list descending. */
  lemma {:induction false} FilterKeepsDescending<T>(rows: seq<T>, p: T -> bool, key: T -> int)
    requires KeysDecreasing(rows, key)
    ensures KeysDecreasing(Filter(rows, p), key)
  {
    if rows != [] {
      var tail := rows[1..];
      TailDecreasing(rows, key);
      FilterKeepsDescending(tail, p, key);
      var rest := Filter(tail, p);
      if p(rows[0]) {
        forall i | 0 <= i < |rest| ensures key(rows[0]) > key(rest[i]) {
          var j :| 0 <= j < |tail| && tail[j] == rest[i];
          assert rows[j + 1] == rest[i];
        }
        ConsDecreasing(rows[0], rest, key);
      }
    }
  }

  /** A row is kept by a filter exactly when it is in the table and satisfies the predicate. */
  lemma FilterMembers<T>(rows: seq<T>, p: T -> bool, x: T)
    ensures x in Filter(rows, p) <==> x in rows && p(x)
  {
    if x in rows && p(x) {
      var i :| 0 <= i < |rows| && rows[i] == x;
    }
  }

  /** Reversal keeps the members. */
  lemma ReverseMembers<T>(s: seq<T>, x: T)
    ensures x in Reverse(s) <==> x in s
  {
    var r := Reverse(s);
    if x in s {
      var i :| 0 <= i < |s| && s[i] == x;
      assert r[|s| - 1 - i] == x;
    }
  }

  /** Two filters that agree on every row keep the same rows. */
  lemma {:induction false} FilterSame<T>(rows: seq<T>, p: T -> bool, q: T -> bool)
    requires forall x :: p(x) == q(x)
    ensures Filter(rows, p) == Filter(rows, q)
  {
    if rows != [] {
      FilterSame(rows[1..], p, q);
    }
  }

  /** `query.filter(p).count()` */
  function Count<T>(rows: seq<T>, p: T -> bool): (n: nat)
    ensures n <= |rows|
    ensures n == 0 <==> forall j :: 0 <= j < |rows| ==> !p(rows[j])
  {
    if rows == [] then 0 else (if p(rows[0]) then 1 else 0) + Count(rows[1..], p)
  }

  function Reverse<T>(s: seq<T>): (r: seq<T>)
    ensures |r| == |s| && forall i :: 0 <= i < |s| ==> r[i] == s[|s| - 1 - i]
  {
    if s == [] then [] else Reverse(s[1..]) + [s[0]]
  }

  /** Reading an ascending table backwards gives `ORDER BY id DESC`. */
  lemma ReverseDescends<T>(rows: seq<T>, key: T -> int)
    requires KeysIncreasing(rows, key)
    ensures KeysDecreasing(Reverse(rows), key)
  {
    var r := Reverse(rows);
    forall i, j | 0 <= i < j < |r| ensures key(r[i]) > key(r[j]) {
      assert r[i] == rows[|rows| - 1 - i] && r[j] == rows[|rows| - 1 - j];
    }
  }

  /** The key of a new row of an INTEGER PRIMARY KEY table: one past the largest, or 1. */
  function NextKey<T>(rows: seq<T>, key: T -> int): (k: int)
    requires KeysIncreasing(rows, key)
    ensures k >= 1
    ensures forall i :: 0 <= i < |rows| ==> key(rows[i]) < k
    ensures rows == [] ==> k == 1
    ensures rows != [] ==> k - 1 == key(rows[|rows| - 1])
  {
    if rows == [] then 1 else key(rows[|rows| - 1]) + 1
  }

  /** Appending a row under the next key keeps the keys increasing. */
  lemma AppendKeepsOrder<T>(rows: seq<T>, key: T -> int, x: T)
    requires KeysIncreasing(rows, key)
    requires key(x) == NextKey(rows, key)
    ensures KeysIncreasing(rows + [x], key)
  {
  }

  /** Replacing a row by one with the same key keeps the keys increasing. */
  lemma ReplaceKeepsOrder<T>(rows: seq<T>, key: T -> int, i: nat, x: T)
    requires KeysIncreasing(rows, key)
    requires i < |rows| && key(x) == key(rows[i])
    ensures KeysIncreasing(rows[i := x], key)
  {
  }
}
