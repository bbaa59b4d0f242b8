/** Ordered listing of finite sets: the ORDER BY of a query, or a sort under a total order. */
module Ordering {

  /** A lexicographic sort key of up to three integer columns. */
  datatype Key = Key(a: int, b: int, c: int)

  predicate Before(x: Key, y: Key) {
    x.a < y.a || (x.a == y.a && (x.b < y.b || (x.b == y.b && x.c < y.c)))
  }

  ghost predicate Distinguishes<T(!new)>(key: T -> Key, s: set<T>) {
    forall x, y :: x in s && y in s && key(x) == key(y) ==> x == y
  }

  ghost predicate NoDuplicates<T>(r: seq<T>) {
    forall i, j :: 0 <= i < j < |r| ==> r[i] != r[j]
  }

  ghost predicate Ascending<T(!new)>(r: seq<T>, key: T -> Key) {
    forall i, j :: 0 <= i < j < |r| ==> Before(key(r[i]), key(r[j]))
  }

  predicate IsFirst<T(!new)>(m: T, s: set<T>, key: T -> Key) {
    m in s && forall x :: x in s && x != m ==> Before(key(m), key(x))
  }

  lemma {:induction false} FindFirst<T(!new)>(s: set<T>, key: T -> Key) returns (m: T)
    requires s != {} && Distinguishes(key, s)
    ensures IsFirst(m, s, key)
    decreases |s|
  {
    var e :| e in s;
    var rest := s - {e};
    if rest == {} {
      m := e;
      assert forall x :: x in s ==> x == e || x in rest;
    } else {
      var n := FindFirst(rest, key);
      m := if Before(key(e), key(n)) then e else n;
      assert e in s && n in s && key(e) != key(n);
      assert forall x :: x in s ==> x == e || x in rest;
    }
  }

  /** OFFSET keep: what comes after the first keep rows. */
  function Beyond<T>(r: seq<T>, keep: nat): seq<T> {
    if |r| <= keep then [] else r[keep..]
  }

  lemma FirstExists<T(!new)>(s: set<T>, key: T -> Key)
    requires s != {} && Distinguishes(key, s)
    ensures exists m :: IsFirst(m, s, key)
  {
    var m := FindFirst(s, key);
  }

  /** The elements of s, listed once each in key order. */
  function Enumerate<T(!new,==)>(s: set<T>, key: T -> Key): (r: seq<T>)
    requires Distinguishes(key, s)
    ensures Lists(r, s)
    ensures |r| == |s| && NoDuplicates(r) && Ascending(r, key)
    decreases |s|
  {
    if s == {} then [] else
      FirstExists(s, key);
      var m :| IsFirst(m, s, key);
      [m] + Enumerate(s - {m}, key)
  }

  function Elements<T(==)>(l: seq<T>): set<T> {
    set x | x in l
  }

  /** Sorts a list without duplicates. */
  function Sort<T(!new,==)>(l: seq<T>, key: T -> Key): (r: seq<T>)
    requires Distinguishes(key, Elements(l))
    ensures Lists(r, Elements(l)) && |r| == |Elements(l)| && NoDuplicates(r) && Ascending(r, key)
  {
    Enumerate(Elements(l), key)
  }

  function Take<T>(r: seq<T>, limit: nat): seq<T> {
    if |r| > limit then r[..limit] else r
  }

  /** LIMIT keeps the first rows: what it keeps is in order and comes before everything it cuts off. */
  lemma {:induction false} TakenFirst<T(!new)>(s: set<T>, key: T -> Key, limit: nat)
    requires Distinguishes(key, s)
    ensures var r := Take(Enumerate(s, key), limit);
            Ascending(r, key) && forall x, y :: x in r && y in s && y !in r ==> Before(key(x), key(y))
  {
    var all := Enumerate(s, key);
    var r := Take(all, limit);
    forall x, y | x in r && y in s && y !in r ensures Before(key(x), key(y)) {
      var i :| 0 <= i < |r| && r[i] == x;
      assert y in all;
      var j :| 0 <= j < |all| && all[j] == y;
      assert forall k :: 0 <= k < |r| ==> r[k] == all[k];
    }
  }

  ghost predicate Lists<T(!new)>(r: seq<T>, s: set<T>) {
    forall x :: x in r <==> x in s
  }

  lemma Listed<T(!new)>(s: set<T>, r: seq<T>)
    requires Lists(r, s)
    ensures forall i :: 0 <= i < |r| ==> r[i] in s
  {
    forall i | 0 <= i < |r| ensures r[i] in s { assert r[i] in r; }
  }

  lemma {:induction false} SizeOfElements<T(!new)>(r: seq<T>)
    requires NoDuplicates(r)
    ensures |Elements(r)| == |r|
    decreases |r|
  {
    if r != [] {
      SizeOfElements(r[1..]);
      assert Elements(r) == {r[0]} + Elements(r[1..]);
      assert r[0] !in r[1..];
    }
  }

  lemma {:induction false} SubsetSize<T>(a: set<T>, b: set<T>)
    requires a <= b
    ensures |a| <= |b|
    decreases |a|
  {
    if a != {} {
      var e :| e in a;
      SubsetSize(a - {e}, b - {e});
    }
  }
}
