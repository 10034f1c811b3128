/**
 * `ORDER BY nombre`: rows sorted by a text key under the lexicographic order
 * of character codes. The database leaves the order of equal names open; the
 * model fixes one (a stable insertion sort), which is one of the orders the
 * database may return.
 */
module Sorting {

  /** Lexicographic `a <= b` on character codes. */
  predicate NameLeq(a: string, b: string)
    decreases |a|
  {
    |a| == 0 || (|b| > 0 && (a[0] < b[0] || (a[0] == b[0] && NameLeq(a[1..], b[1..]))))
  }

  lemma {:induction false} NameLeqTotal(a: string, b: string)
    ensures NameLeq(a, b) || NameLeq(b, a)
    decreases |a|
  {
    if |a| > 0 && |b| > 0 && a[0] == b[0] {
      NameLeqTotal(a[1..], b[1..]);
    }
  }

  lemma {:induction false} NameLeqTransitive(a: string, b: string, c: string)
    requires NameLeq(a, b) && NameLeq(b, c)
    ensures NameLeq(a, c)
    decreases |a|
  {
    if |a| > 0 && a[0] == b[0] && b[0] == c[0] {
      NameLeqTransitive(a[1..], b[1..], c[1..]);
    }
  }

  /** Every earlier row's key is at most every later row's key. */
  predicate SortedBy<T>(s: seq<T>, key: T -> string) {
    forall i, j :: 0 <= i < j < |s| ==> NameLeq(key(s[i]), key(s[j]))
  }

  /** Inserts `x` before the first row whose key is not below it. */
  function Insert<T>(x: T, s: seq<T>, key: T -> string): (r: seq<T>)
    requires SortedBy(s, key)
    ensures multiset(r) == multiset(s) + multiset{x}
    ensures SortedBy(r, key)
    decreases |s|
  {
    if |s| == 0 then
      [x]
    else if NameLeq(key(x), key(s[0])) then
      InsertFront(x, s, key);
      [x] + s
    else
      assert s == [s[0]] + s[1..];
      var rest := Insert(x, s[1..], key);
      NameLeqTotal(key(x), key(s[0]));
      InsertBehind(s[0], x, s[1..], rest, key);
      [s[0]] + rest
  }

  lemma InsertFront<T>(x: T, s: seq<T>, key: T -> string)
    requires SortedBy(s, key) && |s| > 0 && NameLeq(key(x), key(s[0]))
    ensures SortedBy([x] + s, key)
  {
    var r := [x] + s;
    forall i, j | 0 <= i < j < |r|
      ensures NameLeq(key(r[i]), key(r[j]))
    {
      if i == 0 && j > 1 {
        NameLeqTransitive(key(x), key(s[0]), key(s[j - 1]));
      }
    }
  }

  lemma InsertBehind<T>(y: T, x: T, s: seq<T>, rest: seq<T>, key: T -> string)
    requires SortedBy([y] + s, key) && SortedBy(rest, key)
    requires NameLeq(key(y), key(x))
    requires multiset(rest) == multiset(s) + multiset{x}
    ensures SortedBy([y] + rest, key)
  {
    var r := [y] + rest;
    forall i, j | 0 <= i < j < |r|
      ensures NameLeq(key(r[i]), key(r[j]))
    {
      if i == 0 {
        var z := rest[j - 1];
        assert r[j] == z;
        assert z in multiset(rest);
        if z != x {
          assert z in multiset(s);
          var k :| 0 <= k < |s| && s[k] == z;
          assert ([y] + s)[0] == y && ([y] + s)[k + 1] == z;
        }
      } else {
        assert r[i] == rest[i - 1] && r[j] == rest[j - 1];
      }
    }
  }

  /** Stable insertion sort by `key`. */
  function SortBy<T>(s: seq<T>, key: T -> string): (r: seq<T>)
    ensures multiset(r) == multiset(s)
    ensures SortedBy(r, key)
    decreases |s|
  {
    if |s| == 0 then
      []
    else
      assert s == [s[0]] + s[1..];
      Insert(s[0], SortBy(s[1..], key), key)
  }
}
