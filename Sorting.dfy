/**
  The column sort of the list screens: `[...rows].sort(cmp)` where `cmp` compares the
  rows' keys with the string `<` and `>` and returns -1, 1 or 0, reversed for `"desc"`.
 */
module Sorting {
  import opened Common
  import opened Text

  /**
    `x` may come before `y` in a list sorted by `key` in direction `dir`: the comparator
    does not put `y` strictly first.
   */
  predicate Precedes<T>(x: T, y: T, key: T -> string, dir: Direction) {
    match dir
    case Asc => NotAfter(key(x), key(y))
    case Desc => NotAfter(key(y), key(x))
  }

  /** Ascending: keys never decrease; descending: keys never increase. */
  ghost predicate SortedBy<T>(s: seq<T>, key: T -> string, dir: Direction) {
    forall i, j :: 0 <= i < j < |s| ==> Precedes(s[i], s[j], key, dir)
  }

  lemma PrecedesTotal<T>(x: T, y: T, key: T -> string, dir: Direction)
    ensures Precedes(x, y, key, dir) || Precedes(y, x, key, dir)
  {
    NotAfterTotal(key(x), key(y));
  }

  lemma PrecedesTransitive<T>(x: T, y: T, z: T, key: T -> string, dir: Direction)
    requires Precedes(x, y, key, dir) && Precedes(y, z, key, dir)
    ensures Precedes(x, z, key, dir)
  {
    match dir
    case Asc => NotAfterTransitive(key(x), key(y), key(z));
    case Desc => NotAfterTransitive(key(z), key(y), key(x));
  }

  /** Puts `x` in front of the first element it may precede, keeping `s` sorted. */
  function Insert<T>(x: T, s: seq<T>, key: T -> string, dir: Direction): (r: seq<T>)
    requires SortedBy(s, key, dir)
    ensures multiset(r) == multiset(s) + multiset{x}
    ensures SortedBy(r, key, dir)
  {
    if s == [] then [x]
    else if Precedes(x, s[0], key, dir) then
      InsertFront(x, s, key, dir);
      [x] + s
    else
      var rest := Insert(x, s[1..], key, dir);
      InsertBehind(x, s, rest, key, dir);
      assert s == [s[0]] + s[1..];
      [s[0]] + rest
  }

  lemma InsertFront<T>(x: T, s: seq<T>, key: T -> string, dir: Direction)
    requires s != [] && SortedBy(s, key, dir) && Precedes(x, s[0], key, dir)
    ensures SortedBy([x] + s, key, dir)
  {
    var r := [x] + s;
    forall i, j | 0 <= i < j < |r| ensures Precedes(r[i], r[j], key, dir) {
      if i == 0 && j > 1 {
        PrecedesTransitive(x, s[0], s[j - 1], key, dir);
      }
    }
  }

  lemma InsertBehind<T>(x: T, s: seq<T>, rest: seq<T>, key: T -> string, dir: Direction)
    requires s != [] && SortedBy(s, key, dir) && !Precedes(x, s[0], key, dir)
    requires SortedBy(rest, key, dir) && multiset(rest) == multiset(s[1..]) + multiset{x}
    ensures SortedBy([s[0]] + rest, key, dir)
  {
    PrecedesTotal(x, s[0], key, dir);
    var r := [s[0]] + rest;
    forall j | 0 < j < |r| ensures Precedes(s[0], r[j], key, dir) {
      assert r[j] in multiset(rest);
      if r[j] != x {
        assert r[j] in multiset(s[1..]);
        var k :| 0 <= k < |s[1..]| && s[1..][k] == r[j];
        assert s[k + 1] == r[j];
      }
    }
  }

  /** The sorted copy of `s`, built by insertion sort. */
  function SortBy<T>(s: seq<T>, key: T -> string, dir: Direction): (r: seq<T>)
    ensures multiset(r) == multiset(s)
    ensures SortedBy(r, key, dir)
  {
    if s == [] then []
    else
      assert s == [s[0]] + s[1..];
      Insert(s[0], SortBy(s[1..], key, dir), key, dir)
  }

  /** Sorting a list that is already in order returns it unchanged. */
  lemma {:induction false} SortSortedIsIdentity<T>(s: seq<T>, key: T -> string, dir: Direction)
    requires SortedBy(s, key, dir)
    ensures SortBy(s, key, dir) == s
  {
    if s != [] {
      assert SortedBy(s[1..], key, dir);
      SortSortedIsIdentity(s[1..], key, dir);
      if |s| > 1 {
        assert Precedes(s[0], s[1], key, dir);
        assert s[1..][0] == s[1];
      }
      assert s == [s[0]] + s[1..];
    }
  }

  /** Sorting twice by the same column in the same direction gives the order of sorting once. */
  lemma SortIdempotent<T>(s: seq<T>, key: T -> string, dir: Direction)
    ensures SortBy(SortBy(s, key, dir), key, dir) == SortBy(s, key, dir)
  {
    SortSortedIsIdentity(SortBy(s, key, dir), key, dir);
  }

  /** A sorted copy has the same length as the list it sorts. */
  lemma SortKeepsLength<T>(s: seq<T>, key: T -> string, dir: Direction)
    ensures |SortBy(s, key, dir)| == |s|
  {
    assert |multiset(SortBy(s, key, dir))| == |multiset(s)|;
  }
}
