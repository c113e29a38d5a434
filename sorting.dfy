/**
 * Array.prototype.sort with a consistent comparator, as a stable insertion sort. `le(a, b)`
 * holds when the comparator does not put b strictly before a (compare(a, b) <= 0).
 */
module Sorting {

  /** Places x in front of the first element it may precede; x stays ahead of its equals. */
  function Insert<T>(x: T, s: seq<T>, le: (T, T) -> bool): (r: seq<T>)
    ensures multiset(r) == multiset(s) + multiset{x}
    ensures |r| == |s| + 1
  {
    if |s| == 0 then [x]
    else if le(x, s[0]) then [x] + s
    else
      assert s == [s[0]] + s[1..];
      [s[0]] + Insert(x, s[1..], le)
  }

  /** The stable sort of s under le. */
  function SortBy<T>(s: seq<T>, le: (T, T) -> bool): (r: seq<T>)
    ensures multiset(r) == multiset(s)
    ensures |r| == |s|
  {
    if |s| == 0 then []
    else
      assert s == [s[0]] + s[1..];
      Insert(s[0], SortBy(s[1..], le), le)
  }

  ghost predicate TotalPreorder<T(!new)>(le: (T, T) -> bool) {
    (forall a, b :: le(a, b) || le(b, a)) &&
    (forall a, b, c :: le(a, b) && le(b, c) ==> le(a, c))
  }

  ghost predicate SortedBy<T>(s: seq<T>, le: (T, T) -> bool) {
    forall i, j :: 0 <= i < j < |s| ==> le(s[i], s[j])
  }

  lemma {:induction false} InsertSorted<T(!new)>(x: T, s: seq<T>, le: (T, T) -> bool)
    requires TotalPreorder(le) && SortedBy(s, le)
    ensures SortedBy(Insert(x, s, le), le)
    decreases |s|
  {
    if |s| > 0 && !le(x, s[0]) {
      InsertSorted(x, s[1..], le);
      var t := Insert(x, s[1..], le);
      forall k | 0 <= k < |t| ensures le(s[0], t[k]) {
        assert t[k] in multiset(t);
        assert t[k] in multiset(s[1..]) || t[k] == x;
        if t[k] != x {
          var j :| 0 <= j < |s[1..]| && s[1..][j] == t[k];
          assert s[1 + j] == t[k];
        }
      }
    }
  }

  /** Under a total preorder the result is ordered; with the ensures of SortBy it is a sorted permutation. */
  lemma {:induction false} SortBySorted<T(!new)>(s: seq<T>, le: (T, T) -> bool)
    requires TotalPreorder(le)
    ensures SortedBy(SortBy(s, le), le)
    decreases |s|
  {
    if |s| > 0 {
      SortBySorted(s[1..], le);
      InsertSorted(s[0], SortBy(s[1..], le), le);
    }
  }

  /** The elements of s that le ties with z (each may precede the other), in their order in s. */
  function Ties<T>(s: seq<T>, z: T, le: (T, T) -> bool): seq<T>
    decreases |s|
  {
    if |s| == 0 then [] else (if le(s[0], z) && le(z, s[0]) then [s[0]] else []) + Ties(s[1..], z, le)
  }

  /** Inserting x puts it ahead of every element it ties with. */
  lemma {:induction false} InsertTies<T>(x: T, s: seq<T>, z: T, le: (T, T) -> bool)
    requires forall k :: 0 <= k < |s| ==> (le(x, z) && le(z, x) && le(s[k], z) && le(z, s[k]) ==> le(x, s[k]))
    ensures Ties(Insert(x, s, le), z, le) == (if le(x, z) && le(z, x) then [x] else []) + Ties(s, z, le)
    decreases |s|
  {
    var r := Insert(x, s, le);
    if |s| == 0 {
      assert r[1..] == [];
    } else if le(x, s[0]) {
      assert r[0] == x && r[1..] == s;
    } else {
      var rest := Insert(x, s[1..], le);
      assert r[0] == s[0] && r[1..] == rest;
      assert forall k :: 0 <= k < |s[1..]| ==> s[1..][k] == s[k + 1];
      InsertTies(x, s[1..], z, le);
    }
  }

  /** Under a total preorder two elements tied with the same z may precede each other. */
  lemma TiedPrecede<T(!new)>(x: T, y: T, z: T, le: (T, T) -> bool)
    requires TotalPreorder(le)
    ensures le(x, z) && le(z, x) && le(y, z) && le(z, y) ==> le(x, y)
  {
  }

  /** The sort is stable: elements tied with one another keep their relative order. */
  lemma {:induction false} SortByStable<T(!new)>(s: seq<T>, z: T, le: (T, T) -> bool)
    requires TotalPreorder(le)
    ensures Ties(SortBy(s, le), z, le) == Ties(s, z, le)
    decreases |s|
  {
    if |s| > 0 {
      var t := SortBy(s[1..], le);
      SortByStable(s[1..], z, le);
      forall k | 0 <= k < |t|
        ensures le(s[0], z) && le(z, s[0]) && le(t[k], z) && le(z, t[k]) ==> le(s[0], t[k])
      {
        TiedPrecede(s[0], t[k], z, le);
      }
      InsertTies(s[0], t, z, le);
    }
  }
}
