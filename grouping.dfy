/**
 * The `reduce` that buckets a list by a string key, `(acc[k] ||= []).push(x)`: a record of
 * lists whose keys appear in first-seen order and whose lists keep the input order.
 */
module Grouping {
  import Seqs

  datatype Group<T> = Group(key: string, members: seq<T>)

  function Keys<T>(gs: seq<Group<T>>): (r: seq<string>)
    ensures |r| == |gs|
    ensures forall i :: 0 <= i < |gs| ==> r[i] == gs[i].key
  {
    if |gs| == 0 then [] else [gs[0].key] + Keys(gs[1..])
  }

  ghost predicate DistinctKeys<T>(gs: seq<Group<T>>) {
    forall i, j :: 0 <= i < j < |gs| ==> gs[i].key != gs[j].key
  }

  /** acc[k] || []: the list under key k, empty when there is none. */
  function Members<T>(gs: seq<Group<T>>, k: string): seq<T> {
    if |gs| == 0 then []
    else if gs[0].key == k then gs[0].members
    else Members(gs[1..], k)
  }

  /** (acc[k] ||= []).push(x) */
  function AddTo<T>(gs: seq<Group<T>>, k: string, x: T): (r: seq<Group<T>>)
    ensures Keys(r) == if k in Keys(gs) then Keys(gs) else Keys(gs) + [k]
  {
    if |gs| == 0 then [Group(k, [x])]
    else if gs[0].key == k then [Group(k, gs[0].members + [x])] + gs[1..]
    else
      assert Keys(gs) == [gs[0].key] + Keys(gs[1..]);
      [gs[0]] + AddTo(gs[1..], k, x)
  }

  /** s.reduce((acc, x) => { (acc[key(x)] ||= []).push(x); return acc; }, {}) */
  function GroupBy<T>(s: seq<T>, key: T -> string): seq<Group<T>> {
    if |s| == 0 then []
    else AddTo(GroupBy(s[..|s| - 1], key), key(s[|s| - 1]), s[|s| - 1])
  }

  /** The elements of s whose key is k, in order: the reference definition of a group. */
  function Filter<T>(s: seq<T>, key: T -> string, k: string): (r: seq<T>)
    ensures |r| <= |s|
    ensures forall x :: x in r ==> x in s && key(x) == k
  {
    if |s| == 0 then []
    else (if key(s[0]) == k then [s[0]] else []) + Filter(s[1..], key, k)
  }

  lemma {:induction false} FilterAppend<T>(a: seq<T>, b: seq<T>, key: T -> string, k: string)
    ensures Filter(a + b, key, k) == Filter(a, key, k) + Filter(b, key, k)
    decreases |a|
  {
    if |a| == 0 {
      assert a + b == b;
    } else {
      assert (a + b)[0] == a[0];
      assert (a + b)[1..] == a[1..] + b;
      FilterAppend(a[1..], b, key, k);
    }
  }

  /** An element whose key is k is in the filter for k. */
  lemma {:induction false} FilterContains<T>(s: seq<T>, key: T -> string, x: T)
    requires x in s
    ensures x in Filter(s, key, key(x))
    decreases |s|
  {
    if s[0] != x {
      FilterContains(s[1..], key, x);
    }
  }

  lemma {:induction false} MembersAddTo<T>(gs: seq<Group<T>>, k: string, x: T, j: string)
    ensures Members(AddTo(gs, k, x), j) == if j == k then Members(gs, k) + [x] else Members(gs, j)
    decreases |gs|
  {
    if |gs| > 0 && gs[0].key != k {
      MembersAddTo(gs[1..], k, x, j);
    }
  }

  lemma FilterSingleton<T>(x: T, key: T -> string, k: string)
    ensures Filter([x], key, k) == if key(x) == k then [x] else []
  {
    assert [x][1..] == [];
  }

  /** Each bucket of GroupBy is exactly the filter of the input by that key. */
  lemma {:induction false} GroupByMembers<T>(s: seq<T>, key: T -> string, k: string)
    ensures Members(GroupBy(s, key), k) == Filter(s, key, k)
    decreases |s|
  {
    if |s| > 0 {
      var init, last := s[..|s| - 1], s[|s| - 1];
      var g := GroupBy(init, key);
      assert GroupBy(s, key) == AddTo(g, key(last), last);
      GroupByMembers(init, key, k);
      MembersAddTo(g, key(last), last, k);
      Seqs.SplitLast(s);
      FilterAppend(init, [last], key, k);
      FilterSingleton(last, key, k);
      calc {
        Members(GroupBy(s, key), k);
        Members(g, k) + (if key(last) == k then [last] else []);
        Filter(init, key, k) + Filter([last], key, k);
        Filter(s, key, k);
      }
    }
  }

  lemma {:induction false} DistinctKeysAddTo<T>(gs: seq<Group<T>>, k: string, x: T)
    requires DistinctKeys(gs)
    ensures DistinctKeys(AddTo(gs, k, x))
  {
    var r := AddTo(gs, k, x);
    forall i, j | 0 <= i < j < |r| ensures r[i].key != r[j].key {
      assert Keys(r)[i] == r[i].key && Keys(r)[j] == r[j].key;
      assert Keys(gs)[..] == Keys(gs);
      if k !in Keys(gs) && j == |gs| {
        assert Keys(gs)[i] == gs[i].key;
      } else {
        assert Keys(gs)[i] == gs[i].key && Keys(gs)[j] == gs[j].key;
      }
    }
  }

  /** The keys of GroupBy are distinct, and they are exactly the keys that occur in s. */
  lemma {:induction false} GroupByKeys<T>(s: seq<T>, key: T -> string)
    ensures DistinctKeys(GroupBy(s, key))
    ensures forall x :: x in s ==> key(x) in Keys(GroupBy(s, key))
    ensures forall k :: k in Keys(GroupBy(s, key)) ==> exists x :: x in s && key(x) == k
    decreases |s|
  {
    if |s| > 0 {
      var init, last := s[..|s| - 1], s[|s| - 1];
      var g := GroupBy(init, key);
      var r := AddTo(g, key(last), last);
      assert GroupBy(s, key) == r;
      GroupByKeys(init, key);
      DistinctKeysAddTo(g, key(last), last);
      assert Keys(r) == if key(last) in Keys(g) then Keys(g) else Keys(g) + [key(last)];
      forall x | x in s ensures key(x) in Keys(r) {
        if x != last {
          assert x in init by { var i :| 0 <= i < |s| && s[i] == x; assert i < |s| - 1; assert init[i] == x; }
        }
      }
      forall k | k in Keys(r) ensures exists x :: x in s && key(x) == k {
        if k != key(last) {
          assert k in Keys(g);
          var x :| x in init && key(x) == k;
          var i :| 0 <= i < |init| && init[i] == x;
          assert s[i] == x;
        }
      }
    }
  }

  /** With distinct keys, looking a key up returns that group's own list. */
  lemma {:induction false} MembersAt<T>(gs: seq<Group<T>>, i: nat)
    requires DistinctKeys(gs) && i < |gs|
    ensures Members(gs, gs[i].key) == gs[i].members
    decreases i
  {
    if i > 0 {
      MembersAt(gs[1..], i - 1);
    }
  }
}
