/**
 * The selection, a JavaScript object from food id to { grams }. It is modelled as a list of
 * entries with distinct ids in insertion order, the order Object.keys and Object.entries use.
 */
module Selections {
  import opened Wrappers
  import opened Rounding

  datatype Entry = Entry(id: string, grams: int)

  type Selection = seq<Entry>

  /** Object.keys(s) */
  function Ids(s: Selection): (r: seq<string>)
    ensures |r| == |s|
    ensures forall i :: 0 <= i < |s| ==> r[i] == s[i].id
  {
    if |s| == 0 then [] else [s[0].id] + Ids(s[1..])
  }

  /** An object has each key at most once. */
  ghost predicate DistinctIds(s: Selection) {
    forall i, j :: 0 <= i < j < |s| ==> s[i].id != s[j].id
  }

  /** Every gram value is a non-negative multiple of 5. */
  ghost predicate AllGramSteps(s: Selection) {
    forall i :: 0 <= i < |s| ==> IsGramStep(s[i].grams)
  }

  /** s[id]?.grams */
  function Lookup(s: Selection, id: string): (r: Option<int>)
    ensures r.Some? <==> id in Ids(s)
  {
    if |s| == 0 then None
    else if s[0].id == id then Some(s[0].grams)
    else Lookup(s[1..], id)
  }

  /** With distinct ids, the entry at position p is the one Lookup finds. */
  lemma {:induction false} LookupAt(s: Selection, p: nat)
    requires DistinctIds(s) && p < |s|
    ensures Lookup(s, s[p].id) == Some(s[p].grams)
    decreases p
  {
    if p > 0 {
      LookupAt(s[1..], p - 1);
    }
  }

  /** s[id]?.grams || 0 */
  function GramsOf(s: Selection, id: string): int {
    Lookup(s, id).GetOr(0)
  }

  /** s[id] = { grams: g }: replaces the value in place, or appends a new key. */
  function Put(s: Selection, id: string, g: int): (r: Selection)
    ensures |r| == if id in Ids(s) then |s| else |s| + 1
  {
    if |s| == 0 then [Entry(id, g)]
    else if s[0].id == id then [Entry(id, g)] + s[1..]
    else [s[0]] + Put(s[1..], id, g)
  }

  /** After s[id] = { grams: g }, id maps to g and every other key keeps its value. */
  lemma {:induction false} PutLookup(s: Selection, id: string, g: int)
    ensures Lookup(Put(s, id, g), id) == Some(g)
    ensures forall k :: k != id ==> Lookup(Put(s, id, g), k) == Lookup(s, k)
    decreases |s|
  {
    if |s| > 0 && s[0].id != id {
      PutLookup(s[1..], id, g);
      var r := Put(s, id, g);
      assert r[1..] == Put(s[1..], id, g);
    } else if |s| > 0 {
      assert Put(s, id, g)[1..] == s[1..];
    }
  }

  /** Assigning a present key keeps the key order; a new key goes to the end. */
  lemma {:induction false} PutIds(s: Selection, id: string, g: int)
    ensures id in Ids(s) ==> Ids(Put(s, id, g)) == Ids(s)
    ensures id !in Ids(s) ==> Ids(Put(s, id, g)) == Ids(s) + [id]
    decreases |s|
  {
    if |s| > 0 && s[0].id != id {
      PutIds(s[1..], id, g);
      var r := Put(s, id, g);
      assert r[1..] == Put(s[1..], id, g);
      assert Ids(s) == [s[0].id] + Ids(s[1..]);
      assert Ids(r) == [s[0].id] + Ids(r[1..]);
    } else if |s| > 0 {
      assert Put(s, id, g)[1..] == s[1..];
    }
  }

  /** Assigning a key the object does not have appends one entry. */
  lemma {:induction false} PutAppend(s: Selection, id: string, g: int)
    requires id !in Ids(s)
    ensures Put(s, id, g) == s + [Entry(id, g)]
    decreases |s|
  {
    if |s| > 0 {
      assert Ids(s)[0] == s[0].id;
      assert Ids(s[1..]) == Ids(s)[1..];
      PutAppend(s[1..], id, g);
      assert s == [s[0]] + s[1..];
    }
  }

  /** With distinct ids, Put on a present key overwrites that one position. */
  lemma {:induction false} PutAt(s: Selection, p: nat, g: int)
    requires DistinctIds(s) && p < |s|
    ensures Put(s, s[p].id, g) == s[p := Entry(s[p].id, g)]
    decreases p
  {
    if p > 0 {
      PutAt(s[1..], p - 1, g);
      assert s[1..][p - 1 := Entry(s[p].id, g)] == s[p := Entry(s[p].id, g)][1..];
    }
  }

  lemma PutDistinct(s: Selection, id: string, g: int)
    requires DistinctIds(s)
    ensures DistinctIds(Put(s, id, g))
  {
    PutIds(s, id, g);
    var r := Put(s, id, g);
    forall i, j | 0 <= i < j < |r| ensures r[i].id != r[j].id {
      assert Ids(r)[i] == r[i].id && Ids(r)[j] == r[j].id;
      if id !in Ids(s) && j == |s| {
        assert Ids(s)[i] == s[i].id;
      } else {
        assert Ids(s)[i] == s[i].id && Ids(s)[j] == s[j].id;
      }
    }
  }

  /** delete s[id] */
  function Remove(s: Selection, id: string): (r: Selection)
    ensures Lookup(r, id) == None
    ensures forall k :: k != id ==> Lookup(r, k) == Lookup(s, k)
    ensures forall e :: e in r ==> e in s
    ensures |r| <= |s|
  {
    if |s| == 0 then []
    else if s[0].id == id then Remove(s[1..], id)
    else [s[0]] + Remove(s[1..], id)
  }

  lemma {:induction false} RemoveDistinct(s: Selection, id: string)
    requires DistinctIds(s)
    ensures DistinctIds(Remove(s, id))
    decreases |s|
  {
    if |s| > 0 {
      RemoveDistinct(s[1..], id);
      var t := Remove(s[1..], id);
      if s[0].id != id {
        forall e | e in t ensures e.id != s[0].id {
          var j :| 0 <= j < |s[1..]| && s[1..][j] == e;
          assert s[1 + j] == e;
        }
      }
    }
  }

  /** A single entry survives a delete exactly when it has another key. */
  lemma RemoveOne(e: Entry, id: string)
    ensures Remove([e], id) == if e.id == id then [] else [e]
  {
    assert [e][1..] == [];
  }

  /** delete keeps the remaining entries in their order: it distributes over concatenation. */
  lemma {:induction false} RemoveAppend(s: Selection, t: Selection, id: string)
    ensures Remove(s + t, id) == Remove(s, id) + Remove(t, id)
    decreases |s|
  {
    if |s| == 0 {
      assert s + t == t;
    } else {
      var st := s + t;
      assert st[0] == s[0] && st[1..] == s[1..] + t;
      RemoveAppend(s[1..], t, id);
    }
  }

  /** Removing keeps every remaining value, so gram steps survive a delete. */
  lemma RemoveGramSteps(s: Selection, id: string)
    requires AllGramSteps(s)
    ensures AllGramSteps(Remove(s, id))
  {
    var r := Remove(s, id);
    forall i | 0 <= i < |r| ensures IsGramStep(r[i].grams) {
      assert r[i] in s;
    }
  }

  lemma PutGramSteps(s: Selection, id: string, g: int)
    requires AllGramSteps(s) && IsGramStep(g)
    ensures AllGramSteps(Put(s, id, g))
    decreases |s|
  {
    if |s| > 0 && s[0].id != id {
      PutGramSteps(s[1..], id, g);
    }
  }
}
