/**
 * The two clamping stages of autoQuantities: applyTypeCaps scales a capped category's items so
 * that the category total lands in [min, max]; applyItemCaps lowers a food to its own ceiling.
 * Both overwrite entries of the map in place; keys and their order never change.
 */
module Caps {
  import opened Wrappers
  import opened Rounding
  import opened Grouping
  import opened Tables
  import opened Foods
  import opened Selections
  import opened Intake
  import Seqs

  /** The category total clamped to the cap: max(total, min), then min(., max). */
  function ClampedTotal(total: int, cap: Cap): (r: int)
    ensures cap.min.Some? && cap.max.Some? && cap.min.value <= cap.max.value ==>
      cap.min.value <= r <= cap.max.value
    ensures (cap.min.None? || cap.min.value <= total) && (cap.max.None? || total <= cap.max.value) ==>
      r == total
  {
    var t := if cap.min.Some? then Max(total, cap.min.value) else total;
    if cap.max.Some? then Min(t, cap.max.value) else t
  }

  /** targetTotalG / (totalG || 1) for a capped category. */
  function CapFactor(foods: seq<Food>, data: Selection, category: string): real
    requires category in CapsGrams
  {
    var total := CategoryGrams(foods, data, category);
    (ClampedTotal(total, CapsGrams[category]) as real) / ((if total != 0 then total else 1) as real)
  }

  /** The factor is the clamped total over the total. */
  lemma CapFactorOf(foods: seq<Food>, data: Selection, category: string, total: int, clamped: int)
    requires category in CapsGrams && total != 0
    requires CategoryGrams(foods, data, category) == total && ClampedTotal(total, CapsGrams[category]) == clamped
    ensures CapFactor(foods, data, category) == (clamped as real) / (total as real)
  {
  }

  /** round5(grams * factor) */
  function ScaledGrams(grams: int, factor: real): (r: int)
    ensures IsGramStep(r)
  {
    Round5((grams as real) * factor)
  }

  /** What applyTypeCaps makes of one entry. */
  function TypeCapped(foods: seq<Food>, data: Selection, e: Entry): (r: Entry)
    ensures r.id == e.id
    ensures TypeOf(foods, e.id) !in CapsGrams ==> r == e
    ensures TypeOf(foods, e.id) in CapsGrams ==> IsGramStep(r.grams)
  {
    var category := TypeOf(foods, e.id);
    if category in CapsGrams then Entry(e.id, ScaledGrams(e.grams, CapFactor(foods, data, category)))
    else e
  }

  /** The map after applyTypeCaps, entry by entry. */
  function TypeCapsOf(foods: seq<Food>, data: Selection): (r: Selection)
    ensures |r| == |data|
    ensures Ids(r) == Ids(data)
    ensures AllGramSteps(data) ==> AllGramSteps(r)
    ensures forall p :: 0 <= p < |data| ==> r[p] == TypeCapped(foods, data, data[p])
  {
    seq(|data|, p requires 0 <= p < |data| => TypeCapped(foods, data, data[p]))
  }

  /** out is data with values changed but every key kept at its position. */
  ghost predicate SameIds(out: Selection, data: Selection) {
    |out| == |data| && forall p :: 0 <= p < |data| ==> out[p].id == data[p].id
  }

  lemma SameIdsDistinct(out: Selection, data: Selection)
    requires SameIds(out, data) && DistinctIds(data)
    ensures DistinctIds(out)
  {
    forall a, b | 0 <= a < b < |out| ensures out[a].id != out[b].id {
      assert out[a].id == data[a].id && out[b].id == data[b].id;
    }
  }

  /** After the first j items of a capped category have been rescaled. */
  ghost predicate ScaledUpTo(foods: seq<Food>, data: Selection, done: seq<Entry>, out0: Selection, out: Selection) {
    SameIds(out, data) && |out0| == |data| &&
    forall p :: 0 <= p < |data| ==>
      out[p] == if data[p] in done then TypeCapped(foods, data, data[p]) else out0[p]
  }

  lemma ScaleStepAt(foods: seq<Food>, data: Selection, done: seq<Entry>, out0: Selection, out: Selection, p0: nat)
    requires DistinctIds(data) && p0 < |data| && |out0| == |data|
    requires ScaledUpTo(foods, data, done, out0, out)
    ensures ScaledUpTo(foods, data, done + [data[p0]], out0, out[p0 := TypeCapped(foods, data, data[p0])])
  {
    var next := out[p0 := TypeCapped(foods, data, data[p0])];
    forall p | 0 <= p < |data|
      ensures next[p] == if data[p] in done + [data[p0]] then TypeCapped(foods, data, data[p]) else out0[p]
    {
      if p != p0 {
        assert data[p].id != data[p0].id;
      }
    }
  }

  /** Rescaling the j-th item of a capped category, data[it.id] = { grams: … }, extends ScaledUpTo by one item. */
  lemma ScaleStep(foods: seq<Food>, data: Selection, items: seq<Entry>, category: string, j: nat,
                  out0: Selection, out: Selection)
    requires DistinctIds(data) && j < |items| && category in CapsGrams
    requires items[j] in data && TypeOf(foods, items[j].id) == category
    requires ScaledUpTo(foods, data, items[..j], out0, out)
    ensures ScaledUpTo(foods, data, items[..j + 1], out0,
                       Put(out, items[j].id, ScaledGrams(items[j].grams, CapFactor(foods, data, category))))
  {
    var it := items[j];
    var p0 :| 0 <= p0 < |data| && data[p0] == it;
    var v := ScaledGrams(it.grams, CapFactor(foods, data, category));
    SameIdsDistinct(out, data);
    PutAt(out, p0, v);
    assert TypeCapped(foods, data, data[p0]) == Entry(it.id, v);
    ScaleStepAt(foods, data, items[..j], out0, out, p0);
    Seqs.TakeSnoc(items, j);
  }

  /** items.forEach(it => data[it.id] = { grams: round5(it.grams * factor) }) for one capped category. */
  method ScaleItems(foods: seq<Food>, data: Selection, items: seq<Entry>, category: string, out0: Selection)
    returns (out: Selection)
    requires DistinctIds(data) && SameIds(out0, data)
    requires category in CapsGrams
    requires forall it :: it in items ==> it in data && TypeOf(foods, it.id) == category
    ensures SameIds(out, data)
    ensures forall p :: 0 <= p < |data| ==>
      out[p] == if data[p] in items then TypeCapped(foods, data, data[p]) else out0[p]
  {
    var factor := CapFactor(foods, data, category);
    out := out0;
    var j := 0;
    while j < |items|
      invariant 0 <= j <= |items|
      invariant ScaledUpTo(foods, data, items[..j], out0, out)
    {
      var it := items[j];
      assert it in items;
      ScaleStep(foods, data, items, category, j, out0, out);
      out := Put(out, it.id, ScaledGrams(it.grams, factor));
      j := j + 1;
    }
    assert items[..j] == items;
  }

  /** Entries whose category is among those already processed are rescaled, the others untouched. */
  ghost predicate CappedTypes(foods: seq<Food>, data: Selection, processed: seq<string>, out: Selection) {
    SameIds(out, data) &&
    forall p :: 0 <= p < |data| ==>
      out[p] == if TypeOf(foods, data[p].id) in processed then TypeCapped(foods, data, data[p]) else data[p]
  }

  /** One entry belongs to the group of its own category and to no other. */
  lemma CategoryEntriesAt(foods: seq<Food>, data: Selection, category: string, p: nat)
    requires p < |data|
    ensures data[p] in CategoryEntries(foods, data, category) <==> TypeOf(foods, data[p].id) == category
  {
    if TypeOf(foods, data[p].id) == category {
      FilterContains(data, EntryType(foods), data[p]);
    }
  }

  /** Processing one more category group keeps CappedTypes; groups of uncapped or empty categories are skipped. */
  lemma CappedTypesStep(foods: seq<Food>, data: Selection, keys: seq<string>, gi: nat, category: string,
                        items: seq<Entry>, scaled: bool, out: Selection, next: Selection)
    requires gi < |keys| && keys[gi] == category
    requires CappedTypes(foods, data, keys[..gi], out) && category !in keys[..gi]
    requires items == CategoryEntries(foods, data, category)
    requires scaled == (category in CapsGrams && |items| > 0)
    requires !scaled ==> next == out
    requires scaled ==> SameIds(next, data) && forall p :: 0 <= p < |data| ==>
      next[p] == if data[p] in items then TypeCapped(foods, data, data[p]) else out[p]
    ensures CappedTypes(foods, data, keys[..gi + 1], next)
  {
    var processed := keys[..gi];
    Seqs.TakeSnoc(keys, gi);
    forall p | 0 <= p < |data|
      ensures next[p] == if TypeOf(foods, data[p].id) in processed + [category]
                         then TypeCapped(foods, data, data[p]) else data[p]
    {
      CategoryEntriesAt(foods, data, category, p);
    }
  }

  /** Once every category present has been processed, the map is TypeCapsOf. */
  lemma CappedTypesDone(foods: seq<Food>, data: Selection, processed: seq<string>, out: Selection)
    requires CappedTypes(foods, data, processed, out)
    requires forall p :: 0 <= p < |data| ==> TypeOf(foods, data[p].id) in processed
    ensures out == TypeCapsOf(foods, data)
  {
  }

  /** applyTypeCaps(data) */
  method ApplyTypeCaps(foods: seq<Food>, data: Selection) returns (out: Selection)
    requires DistinctIds(data)
    ensures out == TypeCapsOf(foods, data)
  {
    var key := EntryType(foods);
    var byType := GroupByType(foods, data);
    GroupByKeys(data, key);
    ghost var keys := Keys(byType);
    out := data;
    var gi := 0;
    while gi < |byType|
      invariant 0 <= gi <= |byType|
      invariant CappedTypes(foods, data, keys[..gi], out)
    {
      var group := byType[gi];
      MembersAt(byType, gi);
      GroupByTypeMembers(foods, data, group.key);
      var items := group.members;
      CategoryEntriesIn(foods, data, group.key);
      ghost var prev := out;
      ghost var scaled := group.key in CapsGrams && |items| > 0;
      if group.key in CapsGrams && |items| > 0 {
        out := ScaleItems(foods, data, items, group.key, out);
      }
      assert group.key !in keys[..gi] by {
        forall i | 0 <= i < gi ensures keys[i] != group.key {
          assert byType[i].key != byType[gi].key;
        }
      }
      CappedTypesStep(foods, data, keys, gi, group.key, items, scaled, prev, out);
      gi := gi + 1;
    }
    assert keys[..gi] == keys;
    forall p | 0 <= p < |data| ensures TypeOf(foods, data[p].id) in keys {
      assert data[p] in data;
      assert key(data[p]) == TypeOf(foods, data[p].id);
    }
    CappedTypesDone(foods, data, keys, out);
  }

  /** What applyItemCaps makes of one entry: a food over its own ceiling is brought down to it. */
  function ItemCapped(foods: seq<Food>, e: Entry): (r: Entry)
    ensures r.id == e.id
    ensures ItemMaxGrams(foods, e.id).None? ==> r == e
    ensures ItemMaxGrams(foods, e.id).Some? ==> r.grams == Min(e.grams, CappedFoodMaxGrams)
  {
    var nextG := ClampItemGrams(foods, e.id, e.grams);
    if nextG != e.grams then
      Round5Identity(nextG);
      Entry(e.id, Round5(nextG as real))
    else e
  }

  /** The map after applyItemCaps, entry by entry. */
  function ItemCapsOf(foods: seq<Food>, data: Selection): (r: Selection)
    ensures |r| == |data|
    ensures Ids(r) == Ids(data)
    ensures AllGramSteps(data) ==> AllGramSteps(r)
    ensures forall p :: 0 <= p < |r| && ItemMaxGrams(foods, r[p].id).Some? ==> r[p].grams <= CappedFoodMaxGrams
    ensures forall p :: 0 <= p < |data| ==> r[p] == ItemCapped(foods, data[p])
  {
    seq(|data|, p requires 0 <= p < |data| => ItemCapped(foods, data[p]))
  }

  /** applyItemCaps(data) */
  method ApplyItemCaps(foods: seq<Food>, data: Selection) returns (out: Selection)
    requires DistinctIds(data)
    ensures out == ItemCapsOf(foods, data)
  {
    var ids := Ids(data);
    out := data;
    var k := 0;
    while k < |ids|
      invariant 0 <= k <= |ids|
      invariant SameIds(out, data)
      invariant forall p :: 0 <= p < |data| ==> out[p] == if p < k then ItemCapped(foods, data[p]) else data[p]
    {
      var id := ids[k];
      SameIdsDistinct(out, data);
      LookupAt(out, k);
      var grams := GramsOf(out, id);
      var nextG := ClampItemGrams(foods, id, grams);
      if nextG != grams {
        PutAt(out, k, Round5(nextG as real));
        out := Put(out, id, Round5(nextG as real));
      }
      k := k + 1;
    }
  }

  /** applyItemCaps is idempotent: a capped food already at or under its ceiling is left alone. */
  lemma ItemCapsIdempotent(foods: seq<Food>, data: Selection)
    ensures ItemCapsOf(foods, ItemCapsOf(foods, data)) == ItemCapsOf(foods, data)
  {
    var once := ItemCapsOf(foods, data);
    forall p | 0 <= p < |data| ensures ItemCapped(foods, once[p]) == once[p] {
      var e := ItemCapped(foods, data[p]);
      if ItemMaxGrams(foods, e.id).Some? {
        assert ClampItemGrams(foods, e.id, e.grams) == e.grams;
      }
    }
  }

  /** A sum of non-negative grams is zero only when every term is. */
  lemma {:induction false} SumGramsZero(s: seq<Entry>)
    requires forall i :: 0 <= i < |s| ==> s[i].grams >= 0
    requires SumGrams(s) == 0
    ensures forall x :: x in s ==> x.grams == 0
  {
    if |s| > 0 {
      SumGramsNonNegative(s[1..]);
      SumGramsZero(s[1..]);
    }
  }

  lemma {:induction false} SumGramsNonNegative(s: seq<Entry>)
    requires forall i :: 0 <= i < |s| ==> s[i].grams >= 0
    ensures SumGrams(s) >= 0
  {
    if |s| > 0 {
      SumGramsNonNegative(s[1..]);
    }
  }

  /** Inside [min, max] the clamp leaves the total alone, so the factor is exactly 1. */
  lemma CapFactorInRange(foods: seq<Food>, data: Selection, category: string)
    requires category in CapsGrams
    requires CapsGrams[category].min.value <= CategoryGrams(foods, data, category) <= CapsGrams[category].max.value
    requires CategoryGrams(foods, data, category) != 0
    ensures CapFactor(foods, data, category) == 1.0
  {
    CapsWellFormed();
    var total := CategoryGrams(foods, data, category);
    assert ClampedTotal(total, CapsGrams[category]) == total;
    var t := total as real;
    assert t != 0.0;
    assert t / t == 1.0;
  }

  /** A category with zero total grams has only zero-gram entries. */
  lemma CategoryZero(foods: seq<Food>, data: Selection, category: string)
    requires AllGramSteps(data) && CategoryGrams(foods, data, category) == 0
    ensures forall p :: 0 <= p < |data| && TypeOf(foods, data[p].id) == category ==> data[p].grams == 0
  {
    var items := CategoryEntries(foods, data, category);
    CategoryEntriesIn(foods, data, category);
    forall i | 0 <= i < |items| ensures items[i].grams >= 0 {
      assert items[i] in items;
    }
    SumGramsZero(items);
    forall p | 0 <= p < |data| && TypeOf(foods, data[p].id) == category ensures data[p].grams == 0 {
      CategoryEntriesAt(foods, data, category, p);
    }
  }

  /** A capped category whose total already lies in [min, max] comes out of applyTypeCaps unchanged. */
  lemma TypeCapsKeepsInRange(foods: seq<Food>, data: Selection, category: string)
    requires AllGramSteps(data) && category in CapsGrams
    requires CapsGrams[category].min.value <= CategoryGrams(foods, data, category) <= CapsGrams[category].max.value
    ensures forall p :: 0 <= p < |data| && TypeOf(foods, data[p].id) == category ==>
      TypeCapsOf(foods, data)[p] == data[p]
  {
    var total := CategoryGrams(foods, data, category);
    if total == 0 {
      CategoryZero(foods, data, category);
    } else {
      CapFactorInRange(foods, data, category);
    }
    forall p | 0 <= p < |data| && TypeOf(foods, data[p].id) == category
      ensures TypeCapsOf(foods, data)[p] == data[p]
    {
      Round5Identity(data[p].grams);
      if total == 0 {
        Round5Identity(0);
        assert (0 as real) * CapFactor(foods, data, category) == 0.0;
      }
    }
  }

  /** The arithmetic of the example below: 450 / 600 is 0.75, and 300 g scaled by it is 225 g. */
  lemma VegetableFactor()
    ensures (450 as real) / (600 as real) == 0.75 && (300 as real) * 0.75 == 225.0
  {
  }

  /** In the example below both foods are vegetables, 600 g in all. */
  lemma VegetableCategory(foods: seq<Food>, data: Selection)
    requires foods == [Food("a", "Carottes", Legumes, 40.0), Food("b", "Brocoli", Legumes, 35.0)]
    requires data == [Entry("a", 300), Entry("b", 300)]
    ensures TypeOf(foods, "a") == Legumes && TypeOf(foods, "b") == Legumes
    ensures CategoryGrams(foods, data, Legumes) == 600
  {
    assert TypeOf(foods, "a") == Legumes && TypeOf(foods, "b") == Legumes;
    FilterSingleton(data[0], EntryType(foods), Legumes);
    FilterSingleton(data[1], EntryType(foods), Legumes);
    FilterAppend([data[0]], [data[1]], EntryType(foods), Legumes);
    assert data == [data[0]] + [data[1]];
    assert CategoryEntries(foods, data, Legumes) == data;
    assert SumGrams(data[1..][1..]) == 0 && SumGrams(data[1..]) == 300;
    assert SumGrams(data) == 600;
  }

  /** In the example below each 300 g portion is scaled to 225 g. */
  lemma VegetableScaled(foods: seq<Food>, data: Selection)
    requires foods == [Food("a", "Carottes", Legumes, 40.0), Food("b", "Brocoli", Legumes, 35.0)]
    requires data == [Entry("a", 300), Entry("b", 300)]
    ensures TypeCapped(foods, data, data[0]) == Entry("a", 225)
    ensures TypeCapped(foods, data, data[1]) == Entry("b", 225)
  {
    CapsWellFormed();
    VegetableCategory(foods, data);
    assert ClampedTotal(600, CapsGrams[Legumes]) == 450;
    CapFactorOf(foods, data, Legumes, 600, 450);
    VegetableFactor();
    Round5Identity(225);
  }

  /** Two 300 g vegetable portions (600 g, over the 450 g ceiling) are scaled by 0.75 to 225 g each. */
  lemma TypeCapsVegetableExample()
    ensures TypeCapsOf([Food("a", "Carottes", Legumes, 40.0), Food("b", "Brocoli", Legumes, 35.0)],
                       [Entry("a", 300), Entry("b", 300)])
         == [Entry("a", 225), Entry("b", 225)]
  {
    var foods := [Food("a", "Carottes", Legumes, 40.0), Food("b", "Brocoli", Legumes, 35.0)];
    var data := [Entry("a", 300), Entry("b", 300)];
    VegetableScaled(foods, data);
  }
}
