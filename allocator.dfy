/**
 * autoQuantities: the automatic allocation of grams. From the selected foods (or, for an empty
 * selection, one seeded food per category), each RATIOS category's kcal target is split evenly
 * over its foods; the map is rescaled to the meal target, clamped by the category caps and the
 * item caps, and finally lowered 5 g at a time until it is at or under the meal target.
 */
module Allocator {
  import opened Wrappers
  import opened Rounding
  import opened Grouping
  import opened Tables
  import opened Foods
  import opened Selections
  import opened Intake
  import opened Caps
  import opened Adjust
  import opened Targets
  import opened Seeding
  import Seqs

  /** The ids of a list of foods, in order. */
  function FoodIds(items: seq<Food>): (r: seq<string>)
    ensures |r| == |items|
    ensures forall i :: 0 <= i < |items| ==> r[i] == items[i].id
  {
    if |items| == 0 then [] else [items[0].id] + FoodIds(items[1..])
  }

  /** The catalog foods of the given keys, in key order; a key without a catalog food is skipped. */
  function Found(foods: seq<Food>, ids: seq<string>): (r: seq<Food>)
    ensures forall f :: f in r ==> f.id in ids && FindFood(foods, f.id) == Some(f)
    decreases |ids|
  {
    if |ids| == 0 then []
    else
      var found := FindFood(foods, ids[0]);
      (if found.Some? then [found.value] else []) + Found(foods, ids[1..])
  }

  /** selByType: the catalog foods of the keys, grouped by category in key order. */
  function SelByType(foods: seq<Food>, ids: seq<string>): seq<Group<Food>> {
    GroupBy(Found(foods, ids), CategoryOf)
  }

  /** kcalPerGramFood(f) || 0.01: a food without calories counts as 0.01 kcal per gram. */
  function KcalPerGramFood(f: Food): (r: real)
    ensures r != 0.0
    ensures f.caloriesPer100g != 0.0 ==> r * 100.0 == f.caloriesPer100g
    ensures f.caloriesPer100g == 0.0 ==> r == 0.01
  {
    var k := f.caloriesPer100g / 100.0;
    if k != 0.0 then k else 0.01
  }

  /** round5(perItemK / kpg): the grams that carry one food's even share of its category's kcal. */
  function EvenGrams(perItemK: real, f: Food): (r: int)
    ensures IsGramStep(r)
    ensures var g := perItemK / KcalPerGramFood(f); g >= 0.0 ==> g - 2.5 < r as real <= g + 2.5
  {
    Round5(perItemK / KcalPerGramFood(f))
  }

  /** for (const f of items) next[f.id] = { grams: round5(perItemK / kpg) } */
  function PutEach(acc: Selection, items: seq<Food>, perItemK: real): Selection
    decreases |items|
  {
    if |items| == 0 then acc
    else PutEach(Put(acc, items[0].id, EvenGrams(perItemK, items[0])), items[1..], perItemK)
  }

  /** One category of the split: skipped when it has no food or a target of 0 or less. */
  function SplitCategory(mealTarget: int, byType: seq<Group<Food>>, acc: Selection, category: string): Selection {
    var items := Members(byType, category);
    var targetK := TargetOf(mealTarget, category);
    if |items| == 0 || targetK <= 0 then acc
    else PutEach(acc, items, (targetK as real) / (|items| as real))
  }

  function SplitCategories(mealTarget: int, byType: seq<Group<Food>>, acc: Selection, categories: seq<string>): Selection
    decreases |categories|
  {
    if |categories| == 0 then acc
    else SplitCategories(mealTarget, byType, SplitCategory(mealTarget, byType, acc, categories[0]), categories[1..])
  }

  /** The map next after the even split over Object.entries(RATIOS). */
  function EvenSplit(foods: seq<Food>, mealTarget: int, ids: seq<string>): Selection {
    SplitCategories(mealTarget, SelByType(foods, ids), [], RatioCategories())
  }

  /** The even split, building next entry by entry. */
  method SplitEvenly(foods: seq<Food>, mealTarget: int, current: Selection) returns (next: Selection)
    ensures next == EvenSplit(foods, mealTarget, Ids(current))
  {
    var selByType := SelByType(foods, Ids(current));
    var categories := RatioCategories();
    next := [];
    for ti := 0 to |categories|
      invariant SplitCategories(mealTarget, selByType, next, categories[ti..]) == EvenSplit(foods, mealTarget, Ids(current))
    {
      SplitCategoriesStep(mealTarget, selByType, next, categories, ti);
      next := SplitOne(mealTarget, selByType, next, categories[ti]);
    }
  }

  /** The forEach callback for one RATIOS category: skip it, or write each of its foods' even share. */
  method SplitOne(mealTarget: int, selByType: seq<Group<Food>>, acc: Selection, category: string)
    returns (next: Selection)
    ensures next == SplitCategory(mealTarget, selByType, acc, category)
  {
    next := acc;
    var items := Members(selByType, category);
    var targetK := TargetOf(mealTarget, category);
    if |items| == 0 || targetK <= 0 {
      return;
    }
    var perItemK := (targetK as real) / (|items| as real);
    next := PutItems(next, items, perItemK);
  }

  /** The categories left after position ti: the one at ti, then the rest. */
  lemma SplitCategoriesStep(mealTarget: int, byType: seq<Group<Food>>, acc: Selection, categories: seq<string>, ti: nat)
    requires ti < |categories|
    ensures SplitCategories(mealTarget, byType, acc, categories[ti..]) ==
      SplitCategories(mealTarget, byType, SplitCategory(mealTarget, byType, acc, categories[ti]), categories[ti + 1..])
  {
    Seqs.DropOne(categories, ti);
  }

  /** The inner `for (const f of items)` loop of the split, writing each food's even share. */
  method PutItems(acc: Selection, items: seq<Food>, perItemK: real) returns (next: Selection)
    ensures next == PutEach(acc, items, perItemK)
  {
    next := acc;
    for j := 0 to |items|
      invariant PutEach(next, items[j..], perItemK) == PutEach(acc, items, perItemK)
    {
      Seqs.DropOne(items, j);
      var f := items[j];
      var kpg := KcalPerGramFood(f);
      var grams := Round5(perItemK / kpg);
      next := Put(next, f.id, grams);
    }
  }

  /** Every value of the map multiplied by factor and rounded to 5 g, keys kept in place. */
  function Rescaled(next: Selection, factor: real): (r: Selection)
    ensures |r| == |next| && Ids(r) == Ids(next)
    ensures AllGramSteps(r)
    ensures forall p :: 0 <= p < |next| ==> r[p] == Entry(next[p].id, ScaledGrams(next[p].grams, factor))
  {
    seq(|next|, p requires 0 <= p < |next| => Entry(next[p].id, ScaledGrams(next[p].grams, factor)))
  }

  /** The global rescale: by mealTargetKcal / initialTotal when the initial total is positive. */
  function RescaledToTarget(foods: seq<Food>, next: Selection, mealTarget: int): (r: Selection)
    ensures Ids(r) == Ids(next)
    ensures AllGramSteps(next) ==> AllGramSteps(r)
    ensures ComputeTotalK(foods, next) <= 0 ==> r == next
  {
    var initialTotal := ComputeTotalK(foods, next);
    if initialTotal > 0 then Rescaled(next, (mealTarget as real) / (initialTotal as real)) else next
  }

  /** The global rescale, overwriting next's values in place. */
  method RescaleToTarget(foods: seq<Food>, next: Selection, mealTarget: int) returns (out: Selection)
    requires DistinctIds(next)
    ensures out == RescaledToTarget(foods, next, mealTarget)
  {
    out := next;
    var initialTotal := ComputeTotalK(foods, next);
    if initialTotal > 0 {
      var factor := (mealTarget as real) / (initialTotal as real);
      var ids := Ids(next);
      var k := 0;
      while k < |ids|
        invariant 0 <= k <= |ids|
        invariant SameIds(out, next)
        invariant forall p :: 0 <= p < |next| ==>
          out[p] == if p < k then Entry(next[p].id, ScaledGrams(next[p].grams, factor)) else next[p]
      {
        var id := ids[k];
        SameIdsDistinct(out, next);
        LookupAt(out, k);
        var grams := GramsOf(out, id);
        PutAt(out, k, ScaledGrams(grams, factor));
        out := Put(out, id, ScaledGrams(grams, factor));
        k := k + 1;
      }
    }
  }

  /** The stages after the split: rescale, applyTypeCaps, applyItemCaps, adjustDownToTarget. */
  function Finish(foods: seq<Food>, next: Selection, mealTarget: int): Selection {
    AdjustDown(foods, ItemCapsOf(foods, TypeCapsOf(foods, RescaledToTarget(foods, next, mealTarget))), mealTarget)
  }

  /** current after the optional ensureOnePerType: seeding happens only for an empty selection. */
  function Seeded(foods: seq<Food>, selected: Selection): (r: Selection)
    ensures |selected| > 0 ==> r == selected
  {
    if |selected| == 0 then EnsureOnePerType(foods, selected) else selected
  }

  /** autoQuantities() as a value: the map it passes to setSelected, or selected itself. */
  function Allocate(foods: seq<Food>, selected: Selection, mealTarget: int): (r: Selection)
    ensures mealTarget <= 0 ==> r == selected
  {
    if mealTarget <= 0 then selected
    else Finish(foods, EvenSplit(foods, mealTarget, Ids(Seeded(foods, selected))), mealTarget)
  }

  /** autoQuantities(), running the stages on a working copy of the selection. */
  method AutoQuantities(foods: seq<Food>, selected: Selection, mealTarget: int) returns (next: Selection)
    requires DistinctIds(selected)
    ensures next == Allocate(foods, selected, mealTarget)
  {
    if mealTarget <= 0 {
      return selected;
    }
    var current := selected;
    if |current| == 0 {
      current := SeedMissing(foods, current);
    }
    next := SplitEvenly(foods, mealTarget, current);
    EvenSplitDistinct(foods, mealTarget, Ids(current));
    next := RescaleToTarget(foods, next, mealTarget);
    next := ApplyTypeCaps(foods, next);
    SameKeysDistinct(next, RescaledToTarget(foods, EvenSplit(foods, mealTarget, Ids(current)), mealTarget));
    next := ApplyItemCaps(foods, next);
    SameKeysDistinct(next, RescaledToTarget(foods, EvenSplit(foods, mealTarget, Ids(current)), mealTarget));
    next := AdjustDownToTarget(foods, next, mealTarget);
  }

  // Keys and distinctness of the stages

  lemma SameKeysDistinct(a: Selection, b: Selection)
    requires Ids(a) == Ids(b) && DistinctIds(b)
    ensures DistinctIds(a)
  {
    forall i, j | 0 <= i < j < |a| ensures a[i].id != a[j].id {
      assert Ids(a)[i] == Ids(b)[i] && Ids(a)[j] == Ids(b)[j];
    }
  }

  lemma {:induction false} PutEachDistinct(acc: Selection, items: seq<Food>, perItemK: real)
    requires DistinctIds(acc)
    ensures DistinctIds(PutEach(acc, items, perItemK))
    decreases |items|
  {
    if |items| > 0 {
      PutDistinct(acc, items[0].id, EvenGrams(perItemK, items[0]));
      PutEachDistinct(Put(acc, items[0].id, EvenGrams(perItemK, items[0])), items[1..], perItemK);
    }
  }

  lemma {:induction false} SplitCategoriesDistinct(mealTarget: int, byType: seq<Group<Food>>, acc: Selection, categories: seq<string>)
    requires DistinctIds(acc)
    ensures DistinctIds(SplitCategories(mealTarget, byType, acc, categories))
    decreases |categories|
  {
    if |categories| > 0 {
      var items := Members(byType, categories[0]);
      var targetK := TargetOf(mealTarget, categories[0]);
      if |items| > 0 && targetK > 0 {
        PutEachDistinct(acc, items, (targetK as real) / (|items| as real));
      }
      SplitCategoriesDistinct(mealTarget, byType, SplitCategory(mealTarget, byType, acc, categories[0]), categories[1..]);
    }
  }

  /** The split writes each key once: next is an object. */
  lemma EvenSplitDistinct(foods: seq<Food>, mealTarget: int, ids: seq<string>)
    ensures DistinctIds(EvenSplit(foods, mealTarget, ids))
  {
    SplitCategoriesDistinct(mealTarget, SelByType(foods, ids), [], RatioCategories());
  }

  /** The stages after the split keep its keys, in order. */
  lemma FinishIds(foods: seq<Food>, next: Selection, mealTarget: int)
    requires DistinctIds(next)
    ensures Ids(Finish(foods, next, mealTarget)) == Ids(next)
    ensures DistinctIds(Finish(foods, next, mealTarget))
  {
    var capped := ItemCapsOf(foods, TypeCapsOf(foods, RescaledToTarget(foods, next, mealTarget)));
    SameKeysDistinct(capped, next);
    AdjustDownIds(foods, capped, mealTarget);
  }

  // Which foods the allocation keeps

  lemma {:induction false} PutEachKeys(acc: Selection, items: seq<Food>, perItemK: real, id: string)
    ensures id in Ids(PutEach(acc, items, perItemK)) <==> id in Ids(acc) || id in FoodIds(items)
    decreases |items|
  {
    if |items| > 0 {
      var next := Put(acc, items[0].id, EvenGrams(perItemK, items[0]));
      PutIds(acc, items[0].id, EvenGrams(perItemK, items[0]));
      PutEachKeys(next, items[1..], perItemK, id);
      assert FoodIds(items) == [items[0].id] + FoodIds(items[1..]);
    }
  }

  /** The catalog food of a key that appears in the keys is found. */
  lemma {:induction false} FoundContains(foods: seq<Food>, ids: seq<string>, id: string)
    requires id in ids && FindFood(foods, id).Some?
    ensures FindFood(foods, id).value in Found(foods, ids)
    decreases |ids|
  {
    if ids[0] != id {
      FoundContains(foods, ids[1..], id);
    }
  }

  lemma FoodIdsContains(items: seq<Food>, f: Food)
    requires f in items
    ensures f.id in FoodIds(items)
  {
    var i :| 0 <= i < |items| && items[i] == f;
    assert FoodIds(items)[i] == f.id;
  }

  /** A key is among the ids of a category's found foods iff its catalog food is of that category. */
  lemma FoundCategoryIds(foods: seq<Food>, ids: seq<string>, category: string, id: string)
    ensures id in FoodIds(Members(SelByType(foods, ids), category)) <==>
      id in ids && FindFood(foods, id).Some? && CategoryOf(FindFood(foods, id).value) == category
  {
    var found := Found(foods, ids);
    GroupByMembers(found, CategoryOf, category);
    var items := Filter(found, CategoryOf, category);
    if id in FoodIds(items) {
      var i :| 0 <= i < |items| && FoodIds(items)[i] == id;
      assert items[i] in items;
    }
    if id in ids && FindFood(foods, id).Some? && CategoryOf(FindFood(foods, id).value) == category {
      FoundContains(foods, ids, id);
      FilterContains(found, CategoryOf, FindFood(foods, id).value);
      FoodIdsContains(items, FindFood(foods, id).value);
    }
  }

  /** The category targets are positive here. */
  ghost predicate Planned(mealTarget: int, byType: seq<Group<Food>>, categories: seq<string>, id: string) {
    exists k :: 0 <= k < |categories| && TargetOf(mealTarget, categories[k]) > 0 &&
      id in FoodIds(Members(byType, categories[k]))
  }

  lemma {:induction false} SplitCategoriesKeys(mealTarget: int, byType: seq<Group<Food>>, acc: Selection,
                                               categories: seq<string>, id: string)
    ensures id in Ids(SplitCategories(mealTarget, byType, acc, categories)) <==>
      id in Ids(acc) || Planned(mealTarget, byType, categories, id)
    decreases |categories|
  {
    if |categories| > 0 {
      var c := categories[0];
      var items := Members(byType, c);
      var targetK := TargetOf(mealTarget, c);
      var next := SplitCategory(mealTarget, byType, acc, c);
      if |items| > 0 && targetK > 0 {
        PutEachKeys(acc, items, (targetK as real) / (|items| as real), id);
      }
      assert id in Ids(next) <==> id in Ids(acc) || (targetK > 0 && id in FoodIds(items));
      SplitCategoriesKeys(mealTarget, byType, next, categories[1..], id);
      if Planned(mealTarget, byType, categories, id) {
        var k :| 0 <= k < |categories| && TargetOf(mealTarget, categories[k]) > 0 &&
          id in FoodIds(Members(byType, categories[k]));
        if k > 0 {
          assert categories[1..][k - 1] == categories[k];
        }
      }
      if Planned(mealTarget, byType, categories[1..], id) {
        var k :| 0 <= k < |categories[1..]| && TargetOf(mealTarget, categories[1..][k]) > 0 &&
          id in FoodIds(Members(byType, categories[1..][k]));
        assert categories[k + 1] == categories[1..][k];
      }
    }
  }

  /**
   * The result has a key exactly for each key of current (after seeding) whose catalog food
   * exists and belongs to a RATIOS category with a positive target: foods of other categories,
   * and keys missing from the catalog, are dropped.
   */
  lemma AllocateKeys(foods: seq<Food>, selected: Selection, mealTarget: int, id: string)
    requires mealTarget > 0
    ensures id in Ids(Allocate(foods, selected, mealTarget)) <==>
      id in Ids(Seeded(foods, selected)) && FindFood(foods, id).Some? &&
      CategoryOf(FindFood(foods, id).value) in RatioCategories() &&
      TargetOf(mealTarget, CategoryOf(FindFood(foods, id).value)) > 0
  {
    var ids := Ids(Seeded(foods, selected));
    EvenSplitDistinct(foods, mealTarget, ids);
    FinishIds(foods, EvenSplit(foods, mealTarget, ids), mealTarget);
    EvenSplitKeys(foods, mealTarget, ids, id);
  }

  /** The split has a key exactly for each catalog food of ids in a RATIOS category with a positive target. */
  lemma EvenSplitKeys(foods: seq<Food>, mealTarget: int, ids: seq<string>, id: string)
    ensures id in Ids(EvenSplit(foods, mealTarget, ids)) <==>
      id in ids && FindFood(foods, id).Some? &&
      CategoryOf(FindFood(foods, id).value) in RatioCategories() &&
      TargetOf(mealTarget, CategoryOf(FindFood(foods, id).value)) > 0
  {
    var byType := SelByType(foods, ids);
    var cats := RatioCategories();
    SplitCategoriesKeys(mealTarget, byType, [], cats, id);
    if Planned(mealTarget, byType, cats, id) {
      var k :| 0 <= k < |cats| && TargetOf(mealTarget, cats[k]) > 0 && id in FoodIds(Members(byType, cats[k]));
      FoundCategoryIds(foods, ids, cats[k], id);
    }
    if id in ids && FindFood(foods, id).Some? {
      var c := CategoryOf(FindFood(foods, id).value);
      if c in cats && TargetOf(mealTarget, c) > 0 {
        var k :| 0 <= k < |cats| && cats[k] == c;
        FoundCategoryIds(foods, ids, c, id);
      }
    }
  }

  // Gram steps

  lemma {:induction false} PutEachGramSteps(acc: Selection, items: seq<Food>, perItemK: real)
    requires AllGramSteps(acc)
    ensures AllGramSteps(PutEach(acc, items, perItemK))
    decreases |items|
  {
    if |items| > 0 {
      PutGramSteps(acc, items[0].id, EvenGrams(perItemK, items[0]));
      PutEachGramSteps(Put(acc, items[0].id, EvenGrams(perItemK, items[0])), items[1..], perItemK);
    }
  }

  lemma {:induction false} SplitCategoriesGramSteps(mealTarget: int, byType: seq<Group<Food>>, acc: Selection, categories: seq<string>)
    requires AllGramSteps(acc)
    ensures AllGramSteps(SplitCategories(mealTarget, byType, acc, categories))
    decreases |categories|
  {
    if |categories| > 0 {
      var items := Members(byType, categories[0]);
      var targetK := TargetOf(mealTarget, categories[0]);
      if |items| > 0 && targetK > 0 {
        PutEachGramSteps(acc, items, (targetK as real) / (|items| as real));
      }
      SplitCategoriesGramSteps(mealTarget, byType, SplitCategory(mealTarget, byType, acc, categories[0]), categories[1..]);
    }
  }

  /** Every value the allocation writes is a non-negative multiple of 5 (0 g entries may remain). */
  lemma AllocateGramSteps(foods: seq<Food>, selected: Selection, mealTarget: int)
    requires mealTarget > 0
    ensures AllGramSteps(Allocate(foods, selected, mealTarget))
  {
    var ids := Ids(Seeded(foods, selected));
    var split := EvenSplit(foods, mealTarget, ids);
    SplitCategoriesGramSteps(mealTarget, SelByType(foods, ids), [], RatioCategories());
    EvenSplitDistinct(foods, mealTarget, ids);
    var capped := ItemCapsOf(foods, TypeCapsOf(foods, RescaledToTarget(foods, split, mealTarget)));
    SameKeysDistinct(capped, split);
    AdjustDownGramSteps(foods, capped, mealTarget);
  }

  /** The values depend only on the keys of the selection, never on its previous grams. */
  lemma AllocateIgnoresGrams(foods: seq<Food>, a: Selection, b: Selection, mealTarget: int)
    requires mealTarget > 0 && Ids(a) == Ids(b)
    ensures Allocate(foods, a, mealTarget) == Allocate(foods, b, mealTarget)
  {
    if |a| == 0 {
      assert a == [] && b == [];
    }
    assert Ids(Seeded(foods, a)) == Ids(Seeded(foods, b));
  }

  /** When the split already lands on the meal target in 5 g steps, the rescale changes nothing. */
  lemma RescaleAtTarget(foods: seq<Food>, next: Selection, mealTarget: int)
    requires mealTarget > 0 && AllGramSteps(next) && ComputeTotalK(foods, next) == mealTarget
    ensures RescaledToTarget(foods, next, mealTarget) == next
  {
    var t := mealTarget as real;
    assert t / t == 1.0;
    var r := Rescaled(next, t / t);
    forall p | 0 <= p < |next| ensures r[p] == next[p] {
      assert (next[p].grams as real) * 1.0 == next[p].grams as real;
      Round5Identity(next[p].grams);
    }
  }

  /**
   * The allocation stops for one of the reasons adjustDownToTarget has: the total is at or under
   * the meal target, no food can lose another 5 g, or 300 steps have been taken.
   */
  lemma AllocateStops(foods: seq<Food>, selected: Selection, mealTarget: int)
    requires mealTarget > 0
    ensures var split := EvenSplit(foods, mealTarget, Ids(Seeded(foods, selected)));
      var capped := ItemCapsOf(foods, TypeCapsOf(foods, RescaledToTarget(foods, split, mealTarget)));
      var r := Allocate(foods, selected, mealTarget);
      ComputeTotalK(foods, r) <= mealTarget || FirstMovable(foods, r, ByDensity(foods, capped)).None? ||
      SumGrams(r) == SumGrams(capped) - 5 * MaxIters
  {
    var ids := Ids(Seeded(foods, selected));
    var split := EvenSplit(foods, mealTarget, ids);
    SplitCategoriesGramSteps(mealTarget, SelByType(foods, ids), [], RatioCategories());
    EvenSplitDistinct(foods, mealTarget, ids);
    var capped := ItemCapsOf(foods, TypeCapsOf(foods, RescaledToTarget(foods, split, mealTarget)));
    SameKeysDistinct(capped, split);
    AdjustDownStops(foods, capped, mealTarget);
  }
}
