/** The manual edits of the selection: the updater functions passed to setSelected. */
module Edits {
  import opened Wrappers
  import opened Rounding
  import opened Foods
  import opened Selections

  /** The grams a newly chosen food starts with. */
  const DefaultGrams: int := 100

  /** addFood(id): a food already chosen keeps its grams; a new one starts at 100 g. */
  function AddFood(prev: Selection, id: string): (r: Selection)
    ensures id in Ids(prev) ==> r == prev
    ensures id !in Ids(prev) ==> Lookup(r, id) == Some(DefaultGrams) && Ids(r) == Ids(prev) + [id]
    ensures forall k :: k != id ==> Lookup(r, k) == Lookup(prev, k)
  {
    if Lookup(prev, id).Some? then prev
    else
      PutLookup(prev, id, DefaultGrams);
      PutIds(prev, id, DefaultGrams);
      Put(prev, id, DefaultGrams)
  }

  /** removeFood(id): only that key goes. */
  function RemoveFood(prev: Selection, id: string): (r: Selection)
    ensures Lookup(r, id) == None
    ensures forall k :: k != id ==> Lookup(r, k) == Lookup(prev, k)
  {
    Remove(prev, id)
  }

  /**
   * The grams updateFoodGrams writes before deciding between keeping and deleting the key:
   * the 5-gram step nearest to cur + delta lowered to the food's ceiling, or 0 when that is
   * not positive. Being a step within 2.5 of a non-negative value fixes it uniquely.
   */
  function SteppedGrams(foods: seq<Food>, prev: Selection, id: string, delta: int): (g: int)
    ensures IsGramStep(g)
    ensures ItemMaxGrams(foods, id).Some? ==> g <= CappedFoodMaxGrams
    ensures var want := GramsOf(prev, id) + delta;
      IsGramStep(want) && (ItemMaxGrams(foods, id).None? || want <= CappedFoodMaxGrams) ==> g == want
    ensures var want := GramsOf(prev, id) + delta;
      ItemMaxGrams(foods, id).Some? && want >= CappedFoodMaxGrams ==> g == CappedFoodMaxGrams
    ensures GramsOf(prev, id) + delta <= 0 ==> g == 0
    ensures var c := ClampItemGrams(foods, id, GramsOf(prev, id) + delta);
      c >= 0 ==> c as real - 2.5 < g as real <= c as real + 2.5
  {
    var want := GramsOf(prev, id) + delta;
    var clamped := ClampItemGrams(foods, id, want);
    ClampRoundFacts(foods, id, want);
    Max(0, Round5(clamped as real))
  }

  lemma ClampRoundFacts(foods: seq<Food>, id: string, want: int)
    ensures ItemMaxGrams(foods, id).Some? ==>
      Round5(ClampItemGrams(foods, id, want) as real) <= CappedFoodMaxGrams
    ensures IsGramStep(want) && (ItemMaxGrams(foods, id).None? || want <= CappedFoodMaxGrams) ==>
      Round5(ClampItemGrams(foods, id, want) as real) == want
    ensures ItemMaxGrams(foods, id).Some? && want >= CappedFoodMaxGrams ==>
      Round5(ClampItemGrams(foods, id, want) as real) == CappedFoodMaxGrams
    ensures want <= 0 ==> Round5(ClampItemGrams(foods, id, want) as real) == 0
  {
    var clamped := ClampItemGrams(foods, id, want);
    if ItemMaxGrams(foods, id).Some? {
      Round5AtMost(clamped as real, CappedFoodMaxGrams);
    }
    if IsGramStep(want) && (ItemMaxGrams(foods, id).None? || want <= CappedFoodMaxGrams) {
      Round5Identity(want);
    }
    if ItemMaxGrams(foods, id).Some? && want >= CappedFoodMaxGrams {
      Round5Identity(CappedFoodMaxGrams);
    }
    if want <= 0 {
      Round5Monotone(clamped as real, 0.0);
      Round5Identity(0);
    }
  }

  /**
   * updateFoodGrams(id, delta): moves the food's grams by delta (an absent food counts as 0),
   * clamped to its ceiling and rounded to 5 g; a result of 0 removes the food.
   */
  function UpdateFoodGrams(foods: seq<Food>, prev: Selection, id: string, delta: int): (r: Selection)
    ensures var g := SteppedGrams(foods, prev, id, delta);
      Lookup(r, id) == if g > 0 then Some(g) else None
    ensures forall k :: k != id ==> Lookup(r, k) == Lookup(prev, k)
  {
    var nextG := SteppedGrams(foods, prev, id, delta);
    if nextG <= 0 then Remove(prev, id)
    else
      PutLookup(prev, id, nextG);
      Put(prev, id, nextG)
  }

  /** Each edit keeps the selection an object (distinct keys) whose values are 5-gram steps. */
  lemma AddFoodKeepsSteps(prev: Selection, id: string)
    requires DistinctIds(prev) && AllGramSteps(prev)
    ensures DistinctIds(AddFood(prev, id)) && AllGramSteps(AddFood(prev, id))
  {
    if Lookup(prev, id).None? {
      PutDistinct(prev, id, DefaultGrams);
      PutGramSteps(prev, id, DefaultGrams);
    }
  }

  lemma RemoveFoodKeepsSteps(prev: Selection, id: string)
    requires DistinctIds(prev) && AllGramSteps(prev)
    ensures DistinctIds(RemoveFood(prev, id)) && AllGramSteps(RemoveFood(prev, id))
  {
    RemoveDistinct(prev, id);
    RemoveGramSteps(prev, id);
  }

  lemma UpdateFoodGramsKeepsSteps(foods: seq<Food>, prev: Selection, id: string, delta: int)
    requires DistinctIds(prev) && AllGramSteps(prev)
    ensures DistinctIds(UpdateFoodGrams(foods, prev, id, delta))
    ensures AllGramSteps(UpdateFoodGrams(foods, prev, id, delta))
  {
    var g := SteppedGrams(foods, prev, id, delta);
    if g <= 0 {
      RemoveDistinct(prev, id);
      RemoveGramSteps(prev, id);
    } else {
      PutDistinct(prev, id, g);
      PutGramSteps(prev, id, g);
    }
  }
}
