/**
 * The state of the useComposer hook and the handlers that replace it: the food catalog, the
 * daily and breakfast budgets, the meal type and the selection.
 */
module ComposerHook {
  import opened Wrappers
  import opened Rounding
  import opened Foods
  import opened Selections
  import opened Intake
  import Edits
  import opened Targets
  import opened Allocator

  class Composer {
    /** The catalog loaded from /api/foods (the empty list until it arrives). */
    var foods: seq<Food>
    /** Number(dailyKcal) and Number(breakfastKcal); None for a text that does not convert. */
    var daily: Option<real>
    var breakfast: Option<real>
    var mealType: MealType
    var selected: Selection

    /** The selection is an object whose values are 5-gram steps. */
    ghost predicate Valid()
      reads this
    {
      DistinctIds(selected) && AllGramSteps(selected)
    }

    /** The initial state: no budget typed yet (Number("") is 0), breakfast 500, lunch, nothing chosen. */
    constructor (catalog: seq<Food>)
      ensures Valid()
      ensures foods == catalog && daily == Some(0.0) && breakfast == Some(500.0)
      ensures mealType == Dejeuner && selected == []
    {
      foods := catalog;
      daily := Some(0.0);
      breakfast := Some(500.0);
      mealType := Dejeuner;
      selected := [];
    }

    /** mealTargetKcal of the current parameters. */
    function MealTarget(): (r: int)
      reads this
      ensures r >= 0
      ensures r == MealTargetKcal(daily, breakfast, mealType)
    {
      MealTargetKcal(daily, breakfast, mealType)
    }

    /** The parameter setters of the form; the selection is kept. */
    method SetParams(newDaily: Option<real>, newBreakfast: Option<real>, newMealType: MealType)
      requires Valid()
      modifies this
      ensures Valid()
      ensures daily == newDaily && breakfast == newBreakfast && mealType == newMealType
      ensures foods == old(foods) && selected == old(selected)
    {
      daily := newDaily;
      breakfast := newBreakfast;
      mealType := newMealType;
    }

    method AddFood(id: string)
      requires Valid()
      modifies this
      ensures Valid()
      ensures selected == Edits.AddFood(old(selected), id)
      ensures id in Ids(old(selected)) ==> selected == old(selected)
      ensures foods == old(foods) && daily == old(daily) && breakfast == old(breakfast) && mealType == old(mealType)
    {
      Edits.AddFoodKeepsSteps(selected, id);
      selected := Edits.AddFood(selected, id);
    }

    method RemoveFood(id: string)
      requires Valid()
      modifies this
      ensures Valid()
      ensures selected == Edits.RemoveFood(old(selected), id)
      ensures Lookup(selected, id) == None
      ensures forall k :: k != id ==> Lookup(selected, k) == Lookup(old(selected), k)
      ensures foods == old(foods) && daily == old(daily) && breakfast == old(breakfast) && mealType == old(mealType)
    {
      Edits.RemoveFoodKeepsSteps(selected, id);
      selected := Edits.RemoveFood(selected, id);
    }

    method UpdateFoodGrams(id: string, delta: int)
      requires Valid()
      modifies this
      ensures Valid()
      ensures selected == Edits.UpdateFoodGrams(foods, old(selected), id, delta)
      ensures forall k :: k != id ==> Lookup(selected, k) == Lookup(old(selected), k)
      ensures foods == old(foods) && daily == old(daily) && breakfast == old(breakfast) && mealType == old(mealType)
    {
      Edits.UpdateFoodGramsKeepsSteps(foods, selected, id, delta);
      selected := Edits.UpdateFoodGrams(foods, selected, id, delta);
    }

    /** autoQuantities(): setSelected(next), or nothing when the meal target is 0. */
    method AutoQuantities()
      requires Valid()
      modifies this
      ensures Valid()
      ensures selected == Allocate(foods, old(selected), MealTarget())
      ensures foods == old(foods) && daily == old(daily) && breakfast == old(breakfast) && mealType == old(mealType)
    {
      var m := MealTarget();
      var next := Allocator.AutoQuantities(foods, selected, m);
      AllocateKeepsSteps(foods, selected, m);
      selected := next;
    }

    /** The totals memo: the kcal of the selection per category and overall. */
    method Totals() returns (perType: map<string, int>, total: int)
      ensures total == SumKcal(SelectedList(foods, selected))
      ensures forall k :: k in perType ==> perType[k] == SumKcalOf(SelectedList(foods, selected), k)
      ensures perType.Keys == CategoriesIn(SelectedList(foods, selected))
    {
      perType, total := Intake.Totals(SelectedList(foods, selected));
    }
  }

  /** autoQuantities keeps the selection an object of 5-gram steps. */
  lemma AllocateKeepsSteps(foods: seq<Food>, selected: Selection, mealTarget: int)
    requires DistinctIds(selected) && AllGramSteps(selected)
    ensures DistinctIds(Allocate(foods, selected, mealTarget)) && AllGramSteps(Allocate(foods, selected, mealTarget))
  {
    if mealTarget > 0 {
      var split := EvenSplit(foods, mealTarget, Ids(Seeded(foods, selected)));
      EvenSplitDistinct(foods, mealTarget, Ids(Seeded(foods, selected)));
      FinishIds(foods, split, mealTarget);
      AllocateGramSteps(foods, selected, mealTarget);
    }
  }
}
