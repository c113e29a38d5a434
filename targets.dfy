/**
 * The calorie targets of the composer: the meal target from the daily budget, the breakfast
 * and the meal type, and its split over the RATIOS categories.
 */
module Targets {
  import opened Wrappers
  import opened Rounding
  import opened Tables

  /** The two meals the composer plans. */
  datatype MealType = Dejeuner | Diner

  /** The share of what is left after breakfast that the meal takes. */
  function MealShare(mealType: MealType): real {
    if mealType == Dejeuner then 0.6 else 0.4
  }

  /** Number(x) || 0, where None stands for a value that does not convert (NaN). */
  function NumberOrZero(x: Option<real>): real {
    if x.Some? then x.value else 0.0
  }

  /** What is left of the daily budget after breakfast, never negative. */
  function Remaining(daily: Option<real>, breakfast: Option<real>): (r: real)
    ensures r >= 0.0
    ensures r >= NumberOrZero(daily) - NumberOrZero(breakfast)
  {
    var d := NumberOrZero(daily) - NumberOrZero(breakfast);
    if d >= 0.0 then d else 0.0
  }

  /** mealTargetKcal: round(max(0, daily - breakfast) * ratio). */
  function MealTargetKcal(daily: Option<real>, breakfast: Option<real>, mealType: MealType): (r: int)
    ensures r >= 0
    ensures Remaining(daily, breakfast) * MealShare(mealType) - 0.5 < r as real
    ensures r as real <= Remaining(daily, breakfast) * MealShare(mealType) + 0.5
  {
    Round(Remaining(daily, breakfast) * MealShare(mealType))
  }

  /** Inputs that do not convert count as 0; a breakfast over the budget leaves a target of 0. */
  lemma MealTargetNoBudget(breakfast: Option<real>, mealType: MealType)
    requires breakfast.None? || breakfast.value >= 0.0
    ensures MealTargetKcal(None, breakfast, mealType) == 0
  {
    assert Remaining(None, breakfast) == 0.0;
    assert Round(0.0) == 0;
  }

  /** 2200 kcal a day with a 500 kcal breakfast: 1020 kcal at lunch, 680 at dinner. */
  lemma MealTargetExample()
    ensures MealTargetKcal(Some(2200.0), Some(500.0), Dejeuner) == 1020
    ensures MealTargetKcal(Some(2200.0), Some(500.0), Diner) == 680
  {
    assert Remaining(Some(2200.0), Some(500.0)) == 1700.0;
    assert Round(1020.0) == 1020;
    assert Round(680.0) == 680;
  }

  /** Lunch and dinner together plan what is left after breakfast, to within one kcal. */
  lemma MealTargetsCoverDay(daily: Option<real>, breakfast: Option<real>)
    ensures var both := MealTargetKcal(daily, breakfast, Dejeuner) + MealTargetKcal(daily, breakfast, Diner);
      Remaining(daily, breakfast) - 1.0 < both as real <= Remaining(daily, breakfast) + 1.0
  {
    var rem := Remaining(daily, breakfast);
    assert rem * 0.6 + rem * 0.4 == rem;
  }

  /** targets[type] = round(mealTargetKcal * ratio). */
  function CategoryTarget(mealTargetKcal: int, share: real): (r: int)
    ensures (mealTargetKcal as real) * share - 0.5 < r as real <= (mealTargetKcal as real) * share + 0.5
  {
    Round((mealTargetKcal as real) * share)
  }

  /** targets[type] || 0 for any category: 0 for one RATIOS does not list. */
  function TargetOf(mealTargetKcal: int, category: string): (r: int)
    ensures ShareOf(category).None? ==> r == 0
    ensures ShareOf(category).Some? ==> r == CategoryTarget(mealTargetKcal, ShareOf(category).value)
  {
    match ShareOf(category)
    case None => 0
    case Some(share) => CategoryTarget(mealTargetKcal, share)
  }

  /** The sum of the category targets of a list of ratios. */
  function SumTargets(mealTargetKcal: int, rs: seq<Ratio>): int {
    if |rs| == 0 then 0 else CategoryTarget(mealTargetKcal, rs[0].share) + SumTargets(mealTargetKcal, rs[1..])
  }

  lemma {:induction false} SumTargetsBounds(mealTargetKcal: int, rs: seq<Ratio>)
    ensures (mealTargetKcal as real) * SumShares(rs) - 0.5 * (|rs| as real) <= SumTargets(mealTargetKcal, rs) as real
    ensures SumTargets(mealTargetKcal, rs) as real <= (mealTargetKcal as real) * SumShares(rs) + 0.5 * (|rs| as real)
    decreases |rs|
  {
    if |rs| > 0 {
      SumTargetsBounds(mealTargetKcal, rs[1..]);
      var t := mealTargetKcal as real;
      assert t * SumShares(rs) == t * rs[0].share + t * SumShares(rs[1..]);
    }
  }

  /** The four category targets add up to the meal target, to within 2 kcal. */
  lemma TargetsSumToMeal(mealTargetKcal: int)
    ensures (mealTargetKcal - 2) as real <= SumTargets(mealTargetKcal, Ratios) as real <= (mealTargetKcal + 2) as real
  {
    RatiosSumToOne();
    SumTargetsBounds(mealTargetKcal, Ratios);
  }

  /** A non-negative meal target gives non-negative category targets. */
  lemma TargetsNonNegative(mealTargetKcal: int, category: string)
    requires mealTargetKcal >= 0
    ensures TargetOf(mealTargetKcal, category) >= 0
  {
    RatiosSumToOne();
    ShareOfAgrees();
    if ShareOf(category).Some? {
      assert ShareOf(category).value > 0.0;
      assert (mealTargetKcal as real) * ShareOf(category).value >= 0.0;
    }
  }
}
