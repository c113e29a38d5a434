/** The food catalog as the composer sees it, and the lookups it makes by food id. */
module Foods {
  import opened Wrappers
  import opened Text
  import opened Rounding
  import opened Grouping

  /**
   * A catalog food. An absent typeName is "", and caloriesPer100g is the value after
   * `Number(...) || 0` (absent or NaN is 0).
   */
  datatype Food = Food(id: string, nom: string, typeName: string, caloriesPer100g: real)

  const DefaultCategory: string := "Autres"

  /** f.typeName || "Autres" */
  function CategoryOf(f: Food): (r: string)
    ensures r != ""
    ensures f.typeName != "" ==> r == f.typeName
    ensures f.typeName == "" ==> r == DefaultCategory
  {
    if f.typeName != "" then f.typeName else DefaultCategory
  }

  /** foods.find(x => x.id === id) */
  function FindFood(foods: seq<Food>, id: string): (r: Option<Food>)
    ensures r.Some? ==> r.value in foods && r.value.id == id
    ensures r.None? <==> forall f :: f in foods ==> f.id != id
  {
    if |foods| == 0 then None
    else if foods[0].id == id then Some(foods[0])
    else FindFood(foods[1..], id)
  }

  /** Catalog ids are document ids, hence unique. */
  ghost predicate UniqueIds(foods: seq<Food>) {
    forall i, j :: 0 <= i < j < |foods| ==> foods[i].id != foods[j].id
  }

  /** With unique ids, looking up a catalog food's id finds that food. */
  lemma {:induction false} FindFoodUnique(foods: seq<Food>, f: Food)
    requires UniqueIds(foods) && f in foods
    ensures FindFood(foods, f.id) == Some(f)
    decreases |foods|
  {
    if foods[0] != f {
      assert foods[0].id != f.id by {
        var j :| 0 <= j < |foods| && foods[j] == f;
      }
      FindFoodUnique(foods[1..], f);
    }
  }

  /** typeOf(id): the found food's category, "Autres" for an id the catalog does not have. */
  function TypeOf(foods: seq<Food>, id: string): (r: string)
    ensures r != ""
    ensures FindFood(foods, id).Some? ==> r == CategoryOf(FindFood(foods, id).value)
    ensures FindFood(foods, id).None? ==> r == DefaultCategory
  {
    match FindFood(foods, id)
    case Some(f) => CategoryOf(f)
    case None => DefaultCategory
  }

  /** kcalPerGram(id): calories per gram, 0 for an id the catalog does not have. */
  function KcalPerGram(foods: seq<Food>, id: string): (r: real)
    ensures FindFood(foods, id).Some? ==> r * 100.0 == FindFood(foods, id).value.caloriesPer100g
    ensures FindFood(foods, id).None? ==> r == 0.0
  {
    match FindFood(foods, id)
    case Some(f) => f.caloriesPer100g / 100.0
    case None => 0.0
  }

  /** Calories are never negative in the catalog. */
  ghost predicate NonNegativeCalories(foods: seq<Food>) {
    forall f :: f in foods ==> f.caloriesPer100g >= 0.0
  }

  lemma KcalPerGramNonNegative(foods: seq<Food>, id: string)
    requires NonNegativeCalories(foods)
    ensures KcalPerGram(foods, id) >= 0.0
  {
  }

  /** grouped: the catalog bucketed by category. */
  function Grouped(foods: seq<Food>): seq<Group<Food>> {
    GroupBy(foods, CategoryOf)
  }

  /** grouped[type] holds exactly the catalog foods of that category, in catalog order. */
  lemma GroupedMembers(foods: seq<Food>, category: string)
    ensures Members(Grouped(foods), category) == Filter(foods, CategoryOf, category)
  {
    GroupByMembers(foods, CategoryOf, category);
  }

  /** The food with an absolute gram ceiling, by display name. */
  const CappedFoodName: string := "Blanc de poulet cru"

  /** norm("Blanc de poulet cru"), written out. */
  const CappedFoodKey: string := "blanc de poulet cru"

  const CappedFoodMaxGrams: int := 300

  /** The key written out is indeed norm of the display name. */
  lemma CappedKeyIsNorm()
    ensures Norm(CappedFoodName) == CappedFoodKey
  {
    var rest := CappedFoodName[1..];
    assert rest == CappedFoodKey[1..];
    NormPlain(rest);
    assert FoldChar('B') == ['b'];
    assert CappedFoodKey == ['b'] + rest;
  }

  /** The ceiling applies to a food whose name is non-empty and normalises to the capped key. */
  predicate IsCappedName(nom: string) {
    nom != "" && Norm(nom) == CappedFoodKey
  }

  /** getItemMaxGrams(id): 300 for the food whose normalised name is that of raw chicken breast. */
  function ItemMaxGrams(foods: seq<Food>, id: string): (r: Option<int>)
    ensures r.Some? <==> FindFood(foods, id).Some? && IsCappedName(FindFood(foods, id).value.nom)
    ensures r.Some? ==> r.value == CappedFoodMaxGrams
  {
    match FindFood(foods, id)
    case None => None
    case Some(f) =>
      if f.nom == "" then None
      else if Norm(f.nom) == CappedFoodKey then Some(CappedFoodMaxGrams)
      else None
  }

  /** clampItemGrams(id, grams): the grams, lowered to the item's ceiling when it has one. */
  function ClampItemGrams(foods: seq<Food>, id: string, grams: int): (r: int)
    ensures r <= grams
    ensures ItemMaxGrams(foods, id).None? ==> r == grams
    ensures ItemMaxGrams(foods, id).Some? ==> r == Min(grams, CappedFoodMaxGrams)
  {
    match ItemMaxGrams(foods, id)
    case None => grams
    case Some(maxG) => Min(grams, maxG)
  }
}
