/**
 * /api/meals: the parameter check of GET and, for POST, the body check and the normalisation
 * of the items into the stored meal document the shopping list later reads.
 */
module MealsApi {
  import opened Wrappers
  import opened Http
  import opened Shopping

  /** GET: the userId query parameter ("" when absent) selects the meals to list. */
  function ListMeals(userId: string): (r: Outcome<string>)
    ensures r.Rejected? <==> userId == ""
    ensures r.Rejected? ==> r.status == 400 && r.error == "userId requis"
    ensures r.Accepted? ==> r.status == 200 && r.value == userId
  {
    if userId == "" then Rejected(400, "userId requis") else Accepted(200, userId)
  }

  /**
   * An item of the body. Falsy strings are "", and a number that does not convert after
   * Number(...) is None.
   */
  datatype RawItem = RawItem(
    id: string,
    foodId: string,
    nom: string,
    typeName: string,
    caloriesPer100g: Option<real>,
    grams: Option<real>,
    gramsPerPortion: Option<real>)

  /**
   * The body. portions is Number(portions), None when it does not convert; an absent field
   * gives Some(1.0). items is None when it is not an array; an absent field is the empty list.
   */
  datatype NewMealBody = NewMealBody(userId: string, name: string, portions: Option<real>, items: Option<seq<RawItem>>)

  /** The document written to the meals collection, without its server timestamp. */
  datatype NewMeal = NewMeal(userId: string, name: string, doc: MealDoc)

  /** Number(x) || fallback: a value that does not convert, and 0, give the fallback. */
  function OrElse(x: Option<real>, fallback: real): (r: real)
    ensures x.Some? && x.value != 0.0 ==> r == x.value
    ensures x.None? || x.value == 0.0 ==> r == fallback
  {
    if x.Some? && x.value != 0.0 then x.value else fallback
  }

  /** One element of cleanItems. */
  function CleanItem(it: RawItem): (r: MealItem)
    ensures r.foodId == (if it.id != "" then it.id else it.foodId)
    ensures r.nom == it.nom
    ensures r.typeName != "" && (it.typeName != "" ==> r.typeName == it.typeName)
    ensures it.typeName == "" ==> r.typeName == "Autres"
    ensures r.caloriesPer100g.Some? && r.gramsPerPortion.Some?
    ensures r.caloriesPer100g.value == it.caloriesPer100g.GetOr(0.0)
    ensures r.gramsPerPortion.value == OrElse(it.grams, OrElse(it.gramsPerPortion, 0.0))
  {
    MealItem(
      if it.id != "" then it.id else it.foodId,
      it.nom,
      if it.typeName != "" then it.typeName else "Autres",
      Some(OrElse(it.caloriesPer100g, 0.0)),
      Some(OrElse(it.grams, OrElse(it.gramsPerPortion, 0.0))))
  }

  /** items.map(cleanItem): same length, same order. */
  function CleanItems(items: seq<RawItem>): (r: seq<MealItem>)
    ensures |r| == |items|
    ensures forall i :: 0 <= i < |items| ==> r[i] == CleanItem(items[i])
  {
    seq(|items|, i requires 0 <= i < |items| => CleanItem(items[i]))
  }

  /** Number(portions) || 1 */
  function StoredPortions(portions: Option<real>): (r: real)
    ensures r != 0.0
    ensures portions.Some? && portions.value != 0.0 ==> r == portions.value
  {
    OrElse(portions, 1.0)
  }

  /** POST: 400 unless userId, name and a non-empty items array are given; then 201 with the document. */
  function CreateMeal(body: NewMealBody): (r: Outcome<NewMeal>)
    ensures r.Rejected? <==> body.userId == "" || body.name == "" || body.items.None? || |body.items.value| == 0
    ensures r.Rejected? ==> r.status == 400 && r.error == "Champs requis: userId, name, items[]"
    ensures r.Accepted? ==> r.status == 201 && r.value.userId == body.userId && r.value.name == body.name
    ensures r.Accepted? ==> r.value.doc.items == CleanItems(body.items.value)
    ensures r.Accepted? ==> r.value.doc.portions == Some(StoredPortions(body.portions))
  {
    if body.userId == "" || body.name == "" || body.items.None? || |body.items.value| == 0 then
      Rejected(400, "Champs requis: userId, name, items[]")
    else
      Accepted(201, NewMeal(body.userId, body.name, MealDoc(Some(StoredPortions(body.portions)), CleanItems(body.items.value))))
  }

  /** A grams value of 0 falls through to gramsPerPortion, and two zeros give 0. */
  lemma ZeroGramsFallThrough(it: RawItem)
    requires it.grams == Some(0.0)
    ensures it.gramsPerPortion == Some(50.0) ==> CleanItem(it).gramsPerPortion == Some(50.0)
    ensures it.gramsPerPortion == Some(0.0) ==> CleanItem(it).gramsPerPortion == Some(0.0)
  {
  }

  /** A stored item read back as a body item: its id now in foodId, its grams in gramsPerPortion. */
  function AsRaw(m: MealItem): RawItem {
    RawItem("", m.foodId, m.nom, m.typeName, m.caloriesPer100g, None, m.gramsPerPortion)
  }

  /** Cleaning is idempotent: a stored item cleaned again is unchanged. */
  lemma CleanItemIdempotent(it: RawItem)
    ensures CleanItem(AsRaw(CleanItem(it))) == CleanItem(it)
  {
  }

  /**
   * A meal saved by POST and requested without an override is scaled by its stored portions,
   * which are never 0; each stored item is merged under its id, else its foodId, else its nom.
   */
  lemma SavedMealMultiplier(body: NewMealBody, id: string, portionsByMeal: map<string, real>)
    requires CreateMeal(body).Accepted? && id !in portionsByMeal
    ensures var doc := CreateMeal(body).value.doc;
      Multiplier(portionsByMeal, Meal(id, doc.portions, doc.items)) == StoredPortions(body.portions) &&
      Multiplier(portionsByMeal, Meal(id, doc.portions, doc.items)) != 0.0
    ensures forall i :: 0 <= i < |body.items.value| ==>
      var raw := body.items.value[i];
      KeyOf(CreateMeal(body).value.doc.items[i]) ==
        if raw.id != "" then raw.id else if raw.foodId != "" then raw.foodId else raw.nom
  {
  }
}
