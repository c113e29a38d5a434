/**
 * POST /api/shopping-list: the items of the chosen saved meals, each scaled by the meal's
 * portion multiplier, merged under the key `foodId || nom`, rounded to 5 g and sorted by
 * category and then by name.
 */
module Shopping {
  import opened Wrappers
  import opened Rounding
  import opened Text
  import opened Sorting
  import Seqs

  /**
   * An item as a saved meal stores it. Falsy strings are "", and a number that is unset or
   * does not convert is None.
   */
  datatype MealItem = MealItem(
    foodId: string,
    nom: string,
    typeName: string,
    caloriesPer100g: Option<real>,
    gramsPerPortion: Option<real>)

  /** A meal document: its `portions` field (None when undefined or null) and its items (absent is empty). */
  datatype MealDoc = MealDoc(portions: Option<real>, items: seq<MealItem>)

  /** A fetched meal, `{ id: s.id, ...s.data() }`. */
  datatype Meal = Meal(id: string, portions: Option<real>, items: seq<MealItem>)

  /**
   * The parsed body. mealIds is None when it is not an array; an absent field is the empty list.
   * portionsByMeal is None when it is null; an absent field is the empty object, and a key
   * whose value is null counts as absent.
   */
  datatype Request = Request(mealIds: Option<seq<string>>, portionsByMeal: Option<map<string, real>>)

  /** An accumulated entry, before rounding. */
  datatype Tally = Tally(foodId: Option<string>, nom: string, typeName: string, caloriesPer100g: real, grams: real)

  /** One entry of the Map `acc`: its key and its value. */
  datatype Slot = Slot(key: string, tally: Tally)

  /** An entry of the returned list, its grams rounded to 5. */
  datatype Line = Line(foodId: Option<string>, nom: string, typeName: string, caloriesPer100g: real, grams: int)

  /** One item of one meal together with the meal's multiplier. */
  datatype Portion = Portion(item: MealItem, mult: real)

  datatype Payload = ErrorMessage(error: string) | Items(items: seq<Line>)

  datatype Reply = Reply(status: int, payload: Payload)

  // ---------------------------------------------------------------- fetching the meals

  /** The meal for a document that exists. */
  function Load(db: map<string, MealDoc>, id: string): Meal
    requires id in db
  {
    Meal(id, db[id].portions, db[id].items)
  }

  /** The requested meals whose document exists, in request order; the others are skipped. */
  function Fetch(db: map<string, MealDoc>, ids: seq<string>): (r: seq<Meal>)
    ensures |r| <= |ids|
    ensures forall m :: m in r ==> m.id in ids && m.id in db && m == Load(db, m.id)
    ensures forall id :: id in ids && id in db ==> Load(db, id) in r
    ensures (forall id :: id in ids ==> id !in db) ==> r == []
  {
    if |ids| == 0 then []
    else (if ids[0] in db then [Load(db, ids[0])] else []) + Fetch(db, ids[1..])
  }

  // ---------------------------------------------------------------- one item

  /** Number(portionsByMeal[meal.id] ?? meal.portions ?? 1). */
  function Multiplier(portionsByMeal: map<string, real>, meal: Meal): real {
    if meal.id in portionsByMeal then portionsByMeal[meal.id] else meal.portions.GetOr(1.0)
  }

  /** An explicit multiplier of 0 is kept: `??` falls through only on undefined and null. */
  lemma ZeroPortionsKept(meal: Meal)
    requires meal.portions.Some?
    ensures Multiplier(map[meal.id := 0.0], meal) == 0.0
    ensures Multiplier(map[], meal) == meal.portions.value
    ensures Multiplier(map[], meal.(portions := None)) == 1.0
  {
  }

  /** foodId || nom */
  function KeyOf(it: MealItem): string {
    if it.foodId != "" then it.foodId else it.nom
  }

  /** The entry the first item of a key creates, at 0 g. */
  function FreshTally(it: MealItem): (r: Tally)
    ensures r.grams == 0.0 && r.nom == it.nom
    ensures r.foodId.Some? <==> it.foodId != ""
    ensures r.foodId.Some? ==> r.foodId.value == it.foodId
    ensures r.typeName != "" && (it.typeName != "" ==> r.typeName == it.typeName)
    ensures it.typeName == "" ==> r.typeName == "Autres"
    ensures it.caloriesPer100g.None? ==> r.caloriesPer100g == 0.0
    ensures it.caloriesPer100g.Some? ==> r.caloriesPer100g == it.caloriesPer100g.value
  {
    Tally(
      if it.foodId != "" then Some(it.foodId) else None,
      it.nom,
      if it.typeName != "" then it.typeName else "Autres",
      it.caloriesPer100g.GetOr(0.0),
      0.0)
  }

  /** (Number(it.gramsPerPortion) || 0) * mult */
  function Contribution(p: Portion): real {
    p.item.gramsPerPortion.GetOr(0.0) * p.mult
  }

  // ---------------------------------------------------------------- the Map acc

  /** The keys of acc in insertion order. */
  function Keys(acc: seq<Slot>): (r: seq<string>)
    ensures |r| == |acc|
  {
    if |acc| == 0 then [] else [acc[0].key] + Keys(acc[1..])
  }

  /** acc.get(key) */
  function TallyAt(acc: seq<Slot>, key: string): Option<Tally> {
    if |acc| == 0 then None
    else if acc[0].key == key then Some(acc[0].tally)
    else TallyAt(acc[1..], key)
  }

  /** acc.set(key, t): replaces the value in place, or appends a new key at the end. */
  function SetSlot(acc: seq<Slot>, key: string, t: Tally): seq<Slot> {
    if |acc| == 0 then [Slot(key, t)]
    else if acc[0].key == key then [Slot(key, t)] + acc[1..]
    else [acc[0]] + SetSlot(acc[1..], key, t)
  }

  lemma {:induction false} TallyAtKeys(acc: seq<Slot>, k: string)
    ensures TallyAt(acc, k).Some? <==> k in Keys(acc)
    decreases |acc|
  {
    if |acc| > 0 {
      TallyAtKeys(acc[1..], k);
    }
  }

  /** After acc.set(key, t), acc.get gives t for key and what it gave before for every other key. */
  lemma {:induction false} SetSlotLookup(acc: seq<Slot>, key: string, t: Tally, k: string)
    ensures TallyAt(SetSlot(acc, key, t), k) == if k == key then Some(t) else TallyAt(acc, k)
    decreases |acc|
  {
    if |acc| > 0 && acc[0].key != key {
      SetSlotLookup(acc[1..], key, t, k);
    }
  }

  /** acc.set keeps the order of the keys and appends a new one at the end. */
  lemma {:induction false} SetSlotKeys(acc: seq<Slot>, key: string, t: Tally)
    ensures Keys(SetSlot(acc, key, t)) == if key in Keys(acc) then Keys(acc) else Keys(acc) + [key]
    decreases |acc|
  {
    if |acc| > 0 && acc[0].key != key {
      SetSlotKeys(acc[1..], key, t);
      assert Keys(acc) == [acc[0].key] + Keys(acc[1..]);
    }
  }

  // ---------------------------------------------------------------- the accumulation

  /** One pass of the inner loop body: prev = acc.get(key) || fresh; prev.grams += ...; acc.set(key, prev). */
  function AddOne(acc: seq<Slot>, p: Portion): seq<Slot> {
    var key := KeyOf(p.item);
    var prev := TallyAt(acc, key).GetOr(FreshTally(p.item));
    SetSlot(acc, key, prev.(grams := prev.grams + Contribution(p)))
  }

  /** The loop body run over ps, in order. */
  function AddAll(acc: seq<Slot>, ps: seq<Portion>): seq<Slot>
    decreases |ps|
  {
    if |ps| == 0 then acc else AddOne(AddAll(acc, ps[..|ps| - 1]), ps[|ps| - 1])
  }

  /** The items of one meal, each with the meal's multiplier. */
  function Weigh(items: seq<MealItem>, mult: real): (r: seq<Portion>)
    ensures |r| == |items|
    ensures forall i :: 0 <= i < |items| ==> r[i] == Portion(items[i], mult)
  {
    seq(|items|, i requires 0 <= i < |items| => Portion(items[i], mult))
  }

  /** The items of all meals in loop order, each with its meal's multiplier. */
  function Flatten(meals: seq<Meal>, portionsByMeal: map<string, real>): seq<Portion>
    decreases |meals|
  {
    if |meals| == 0 then []
    else
      var last := meals[|meals| - 1];
      Flatten(meals[..|meals| - 1], portionsByMeal) + Weigh(last.items, Multiplier(portionsByMeal, last))
  }

  /** The Map acc after the nested loops. */
  function Accumulate(meals: seq<Meal>, portionsByMeal: map<string, real>): seq<Slot> {
    AddAll([], Flatten(meals, portionsByMeal))
  }

  lemma AddAllSnoc(acc: seq<Slot>, ps: seq<Portion>, p: Portion)
    ensures AddAll(acc, ps + [p]) == AddOne(AddAll(acc, ps), p)
  {
    assert (ps + [p])[..|ps|] == ps;
  }

  lemma {:induction false} AddAllAppend(acc: seq<Slot>, a: seq<Portion>, b: seq<Portion>)
    ensures AddAll(acc, a + b) == AddAll(AddAll(acc, a), b)
    decreases |b|
  {
    if |b| == 0 {
      assert a + b == a;
    } else {
      var init, last := b[..|b| - 1], b[|b| - 1];
      assert a + b == (a + init) + [last];
      Seqs.SplitLast(b);
      calc {
        AddAll(acc, a + b);
        { AddAllSnoc(acc, a + init, last); }
        AddOne(AddAll(acc, a + init), last);
        { AddAllAppend(acc, a, init); }
        AddOne(AddAll(AddAll(acc, a), init), last);
        { AddAllSnoc(AddAll(acc, a), init, last); }
        AddAll(AddAll(acc, a), b);
      }
    }
  }

  lemma WeighSnoc(items: seq<MealItem>, j: nat, mult: real)
    requires j < |items|
    ensures Weigh(items[..j + 1], mult) == Weigh(items[..j], mult) + [Portion(items[j], mult)]
  {
  }

  lemma FlattenSnoc(meals: seq<Meal>, i: nat, portionsByMeal: map<string, real>)
    requires i < |meals|
    ensures Flatten(meals[..i + 1], portionsByMeal)
      == Flatten(meals[..i], portionsByMeal) + Weigh(meals[i].items, Multiplier(portionsByMeal, meals[i]))
  {
    assert meals[..i + 1][..i] == meals[..i];
  }

  lemma InnerStep(before: seq<Slot>, items: seq<MealItem>, j: nat, mult: real, acc: seq<Slot>)
    requires j < |items| && acc == AddAll(before, Weigh(items[..j], mult))
    ensures AddOne(acc, Portion(items[j], mult)) == AddAll(before, Weigh(items[..j + 1], mult))
  {
    WeighSnoc(items, j, mult);
    AddAllSnoc(before, Weigh(items[..j], mult), Portion(items[j], mult));
  }

  lemma OuterStep(meals: seq<Meal>, i: nat, portionsByMeal: map<string, real>, before: seq<Slot>, acc: seq<Slot>)
    requires i < |meals| && before == AddAll([], Flatten(meals[..i], portionsByMeal))
    requires acc == AddAll(before, Weigh(meals[i].items[..|meals[i].items|], Multiplier(portionsByMeal, meals[i])))
    ensures acc == AddAll([], Flatten(meals[..i + 1], portionsByMeal))
  {
    assert meals[i].items[..|meals[i].items|] == meals[i].items;
    FlattenSnoc(meals, i, portionsByMeal);
    AddAllAppend([], Flatten(meals[..i], portionsByMeal), Weigh(meals[i].items, Multiplier(portionsByMeal, meals[i])));
  }

  /** The inner for loop over one meal's items, updating acc in place. */
  method AddItems(before: seq<Slot>, items: seq<MealItem>, mult: real) returns (acc: seq<Slot>)
    ensures acc == AddAll(before, Weigh(items[..|items|], mult))
  {
    acc := before;
    for j := 0 to |items|
      invariant acc == AddAll(before, Weigh(items[..j], mult))
    {
      var it := items[j];
      var key := KeyOf(it);
      var prev := TallyAt(acc, key).GetOr(FreshTally(it));
      prev := prev.(grams := prev.grams + Contribution(Portion(it, mult)));
      InnerStep(before, items, j, mult, acc);
      acc := SetSlot(acc, key, prev);
    }
  }

  /** The nested for loops of the handler, updating acc in place. */
  method Aggregate(meals: seq<Meal>, portionsByMeal: map<string, real>) returns (acc: seq<Slot>)
    ensures acc == Accumulate(meals, portionsByMeal)
  {
    acc := [];
    for i := 0 to |meals|
      invariant acc == AddAll([], Flatten(meals[..i], portionsByMeal))
    {
      var meal := meals[i];
      var mult := Multiplier(portionsByMeal, meal);
      ghost var before := acc;
      acc := AddItems(acc, meal.items, mult);
      OuterStep(meals, i, portionsByMeal, before, acc);
    }
    assert meals[..|meals|] == meals;
  }

  // ---------------------------------------------------------------- one entry per key

  /** seen followed by the keys of ks not seen before, in order of first appearance. */
  function Dedup(seen: seq<string>, ks: seq<string>): seq<string>
    decreases |ks|
  {
    if |ks| == 0 then seen
    else
      var d := Dedup(seen, ks[..|ks| - 1]);
      if ks[|ks| - 1] in d then d else d + [ks[|ks| - 1]]
  }

  ghost predicate Distinct(ks: seq<string>) {
    forall i, j :: 0 <= i < j < |ks| ==> ks[i] != ks[j]
  }

  lemma {:induction false} DedupFacts(seen: seq<string>, ks: seq<string>)
    requires Distinct(seen)
    ensures Distinct(Dedup(seen, ks))
    ensures forall k :: k in Dedup(seen, ks) <==> k in seen || k in ks
    decreases |ks|
  {
    if |ks| > 0 {
      var init := ks[..|ks| - 1];
      DedupFacts(seen, init);
      Seqs.SplitLast(ks);
    }
  }

  function KeysOf(ps: seq<Portion>): (r: seq<string>)
    ensures |r| == |ps|
  {
    seq(|ps|, i requires 0 <= i < |ps| => KeyOf(ps[i].item))
  }

  /** The keys `foodId || nom` of all items of all meals, in loop order. */
  function ItemKeys(meals: seq<Meal>): seq<string>
    decreases |meals|
  {
    if |meals| == 0 then []
    else
      var items := meals[|meals| - 1].items;
      ItemKeys(meals[..|meals| - 1]) + seq(|items|, i requires 0 <= i < |items| => KeyOf(items[i]))
  }

  lemma {:induction false} KeysOfFlatten(meals: seq<Meal>, portionsByMeal: map<string, real>)
    ensures KeysOf(Flatten(meals, portionsByMeal)) == ItemKeys(meals)
    decreases |meals|
  {
    if |meals| > 0 {
      var init := meals[..|meals| - 1];
      var last := meals[|meals| - 1];
      KeysOfFlatten(init, portionsByMeal);
      var a := Flatten(init, portionsByMeal);
      var b := Weigh(last.items, Multiplier(portionsByMeal, last));
      assert KeysOf(a + b) == KeysOf(a) + KeysOf(b);
    }
  }

  lemma {:induction false} AddAllKeys(acc: seq<Slot>, ps: seq<Portion>)
    ensures Keys(AddAll(acc, ps)) == Dedup(Keys(acc), KeysOf(ps))
    decreases |ps|
  {
    if |ps| > 0 {
      var init, p := ps[..|ps| - 1], ps[|ps| - 1];
      var x := AddAll(acc, init);
      var key := KeyOf(p.item);
      var prev := TallyAt(x, key).GetOr(FreshTally(p.item));
      calc {
        Keys(AddAll(acc, ps));
        Keys(SetSlot(x, key, prev.(grams := prev.grams + Contribution(p))));
        { SetSlotKeys(x, key, prev.(grams := prev.grams + Contribution(p))); }
        if key in Keys(x) then Keys(x) else Keys(x) + [key];
        { AddAllKeys(acc, init); }
        Dedup(Keys(acc), KeysOf(init) + [key]);
        { KeysOfSnoc(ps); }
        Dedup(Keys(acc), KeysOf(ps));
      }
    }
  }

  lemma KeysOfSnoc(ps: seq<Portion>)
    requires |ps| > 0
    ensures KeysOf(ps) == KeysOf(ps[..|ps| - 1]) + [KeyOf(ps[|ps| - 1].item)]
  {
  }

  /**
   * The Map holds exactly one entry per distinct key `foodId || nom` of the items, in order of
   * first appearance; the keys do not depend on the multipliers.
   */
  lemma OneEntryPerKey(meals: seq<Meal>, portionsByMeal: map<string, real>)
    ensures Keys(Accumulate(meals, portionsByMeal)) == Dedup([], ItemKeys(meals))
    ensures Distinct(Keys(Accumulate(meals, portionsByMeal)))
    ensures forall k :: k in Keys(Accumulate(meals, portionsByMeal)) <==> k in ItemKeys(meals)
  {
    AddAllKeys([], Flatten(meals, portionsByMeal));
    KeysOfFlatten(meals, portionsByMeal);
    DedupFacts([], ItemKeys(meals));
  }

  // ---------------------------------------------------------------- grams and first-seen fields

  /** The sum of gramsPerPortion * multiplier over the items of key k. */
  function SumFor(ps: seq<Portion>, k: string): real
    decreases |ps|
  {
    if |ps| == 0 then 0.0
    else
      var p := ps[|ps| - 1];
      SumFor(ps[..|ps| - 1], k) + (if KeyOf(p.item) == k then Contribution(p) else 0.0)
  }

  /** The position of the first item of key k. */
  function FirstIndex(ps: seq<Portion>, k: string): (r: Option<nat>)
    ensures r.Some? ==> r.value < |ps| && KeyOf(ps[r.value].item) == k
    ensures r.Some? ==> forall j :: 0 <= j < r.value ==> KeyOf(ps[j].item) != k
    ensures r.None? <==> forall j :: 0 <= j < |ps| ==> KeyOf(ps[j].item) != k
    decreases |ps|
  {
    if |ps| == 0 then None
    else
      var f := FirstIndex(ps[..|ps| - 1], k);
      if f.Some? then f
      else if KeyOf(ps[|ps| - 1].item) == k then Some(|ps| - 1)
      else None
  }

  lemma {:induction false} SumForAbsent(ps: seq<Portion>, k: string)
    requires FirstIndex(ps, k).None?
    ensures SumFor(ps, k) == 0.0
    decreases |ps|
  {
    if |ps| > 0 {
      SumForAbsent(ps[..|ps| - 1], k);
    }
  }

  /** The entry of key k once the items are added: its grams grow by their contributions. */
  function Expected(prior: Option<Tally>, ps: seq<Portion>, k: string): Option<Tally> {
    if prior.Some? then Some(prior.value.(grams := prior.value.grams + SumFor(ps, k)))
    else
      match FirstIndex(ps, k)
      case None => None
      case Some(i) => Some(FreshTally(ps[i].item).(grams := SumFor(ps, k)))
  }

  lemma GrowLast(x: seq<Slot>, acc: seq<Slot>, init: seq<Portion>, p: Portion, k: string)
    requires KeyOf(p.item) == k
    requires TallyAt(x, k) == Expected(TallyAt(acc, k), init, k)
    ensures TallyAt(AddOne(x, p), k) == Expected(TallyAt(acc, k), init + [p], k)
  {
    var ps := init + [p];
    assert ps[..|ps| - 1] == init;
    var prev := TallyAt(x, k).GetOr(FreshTally(p.item));
    SetSlotLookup(x, k, prev.(grams := prev.grams + Contribution(p)), k);
    if TallyAt(acc, k).None? && FirstIndex(init, k).None? {
      SumForAbsent(init, k);
    }
  }

  lemma OtherLast(x: seq<Slot>, acc: seq<Slot>, init: seq<Portion>, p: Portion, k: string)
    requires KeyOf(p.item) != k
    requires TallyAt(x, k) == Expected(TallyAt(acc, k), init, k)
    ensures TallyAt(AddOne(x, p), k) == Expected(TallyAt(acc, k), init + [p], k)
  {
    var prev := TallyAt(x, KeyOf(p.item)).GetOr(FreshTally(p.item));
    SetSlotLookup(x, KeyOf(p.item), prev.(grams := prev.grams + Contribution(p)), k);
    ExpectedSnocOther(TallyAt(acc, k), init, p, k);
  }

  /** A portion of another key changes nothing in what is expected under k. */
  lemma ExpectedSnocOther(prior: Option<Tally>, init: seq<Portion>, p: Portion, k: string)
    requires KeyOf(p.item) != k
    ensures Expected(prior, init + [p], k) == Expected(prior, init, k)
  {
    var ps := init + [p];
    assert ps[..|ps| - 1] == init;
    assert SumFor(ps, k) == SumFor(init, k);
    assert FirstIndex(ps, k) == FirstIndex(init, k);
    if FirstIndex(init, k).Some? {
      assert ps[FirstIndex(init, k).value] == init[FirstIndex(init, k).value];
    }
  }

  lemma {:induction false} AddAllTally(acc: seq<Slot>, ps: seq<Portion>, k: string)
    ensures TallyAt(AddAll(acc, ps), k) == Expected(TallyAt(acc, k), ps, k)
    decreases |ps|
  {
    if |ps| > 0 {
      var init := ps[..|ps| - 1];
      var p := ps[|ps| - 1];
      AddAllTally(acc, init, k);
      Seqs.SplitLast(ps);
      if KeyOf(p.item) == k {
        GrowLast(AddAll(acc, init), acc, init, p, k);
      } else {
        OtherLast(AddAll(acc, init), acc, init, p, k);
      }
    }
  }

  /**
   * The entry of a key carries the foodId (or null), nom, typeName (default "Autres") and
   * caloriesPer100g (default 0) of the first item with that key, and, before rounding, the sum
   * of gramsPerPortion * multiplier over all items with that key.
   */
  lemma AccumulatedEntry(meals: seq<Meal>, portionsByMeal: map<string, real>, k: string)
    ensures var ps := Flatten(meals, portionsByMeal);
      TallyAt(Accumulate(meals, portionsByMeal), k) ==
        match FirstIndex(ps, k)
        case None => None
        case Some(i) => Some(FreshTally(ps[i].item).(grams := SumFor(ps, k)))
  {
    AddAllTally([], Flatten(meals, portionsByMeal), k);
  }

  // ---------------------------------------------------------------- additivity

  lemma {:induction false} SumForAppend(a: seq<Portion>, b: seq<Portion>, k: string)
    ensures SumFor(a + b, k) == SumFor(a, k) + SumFor(b, k)
    decreases |b|
  {
    if |b| == 0 {
      assert a + b == a;
    } else {
      var init := b[..|b| - 1];
      SumForAppend(a, init, k);
      assert (a + b)[..|a + b| - 1] == a + init;
    }
  }

  lemma {:induction false} FlattenAppend(m1: seq<Meal>, m2: seq<Meal>, portionsByMeal: map<string, real>)
    ensures Flatten(m1 + m2, portionsByMeal) == Flatten(m1, portionsByMeal) + Flatten(m2, portionsByMeal)
    decreases |m2|
  {
    if |m2| == 0 {
      assert m1 + m2 == m1;
    } else {
      var init := m2[..|m2| - 1];
      var last := m2[|m2| - 1];
      FlattenAppend(m1, init, portionsByMeal);
      assert (m1 + m2)[..|m1 + m2| - 1] == m1 + init;
      var w := Weigh(last.items, Multiplier(portionsByMeal, last));
      assert (Flatten(m1, portionsByMeal) + Flatten(init, portionsByMeal)) + w
        == Flatten(m1, portionsByMeal) + (Flatten(init, portionsByMeal) + w);
    }
  }

  /** The grams of a key over two groups of meals are the sums over each group. */
  lemma MealsAdd(m1: seq<Meal>, m2: seq<Meal>, portionsByMeal: map<string, real>, k: string)
    ensures SumFor(Flatten(m1 + m2, portionsByMeal), k)
      == SumFor(Flatten(m1, portionsByMeal), k) + SumFor(Flatten(m2, portionsByMeal), k)
  {
    FlattenAppend(m1, m2, portionsByMeal);
    SumForAppend(Flatten(m1, portionsByMeal), Flatten(m2, portionsByMeal), k);
  }

  /** A meal with no items leaves the Map as it was. */
  lemma EmptyMealContributesNothing(meals: seq<Meal>, portionsByMeal: map<string, real>, meal: Meal)
    requires |meal.items| == 0
    ensures Accumulate(meals + [meal], portionsByMeal) == Accumulate(meals, portionsByMeal)
  {
    assert (meals + [meal])[..|meals|] == meals;
    assert Flatten(meals + [meal], portionsByMeal) == Flatten(meals, portionsByMeal);
  }

  /** The same food at 100 g for 2 portions and 150 g for 1 portion gives 350 g. */
  lemma SameFoodTwoMeals()
    ensures var riz1 := MealItem("riz", "Riz", "Féculents", Some(130.0), Some(100.0));
      var riz2 := MealItem("riz", "Riz", "Féculents", Some(130.0), Some(150.0));
      Accumulate([Meal("m1", Some(2.0), [riz1]), Meal("m2", None, [riz2])], map[])
        == [Slot("riz", Tally(Some("riz"), "Riz", "Féculents", 130.0, 350.0))]
  {
    var riz1 := MealItem("riz", "Riz", "Féculents", Some(130.0), Some(100.0));
    var riz2 := MealItem("riz", "Riz", "Féculents", Some(130.0), Some(150.0));
    var meals := [Meal("m1", Some(2.0), [riz1]), Meal("m2", None, [riz2])];
    assert meals[..1][..0] == [];
    assert Flatten(meals[..1], map[]) == [Portion(riz1, 2.0)];
    assert Flatten(meals, map[]) == [Portion(riz1, 2.0), Portion(riz2, 1.0)];
    var ps := [Portion(riz1, 2.0), Portion(riz2, 1.0)];
    assert ps[..1] == [Portion(riz1, 2.0)];
    assert ps[..1][..0] == [];
    var first := AddOne([], Portion(riz1, 2.0));
    assert first == [Slot("riz", Tally(Some("riz"), "Riz", "Féculents", 130.0, 200.0))];
    assert AddAll([], ps[..1]) == first;
    assert AddAll([], ps) == AddOne(first, Portion(riz2, 1.0));
  }

  // ---------------------------------------------------------------- rounding and order

  /** { ...x, grams: Math.round(x.grams / 5) * 5 } */
  function Rounded(t: Tally): (r: Line)
    ensures r.grams % 5 == 0
    ensures t.grams - 2.5 < r.grams as real <= t.grams + 2.5
    ensures r.foodId == t.foodId && r.nom == t.nom && r.typeName == t.typeName
    ensures r.caloriesPer100g == t.caloriesPer100g
  {
    Line(t.foodId, t.nom, t.typeName, t.caloriesPer100g, RoundTo5(t.grams))
  }

  /** Array.from(acc.values()).map(...): the rounded entries in insertion order. */
  function Lines(acc: seq<Slot>): (r: seq<Line>)
    ensures |r| == |acc|
    ensures forall i :: 0 <= i < |acc| ==> r[i] == Rounded(acc[i].tally)
  {
    seq(|acc|, i requires 0 <= i < |acc| => Rounded(acc[i].tally))
  }

  /**
   * The comparator of the handler: typeName first, then nom. `LineLe(a, b)` holds when
   * the comparator does not put b strictly before a.
   */
  predicate LineLe(a: Line, b: Line) {
    if a.typeName == b.typeName then StrLe(a.nom, b.nom) else StrLe(a.typeName, b.typeName)
  }

  lemma LineLeTotalPreorder()
    ensures TotalPreorder(LineLe)
  {
    forall a: Line, b: Line ensures LineLe(a, b) || LineLe(b, a) {
      StrLeTotal(a.typeName, b.typeName);
      StrLeTotal(a.nom, b.nom);
    }
    forall a: Line, b: Line, c: Line | LineLe(a, b) && LineLe(b, c) ensures LineLe(a, c) {
      LineLeTransitive(a, b, c);
    }
  }

  lemma StrLeAntisymmetricImplies(a: string, b: string)
    ensures StrLe(a, b) && StrLe(b, a) ==> a == b
  {
    if StrLe(a, b) && StrLe(b, a) {
      StrLeAntisymmetric(a, b);
    }
  }

  lemma LineLeTransitive(a: Line, b: Line, c: Line)
    requires LineLe(a, b) && LineLe(b, c)
    ensures LineLe(a, c)
  {
    if a.typeName == b.typeName && b.typeName == c.typeName {
      StrLeTransitive(a.nom, b.nom, c.nom);
    } else if a.typeName == b.typeName {
      assert StrLe(a.typeName, c.typeName);
    } else if b.typeName == c.typeName {
      assert StrLe(a.typeName, c.typeName);
    } else {
      StrLeTransitive(a.typeName, b.typeName, c.typeName);
      StrLeAntisymmetricImplies(a.typeName, b.typeName);
    }
  }

  // ---------------------------------------------------------------- the handler

  /** The list the handler returns for the fetched meals. */
  function ShoppingItems(meals: seq<Meal>, portionsByMeal: map<string, real>): seq<Line> {
    SortBy(Lines(Accumulate(meals, portionsByMeal)), LineLe)
  }

  /**
   * POST: 400 when mealIds is missing, not an array or empty; 500 when portionsByMeal is null
   * and a meal was found (reading a key of null throws); otherwise 200 with the list.
   */
  function ShoppingList(req: Request, db: map<string, MealDoc>): (r: Reply)
    ensures r.status == 400 <==> req.mealIds.None? || |req.mealIds.value| == 0
    ensures r.status == 400 ==> r.payload == ErrorMessage("mealIds[] requis")
    ensures r.status == 500 <==>
      (req.mealIds.Some? && |req.mealIds.value| > 0 && req.portionsByMeal.None? &&
       exists id :: id in req.mealIds.value && id in db)
    ensures r.status == 200 || r.status == 400 || r.status == 500
    ensures r.status == 200 ==> r.payload.Items?
  {
    if req.mealIds.None? || |req.mealIds.value| == 0 then Reply(400, ErrorMessage("mealIds[] requis"))
    else
      var meals := Fetch(db, req.mealIds.value);
      assert |meals| > 0 ==> meals[0] in meals;
      if req.portionsByMeal.None? && |meals| > 0 then Reply(500, ErrorMessage("Erreur serveur"))
      else Reply(200, Items(ShoppingItems(meals, req.portionsByMeal.GetOr(map[]))))
  }

  /** A successful reply is sorted by category then name, and is a permutation of the rounded entries. */
  lemma ShoppingListOrdered(req: Request, db: map<string, MealDoc>)
    requires ShoppingList(req, db).status == 200
    ensures var items := ShoppingList(req, db).payload.items;
      var acc := Accumulate(Fetch(db, req.mealIds.value), req.portionsByMeal.GetOr(map[]));
      SortedBy(items, LineLe) && multiset(items) == multiset(Lines(acc))
  {
    LineLeTotalPreorder();
    SortBySorted(Lines(Accumulate(Fetch(db, req.mealIds.value), req.portionsByMeal.GetOr(map[]))), LineLe);
  }

  /** Requested meals of which none exists give an empty list. */
  lemma NoMealsFound(req: Request, db: map<string, MealDoc>)
    requires req.mealIds.Some? && |req.mealIds.value| > 0
    requires forall id :: id in req.mealIds.value ==> id !in db
    ensures ShoppingList(req, db) == Reply(200, Items([]))
  {
  }

  /** The handler: validation, the fetch, the nested loops, then rounding and sorting. */
  method Post(req: Request, db: map<string, MealDoc>) returns (reply: Reply)
    ensures reply == ShoppingList(req, db)
  {
    if req.mealIds.None? || |req.mealIds.value| == 0 {
      return Reply(400, ErrorMessage("mealIds[] requis"));
    }
    var meals := Fetch(db, req.mealIds.value);
    if req.portionsByMeal.None? && |meals| > 0 {
      return Reply(500, ErrorMessage("Erreur serveur"));
    }
    var acc := Aggregate(meals, req.portionsByMeal.GetOr(map[]));
    reply := Reply(200, Items(SortBy(Lines(acc), LineLe)));
  }
}
