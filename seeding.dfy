/**
 * ensureOnePerType: when autoQuantities starts from an empty selection, it adds, for every
 * RATIOS category without a food, the first catalog food of that category at 100 g.
 */
module Seeding {
  import opened Wrappers
  import opened Grouping
  import opened Foods
  import opened Selections
  import opened Tables
  import opened Edits
  import Seqs

  /** Object.keys(current).some(id => the catalog food of id exists and belongs to category) */
  predicate HasInType(foods: seq<Food>, current: Selection, category: string) {
    exists i :: 0 <= i < |current| && FindFood(foods, current[i].id).Some? &&
      CategoryOf(FindFood(foods, current[i].id).value) == category
  }

  /** One pass of the loop body: add (grouped[type] || [])[0] at 100 g when the category has no food. */
  function SeedCategory(foods: seq<Food>, current: Selection, category: string): Selection {
    if HasInType(foods, current, category) then current
    else
      var candidates := Members(Grouped(foods), category);
      if |candidates| == 0 then current else Put(current, candidates[0].id, DefaultGrams)
  }

  /** The loop over the categories, in order. */
  function SeedCategories(foods: seq<Food>, current: Selection, categories: seq<string>): Selection
    decreases |categories|
  {
    if |categories| == 0 then current
    else SeedCategories(foods, SeedCategory(foods, current, categories[0]), categories[1..])
  }

  /** ensureOnePerType() as a value: the loop over Object.keys(RATIOS). */
  function EnsureOnePerType(foods: seq<Food>, current: Selection): Selection {
    SeedCategories(foods, current, RatioCategories())
  }

  /** ensureOnePerType(), adding to current in place. */
  method SeedMissing(foods: seq<Food>, current: Selection) returns (out: Selection)
    ensures out == EnsureOnePerType(foods, current)
  {
    var grouped := Grouped(foods);
    var categories := RatioCategories();
    out := current;
    for i := 0 to |categories|
      invariant SeedCategories(foods, out, categories[i..]) == EnsureOnePerType(foods, current)
    {
      Seqs.DropOne(categories, i);
      var category := categories[i];
      var hasInType := HasInType(foods, out, category);
      if !hasInType {
        var candidates := Members(grouped, category);
        if |candidates| > 0 {
          out := Put(out, candidates[0].id, DefaultGrams);
        }
      }
    }
  }

  /** Seeding keeps the selection an object: its keys stay distinct. */
  lemma {:induction false} SeedCategoriesDistinct(foods: seq<Food>, current: Selection, categories: seq<string>)
    requires DistinctIds(current)
    ensures DistinctIds(SeedCategories(foods, current, categories))
    decreases |categories|
  {
    if |categories| > 0 {
      var next := SeedCategory(foods, current, categories[0]);
      if next != current {
        PutDistinct(current, Members(Grouped(foods), categories[0])[0].id, DefaultGrams);
      }
      SeedCategoriesDistinct(foods, next, categories[1..]);
    }
  }

  /** The first catalog food of a category, in catalog order: the reference for the candidate. */
  function FirstOfCategory(foods: seq<Food>, category: string): (r: Option<Food>)
    ensures r.Some? ==> r.value in foods && CategoryOf(r.value) == category
    ensures r.None? <==> forall f :: f in foods ==> CategoryOf(f) != category
  {
    if |foods| == 0 then None
    else if CategoryOf(foods[0]) == category then Some(foods[0])
    else FirstOfCategory(foods[1..], category)
  }

  lemma {:induction false} FilterFirst(foods: seq<Food>, category: string)
    ensures var m := Filter(foods, CategoryOf, category);
      (|m| > 0 <==> FirstOfCategory(foods, category).Some?) &&
      (|m| > 0 ==> m[0] == FirstOfCategory(foods, category).value)
    decreases |foods|
  {
    if |foods| > 0 && CategoryOf(foods[0]) != category {
      FilterFirst(foods[1..], category);
    }
  }

  /** The candidate (grouped[type] || [])[0] is the first catalog food of the category. */
  lemma CandidateIsFirst(foods: seq<Food>, category: string)
    ensures var m := Members(Grouped(foods), category);
      (|m| > 0 <==> FirstOfCategory(foods, category).Some?) &&
      (|m| > 0 ==> m[0] == FirstOfCategory(foods, category).value)
  {
    GroupedMembers(foods, category);
    FilterFirst(foods, category);
  }

  /** The foods seeding adds to an empty selection: one per category that has a catalog food. */
  function SeedEntries(foods: seq<Food>, categories: seq<string>): Selection {
    if |categories| == 0 then [] else FirstEntry(foods, categories[0]) + SeedEntries(foods, categories[1..])
  }

  /** The first catalog food of the category at 100 g, or nothing when the category has no food. */
  function FirstEntry(foods: seq<Food>, category: string): (r: Selection)
    ensures forall e :: e in r ==> FindFood(foods, e.id).Some?
  {
    var first := FirstOfCategory(foods, category);
    if first.Some? then [Entry(first.value.id, DefaultGrams)] else []
  }

  ghost predicate DistinctCategories(categories: seq<string>) {
    forall i, j :: 0 <= i < j < |categories| ==> categories[i] != categories[j]
  }

  /** Every entry is a catalog food of a category outside the ones still to visit. */
  ghost predicate SeededOutside(foods: seq<Food>, acc: Selection, categories: seq<string>) {
    forall e :: e in acc ==> FindFood(foods, e.id).Some? && CategoryOf(FindFood(foods, e.id).value) !in categories
  }

  lemma DistinctCategoriesTail(categories: seq<string>)
    requires DistinctCategories(categories) && |categories| > 0
    ensures DistinctCategories(categories[1..])
    ensures categories[0] !in categories[1..]
  {
    var rest := categories[1..];
    forall i, j | 0 <= i < j < |rest| ensures rest[i] != rest[j] {
      assert rest[i] == categories[i + 1] && rest[j] == categories[j + 1];
    }
    forall k | 0 <= k < |rest| ensures rest[k] != categories[0] {
      assert rest[k] == categories[k + 1];
    }
  }

  /** No entry of acc belongs to the next category to visit. */
  lemma NotYetInType(foods: seq<Food>, acc: Selection, categories: seq<string>)
    requires SeededOutside(foods, acc, categories) && |categories| > 0
    ensures !HasInType(foods, acc, categories[0])
  {
    forall i | 0 <= i < |acc| && FindFood(foods, acc[i].id).Some?
      ensures CategoryOf(FindFood(foods, acc[i].id).value) != categories[0]
    {
      assert acc[i] in acc;
    }
  }

  /** The candidate of the next category is not a key of acc yet. */
  lemma FreshCandidate(foods: seq<Food>, acc: Selection, categories: seq<string>, f: Food)
    requires UniqueIds(foods) && SeededOutside(foods, acc, categories) && |categories| > 0
    requires f in foods && CategoryOf(f) == categories[0]
    ensures f.id !in Ids(acc)
  {
    FindFoodUnique(foods, f);
    forall i | 0 <= i < |acc| ensures Ids(acc)[i] != f.id {
      assert acc[i] in acc;
    }
  }

  lemma SeededOutsideStep(foods: seq<Food>, acc: Selection, categories: seq<string>, added: Selection)
    requires DistinctCategories(categories) && |categories| > 0 && SeededOutside(foods, acc, categories)
    requires forall e :: e in added ==> FindFood(foods, e.id).Some? && CategoryOf(FindFood(foods, e.id).value) == categories[0]
    ensures SeededOutside(foods, acc + added, categories[1..])
  {
    DistinctCategoriesTail(categories);
    forall e | e in acc + added
      ensures FindFood(foods, e.id).Some? && CategoryOf(FindFood(foods, e.id).value) !in categories[1..]
    {
      if e in acc {
        assert CategoryOf(FindFood(foods, e.id).value) !in categories;
      }
    }
  }

  /** One category's pass appends its first catalog food when acc has none of that category. */
  lemma SeedCategoryStep(foods: seq<Food>, acc: Selection, categories: seq<string>)
    requires UniqueIds(foods) && SeededOutside(foods, acc, categories) && |categories| > 0
    ensures SeedCategory(foods, acc, categories[0]) == acc + FirstEntry(foods, categories[0])
    ensures forall e :: e in FirstEntry(foods, categories[0]) ==>
      CategoryOf(FindFood(foods, e.id).value) == categories[0]
  {
    var c := categories[0];
    NotYetInType(foods, acc, categories);
    CandidateIsFirst(foods, c);
    var first := FirstOfCategory(foods, c);
    if first.Some? {
      var f := first.value;
      FreshCandidate(foods, acc, categories, f);
      PutAppend(acc, f.id, DefaultGrams);
      FindFoodUnique(foods, f);
    } else {
      assert acc + [] == acc;
    }
  }

  lemma {:induction false} SeedCategoriesAppend(foods: seq<Food>, acc: Selection, categories: seq<string>)
    requires UniqueIds(foods) && DistinctCategories(categories)
    requires SeededOutside(foods, acc, categories)
    ensures SeedCategories(foods, acc, categories) == acc + SeedEntries(foods, categories)
    decreases |categories|
  {
    if |categories| == 0 {
      assert acc + [] == acc;
    } else {
      var added := FirstEntry(foods, categories[0]);
      SeedCategoryStep(foods, acc, categories);
      SeededOutsideStep(foods, acc, categories, added);
      SeedCategoriesAppend(foods, acc + added, categories[1..]);
      Seqs.AppendAssociative(acc, added, SeedEntries(foods, categories[1..]));
    }
  }

  /**
   * From an empty selection, seeding adds exactly the first catalog food of each RATIOS
   * category that has one, at 100 g, in RATIOS order.
   */
  lemma SeedFromEmpty(foods: seq<Food>)
    requires UniqueIds(foods)
    ensures EnsureOnePerType(foods, []) == SeedEntries(foods, RatioCategories())
  {
    RatioCategoriesDistinct();
    var cats := RatioCategories();
    assert DistinctCategories(cats) by {
      forall i, j | 0 <= i < j < |cats| ensures cats[i] != cats[j] {
        assert cats[i] == Ratios[i].category && cats[j] == Ratios[j].category;
      }
    }
    SeedCategoriesAppend(foods, [], cats);
    assert [] + SeedEntries(foods, cats) == SeedEntries(foods, cats);
  }
}
