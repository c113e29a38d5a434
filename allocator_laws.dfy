/**
 * Re-running autoQuantities on its own result gives the same map: the result's keys are the
 * foods it allocated, grouped category by category, so splitting them again rebuilds the same
 * per-category lists and therefore the same values.
 */
module AllocatorLaws {
  import opened Wrappers
  import opened Grouping
  import opened Tables
  import opened Foods
  import opened Selections
  import opened Targets
  import opened Seeding
  import opened Allocator
  import Seqs

  ghost predicate DistinctStrings(xs: seq<string>) {
    forall i, j :: 0 <= i < j < |xs| ==> xs[i] != xs[j]
  }

  lemma IdsDistinctStrings(s: Selection)
    requires DistinctIds(s)
    ensures DistinctStrings(Ids(s))
  {
  }

  lemma FoodIdsDistinct(items: seq<Food>)
    requires UniqueIds(items)
    ensures DistinctStrings(FoodIds(items))
  {
  }

  lemma DistinctPrefix(xs: seq<string>, ys: seq<string>)
    requires DistinctStrings(xs + ys)
    ensures DistinctStrings(xs)
  {
    forall i, j | 0 <= i < j < |xs| ensures xs[i] != xs[j] {
      assert (xs + ys)[i] == xs[i] && (xs + ys)[j] == xs[j];
    }
  }

  lemma {:induction false} FoodIdsAppend(a: seq<Food>, b: seq<Food>)
    ensures FoodIds(a + b) == FoodIds(a) + FoodIds(b)
  {
    var l := FoodIds(a + b);
    var r := FoodIds(a) + FoodIds(b);
    assert |l| == |r|;
    forall i | 0 <= i < |l| ensures l[i] == r[i] {
      if i < |a| {
        assert (a + b)[i] == a[i];
      } else {
        assert (a + b)[i] == b[i - |a|];
      }
    }
  }

  /** Found keeps distinct keys distinct. */
  lemma {:induction false} FoundUnique(foods: seq<Food>, ids: seq<string>)
    requires DistinctStrings(ids)
    ensures UniqueIds(Found(foods, ids))
    decreases |ids|
  {
    if |ids| > 0 {
      var rest := ids[1..];
      assert DistinctStrings(rest) by {
        forall i, j | 0 <= i < j < |rest| ensures rest[i] != rest[j] {
          assert rest[i] == ids[i + 1] && rest[j] == ids[j + 1];
        }
      }
      FoundUnique(foods, rest);
      var tail := Found(foods, rest);
      var head: seq<Food> := if FindFood(foods, ids[0]).Some? then [FindFood(foods, ids[0]).value] else [];
      assert Found(foods, ids) == head + tail;
      forall g | g in tail ensures g.id != ids[0] {
        assert g.id in rest;
        var k :| 0 <= k < |rest| && rest[k] == g.id;
        assert ids[k + 1] == g.id;
      }
      UniqueConcat(head, tail);
    }
  }

  lemma UniqueConcat(a: seq<Food>, b: seq<Food>)
    requires UniqueIds(a) && UniqueIds(b)
    requires forall x, y :: x in a && y in b ==> x.id != y.id
    ensures UniqueIds(a + b)
  {
    var s := a + b;
    forall i, j | 0 <= i < j < |s| ensures s[i].id != s[j].id {
      if j < |a| {
        assert s[i] == a[i] && s[j] == a[j];
      } else if i >= |a| {
        assert s[i] == b[i - |a|] && s[j] == b[j - |a|];
      } else {
        assert s[i] == a[i] && s[j] == b[j - |a|];
        assert a[i] in a && b[j - |a|] in b;
      }
    }
  }

  /** In a list with unique ids, two different members have different ids. */
  lemma UniqueDiffer(s: seq<Food>, x: Food, y: Food)
    requires UniqueIds(s) && x in s && y in s && x != y
    ensures x.id != y.id
  {
    var i :| 0 <= i < |s| && s[i] == x;
    var j :| 0 <= j < |s| && s[j] == y;
  }

  lemma {:induction false} FilterUnique(s: seq<Food>, category: string)
    requires UniqueIds(s)
    ensures UniqueIds(Filter(s, CategoryOf, category))
    decreases |s|
  {
    if |s| > 0 {
      var rest := s[1..];
      assert UniqueIds(rest) by {
        forall i, j | 0 <= i < j < |rest| ensures rest[i].id != rest[j].id {
          assert rest[i] == s[i + 1] && rest[j] == s[j + 1];
        }
      }
      FilterUnique(rest, category);
      var head: seq<Food> := if CategoryOf(s[0]) == category then [s[0]] else [];
      forall x, y | x in head && y in Filter(rest, CategoryOf, category) ensures x.id != y.id {
        var k :| 0 <= k < |rest| && rest[k] == y;
        assert s[k + 1] == y;
      }
      UniqueConcat(head, Filter(rest, CategoryOf, category));
    }
  }

  lemma FilterAll(s: seq<Food>, category: string)
    requires forall x :: x in s ==> CategoryOf(x) == category
    ensures Filter(s, CategoryOf, category) == s
  {
    if |s| > 0 {
      assert s[0] in s;
      assert forall x :: x in s[1..] ==> x in s;
      FilterAll(s[1..], category);
      Seqs.SplitFirst(s);
    }
  }

  lemma FilterNone(s: seq<Food>, category: string)
    requires forall x :: x in s ==> CategoryOf(x) != category
    ensures Filter(s, CategoryOf, category) == []
  {
    if |s| > 0 {
      assert s[0] in s;
      assert forall x :: x in s[1..] ==> x in s;
      FilterNone(s[1..], category);
    }
  }

  /** One category's share of the allocated foods: its found foods, when its target is positive. */
  function ChosenOf(mealTarget: int, found: seq<Food>, category: string): seq<Food> {
    if TargetOf(mealTarget, category) > 0 then Filter(found, CategoryOf, category) else []
  }

  /** The foods the split allocates, category by category. */
  function Chosen(mealTarget: int, found: seq<Food>, categories: seq<string>): seq<Food>
    decreases |categories|
  {
    if |categories| == 0 then []
    else ChosenOf(mealTarget, found, categories[0]) + Chosen(mealTarget, found, categories[1..])
  }

  lemma {:induction false} ChosenIn(mealTarget: int, found: seq<Food>, categories: seq<string>)
    ensures forall x :: x in Chosen(mealTarget, found, categories) ==> x in found && CategoryOf(x) in categories
    decreases |categories|
  {
    if |categories| > 0 {
      ChosenIn(mealTarget, found, categories[1..]);
      forall x | x in Chosen(mealTarget, found, categories) ensures x in found && CategoryOf(x) in categories {
        if x in ChosenOf(mealTarget, found, categories[0]) {
        } else {
          assert x in Chosen(mealTarget, found, categories[1..]);
          assert CategoryOf(x) in categories[1..];
        }
      }
    }
  }

  lemma {:induction false} ChosenUnique(mealTarget: int, found: seq<Food>, categories: seq<string>)
    requires UniqueIds(found) && DistinctCategories(categories)
    ensures UniqueIds(Chosen(mealTarget, found, categories))
    decreases |categories|
  {
    if |categories| > 0 {
      var c := categories[0];
      DistinctCategoriesTail(categories);
      ChosenUnique(mealTarget, found, categories[1..]);
      ChosenIn(mealTarget, found, categories[1..]);
      var head := ChosenOf(mealTarget, found, c);
      var tail := Chosen(mealTarget, found, categories[1..]);
      if TargetOf(mealTarget, c) > 0 {
        FilterUnique(found, c);
      }
      forall x, y | x in head && y in tail ensures x.id != y.id {
        assert CategoryOf(y) in categories[1..];
        UniqueDiffer(found, x, y);
      }
      UniqueConcat(head, tail);
    }
  }

  /** After a split of the categories in order, the keys are those of the chosen foods, appended. */
  lemma {:induction false} PutEachIds(acc: Selection, items: seq<Food>, perItemK: real)
    requires DistinctStrings(Ids(acc) + FoodIds(items))
    ensures Ids(PutEach(acc, items, perItemK)) == Ids(acc) + FoodIds(items)
    decreases |items|
  {
    if |items| == 0 {
      assert Ids(acc) + [] == Ids(acc);
    } else {
      var id := items[0].id;
      var all := Ids(acc) + FoodIds(items);
      assert id !in Ids(acc) by {
        forall i | 0 <= i < |Ids(acc)| ensures Ids(acc)[i] != id {
          assert all[i] == Ids(acc)[i] && all[|Ids(acc)|] == id;
        }
      }
      PutIds(acc, id, EvenGrams(perItemK, items[0]));
      var next := Put(acc, id, EvenGrams(perItemK, items[0]));
      assert FoodIds(items) == [id] + FoodIds(items[1..]);
      Seqs.AppendAssociative(Ids(acc), [id], FoodIds(items[1..]));
      PutEachIds(next, items[1..], perItemK);
    }
  }

  lemma {:induction false} SplitCategoriesIds(mealTarget: int, found: seq<Food>, acc: Selection, categories: seq<string>)
    requires DistinctStrings(Ids(acc) + FoodIds(Chosen(mealTarget, found, categories)))
    ensures Ids(SplitCategories(mealTarget, GroupBy(found, CategoryOf), acc, categories)) ==
      Ids(acc) + FoodIds(Chosen(mealTarget, found, categories))
    decreases |categories|
  {
    var byType := GroupBy(found, CategoryOf);
    if |categories| == 0 {
      assert Ids(acc) + [] == Ids(acc);
    } else {
      var c := categories[0];
      var head := ChosenOf(mealTarget, found, c);
      var tail := Chosen(mealTarget, found, categories[1..]);
      GroupByMembers(found, CategoryOf, c);
      FoodIdsAppend(head, tail);
      Seqs.AppendAssociative(Ids(acc), FoodIds(head), FoodIds(tail));
      var next := SplitCategory(mealTarget, byType, acc, c);
      if |head| > 0 {
        DistinctPrefix(Ids(acc) + FoodIds(head), FoodIds(tail));
        PutEachIds(acc, head, (TargetOf(mealTarget, c) as real) / (|head| as real));
      } else {
        assert FoodIds(head) == [];
        assert Ids(acc) + FoodIds(head) == Ids(acc);
      }
      assert Ids(next) == Ids(acc) + FoodIds(head);
      SplitCategoriesIds(mealTarget, found, next, categories[1..]);
    }
  }

  /** Looking the chosen foods up again by their ids finds them, in the same order. */
  lemma {:induction false} FoundOfFoodIds(foods: seq<Food>, items: seq<Food>)
    requires forall f :: f in items ==> FindFood(foods, f.id) == Some(f)
    ensures Found(foods, FoodIds(items)) == items
    decreases |items|
  {
    if |items| > 0 {
      var ids, rest := FoodIds(items), items[1..];
      assert items[0] in items;
      assert forall f :: f in rest ==> f in items;
      FoundOfFoodIds(foods, rest);
      assert ids[0] == items[0].id && ids[1..] == FoodIds(rest);
      assert Found(foods, ids) == [items[0]] + Found(foods, ids[1..]);
      Seqs.SplitFirst(items);
    }
  }

  /** Splitting the chosen foods again by category gives back each category's list. */
  lemma {:induction false} FilterChosen(mealTarget: int, found: seq<Food>, categories: seq<string>, c: string)
    requires DistinctCategories(categories) && c in categories && TargetOf(mealTarget, c) > 0
    ensures Filter(Chosen(mealTarget, found, categories), CategoryOf, c) == Filter(found, CategoryOf, c)
    decreases |categories|
  {
    var head := ChosenOf(mealTarget, found, categories[0]);
    var tail := Chosen(mealTarget, found, categories[1..]);
    DistinctCategoriesTail(categories);
    FilterAppend(head, tail, CategoryOf, c);
    if categories[0] == c {
      FilterAll(head, c);
      ChosenIn(mealTarget, found, categories[1..]);
      FilterNone(tail, c);
      assert head + [] == head;
    } else {
      if TargetOf(mealTarget, categories[0]) > 0 {
        FilterNone(head, c);
      }
      assert [] + Filter(tail, CategoryOf, c) == Filter(tail, CategoryOf, c);
      FilterChosen(mealTarget, found, categories[1..], c);
    }
  }

  /** Two groupings that agree on every category with a positive target give the same split. */
  lemma {:induction false} SplitCategoriesAgree(mealTarget: int, g1: seq<Group<Food>>, g2: seq<Group<Food>>,
                                                acc: Selection, categories: seq<string>)
    requires forall k :: 0 <= k < |categories| && TargetOf(mealTarget, categories[k]) > 0 ==>
      Members(g1, categories[k]) == Members(g2, categories[k])
    ensures SplitCategories(mealTarget, g1, acc, categories) == SplitCategories(mealTarget, g2, acc, categories)
    decreases |categories|
  {
    if |categories| > 0 {
      var next := SplitCategory(mealTarget, g1, acc, categories[0]);
      assert next == SplitCategory(mealTarget, g2, acc, categories[0]);
      forall k | 0 <= k < |categories[1..]| && TargetOf(mealTarget, categories[1..][k]) > 0
        ensures Members(g1, categories[1..][k]) == Members(g2, categories[1..][k])
      {
        assert categories[1..][k] == categories[k + 1];
      }
      SplitCategoriesAgree(mealTarget, g1, g2, next, categories[1..]);
    }
  }

  /** The keys of the even split are the chosen foods' ids, category by category. */
  lemma EvenSplitIds(foods: seq<Food>, mealTarget: int, ids: seq<string>)
    requires DistinctStrings(ids)
    ensures Ids(EvenSplit(foods, mealTarget, ids)) ==
      FoodIds(Chosen(mealTarget, Found(foods, ids), RatioCategories()))
  {
    var found := Found(foods, ids);
    var cats := RatioCategories();
    FoundUnique(foods, ids);
    RatioCategoriesDistinct();
    assert DistinctCategories(cats) by {
      forall i, j | 0 <= i < j < |cats| ensures cats[i] != cats[j] {
        assert cats[i] == Ratios[i].category && cats[j] == Ratios[j].category;
      }
    }
    ChosenUnique(mealTarget, found, cats);
    var chosen := Chosen(mealTarget, found, cats);
    FoodIdsDistinct(chosen);
    assert Ids([]) + FoodIds(chosen) == FoodIds(chosen);
    SplitCategoriesIds(mealTarget, found, [], cats);
  }

  /** Splitting the allocated keys again gives the same split. */
  lemma ResplitSame(foods: seq<Food>, mealTarget: int, ids: seq<string>)
    requires DistinctStrings(ids)
    ensures EvenSplit(foods, mealTarget, Ids(EvenSplit(foods, mealTarget, ids))) == EvenSplit(foods, mealTarget, ids)
  {
    var found := Found(foods, ids);
    var cats := RatioCategories();
    var chosen := Chosen(mealTarget, found, cats);
    EvenSplitIds(foods, mealTarget, ids);
    ChosenIn(mealTarget, found, cats);
    FoundOfFoodIds(foods, chosen);
    RatioCategoriesDistinct();
    assert DistinctCategories(cats) by {
      forall i, j | 0 <= i < j < |cats| ensures cats[i] != cats[j] {
        assert cats[i] == Ratios[i].category && cats[j] == Ratios[j].category;
      }
    }
    forall k | 0 <= k < |cats| && TargetOf(mealTarget, cats[k]) > 0
      ensures Members(GroupBy(found, CategoryOf), cats[k]) == Members(GroupBy(chosen, CategoryOf), cats[k])
    {
      GroupByMembers(found, CategoryOf, cats[k]);
      GroupByMembers(chosen, CategoryOf, cats[k]);
      FilterChosen(mealTarget, found, cats, cats[k]);
    }
    SplitCategoriesAgree(mealTarget, GroupBy(found, CategoryOf), GroupBy(chosen, CategoryOf), [], cats);
  }

  /**
   * autoQuantities is idempotent once it has produced a non-empty map: run again on its own
   * result (same catalog, same target) it returns the same map. An empty result is not a fixed
   * point, since the next run seeds from the catalog.
   */
  lemma AllocateIdempotent(foods: seq<Food>, selected: Selection, mealTarget: int)
    requires DistinctIds(selected)
    requires |Allocate(foods, selected, mealTarget)| > 0
    ensures Allocate(foods, Allocate(foods, selected, mealTarget), mealTarget) == Allocate(foods, selected, mealTarget)
  {
    if mealTarget > 0 {
      var current := Seeded(foods, selected);
      if |selected| == 0 {
        SeedCategoriesDistinct(foods, selected, RatioCategories());
      }
      IdsDistinctStrings(current);
      var split := EvenSplit(foods, mealTarget, Ids(current));
      EvenSplitDistinct(foods, mealTarget, Ids(current));
      FinishIds(foods, split, mealTarget);
      var r := Allocate(foods, selected, mealTarget);
      assert Seeded(foods, r) == r;
      ResplitSame(foods, mealTarget, Ids(current));
    }
  }
}
