/**
 * What the composer computes from a selection and the catalog: calories (computeTotalK), the
 * per-category buckets (groupByType), the displayed list and its totals (selectedList, totals).
 */
module Intake {
  import opened Wrappers
  import opened Rounding
  import opened Grouping
  import opened Foods
  import opened Selections
  import Seqs

  /** The unrounded sum behind computeTotalK: grams times calories per gram, over all entries. */
  function RawKcal(foods: seq<Food>, s: Selection): real {
    if |s| == 0 then 0.0 else EntryKcal(foods, s[0]) + RawKcal(foods, s[1..])
  }

  /** The calories of one entry, unrounded: grams * kcalPerGram(id). */
  function EntryKcal(foods: seq<Food>, e: Entry): real {
    (e.grams as real) * KcalPerGram(foods, e.id)
  }

  /** computeTotalK(data) */
  function ComputeTotalK(foods: seq<Food>, s: Selection): (r: int)
    ensures RawKcal(foods, s) - 0.5 < r as real <= RawKcal(foods, s) + 0.5
  {
    Round(RawKcal(foods, s))
  }

  lemma EntryKcalDifference(foods: seq<Food>, e: Entry, g: int)
    ensures EntryKcal(foods, Entry(e.id, g)) ==
      EntryKcal(foods, e) + ((g - e.grams) as real) * KcalPerGram(foods, e.id)
  {
    var d := KcalPerGram(foods, e.id);
    assert (g as real) * d == (e.grams as real) * d + ((g - e.grams) as real) * d;
  }

  /** Changing one entry's grams moves the raw calories by the change in that entry's calories. */
  lemma {:induction false} RawKcalUpdate(foods: seq<Food>, s: Selection, p: nat, g: int)
    requires p < |s|
    ensures RawKcal(foods, s[p := Entry(s[p].id, g)]) ==
      RawKcal(foods, s) - EntryKcal(foods, s[p]) + EntryKcal(foods, Entry(s[p].id, g))
    decreases p
  {
    var t := s[p := Entry(s[p].id, g)];
    if p == 0 {
      assert t[1..] == s[1..];
    } else {
      var rest, r: nat := s[1..], p - 1;
      assert t[0] == s[0] && rest[r] == s[p];
      assert t[1..] == rest[r := Entry(s[p].id, g)];
      RawKcalUpdate(foods, rest, r, g);
    }
  }

  lemma ProductNonPositive(a: int, d: real)
    requires a <= 0 && d >= 0.0
    ensures (a as real) * d <= 0.0
  {
  }

  /** Lowering one entry's grams never raises the raw calories when that food's density is non-negative. */
  lemma RawKcalLower(foods: seq<Food>, s: Selection, p: nat, g: int)
    requires p < |s| && g <= s[p].grams && KcalPerGram(foods, s[p].id) >= 0.0
    ensures RawKcal(foods, s[p := Entry(s[p].id, g)]) <= RawKcal(foods, s)
  {
    RawKcalUpdate(foods, s, p, g);
    EntryKcalDifference(foods, s[p], g);
    ProductNonPositive(g - s[p].grams, KcalPerGram(foods, s[p].id));
  }

  /** Raw calories are additive over concatenation. */
  lemma {:induction false} RawKcalAppend(foods: seq<Food>, a: Selection, b: Selection)
    ensures RawKcal(foods, a + b) == RawKcal(foods, a) + RawKcal(foods, b)
    decreases |a|
  {
    if |a| == 0 {
      assert a + b == b;
    } else {
      assert (a + b)[0] == a[0];
      assert (a + b)[1..] == a[1..] + b;
      RawKcalAppend(foods, a[1..], b);
    }
  }

  /** The category key groupByType uses for an entry: typeOf(id). */
  function EntryType(foods: seq<Food>): Entry -> string {
    (e: Entry) => TypeOf(foods, e.id)
  }

  /** groupByType(data) */
  function GroupByType(foods: seq<Food>, s: Selection): seq<Group<Entry>> {
    GroupBy(s, EntryType(foods))
  }

  function SumGrams(s: seq<Entry>): int {
    if |s| == 0 then 0 else s[0].grams + SumGrams(s[1..])
  }

  /** The entries of one category, in selection order. */
  function CategoryEntries(foods: seq<Food>, s: Selection, category: string): seq<Entry> {
    Filter(s, EntryType(foods), category)
  }

  /** Changing one entry's grams moves the grams total by the difference. */
  lemma {:induction false} SumGramsUpdate(s: seq<Entry>, p: nat, g: int)
    requires p < |s|
    ensures SumGrams(s[p := Entry(s[p].id, g)]) == SumGrams(s) + (g - s[p].grams)
    decreases p
  {
    var t := s[p := Entry(s[p].id, g)];
    if p > 0 {
      SumGramsUpdate(s[1..], p - 1, g);
      assert t[1..] == s[1..][p - 1 := Entry(s[p].id, g)];
    } else {
      assert t[1..] == s[1..];
    }
  }

  /** Changing one entry's grams moves the total of its own category by the difference, and no other. */
  lemma {:induction false} CategoryGramsUpdate(foods: seq<Food>, s: Selection, p: nat, g: int, category: string)
    requires p < |s|
    ensures CategoryGrams(foods, s[p := Entry(s[p].id, g)], category) ==
      CategoryGrams(foods, s, category) + (if TypeOf(foods, s[p].id) == category then g - s[p].grams else 0)
    decreases p
  {
    var key := EntryType(foods);
    var t := s[p := Entry(s[p].id, g)];
    assert key(t[p]) == key(s[p]);
    if p > 0 {
      CategoryGramsUpdate(foods, s[1..], p - 1, g, category);
      assert t[1..] == s[1..][p - 1 := Entry(s[p].id, g)];
      assert t[0] == s[0];
      var head := if key(s[0]) == category then [s[0]] else [];
      assert Filter(t, key, category) == head + Filter(t[1..], key, category);
      assert Filter(s, key, category) == head + Filter(s[1..], key, category);
      SumGramsAppend(head, Filter(t[1..], key, category));
      SumGramsAppend(head, Filter(s[1..], key, category));
    } else {
      assert t[1..] == s[1..];
      var rest := Filter(s[1..], key, category);
      if key(s[0]) == category {
        assert Filter(t, key, category) == [t[0]] + rest;
        assert Filter(s, key, category) == [s[0]] + rest;
      } else {
        assert Filter(t, key, category) == rest;
        assert Filter(s, key, category) == rest;
      }
    }
  }

  lemma {:induction false} SumGramsAppend(a: seq<Entry>, b: seq<Entry>)
    ensures SumGrams(a + b) == SumGrams(a) + SumGrams(b)
    decreases |a|
  {
    if |a| == 0 {
      assert a + b == b;
    } else {
      assert (a + b)[1..] == a[1..] + b;
      SumGramsAppend(a[1..], b);
    }
  }

  /** Every entry of a category's bucket is an entry of the map of that category. */
  lemma CategoryEntriesIn(foods: seq<Food>, s: Selection, category: string)
    ensures forall x :: x in CategoryEntries(foods, s, category) ==> x in s && TypeOf(foods, x.id) == category
  {
    forall x | x in CategoryEntries(foods, s, category) ensures x in s && TypeOf(foods, x.id) == category {
      assert EntryType(foods)(x) == TypeOf(foods, x.id);
    }
  }

  /** Total grams of a category: the sum over its bucket in groupByType. */
  function CategoryGrams(foods: seq<Food>, s: Selection, category: string): int {
    SumGrams(CategoryEntries(foods, s, category))
  }

  /** groupByType buckets each entry under its food's category, keeping selection order. */
  lemma GroupByTypeMembers(foods: seq<Food>, s: Selection, category: string)
    ensures Members(GroupByType(foods, s), category) == CategoryEntries(foods, s, category)
    ensures SumGrams(Members(GroupByType(foods, s), category)) == CategoryGrams(foods, s, category)
  {
    GroupByMembers(s, EntryType(foods), category);
  }

  /** One row of selectedList: the catalog food, its grams and its rounded calories. */
  datatype SelectedItem = SelectedItem(food: Food, grams: int, kcal: int)

  /** Math.round(grams / 100 * caloriesPer100g) */
  function ItemKcal(f: Food, grams: int): int {
    Round((grams as real) / 100.0 * f.caloriesPer100g)
  }

  /** selectedList: the entries whose id the catalog knows, with their calories. */
  function SelectedList(foods: seq<Food>, s: Selection): (r: seq<SelectedItem>)
    ensures |r| <= |s|
    ensures forall j :: 0 <= j < |r| ==> r[j].food in foods && Entry(r[j].food.id, r[j].grams) in s
    ensures forall j :: 0 <= j < |r| ==> r[j].kcal == ItemKcal(r[j].food, r[j].grams)
    ensures forall i :: 0 <= i < |s| && FindFood(foods, s[i].id).Some? ==>
      SelectedItem(FindFood(foods, s[i].id).value, s[i].grams, ItemKcal(FindFood(foods, s[i].id).value, s[i].grams)) in r
  {
    if |s| == 0 then []
    else
      var rest := SelectedList(foods, s[1..]);
      match FindFood(foods, s[0].id)
      case None => rest
      case Some(f) => [SelectedItem(f, s[0].grams, ItemKcal(f, s[0].grams))] + rest
  }

  /** One entry gives one row when its food is found, and none otherwise. */
  lemma SelectedListOne(foods: seq<Food>, e: Entry)
    ensures SelectedList(foods, [e]) ==
      match FindFood(foods, e.id)
      case None => []
      case Some(f) => [SelectedItem(f, e.grams, ItemKcal(f, e.grams))]
  {
    assert [e][1..] == [];
  }

  /** The first entry contributes its own rows ahead of the rest. */
  lemma SelectedListCons(foods: seq<Food>, e: Entry, s: Selection)
    ensures SelectedList(foods, [e] + s) == SelectedList(foods, [e]) + SelectedList(foods, s)
  {
    var w := [e] + s;
    assert w[0] == e && w[1..] == s;
    SelectedListOne(foods, e);
  }

  /** The rows follow the entries: the list of a concatenation is the concatenation of the lists. */
  lemma {:induction false} SelectedListAppend(foods: seq<Food>, s: Selection, t: Selection)
    ensures SelectedList(foods, s + t) == SelectedList(foods, s) + SelectedList(foods, t)
    decreases |s|
  {
    if |s| == 0 {
      assert s + t == t;
    } else {
      var e, u := s[0], s[1..];
      Seqs.SplitFirst(s);
      assert s + t == [e] + (u + t);
      SelectedListCons(foods, e, u + t);
      SelectedListCons(foods, e, u);
      SelectedListAppend(foods, u, t);
      Seqs.AppendAssociative(SelectedList(foods, [e]), SelectedList(foods, u), SelectedList(foods, t));
    }
  }

  /** When every id is in the catalog, there is exactly one row per entry, in entry order. */
  lemma {:induction false} SelectedListAllFound(foods: seq<Food>, s: Selection)
    requires forall e :: e in s ==> FindFood(foods, e.id).Some?
    ensures |SelectedList(foods, s)| == |s|
    ensures forall i :: 0 <= i < |s| ==>
      SelectedList(foods, s)[i].food == FindFood(foods, s[i].id).value && SelectedList(foods, s)[i].grams == s[i].grams
    decreases |s|
  {
    if |s| > 0 {
      assert forall e :: e in s[1..] ==> e in s;
      SelectedListAllFound(foods, s[1..]);
      var f := FindFood(foods, s[0].id).value;
      var r := SelectedList(foods, s);
      assert r == [SelectedItem(f, s[0].grams, ItemKcal(f, s[0].grams))] + SelectedList(foods, s[1..]);
      forall i | 0 <= i < |s|
        ensures r[i].food == FindFood(foods, s[i].id).value && r[i].grams == s[i].grams
      {
        if i > 0 {
          assert r[i] == SelectedList(foods, s[1..])[i - 1] && s[1..][i - 1] == s[i];
        }
      }
    }
  }

  /** The sum of the rounded calories of a list. */
  function SumKcal(items: seq<SelectedItem>): int {
    if |items| == 0 then 0 else SumKcal(items[..|items| - 1]) + items[|items| - 1].kcal
  }

  /** The sum of the rounded calories of the items of one category. */
  function SumKcalOf(items: seq<SelectedItem>, category: string): int {
    if |items| == 0 then 0
    else
      var last := items[|items| - 1];
      SumKcalOf(items[..|items| - 1], category) + (if CategoryOf(last.food) == category then last.kcal else 0)
  }

  /** The categories present in a list. */
  ghost function CategoriesIn(items: seq<SelectedItem>): set<string> {
    set i | 0 <= i < |items| :: CategoryOf(items[i].food)
  }

  /** One more item adds its category to those present. */
  lemma CategoriesSnoc(items: seq<SelectedItem>, i: nat)
    requires i < |items|
    ensures CategoriesIn(items[..i + 1]) == CategoriesIn(items[..i]) + {CategoryOf(items[i].food)}
  {
    var key := CategoryOf(items[i].food);
    forall c | c in CategoriesIn(items[..i + 1]) ensures c in CategoriesIn(items[..i]) + {key} {
      var j :| 0 <= j < i + 1 && CategoryOf(items[..i + 1][j].food) == c;
      if j < i { assert items[..i][j] == items[..i + 1][j]; }
    }
    forall c | c in CategoriesIn(items[..i]) ensures c in CategoriesIn(items[..i + 1]) {
      var j :| 0 <= j < i && CategoryOf(items[..i][j].food) == c;
      assert items[..i + 1][j] == items[..i][j];
    }
    assert items[..i + 1][i] == items[i];
  }

  /** One more item adds its calories to the grand total and to its own category only. */
  lemma SumsSnoc(items: seq<SelectedItem>, i: nat)
    requires i < |items|
    ensures SumKcal(items[..i + 1]) == SumKcal(items[..i]) + items[i].kcal
    ensures var last := items[i];
      forall k :: SumKcalOf(items[..i + 1], k) == SumKcalOf(items[..i], k) + (if CategoryOf(last.food) == k then last.kcal else 0)
  {
    assert items[..i + 1][..i] == items[..i];
  }

  /**
   * totals: one pass that adds each item's calories to its category and to the grand total.
   * perType holds exactly the categories present, each with the sum of its items.
   */
  method Totals(items: seq<SelectedItem>) returns (perType: map<string, int>, total: int)
    ensures total == SumKcal(items)
    ensures perType.Keys == CategoriesIn(items)
    ensures forall k :: k in perType ==> perType[k] == SumKcalOf(items, k)
  {
    perType := map[];
    total := 0;
    var i := 0;
    while i < |items|
      invariant 0 <= i <= |items|
      invariant total == SumKcal(items[..i])
      invariant perType.Keys == CategoriesIn(items[..i])
      invariant forall k :: k in perType ==> perType[k] == SumKcalOf(items[..i], k)
      invariant forall k :: k !in perType ==> SumKcalOf(items[..i], k) == 0
    {
      var it := items[i];
      var key := CategoryOf(it.food);
      var prev := if key in perType then perType[key] else 0;
      perType := perType[key := prev + it.kcal];
      total := total + it.kcal;
      CategoriesSnoc(items, i);
      SumsSnoc(items, i);
      i := i + 1;
    }
    assert items[..i] == items;
  }
}
