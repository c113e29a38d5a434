/** The two configuration tables of the composer: calorie share per category and gram caps. */
module Tables {
  import opened Wrappers

  const Feculents: string := "F\U{E9}culents"
  const Proteines: string := "Prot\U{E9}ines"
  const Legumes: string := "L\U{E9}gumes"
  const Sides: string := "Sides"

  /** One row of RATIOS: the fraction of the meal target given to a category. */
  datatype Ratio = Ratio(category: string, share: real)

  /** RATIOS, in declaration order (the order in which the allocator visits categories). */
  const Ratios: seq<Ratio> := [
    Ratio(Feculents, 0.325),
    Ratio(Proteines, 0.475),
    Ratio(Legumes, 0.05),
    Ratio(Sides, 0.15)
  ]

  /** One row of CAPS_GRAMS: optional lower and upper bounds on a category's total grams. */
  datatype Cap = Cap(min: Option<int>, max: Option<int>)

  const CapsGrams: map<string, Cap> := map[
    Legumes := Cap(Some(200), Some(450)),
    Sides := Cap(Some(0), Some(25))
  ]

  function Categories(rs: seq<Ratio>): (r: seq<string>)
    ensures |r| == |rs| && forall i :: 0 <= i < |rs| ==> r[i] == rs[i].category
  {
    if |rs| == 0 then [] else [rs[0].category] + Categories(rs[1..])
  }

  /** Object.keys(RATIOS) */
  function RatioCategories(): (r: seq<string>)
    ensures r == [Feculents, Proteines, Legumes, Sides]
  {
    Categories(Ratios)
  }

  function SumShares(rs: seq<Ratio>): real {
    if |rs| == 0 then 0.0 else rs[0].share + SumShares(rs[1..])
  }

  /** RATIOS[category], absent for a category the table does not list. */
  function ShareOf(category: string): (r: Option<real>)
    ensures r.Some? <==> category in RatioCategories()
  {
    if category == Feculents then Some(0.325)
    else if category == Proteines then Some(0.475)
    else if category == Legumes then Some(0.05)
    else if category == Sides then Some(0.15)
    else None
  }

  /** ShareOf reads the same table as Ratios. */
  lemma ShareOfAgrees()
    ensures forall i :: 0 <= i < |Ratios| ==> ShareOf(Ratios[i].category) == Some(Ratios[i].share)
  {
  }

  /** The four shares are positive and add up to the whole target. */
  lemma RatiosSumToOne()
    ensures SumShares(Ratios) == 1.0
    ensures forall i :: 0 <= i < |Ratios| ==> Ratios[i].share > 0.0
  {
    assert SumShares(Ratios[4..]) == 0.0;
    assert SumShares(Ratios[3..]) == 0.15;
    assert SumShares(Ratios[2..]) == 0.2;
    assert SumShares(Ratios[1..]) == 0.675;
  }

  lemma RatioCategoriesDistinct()
    ensures forall i, j :: 0 <= i < j < |Ratios| ==> Ratios[i].category != Ratios[j].category
  {
  }

  /** Every cap has both bounds, with min <= max, and caps only categories that have a ratio. */
  lemma CapsWellFormed()
    ensures forall c :: c in CapsGrams ==> CapsGrams[c].min.Some? && CapsGrams[c].max.Some?
    ensures forall c :: c in CapsGrams ==> CapsGrams[c].min.value <= CapsGrams[c].max.value
    ensures forall c :: c in CapsGrams ==> c in RatioCategories()
    ensures CapsGrams[Legumes] == Cap(Some(200), Some(450)) && CapsGrams[Sides] == Cap(Some(0), Some(25))
  {
  }

  /** Starches and proteins have no cap, so the category-cap stage never touches them. */
  lemma StarchAndProteinUncapped()
    ensures Feculents !in CapsGrams && Proteines !in CapsGrams
  {
  }
}
