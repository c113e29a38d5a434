# mealprep: the meal composer, the shopping list and the request checks, in Dafny

This project models the parts of the mealprep application that hold its logic.

- **The meal composer** is a React hook over a food catalog. Each food has an id, a name, a
  category and its calories per 100 g.
  - A meal calorie target comes from the daily budget, the breakfast and the meal type (lunch or
    dinner). That target is split over four categories whose shares come from a fixed ratio table.
  - A selection maps food ids to grams. The user edits it by hand: add a food at 100 g, remove a
    food, step a food's grams up or down.
  - `autoQuantities` fills the selection automatically. It seeds one food per category when the
    selection is empty. It then splits each category's calories evenly over its foods and rescales
    the whole map to the target. Next it clamps each capped category into its gram range and
    clamps the one food with its own ceiling (raw chicken breast, 300 g). Finally it takes off
    5 g at a time, densest food first, until the meal is at or under the target.
- **The shopping list** merges the items of several saved meals. Each meal is scaled by its
  portion multiplier. Entries are merged under `foodId || nom`, rounded to 5 g, and sorted by
  category and then by name.
- **The requests** of the meals and calorie-log routes are checked, and the documents those
  routes store are normalised.

Each piece keeps the form of the code it models:
- The pure expressions (the memos, `round5`, the tables, `cleanItems`) are functions.
- The in-place stages are methods with loops, each proved equal to a specification function:
  - the two cap passes;
  - the down-adjust loop;
  - the seeding;
  - the even split;
  - the rescale;
  - the nested loops of the shopping list.
- The hook's state is a class, `ComposerHook.Composer`. Its handlers replace the selection.
- The properties are lemmas about the specification functions.

Modules, in dependency order:
- Utility modules: `Wrappers`, `Rounding`, `Text`, `Sorting`, `Grouping`.
- Data and edits: `Tables`, `Foods`, `Selections`, `Intake`, `Edits`.
- The allocation: `Caps`, `Adjust`, `Targets`, `Seeding`, `Allocator`, `AllocatorLaws`.
- The hook: `ComposerHook`.
- The routes: `Shopping`, `Http`, `MealsApi`, `CalorieLog`.

Representation choices:
- **The selection** is a list of entries with distinct ids in insertion order. That is the order
  `Object.keys` gives for keys that are not numeric. It matters because the stable density sort
  follows the key order of the even split, which is built from it.
- **Grams in the composer** are integers, since every writer goes through `round5` or the
  literal 100. Calories are `real`.
- **`Math.round(x)`** is `Floor(x + 0.5)`.
- **Falsy values.** A falsy string (undefined, null or "") is "". A `Number(...)` coercion that
  gives NaN is `None`.
- **`localeCompare`** is code-unit lexicographic order.
- **`norm`** has a concrete body: NFD plus stripping diacritics plus lower case, over ASCII and
  Latin-1 letters and the combining marks U+0300 to U+036F.

Behaviour of the code that is easy to misread:
- **The down-adjust limit.** The parameters card shows the meal target with a tolerance of
  "(±5%)" (app/composer/components/ParamsCard.tsx, line 116). Line 275 of useComposer.tsx,
  however, calls the loop with `maxK` equal to the meal target itself, not 1.05 × target. The
  model follows line 275.
- **The shopping multiplier** uses `??` (route.js, line 20), which only falls back on undefined
  or null. An explicit 0 or a negative multiplier is kept, not replaced by the meal's portions
  (`Shopping.ZeroPortionsKept`).
- **Idempotence of `autoQuantities`** holds only when its first result is non-empty. An empty
  result makes the next run seed from the catalog.
- **The allocation depends on the ORDER of the selected ids**, not only on their set. Across
  categories the split's key order, and so the density-sort ties, follow the order of the RATIOS
  keys. Within a category both follow the order of the selected ids. It never depends on the
  previous grams (`Allocator.AllocateIgnoresGrams`).

## Model

| member | source | states |
|---|---|---|
| Rounding.Max | app/composer/useComposer.tsx:110 | Math.max on integers, with no contract of its own: Rounding.Round5 and Edits.SteppedGrams state the floor at 0 it gives |
| Rounding.Min | app/composer/useComposer.tsx:125 | Math.min on integers, with no contract of its own: Foods.ClampItemGrams and Caps.ItemCapped state the ceiling it gives |
| Rounding.Round | app/composer/useComposer.tsx:54 | Math.round gives the integer within half a unit of x, halves going up |
| Rounding.RoundTo5 | app/api/shopping-list/route.js:36 | Math.round(g / 5) * 5 is a multiple of 5 within 2.5 of g, for any sign of g |
| Rounding.Round5 | app/composer/useComposer.tsx:110 | round5 gives a non-negative multiple of 5. For g ≥ 0 it is within 2.5 of g, and it never exceeds max(g, 0) + 2.5 |
| Rounding.Round5Identity | app/composer/useComposer.tsx:110 | round5 is the identity on non-negative multiples of 5 |
| Rounding.Round5AtMost | app/composer/useComposer.tsx:110 | round5 of a value at or under a 5-gram step stays at or under that step |
| Rounding.Round5Monotone | app/composer/useComposer.tsx:110 | round5 is monotone |
| Rounding.RoundMonotone | app/composer/useComposer.tsx:54 | Math.round is monotone |
| Text.FoldChar | app/composer/useComposer.tsx:111-115 | one character of norm becomes at most one character |
| Text.CombiningMarks | app/composer/useComposer.tsx:113-114 | among the combining marks U+0300 to U+036F, `\p{Diacritic}` strips exactly U+0300 to U+0362 except U+034F and U+0358 to U+035C; every other mark, including the combining Latin small letters U+0363 to U+036F, is kept unchanged |
| Text.Norm | app/composer/useComposer.tsx:111-115 | norm never lengthens a string |
| Text.NormPlain | app/composer/useComposer.tsx:111-115 | norm leaves lower-case ASCII letters and spaces unchanged |
| Text.StrLe | app/api/shopping-list/route.js:37 | `localeCompare(a, b) <= 0` as code-unit lexicographic order, with no contract of its own: Text.StrLeTotal, StrLeAntisymmetric and StrLeTransitive prove it a total order |
| Text.StrLeTotal | app/api/shopping-list/route.js:37 | any two names are comparable under localeCompare, modelled as code-unit order |
| Text.StrLeAntisymmetric | app/api/shopping-list/route.js:37 | two names that each come no later than the other are equal |
| Text.StrLeTransitive | app/api/shopping-list/route.js:37 | the name order is transitive |
| Sorting.Insert | app/api/shopping-list/route.js:37 | inserting into the sorted prefix adds exactly that element (multiset) |
| Sorting.SortBy | app/api/shopping-list/route.js:37 | Array.prototype.sort returns a permutation of its input |
| Sorting.InsertSorted | app/api/shopping-list/route.js:37 | inserting into a sorted list keeps it sorted under a total preorder |
| Sorting.SortBySorted | app/api/shopping-list/route.js:37 | the sort's result is ordered by any total preorder comparator |
| Sorting.InsertTies | app/composer/useComposer.tsx:187 | inserting an element puts it ahead of the elements it ties with and keeps their order |
| Sorting.SortByStable | app/composer/useComposer.tsx:187 | the sort is stable: for every z, the elements tied with z come out in their input order |
| Grouping.AddTo | app/composer/useComposer.tsx:153 | (acc[k] \|\|= []).push(x) keeps the key order and appends a new key at the end |
| Grouping.Filter | app/composer/useComposer.tsx:150-155 | the reference for one bucket: the elements with key k, each in the input |
| Grouping.FilterAppend | app/composer/useComposer.tsx:150-155 | filtering distributes over concatenation |
| Grouping.MembersAddTo | app/composer/useComposer.tsx:153 | a push extends only the bucket of its own key |
| Grouping.GroupByMembers | app/composer/useComposer.tsx:150-155 | every bucket of the reduce is exactly the input filtered by that key, in input order |
| Grouping.GroupByKeys | app/composer/useComposer.tsx:150-155 | the buckets' keys are distinct and are exactly the keys occurring in the input |
| Grouping.MembersAt | app/composer/useComposer.tsx:159 | with distinct keys, the bucket looked up by a key is that group's own list |
| Tables.RatioCategories | app/composer/constants.ts:1-6 | Object.keys(RATIOS) is Féculents, Protéines, Légumes, Sides, in that order |
| Tables.ShareOf | app/composer/constants.ts:1-6 | a category has a ratio exactly when it is one of the four keys |
| Tables.ShareOfAgrees | app/composer/constants.ts:1-6 | the lookup and the ordered table agree on every share |
| Tables.RatiosSumToOne | app/composer/constants.ts:1-6 | the shares 0.325, 0.475, 0.05, 0.15 are positive and sum to 1 |
| Tables.RatioCategoriesDistinct | app/composer/constants.ts:1-6 | the four categories are distinct |
| Tables.CapsWellFormed | app/composer/constants.ts:1-11 | each cap has both bounds with min ≤ max: Légumes [200, 450] and Sides [0, 25]. Every capped category is a key of RATIOS |
| Tables.StarchAndProteinUncapped | app/composer/constants.ts:8-11 | Féculents and Protéines have no cap |
| Foods.CategoryOf | app/composer/useComposer.tsx:58 | typeName \|\| "Autres" is the typeName when there is one and "Autres" when it is empty |
| Foods.FindFood | app/composer/useComposer.tsx:127 | foods.find gives a catalog food with that id, and nothing exactly when no food has it |
| Foods.FindFoodUnique | app/composer/useComposer.tsx:127 | with unique catalog ids, looking up a food's id finds that food |
| Foods.TypeOf | app/composer/useComposer.tsx:128 | typeOf is the found food's category, or "Autres" for an unknown id |
| Foods.KcalPerGram | app/composer/useComposer.tsx:129-130 | kcalPerGram is the food's calories per 100 g divided by 100, or 0 for an unknown id |
| Foods.KcalPerGramNonNegative | app/composer/useComposer.tsx:129-130 | non-negative catalog calories give non-negative densities |
| Foods.Grouped | app/composer/useComposer.tsx:57-63 | the grouped memo, with no contract of its own: Foods.GroupedMembers gives its buckets and Seeding.CandidateIsFirst reads their first element |
| Foods.GroupedMembers | app/composer/useComposer.tsx:57-63 | grouped[type] holds exactly the catalog foods of that category, in catalog order |
| Foods.CappedKeyIsNorm | app/composer/useComposer.tsx:119 | the key compared against is norm("Blanc de poulet cru") |
| Foods.IsCappedName | app/composer/useComposer.tsx:118-119 | a non-empty name whose norm is the capped key, with no contract of its own: Foods.ItemMaxGrams states it as the exact condition for the 300 g ceiling, and Foods.CappedKeyIsNorm gives the key |
| Foods.ItemMaxGrams | app/composer/useComposer.tsx:116-121 | the ceiling is 300, and exists exactly for a found food with a non-empty name that normalises to that key |
| Foods.ClampItemGrams | app/composer/useComposer.tsx:122-126 | clampItemGrams never raises grams: min(grams, 300) for the capped food, unchanged otherwise |
| Selections.Lookup | app/composer/useComposer.tsx:132 | prev[id] exists exactly when id is a key |
| Selections.LookupAt | app/composer/useComposer.tsx:132 | with distinct keys, the entry at a position is the one a lookup finds |
| Selections.GramsOf | app/composer/useComposer.tsx:133 | `prev[id]?.grams \|\| 0`, also read at line 192, with no contract of its own: Edits.SteppedGrams, Adjust.StepDownLowers and Adjust.AdjustDownNeverRaises state results through it |
| Selections.Put | app/composer/useComposer.tsx:168 | data[id] = { grams } adds one entry exactly when id was not a key |
| Selections.PutLookup | app/composer/useComposer.tsx:168 | after the assignment, id maps to the new grams and every other key keeps its value |
| Selections.PutIds | app/composer/useComposer.tsx:168 | assigning a key keeps the key order, and a new key goes to the end |
| Selections.PutAppend | app/composer/useComposer.tsx:234 | assigning a new key appends it |
| Selections.PutAt | app/composer/useComposer.tsx:269 | assigning a present key updates its position in place |
| Selections.PutDistinct | app/composer/useComposer.tsx:168 | assignment keeps the keys distinct |
| Selections.Remove | app/composer/useComposer.tsx:103-109 | delete removes that key, keeps every other key's value and adds nothing |
| Selections.RemoveOne | app/composer/useComposer.tsx:103-109 | a single entry survives the delete exactly when its key is another one |
| Selections.RemoveAppend | app/composer/useComposer.tsx:103-109 | delete keeps the remaining entries in their order: it distributes over concatenation |
| Selections.RemoveDistinct | app/composer/useComposer.tsx:103-109 | delete keeps the keys distinct |
| Selections.RemoveGramSteps | app/composer/useComposer.tsx:103-109 | delete keeps every value a 5-gram step |
| Selections.PutGramSteps | app/composer/useComposer.tsx:168 | assigning a 5-gram step keeps every value a 5-gram step |
| Intake.RawKcal | app/composer/useComposer.tsx:144-147 | the unrounded reduce, with no contract of its own: Intake.ComputeTotalK rounds it, and Intake.RawKcalUpdate, RawKcalAppend and RawKcalLower state how it moves |
| Intake.EntryKcal | app/composer/useComposer.tsx:146 | `v.grams * kcalPerGram(id)` for one entry, with no contract of its own: Intake.EntryKcalDifference states how it moves with the grams |
| Intake.ComputeTotalK | app/composer/useComposer.tsx:143-148 | computeTotalK is within 0.5 kcal of the sum of grams × kcal per gram |
| Intake.EntryKcalDifference | app/composer/useComposer.tsx:146 | one entry's kcal moves by the gram change times its density |
| Intake.RawKcalUpdate | app/composer/useComposer.tsx:143-148 | changing one entry's grams moves the unrounded total by that entry's new calories minus its old ones |
| Intake.RawKcalLower | app/composer/useComposer.tsx:143-148 | lowering one entry's grams never raises the unrounded total when that food's density is non-negative |
| Intake.RawKcalAppend | app/composer/useComposer.tsx:143-148 | the unrounded total is additive over concatenation |
| Intake.SumGramsUpdate | app/composer/useComposer.tsx:162 | changing one entry moves the gram sum by the difference |
| Intake.CategoryGrams | app/composer/useComposer.tsx:197-198 | the reduce over one category bucket (also line 162), with no contract of its own: Intake.GroupByTypeMembers equates it with the bucket's sum, Intake.CategoryGramsUpdate states how it moves, and Adjust.StepDownWithinCaps bounds it |
| Intake.CategoryGramsUpdate | app/composer/useComposer.tsx:198 | changing one entry moves its own category's gram total by the difference, and no other |
| Intake.SumGramsAppend | app/composer/useComposer.tsx:162 | the gram sum is additive over concatenation |
| Intake.CategoryEntriesIn | app/composer/useComposer.tsx:150-155 | each entry of a category bucket is an entry of the map of that category |
| Intake.GroupByType | app/composer/useComposer.tsx:150-155 | groupByType, with no contract of its own: Intake.GroupByTypeMembers gives its buckets and their sums |
| Intake.GroupByTypeMembers | app/composer/useComposer.tsx:150-155 | groupByType buckets each entry under typeOf(id), in map order, and the bucket sums are the category totals |
| Intake.ItemKcal | app/composer/useComposer.tsx:71 | `Math.round(grams / 100 * caloriesPer100g)`, with no contract of its own: Intake.SelectedList states it is each row's kcal |
| Intake.SelectedList | app/composer/useComposer.tsx:65-75 | every row is a catalog food of the map with its grams and rounded kcal, and every found entry has its row. Unknown ids are dropped |
| Intake.SelectedListOne | app/composer/useComposer.tsx:67-72 | one entry gives exactly one row when its food is found and none otherwise |
| Intake.SelectedListCons | app/composer/useComposer.tsx:65-75 | the first entry's rows come ahead of the rows of the rest |
| Intake.SelectedListAppend | app/composer/useComposer.tsx:65-75 | the rows follow the entries: the list of s + t is the list of s followed by that of t |
| Intake.SelectedListAllFound | app/composer/useComposer.tsx:65-75 | when every id is in the catalog there is exactly one row per entry, in entry order, with that entry's food and grams |
| Intake.SumKcal | app/composer/useComposer.tsx:80-83 | the running `total += it.kcal`, with no contract of its own: Intake.Totals states it is the total |
| Intake.SumKcalOf | app/composer/useComposer.tsx:80-83 | the running `perType[key] += it.kcal` for one category, with no contract of its own: Intake.Totals states it is perType of that category |
| Intake.Totals | app/composer/useComposer.tsx:77-86 | totals: the grand total is the sum of the rows' kcal. perType has exactly the categories present, each with the sum of its rows |
| Edits.AddFood | app/composer/useComposer.tsx:100-102 | addFood never overwrites: a present food keeps its grams, and a new one is appended at 100 g. Other keys are unchanged |
| Edits.RemoveFood | app/composer/useComposer.tsx:103-109 | removeFood deletes only its key |
| Edits.SteppedGrams | app/composer/useComposer.tsx:131-134 | the new grams are the 5-gram step within 2.5 of cur + delta lowered to the ceiling, which fixes them: exactly cur + delta when that is a step within the ceiling, exactly 300 for the capped food at or above 300, and 0 when cur + delta is not positive |
| Edits.ClampRoundFacts | app/composer/useComposer.tsx:134 | round5 of the clamped value respects the ceiling, and is the identity on a step within it |
| Edits.UpdateFoodGrams | app/composer/useComposer.tsx:131-142 | the key holds the stepped grams, or is deleted when they are 0. Every other key is unchanged |
| Edits.AddFoodKeepsSteps | app/composer/useComposer.tsx:100-102 | addFood keeps keys distinct and values 5-gram steps |
| Edits.RemoveFoodKeepsSteps | app/composer/useComposer.tsx:103-109 | removeFood keeps keys distinct and values 5-gram steps |
| Edits.UpdateFoodGramsKeepsSteps | app/composer/useComposer.tsx:131-142 | updateFoodGrams keeps keys distinct and values 5-gram steps |
| Caps.ClampedTotal | app/composer/useComposer.tsx:163-165 | the target total lies in [min, max] for a well-formed cap, and equals the total when it is already inside |
| Caps.ScaledGrams | app/composer/useComposer.tsx:168 | round5(grams × factor) is a 5-gram step |
| Caps.TypeCapped | app/composer/useComposer.tsx:157-170 | an entry of an uncapped category is untouched; one of a capped category becomes a 5-gram step |
| Caps.TypeCapsOf | app/composer/useComposer.tsx:157-171 | applyTypeCaps keeps every key in place, maps each entry by TypeCapped and keeps 5-gram steps |
| Caps.SameIdsDistinct | app/composer/useComposer.tsx:168 | rewriting values in place keeps the keys distinct |
| Caps.ScaleItems | app/composer/useComposer.tsx:167-169 | the inner forEach rescales exactly the entries of that category's bucket |
| Caps.ApplyTypeCaps | app/composer/useComposer.tsx:157-171 | the in-place pass over the buckets yields TypeCapsOf |
| Caps.ItemCapped | app/composer/useComposer.tsx:175-178 | only the capped food changes, to min(grams, 300) |
| Caps.ItemCapsOf | app/composer/useComposer.tsx:173-180 | applyItemCaps keeps every key in place and keeps 5-gram steps. It leaves the capped food at most 300 g and every other entry unchanged |
| Caps.ApplyItemCaps | app/composer/useComposer.tsx:173-180 | the in-place pass yields ItemCapsOf |
| Caps.ItemCapsIdempotent | app/composer/useComposer.tsx:173-180 | applying the item caps twice is the same as once |
| Caps.SumGramsZero | app/composer/useComposer.tsx:166 | a zero total of non-negative grams has only zero entries |
| Caps.SumGramsNonNegative | app/composer/useComposer.tsx:162 | non-negative grams have a non-negative total |
| Caps.CapFactor | app/composer/useComposer.tsx:162-166 | the factor targetTotalG / (totalG \|\| 1), with no contract of its own: Caps.CapFactorOf gives its value and Caps.CapFactorInRange shows it is 1 inside the range |
| Caps.CapFactorInRange | app/composer/useComposer.tsx:163-166 | a non-zero category total already in [min, max] gives factor 1 |
| Caps.CategoryZero | app/composer/useComposer.tsx:166 | a category with zero total grams has only zero-gram entries |
| Caps.TypeCapsKeepsInRange | app/composer/useComposer.tsx:157-171 | a capped category whose total is already in [min, max] is unchanged |
| Caps.TypeCapsVegetableExample | app/composer/useComposer.tsx:157-171 | two 300 g vegetable items (600 g over the 450 g max) become 225 g each |
| Adjust.Denser | app/composer/useComposer.tsx:187 | the comparator kcalPerGram(b) - kcalPerGram(a), read as "a may precede b"; it has no contract of its own: Adjust.DenserTotalPreorder proves it a total preorder and Adjust.ByDensity sorts by it |
| Adjust.CanApplyDelta | app/composer/useComposer.tsx:191-202 | canApplyDelta, with no contract of its own: Adjust.StepDownAt takes exactly 5 g off an allowed food and Adjust.StepDownWithinCaps shows the moved category stays in range |
| Adjust.FirstMovable | app/composer/useComposer.tsx:206-215 | the inner for loop with its continue and break, with no contract of its own: its properties are Adjust.FirstMovableAllowed, FirstMovableNone, FirstMovableFound, FirstMovableAt and FirstMovableGreedy |
| Adjust.DenserTotalPreorder | app/composer/useComposer.tsx:187 | the density comparator is a total preorder |
| Adjust.ByDensity | app/composer/useComposer.tsx:187 | the ids are a permutation of the keys, sorted densest first |
| Adjust.FirstMovableAllowed | app/composer/useComposer.tsx:206-215 | the inner loop moves an id of the list that canApplyDelta allows |
| Adjust.FirstMovableNone | app/composer/useComposer.tsx:206-216 | the inner loop moves nothing exactly when no id can lose 5 g |
| Adjust.FirstMovableFound | app/composer/useComposer.tsx:206-215 | the moved id has no movable id ahead of it |
| Adjust.FirstMovableAt | app/composer/useComposer.tsx:206-215 | the first movable position determines the moved id |
| Adjust.StepDown | app/composer/useComposer.tsx:208 | `data[id] = { grams: round5(data[id].grams + step) }`, with no contract of its own: Adjust.StepDownAt, StepDownIds, StepDownLowers, StepDownKcal and StepDownWithinCaps state what a step does |
| Adjust.StepDownIds | app/composer/useComposer.tsx:208 | a step keeps the keys, their order and their distinctness |
| Adjust.AdjustLoop | app/composer/useComposer.tsx:204-219 | the outer for loop over at most maxIters rounds, with no contract of its own: Adjust.AdjustLoopRound, AdjustLoopReplay and AdjustLoopStops describe it, and Adjust.AdjustDownToTarget is proved equal to it |
| Adjust.AdjustLoopRound | app/composer/useComposer.tsx:204-219 | one round: stop when nothing moves, stop after a move that reaches maxK, otherwise continue |
| Adjust.AdjustDown | app/composer/useComposer.tsx:182-184 | a map already at or under maxK is returned unchanged |
| Adjust.AdjustDownToTarget | app/composer/useComposer.tsx:182-220 | the in-place loop with its moved flag and the totalsByType updates yields AdjustDown |
| Adjust.AdjustLoopReplay | app/composer/useComposer.tsx:204-219 | the loop is a replay of legal moves, at most one per round |
| Adjust.AdjustDownReplay | app/composer/useComposer.tsx:182-220 | adjustDownToTarget is a replay of at most 300 legal moves of the sorted keys |
| Adjust.AdjustDownIds | app/composer/useComposer.tsx:182-220 | only values change: the keys, their order and distinctness stay |
| Adjust.StepDownLowers | app/composer/useComposer.tsx:208 | a step lowers the moved food and leaves every other food as it was |
| Adjust.AdjustDownNeverRaises | app/composer/useComposer.tsx:182-220 | no food's grams ever increase |
| Adjust.AdjustDownGramSteps | app/composer/useComposer.tsx:208 | every value stays a non-negative multiple of 5 |
| Adjust.StepDownAt | app/composer/useComposer.tsx:208 | on 5-gram steps a move takes exactly 5 g off the moved food |
| Adjust.StepDownRawKcal | app/composer/useComposer.tsx:208 | with non-negative calories a step never raises the unrounded total |
| Adjust.StepDownKcal | app/composer/useComposer.tsx:217 | with non-negative calories a step never raises computeTotalK |
| Adjust.AdjustDownKcal | app/composer/useComposer.tsx:182-220 | with non-negative calories the meal's total kcal never increases |
| Adjust.AdjustDownStops | app/composer/useComposer.tsx:204-219 | the loop ends with the total at or under maxK, or with no movable food, or after all 300 steps (1500 g taken off) |
| Adjust.FirstMovableGreedy | app/composer/useComposer.tsx:206-207 | the moved food is the densest movable one: every strictly denser food is blocked |
| Adjust.StepDownWithinCaps | app/composer/useComposer.tsx:191-202 | a legal step takes 5 g off the moved food's category and leaves it inside its range when it has one; every other category keeps its grams |
| Adjust.AdjustDownWithinCaps | app/composer/useComposer.tsx:182-220 | for each category on its own: if it is inside its gram range before adjustDownToTarget, it is inside it after, whatever the other categories hold |
| Targets.MealShare | app/composer/useComposer.tsx:53 | 0.6 for lunch and 0.4 otherwise, with no contract of its own: Targets.MealTargetKcal, MealTargetExample and MealTargetsCoverDay state the target it gives |
| Targets.NumberOrZero | app/composer/useComposer.tsx:50-51 | `Number(x) \|\| 0`, with no contract of its own: Targets.Remaining and Targets.MealTargetNoBudget state the fallback to 0 |
| Targets.Remaining | app/composer/useComposer.tsx:50-52 | max(0, daily − breakfast) is non-negative and at least daily − breakfast, with non-converting inputs counting as 0 |
| Targets.MealTargetKcal | app/composer/useComposer.tsx:49-55 | the target is round(remaining × 0.6 for lunch, 0.4 for dinner): non-negative and within half a kcal |
| Targets.MealTargetNoBudget | app/composer/useComposer.tsx:50-52 | no usable daily budget gives a target of 0 |
| Targets.MealTargetExample | app/composer/useComposer.tsx:49-55 | 2200 kcal a day and a 500 kcal breakfast give 1020 at lunch and 680 at dinner |
| Targets.MealTargetsCoverDay | app/composer/useComposer.tsx:53 | lunch plus dinner are within 1 kcal of what breakfast leaves |
| Targets.CategoryTarget | app/composer/useComposer.tsx:94-96 | targets[type] is within half a kcal of target × ratio |
| Targets.TargetOf | app/composer/useComposer.tsx:253 | targets[type] \|\| 0 is 0 for a category without a ratio |
| Targets.SumTargetsBounds | app/composer/useComposer.tsx:92-98 | the rounded targets of n ratios are within n/2 of target × their share sum |
| Targets.TargetsSumToMeal | app/composer/useComposer.tsx:92-98 | the four category targets add up to the meal target within 2 kcal |
| Targets.TargetsNonNegative | app/composer/useComposer.tsx:94-96 | a non-negative meal target gives non-negative category targets |
| Seeding.EnsureOnePerType | app/composer/useComposer.tsx:226-237 | ensureOnePerType, with no contract of its own: Seeding.SeedMissing is proved equal to it, and Seeding.SeedCategoriesDistinct, SeedCategoriesAppend and SeedFromEmpty state its result |
| Seeding.HasInType | app/composer/useComposer.tsx:228-231 | hasInType, with no contract of its own: Seeding.SeedCategoryStep and SeedFromEmpty state that a category with no food selected so far gets its first catalog food |
| Seeding.SeedCategory | app/composer/useComposer.tsx:228-235 | one pass of the loop body, with no contract of its own: Seeding.SeedCategoryStep and Seeding.CandidateIsFirst state what it adds |
| Seeding.SeedCategories | app/composer/useComposer.tsx:227-236 | the loop over the categories, with no contract of its own: Seeding.SeedCategoriesAppend, SeedCategoriesDistinct and SeedFromEmpty state its result |
| Seeding.SeedMissing | app/composer/useComposer.tsx:226-237 | the loop over the RATIOS keys yields EnsureOnePerType |
| Seeding.SeedCategoriesDistinct | app/composer/useComposer.tsx:234 | seeding keeps the keys distinct |
| Seeding.FirstOfCategory | app/composer/useComposer.tsx:233 | the reference candidate is a catalog food of the category, and is absent exactly when the category has none |
| Seeding.CandidateIsFirst | app/composer/useComposer.tsx:233 | (grouped[type] \|\| [])[0] is the first catalog food of that category |
| Seeding.FirstEntry | app/composer/useComposer.tsx:234 | a seeded entry is a catalog food |
| Seeding.SeedCategoryStep | app/composer/useComposer.tsx:228-235 | a category without a food receives its first catalog food at 100 g, appended |
| Seeding.SeedCategoriesAppend | app/composer/useComposer.tsx:227-236 | seeding appends, category by category, the first catalog food of each |
| Seeding.SeedFromEmpty | app/composer/useComposer.tsx:225-238 | from an empty selection, seeding adds exactly the first catalog food of each RATIOS category that has one, at 100 g, in RATIOS order |
| Allocator.FoodIds | app/composer/useComposer.tsx:261 | the ids of a list of foods, in order |
| Allocator.Found | app/composer/useComposer.tsx:241-243 | only keys whose catalog food exists contribute, as that food |
| Allocator.KcalPerGramFood | app/composer/useComposer.tsx:249-258 | the density used is calories / 100, or 0.01 for a food without calories, never 0 |
| Allocator.EvenGrams | app/composer/useComposer.tsx:256-260 | each food of a category gets a 5-gram step within 2.5 g of its even kcal share over its density |
| Allocator.SelByType | app/composer/useComposer.tsx:240-246 | the selByType buckets, with no contract of its own: Allocator.FoundCategoryIds says which foods each bucket holds |
| Allocator.EvenSplit | app/composer/useComposer.tsx:248-263 | the even split, with no contract of its own: Allocator.SplitEvenly is proved equal to it, and Allocator.EvenSplitKeys, EvenSplitDistinct and AllocatorLaws.EvenSplitIds state its keys |
| Allocator.PutEach | app/composer/useComposer.tsx:257-262 | the inner for loop of the split, with no contract of its own: Allocator.PutItems is proved equal to it, and Allocator.PutEachKeys and PutEachDistinct state the keys it writes |
| Allocator.SplitCategory | app/composer/useComposer.tsx:252-262 | one category of the split, skipped without foods or target, with no contract of its own: Allocator.SplitOne is proved equal to it |
| Allocator.SplitCategories | app/composer/useComposer.tsx:251-263 | the forEach over the RATIOS keys, with no contract of its own: Allocator.EvenSplit is this function over the RATIOS keys, the loop of Allocator.SplitEvenly keeps it as its invariant, and Allocator.SplitCategoriesKeys and AllocatorLaws.SplitCategoriesAgree state its keys |
| Allocator.SplitEvenly | app/composer/useComposer.tsx:251-263 | the forEach over RATIOS building next yields EvenSplit |
| Allocator.SplitOne | app/composer/useComposer.tsx:251-263 | the callback for one category skips it when it has no food or a target of 0 or less, and otherwise writes each food's even share |
| Allocator.PutItems | app/composer/useComposer.tsx:257-262 | the inner loop over a category's foods writes round5(perItemK / kpg) for each, in order |
| Allocator.EvenSplitKeys | app/composer/useComposer.tsx:251-263 | the split has a key exactly for each catalog food of the ids whose category has a positive RATIOS target |
| Allocator.Rescaled | app/composer/useComposer.tsx:268-270 | every value is round5(grams × factor), keys kept in place |
| Allocator.RescaledToTarget | app/composer/useComposer.tsx:265-271 | the rescale keeps the keys and 5-gram steps and does nothing when the initial total is 0 |
| Allocator.RescaleToTarget | app/composer/useComposer.tsx:265-271 | the in-place rescale yields RescaledToTarget |
| Allocator.Seeded | app/composer/useComposer.tsx:238 | a non-empty selection is not seeded |
| Allocator.Allocate | app/composer/useComposer.tsx:222-223 | a target of 0 or less leaves the selection as it is |
| Allocator.AutoQuantities | app/composer/useComposer.tsx:222-278 | the whole pipeline on a working copy yields Allocate |
| Allocator.EvenSplitDistinct | app/composer/useComposer.tsx:248-263 | the split writes each key once |
| Allocator.Finish | app/composer/useComposer.tsx:265-275 | rescale, caps and down-adjust of the split, with no contract of its own: Allocator.FinishIds, AllocateGramSteps and AllocateStops state its result |
| Allocator.FinishIds | app/composer/useComposer.tsx:265-275 | rescale, caps and down-adjust keep the split's keys in order |
| Allocator.FoundCategoryIds | app/composer/useComposer.tsx:240-246 | a key is in selByType[type] exactly when its catalog food is of that category |
| Allocator.SplitCategoriesKeys | app/composer/useComposer.tsx:251-263 | the split has a key exactly for the foods of categories with a positive target |
| Allocator.AllocateKeys | app/composer/useComposer.tsx:240-263 | the result has a key exactly for each seeded or selected food that exists in the catalog and whose category has a positive RATIOS target |
| Allocator.AllocateGramSteps | app/composer/useComposer.tsx:260-275 | every output value is a non-negative multiple of 5 |
| Allocator.AllocateIgnoresGrams | app/composer/useComposer.tsx:240-278 | the result depends only on the selected keys, not on their grams |
| Allocator.RescaleAtTarget | app/composer/useComposer.tsx:265-271 | a split already at the target in 5-gram steps is not changed by the rescale |
| Allocator.AllocateStops | app/composer/useComposer.tsx:273-275 | the result is at or under the meal target, or no food can lose 5 g, or 300 steps were taken |
| AllocatorLaws.FoundUnique | app/composer/useComposer.tsx:241-245 | distinct keys give foods with distinct ids |
| AllocatorLaws.ChosenUnique | app/composer/useComposer.tsx:251-263 | the foods the split allocates have distinct ids |
| AllocatorLaws.EvenSplitIds | app/composer/useComposer.tsx:251-263 | the split's keys are the allocated foods, category by category |
| AllocatorLaws.FilterChosen | app/composer/useComposer.tsx:240-263 | grouping the allocated foods again gives back each planned category's list |
| AllocatorLaws.SplitCategoriesAgree | app/composer/useComposer.tsx:251-263 | two groupings that agree on the planned categories give the same split |
| AllocatorLaws.ResplitSame | app/composer/useComposer.tsx:240-263 | splitting the split's own keys again gives the same split |
| AllocatorLaws.AllocateIdempotent | app/composer/useComposer.tsx:222-278 | re-running autoQuantities on its own non-empty result returns the same map |
| ComposerHook.Composer.constructor | app/composer/useComposer.tsx:8-16 | the initial state: the catalog, no budget typed, breakfast 500, lunch, nothing selected |
| ComposerHook.Composer.MealTarget | app/composer/useComposer.tsx:49-55 | the memo mealTargetKcal of the current fields, never negative |
| ComposerHook.Composer.SetParams | app/composer/useComposer.tsx:11-15 | the form setters change the parameters and keep the selection |
| ComposerHook.Composer.AddFood | app/composer/useComposer.tsx:100-102 | the selection becomes addFood's result and stays an object of 5-gram steps; nothing else changes |
| ComposerHook.Composer.RemoveFood | app/composer/useComposer.tsx:103-109 | only the key goes; the invariant holds and nothing else changes |
| ComposerHook.Composer.UpdateFoodGrams | app/composer/useComposer.tsx:131-142 | the selection becomes updateFoodGrams's result; other keys and fields unchanged |
| ComposerHook.Composer.AutoQuantities | app/composer/useComposer.tsx:222-278 | the selection becomes the allocation for the current target, and stays an object of 5-gram steps |
| ComposerHook.Composer.Totals | app/composer/useComposer.tsx:77-86 | the totals of the current selection list |
| ComposerHook.AllocateKeepsSteps | app/composer/useComposer.tsx:222-278 | the allocation keeps keys distinct and values 5-gram steps |
| Shopping.Load | app/api/shopping-list/route.js:15 | `{ id: s.id, ...s.data() }` for an existing document, with no contract of its own: Shopping.Fetch states every fetched meal is the Load of its id |
| Shopping.Fetch | app/api/shopping-list/route.js:13-15 | requested ids whose document is missing are skipped; every existing one is loaded |
| Shopping.Multiplier | app/api/shopping-list/route.js:20 | `Number(portionsByMeal[meal.id] ?? meal.portions ?? 1)`, with no contract of its own: Shopping.ZeroPortionsKept and MealsApi.SavedMealMultiplier state its fallbacks |
| Shopping.ZeroPortionsKept | app/api/shopping-list/route.js:20 | portionsByMeal[id] wins even when it is 0, then the stored portions, then 1 |
| Shopping.KeyOf | app/api/shopping-list/route.js:22 | the merge key `foodId \|\| nom`, with no contract of its own: Shopping.AddAllKeys and OneEntryPerKey show there is one entry per key |
| Shopping.FreshTally | app/api/shopping-list/route.js:23-29 | a new entry has 0 g, the item's nom, its foodId or null, its typeName or "Autres" when that is empty, and its calories or 0 when they are absent |
| Shopping.Contribution | app/api/shopping-list/route.js:30 | `(Number(it.gramsPerPortion) \|\| 0) * mult`, with no contract of its own: Shopping.AddAllTally and AccumulatedEntry state that an entry grows by these amounts |
| Shopping.TallyAt | app/api/shopping-list/route.js:23 | acc.get, with no contract of its own: Shopping.TallyAtKeys and SetSlotLookup state what it finds |
| Shopping.TallyAtKeys | app/api/shopping-list/route.js:23 | acc.get finds a value exactly for a key of the Map |
| Shopping.SetSlot | app/api/shopping-list/route.js:31 | acc.set, with no contract of its own: Shopping.SetSlotLookup and SetSlotKeys state what it changes and what it keeps |
| Shopping.SetSlotLookup | app/api/shopping-list/route.js:31 | after acc.set the key holds the new value and every other key keeps its own |
| Shopping.SetSlotKeys | app/api/shopping-list/route.js:31 | acc.set keeps the key order and appends a new key at the end |
| Shopping.AddOne | app/api/shopping-list/route.js:22-31 | one pass of the inner loop body, with no contract of its own: Shopping.AddAllTally, InnerStep and AddItems state its effect |
| Shopping.AddAllAppend | app/api/shopping-list/route.js:19-33 | running the loop body over two lists of items is running it over their concatenation |
| Shopping.Accumulate | app/api/shopping-list/route.js:18-33 | the Map after the nested loops, with no contract of its own: Shopping.Aggregate is proved equal to it, and Shopping.AccumulatedEntry, OneEntryPerKey and AddAllKeys state its entries |
| Shopping.Aggregate | app/api/shopping-list/route.js:18-33 | the nested for loops updating the Map in place yield Accumulate |
| Shopping.AddItems | app/api/shopping-list/route.js:21-32 | the inner loop over one meal's items runs the loop body over its weighed items, in order |
| Shopping.DedupFacts | app/api/shopping-list/route.js:18 | the keys in first-seen order are distinct and are exactly the keys seen |
| Shopping.AddAllKeys | app/api/shopping-list/route.js:22-31 | the Map's keys are the items' keys in order of first appearance |
| Shopping.OneEntryPerKey | app/api/shopping-list/route.js:22-31 | the Map has exactly one entry per distinct foodId \|\| nom of the items, in first-seen order, whatever the multipliers |
| Shopping.FirstIndex | app/api/shopping-list/route.js:23 | the position of the first item with a given key, and none exactly when no item has it |
| Shopping.SumForAbsent | app/api/shopping-list/route.js:30 | a key no item has receives no grams |
| Shopping.AddAllTally | app/api/shopping-list/route.js:21-31 | a present entry grows by the contributions of its key. An absent key is created from its first item and holds their sum |
| Shopping.AccumulatedEntry | app/api/shopping-list/route.js:21-31 | each entry has the first-seen item's fields, and its grams are the sum of gramsPerPortion × multiplier over all items of its key |
| Shopping.SumForAppend | app/api/shopping-list/route.js:30 | the summed grams are additive over concatenated item lists |
| Shopping.FlattenAppend | app/api/shopping-list/route.js:19-21 | the items of two groups of meals are the items of each, in order |
| Shopping.MealsAdd | app/api/shopping-list/route.js:19-30 | the grams of a key over two groups of meals are the sum over each group |
| Shopping.EmptyMealContributesNothing | app/api/shopping-list/route.js:21 | a meal with no items leaves the Map unchanged |
| Shopping.SameFoodTwoMeals | app/api/shopping-list/route.js:19-31 | the same food at 100 g × 2 and 150 g × 1 gives one entry of 350 g |
| Shopping.Rounded | app/api/shopping-list/route.js:36 | the rounded grams are a multiple of 5 within 2.5 of the sum; the other fields are kept |
| Shopping.Lines | app/api/shopping-list/route.js:35-36 | the list has the Map's values in insertion order, each rounded |
| Shopping.ShoppingItems | app/api/shopping-list/route.js:35-37 | the rounded values of the Map, sorted, with no contract of its own: Shopping.ShoppingListOrdered shows the list is sorted and a permutation of the rounded entries |
| Shopping.LineLe | app/api/shopping-list/route.js:37 | the comparator on typeName then nom, with no contract of its own: Shopping.LineLeTotalPreorder and LineLeTransitive prove it a total preorder |
| Shopping.LineLeTotalPreorder | app/api/shopping-list/route.js:37 | the comparator (typeName, then nom) is a total preorder |
| Shopping.LineLeTransitive | app/api/shopping-list/route.js:37 | the comparator is transitive |
| Shopping.ShoppingList | app/api/shopping-list/route.js:7-42 | status 400 "mealIds[] requis" exactly when mealIds is missing, not an array or empty; otherwise 500 exactly when portionsByMeal is null and some requested meal exists, and 200 with the list |
| Shopping.ShoppingListOrdered | app/api/shopping-list/route.js:35-37 | the returned list is sorted by typeName then nom and is a permutation of the rounded entries |
| Shopping.NoMealsFound | app/api/shopping-list/route.js:13-39 | requested meals of which none exists give status 200 with an empty list |
| Shopping.Post | app/api/shopping-list/route.js:4-44 | the handler yields ShoppingList |
| MealsApi.ListMeals | app/api/meals/route.js:14-17 | GET is rejected with 400 "userId requis" exactly when userId is absent |
| MealsApi.OrElse | app/api/meals/route.js:58-59 | Number(x) \|\| fallback: the value unless it is NaN or 0 |
| MealsApi.CleanItem | app/api/meals/route.js:54-60 | foodId is id \|\| foodId, typeName defaults to "Autres", calories to 0, and grams falls back from grams to gramsPerPortion to 0 |
| MealsApi.CleanItems | app/api/meals/route.js:54-60 | cleanItems has the same length and order as items |
| MealsApi.StoredPortions | app/api/meals/route.js:65 | Number(portions) \|\| 1 is never 0 and is the given value when that is non-zero |
| MealsApi.CreateMeal | app/api/meals/route.js:44-71 | POST is rejected with 400 exactly when userId or name is missing or items is not a non-empty array; otherwise 201, and the document written (the outcome's value; the reply body itself is only `{ ok: true }`) holds the user, the name, `Number(portions) || 1` and the cleaned items |
| MealsApi.ZeroGramsFallThrough | app/api/meals/route.js:59 | grams of 0 fall through to gramsPerPortion |
| MealsApi.CleanItemIdempotent | app/api/meals/route.js:54-60 | cleaning a stored item again changes nothing |
| MealsApi.SavedMealMultiplier | app/api/meals/route.js:54-65 | a saved meal requested without override is scaled by its stored, non-zero portions. Its items merge under id, else foodId, else nom |
| CalorieLog.ListLog | app/api/calorie-log/route.js:13-19 | GET is rejected with 400 unless both userId and date are present |
| CalorieLog.LabelOr | app/api/calorie-log/route.js:82 | the label defaults to "Repas" when absent or empty |
| CalorieLog.PositiveFinite | app/api/calorie-log/route.js:71 | `Number.isFinite(x) && x > 0`, with no contract of its own: CalorieLog.AddEntry states the 400 reply exactly when it fails for either value |
| CalorieLog.AddEntry | app/api/calorie-log/route.js:61-86 | POST checks userId and date first, then that both values are finite and > 0. An accepted body gives status 201 with its user, date, converted values and label |
| CalorieLog.StoredRecordWellFormed | app/api/calorie-log/route.js:69-84 | a stored record has a user, a date, positive values and a label |
| CalorieLog.SameIdentifierCheck | app/api/calorie-log/route.js:63-67 | POST rejects for missing identifiers exactly when GET would |

## Left out

- The React rendering, effects and `useState` plumbing are not modelled. The catalog is a constructor argument and the form values are set through `SetParams`. `loading`, `err`, `success` and `nbRepas` are not modelled.
- `surplusKcal` (useComposer.tsx:88-90), `typeBadge` and `saveMeal` (useComposer.tsx:280-362) are left out. They are display and network code, and saving is modelled on the server side by `MealsApi.CreateMeal`.
- Every Firestore read and write is left out, along with `fetch`, `Promise.all`, authentication and the URL and JSON parsing. Meals are an in-memory map; each request body is an already-parsed value.
- IEEE floating point is not modelled: calories and grams are exact reals. So is `Number()` string parsing: every coercion is an already-parsed `Option<real>`. A NaN passed as an explicit multiplier or portion value is not modelled.
- JavaScript keeps `undefined`, `null` and `""` apart. The model collapses all three falsy strings to "", so in the shopping list the items with neither foodId nor nom share the key "".
- A JSON `null` value inside `portionsByMeal` counts as an absent key. This agrees with `??`.
- Shopping.ShoppingList: the 500 "Erreur serveur" branch covers only a null `portionsByMeal`. Other thrown errors are not modelled: an item that is null, an absent `nom` reaching `localeCompare`, a failing database call.
- Text.Norm covers NFD over ASCII and Latin-1 plus the combining marks U+0300 to U+036F. Of those marks it strips the ones Unicode lists as diacritics, which is all but U+034F, U+0358 to U+035C and U+0363 to U+036F. Other scripts pass through unchanged and there is no full Unicode case folding.
- Object key order: JavaScript lists keys that look like array indices ("12") first, in numeric order, before the other keys in insertion order. The model keeps plain insertion order for every key. The catalog's ids are generated document ids, which in practice never have that form.
- `localeCompare` is code-unit lexicographic order, not locale collation.
- The `alive` flags and the concurrency of the effects are left out.
- `totalsByType` in the down-adjust loop is modelled as the category buckets of the current map (`CategoryGrams`). It starts equal to them, and line 212 keeps them equal.
- `selByType` (useComposer.tsx:240-246) is computed through the generic bucketing `GroupBy` over the found foods.
