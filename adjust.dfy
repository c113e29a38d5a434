/**
 * adjustDownToTarget: when the rounded calories of the map exceed the target, repeatedly take
 * 5 g off the most calorie-dense food that can lose them without breaking its category's gram
 * range, for at most 300 single steps.
 */
module Adjust {
  import opened Wrappers
  import opened Rounding
  import opened Sorting
  import opened Tables
  import opened Foods
  import opened Selections
  import opened Intake

  /** The grams removed by one step. */
  const Step: int := -5

  /** The most steps one call takes. */
  const MaxIters: nat := 300

  /** The sort comparator kcalPerGram(b) - kcalPerGram(a): a may precede b when it is at least as dense. */
  function Denser(foods: seq<Food>): (string, string) -> bool {
    (a: string, b: string) => KcalPerGram(foods, a) >= KcalPerGram(foods, b)
  }

  lemma DenserTotalPreorder(foods: seq<Food>)
    ensures TotalPreorder(Denser(foods))
  {
  }

  /** Object.keys(data).sort(by density, densest first); the sort is stable. */
  function ByDensity(foods: seq<Food>, data: Selection): (r: seq<string>)
    ensures multiset(r) == multiset(Ids(data))
    ensures SortedBy(r, Denser(foods))
  {
    DenserTotalPreorder(foods);
    SortBySorted(Ids(data), Denser(foods));
    SortBy(Ids(data), Denser(foods))
  }

  /** canApplyDelta(id, delta): the new grams stay non-negative and a capped category stays in range. */
  function CanApplyDelta(foods: seq<Food>, data: Selection, id: string, delta: int): bool {
    var nextG := GramsOf(data, id) + delta;
    if nextG < 0 then false
    else
      var category := TypeOf(foods, id);
      if category !in CapsGrams then true
      else
        var cap := CapsGrams[category];
        var nextTotal := CategoryGrams(foods, data, category) + delta;
        (cap.min.None? || nextTotal >= cap.min.value) && (cap.max.None? || nextTotal <= cap.max.value)
  }

  /** The id the inner `for (const id of ids)` loop moves: the first one that can lose a step. */
  function FirstMovable(foods: seq<Food>, data: Selection, ids: seq<string>): Option<string> {
    if |ids| == 0 then None
    else if CanApplyDelta(foods, data, ids[0], Step) then Some(ids[0])
    else FirstMovable(foods, data, ids[1..])
  }

  /** The inner loop only moves an id of the list that can lose a step. */
  lemma {:induction false} FirstMovableAllowed(foods: seq<Food>, data: Selection, ids: seq<string>)
    ensures var r := FirstMovable(foods, data, ids);
      r.Some? ==> r.value in ids && CanApplyDelta(foods, data, r.value, Step)
    decreases |ids|
  {
    if |ids| > 0 && !CanApplyDelta(foods, data, ids[0], Step) {
      FirstMovableAllowed(foods, data, ids[1..]);
    }
  }

  /** The inner loop moves nothing exactly when no id can lose a step. */
  lemma {:induction false} FirstMovableNone(foods: seq<Food>, data: Selection, ids: seq<string>)
    ensures FirstMovable(foods, data, ids).None? <==>
      forall q :: 0 <= q < |ids| ==> !CanApplyDelta(foods, data, ids[q], Step)
    decreases |ids|
  {
    if |ids| > 0 {
      FirstMovableNone(foods, data, ids[1..]);
      assert forall q :: 1 <= q < |ids| ==> ids[q] == ids[1..][q - 1];
    }
  }

  /** What FirstMovable picks sits at some position k with no movable id ahead of it. */
  lemma {:induction false} FirstMovableFound(foods: seq<Food>, data: Selection, ids: seq<string>)
    requires FirstMovable(foods, data, ids).Some?
    ensures exists k :: (0 <= k < |ids| && ids[k] == FirstMovable(foods, data, ids).value &&
      (forall q :: 0 <= q < k ==> !CanApplyDelta(foods, data, ids[q], Step)))
    decreases |ids|
  {
    if !CanApplyDelta(foods, data, ids[0], Step) {
      FirstMovableFound(foods, data, ids[1..]);
      var k :| 0 <= k < |ids[1..]| && ids[1..][k] == FirstMovable(foods, data, ids[1..]).value &&
        (forall q :: 0 <= q < k ==> !CanApplyDelta(foods, data, ids[1..][q], Step));
      assert ids[k + 1] == ids[1..][k];
      forall q | 0 <= q < k + 1 ensures !CanApplyDelta(foods, data, ids[q], Step) {
        if q > 0 {
          assert ids[q] == ids[1..][q - 1];
        }
      }
    } else {
      assert ids[0] == FirstMovable(foods, data, ids).value;
    }
  }

  /** The position the inner loop stops at determines FirstMovable. */
  lemma {:induction false} FirstMovableAt(foods: seq<Food>, data: Selection, ids: seq<string>, k: nat)
    requires k < |ids| && CanApplyDelta(foods, data, ids[k], Step)
    requires forall q :: 0 <= q < k ==> !CanApplyDelta(foods, data, ids[q], Step)
    ensures FirstMovable(foods, data, ids) == Some(ids[k])
    decreases k
  {
    if k > 0 {
      FirstMovableAt(foods, data, ids[1..], k - 1);
    }
  }

  /** data[id] = { grams: round5(data[id].grams + step) } */
  function StepDown(foods: seq<Food>, data: Selection, id: string): Selection {
    Put(data, id, Round5((GramsOf(data, id) + Step) as real))
  }

  /** A step keeps the keys, their order and their distinctness. */
  lemma StepDownIds(foods: seq<Food>, data: Selection, id: string)
    requires DistinctIds(data) && id in Ids(data)
    ensures DistinctIds(StepDown(foods, data, id)) && Ids(StepDown(foods, data, id)) == Ids(data)
  {
    var grams := Round5((GramsOf(data, id) + Step) as real);
    PutIds(data, id, grams);
    PutDistinct(data, id, grams);
  }

  /**
   * The outer `for (let i = 0; i < maxIters; i += 1)` loop with `iters` rounds left: move one
   * food, then stop once the total is at or under maxK or when nothing could move.
   */
  function AdjustLoop(foods: seq<Food>, data: Selection, ids: seq<string>, maxK: int, iters: nat): Selection
    decreases iters
  {
    if iters == 0 then data
    else
      match FirstMovable(foods, data, ids)
      case None => data
      case Some(id) =>
        var next := StepDown(foods, data, id);
        if ComputeTotalK(foods, next) <= maxK then next
        else AdjustLoop(foods, next, ids, maxK, iters - 1)
  }

  /** One round of the outer loop, unfolded. */
  lemma AdjustLoopRound(foods: seq<Food>, data: Selection, ids: seq<string>, maxK: int, iters: nat)
    requires iters > 0
    ensures FirstMovable(foods, data, ids).None? ==> AdjustLoop(foods, data, ids, maxK, iters) == data
    ensures FirstMovable(foods, data, ids).Some? ==>
      var next := StepDown(foods, data, FirstMovable(foods, data, ids).value);
      AdjustLoop(foods, data, ids, maxK, iters) ==
        if ComputeTotalK(foods, next) <= maxK then next else AdjustLoop(foods, next, ids, maxK, iters - 1)
  {
  }

  /** adjustDownToTarget(data, maxK) as a value: a map already at or under maxK is returned as is. */
  function AdjustDown(foods: seq<Food>, data: Selection, maxK: int): (r: Selection)
    ensures ComputeTotalK(foods, data) <= maxK ==> r == data
  {
    if ComputeTotalK(foods, data) <= maxK then data
    else AdjustLoop(foods, data, ByDensity(foods, data), maxK, MaxIters)
  }

  /** adjustDownToTarget(data, maxK), updating the map in place. */
  method AdjustDownToTarget(foods: seq<Food>, data: Selection, maxK: int) returns (out: Selection)
    requires DistinctIds(data)
    ensures out == AdjustDown(foods, data, maxK)
  {
    out := data;
    var totalK := ComputeTotalK(foods, out);
    if totalK <= maxK {
      return;
    }
    var ids := ByDensity(foods, data);
    ghost var goal := AdjustLoop(foods, data, ids, maxK, MaxIters);
    ghost var chosen := "";
    var i := 0;
    while i < MaxIters
      invariant 0 <= i <= MaxIters
      invariant DistinctIds(out) && Ids(out) == Ids(data)
      invariant AdjustLoop(foods, out, ids, maxK, MaxIters - i) == goal
    {
      ghost var before := out;
      AdjustLoopRound(foods, before, ids, maxK, MaxIters - i);
      var moved := false;
      var k := 0;
      while k < |ids|
        invariant 0 <= k <= |ids|
        invariant !moved && out == before && DistinctIds(out) && Ids(out) == Ids(data)
        invariant forall q :: 0 <= q < k ==> !CanApplyDelta(foods, out, ids[q], Step)
      {
        var id := ids[k];
        if !CanApplyDelta(foods, out, id, Step) {
          k := k + 1;
          continue;
        }
        FirstMovableAt(foods, out, ids, k);
        assert id in multiset(Ids(data));
        StepDownIds(foods, out, id);
        out := StepDown(foods, out, id);
        chosen := id;
        moved := true;
        break;
      }
      if !moved {
        FirstMovableNone(foods, out, ids);
        assert out == goal;
        break;
      }
      assert out == StepDown(foods, before, chosen) && FirstMovable(foods, before, ids) == Some(chosen);
      totalK := ComputeTotalK(foods, out);
      if totalK <= maxK {
        assert out == goal;
        break;
      }
      i := i + 1;
    }
  }

  /** The keys the loop walks are keys of the map. */
  ghost predicate KeysOf(ids: seq<string>, data: Selection) {
    forall q :: 0 <= q < |ids| ==> ids[q] in Ids(data)
  }

  lemma ByDensityKeys(foods: seq<Food>, data: Selection)
    ensures KeysOf(ByDensity(foods, data), data)
  {
    var ids := ByDensity(foods, data);
    forall q | 0 <= q < |ids| ensures ids[q] in Ids(data) {
      assert ids[q] in multiset(ids);
    }
  }

  /** The map after moving each of the given ids one step, in order. */
  function Replay(foods: seq<Food>, data: Selection, moves: seq<string>): Selection
    decreases |moves|
  {
    if |moves| == 0 then data else Replay(foods, StepDown(foods, data, moves[0]), moves[1..])
  }

  /** Every move is of one of the sorted keys, and that key could lose a step when it was taken. */
  ghost predicate LegalMoves(foods: seq<Food>, data: Selection, ids: seq<string>, moves: seq<string>)
    decreases |moves|
  {
    |moves| == 0 ||
    (moves[0] in ids && CanApplyDelta(foods, data, moves[0], Step) &&
     LegalMoves(foods, StepDown(foods, data, moves[0]), ids, moves[1..]))
  }

  /** The ids the outer loop moves, one per round. */
  ghost function Moves(foods: seq<Food>, data: Selection, ids: seq<string>, maxK: int, iters: nat): seq<string>
    decreases iters
  {
    if iters == 0 then []
    else
      match FirstMovable(foods, data, ids)
      case None => []
      case Some(id) =>
        var next := StepDown(foods, data, id);
        if ComputeTotalK(foods, next) <= maxK then [id] else [id] + Moves(foods, next, ids, maxK, iters - 1)
  }

  /** One round of Moves, unfolded. */
  lemma MovesRound(foods: seq<Food>, data: Selection, ids: seq<string>, maxK: int, iters: nat)
    requires iters > 0
    ensures FirstMovable(foods, data, ids).None? ==> Moves(foods, data, ids, maxK, iters) == []
    ensures FirstMovable(foods, data, ids).Some? ==>
      var id := FirstMovable(foods, data, ids).value;
      var next := StepDown(foods, data, id);
      Moves(foods, data, ids, maxK, iters) ==
        if ComputeTotalK(foods, next) <= maxK then [id] else [id] + Moves(foods, next, ids, maxK, iters - 1)
  {
  }

  /** A round of the loop that moves id, with r rounds left after it. */
  lemma LoopSome(foods: seq<Food>, data: Selection, ids: seq<string>, maxK: int, iters: nat, r: nat, id: string)
    requires r + 1 == iters && FirstMovable(foods, data, ids) == Some(id)
    ensures var next := StepDown(foods, data, id);
      AdjustLoop(foods, data, ids, maxK, iters) ==
        if ComputeTotalK(foods, next) <= maxK then next else AdjustLoop(foods, next, ids, maxK, r)
  {
    assert iters - 1 == r;
  }

  /** The moves of a round that moves id, with r rounds left after it. */
  lemma MovesSome(foods: seq<Food>, data: Selection, ids: seq<string>, maxK: int, iters: nat, r: nat, id: string)
    requires r + 1 == iters && FirstMovable(foods, data, ids) == Some(id)
    ensures var next := StepDown(foods, data, id);
      Moves(foods, data, ids, maxK, iters) ==
        if ComputeTotalK(foods, next) <= maxK then [id] else [id] + Moves(foods, next, ids, maxK, r)
  {
    assert iters - 1 == r;
  }

  lemma ReplayCons(foods: seq<Food>, data: Selection, id: string, rest: seq<string>)
    ensures Replay(foods, data, [id] + rest) == Replay(foods, StepDown(foods, data, id), rest)
  {
    assert ([id] + rest)[0] == id && ([id] + rest)[1..] == rest;
  }

  lemma LegalCons(foods: seq<Food>, data: Selection, ids: seq<string>, id: string, rest: seq<string>)
    requires id in ids && CanApplyDelta(foods, data, id, Step)
    requires LegalMoves(foods, StepDown(foods, data, id), ids, rest)
    ensures LegalMoves(foods, data, ids, [id] + rest)
  {
    assert ([id] + rest)[0] == id && ([id] + rest)[1..] == rest;
  }

  /** At most one move per round. */
  lemma {:induction false} MovesBound(foods: seq<Food>, data: Selection, ids: seq<string>, maxK: int, iters: nat)
    ensures |Moves(foods, data, ids, maxK, iters)| <= iters
    decreases iters
  {
    if iters > 0 {
      match FirstMovable(foods, data, ids)
      case None =>
        MovesRound(foods, data, ids, maxK, iters);
      case Some(id) =>
        var r: nat := iters - 1;
        MovesSome(foods, data, ids, maxK, iters, r, id);
        MovesBound(foods, StepDown(foods, data, id), ids, maxK, r);
    }
  }

  /** Every move the loop makes is legal when it is made. */
  lemma {:induction false} MovesLegal(foods: seq<Food>, data: Selection, ids: seq<string>, maxK: int, iters: nat)
    ensures LegalMoves(foods, data, ids, Moves(foods, data, ids, maxK, iters))
    decreases iters
  {
    if iters > 0 {
      match FirstMovable(foods, data, ids)
      case None =>
        MovesRound(foods, data, ids, maxK, iters);
      case Some(id) =>
        var next := StepDown(foods, data, id);
        var r: nat := iters - 1;
        MovesSome(foods, data, ids, maxK, iters, r, id);
        FirstMovableAllowed(foods, data, ids);
        if ComputeTotalK(foods, next) <= maxK {
          assert [id] + [] == [id];
          LegalCons(foods, data, ids, id, []);
        } else {
          MovesLegal(foods, next, ids, maxK, r);
          LegalCons(foods, data, ids, id, Moves(foods, next, ids, maxK, r));
        }
    }
  }

  /** The loop's result is its moves replayed on the starting map. */
  lemma {:induction false} LoopIsReplay(foods: seq<Food>, data: Selection, ids: seq<string>, maxK: int, iters: nat)
    ensures AdjustLoop(foods, data, ids, maxK, iters) == Replay(foods, data, Moves(foods, data, ids, maxK, iters))
    decreases iters
  {
    if iters > 0 {
      match FirstMovable(foods, data, ids)
      case None =>
        AdjustLoopRound(foods, data, ids, maxK, iters);
        MovesRound(foods, data, ids, maxK, iters);
      case Some(id) =>
        var next := StepDown(foods, data, id);
        var r: nat := iters - 1;
        LoopSome(foods, data, ids, maxK, iters, r, id);
        MovesSome(foods, data, ids, maxK, iters, r, id);
        if ComputeTotalK(foods, next) <= maxK {
          assert [id] + [] == [id];
          ReplayCons(foods, data, id, []);
        } else {
          LoopIsReplay(foods, next, ids, maxK, r);
          ReplayCons(foods, data, id, Moves(foods, next, ids, maxK, r));
        }
    }
  }

  /** The loop is a replay of legal moves, at most one per round. */
  lemma AdjustLoopReplay(foods: seq<Food>, data: Selection, ids: seq<string>, maxK: int, iters: nat)
    ensures AdjustLoop(foods, data, ids, maxK, iters) == Replay(foods, data, Moves(foods, data, ids, maxK, iters))
    ensures LegalMoves(foods, data, ids, Moves(foods, data, ids, maxK, iters))
    ensures |Moves(foods, data, ids, maxK, iters)| <= iters
  {
    LoopIsReplay(foods, data, ids, maxK, iters);
    MovesLegal(foods, data, ids, maxK, iters);
    MovesBound(foods, data, ids, maxK, iters);
  }

  /** The moves adjustDownToTarget makes, when it makes any. */
  ghost function AdjustMoves(foods: seq<Food>, data: Selection, maxK: int): seq<string> {
    if ComputeTotalK(foods, data) <= maxK then [] else Moves(foods, data, ByDensity(foods, data), maxK, MaxIters)
  }

  /** adjustDownToTarget is a replay of at most 300 legal moves. */
  lemma AdjustDownReplay(foods: seq<Food>, data: Selection, maxK: int)
    ensures AdjustDown(foods, data, maxK) == Replay(foods, data, AdjustMoves(foods, data, maxK))
    ensures LegalMoves(foods, data, ByDensity(foods, data), AdjustMoves(foods, data, maxK))
    ensures |AdjustMoves(foods, data, maxK)| <= MaxIters
  {
    AdjustLoopReplay(foods, data, ByDensity(foods, data), maxK, MaxIters);
  }

  lemma {:induction false} ReplayIds(foods: seq<Food>, data: Selection, ids: seq<string>, moves: seq<string>)
    requires DistinctIds(data) && KeysOf(ids, data) && LegalMoves(foods, data, ids, moves)
    ensures DistinctIds(Replay(foods, data, moves)) && Ids(Replay(foods, data, moves)) == Ids(data)
    decreases |moves|
  {
    if |moves| > 0 {
      var next := StepDown(foods, data, moves[0]);
      StepDownIds(foods, data, moves[0]);
      ReplayIds(foods, next, ids, moves[1..]);
    }
  }

  /** adjustDownToTarget only changes values: the keys, their order and their distinctness stay. */
  lemma AdjustDownIds(foods: seq<Food>, data: Selection, maxK: int)
    requires DistinctIds(data)
    ensures DistinctIds(AdjustDown(foods, data, maxK)) && Ids(AdjustDown(foods, data, maxK)) == Ids(data)
  {
    AdjustDownReplay(foods, data, maxK);
    ByDensityKeys(foods, data);
    ReplayIds(foods, data, ByDensity(foods, data), AdjustMoves(foods, data, maxK));
  }

  /** One step lowers the moved food and leaves every other food as it was. */
  lemma StepDownLowers(foods: seq<Food>, data: Selection, id: string)
    requires CanApplyDelta(foods, data, id, Step)
    ensures GramsOf(StepDown(foods, data, id), id) < GramsOf(data, id)
    ensures forall k :: k != id ==> GramsOf(StepDown(foods, data, id), k) == GramsOf(data, k)
  {
    var grams := Round5((GramsOf(data, id) + Step) as real);
    PutLookup(data, id, grams);
  }

  lemma {:induction false} ReplayNeverRaises(foods: seq<Food>, data: Selection, ids: seq<string>, moves: seq<string>, k: string)
    requires LegalMoves(foods, data, ids, moves)
    ensures GramsOf(Replay(foods, data, moves), k) <= GramsOf(data, k)
    decreases |moves|
  {
    if |moves| > 0 {
      StepDownLowers(foods, data, moves[0]);
      ReplayNeverRaises(foods, StepDown(foods, data, moves[0]), ids, moves[1..], k);
    }
  }

  /** adjustDownToTarget never raises any food's grams. */
  lemma AdjustDownNeverRaises(foods: seq<Food>, data: Selection, maxK: int, k: string)
    ensures GramsOf(AdjustDown(foods, data, maxK), k) <= GramsOf(data, k)
  {
    AdjustDownReplay(foods, data, maxK);
    ReplayNeverRaises(foods, data, ByDensity(foods, data), AdjustMoves(foods, data, maxK), k);
  }

  lemma {:induction false} ReplayGramSteps(foods: seq<Food>, data: Selection, moves: seq<string>)
    requires AllGramSteps(data)
    ensures AllGramSteps(Replay(foods, data, moves))
    decreases |moves|
  {
    if |moves| > 0 {
      PutGramSteps(data, moves[0], Round5((GramsOf(data, moves[0]) + Step) as real));
      ReplayGramSteps(foods, StepDown(foods, data, moves[0]), moves[1..]);
    }
  }

  /** Every value adjustDownToTarget writes is a 5-gram step. */
  lemma AdjustDownGramSteps(foods: seq<Food>, data: Selection, maxK: int)
    requires AllGramSteps(data)
    ensures AllGramSteps(AdjustDown(foods, data, maxK))
  {
    AdjustDownReplay(foods, data, maxK);
    ReplayGramSteps(foods, data, AdjustMoves(foods, data, maxK));
  }

  /** The position of a key in a map with distinct keys. */
  lemma PositionOf(data: Selection, id: string) returns (p: nat)
    requires DistinctIds(data) && id in Ids(data)
    ensures p < |data| && data[p].id == id && GramsOf(data, id) == data[p].grams
  {
    var q :| 0 <= q < |Ids(data)| && Ids(data)[q] == id;
    p := q;
    LookupAt(data, p);
  }

  /** On gram steps, a step takes exactly 5 g off the moved food, as an update of its position. */
  lemma StepDownAt(foods: seq<Food>, data: Selection, id: string) returns (p: nat)
    requires DistinctIds(data) && AllGramSteps(data) && id in Ids(data) && CanApplyDelta(foods, data, id, Step)
    ensures p < |data| && data[p].id == id
    ensures StepDown(foods, data, id) == data[p := Entry(id, data[p].grams - 5)]
  {
    p := PositionOf(data, id);
    var g := data[p].grams;
    assert IsGramStep(g) && g + Step >= 0;
    GramStepDown(g);
    Round5Identity(g - 5);
    PutAt(data, p, g - 5);
  }

  /** With non-negative calories a step never raises the unrounded total. */
  lemma StepDownRawKcal(foods: seq<Food>, data: Selection, id: string)
    requires NonNegativeCalories(foods) && DistinctIds(data) && id in Ids(data)
    requires GramsOf(data, id) + Step >= 0
    ensures RawKcal(foods, StepDown(foods, data, id)) <= RawKcal(foods, data)
  {
    var p := PositionOf(data, id);
    var g := Round5((GramsOf(data, id) + Step) as real);
    assert g <= data[p].grams;
    PutAt(data, p, g);
    KcalPerGramNonNegative(foods, id);
    RawKcalLower(foods, data, p, g);
  }

  /** With non-negative calories a step never raises the rounded total. */
  lemma StepDownKcal(foods: seq<Food>, data: Selection, id: string)
    requires NonNegativeCalories(foods) && DistinctIds(data) && id in Ids(data)
    requires CanApplyDelta(foods, data, id, Step)
    ensures ComputeTotalK(foods, StepDown(foods, data, id)) <= ComputeTotalK(foods, data)
  {
    StepDownRawKcal(foods, data, id);
    RoundMonotone(RawKcal(foods, StepDown(foods, data, id)), RawKcal(foods, data));
  }

  lemma {:induction false} ReplayKcal(foods: seq<Food>, data: Selection, ids: seq<string>, moves: seq<string>)
    requires NonNegativeCalories(foods) && DistinctIds(data) && KeysOf(ids, data) && LegalMoves(foods, data, ids, moves)
    ensures ComputeTotalK(foods, Replay(foods, data, moves)) <= ComputeTotalK(foods, data)
    decreases |moves|
  {
    if |moves| > 0 {
      var next := StepDown(foods, data, moves[0]);
      StepDownKcal(foods, data, moves[0]);
      StepDownIds(foods, data, moves[0]);
      ReplayKcal(foods, next, ids, moves[1..]);
    }
  }

  /** With non-negative calories adjustDownToTarget never raises the meal's rounded total. */
  lemma AdjustDownKcal(foods: seq<Food>, data: Selection, maxK: int)
    requires NonNegativeCalories(foods) && DistinctIds(data)
    ensures ComputeTotalK(foods, AdjustDown(foods, data, maxK)) <= ComputeTotalK(foods, data)
  {
    AdjustDownReplay(foods, data, maxK);
    ByDensityKeys(foods, data);
    ReplayKcal(foods, data, ByDensity(foods, data), AdjustMoves(foods, data, maxK));
  }

  /** Why the loop with iters rounds left ended: at maxK, nothing movable, or every round took 5 g. */
  ghost predicate StopsAt(foods: seq<Food>, data: Selection, ids: seq<string>, maxK: int, iters: nat) {
    var r := AdjustLoop(foods, data, ids, maxK, iters);
    ComputeTotalK(foods, r) <= maxK || FirstMovable(foods, r, ids).None? || SumGrams(r) == SumGrams(data) - 5 * iters
  }

  lemma {:induction false} AdjustLoopStops(foods: seq<Food>, data: Selection, ids: seq<string>, maxK: int, iters: nat)
    requires DistinctIds(data) && AllGramSteps(data) && KeysOf(ids, data)
    ensures StopsAt(foods, data, ids, maxK, iters)
    decreases iters
  {
    if iters > 0 {
      if FirstMovable(foods, data, ids).None? {
        AdjustLoopRound(foods, data, ids, maxK, iters);
      } else {
        var id := FirstMovable(foods, data, ids).value;
        FirstMovableAllowed(foods, data, ids);
        var next := StepDown(foods, data, id);
        var p := StepDownAt(foods, data, id);
        SumGramsUpdate(data, p, data[p].grams - 5);
        StepDownIds(foods, data, id);
        PutGramSteps(data, id, Round5((GramsOf(data, id) + Step) as real));
        var r: nat := iters - 1;
        AdjustLoopStops(foods, next, ids, maxK, r);
        StopsMore(foods, data, ids, maxK, iters, r, id);
      }
    }
  }

  /** A round that moves a food either ends the loop at maxK or leaves 5 g less to the remaining rounds. */
  lemma StopsMore(foods: seq<Food>, data: Selection, ids: seq<string>, maxK: int, iters: nat, r: nat, id: string)
    requires r + 1 == iters && FirstMovable(foods, data, ids) == Some(id)
    requires SumGrams(StepDown(foods, data, id)) == SumGrams(data) - 5
    requires StopsAt(foods, StepDown(foods, data, id), ids, maxK, r)
    ensures StopsAt(foods, data, ids, maxK, iters)
  {
    LoopSome(foods, data, ids, maxK, iters, r, id);
  }

  /**
   * adjustDownToTarget stops for one of three reasons: the total is at or under maxK, no food
   * can lose another 5 g, or it has taken all 300 steps, 1500 g in all.
   */
  lemma AdjustDownStops(foods: seq<Food>, data: Selection, maxK: int)
    requires DistinctIds(data) && AllGramSteps(data)
    ensures var r := AdjustDown(foods, data, maxK);
      ComputeTotalK(foods, r) <= maxK || FirstMovable(foods, r, ByDensity(foods, data)).None? ||
      SumGrams(r) == SumGrams(data) - 5 * MaxIters
  {
    ByDensityKeys(foods, data);
    AdjustLoopStops(foods, data, ByDensity(foods, data), maxK, MaxIters);
  }

  /** The food a round moves is the densest movable one: every strictly denser food is blocked. */
  lemma FirstMovableGreedy(foods: seq<Food>, data: Selection, ids: seq<string>, other: string)
    requires SortedBy(ids, Denser(foods)) && FirstMovable(foods, data, ids).Some?
    requires other in ids && KcalPerGram(foods, other) > KcalPerGram(foods, FirstMovable(foods, data, ids).value)
    ensures !CanApplyDelta(foods, data, other, Step)
  {
    var id := FirstMovable(foods, data, ids).value;
    FirstMovableFound(foods, data, ids);
    var k :| 0 <= k < |ids| && ids[k] == id && (forall q :: 0 <= q < k ==> !CanApplyDelta(foods, data, ids[q], Step));
    var j :| 0 <= j < |ids| && ids[j] == other;
  }

  /** Category c sits inside its [min, max] gram range, if it has one. */
  ghost predicate InCap(foods: seq<Food>, data: Selection, c: string) {
    c in CapsGrams ==> CapsGrams[c].min.value <= CategoryGrams(foods, data, c) <= CapsGrams[c].max.value
  }

  /**
   * canApplyDelta looks only at the moved food's category: a legal step takes 5 g off that
   * category, leaving it inside its range when it has one, and leaves every other category as it was.
   */
  lemma StepDownWithinCaps(foods: seq<Food>, data: Selection, id: string, c: string)
    requires DistinctIds(data) && AllGramSteps(data) && id in Ids(data) && CanApplyDelta(foods, data, id, Step)
    ensures c != TypeOf(foods, id) ==> CategoryGrams(foods, StepDown(foods, data, id), c) == CategoryGrams(foods, data, c)
    ensures c == TypeOf(foods, id) ==>
      CategoryGrams(foods, StepDown(foods, data, id), c) == CategoryGrams(foods, data, c) - 5 &&
      InCap(foods, StepDown(foods, data, id), c)
  {
    CapsWellFormed();
    var p := StepDownAt(foods, data, id);
    CategoryGramsUpdate(foods, data, p, data[p].grams - 5, c);
  }

  lemma {:induction false} ReplayWithinCaps(foods: seq<Food>, data: Selection, ids: seq<string>, moves: seq<string>, c: string)
    requires DistinctIds(data) && AllGramSteps(data) && KeysOf(ids, data) && LegalMoves(foods, data, ids, moves)
    requires InCap(foods, data, c)
    ensures InCap(foods, Replay(foods, data, moves), c)
    decreases |moves|
  {
    if |moves| > 0 {
      var next := StepDown(foods, data, moves[0]);
      StepDownWithinCaps(foods, data, moves[0], c);
      StepDownIds(foods, data, moves[0]);
      PutGramSteps(data, moves[0], Round5((GramsOf(data, moves[0]) + Step) as real));
      ReplayWithinCaps(foods, next, ids, moves[1..], c);
    }
  }

  /**
   * adjustDownToTarget never pushes a capped category out of its gram range, whatever the
   * other categories hold.
   */
  lemma AdjustDownWithinCaps(foods: seq<Food>, data: Selection, maxK: int, c: string)
    requires DistinctIds(data) && AllGramSteps(data) && InCap(foods, data, c)
    ensures InCap(foods, AdjustDown(foods, data, maxK), c)
  {
    AdjustDownReplay(foods, data, maxK);
    ByDensityKeys(foods, data);
    ReplayWithinCaps(foods, data, ByDensity(foods, data), AdjustMoves(foods, data, maxK), c);
  }
}
