/** The rounding used throughout the code: JavaScript's Math.round and its 5-gram variants. */
module Rounding {

  function Max(a: int, b: int): int { if a >= b then a else b }

  function Min(a: int, b: int): int { if a <= b then a else b }

  /** Math.round: the nearest integer, halves rounded towards +infinity. */
  function Round(x: real): (r: int)
    ensures x - 0.5 < r as real <= x + 0.5
  {
    (x + 0.5).Floor
  }

  /** Math.round(g / 5) * 5: the nearest multiple of 5, possibly negative. */
  function RoundTo5(g: real): (r: int)
    ensures r % 5 == 0
    ensures g - 2.5 < r as real <= g + 2.5
  {
    Round(g / 5.0) * 5
  }

  /** round5 of the composer: the nearest multiple of 5, clamped at zero. */
  function Round5(g: real): (r: int)
    ensures r >= 0 && r % 5 == 0
    ensures g >= 0.0 ==> g - 2.5 < r as real <= g + 2.5
    ensures r as real <= (if g >= 0.0 then g else 0.0) + 2.5
  {
    Max(0, RoundTo5(g))
  }

  /** A non-negative multiple of 5, the shape of every gram value the composer writes. */
  predicate IsGramStep(g: int) {
    g >= 0 && g % 5 == 0
  }

  /** round5 is the identity on non-negative multiples of 5. */
  lemma Round5Identity(g: int)
    requires IsGramStep(g)
    ensures Round5(g as real) == g
  {
    var k := g / 5;
    assert g as real / 5.0 == k as real;
    assert Round(k as real) == k;
  }

  /** Taking 5 g off a gram step of at least 5 g leaves a gram step. */
  lemma GramStepDown(g: int)
    requires IsGramStep(g) && g >= 5
    ensures IsGramStep(g - 5)
  {
  }

  /** round5 never goes above an upper bound that is itself a multiple of 5. */
  lemma Round5AtMost(g: real, bound: int)
    requires IsGramStep(bound) && g <= bound as real
    ensures Round5(g) <= bound
  {
    var k := bound / 5;
    assert g / 5.0 <= k as real;
    assert Round(g / 5.0) <= k;
  }

  /** round5 is monotone. */
  lemma Round5Monotone(a: real, b: real)
    requires a <= b
    ensures Round5(a) <= Round5(b)
  {
    assert a / 5.0 <= b / 5.0;
    assert Round(a / 5.0) <= Round(b / 5.0);
  }

  /** Math.round is monotone. */
  lemma RoundMonotone(a: real, b: real)
    requires a <= b
    ensures Round(a) <= Round(b)
  {
  }
}
