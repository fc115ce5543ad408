/** The two pieces of JavaScript number semantics the layout pass depends on. */
module JsNumbers {

  /** `Math.round`: the nearest integer, with halves rounded towards +infinity. */
  function Round(x: real): int
  {
    (x + 0.5).Floor
  }

  /** `Math.round` lands within half a unit of its argument, and is the only
      integer that does so from above. */
  lemma {:induction false} RoundNearest(x: real, k: int)
    ensures x - 0.5 < Round(x) as real <= x + 0.5
    ensures x - 0.5 < k as real <= x + 0.5 ==> k == Round(x)
  {
  }

  /** The comparison `a / b < bound` for a finite `bound`. Dividing by zero gives
      +Infinity (a > 0), -Infinity (a < 0) or NaN (a == 0), and of these only
      -Infinity is below a finite number. */
  predicate DivLess(a: real, b: real, bound: real)
  {
    if b != 0.0 then a / b < bound else a < 0.0
  }

  lemma {:induction false} DivLessPositive(a: real, b: real, bound: real)
    requires b > 0.0
    ensures DivLess(a, b, bound) <==> a < bound * b
  {
    assert a == (a / b) * b;
    if a / b < bound {
      assert (a / b) * b < bound * b;
    } else {
      assert (a / b) * b >= bound * b;
    }
  }
}
