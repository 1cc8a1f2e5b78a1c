/**
 Numeric conventions shared by the TypeScript and Python code.

 A JavaScript `Number(v)` conversion either yields a finite value or one of
 NaN / +Infinity / -Infinity; the code only ever asks `Number.isFinite`, so the
 three non-finite values are one constructor here. Arithmetic is over `real`
 (no IEEE rounding).
 */
module Numbers {

  /** The outcome of `Number(v)` as far as the code can observe it. */
  datatype Num = Finite(value: real) | NonFinite

  function Min(a: int, b: int): int { if a <= b then a else b }

  function Max(a: int, b: int): int { if a >= b then a else b }

  function MaxReal(a: real, b: real): real { if a >= b then a else b }

  function MinReal(a: real, b: real): real { if a <= b then a else b }

  /** `Math.round`: round half up, i.e. floor(x + 0.5). */
  function Round(x: real): (r: int)
    ensures r as real - 0.5 <= x < r as real + 0.5
  {
    (x + 0.5).Floor
  }

  /** `r` is the integer score in [0,100] nearest to `x`, halves rounding up:
      0 for everything below 0.5, 100 for everything from 99.5 on. */
  predicate NearestScore(x: real, r: int) {
    && 0 <= r <= 100
    && (r == 0 <==> x < 0.5)
    && (r == 100 <==> x >= 99.5)
    && (0 < r < 100 ==> r as real - 0.5 <= x < r as real + 0.5)
  }

  /** `Math.max(0, Math.min(100, Math.round(x)))`. */
  function ClampRound(x: real): (r: int)
    ensures NearestScore(x, r)
  {
    Max(0, Min(100, Round(x)))
  }

  /** Rounding and clamping never reverse the order of two inputs. */
  lemma ClampRoundMonotone(x: real, y: real)
    requires x <= y
    ensures ClampRound(x) <= ClampRound(y)
  {
    assert Round(x) <= Round(y);
  }

  /** On an integer, rounding does nothing and only the clamp acts. */
  lemma ClampRoundOfInt(v: int)
    ensures ClampRound(v as real) == Max(0, Min(100, v))
    ensures 0 <= v <= 100 ==> ClampRound(v as real) == v
  {
    assert Round(v as real) == v;
  }

  /** A part of a positive whole, as a percentage, lies in [0,100]. */
  lemma Ratio(part: nat, whole: nat)
    requires part <= whole && 0 < whole
    ensures 0.0 <= part as real / whole as real * 100.0 <= 100.0
  {
    assert part as real / whole as real <= 1.0;
  }

  /** Python `int(x)` on a finite float: truncation toward zero. */
  function Trunc(x: real): (r: int)
    ensures 0.0 <= x ==> r as real <= x < r as real + 1.0
    ensures x < 0.0 ==> r as real - 1.0 < x <= r as real
  {
    if x >= 0.0 then x.Floor else -((-x).Floor)
  }
}
