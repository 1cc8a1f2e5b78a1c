/**
 The value sanitisers of app/api/analyze/route.ts: score clamps, the
 three-point estimate check, the finite-number filter and the price reader.
 */
module RouteValues {
  import opened Wrappers
  import opened Numbers
  import opened Text
  import Mcts

  /** `toInt0to100(v, fallback)`: the fallback (35 at every call site) for a
      non-finite value, else the nearest integer score in [0,100]. The route
      repeats the engine's `clamp0to100` line for line. */
  function ToInt0To100(v: Num, fallback: int): (r: int)
    ensures v.NonFinite? ==> r == fallback
    ensures v.Finite? ==> NearestScore(v.value, r)
  {
    Mcts.Clamp0To100(v, fallback)
  }

  /** The fallback every call site of `toInt0to100` passes. */
  const StatFallback: int := 35

  /** `clampScore0to100`: 0 for a non-finite value, else the nearest score. */
  function ClampScore0To100(v: Num): (r: int)
    ensures 0 <= r <= 100
    ensures v.NonFinite? ==> r == 0
    ensures v.Finite? ==> NearestScore(v.value, r)
  {
    match v
    case NonFinite => 0
    case Finite(x) => ClampRound(x)
  }

  /** `clampScore`, applied only to finite values by its callers. */
  function ClampScore(v: real): (r: int)
    ensures NearestScore(v, r)
  {
    ClampRound(v)
  }

  /** The two clamps agree on every finite value and differ only in what a
      non-finite value becomes. */
  lemma ClampsAgreeOnFinite(x: real, fallback: int)
    ensures ToInt0To100(Finite(x), fallback) == ClampScore0To100(Finite(x)) == ClampScore(x)
    ensures ToInt0To100(NonFinite, fallback) == fallback
    ensures ClampScore0To100(NonFinite) == 0
  {
  }

  /** A score that is already an integer in [0,100] passes through. */
  lemma ToInt0To100KeepsScores(v: int, fallback: int)
    requires 0 <= v <= 100
    ensures ToInt0To100(Finite(v as real), fallback) == v
  {
    ClampRoundOfInt(v);
  }

  /** The argument of `safeTri`: anything that is not a non-null object, or an
      object whose `min`, `mode` and `max` properties convert as shown. */
  datatype TriInput = NotObject | Obj(min: Num, mode: Num, max: Num)

  /** A three-point estimate. */
  datatype Tri = Tri(min: real, mode: real, max: real)

  predicate Ordered(t: Tri) {
    t.min <= t.mode <= t.max
  }

  /** `safeTri`: a value exactly when all three fields are finite and ordered. */
  function SafeTri(v: TriInput): (r: Option<Tri>)
    ensures r.Some? <==> v.Obj? && v.min.Finite? && v.mode.Finite? && v.max.Finite?
                         && v.min.value <= v.mode.value <= v.max.value
    ensures r.Some? ==> Ordered(r.value)
                        && r.value == Tri(v.min.value, v.mode.value, v.max.value)
  {
    match v
    case NotObject => None
    case Obj(min, mode, max) =>
      if !(min.Finite? && mode.Finite? && max.Finite?) then None
      else if !(min.value <= mode.value && mode.value <= max.value) then None
      else Some(Tri(min.value, mode.value, max.value))
  }

  /** An ordered estimate survives being written out as an object and read
      back. */
  lemma SafeTriRoundTrip(t: Tri)
    requires Ordered(t)
    ensures SafeTri(Obj(Finite(t.min), Finite(t.mode), Finite(t.max))) == Some(t)
  {
  }

  /** `safeNumValue`: the number when it is finite. */
  function SafeNumValue(v: Num): (r: Option<real>)
    ensures r.Some? <==> v.Finite?
    ensures r.Some? ==> r.value == v.value
  {
    match v
    case NonFinite => None
    case Finite(x) => Some(x)
  }

  /** The argument of `parsePriceValue`: `null`/`undefined`, a number, or
      anything else, given by its `String(raw)` text. */
  datatype PriceInput = Nullish | Number(n: Num) | Text(text: string)

  /** `parsePriceValue`. A finite number is returned as it is; a non-finite
      one prints as `NaN`, `Infinity` or `-Infinity`, which holds no digit, so
      it gives `null`. Text loses its commas and yields its first
      `\d+(\.\d+)?` run. */
  function ParsePriceValue(raw: PriceInput): (r: Option<real>)
    ensures raw.Nullish? ==> r.None?
    ensures raw.Number? ==> (r.Some? <==> raw.n.Finite?)
    ensures raw.Number? && raw.n.Finite? ==> r == Some(raw.n.value)
    ensures raw.Text? ==> (r.None? <==> NoDigits(RemoveCommas(raw.text)))
    ensures raw.Text? && r.Some? ==> 0.0 <= r.value
  {
    match raw
    case Nullish => None
    case Number(n) => if n.Finite? then Some(n.value) else None
    case Text(s) =>
      match FindNumber(RemoveCommas(s))
      case None => None
      case Some(m) => Some(m.value)
  }

  /** For any text, the price is the first numeral of the comma-free
      text, whole or with its fraction, at face value. */
  lemma ParsePriceReadsNumeral(text: string)
    ensures var src := RemoveCommas(text); var m := FindNumber(src);
      && (m.None? <==> ParsePriceValue(Text(text)).None?)
      && (m.Some? ==> NumeralMatch(src, m.value) && ParsePriceValue(Text(text)) == Some(m.value.value))
  {
    FindNumberShape(RemoveCommas(text), 0);
  }

  /** A whole number written after digit-free, comma-free text, and
      followed by comma-free text that starts with neither a digit nor a
      dot, is read back exactly. */
  lemma ParsePriceOfShown(p: string, n: nat, q: string)
    requires NoDigits(p) && NoCommas(p) && NoCommas(q)
    requires |q| == 0 || (!IsDigit(q[0]) && q[0] != '.')
    ensures ParsePriceValue(Text(p + ShowNat(n) + q)) == Some(n as real)
  {
    var d := ShowNat(n);
    DigitsHaveNoCommas(d);
    CommaFreeJoin(p, d);
    CommaFreeJoin(p + d, q);
    RemoveCommasKeepsCommaFree(p + d + q);
    FindNumberOfShown(p, n, q);
  }

  /** A price with a decimal part, `d1.d2`, is read with its fraction. */
  lemma ParsePriceOfDecimal(p: string, d1: string, d2: string, q: string)
    requires NoDigits(p) && NoCommas(p) && NoCommas(q)
    requires AllDigits(d1) && AllDigits(d2) && |d1| > 0 && |d2| > 0
    requires |q| == 0 || !IsDigit(q[0])
    ensures ParsePriceValue(Text(p + d1 + "." + d2 + q)) == Some(DecimalValue(d1, d2))
  {
    var s := p + d1 + "." + d2 + q;
    DecimalHasNoCommas(s, p, d1, d2, q);
    RemoveCommasKeepsCommaFree(s);
    FindDecimalBetween(s, p, d1, d2, q);
  }

  lemma DecimalHasNoCommas(s: string, p: string, d1: string, d2: string, q: string)
    requires s == p + d1 + "." + d2 + q
    requires NoCommas(p) && NoCommas(q) && AllDigits(d1) && AllDigits(d2)
    ensures NoCommas(s)
  {
    DigitsHaveNoCommas(d1);
    DigitsHaveNoCommas(d2);
    CommaFreeJoin(p, d1);
    CommaFreeJoin(p + d1, ".");
    CommaFreeJoin(p + d1 + ".", d2);
    CommaFreeJoin(p + d1 + "." + d2, q);
  }

  /** "9.99" is the price 9.99, cents included. */
  lemma PriceWithCents()
    ensures ParsePriceValue(Text("9.99")) == Some(9.99)
  {
    assert "9.99" == "" + "9" + "." + "99" + "";
    ParsePriceOfDecimal("", "9", "99", "");
    NineNinetyNine();
  }

  lemma NineNinetyNine()
    ensures DecimalValue("9", "99") == 9.99
  {
    assert DigitsValue("9") == 9;
    assert DigitsValue("99") == 99 by {
      assert "99"[..1] == "9";
    }
    assert Pow10(2) == 100;
  }

  /** A comma anywhere in the text, such as a thousands separator, changes
      nothing. */
  lemma ParsePriceIgnoresCommas(a: string, b: string)
    ensures ParsePriceValue(Text(a + "," + b)) == ParsePriceValue(Text(a + b))
  {
    RemoveCommasAppend(a + ",", b);
    RemoveCommasAppend(a, ",");
    RemoveCommasAppend(a, b);
    assert RemoveCommas(",") == [];
    assert RemoveCommas(a) + [] == RemoveCommas(a);
  }
}
