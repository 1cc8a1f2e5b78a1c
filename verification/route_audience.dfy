/**
 Reading the founder's and the buyer's descriptions in
 app/api/analyze/route.ts: the age band (`extractAgeBand`, `midpoint`) and
 the monthly income (`extractMonthlyIncome`).
 */
module RouteAudience {
  import opened Wrappers
  import opened Text

  /** An age range with the label the warnings show. */
  datatype AgeBand = AgeBand(min: int, max: int, labelText: string)

  /** `(\d{2})\s*대` matches at position `i`. */
  predicate DecadeAt(s: string, i: nat) {
    && i + 2 <= |s|
    && IsDigit(s[i]) && IsDigit(s[i + 1])
    && StartsAt(s, SpaceRunEnd(s, i + 2), "대")
  }

  /** The leftmost match of the decade pattern at or after `i`. */
  function FirstDecadeFrom(s: string, i: nat): (r: Option<nat>)
    requires i <= |s|
    ensures r.Some? ==> i <= r.value && DecadeAt(s, r.value)
    ensures r.Some? ==> forall k :: i <= k < r.value ==> !DecadeAt(s, k)
    ensures r.None? ==> forall k :: i <= k <= |s| ==> !DecadeAt(s, k)
    decreases |s| - i
  {
    if DecadeAt(s, i) then Some(i)
    else if i == |s| then None
    else FirstDecadeFrom(s, i + 1)
  }

  /** The two captured digits as a number. */
  function DecadeValue(s: string, i: nat): (d: nat)
    requires DecadeAt(s, i)
    ensures d < 100
  {
    10 * DigitValue(s[i]) + DigitValue(s[i + 1])
  }

  /** The band of a decade `d`: `{ min: d, max: d + 9, label: `${d}대` }`. */
  function DecadeBand(d: nat): AgeBand {
    AgeBand(d, d + 9, ShowNat(d) + "대")
  }

  /** The first decade match takes effect when its value lies in [10,90]. */
  predicate DecadeRuleApplies(src: string) {
    var m := FirstDecadeFrom(src, 0);
    m.Some? && 10 <= DecadeValue(src, m.value) <= 90
  }

  /** One keyword test: its alternatives and the band it yields. */
  datatype AgeRule = AgeRule(alternatives: seq<Pattern>, band: AgeBand)

  /** The keyword tests in the order they are tried. */
  function AgeRules(): seq<AgeRule> {
    [
      AgeRule([Lit("mz"), Lit("엠지"), Spaced("m", "z")], AgeBand(20, 39, "MZ")),
      AgeRule([Lit("z세대"), Spaced("gen", "z")], AgeBand(15, 29, "Z")),
      AgeRule([Lit("알파세대"), Spaced("gen", "alpha")], AgeBand(10, 14, "Alpha")),
      AgeRule([Lit("대학생"), Lit("college")], AgeBand(18, 25, "대학생")),
      AgeRule([Lit("청소년"), Lit("teen")], AgeBand(13, 19, "청소년")),
      AgeRule([Lit("청년")], AgeBand(20, 34, "청년")),
      AgeRule([Lit("중장년")], AgeBand(40, 69, "중장년")),
      AgeRule([Lit("시니어"), Lit("실버"), Lit("노년"), Lit("노인"), Lit("장년")], AgeBand(60, 79, "시니어")),
      AgeRule([Spaced("화이트", "칼라"), Lit("office"), Lit("직장인")], AgeBand(25, 49, "직장인"))
    ]
  }

  predicate RuleMatches(src: string, k: nat)
    requires k < |AgeRules()|
  {
    MatchesAny(src, AgeRules()[k].alternatives)
  }

  /** The first keyword test at or after `k` that matches. */
  function FirstRuleFrom(src: string, k: nat): (r: Option<nat>)
    requires k <= |AgeRules()|
    ensures r.Some? ==> k <= r.value < |AgeRules()| && RuleMatches(src, r.value)
    ensures r.Some? ==> forall j :: k <= j < r.value ==> !RuleMatches(src, j)
    ensures r.None? ==> forall j :: k <= j < |AgeRules()| ==> !RuleMatches(src, j)
    decreases |AgeRules()| - k
  {
    if k == |AgeRules()| then None
    else if RuleMatches(src, k) then Some(k)
    else FirstRuleFrom(src, k + 1)
  }

  /** Every band a keyword test yields is a proper range. */
  lemma AgeRuleBandsOrdered()
    ensures forall k :: 0 <= k < |AgeRules()| ==> 10 <= AgeRules()[k].band.min <= AgeRules()[k].band.max <= 79
  {
  }

  /** `extractAgeBand`: on the lower-cased text, the decade rule first, then
      the keyword tests in order. */
  function ExtractAgeBand(text: string): (r: Option<AgeBand>)
    ensures r.Some? ==> 10 <= r.value.min <= r.value.max <= 99
    ensures |text| > 0 && DecadeRuleApplies(ToLower(text)) ==>
      var src := ToLower(text);
      r == Some(DecadeBand(DecadeValue(src, FirstDecadeFrom(src, 0).value)))
    ensures |text| == 0 ==> r.None?
    ensures |text| > 0 && !DecadeRuleApplies(ToLower(text)) ==>
      (r.None? <==> forall k :: 0 <= k < |AgeRules()| ==> !RuleMatches(ToLower(text), k))
    ensures |text| > 0 && !DecadeRuleApplies(ToLower(text)) && r.Some? ==>
      exists k :: 0 <= k < |AgeRules()| && RuleMatches(ToLower(text), k)
                  && (forall j :: 0 <= j < k ==> !RuleMatches(ToLower(text), j))
                  && r.value == AgeRules()[k].band
  {
    if |text| == 0 then None
    else
      var src := ToLower(text);
      if DecadeRuleApplies(src) then
        Some(DecadeBand(DecadeValue(src, FirstDecadeFrom(src, 0).value)))
      else
        AgeRuleBandsOrdered();
        match FirstRuleFrom(src, 0)
        case None => None
        case Some(k) => Some(AgeRules()[k].band)
  }

  /** "<d>대" for a decade in [10,90] is read back as that decade. */
  lemma DecadeRoundTrip(d: nat)
    requires 10 <= d <= 90
    ensures ExtractAgeBand(ShowNat(d) + "대") == Some(DecadeBand(d))
  {
    var text := ShowNat(d) + "대";
    var tens, ones := DigitChar(d / 10), DigitChar(d % 10);
    assert ShowNat(d / 10) == [tens];
    assert text == [tens, ones, '대'];
    var src := ToLower(text);
    assert src == text;
    assert SpaceRunEnd(src, 2) == 2;
    assert DecadeAt(src, 0);
    assert FirstDecadeFrom(src, 0) == Some(0);
    assert DecadeValue(src, 0) == d;
    assert DecadeRuleApplies(src);
  }

  /** `midpoint`. */
  function Midpoint(band: AgeBand): (m: real)
    ensures band.min <= band.max ==> band.min as real <= m <= band.max as real
    ensures 2.0 * m == (band.min + band.max) as real
  {
    (band.min + band.max) as real / 2.0
  }

  /** The multiplier of the unit right after the number, after optional
      whitespace: 만 (and 만원) is ten thousand, 천 (and 천원) a thousand,
      anything else one. */
  function UnitFactor(s: string, i: nat): (f: real)
    requires i <= |s|
    ensures f == 10000.0 || f == 1000.0 || f == 1.0
  {
    var k := SpaceRunEnd(s, i);
    if StartsAt(s, k, "만") then 10000.0
    else if StartsAt(s, k, "천") then 1000.0
    else 1.0
  }

  /** `extractMonthlyIncome`: the first number of the comma-free text, scaled
      by its unit. */
  function ExtractMonthlyIncome(text: string): (r: Option<real>)
    ensures r.None? <==> NoDigits(RemoveCommas(text))
    ensures r.Some? ==> 0.0 <= r.value
  {
    IncomeOfFirstNumber(RemoveCommas(text))
  }

  /** The first number of the comma-free text `src`, scaled by its unit. */
  function IncomeOfFirstNumber(src: string): (r: Option<real>)
    ensures r.None? <==> NoDigits(src)
    ensures r.Some? ==> 0.0 <= r.value
  {
    match FindNumber(src)
    case None => None
    case Some(m) =>
      var f := UnitFactor(src, m.end);
      if f == 10000.0 then Some(m.value * 10000.0)
      else if f == 1000.0 then Some(m.value * 1000.0)
      else Some(m.value)
  }

  /** The units the round trips below write after a number. */
  datatype UnitWord = Man | ManWon | Cheon | CheonWon | Won | NoUnit

  function Word(u: UnitWord): string {
    match u
    case Man => "만"
    case ManWon => "만원"
    case Cheon => "천"
    case CheonWon => "천원"
    case Won => "원"
    case NoUnit => ""
  }

  /** What each unit multiplies by. */
  function Factor(u: UnitWord): real {
    match u
    case Man | ManWon => 10000.0
    case Cheon | CheonWon => 1000.0
    case Won | NoUnit => 1.0
  }

  /** What the round trips need to know about a unit word: no digit, no
      comma, no leading dot, space or 대, and which multiplier its first
      letter selects. */
  lemma UnitWordFacts(u: UnitWord)
    ensures NoDigits(Word(u)) && NoCommas(Word(u))
    ensures |Word(u)| == 0 || (Word(u)[0] != '.' && Word(u)[0] != '대' && !IsJsSpace(Word(u)[0]))
    ensures StartsAt(Word(u), 0, "만") ==> Factor(u) == 10000.0
    ensures !StartsAt(Word(u), 0, "만") && StartsAt(Word(u), 0, "천") ==> Factor(u) == 1000.0
    ensures !StartsAt(Word(u), 0, "만") && !StartsAt(Word(u), 0, "천") ==> Factor(u) == 1.0
  {
  }

  /** A number times the multiplier of its unit, named so that the lemmas
      below hand the product on as one term. */
  function Scaled(v: real, f: real): real {
    v * f
  }

  /** For any text, the income is the first numeral of the comma-free
      text, whole or with its fraction, times the multiplier of the unit
      after it. */
  lemma IncomeReadsNumeral(text: string)
    ensures var src := RemoveCommas(text); var m := FindNumber(src);
      && (m.None? <==> ExtractMonthlyIncome(text).None?)
      && (m.Some? ==> NumeralMatch(src, m.value)
                      && ExtractMonthlyIncome(text) == Some(Scaled(m.value.value, UnitFactor(src, m.value.end))))
  {
    var src := RemoveCommas(text);
    FindNumberShape(src, 0);
    IncomeReadsCommaFree(text, src);
    if FindNumber(src).Some? {
      var m := FindNumber(src).value;
      FirstNumberScaled(src, m.start, m.end, m.value, UnitFactor(src, m.end));
    }
  }

  /** Text whose comma-free form has its first number end at `end` with
      value `v`, wherever it starts, followed by a unit multiplying by `f`,
      reads as `v * f`. */
  lemma IncomeOfMatch(text: string, src: string, start: nat, end: nat, v: real, f: real)
    requires RemoveCommas(text) == src
    requires FindNumber(src) == Some(NumberMatch(start, end, v))
    requires end <= |src| && UnitFactor(src, end) == f
    ensures ExtractMonthlyIncome(text) == Some(v * f)
  {
    IncomeReadsCommaFree(text, src);
    FirstNumberScaled(src, start, end, v, f);
  }

  lemma IncomeReadsCommaFree(text: string, src: string)
    requires RemoveCommas(text) == src
    ensures ExtractMonthlyIncome(text) == IncomeOfFirstNumber(src)
  {
  }

  lemma FirstNumberScaled(src: string, start: nat, end: nat, v: real, f: real)
    requires FindNumber(src) == Some(NumberMatch(start, end, v))
    requires end <= |src| && UnitFactor(src, end) == f
    ensures IncomeOfFirstNumber(src) == Some(Scaled(v, f))
  {
    ScaledByFactor(v, f);
  }

  lemma ScaledByFactor(v: real, f: real)
    requires f == 10000.0 || f == 1000.0 || f == 1.0
    ensures (if f == 10000.0 then v * 10000.0 else if f == 1000.0 then v * 1000.0 else v) == Scaled(v, f)
  {
  }

  /** A unit word right after `d` decides the factor. */
  lemma UnitWordAfter(s: string, d: string, u: UnitWord)
    requires s == d + Word(u)
    ensures |d| <= |s| && UnitFactor(s, |d|) == Factor(u)
  {
    UnitWordFacts(u);
    UnitAfterNumber(d, Word(u), Factor(u));
  }

  /** Text `w` right after `d` that starts with no whitespace selects the
      factor its first letter names. */
  lemma UnitAfterNumber(d: string, w: string, f: real)
    requires |w| == 0 || !IsJsSpace(w[0])
    requires StartsAt(w, 0, "만") ==> f == 10000.0
    requires !StartsAt(w, 0, "만") && StartsAt(w, 0, "천") ==> f == 1000.0
    requires !StartsAt(w, 0, "만") && !StartsAt(w, 0, "천") ==> f == 1.0
    ensures UnitFactor(d + w, |d|) == f
  {
    var s := d + w;
    assert s[|d|..] == w;
    assert SpaceRunEnd(s, |d|) == |d|;
    assert StartsAt(s, |d|, "만") <==> StartsAt(w, 0, "만");
    assert StartsAt(s, |d|, "천") <==> StartsAt(w, 0, "천");
  }

  /** A whole number after digit-free, comma-free text such as "월 ", and
      followed by a unit, is read back and scaled: "월 300만원" is
      3,000,000. */
  lemma IncomeOfShown(p: string, n: nat, u: UnitWord)
    requires NoDigits(p) && NoCommas(p)
    ensures ExtractMonthlyIncome(p + ShowNat(n) + Word(u)) == Some(n as real * Factor(u))
  {
    var s := p + ShowNat(n) + Word(u);
    ShownIsCommaFree(s, p, n, u);
    FirstNumberIsShown(s, p, n, u);
    IncomeReadsCommaFree(s, s);
    assert Scaled(n as real, Factor(u)) == n as real * Factor(u);
  }

  lemma ShownIsCommaFree(s: string, p: string, n: nat, u: UnitWord)
    requires s == p + ShowNat(n) + Word(u)
    requires NoCommas(p)
    ensures RemoveCommas(s) == s
  {
    UnitWordFacts(u);
    DigitsHaveNoCommas(ShowNat(n));
    CommaFreeJoin(p, ShowNat(n));
    CommaFreeJoin(p + ShowNat(n), Word(u));
    RemoveCommasKeepsCommaFree(s);
  }

  /** In comma-free text, the shown number is the first and its unit
      scales it. */
  lemma FirstNumberIsShown(s: string, p: string, n: nat, u: UnitWord)
    requires s == p + ShowNat(n) + Word(u)
    requires NoDigits(p)
    ensures IncomeOfFirstNumber(s) == Some(Scaled(n as real, Factor(u)))
  {
    UnitWordFacts(u);
    FindNumberOfShown(p, n, Word(u));
    UnitWordAfter(s, p + ShowNat(n), u);
    FirstNumberScaled(s, |p|, |p| + |ShowNat(n)|, n as real, Factor(u));
  }

  /** The same for a number with a decimal part: "1.5만원" is 15,000. */
  lemma IncomeOfDecimal(p: string, d1: string, d2: string, u: UnitWord)
    requires NoDigits(p) && NoCommas(p)
    requires AllDigits(d1) && AllDigits(d2) && |d1| > 0 && |d2| > 0
    ensures ExtractMonthlyIncome(p + d1 + "." + d2 + Word(u)) == Some(DecimalValue(d1, d2) * Factor(u))
  {
    var s := p + d1 + "." + d2 + Word(u);
    DecimalIsCommaFree(s, p, d1, d2, u);
    FirstNumberIsDecimal(s, p, d1, d2, u);
    IncomeReadsCommaFree(s, s);
    assert Scaled(DecimalValue(d1, d2), Factor(u)) == DecimalValue(d1, d2) * Factor(u);
  }

  lemma DecimalIsCommaFree(s: string, p: string, d1: string, d2: string, u: UnitWord)
    requires s == p + d1 + "." + d2 + Word(u)
    requires NoCommas(p) && AllDigits(d1) && AllDigits(d2)
    ensures RemoveCommas(s) == s
  {
    UnitWordFacts(u);
    DigitsHaveNoCommas(d1);
    DigitsHaveNoCommas(d2);
    CommaFreeJoin(p, d1);
    CommaFreeJoin(p + d1, ".");
    CommaFreeJoin(p + d1 + ".", d2);
    CommaFreeJoin(p + d1 + "." + d2, Word(u));
    RemoveCommasKeepsCommaFree(s);
  }

  lemma FirstNumberIsDecimal(s: string, p: string, d1: string, d2: string, u: UnitWord)
    requires s == p + d1 + "." + d2 + Word(u)
    requires NoDigits(p) && AllDigits(d1) && AllDigits(d2) && |d1| > 0 && |d2| > 0
    ensures IncomeOfFirstNumber(s) == Some(Scaled(DecimalValue(d1, d2), Factor(u)))
  {
    UnitWordFacts(u);
    FindDecimalBetween(s, p, d1, d2, Word(u));
    assert s == (p + d1 + "." + d2) + Word(u);
    UnitWordAfter(s, p + d1 + "." + d2, u);
    FirstNumberScaled(s, |p|, |p| + |d1| + 1 + |d2|, DecimalValue(d1, d2), Factor(u));
  }

  /** "월 300만원" is a monthly income of 3,000,000. */
  lemma IncomeAfterLabel()
    ensures ExtractMonthlyIncome("월 300만원") == Some(3000000.0)
  {
    ShowThreeHundred();
    assert "월 " + ShowNat(300) + Word(ManWon) == "월 300만원";
    IncomeOfShown("월 ", 300, ManWon);
  }

  lemma ShowThreeHundred()
    ensures ShowNat(300) == "300"
  {
    assert ShowNat(3) == "3";
    assert ShowNat(30) == "30";
  }

  /** "1.5만원" is a monthly income of 15,000. */
  lemma IncomeWithFraction()
    ensures ExtractMonthlyIncome("1.5만원") == Some(15000.0)
  {
    assert "1.5만원" == "" + "1" + "." + "5" + Word(ManWon);
    IncomeOfDecimal("", "1", "5", ManWon);
    OneAndAHalf();
  }

  lemma OneAndAHalf()
    ensures DecimalValue("1", "5") == 1.5
  {
    assert DigitsValue("1") == 1 && DigitsValue("5") == 5 && Pow10(1) == 10;
  }

  // ---------------------------------------------------------------------
  // An age decade read as the income
  // ---------------------------------------------------------------------

  /** As written, the first number is the income whatever follows it: a
      buyer described by age first, as in "30대 ...", earns the decade. */
  lemma AgeDecadeReadAsIncome(p: string, d: nat, rest: string)
    requires NoDigits(p) && NoCommas(p) && NoCommas(rest)
    ensures ExtractMonthlyIncome(p + ShowNat(d) + "대" + rest) == Some(d as real)
  {
    var s := p + ShowNat(d) + "대" + rest;
    AgeIsCommaFree(s, p, d, rest);
    FirstNumberIsAge(s, p, d, rest);
    IncomeReadsCommaFree(s, s);
  }

  lemma AgeIsCommaFree(s: string, p: string, d: nat, rest: string)
    requires s == p + ShowNat(d) + "대" + rest
    requires NoCommas(p) && NoCommas(rest)
    ensures RemoveCommas(s) == s
  {
    DigitsHaveNoCommas(ShowNat(d));
    CommaFreeJoin(p, ShowNat(d));
    CommaFreeJoin(p + ShowNat(d), "대");
    CommaFreeJoin(p + ShowNat(d) + "대", rest);
    RemoveCommasKeepsCommaFree(s);
  }

  lemma FirstNumberIsAge(s: string, p: string, d: nat, rest: string)
    requires s == p + ShowNat(d) + "대" + rest
    requires NoDigits(p)
    ensures IncomeOfFirstNumber(s) == Some(d as real)
  {
    var q := "대" + rest;
    assert s == p + ShowNat(d) + q && q[0] == '대';
    FirstNumberBeforeAge(s, p, d, q);
  }

  lemma FirstNumberBeforeAge(s: string, p: string, d: nat, q: string)
    requires s == p + ShowNat(d) + q
    requires NoDigits(p) && |q| > 0 && q[0] == '대'
    ensures IncomeOfFirstNumber(s) == Some(d as real)
  {
    FindNumberOfShown(p, d, q);
    AgeWordFollows(p + ShowNat(d), q);
    FirstNumberScaled(s, |p|, |p| + |ShowNat(d)|, d as real, 1.0);
  }

  /** A buyer "in their thirties, earning 3,000,000 a month" earns 30. */
  lemma ThirtiesReadAsIncome()
    ensures ExtractMonthlyIncome("30대 월 300만원") == Some(30.0)
  {
    assert ShowNat(30) == "30" by {
      assert ShowNat(3) == "3";
    }
    assert "" + ShowNat(30) + "대" + " 월 300만원" == "30대 월 300만원";
    AgeDecadeReadAsIncome("", 30, " 월 300만원");
  }

  /** 대 right after a number: no whitespace run, the age word is there and
      the unit factor is one. */
  lemma AgeWordFollows(d: string, q: string)
    requires |q| > 0 && q[0] == '대'
    ensures SpaceRunEnd(d + q, |d|) == |d| && StartsAt(d + q, |d|, "대")
    ensures UnitFactor(d + q, |d|) == 1.0
  {
    var s := d + q;
    assert s[|d|] == '대';
    assert s[|d|..|d| + 1] == "대";
  }

  /** The first number from `from` on that is not followed by 대: a number
      of 대 is an age decade, not an amount. */
  function AgeFreeMatch(src: string, from: nat): (r: Option<NumberMatch>)
    requires from <= |src|
    ensures r.Some? ==> from <= r.value.start < r.value.end <= |src| && 0.0 <= r.value.value
    decreases |src| - from
  {
    match FindNumberFrom(src, from)
    case None => None
    case Some(m) =>
      if StartsAt(src, SpaceRunEnd(src, m.end), "대") then AgeFreeMatch(src, m.end)
      else Some(m)
  }

  /** The income as evidently intended: the first number that is not an
      age, scaled by its unit. */
  function IncomeFrom(src: string, from: nat): (r: Option<real>)
    requires from <= |src|
    ensures r.Some? ==> 0.0 <= r.value
  {
    match AgeFreeMatch(src, from)
    case None => None
    case Some(m) => Some(Scaled(m.value, UnitFactor(src, m.end)))
  }

  /** `extractMonthlyIncome` with age decades skipped. */
  function ExtractIncomeSkippingAges(text: string): (r: Option<real>)
    ensures r.Some? ==> 0.0 <= r.value
  {
    IncomeFrom(RemoveCommas(text), 0)
  }

  /** When the first number is not an age, the corrected reading is the
      route's. */
  lemma SkippingAgesAgreesOtherwise(text: string)
    requires var src := RemoveCommas(text); var m := FindNumber(src);
      m.None? || !StartsAt(src, SpaceRunEnd(src, m.value.end), "대")
    ensures ExtractIncomeSkippingAges(text) == ExtractMonthlyIncome(text)
  {
    var src := RemoveCommas(text);
    FirstNotAgeAgrees(src);
    IncomeReadsCommaFree(text, src);
  }

  lemma FirstNotAgeAgrees(src: string)
    requires var m := FindNumber(src);
      m.None? || !StartsAt(src, SpaceRunEnd(src, m.value.end), "대")
    ensures IncomeFrom(src, 0) == IncomeOfFirstNumber(src)
  {
    match FindNumber(src)
    case None =>
    case Some(m) =>
      var f := UnitFactor(src, m.end);
      assert AgeFreeMatch(src, 0) == Some(m);
      FirstNumberScaled(src, m.start, m.end, m.value, f);
  }

  /** The corrected reading passes over an age decade to the income after
      it: "30대 월 300만원" earns 3,000,000. */
  lemma SkippingAgesReadsIncome(p: string, d: nat, mid: string, n: nat, u: UnitWord)
    requires NoDigits(p) && NoCommas(p) && NoDigits(mid) && NoCommas(mid)
    ensures ExtractIncomeSkippingAges(p + ShowNat(d) + "대" + mid + ShowNat(n) + Word(u))
            == Some(n as real * Factor(u))
  {
    ShowNatRoundTrip(n);
    AgeThenIncome(p + ShowNat(d) + "대" + mid + ShowNat(n) + Word(u), p, ShowNat(d), mid, ShowNat(n), u, n);
    assert Scaled(n as real, Factor(u)) == n as real * Factor(u);
  }

  /** Skipping the age, "30대 월 300만원" is the income of 3,000,000 a month
      it describes. */
  lemma ThirtiesIncomeSkippingAge()
    ensures ExtractIncomeSkippingAges("30대 월 300만원") == Some(3000000.0)
  {
    ShowThreeHundred();
    assert ShowNat(30) == "30" by {
      assert ShowNat(3) == "3";
    }
    assert "" + ShowNat(30) + "대" + " 월 " + ShowNat(300) + Word(ManWon) == "30대 월 300만원";
    SkippingAgesReadsIncome("", 30, " 월 ", 300, ManWon);
  }

  /** The same for any digits: `da` the age, `w` the income numeral. */
  lemma AgeThenIncome(s: string, p: string, da: string, mid: string, w: string, u: UnitWord, v: nat)
    requires s == p + da + "대" + mid + w + Word(u)
    requires NoDigits(p) && NoCommas(p) && NoDigits(mid) && NoCommas(mid)
    requires AllDigits(da) && |da| > 0 && AllDigits(w) && |w| > 0 && DigitsValue(w) == v
    ensures ExtractIncomeSkippingAges(s) == Some(Scaled(v as real, Factor(u)))
  {
    AgeThenIncomeCommaFree(s, p, da, mid, w, u);
    AgeSkipped(s, p, da, mid, w, u);
    IncomeAfterAge(s, p, da, mid, w, u, v);
  }

  lemma AgeThenIncomeCommaFree(s: string, p: string, da: string, mid: string, w: string, u: UnitWord)
    requires s == p + da + "대" + mid + w + Word(u)
    requires NoCommas(p) && NoCommas(mid) && AllDigits(da) && AllDigits(w)
    ensures RemoveCommas(s) == s
  {
    UnitWordFacts(u);
    DigitsHaveNoCommas(da);
    DigitsHaveNoCommas(w);
    CommaFreeJoin(p, da);
    CommaFreeJoin(p + da, "대");
    CommaFreeJoin(p + da + "대", mid);
    CommaFreeJoin(p + da + "대" + mid, w);
    CommaFreeJoin(p + da + "대" + mid + w, Word(u));
    RemoveCommasKeepsCommaFree(s);
  }

  /** The corrected reading passes over the leading age. */
  lemma AgeSkipped(s: string, p: string, da: string, mid: string, w: string, u: UnitWord)
    requires s == p + da + "대" + mid + w + Word(u)
    requires NoDigits(p) && AllDigits(da) && |da| > 0
    ensures IncomeFrom(s, 0) == IncomeFrom(s, |p| + |da|)
  {
    var q := "대" + mid + w + Word(u);
    assert s == p + da + q;
    FindNumberBetween(s, p, da, q, DigitsValue(da));
    AgeWordFollows(p + da, q);
    assert AgeFreeMatch(s, 0) == AgeFreeMatch(s, |p| + |da|);
  }

  /** After the age, the next number is the income, scaled by its unit. */
  lemma IncomeAfterAge(s: string, p: string, da: string, mid: string, w: string, u: UnitWord, v: nat)
    requires s == p + da + "대" + mid + w + Word(u)
    requires NoDigits(mid) && AllDigits(w) && |w| > 0 && DigitsValue(w) == v
    ensures |p| + |da| <= |s| && IncomeFrom(s, |p| + |da|) == Some(Scaled(v as real, Factor(u)))
  {
    var b := p + da;
    var a := b + "대" + mid;
    var x := a + w;
    var e := |a| + |w|;
    assert s == x + Word(u);
    AgeTailFrom(b, mid, |p| + |da|);
    UnitEndsWord(s, x, u, e);
    IncomeAfterGap(s, |p| + |da|, a, w, Word(u), v, Factor(u), e);
  }

  lemma AgeTailFrom(b: string, mid: string, from: nat)
    requires NoDigits(mid) && from == |b|
    ensures var a := b + "대" + mid;
      from <= |a| && forall k :: from <= k < |a| ==> !IsDigit(a[k])
  {
    AgeTailHasNoDigits(b, mid);
  }

  lemma AgeTailHasNoDigits(b: string, mid: string)
    requires NoDigits(mid)
    ensures var a := b + "대" + mid;
      forall k :: |b| <= k < |a| ==> !IsDigit(a[k])
  {
    var a := b + "대" + mid;
    forall k | |b| <= k < |a| ensures !IsDigit(a[k]) {
      if k > |b| {
        assert a[k] == mid[k - |b| - 1];
      }
    }
  }

  /** A unit word after `x`: it starts with neither digit nor dot, scales
      the number ending at `e` and is not the age word. */
  lemma UnitEndsWord(s: string, x: string, u: UnitWord, e: nat)
    requires s == x + Word(u) && e == |x|
    ensures |Word(u)| == 0 || (!IsDigit(Word(u)[0]) && Word(u)[0] != '.')
    ensures e <= |s| && UnitFactor(s, e) == Factor(u) && !StartsAt(s, SpaceRunEnd(s, e), "대")
  {
    UnitWordFacts(u);
    UnitEndsAt(s, x, Word(u), Factor(u), e);
  }

  lemma UnitEndsAt(s: string, x: string, t: string, f: real, e: nat)
    requires s == x + t && e == |x|
    requires |t| == 0 || (t[0] != '대' && !IsJsSpace(t[0]))
    requires StartsAt(t, 0, "만") ==> f == 10000.0
    requires !StartsAt(t, 0, "만") && StartsAt(t, 0, "천") ==> f == 1000.0
    requires !StartsAt(t, 0, "만") && !StartsAt(t, 0, "천") ==> f == 1.0
    ensures e <= |s| && UnitFactor(s, e) == f && !StartsAt(s, SpaceRunEnd(s, e), "대")
  {
    UnitAfterNumber(x, t, f);
    NoAgeWordAfter(x, t);
  }

  lemma NoAgeWordAfter(d: string, w: string)
    requires |w| == 0 || (w[0] != '대' && !IsJsSpace(w[0]))
    ensures !StartsAt(d + w, SpaceRunEnd(d + w, |d|), "대")
  {
    var s := d + w;
    assert SpaceRunEnd(s, |d|) == |d| by {
      if |w| > 0 {
        assert s[|d|] == w[0];
      }
    }
    if |w| > 0 {
      assert s[|d|] == w[0];
    }
  }

  /** Searching from `from` past digit-free text `a` finds the digits `w`;
      with a unit after them that is not 대, they are the corrected
      income. */
  lemma IncomeAfterGap(s: string, from: nat, a: string, w: string, t: string, v: nat, f: real, e: nat)
    requires s == a + w + t && from <= |a| && e == |a| + |w|
    requires forall k :: from <= k < |a| ==> !IsDigit(a[k])
    requires AllDigits(w) && |w| > 0 && DigitsValue(w) == v
    requires |t| == 0 || (!IsDigit(t[0]) && t[0] != '.')
    requires e <= |s| && UnitFactor(s, e) == f && !StartsAt(s, SpaceRunEnd(s, e), "대")
    ensures IncomeFrom(s, from) == Some(Scaled(v as real, f))
  {
    NumberAfterGap(s, from, a, w, t, v, e);
    NumberNotAgeRead(s, from, |a|, e, v as real, f);
  }

  /** Searching from `from`, past a stretch of `a` with no digit, finds the
      digits `w` written after `a`. */
  lemma NumberAfterGap(s: string, from: nat, a: string, w: string, q: string, v: nat, j: nat)
    requires s == a + w + q && from <= |a| && j == |a| + |w|
    requires forall k :: from <= k < |a| ==> !IsDigit(a[k])
    requires AllDigits(w) && |w| > 0 && DigitsValue(w) == v
    requires |q| == 0 || (!IsDigit(q[0]) && q[0] != '.')
    ensures FindNumberFrom(s, from) == Some(NumberMatch(|a|, j, v as real))
  {
    PiecesAt(s, a, w, q, j);
    FindDigitsAt(s, from, a, w, j);
  }

  lemma PiecesAt(s: string, a: string, w: string, q: string, j: nat)
    requires s == a + w + q && j == |a| + |w|
    requires |q| == 0 || (!IsDigit(q[0]) && q[0] != '.')
    ensures |a| <= j <= |s| && s[..|a|] == a && s[|a|..j] == w
    ensures j == |s| || (!IsDigit(s[j]) && s[j] != '.')
  {
    PlacedBetween(a, w, q);
  }

  /** A number found from `from` and not followed by 대 is the corrected
      income. */
  lemma NumberNotAgeRead(s: string, from: nat, start: nat, end: nat, v: real, f: real)
    requires from <= |s|
    requires FindNumberFrom(s, from) == Some(NumberMatch(start, end, v))
    requires end <= |s| && !StartsAt(s, SpaceRunEnd(s, end), "대")
    requires UnitFactor(s, end) == f
    ensures IncomeFrom(s, from) == Some(Scaled(v, f))
  {
    assert AgeFreeMatch(s, from) == Some(NumberMatch(start, end, v));
  }
}
