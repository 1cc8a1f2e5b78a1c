/**
 `applyContextAdjustments` of app/api/analyze/route.ts: rule-based penalties
 on the sanitised stats from the founder's age, the buyer's age and income,
 the sales channel and the price, each with a warning.
 */
module RouteAdjust {
  import opened Wrappers
  import opened Numbers
  import opened Text
  import opened RouteValues
  import opened RouteAudience

  /** The route's eleven stats, each an integer score after `toInt0to100`. */
  datatype Scores = Scores(
    product: int,
    founder: int,
    strategy: int,
    marketing: int,
    consumerNeeds: int,
    conceptFit: int,
    priceFit: int,
    businessModelFit: int,
    distribution: int,
    marketScope: int,
    potentialCustomers: int)

  predicate IsScore(v: int) {
    0 <= v <= 100
  }

  predicate InRange(s: Scores) {
    && IsScore(s.product) && IsScore(s.founder) && IsScore(s.strategy)
    && IsScore(s.marketing) && IsScore(s.consumerNeeds) && IsScore(s.conceptFit)
    && IsScore(s.priceFit) && IsScore(s.businessModelFit) && IsScore(s.distribution)
    && IsScore(s.marketScope) && IsScore(s.potentialCustomers)
  }

  /** No stat of `a` is above the same stat of `b`. */
  predicate NoneHigher(a: Scores, b: Scores) {
    && a.product <= b.product && a.founder <= b.founder && a.strategy <= b.strategy
    && a.marketing <= b.marketing && a.consumerNeeds <= b.consumerNeeds
    && a.conceptFit <= b.conceptFit && a.priceFit <= b.priceFit
    && a.businessModelFit <= b.businessModelFit && a.distribution <= b.distribution
    && a.marketScope <= b.marketScope && a.potentialCustomers <= b.potentialCustomers
  }

  /** The four stats no rule touches are the same in `a` and `b`. */
  predicate UntouchedKept(a: Scores, b: Scores) {
    && a.product == b.product && a.conceptFit == b.conceptFit
    && a.businessModelFit == b.businessModelFit && a.marketScope == b.marketScope
  }

  /** The free-text context of a request. */
  datatype Context = Context(sellerInfo: string, buyerInfo: string, salesChannel: string, price: string)

  /** The warnings the rules raise (the Korean messages, by meaning). */
  datatype Warning =
    | GenerationGapLarge(sellerLabel: string, buyerLabel: string)
    | GenerationGapModerate
    | SeniorOnYouthChannel
    | YouthOnSeniorChannel
    | PriceFarAboveIncome
    | PriceAboveIncome

  datatype Adjusted = Adjusted(scores: Scores, warnings: seq<Warning>)

  /** `clampScore(v - penalty)` on an integer stat. */
  function Lower(v: int, penalty: nat): (r: int)
    ensures IsScore(v) ==> IsScore(r) && r <= v && v - penalty <= r
  {
    ClampRoundOfInt(v - penalty);
    ClampScore((v - penalty) as real)
  }

  function AbsReal(x: real): real {
    if x < 0.0 then -x else x
  }

  /** Rule 1: the founder's and the buyer's age gap, midpoint to midpoint. */
  function AgeGapRule(s: Scores, seller: Option<AgeBand>, buyer: Option<AgeBand>): (a: Adjusted)
    ensures |a.warnings| <= 1
    ensures UntouchedKept(a.scores, s)
    ensures InRange(s) ==> InRange(a.scores) && NoneHigher(a.scores, s)
    ensures a.scores.consumerNeeds == s.consumerNeeds && a.scores.priceFit == s.priceFit
    ensures a.scores.distribution == s.distribution && a.scores.potentialCustomers == s.potentialCustomers
  {
    if seller.Some? && buyer.Some? then
      var gap := AbsReal(Midpoint(seller.value) - Midpoint(buyer.value));
      if gap >= 30.0 then
        Adjusted(
          s.(founder := Lower(s.founder, 12), strategy := Lower(s.strategy, 10),
             marketing := Lower(s.marketing, 8)),
          [GenerationGapLarge(seller.value.labelText, buyer.value.labelText)])
      else if gap >= 20.0 then
        Adjusted(s.(founder := Lower(s.founder, 6), strategy := Lower(s.strategy, 5)),
                 [GenerationGapModerate])
      else Adjusted(s, [])
    else Adjusted(s, [])
  }

  /** Channel words that point at a young audience. */
  function YouthChannels(): seq<string> {
    ["인스타", "instagram", "릴스", "reels", "틱톡", "tiktok", "쇼츠", "shorts", "snap", "디스코드", "discord"]
  }

  /** Channel words that point at an older audience. */
  function SeniorChannels(): seq<string> {
    ["네이버 밴드", "밴드", "band", "카카오톡", "카톡", "오프라인", "전단", "홈쇼핑", "신문", "라디오", "현수막", "약국", "마트", "전화"]
  }

  predicate IsSenior(b: AgeBand) {
    b.min >= 50
  }

  predicate IsYoung(b: AgeBand) {
    b.max <= 25
  }

  /** No proper age band is both senior and young, so at most one channel
      rule fires. */
  lemma SeniorAndYoungExclusive(b: AgeBand)
    requires b.min <= b.max
    ensures !(IsSenior(b) && IsYoung(b))
  {
  }

  /** Rule 2: a buyer band against the wrong generation's channels. The two
      checks are independent `if`s, applied in turn. */
  function ChannelRule(s: Scores, buyer: Option<AgeBand>, channelText: string): (a: Adjusted)
    requires buyer.Some? ==> buyer.value.min <= buyer.value.max
    ensures |a.warnings| <= 1
    ensures UntouchedKept(a.scores, s)
    ensures InRange(s) ==> InRange(a.scores) && NoneHigher(a.scores, s)
    ensures a.scores.founder == s.founder && a.scores.strategy == s.strategy
    ensures a.scores.consumerNeeds == s.consumerNeeds && a.scores.priceFit == s.priceFit
  {
    if buyer.None? then Adjusted(s, [])
    else
      var b := buyer.value;
      SeniorAndYoungExclusive(b);
      var first :=
        if IsSenior(b) && ContainsAny(channelText, YouthChannels()) then
          Adjusted(
            s.(marketing := Lower(s.marketing, 20), distribution := Lower(s.distribution, 15),
               potentialCustomers := Lower(s.potentialCustomers, 10)),
            [SeniorOnYouthChannel])
        else Adjusted(s, []);
      if IsYoung(b) && ContainsAny(channelText, SeniorChannels()) then
        var t := first.scores;
        Adjusted(t.(marketing := Lower(t.marketing, 15), distribution := Lower(t.distribution, 10)),
                 first.warnings + [YouthOnSeniorChannel])
      else first
  }

  /** `price / Math.max(1, income)`. */
  function Affordability(price: real, income: real): real {
    price / MaxReal(1.0, income)
  }

  /** Rule 3: the price against the buyer's monthly income. */
  function PriceRule(s: Scores, income: Option<real>, price: Option<real>): (a: Adjusted)
    ensures |a.warnings| <= 1
    ensures UntouchedKept(a.scores, s)
    ensures InRange(s) ==> InRange(a.scores) && NoneHigher(a.scores, s)
    ensures a.scores.founder == s.founder && a.scores.strategy == s.strategy
    ensures a.scores.marketing == s.marketing && a.scores.distribution == s.distribution
  {
    if income.Some? && price.Some? then
      var affordability := Affordability(price.value, income.value);
      if affordability >= 0.5 then
        Adjusted(
          s.(priceFit := Lower(s.priceFit, 30), consumerNeeds := Lower(s.consumerNeeds, 20),
             potentialCustomers := Lower(s.potentialCustomers, 20)),
          [PriceFarAboveIncome])
      else if affordability >= 0.2 then
        Adjusted(s.(priceFit := Lower(s.priceFit, 15), consumerNeeds := Lower(s.consumerNeeds, 10)),
                 [PriceAboveIncome])
      else Adjusted(s, [])
    else Adjusted(s, [])
  }

  /** On a score, `Lower` is a plain subtraction floored at 0. */
  lemma LowerOfScore(v: int, penalty: nat)
    requires IsScore(v)
    ensures Lower(v, penalty) == Max(0, v - penalty)
  {
    ClampRoundOfInt(v - penalty);
  }

  /** Twice the midpoint gap, as an integer: the bands' end sums apart. */
  function DoubledGap(seller: AgeBand, buyer: AgeBand): nat {
    var d := (seller.min + seller.max) - (buyer.min + buyer.max);
    if d < 0 then -d else d
  }

  lemma GapIsHalfDoubled(seller: AgeBand, buyer: AgeBand)
    ensures AbsReal(Midpoint(seller) - Midpoint(buyer)) * 2.0 == DoubledGap(seller, buyer) as real
  {
  }

  /** What the age-gap rule does to in-range stats. Midpoints 30 or more
      years apart (end sums 60 apart) cost founder 12, strategy 10 and
      marketing 8; 20 to 30 years (end sums 40 to 60 apart) cost founder 6
      and strategy 5; a smaller gap, or a missing band, changes nothing. */
  lemma AgeGapEffect(s: Scores, seller: AgeBand, buyer: AgeBand)
    requires InRange(s)
    ensures AgeGapRule(s, None, Some(buyer)) == Adjusted(s, [])
    ensures AgeGapRule(s, Some(seller), None) == Adjusted(s, [])
    ensures DoubledGap(seller, buyer) >= 60 ==>
      AgeGapRule(s, Some(seller), Some(buyer))
        == Adjusted(s.(founder := Max(0, s.founder - 12), strategy := Max(0, s.strategy - 10),
                       marketing := Max(0, s.marketing - 8)),
                    [GenerationGapLarge(seller.labelText, buyer.labelText)])
    ensures 40 <= DoubledGap(seller, buyer) < 60 ==>
      AgeGapRule(s, Some(seller), Some(buyer))
        == Adjusted(s.(founder := Max(0, s.founder - 6), strategy := Max(0, s.strategy - 5)),
                    [GenerationGapModerate])
    ensures DoubledGap(seller, buyer) < 40 ==> AgeGapRule(s, Some(seller), Some(buyer)) == Adjusted(s, [])
  {
    GapIsHalfDoubled(seller, buyer);
    LowerOfScore(s.founder, 12);
    LowerOfScore(s.strategy, 10);
    LowerOfScore(s.marketing, 8);
    LowerOfScore(s.founder, 6);
    LowerOfScore(s.strategy, 5);
  }

  /** What the channel rules do to in-range stats. A buyer band starting at
      50 or later with a young channel word costs marketing 20, distribution
      15 and potential customers 10; a band ending at 25 or earlier with an
      older channel word costs marketing 15 and distribution 10; otherwise,
      or without a buyer band, nothing changes. */
  lemma ChannelEffect(s: Scores, b: AgeBand, channelText: string)
    requires InRange(s) && b.min <= b.max
    ensures ChannelRule(s, None, channelText) == Adjusted(s, [])
    ensures 50 <= b.min && ContainsAny(channelText, YouthChannels()) ==>
      ChannelRule(s, Some(b), channelText)
        == Adjusted(s.(marketing := Max(0, s.marketing - 20), distribution := Max(0, s.distribution - 15),
                       potentialCustomers := Max(0, s.potentialCustomers - 10)),
                    [SeniorOnYouthChannel])
    ensures b.max <= 25 && ContainsAny(channelText, SeniorChannels()) ==>
      ChannelRule(s, Some(b), channelText)
        == Adjusted(s.(marketing := Max(0, s.marketing - 15), distribution := Max(0, s.distribution - 10)),
                    [YouthOnSeniorChannel])
    ensures (!(50 <= b.min && ContainsAny(channelText, YouthChannels()))
             && !(b.max <= 25 && ContainsAny(channelText, SeniorChannels()))) ==>
      ChannelRule(s, Some(b), channelText) == Adjusted(s, [])
  {
    SeniorAndYoungExclusive(b);
    LowerOfScore(s.marketing, 20);
    LowerOfScore(s.distribution, 15);
    LowerOfScore(s.potentialCustomers, 10);
    LowerOfScore(s.marketing, 15);
    LowerOfScore(s.distribution, 10);
  }

  /** The ratio reaches `k` exactly when the price reaches `k` times the
      income, an income below 1 counting as 1. */
  lemma AffordabilityAtLeast(price: real, income: real, k: real)
    ensures Affordability(price, income) >= k <==> price >= k * MaxReal(1.0, income)
  {
    var m := MaxReal(1.0, income);
    var a := price / m;
    assert a * m == price;
    if a >= k {
      assert (a - k) * m >= 0.0;
    } else {
      assert (k - a) * m > 0.0;
    }
  }

  /** What the price rule does to in-range stats, with `m` the income (at
      least 1). A price of half of `m` or more costs price fit 30, consumer
      needs 20 and potential customers 20; a fifth up to half costs price fit
      15 and consumer needs 10; below a fifth, or without an income or a
      price, nothing changes. */
  lemma PriceEffect(s: Scores, income: real, price: real)
    requires InRange(s)
    ensures PriceRule(s, None, Some(price)) == Adjusted(s, [])
    ensures PriceRule(s, Some(income), None) == Adjusted(s, [])
    ensures price >= 0.5 * MaxReal(1.0, income) ==>
      PriceRule(s, Some(income), Some(price))
        == Adjusted(s.(priceFit := Max(0, s.priceFit - 30), consumerNeeds := Max(0, s.consumerNeeds - 20),
                       potentialCustomers := Max(0, s.potentialCustomers - 20)),
                    [PriceFarAboveIncome])
    ensures 0.2 * MaxReal(1.0, income) <= price < 0.5 * MaxReal(1.0, income) ==>
      PriceRule(s, Some(income), Some(price))
        == Adjusted(s.(priceFit := Max(0, s.priceFit - 15), consumerNeeds := Max(0, s.consumerNeeds - 10)),
                    [PriceAboveIncome])
    ensures price < 0.2 * MaxReal(1.0, income) ==> PriceRule(s, Some(income), Some(price)) == Adjusted(s, [])
  {
    AffordabilityAtLeast(price, income, 0.5);
    AffordabilityAtLeast(price, income, 0.2);
    LowerOfScore(s.priceFit, 30);
    LowerOfScore(s.consumerNeeds, 20);
    LowerOfScore(s.potentialCustomers, 20);
    LowerOfScore(s.priceFit, 15);
    LowerOfScore(s.consumerNeeds, 10);
  }

  /** `applyContextAdjustments`: the three rules in order. */
  function ApplyContextAdjustments(stats: Scores, ctx: Context): (r: Adjusted)
    ensures |r.warnings| <= 3
    ensures UntouchedKept(r.scores, stats)
    ensures InRange(stats) ==> InRange(r.scores) && NoneHigher(r.scores, stats)
  {
    var sellerBand := ExtractAgeBand(ctx.sellerInfo);
    var buyerBand := ExtractAgeBand(ctx.buyerInfo);
    var channelText := ToLower(ctx.salesChannel);
    var buyerIncome := ExtractMonthlyIncome(ctx.buyerInfo);
    var priceValue := ParsePriceValue(Text(ctx.price));
    var a1 := AgeGapRule(stats, sellerBand, buyerBand);
    var a2 := ChannelRule(a1.scores, buyerBand, channelText);
    var a3 := PriceRule(a2.scores, buyerIncome, priceValue);
    Adjusted(a3.scores, a1.warnings + a2.warnings + a3.warnings)
  }

  /** How far the rules together can lower each stat of an in-range table.
      Marketing loses at most 8 + 20, not 8 + 20 + 15, because the two
      channel rules never both fire. */
  lemma AdjustmentBounds(stats: Scores, ctx: Context)
    requires InRange(stats)
    ensures var out := ApplyContextAdjustments(stats, ctx).scores;
      && out.founder >= stats.founder - 12
      && out.strategy >= stats.strategy - 10
      && out.marketing >= stats.marketing - 28
      && out.distribution >= stats.distribution - 15
      && out.potentialCustomers >= stats.potentialCustomers - 30
      && out.priceFit >= stats.priceFit - 30
      && out.consumerNeeds >= stats.consumerNeeds - 20
  {
    RuleBounds(stats, ExtractAgeBand(ctx.sellerInfo), ExtractAgeBand(ctx.buyerInfo),
               ToLower(ctx.salesChannel), ExtractMonthlyIncome(ctx.buyerInfo),
               ParsePriceValue(Text(ctx.price)));
  }

  /** `AdjustmentBounds` for any extracted bands, channel text, income and
      price. */
  lemma RuleBounds(stats: Scores, seller: Option<AgeBand>, buyer: Option<AgeBand>,
                   channelText: string, income: Option<real>, price: Option<real>)
    requires InRange(stats)
    requires buyer.Some? ==> buyer.value.min <= buyer.value.max
    ensures var a1 := AgeGapRule(stats, seller, buyer);
      var a2 := ChannelRule(a1.scores, buyer, channelText);
      var out := PriceRule(a2.scores, income, price).scores;
      && out.founder >= stats.founder - 12
      && out.strategy >= stats.strategy - 10
      && out.marketing >= stats.marketing - 28
      && out.distribution >= stats.distribution - 15
      && out.potentialCustomers >= stats.potentialCustomers - 30
      && out.priceFit >= stats.priceFit - 30
      && out.consumerNeeds >= stats.consumerNeeds - 20
  {
    var a1 := AgeGapRule(stats, seller, buyer);
    var a2 := ChannelRule(a1.scores, buyer, channelText);
    if buyer.Some? {
      SeniorAndYoungExclusive(buyer.value);
    }
    assert a2.scores.marketing >= a1.scores.marketing - 20;
  }

  /** Without any context nothing changes and nothing is reported. */
  lemma EmptyContextChangesNothing(stats: Scores)
    ensures ApplyContextAdjustments(stats, Context("", "", "", "")) == Adjusted(stats, [])
  {
    assert NoDigits(RemoveCommas(""));
  }

  /** The affordability ratio grows with the price. */
  lemma AffordabilityMonotone(p1: real, p2: real, income: real)
    requires p1 <= p2
    ensures Affordability(p1, income) <= Affordability(p2, income)
  {
  }

  /** A dearer price never raises a stat. */
  lemma PriceRuleMonotone(s: Scores, income: real, p1: real, p2: real)
    requires InRange(s) && p1 <= p2
    ensures NoneHigher(PriceRule(s, Some(income), Some(p2)).scores, PriceRule(s, Some(income), Some(p1)).scores)
  {
    AffordabilityMonotone(p1, p2, income);
  }

  /** Without a sales channel the channel rule does nothing. */
  lemma NoChannelNoChannelRule(s: Scores, buyer: Option<AgeBand>)
    requires buyer.Some? ==> buyer.value.min <= buyer.value.max
    ensures ChannelRule(s, buyer, "") == Adjusted(s, [])
  {
    EmptyNamesNoYouthChannel();
    EmptyNamesNoSeniorChannel();
    NoChannelWordNoChannelRule(s, buyer, "");
  }

  /** A channel text naming none of the listed channels fires neither
      channel check. */
  lemma NoChannelWordNoChannelRule(s: Scores, buyer: Option<AgeBand>, channelText: string)
    requires buyer.Some? ==> buyer.value.min <= buyer.value.max
    requires !ContainsAny(channelText, YouthChannels()) && !ContainsAny(channelText, SeniorChannels())
    ensures ChannelRule(s, buyer, channelText) == Adjusted(s, [])
  {
  }

  // The channel lists hold no empty name.
  lemma EmptyNamesNoYouthChannel()
    ensures !ContainsAny("", YouthChannels())
  {
    EmptyContainsNone(YouthChannels());
  }

  lemma EmptyNamesNoSeniorChannel()
    ensures !ContainsAny("", SeniorChannels())
  {
    EmptyContainsNone(SeniorChannels());
  }

  /** "50대" and "10대" read as the fifties and the teens. */
  lemma FiftiesAndTeensBands()
    ensures ExtractAgeBand("50대") == Some(AgeBand(50, 59, "50대"))
    ensures ExtractAgeBand("10대") == Some(AgeBand(10, 19, "10대"))
  {
    DecadeLiteral(50, "50대");
    DecadeLiteral(10, "10대");
  }

  lemma DecadeLiteral(d: nat, text: string)
    requires 10 <= d <= 90 && text == ShowNat(d) + "대"
    ensures ExtractAgeBand(text) == Some(DecadeBand(d))
  {
    DecadeRoundTrip(d);
  }

  /** Seller and buyer bands thirty or more years apart, with no channel and
      no price: only the large-gap penalties and warning. */
  lemma LargeGapOnly(stats: Scores, ctx: Context, seller: AgeBand, buyer: AgeBand)
    requires InRange(stats)
    requires ExtractAgeBand(ctx.sellerInfo) == Some(seller)
    requires ExtractAgeBand(ctx.buyerInfo) == Some(buyer)
    requires AbsReal(Midpoint(seller) - Midpoint(buyer)) >= 30.0
    requires ctx.salesChannel == "" && ctx.price == ""
    ensures var r := ApplyContextAdjustments(stats, ctx);
      && r.scores == stats.(founder := Max(0, stats.founder - 12),
                            strategy := Max(0, stats.strategy - 10),
                            marketing := Max(0, stats.marketing - 8))
      && r.warnings == [GenerationGapLarge(seller.labelText, buyer.labelText)]
  {
    assert ToLower("") == "";
    assert ParsePriceValue(Text("")).None? by {
      assert NoDigits(RemoveCommas(""));
    }
    LargeGapAlone(stats, seller, buyer, ExtractMonthlyIncome(ctx.buyerInfo));
  }

  /** The three rules on a large gap, no channel text and no price. */
  lemma LargeGapAlone(stats: Scores, seller: AgeBand, buyer: AgeBand, income: Option<real>)
    requires InRange(stats) && buyer.min <= buyer.max
    requires AbsReal(Midpoint(seller) - Midpoint(buyer)) >= 30.0
    ensures var a1 := AgeGapRule(stats, Some(seller), Some(buyer));
      var a2 := ChannelRule(a1.scores, Some(buyer), "");
      var a3 := PriceRule(a2.scores, income, None);
      var expected := stats.(founder := Max(0, stats.founder - 12),
                             strategy := Max(0, stats.strategy - 10),
                             marketing := Max(0, stats.marketing - 8));
      && a3.scores == expected
      && a1.warnings + a2.warnings + a3.warnings == [GenerationGapLarge(seller.labelText, buyer.labelText)]
  {
    var expected := stats.(founder := Max(0, stats.founder - 12),
                           strategy := Max(0, stats.strategy - 10),
                           marketing := Max(0, stats.marketing - 8));
    ClampRoundOfInt(stats.founder - 12);
    ClampRoundOfInt(stats.strategy - 10);
    ClampRoundOfInt(stats.marketing - 8);
    var a1 := AgeGapRule(stats, Some(seller), Some(buyer));
    assert a1 == Adjusted(expected, [GenerationGapLarge(seller.labelText, buyer.labelText)]);
    NoChannelNoChannelRule(a1.scores, Some(buyer));
  }

  /** A founder in their fifties selling to teenagers: the large-gap
      penalties and warning. */
  lemma FiftiesSellingToTeens(stats: Scores)
    requires InRange(stats)
    ensures var r := ApplyContextAdjustments(stats, Context("50대", "10대", "", ""));
      && r.scores == stats.(founder := Max(0, stats.founder - 12),
                            strategy := Max(0, stats.strategy - 10),
                            marketing := Max(0, stats.marketing - 8))
      && r.warnings == [GenerationGapLarge("50대", "10대")]
  {
    FiftiesAndTeensBands();
    LargeGapOnly(stats, Context("50대", "10대", "", ""), AgeBand(50, 59, "50대"), AgeBand(10, 19, "10대"));
  }

  /** The buyer text "30대 월 300만원" is read as a monthly income of 30, its
      age decade, so any price of 15 or more counts as at least half the
      income and draws the strongest price penalty. */
  lemma ThirtiesBuyerFlagsAnyPrice(stats: Scores, ctx: Context, price: real)
    requires ctx.buyerInfo == "30대 월 300만원"
    requires ParsePriceValue(Text(ctx.price)) == Some(price) && price >= 15.0
    ensures PriceFarAboveIncome in ApplyContextAdjustments(stats, ctx).warnings
  {
    ThirtiesReadAsIncome();
    HalfOfIncomeFlagged(stats, ctx, 30.0, price);
  }

  /** A price of at least half the buyer's income always ends with the
      strongest price warning, whatever the other rules raise. */
  lemma HalfOfIncomeFlagged(stats: Scores, ctx: Context, income: real, price: real)
    requires ExtractMonthlyIncome(ctx.buyerInfo) == Some(income) && income >= 1.0
    requires ParsePriceValue(Text(ctx.price)) == Some(price) && price >= 0.5 * income
    ensures PriceFarAboveIncome in ApplyContextAdjustments(stats, ctx).warnings
  {
    var a2 := ChannelRule(AgeGapRule(stats, ExtractAgeBand(ctx.sellerInfo), ExtractAgeBand(ctx.buyerInfo)).scores,
                          ExtractAgeBand(ctx.buyerInfo), ToLower(ctx.salesChannel));
    HalfAffordable(price, income);
    assert PriceRule(a2.scores, Some(income), Some(price)).warnings == [PriceFarAboveIncome];
  }

  lemma HalfAffordable(price: real, income: real)
    requires income >= 1.0 && price >= 0.5 * income
    ensures Affordability(price, income) >= 0.5
  {
    var a := price / income;
    assert a * income == price;
    if a < 0.5 {
      assert (0.5 - a) * income > 0.0;
    }
  }

  /** Read with the age skipped, the same buyer earns 3,000,000 a month, and
      a price below 600,000 draws no price warning at all. */
  lemma ThirtiesIncomeSparesModestPrices(s: Scores, price: real)
    requires price < 600000.0
    ensures PriceRule(s, ExtractIncomeSkippingAges("30대 월 300만원"), Some(price)).warnings == []
  {
    ThirtiesIncomeSkippingAge();
    BelowFifthOfIncome(s, 3000000.0, price);
  }

  /** A price under a fifth of the income draws no warning. */
  lemma BelowFifthOfIncome(s: Scores, income: real, price: real)
    requires income >= 1.0 && price < 0.2 * income
    ensures PriceRule(s, Some(income), Some(price)).warnings == []
  {
  }
}
