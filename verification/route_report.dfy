/**
 What app/api/analyze/route.ts derives from the adjusted stats for the
 report: the price-fit correction against a market price range, the three
 weakest factors, and the launch-readiness score.
 */
module RouteReport {
  import opened Wrappers
  import opened Numbers
  import opened RouteValues
  import opened RouteAdjust

  // ---------------------------------------------------------------------
  // Price fit against the market's price range
  // ---------------------------------------------------------------------

  /** The market's price range, `min` and `max` as `Number(...)` sees them. */
  datatype PriceRange = PriceRange(min: Num, max: Num)

  /** The range is used only when both ends are finite, positive and in
      order. */
  predicate UsableRange(range: PriceRange) {
    && range.min.Finite? && range.max.Finite?
    && 0.0 < range.min.value && 0.0 < range.max.value
    && range.min.value <= range.max.value
  }

  /** The penalty: 120 points per unit of relative distance below the
      minimum or above the maximum, a bonus of 5 inside the range. */
  function PricePenalty(p: real, lo: real, hi: real): (penalty: real)
    requires 0.0 < lo <= hi
    ensures lo <= p <= hi <==> penalty == -5.0
    ensures p < lo || hi < p <==> penalty > 0.0
    ensures p < lo ==> penalty * lo == 120.0 * (lo - p)
    ensures hi < p ==> penalty * hi == 120.0 * (p - hi)
  {
    if p < lo then
      RelativeDistance(lo - p, lo);
      (lo - p) / lo * 120.0
    else if p > hi then
      RelativeDistance(p - hi, hi);
      (p - hi) / hi * 120.0
    else -5.0
  }

  /** 120 points per unit of `d / m`, times `m`, is 120 times `d`. */
  lemma RelativeDistance(d: real, m: real)
    requires 0.0 < m
    ensures d / m * 120.0 * m == 120.0 * d
  {
    var q := d / m;
    assert q * m == d;
  }

  /** The adjusted `price_fit`: unchanged without a usable range or a price,
      otherwise `clampScore0to100(price_fit - penalty)`. */
  function AdjustPriceFit(priceFit: int, reference: Option<PriceRange>, price: Option<real>): (r: int)
    ensures reference.None? || price.None? ==> r == priceFit
    ensures reference.Some? && !UsableRange(reference.value) ==> r == priceFit
    ensures reference.Some? && UsableRange(reference.value) && price.Some? ==>
      var lo, hi, p := reference.value.min.value, reference.value.max.value, price.value;
      && IsScore(r)
      && (IsScore(priceFit) && lo <= p <= hi ==> r == Min(100, priceFit + 5))
      && (IsScore(priceFit) && (p < lo || hi < p) ==> r <= priceFit)
  {
    if reference.None? || price.None? then priceFit
    else
      var range := reference.value;
      if !UsableRange(range) then priceFit
      else
        var penalty := PricePenalty(price.value, range.min.value, range.max.value);
        var r := ClampScore0To100(Finite(priceFit as real - penalty));
        assert IsScore(priceFit) && penalty == -5.0 ==> r == Min(100, priceFit + 5) by {
          if penalty == -5.0 {
            assert priceFit as real - penalty == (priceFit + 5) as real;
            ClampRoundOfInt(priceFit + 5);
          }
        }
        assert IsScore(priceFit) && penalty > 0.0 ==> r <= priceFit by {
          if penalty > 0.0 {
            ClampRoundMonotone(priceFit as real - penalty, priceFit as real);
            ClampRoundOfInt(priceFit);
          }
        }
        r
  }

  /** With a usable range and a price, the adjusted fit is the rounded and
      clamped difference of the fit and the penalty. */
  lemma AdjustedByPenalty(priceFit: int, range: PriceRange, p: real)
    requires UsableRange(range)
    ensures AdjustPriceFit(priceFit, Some(range), Some(p))
         == ClampRound(priceFit as real - PricePenalty(p, range.min.value, range.max.value))
  {
  }

  /** A penalty of a whole number `n` of points, that is a price `n / 120`
      of the minimum below it or of the maximum above it, takes exactly `n`
      points off the fit (clamped to [0,100]). */
  lemma WholePointPenalty(priceFit: int, range: PriceRange, p: real, n: int)
    requires UsableRange(range)
    requires || (p < range.min.value && 120.0 * (range.min.value - p) == n as real * range.min.value)
             || (range.max.value < p && 120.0 * (p - range.max.value) == n as real * range.max.value)
    ensures AdjustPriceFit(priceFit, Some(range), Some(p)) == Max(0, Min(100, priceFit - n))
  {
    var lo, hi := range.min.value, range.max.value;
    var penalty := PricePenalty(p, lo, hi);
    if p < lo {
      WholePenaltyBelow(p, lo, hi, n as real);
    } else {
      WholePenaltyAbove(p, lo, hi, n as real);
    }
    AdjustedByPenalty(priceFit, range, p);
    assert priceFit as real - penalty == (priceFit - n) as real;
    ClampRoundOfInt(priceFit - n);
  }

  lemma WholePenaltyBelow(p: real, lo: real, hi: real, n: real)
    requires 0.0 < lo <= hi && p < lo && 120.0 * (lo - p) == n * lo
    ensures PricePenalty(p, lo, hi) == n
  {
    var penalty := PricePenalty(p, lo, hi);
    Cancel(penalty, n, lo);
  }

  lemma WholePenaltyAbove(p: real, lo: real, hi: real, n: real)
    requires 0.0 < lo <= hi && hi < p && 120.0 * (p - hi) == n * hi
    ensures PricePenalty(p, lo, hi) == n
  {
    var penalty := PricePenalty(p, lo, hi);
    Cancel(penalty, n, hi);
  }

  /** A positive factor cancels. */
  lemma Cancel(x: real, y: real, m: real)
    requires 0.0 < m && x * m == y * m
    ensures x == y
  {
    assert (x - y) * m == 0.0;
  }

  /** A price ten percent below the minimum or ten percent above the
      maximum costs twelve points. */
  lemma TenPercentOutsideCostsTwelve(priceFit: int, range: PriceRange)
    requires UsableRange(range)
    ensures AdjustPriceFit(priceFit, Some(range), Some(0.9 * range.min.value)) == Max(0, Min(100, priceFit - 12))
    ensures AdjustPriceFit(priceFit, Some(range), Some(1.1 * range.max.value)) == Max(0, Min(100, priceFit - 12))
  {
    WholePointPenalty(priceFit, range, 0.9 * range.min.value, 12);
    WholePointPenalty(priceFit, range, 1.1 * range.max.value, 12);
  }

  /** Dividing by a positive number keeps the order. */
  lemma DivLe(a: real, b: real, c: real)
    requires a <= b && 0.0 < c
    ensures a / c <= b / c
  {
    var x, y := a / c, b / c;
    assert (y - x) * c == b - a;
  }

  /** Below the minimum the penalty grows as the price falls. */
  lemma PenaltyFallsBelow(p1: real, p2: real, lo: real, hi: real)
    requires 0.0 < lo <= hi && p1 <= p2 <= lo
    ensures PricePenalty(p2, lo, hi) <= PricePenalty(p1, lo, hi)
  {
    if p2 < lo {
      DivLe(lo - p2, lo - p1, lo);
    }
  }

  /** Above the maximum the penalty grows with the price. */
  lemma PenaltyRisesAbove(p1: real, p2: real, lo: real, hi: real)
    requires 0.0 < lo <= hi && hi <= p1 <= p2
    ensures PricePenalty(p1, lo, hi) <= PricePenalty(p2, lo, hi)
  {
    if hi < p1 {
      DivLe(p1 - hi, p2 - hi, hi);
    }
  }

  /** Below the range, a lower price never scores better. */
  lemma PriceFitFallsBelowRange(priceFit: int, range: PriceRange, p1: real, p2: real)
    requires UsableRange(range) && p1 <= p2 <= range.min.value
    ensures AdjustPriceFit(priceFit, Some(range), Some(p1)) <= AdjustPriceFit(priceFit, Some(range), Some(p2))
  {
    var lo, hi := range.min.value, range.max.value;
    PenaltyFallsBelow(p1, p2, lo, hi);
    AdjustedByPenalty(priceFit, range, p1);
    AdjustedByPenalty(priceFit, range, p2);
    ClampRoundMonotone(priceFit as real - PricePenalty(p1, lo, hi), priceFit as real - PricePenalty(p2, lo, hi));
  }

  /** Above the range, a higher price never scores better. */
  lemma PriceFitFallsAboveRange(priceFit: int, range: PriceRange, p1: real, p2: real)
    requires UsableRange(range) && range.max.value <= p1 <= p2
    ensures AdjustPriceFit(priceFit, Some(range), Some(p2)) <= AdjustPriceFit(priceFit, Some(range), Some(p1))
  {
    var lo, hi := range.min.value, range.max.value;
    PenaltyRisesAbove(p1, p2, lo, hi);
    AdjustedByPenalty(priceFit, range, p1);
    AdjustedByPenalty(priceFit, range, p2);
    ClampRoundMonotone(priceFit as real - PricePenalty(p2, lo, hi), priceFit as real - PricePenalty(p1, lo, hi));
  }

  /** A price inside the range always scores at least as well as one
      outside it. */
  lemma InsideRangeBeatsOutside(priceFit: int, range: PriceRange, inside: real, outside: real)
    requires IsScore(priceFit) && UsableRange(range)
    requires range.min.value <= inside <= range.max.value
    requires outside < range.min.value || range.max.value < outside
    ensures AdjustPriceFit(priceFit, Some(range), Some(outside)) <= AdjustPriceFit(priceFit, Some(range), Some(inside))
  {
  }

  /** At a sixth of the minimum, or eleven sixths of the maximum, the
      penalty reaches 100 and the fit is 0 whatever it was. */
  lemma FarOutsideRangeScoresZero(priceFit: int, range: PriceRange, p: real)
    requires IsScore(priceFit) && UsableRange(range)
    requires p <= range.min.value / 6.0 || range.max.value * 11.0 / 6.0 <= p
    ensures AdjustPriceFit(priceFit, Some(range), Some(p)) == 0
  {
    var lo, hi := range.min.value, range.max.value;
    var penalty := PricePenalty(p, lo, hi);
    if p <= lo / 6.0 {
      QuotientAtLeast(lo - p, lo, 5.0 / 6.0);
    } else {
      QuotientAtLeast(p - hi, hi, 5.0 / 6.0);
    }
    assert penalty >= 100.0;
  }

  lemma QuotientAtLeast(a: real, b: real, c: real)
    requires 0.0 < b && c * b <= a
    ensures c <= a / b
  {
    var q := a / b;
    assert q * b == a;
    if q < c {
      assert 0.0 < (c - q) * b;
    }
  }

  // ---------------------------------------------------------------------
  // The three weakest factors
  // ---------------------------------------------------------------------

  /** The factors in the order the report lists them. */
  datatype FactorKey =
    | ConceptFit | PriceFit | BusinessModelFit | Distribution | MarketScope
    | PotentialCustomers | Product | Strategy | Marketing | ConsumerNeeds | Founder

  /** The label the report shows for a factor. */
  function FactorLabel(k: FactorKey): string {
    match k
    case ConceptFit => "컨셉"
    case PriceFit => "가격"
    case BusinessModelFit => "BM"
    case Distribution => "채널/유통"
    case MarketScope => "시장 확장성"
    case PotentialCustomers => "잠재고객"
    case Product => "제품력"
    case Strategy => "전략"
    case Marketing => "마케팅"
    case ConsumerNeeds => "니즈"
    case Founder => "창업자"
  }

  datatype Factor = Factor(key: FactorKey, score: int)

  /** A factor's score in the final stats. */
  function ScoreOf(s: Scores, k: FactorKey): int {
    match k
    case ConceptFit => s.conceptFit
    case PriceFit => s.priceFit
    case BusinessModelFit => s.businessModelFit
    case Distribution => s.distribution
    case MarketScope => s.marketScope
    case PotentialCustomers => s.potentialCustomers
    case Product => s.product
    case Strategy => s.strategy
    case Marketing => s.marketing
    case ConsumerNeeds => s.consumerNeeds
    case Founder => s.founder
  }

  /** The order in which the report lists the factors. */
  function FactorOrder(): seq<FactorKey> {
    [ConceptFit, PriceFit, BusinessModelFit, Distribution, MarketScope,
     PotentialCustomers, Product, Strategy, Marketing, ConsumerNeeds, Founder]
  }

  /** The listed pairs: every factor once, with its score. */
  function Factors(s: Scores): (fs: seq<Factor>)
    ensures |fs| == |FactorOrder()|
    ensures forall i :: 0 <= i < |fs| ==> fs[i] == Factor(FactorOrder()[i], ScoreOf(s, FactorOrder()[i]))
  {
    seq(|FactorOrder()|, i requires 0 <= i < |FactorOrder()| => Factor(FactorOrder()[i], ScoreOf(s, FactorOrder()[i])))
  }

  predicate SortedByScore(xs: seq<Factor>) {
    forall i, j :: 0 <= i < j < |xs| ==> xs[i].score <= xs[j].score
  }

  /** Places `x` before the first element that does not score below it, so
      it stays ahead of the ties that followed it. */
  function Insert(x: Factor, ys: seq<Factor>): (r: seq<Factor>)
    ensures |r| == |ys| + 1
    ensures multiset(r) == multiset{x} + multiset(ys)
    ensures SortedByScore(ys) ==> SortedByScore(r)
  {
    if |ys| == 0 || x.score <= ys[0].score then [x] + ys
    else
      var rest := Insert(x, ys[1..]);
      assert ys == [ys[0]] + ys[1..];
      assert SortedByScore(ys) ==> SortedByScore([ys[0]] + rest) by {
        if SortedByScore(ys) {
          AtLeastByMultiset(rest, x, ys[1..], ys[0].score);
        }
      }
      [ys[0]] + rest
  }

  /** Every element of `xs` scores at least `v`. */
  predicate AtLeast(xs: seq<Factor>, v: int) {
    forall i :: 0 <= i < |xs| ==> v <= xs[i].score
  }

  /** A rearrangement of `x` and `tail` scores at least `v` when they do. */
  lemma AtLeastByMultiset(rest: seq<Factor>, x: Factor, tail: seq<Factor>, v: int)
    requires multiset(rest) == multiset{x} + multiset(tail)
    requires v <= x.score && AtLeast(tail, v)
    ensures AtLeast(rest, v)
  {
    forall k | 0 <= k < |rest| ensures v <= rest[k].score {
      assert rest[k] in multiset(rest);
      if rest[k] != x {
        assert rest[k] in multiset(tail);
        var m :| 0 <= m < |tail| && tail[m] == rest[k];
      }
    }
  }

  /** The engine's stable sort by ascending score. */
  function SortByScore(xs: seq<Factor>): (r: seq<Factor>)
    ensures |r| == |xs|
    ensures multiset(r) == multiset(xs)
    ensures SortedByScore(r)
  {
    if |xs| == 0 then []
    else
      assert xs == [xs[0]] + xs[1..];
      Insert(xs[0], SortByScore(xs[1..]))
  }

  /** The factors scoring `v`, in their order. */
  function WithScore(xs: seq<Factor>, v: int): seq<Factor> {
    if |xs| == 0 then []
    else (if xs[0].score == v then [xs[0]] else []) + WithScore(xs[1..], v)
  }

  lemma {:induction false} WithScoreAppend(a: seq<Factor>, b: seq<Factor>, v: int)
    ensures WithScore(a + b, v) == WithScore(a, v) + WithScore(b, v)
  {
    if |a| > 0 {
      assert (a + b)[1..] == a[1..] + b;
      WithScoreAppend(a[1..], b, v);
    } else {
      assert a + b == b;
    }
  }

  /** Inserting adds `x` ahead of its ties and leaves every other score's
      factors in order. */
  lemma {:induction false} InsertKeepsTies(x: Factor, ys: seq<Factor>, v: int)
    ensures WithScore(Insert(x, ys), v) == WithScore([x], v) + WithScore(ys, v)
  {
    if |ys| == 0 || x.score <= ys[0].score {
      WithScoreAppend([x], ys, v);
    } else {
      InsertKeepsTies(x, ys[1..], v);
      WithScoreAppend([ys[0]], Insert(x, ys[1..]), v);
      assert ys == [ys[0]] + ys[1..];
      WithScoreAppend([ys[0]], ys[1..], v);
    }
  }

  /** The sort is stable: the factors of each score keep their order. */
  lemma {:induction false} SortIsStable(xs: seq<Factor>, v: int)
    ensures WithScore(SortByScore(xs), v) == WithScore(xs, v)
  {
    if |xs| > 0 {
      var x, rest := xs[0], xs[1..];
      var sorted := SortByScore(rest);
      calc {
        WithScore(SortByScore(xs), v);
        WithScore(Insert(x, sorted), v);
        { InsertKeepsTies(x, sorted, v); }
        WithScore([x], v) + WithScore(sorted, v);
        { SortIsStable(rest, v); }
        WithScore([x], v) + WithScore(rest, v);
        { assert xs == [x] + rest; WithScoreAppend([x], rest, v); }
        WithScore(xs, v);
      }
    }
  }

  /** `pairs.sort((a, b) => a.score - b.score).slice(0, 3)`. */
  function WeakestThree(s: Scores): (r: seq<Factor>)
    ensures |r| == 3
    ensures SortedByScore(r)
    ensures forall f :: f in r ==> f in Factors(s)
  {
    var sorted := SortByScore(Factors(s));
    assert forall f :: f in sorted[..3] ==> f in multiset(sorted);
    sorted[..3]
  }

  /** No factor left out of the three scores below any factor in it. */
  lemma WeakestThreeAreWeakest(s: Scores)
    ensures forall f, g :: f in Factors(s) && f !in WeakestThree(s) && g in WeakestThree(s) ==> g.score <= f.score
  {
    var sorted := SortByScore(Factors(s));
    forall f, g | f in Factors(s) && f !in WeakestThree(s) && g in WeakestThree(s)
      ensures g.score <= f.score
    {
      assert f in multiset(sorted);
      var j :| 0 <= j < |sorted| && sorted[j] == f;
      var i :| 0 <= i < 3 && sorted[i] == g;
    }
  }

  /** Among factors with equal scores, those listed first are chosen first. */
  lemma TiesFavourListOrder(s: Scores, v: int)
    ensures WithScore(WeakestThree(s), v) <= WithScore(Factors(s), v)
  {
    var sorted := SortByScore(Factors(s));
    assert sorted == sorted[..3] + sorted[3..];
    WithScoreAppend(sorted[..3], sorted[3..], v);
    SortIsStable(Factors(s), v);
  }

  // ---------------------------------------------------------------------
  // Launch readiness
  // ---------------------------------------------------------------------

  /** `Math.round(0.5 * consumer_needs + 0.25 * distribution + 0.25 *
      business_model_fit)`. */
  function LaunchReadiness(s: Scores): (r: int)
    ensures var lo := Min(s.consumerNeeds, Min(s.distribution, s.businessModelFit));
            var hi := Max(s.consumerNeeds, Max(s.distribution, s.businessModelFit));
            lo <= r <= hi
  {
    var x := 0.5 * s.consumerNeeds as real + 0.25 * s.distribution as real
             + 0.25 * s.businessModelFit as real;
    Round(x)
  }

  /** The same score in integer arithmetic: `(2 * needs + distribution +
      business model + 2) div 4`. */
  lemma LaunchReadinessInIntegers(s: Scores)
    ensures LaunchReadiness(s) == (2 * s.consumerNeeds + s.distribution + s.businessModelFit + 2) / 4
  {
    var n := 2 * s.consumerNeeds + s.distribution + s.businessModelFit;
    var q := (n + 2) / 4;
    var r := LaunchReadiness(s);
    assert 4 * q <= n + 2 < 4 * q + 4;
    assert 4 * r - 2 <= n < 4 * r + 2 by {
      assert 0.5 * s.consumerNeeds as real + 0.25 * s.distribution as real
             + 0.25 * s.businessModelFit as real == n as real / 4.0;
    }
  }

  /** Raising any of the three inputs never lowers the score. */
  lemma LaunchReadinessMonotone(a: Scores, b: Scores)
    requires a.consumerNeeds <= b.consumerNeeds
    requires a.distribution <= b.distribution
    requires a.businessModelFit <= b.businessModelFit
    ensures LaunchReadiness(a) <= LaunchReadiness(b)
  {
    LaunchReadinessInIntegers(a);
    LaunchReadinessInIntegers(b);
  }
}
