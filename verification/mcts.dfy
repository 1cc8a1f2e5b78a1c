/**
 The stage-survival simulator of lib/mcts.ts (`StartupMCTS`).

 Despite its name it performs no tree search: each of `iterations` trials walks
 the five stages and dies at the first stage whose random draw exceeds that
 stage's survival probability. The probability of a stage is the weighted mean
 of the stats with positive weight in that stage, divided by 100 and multiplied
 by a fixed stage difficulty.
 */
module Mcts {
  import opened Wrappers
  import opened Numbers
  import opened Stages

  /** Every stat key the simulator or its caller can supply. `PriceFit` and
      `BusinessModelFit` are in the route's final stats but weighted by no stage;
      `Monetization` is weighted but never in those stats. */
  datatype StatKey =
    | Product | Founder | Strategy | Marketing | ConsumerNeeds | ConceptFit
    | Monetization | PriceFit | BusinessModelFit | Distribution | MarketScope
    | PotentialCustomers

  /** `Partial<Stats>`: each present key holds `Number(value)`. */
  type Stats = map<StatKey, Num>

  /** An absent key reads as `undefined`, and `Number(undefined)` is NaN. */
  function Lookup(stats: Stats, k: StatKey): Num {
    if k in stats then stats[k] else NonFinite
  }

  /** `clamp0to100(v, fallback)`: the fallback for a non-finite value, else
      the nearest integer score in [0,100]. */
  function Clamp0To100(v: Num, fallback: int): (r: int)
    ensures v.NonFinite? ==> r == fallback
    ensures v.Finite? ==> NearestScore(v.value, r)
  {
    match v
    case NonFinite => fallback
    case Finite(x) => ClampRound(x)
  }

  /** The score a stage reads for a key: missing or non-numeric counts as 50. */
  function StatScore(stats: Stats, k: StatKey): (s: int)
    ensures 0 <= s <= 100
  {
    Clamp0To100(Lookup(stats, k), 50)
  }

  datatype Band = Tiny | Niche | Mid | Broad | Mass

  /** The lowest score of each band above `Tiny`. */
  function BandFloor(b: Band): int
    requires b != Tiny
  {
    match b
    case Niche => 30
    case Mid => 45
    case Broad => 60
    case Mass => 80
  }

  /** The band just above `b`. */
  function NextBand(b: Band): Band
    requires b != Mass
  {
    match b
    case Tiny => Niche
    case Niche => Mid
    case Mid => Broad
    case Broad => Mass
  }

  function BandRank(b: Band): nat {
    match b
    case Tiny => 0
    case Niche => 1
    case Mid => 2
    case Broad => 3
    case Mass => 4
  }

  /** `audienceBand`: the highest band whose floor the score reaches. */
  function AudienceBand(score: int): (b: Band)
    ensures b != Tiny ==> BandFloor(b) <= score
    ensures b != Mass ==> score < BandFloor(NextBand(b))
  {
    if score >= 80 then Mass
    else if score >= 60 then Broad
    else if score >= 45 then Mid
    else if score >= 30 then Niche
    else Tiny
  }

  /** A higher score never lands in a lower band. */
  lemma AudienceBandMonotone(s1: int, s2: int)
    requires s1 <= s2
    ensures BandRank(AudienceBand(s1)) <= BandRank(AudienceBand(s2))
  {
  }

  /** One entry of a stage's weight table, the weight in hundredths (`0.16`
      is 16). A common scale of all weights leaves every weighted mean as it
      is, and integer weights keep the sums exact. */
  datatype WeightEntry = WeightEntry(key: StatKey, weight: int)

  /** The stage weight tables, each in its literal key order. */
  function StageWeights(stage: Stage): seq<WeightEntry> {
    match stage
    case Seed => [
      WeightEntry(Founder, 20), WeightEntry(ConceptFit, 16), WeightEntry(Monetization, 16),
      WeightEntry(ConsumerNeeds, 18), WeightEntry(Product, 12), WeightEntry(PotentialCustomers, 10),
      WeightEntry(Strategy, 5), WeightEntry(Distribution, 2), WeightEntry(Marketing, 1),
      WeightEntry(MarketScope, 0)]
    case MVP => [
      WeightEntry(Founder, 14), WeightEntry(ConceptFit, 14), WeightEntry(Monetization, 14),
      WeightEntry(ConsumerNeeds, 18), WeightEntry(Product, 14), WeightEntry(Distribution, 10),
      WeightEntry(PotentialCustomers, 8), WeightEntry(Marketing, 6), WeightEntry(Strategy, 2),
      WeightEntry(MarketScope, 0)]
    case PMF => [
      WeightEntry(ConsumerNeeds, 18), WeightEntry(Product, 16), WeightEntry(Distribution, 16),
      WeightEntry(Marketing, 14), WeightEntry(Monetization, 14), WeightEntry(ConceptFit, 10),
      WeightEntry(PotentialCustomers, 8), WeightEntry(Strategy, 4), WeightEntry(Founder, 0),
      WeightEntry(MarketScope, 0)]
    case ScaleUp => [
      WeightEntry(Strategy, 20), WeightEntry(Marketing, 20), WeightEntry(MarketScope, 14),
      WeightEntry(Distribution, 14), WeightEntry(Monetization, 10), WeightEntry(PotentialCustomers, 10),
      WeightEntry(Product, 6), WeightEntry(ConceptFit, 4), WeightEntry(ConsumerNeeds, 2),
      WeightEntry(Founder, 0)]
    case Unicorn => [
      WeightEntry(Marketing, 22), WeightEntry(Strategy, 20), WeightEntry(MarketScope, 18),
      WeightEntry(Distribution, 12), WeightEntry(PotentialCustomers, 12), WeightEntry(Monetization, 8),
      WeightEntry(Product, 4), WeightEntry(ConceptFit, 2), WeightEntry(ConsumerNeeds, 2),
      WeightEntry(Founder, 0)]
  }

  /** The fixed difficulty multiplier of each stage. */
  function Difficulty(stage: Stage): (d: real)
    ensures 0.0 < d <= 1.0
  {
    match stage
    case Seed => 0.70
    case MVP => 0.60
    case PMF => 0.50
    case ScaleUp => 0.42
    case Unicorn => 0.34
  }

  /** The weighted score and the weight used, over entries of positive weight. */
  datatype Totals = Totals(score: int, weightSum: int)

  /** The loop of `getSurvivalProb`: entries with weight <= 0 are skipped. */
  function WeightedTotals(stats: Stats, entries: seq<WeightEntry>): (t: Totals)
    ensures 0 <= t.weightSum
    ensures 0 <= t.score <= 100 * t.weightSum
  {
    if |entries| == 0 then Totals(0, 0)
    else
      var rest := WeightedTotals(stats, entries[1..]);
      var e := entries[0];
      if e.weight <= 0 then rest
      else
        ScoreTimesWeight(StatScore(stats, e.key), e.weight);
        Totals(StatScore(stats, e.key) * e.weight + rest.score, e.weight + rest.weightSum)
  }

  lemma ScoreTimesWeight(s: int, w: int)
    requires 0 <= s <= 100 && 0 < w
    ensures 0 <= s * w <= 100 * w
  {
  }

  lemma MulLe(a: int, b: int, w: int)
    requires a <= b && 0 < w
    ensures a * w <= b * w
  {
  }

  lemma DistributeScore(c: int, w: int, ws: int)
    ensures c * w + c * ws == c * (w + ws)
  {
  }

  /** The sum of the positive weights of a table, independent of the stats. */
  function PositiveWeightSum(entries: seq<WeightEntry>): int {
    if |entries| == 0 then 0
    else (if entries[0].weight <= 0 then 0 else entries[0].weight) + PositiveWeightSum(entries[1..])
  }

  lemma {:induction false} WeightSumIndependentOfStats(stats: Stats, entries: seq<WeightEntry>)
    ensures WeightedTotals(stats, entries).weightSum == PositiveWeightSum(entries)
  {
    if |entries| > 0 {
      WeightSumIndependentOfStats(stats, entries[1..]);
    }
  }

  // One table at a time: each sum is a closed computation.
  lemma SeedWeightsSum() ensures PositiveWeightSum(StageWeights(Seed)) == 100 {}
  lemma MvpWeightsSum() ensures PositiveWeightSum(StageWeights(MVP)) == 100 {}
  lemma PmfWeightsSum() ensures PositiveWeightSum(StageWeights(PMF)) == 100 {}
  lemma ScaleUpWeightsSum() ensures PositiveWeightSum(StageWeights(ScaleUp)) == 100 {}
  lemma UnicornWeightsSum() ensures PositiveWeightSum(StageWeights(Unicorn)) == 100 {}

  /** Every stage's weights add up to 1.0 (100 hundredths). */
  lemma StageWeightsSumToOne(stats: Stats, stage: Stage)
    ensures WeightedTotals(stats, StageWeights(stage)).weightSum == 100
  {
    WeightSumIndependentOfStats(stats, StageWeights(stage));
    match stage
    case Seed => SeedWeightsSum();
    case MVP => MvpWeightsSum();
    case PMF => PmfWeightsSum();
    case ScaleUp => ScaleUpWeightsSum();
    case Unicorn => UnicornWeightsSum();
  }

  /** `getSurvivalProb`: the weighted mean score over 100, times the stage's
      difficulty, kept within [0,1]. */
  function SurvivalProb(stats: Stats, stage: Stage): (p: real)
    ensures 0.0 <= p <= Difficulty(stage)
  {
    ProbOf(WeightedTotals(stats, StageWeights(stage)), Difficulty(stage))
  }

  /** The arithmetic after the loop of `getSurvivalProb`. */
  function ProbOf(t: Totals, difficulty: real): (p: real)
    requires 0 <= t.weightSum && 0 <= t.score <= 100 * t.weightSum
    requires 0.0 < difficulty <= 1.0
    ensures 0.0 <= p <= difficulty
  {
    var normalized := if t.weightSum > 0 then t.score as real / t.weightSum as real else 0.0;
    MeanBound(t.score, t.weightSum);
    var base := normalized / 100.0;
    FractionOf(base, difficulty);
    var p := base * difficulty;
    assert 0.0 <= p <= difficulty;
    MaxReal(0.0, MinReal(1.0, p))
  }

  lemma FractionOf(base: real, d: real)
    requires 0.0 <= base <= 1.0 && 0.0 <= d
    ensures 0.0 <= base * d <= d
  {
    assert d - base * d == (1.0 - base) * d;
  }

  lemma MeanBound(score: int, weightSum: int)
    requires 0 <= weightSum && 0 <= score <= 100 * weightSum
    ensures weightSum > 0 ==> 0.0 <= score as real / weightSum as real <= 100.0
  {
  }

  /** With weights adding up to one the clamp never bites: the probability is
      the weighted total, read in hundredths of hundredths, times the
      difficulty. */
  lemma ProbOfFullWeight(t: Totals, difficulty: real)
    requires t.weightSum == 100 && 0 <= t.score <= 100 * t.weightSum
    requires 0.0 < difficulty <= 1.0
    ensures ProbOf(t, difficulty) == t.score as real / 10000.0 * difficulty
  {
    var base := t.score as real / 10000.0;
    assert t.score as real / t.weightSum as real / 100.0 == base;
    FractionOf(base, difficulty);
  }

  /** The survival probability is the stage difficulty times the weighted
      mean score. */
  lemma SurvivalProbIsScaledMean(stats: Stats, stage: Stage)
    ensures SurvivalProb(stats, stage)
         == WeightedTotals(stats, StageWeights(stage)).score as real / 10000.0 * Difficulty(stage)
  {
    ScaledMeanOf(stats, stage, WeightedTotals(stats, StageWeights(stage)), Difficulty(stage));
  }

  /** `SurvivalProbIsScaledMean` with the totals and the difficulty named. */
  lemma ScaledMeanOf(stats: Stats, stage: Stage, t: Totals, d: real)
    requires t == WeightedTotals(stats, StageWeights(stage)) && d == Difficulty(stage)
    ensures SurvivalProb(stats, stage) == t.score as real / 10000.0 * d
  {
    StageWeightsSumToOne(stats, stage);
    ProbOfFullWeight(t, d);
  }

  /** Survival probability per stage, in `StageOrder`. */
  function Probs(stats: Stats): (probs: seq<real>)
    ensures IsStageTable(probs)
    ensures forall s :: probs[Index(s)] == SurvivalProb(stats, s)
  {
    seq(StageCount, i requires 0 <= i < StageCount => SurvivalProb(stats, StageOrder[i]))
  }

  /** One table's scores are at most another's on every key a weight table
      reads. */
  predicate ScoresAtMost(s1: Stats, s2: Stats, entries: seq<WeightEntry>) {
    forall i :: 0 <= i < |entries| ==> StatScore(s1, entries[i].key) <= StatScore(s2, entries[i].key)
  }

  lemma {:induction false} WeightedTotalsMonotone(s1: Stats, s2: Stats, entries: seq<WeightEntry>)
    requires ScoresAtMost(s1, s2, entries)
    ensures WeightedTotals(s1, entries).weightSum == WeightedTotals(s2, entries).weightSum
    ensures WeightedTotals(s1, entries).score <= WeightedTotals(s2, entries).score
  {
    if |entries| > 0 {
      assert ScoresAtMost(s1, s2, entries[1..]) by {
        forall i | 0 <= i < |entries[1..]|
          ensures StatScore(s1, entries[1..][i].key) <= StatScore(s2, entries[1..][i].key)
        {
          assert entries[1..][i] == entries[i + 1];
        }
      }
      WeightedTotalsMonotone(s1, s2, entries[1..]);
      var e := entries[0];
      if e.weight > 0 {
        MulLe(StatScore(s1, e.key), StatScore(s2, e.key), e.weight);
      }
    }
  }

  /** Higher stats never lower a stage's survival probability. */
  lemma SurvivalProbMonotone(s1: Stats, s2: Stats, stage: Stage)
    requires forall k :: StatScore(s1, k) <= StatScore(s2, k)
    ensures SurvivalProb(s1, stage) <= SurvivalProb(s2, stage)
  {
    var e := StageWeights(stage);
    AtMostOnEveryTable(s1, s2, e);
    WeightedTotalsMonotone(s1, s2, e);
    ProbOfTotalsLe(s1, s2, stage, WeightedTotals(s1, e), WeightedTotals(s2, e), Difficulty(stage));
  }

  lemma AtMostOnEveryTable(s1: Stats, s2: Stats, entries: seq<WeightEntry>)
    requires forall k :: StatScore(s1, k) <= StatScore(s2, k)
    ensures ScoresAtMost(s1, s2, entries)
  {
  }

  /** A larger weighted total gives a larger survival probability. */
  lemma ProbOfTotalsLe(s1: Stats, s2: Stats, stage: Stage, t1: Totals, t2: Totals, d: real)
    requires t1 == WeightedTotals(s1, StageWeights(stage))
    requires t2 == WeightedTotals(s2, StageWeights(stage))
    requires d == Difficulty(stage) && t1.score <= t2.score
    ensures SurvivalProb(s1, stage) <= SurvivalProb(s2, stage)
  {
    StageWeightsSumToOne(s1, stage);
    StageWeightsSumToOne(s2, stage);
    ProbOfMonotone(t1, t2, d);
  }

  /** With the full weight used, `getSurvivalProb`'s arithmetic is monotone
      in the weighted total. */
  lemma ProbOfMonotone(t1: Totals, t2: Totals, d: real)
    requires t1.weightSum == 100 && t2.weightSum == 100
    requires 0 <= t1.score <= t2.score <= 10000
    requires 0.0 < d <= 1.0
    ensures ProbOf(t1, d) <= ProbOf(t2, d)
  {
    var a, b := t1.score as real / 10000.0, t2.score as real / 10000.0;
    ProbOfFullWeight(t1, d);
    ProbOfFullWeight(t2, d);
    ScaleLe(a, b, d, ProbOf(t1, d), ProbOf(t2, d));
  }

  lemma ScaleLe(a: real, b: real, d: real, x: real, y: real)
    requires a <= b && 0.0 <= d && x == a * d && y == b * d
    ensures x <= y
  {
    assert y - x == (b - a) * d;
  }

  /** Raising one finite stat never lowers any stage's survival probability. */
  lemma RaisingOneStatHelps(stats: Stats, k: StatKey, a: real, b: real, stage: Stage)
    requires Lookup(stats, k) == Finite(a) && a <= b
    ensures SurvivalProb(stats, stage) <= SurvivalProb(stats[k := Finite(b)], stage)
  {
    var s2 := stats[k := Finite(b)];
    forall j ensures StatScore(stats, j) <= StatScore(s2, j) {
      if j == k {
        ClampRoundMonotone(a, b);
      }
    }
    SurvivalProbMonotone(stats, s2, stage);
  }

  /** A stat that is missing reads exactly like a stat of 50. */
  lemma MissingStatCountsAsFifty(stats: Stats, k: StatKey, stage: Stage)
    ensures SurvivalProb(stats - {k}, stage) == SurvivalProb(stats[k := Finite(50.0)], stage)
  {
    var s1 := stats - {k};
    var s2 := stats[k := Finite(50.0)];
    forall j ensures StatScore(s1, j) == StatScore(s2, j) {
      if j == k {
        ClampRoundOfInt(50);
      }
    }
    SurvivalProbMonotone(s1, s2, stage);
    SurvivalProbMonotone(s2, s1, stage);
  }

  /** Every stat reads the same score `c`: the weighted total is `c` times the
      weight used. */
  lemma {:induction false} UniformTotals(stats: Stats, entries: seq<WeightEntry>, c: int)
    requires forall k :: StatScore(stats, k) == c
    ensures WeightedTotals(stats, entries).score == c * WeightedTotals(stats, entries).weightSum
  {
    if |entries| > 0 {
      UniformTotals(stats, entries[1..], c);
      var e := entries[0];
      var rest := WeightedTotals(stats, entries[1..]);
      if e.weight > 0 {
        assert StatScore(stats, e.key) == c;
        DistributeScore(c, e.weight, rest.weightSum);
      }
    }
  }

  /** When every stat is the same score `c`, a stage survives with probability
      `c / 100` times its difficulty. */
  lemma SurvivalProbOfUniformStats(stats: Stats, c: int, stage: Stage)
    requires forall k :: StatScore(stats, k) == c
    ensures SurvivalProb(stats, stage) == c as real / 100.0 * Difficulty(stage)
  {
    var t := WeightedTotals(stats, StageWeights(stage));
    var d := Difficulty(stage);
    UniformTotals(stats, StageWeights(stage), c);
    StageWeightsSumToOne(stats, stage);
    ScaledMeanOf(stats, stage, t, d);
    UniformScaled(t, c, d, SurvivalProb(stats, stage));
  }

  lemma UniformScaled(t: Totals, c: int, d: real, p: real)
    requires t.weightSum == 100 && t.score == c * t.weightSum
    requires p == t.score as real / 10000.0 * d
    ensures p == c as real / 100.0 * d
  {
    assert t.score as real / 10000.0 == c as real / 100.0;
  }

  /** Keys no stage weighs: the route's final stats hold them, the simulator ignores them. */
  predicate Unweighted(k: StatKey) {
    k == PriceFit || k == BusinessModelFit
  }

  lemma UnweightedKeysAreUnread(stage: Stage)
    ensures forall i :: 0 <= i < |StageWeights(stage)| ==> !Unweighted(StageWeights(stage)[i].key)
  {
  }

  /** Changing `priceFit` or `businessModelFit` changes no probability. */
  lemma UnweightedStatsAreIgnored(stats: Stats, k: StatKey, v: Num, stage: Stage)
    requires Unweighted(k)
    ensures SurvivalProb(stats[k := v], stage) == SurvivalProb(stats, stage)
  {
    var w := StageWeights(stage);
    UnweightedKeysAreUnread(stage);
    assert ScoresAtMost(stats, stats[k := v], w) by {
      forall i | 0 <= i < |w| ensures StatScore(stats, w[i].key) <= StatScore(stats[k := v], w[i].key) {
        assert w[i].key != k;
      }
    }
    assert ScoresAtMost(stats[k := v], stats, w) by {
      forall i | 0 <= i < |w| ensures StatScore(stats[k := v], w[i].key) <= StatScore(stats, w[i].key) {
        assert w[i].key != k;
      }
    }
    WeightedTotalsMonotone(stats, stats[k := v], w);
    WeightedTotalsMonotone(stats[k := v], stats, w);
  }

  /** Position `m` holds the largest count, and every later position a strictly
      smaller one: the index `reduce((a, b) => d[a] > d[b] ? a : b)` returns. */
  predicate IsLastArgMax(d: seq<nat>, m: nat) {
    && m < |d|
    && (forall j :: 0 <= j < |d| ==> d[j] <= d[m])
    && (forall j :: m < j < |d| ==> d[j] < d[m])
  }

  /** The reduce over `d[i..]` with accumulator `acc`, which is the last
      position of the maximum of `d[..i]`. */
  function LastMaxFrom(d: seq<nat>, acc: nat, i: nat): (m: nat)
    requires acc < i <= |d|
    requires forall j :: 0 <= j < i ==> d[j] <= d[acc]
    requires forall j :: acc < j < i ==> d[j] < d[acc]
    ensures IsLastArgMax(d, m)
    decreases |d| - i
  {
    if i == |d| then acc
    else LastMaxFrom(d, if d[acc] > d[i] then acc else i, i + 1)
  }

  /** The bottleneck stage: the stage with the most deaths, the later one on a tie. */
  function Bottleneck(deaths: seq<nat>): (s: Stage)
    requires |deaths| == StageCount
    ensures IsLastArgMax(deaths, Index(s))
  {
    StageOrder[LastMaxFrom(deaths, 0, 1)]
  }

  /** At most one position is the last position of the maximum. */
  lemma LastArgMaxUnique(d: seq<nat>, m1: nat, m2: nat)
    requires IsLastArgMax(d, m1) && IsLastArgMax(d, m2)
    ensures m1 == m2
  {
    assert d[m1] <= d[m2] && d[m2] <= d[m1];
  }

  /** With no deaths at all every stage ties, and the reduce reports the last
      stage. */
  lemma NoDeathsReportUnicorn()
    ensures Bottleneck([0, 0, 0, 0, 0]) == Unicorn
  {
    var d: seq<nat> := [0, 0, 0, 0, 0];
    assert IsLastArgMax(d, 4);
    LastArgMaxUnique(d, Index(Bottleneck(d)), 4);
  }

  /** When only `Seed` has deaths it is the bottleneck. */
  lemma SeedOnlyDeathsReportSeed(n: nat)
    requires 0 < n
    ensures Bottleneck([n, 0, 0, 0, 0]) == Seed
  {
    var d: seq<nat> := [n, 0, 0, 0, 0];
    assert IsLastArgMax(d, 0);
    LastArgMaxUnique(d, Index(Bottleneck(d)), 0);
  }

  /** The record `run` returns (the snake_case fields; the camelCase copies
      repeat the same values). */
  datatype SimResult = SimResult(
    survivalRate: Num,
    deathCounts: seq<nat>,
    bottleneck: Stage,
    potentialCustomersScore: int,
    potentialCustomersBand: Band)

  /** `run`: `iterations` trials on the random stream `draws`. The loop runs
      no trial for `iterations <= 0`; then `survivors / iterations` is NaN for
      zero and -0 for a negative count. */
  method Run(iterations: int, stats: Stats, draws: Draws) returns (r: SimResult)
    ensures var n := if iterations < 0 then 0 else iterations;
      var outs := Trials(Probs(stats), draws, 0, n);
      && |r.deathCounts| == StageCount
      && (forall s :: r.deathCounts[Index(s)] == multiset(outs)[Some(s)])
      && r.survivalRate == SurvivalRate(multiset(outs)[None], iterations)
      && Sum(r.deathCounts) + multiset(outs)[None] == n
    ensures IsLastArgMax(r.deathCounts, Index(r.bottleneck))
    ensures r.potentialCustomersScore == StatScore(stats, PotentialCustomers)
    ensures r.potentialCustomersBand == AudienceBand(r.potentialCustomersScore)
  {
    var n: nat := if iterations < 0 then 0 else iterations;
    var deaths, survivors := Tally(Probs(stats), draws, n);
    var score := Clamp0To100(Lookup(stats, PotentialCustomers), 50);
    r := SimResult(SurvivalRate(survivors, iterations), deaths, Bottleneck(deaths), score, AudienceBand(score));
  }

  /** `(survivors / iterations) * 100`: NaN when no trial was asked for, -0
      (equal to 0) for a negative count, a percentage otherwise. */
  function SurvivalRate(survivors: nat, iterations: int): (rate: Num)
    ensures iterations == 0 <==> rate.NonFinite?
    ensures iterations < 0 && survivors == 0 ==> rate == Finite(0.0)
    ensures 0 < iterations && survivors <= iterations ==> rate.Finite? && 0.0 <= rate.value <= 100.0
    ensures 0 < iterations && survivors == 0 ==> rate == Finite(0.0)
    ensures 0 < iterations && survivors == iterations ==> rate == Finite(100.0)
  {
    if iterations == 0 then NonFinite
    else
      RatePercent(survivors, iterations);
      Finite(survivors as real / iterations as real * 100.0)
  }

  lemma RatePercent(survivors: nat, iterations: int)
    requires iterations != 0
    ensures survivors == 0 ==> survivors as real / iterations as real * 100.0 == 0.0
    ensures 0 < iterations && survivors <= iterations
        ==> 0.0 <= survivors as real / iterations as real * 100.0 <= 100.0
    ensures 0 < iterations && survivors == iterations
        ==> survivors as real / iterations as real * 100.0 == 100.0
  {
    if 0 < iterations && survivors <= iterations {
      Ratio(survivors, iterations);
    }
    if survivors as int == iterations {
      assert survivors as real / iterations as real == 1.0;
    }
  }
}
