/**
 The engine of the earlier Python app (legacy_python/app.py): the score
 clamp `_clamp_0_100` and the class `StartupMCTS` with five stats, its own
 weights and difficulties, and the first-maximum bottleneck.
 */
module Legacy {
  import opened Wrappers
  import opened Numbers
  import opened Stages

  // ---------------------------------------------------------------------
  // _clamp_0_100
  // ---------------------------------------------------------------------

  /** What `float(x)` makes of a value: a finite float, an infinity, NaN, or
      an exception (a non-numeric string, `None`, a list ...). */
  datatype PyValue = Float(x: real) | Infinity | NotANumber | Unconvertible

  /** `r` is `x` truncated toward zero and then kept within [0,100]: 0 for
      everything below 1, 100 for everything from 100 on. */
  predicate TruncatedScore(x: real, r: int) {
    && 0 <= r <= 100
    && (r == 0 <==> x < 1.0)
    && (r == 100 <==> x >= 100.0)
    && (0 < r < 100 ==> r as real <= x < r as real + 1.0)
  }

  /** `_clamp_0_100`: `int(float(x))`, 0 when either conversion raises (an
      infinity overflows `int`, NaN has no integer value), then clamped. */
  function ClampScorePy(v: PyValue): (r: int)
    ensures 0 <= r <= 100
    ensures !v.Float? ==> r == 0
    ensures v.Float? ==> TruncatedScore(v.x, r)
  {
    match v
    case Float(x) => Max(0, Min(100, Trunc(x)))
    case _ => 0
  }

  /** On a finite value the clamp of the route rounds where this one
      truncates, so it is never below and at most one above. */
  lemma RoundingAtMostOneAbove(x: real)
    ensures 0 <= ClampRound(x) - ClampScorePy(Float(x)) <= 1
  {
  }

  /** 49.5 is 50 there and 49 here. */
  lemma HalfRoundsUpButTruncatesDown()
    ensures ClampRound(49.5) == 50
    ensures ClampScorePy(Float(49.5)) == 49
  {
    assert (49.5 + 0.5).Floor == 50;
    assert (49.5).Floor == 49;
  }

  // ---------------------------------------------------------------------
  // The survival probability of a stage
  // ---------------------------------------------------------------------

  /** The five stats the engine reads. */
  datatype LegacyKey = Product | Team | Strategy | Marketing | ConsumerNeeds

  /** The stats handed to the engine; a key may be missing. */
  type LegacyStats = map<LegacyKey, int>

  /** `stats.get(k, 0) or 0`: a missing stat counts as 0. The value is not
      clamped. */
  function Get(stats: LegacyStats, k: LegacyKey): int {
    if k in stats then stats[k] else 0
  }

  /** One entry of a weight table, the weight in hundredths. */
  datatype LegacyWeight = LegacyWeight(key: LegacyKey, weight: nat)

  /** `stage_weights`. */
  function LegacyWeights(stage: Stage): seq<LegacyWeight> {
    match stage
    case Seed => [
      LegacyWeight(Product, 10), LegacyWeight(Team, 35), LegacyWeight(Strategy, 10),
      LegacyWeight(Marketing, 10), LegacyWeight(ConsumerNeeds, 35)]
    case MVP => [
      LegacyWeight(Product, 20), LegacyWeight(Team, 25), LegacyWeight(Strategy, 10),
      LegacyWeight(Marketing, 10), LegacyWeight(ConsumerNeeds, 35)]
    case PMF => [
      LegacyWeight(Product, 20), LegacyWeight(Team, 10), LegacyWeight(Strategy, 20),
      LegacyWeight(Marketing, 20), LegacyWeight(ConsumerNeeds, 30)]
    case ScaleUp => [
      LegacyWeight(Product, 20), LegacyWeight(Team, 20), LegacyWeight(Strategy, 30),
      LegacyWeight(Marketing, 25), LegacyWeight(ConsumerNeeds, 5)]
    case Unicorn => [
      LegacyWeight(Product, 20), LegacyWeight(Team, 10), LegacyWeight(Strategy, 30),
      LegacyWeight(Marketing, 35), LegacyWeight(ConsumerNeeds, 5)]
  }

  /** `stage_difficulty`: Scale-up and Unicorn are harder here than in the
      TypeScript engine. */
  function LegacyDifficulty(stage: Stage): (d: real)
    ensures 0.0 < d <= 1.0
  {
    match stage
    case Seed => 0.70
    case MVP => 0.60
    case PMF => 0.50
    case ScaleUp => 0.40
    case Unicorn => 0.30
  }

  /** `sum(stat * w for k, w in weights.items())`, in hundredths. */
  function WeightedSum(stats: LegacyStats, entries: seq<LegacyWeight>): int {
    if |entries| == 0 then 0
    else Get(stats, entries[0].key) * entries[0].weight + WeightedSum(stats, entries[1..])
  }

  /** `sum(weights.values())`, in hundredths. */
  function WeightSum(entries: seq<LegacyWeight>): nat {
    if |entries| == 0 then 0 else entries[0].weight + WeightSum(entries[1..])
  }

  /** Every table's weights add up to 1.0, and each key appears once. */
  lemma LegacyWeightsSumToOne(stage: Stage)
    ensures WeightSum(LegacyWeights(stage)) == 100
    ensures |LegacyWeights(stage)| == 5
    ensures forall i, j :: 0 <= i < j < 5 ==> LegacyWeights(stage)[i].key != LegacyWeights(stage)[j].key
  {
    var w := LegacyWeights(stage);
    assert WeightSum(w[4..]) == w[4].weight + WeightSum(w[5..]);
    assert WeightSum(w[3..]) == w[3].weight + WeightSum(w[4..]);
    assert WeightSum(w[2..]) == w[2].weight + WeightSum(w[3..]);
    assert WeightSum(w[1..]) == w[1].weight + WeightSum(w[2..]);
  }

  /** `_stage_survival_prob`: the weighted mean over 100, times the
      difficulty, kept within [0,1]. */
  function LegacyProb(stats: LegacyStats, stage: Stage): (p: real)
    ensures 0.0 <= p <= 1.0
  {
    var w := LegacyWeights(stage);
    LegacyWeightsSumToOne(stage);
    var score := WeightedSum(stats, w) as real / WeightSum(w) as real;
    var base := score / 100.0;
    MaxReal(0.0, MinReal(1.0, base * LegacyDifficulty(stage)))
  }

  /** All stats within [0,100]. */
  predicate InRange(stats: LegacyStats) {
    forall k :: 0 <= Get(stats, k) <= 100
  }

  lemma {:induction false} WeightedSumBounds(stats: LegacyStats, entries: seq<LegacyWeight>)
    requires InRange(stats)
    ensures 0 <= WeightedSum(stats, entries) <= 100 * WeightSum(entries)
  {
    if |entries| > 0 {
      WeightedSumBounds(stats, entries[1..]);
      var v, w := Get(stats, entries[0].key), entries[0].weight;
      assert 0 <= v * w <= 100 * w by {
        MulLeNat(v, 100, w);
      }
    }
  }

  lemma MulLeNat(a: int, b: int, w: nat)
    requires 0 <= a <= b
    ensures 0 <= a * w <= b * w
  {
  }

  /** For stats within [0,100] the clamp never bites: the probability is the
      weighted total, read in hundredths of hundredths, times the
      difficulty. */
  lemma LegacyProbInRange(stats: LegacyStats, stage: Stage)
    requires InRange(stats)
    ensures LegacyProb(stats, stage)
         == WeightedSum(stats, LegacyWeights(stage)) as real / 10000.0 * LegacyDifficulty(stage)
    ensures LegacyProb(stats, stage) <= LegacyDifficulty(stage)
  {
    var w := LegacyWeights(stage);
    LegacyWeightsSumToOne(stage);
    WeightedSumBounds(stats, w);
    var base := WeightedSum(stats, w) as real / 10000.0;
    assert WeightedSum(stats, w) as real / WeightSum(w) as real / 100.0 == base;
    assert base * LegacyDifficulty(stage) <= LegacyDifficulty(stage) by {
      var d := LegacyDifficulty(stage);
      assert d - base * d == (1.0 - base) * d;
    }
  }

  /** A stat table that is everywhere at most another gives a weighted sum
      at most the other's. */
  lemma {:induction false} WeightedSumMonotone(s1: LegacyStats, s2: LegacyStats, entries: seq<LegacyWeight>)
    requires forall k :: Get(s1, k) <= Get(s2, k)
    ensures WeightedSum(s1, entries) <= WeightedSum(s2, entries)
  {
    if |entries| > 0 {
      WeightedSumMonotone(s1, s2, entries[1..]);
      var k, w := entries[0].key, entries[0].weight;
      assert Get(s1, k) * w <= Get(s2, k) * w by {
        MulMono(Get(s1, k), Get(s2, k), w);
      }
    }
  }

  lemma MulMono(a: int, b: int, w: nat)
    requires a <= b
    ensures a * w <= b * w
  {
  }

  /** Higher stats never lower any stage's survival probability, whatever
      their range. */
  lemma LegacyProbMonotone(s1: LegacyStats, s2: LegacyStats, stage: Stage)
    requires forall k :: Get(s1, k) <= Get(s2, k)
    ensures LegacyProb(s1, stage) <= LegacyProb(s2, stage)
  {
    var w := LegacyWeights(stage);
    LegacyWeightsSumToOne(stage);
    WeightedSumMonotone(s1, s2, w);
    var a, b := WeightedSum(s1, w) as real / 100.0 / 100.0, WeightedSum(s2, w) as real / 100.0 / 100.0;
    assert a * LegacyDifficulty(stage) <= b * LegacyDifficulty(stage);
  }

  /** A missing stat reads as 0, the same as a stat of 0. */
  lemma MissingStatCountsAsZero(stats: LegacyStats, k: LegacyKey, stage: Stage)
    ensures LegacyProb(stats - {k}, stage) == LegacyProb(stats[k := 0], stage)
  {
    assert forall j :: Get(stats - {k}, j) == Get(stats[k := 0], j);
    LegacyProbMonotone(stats - {k}, stats[k := 0], stage);
    LegacyProbMonotone(stats[k := 0], stats - {k}, stage);
  }

  /** Stats that are all 0 or below never survive a stage. */
  lemma NonPositiveStatsNeverSurvive(stats: LegacyStats, stage: Stage)
    requires forall k :: Get(stats, k) <= 0
    ensures LegacyProb(stats, stage) == 0.0
  {
    var zero: LegacyStats := map[];
    LegacyProbMonotone(stats, zero, stage);
    ZeroStatsNeverSurvive(stage);
  }

  /** Empty stats give every stage probability 0. */
  lemma ZeroStatsNeverSurvive(stage: Stage)
    ensures LegacyProb(map[], stage) == 0.0
  {
    var w := LegacyWeights(stage);
    LegacyWeightsSumToOne(stage);
    ZeroWeightedSum(w);
    assert WeightedSum(map[], w) as real / WeightSum(w) as real == 0.0;
  }

  lemma {:induction false} ZeroWeightedSum(entries: seq<LegacyWeight>)
    ensures WeightedSum(map[], entries) == 0
  {
    if |entries| > 0 {
      ZeroWeightedSum(entries[1..]);
    }
  }

  /** Survival probability per stage, in `STAGES` order. */
  function LegacyProbs(stats: LegacyStats): (probs: seq<real>)
    ensures IsStageTable(probs)
    ensures forall s :: probs[Index(s)] == LegacyProb(stats, s)
  {
    seq(StageCount, i requires 0 <= i < StageCount => LegacyProb(stats, StageOrder[i]))
  }

  /** `_rollout`: the first stage whose draw exceeds its survival
      probability, after surviving every earlier one; `None` when every draw
      is at most its stage's probability. */
  function Rollout(stats: LegacyStats, draws: Draws, pos: nat): (died: Option<Stage>)
    ensures died.Some? ==> draws(pos + Index(died.value)) > LegacyProb(stats, died.value)
    ensures died.Some? ==> forall s :: Index(s) < Index(died.value) ==> draws(pos + Index(s)) <= LegacyProb(stats, s)
    ensures died.None? <==> forall s :: draws(pos + Index(s)) <= LegacyProb(stats, s)
  {
    RolloutByStage(stats, draws, pos);
    Trial(LegacyProbs(stats), draws, pos)
  }

  lemma RolloutByStage(stats: LegacyStats, draws: Draws, pos: nat)
    ensures var died := Trial(LegacyProbs(stats), draws, pos);
      && (died.Some? ==> draws(pos + Index(died.value)) > LegacyProb(stats, died.value))
      && (died.Some? ==> forall s :: Index(s) < Index(died.value) ==> draws(pos + Index(s)) <= LegacyProb(stats, s))
      && (died.None? <==> forall s :: draws(pos + Index(s)) <= LegacyProb(stats, s))
  {
    var probs := LegacyProbs(stats);
    TrialMeaning(probs, draws, pos);
    SurvivesByStage(stats, draws, pos);
  }

  /** Surviving stage `Index(s)` of the table is a draw at most `s`'s
      probability; surviving all five positions is surviving every stage. */
  lemma SurvivesByStage(stats: LegacyStats, draws: Draws, pos: nat)
    ensures forall s :: Survives(LegacyProbs(stats), draws, pos, Index(s)) <==> draws(pos + Index(s)) <= LegacyProb(stats, s)
    ensures (forall i :: 0 <= i < StageCount ==> Survives(LegacyProbs(stats), draws, pos, i))
            <==> (forall s :: draws(pos + Index(s)) <= LegacyProb(stats, s))
  {
    var probs := LegacyProbs(stats);
    if forall s :: draws(pos + Index(s)) <= LegacyProb(stats, s) {
      forall i | 0 <= i < StageCount ensures Survives(probs, draws, pos, i) {
        IndexOfOrder(i);
        assert draws(pos + Index(StageOrder[i])) <= LegacyProb(stats, StageOrder[i]);
      }
    }
  }

  // ---------------------------------------------------------------------
  // run
  // ---------------------------------------------------------------------

  /** Position `m` holds the largest count and every earlier position a
      strictly smaller one: what `max(death_counts, key=death_counts.get)`
      returns over the stages in order. */
  predicate IsFirstArgMax(d: seq<nat>, m: nat) {
    && m < |d|
    && (forall j :: 0 <= j < |d| ==> d[j] <= d[m])
    && (forall j :: 0 <= j < m ==> d[j] < d[m])
  }

  /** `max` keeps its current best unless a later count is strictly
      larger. */
  function FirstMaxFrom(d: seq<nat>, best: nat, i: nat): (m: nat)
    requires best < i <= |d|
    requires forall j :: 0 <= j < i ==> d[j] <= d[best]
    requires forall j :: 0 <= j < best ==> d[j] < d[best]
    ensures IsFirstArgMax(d, m)
    decreases |d| - i
  {
    if i == |d| then best
    else FirstMaxFrom(d, if d[i] > d[best] then i else best, i + 1)
  }

  /** The bottleneck stage: the most deaths, the earlier stage on a tie. */
  function FirstBottleneck(deaths: seq<nat>): (s: Stage)
    requires |deaths| == StageCount
    ensures IsFirstArgMax(deaths, Index(s))
  {
    StageOrder[FirstMaxFrom(deaths, 0, 1)]
  }

  lemma FirstArgMaxUnique(d: seq<nat>, m1: nat, m2: nat)
    requires IsFirstArgMax(d, m1) && IsFirstArgMax(d, m2)
    ensures m1 == m2
  {
    assert d[m1] <= d[m2] && d[m2] <= d[m1];
  }

  /** With no deaths at all every stage ties, and `max` reports the first. */
  lemma NoDeathsReportSeed()
    ensures FirstBottleneck([0, 0, 0, 0, 0]) == Seed
  {
    var d: seq<nat> := [0, 0, 0, 0, 0];
    assert IsFirstArgMax(d, 0);
    FirstArgMaxUnique(d, Index(FirstBottleneck(d)), 0);
  }

  /** What `run` returns. */
  datatype LegacyResult = LegacyResult(survivalRate: real, deathCounts: seq<nat>, bottleneck: Stage)

  /** The exception `run` raises. */
  datatype RunError = ZeroDivision

  /** `run`: `iterations` rollouts (none when it is negative), their tally,
      the bottleneck and the survivor percentage; zero iterations divide by
      zero. */
  method Run(iterations: int, stats: LegacyStats, draws: Draws) returns (r: Result<LegacyResult, RunError>)
    ensures iterations == 0 <==> r.Failure?
    ensures r.Success? ==>
      var n := if iterations < 0 then 0 else iterations;
      var outs := Trials(LegacyProbs(stats), draws, 0, n);
      var res := r.value;
      && |res.deathCounts| == StageCount
      && (forall s :: res.deathCounts[Index(s)] == multiset(outs)[Some(s)])
      && res.survivalRate == multiset(outs)[None] as real / iterations as real * 100.0
      && Sum(res.deathCounts) + multiset(outs)[None] == n
      && IsFirstArgMax(res.deathCounts, Index(res.bottleneck))
    ensures r.Success? ==> (iterations > 0 ==> 0.0 <= r.value.survivalRate <= 100.0)
    ensures r.Success? && iterations < 0 ==> r.value.survivalRate == 0.0
  {
    var n: nat := if iterations < 0 then 0 else iterations;
    var deaths, survivors := Tally(LegacyProbs(stats), draws, n);
    if iterations == 0 {
      return Failure(ZeroDivision);
    }
    var rate := survivors as real / iterations as real * 100.0;
    if iterations > 0 {
      Ratio(survivors, iterations);
    }
    r := Success(LegacyResult(rate, deaths, FirstBottleneck(deaths)));
  }
}
