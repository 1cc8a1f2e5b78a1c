# Startup autopsy: survival simulation and score adjustments

This project models the numeric core of a startup "autopsy" service, in Dafny.
A founder describes a product. A language model turns the description into
eleven 0-100 stats: founder, concept fit, consumer needs, product,
distribution, marketing, strategy, market scope, potential customers, price
fit and business-model fit. The service then changes the stats in three
ways:

- it lowers them for mismatches between seller, buyer, sales channel and price;
- it scores the price against a reference price range;
- it runs a Monte Carlo walk through five stages (Seed, MVP, PMF, Scale-up,
  Unicorn).

The walk reports the survival rate, the deaths at each stage and the
bottleneck stage. The route hands its final stats to `runWithMarket`, a
method lib/mcts.ts does not define, and never calls `run`. `Mcts.Run` models
`run` as the engine those stats would feed. That engine also weighs
monetization, which the stats never hold, so a stage of it always reads
monetization as 50. The report also picks the three weakest factors and a
launch-readiness score. Two more pieces are modelled:

- which language model names to try;
- the earlier Python version of the engine, with its text filter and its
  model-name resolution.

Modules:

- `Wrappers`, `Numbers`, `Text`: `Option`/`Result`, JavaScript numbers
  (`Num`: a finite real or a non-finite value), `Math.round`, Python `int()`,
  and the string operations the regular expressions need.
- `Stages`: the stage order and one trial over an explicit stream of random
  draws. Also the tally of many trials, which both engines share.
- `Mcts`: `lib/mcts.ts` (clamping, audience band, weights, difficulty,
  survival probability, `run`, the bottleneck).
- `RouteValues`, `RouteAudience`, `RouteAdjust`, `RouteReport`,
  `RouteModels`: the helpers and inline computations of
  `app/api/analyze/route.ts`.
- `Legacy`, `LegacyText`: `legacy_python/app.py` (clamp, engine, garbage
  filter, model resolution).
- `Compare`: where the two engines give different answers on the same input.

Randomness is a parameter: `Draws` is a function from a draw's position to
a real number, standing in for `Math.random()` or `random.random()`. The
weights are integer hundredths, so every sum is exact. The
weighted mean does not change when all weights are scaled by the same factor.

Three facts about the engines shape the model:

- survival per stage is linear, `weighted mean / 100 * difficulty` clamped to
  [0, 1]; there is no logistic hurdle;
- the bottleneck is the stage with the largest raw death count, not the
  largest death rate;
- the Python engine reads a `team` stat and does not alias `founder` to it.

## Model

| member | source | states |
|---|---|---|
| Numbers.Round | lib/mcts.ts:26 | `Math.round` gives the integer nearest its argument, with halves rounded up. |
| Numbers.ClampRound | lib/mcts.ts:26 | Rounding and clamping to [0,100] gives the score nearest the value. |
| Numbers.ClampRoundMonotone | lib/mcts.ts:26 | A larger input never gives a smaller clamped score. |
| Numbers.ClampRoundOfInt | app/api/analyze/route.ts:269-271 | On an integer, clamping is `max(0, min(100, v))`, and a score is kept as it is. |
| Numbers.Trunc | legacy_python/app.py:330 | Python `int()` drops the fraction toward zero, on both signs. |
| Mcts.Clamp0To100 | lib/mcts.ts:23-27 | A non-finite value gives the fallback; a finite one gives the nearest score in [0,100]. |
| Mcts.Lookup | lib/mcts.ts:135 | `stats[key]` before the clamp: a stat the record leaves out reads as a non-finite value, which the clamp turns into 50. |
| Mcts.StatScore | lib/mcts.ts:135 | A stat read for the simulation is always a score in [0,100]; a missing one is 50. |
| Mcts.AudienceBand | lib/mcts.ts:29-35 | The band's lower threshold is at most the score, and the next band's threshold is above it. |
| Mcts.AudienceBandMonotone | lib/mcts.ts:29-35 | A higher audience score never lands in a lower band. |
| Mcts.Difficulty | lib/mcts.ts:115-121 | Every stage's difficulty lies in (0, 1]. |
| Mcts.WeightedTotals | lib/mcts.ts:130-140 | The weighted score lies between 0 and 100 times the weight used, skipping non-positive weights. |
| Mcts.WeightSumIndependentOfStats | lib/mcts.ts:130-140 | The weight used depends only on the table, not on the stats. |
| Mcts.StageWeightsSumToOne | lib/mcts.ts:52-112 | Each stage's positive weights add up to exactly 1.00. |
| Mcts.StageWeights | lib/mcts.ts:52-112 | The five stage weight tables in their literal key order, each weight in hundredths. |
| Mcts.PositiveWeightSum | lib/mcts.ts:130-140 | `weightSum`: the sum of a table's positive weights, skipping the non-positive ones as the loop's `continue` does. |
| Mcts.SurvivalProb | lib/mcts.ts:124-146 | A stage's survival probability lies between 0 and that stage's difficulty. |
| Mcts.ProbOf | lib/mcts.ts:142-145 | The clamp of `mean / 100 * difficulty` lies between 0 and the difficulty. |
| Mcts.ProbOfFullWeight | lib/mcts.ts:142-145 | With weights summing to one, the probability is `score / 10000 * difficulty` and needs no clamp. |
| Mcts.SurvivalProbIsScaledMean | lib/mcts.ts:124-146 | The probability is the weighted mean of the stats, divided by 100 and scaled by the difficulty. |
| Mcts.ProbOfMonotone | lib/mcts.ts:142-145 | With the full weight used, a larger weighted score never gives a smaller probability. |
| Mcts.Probs | lib/mcts.ts:162-167 | The table holds one probability in [0,1] per stage, in stage order. |
| Mcts.WeightedTotalsMonotone | lib/mcts.ts:130-140 | Stats that are no higher give a weighted score that is no higher, over the same weight. |
| Mcts.SurvivalProbMonotone | lib/mcts.ts:124-146 | Raising stats never lowers any stage's survival probability. |
| Mcts.RaisingOneStatHelps | lib/mcts.ts:124-146 | Raising a single stat never lowers a survival probability. |
| Mcts.MissingStatCountsAsFifty | lib/mcts.ts:135 | A stat left out gives the same probability as the stat set to 50. |
| Mcts.UniformTotals | lib/mcts.ts:130-140 | When every stat is `c`, the weighted score is `c` times the weight used. |
| Mcts.SurvivalProbOfUniformStats | lib/mcts.ts:124-146 | When every stat is `c`, the probability is `c / 100 * difficulty`. |
| Mcts.UnweightedKeysAreUnread | lib/mcts.ts:52-112 | Price fit and business-model fit appear in no stage table. |
| Mcts.UnweightedStatsAreIgnored | lib/mcts.ts:124-146 | Changing price fit or business-model fit never changes a survival probability. |
| Mcts.LastMaxFrom | lib/mcts.ts:173-175 | The scan returns a position holding the maximum with nothing as large after it. |
| Mcts.Bottleneck | lib/mcts.ts:173-175 | The bottleneck has the most deaths, and a tie goes to the later stage. |
| Mcts.LastArgMaxUnique | lib/mcts.ts:173-175 | Only one stage meets the bottleneck rule. |
| Mcts.NoDeathsReportUnicorn | lib/mcts.ts:173-175 | With no deaths at all the bottleneck is Unicorn. |
| Mcts.SeedOnlyDeathsReportSeed | lib/mcts.ts:173-175 | When only Seed has deaths, Seed is the bottleneck. |
| Mcts.Run | lib/mcts.ts:148-199 | Death counts equal the number of trials dying at each stage. The rate comes from the survivors. Deaths plus survivors equal the trials run. Also the bottleneck rule, and the audience score and band. |
| Mcts.SurvivalRate | lib/mcts.ts:180 | Zero iterations give NaN; otherwise the rate is a percentage between 0 and 100 (0 when nobody survives, 100 when all do). |
| Mcts.RatePercent | lib/mcts.ts:180 | `survivors / iterations * 100` is 0 with no survivors, at most 100 when survivors do not exceed iterations, and 100 when all survive. |
| Stages.Index | lib/mcts.ts:18 | Every stage has its own position in the stage order. |
| Stages.IndexOfOrder | lib/mcts.ts:18 | The stage at position `i` of `STAGES` has position `i`. |
| Stages.DeathIndexFrom | lib/mcts.ts:162-167 | The trial stops at the first stage whose draw exceeds its probability. |
| Stages.TrialMeaning | lib/mcts.ts:159-170 | A trial dies at a stage only if it survived every earlier one. It survives exactly when every draw is at most its stage probability. |
| Stages.Trial | lib/mcts.ts:159-170 | One iteration: the stage it dies at is one whose draw exceeds its probability, or none when it survives. It also stands for the Python `_rollout` loop at legacy_python/app.py:599-603. |
| Stages.Consumed | lib/mcts.ts:162-167 | A trial reads one draw per stage it reaches, and no more. |
| Stages.DeathIndexFromFrame | lib/mcts.ts:162-167 | The outcome depends only on the draws the trial reads. |
| Stages.TrialReadsOnlyConsumedDraws | lib/mcts.ts:162-167 | Two streams that agree on the draws a trial reads give the same outcome. |
| Stages.Trials | lib/mcts.ts:159-170 | The trials run back to back on the stream, one outcome per iteration. |
| Stages.PosAfterSnoc | lib/mcts.ts:159-170 | One more trial starts where the earlier ones stopped reading. |
| Stages.TrialsSnoc | lib/mcts.ts:159-170 | One more trial appends one outcome. |
| Stages.Record | lib/mcts.ts:169 | Recording an outcome keeps one counter per stage. |
| Stages.CountOutcomesMeaning | lib/mcts.ts:169 | The counters equal the number of outcomes of each kind, and they add up to the number of trials. |
| Stages.CountOutcomes | lib/mcts.ts:169-170 | One counter per stage, plus survivors, built by recording the outcomes in order; legacy_python/app.py:607-612 counts the same way. |
| Stages.OneMoreTrial | lib/mcts.ts:159-170 | One more loop iteration reads its draws where the last trial stopped and records exactly its outcome. |
| Stages.Tally | lib/mcts.ts:159-170 | The loop's counts equal the multiset counts of the trial outcomes. Deaths plus survivors equal the iterations. |
| Stages.Repeat | lib/mcts.ts:159-170 | A run of the same outcome has the requested length. |
| Stages.AllSurviveOnLowDraws | lib/mcts.ts:163 | Draws never above any stage's probability let every trial survive. |
| Stages.AllDieAtSeedOnHighDraws | lib/mcts.ts:163 | Draws always above Seed's probability kill every trial at Seed. |
| Stages.CountRepeat | lib/mcts.ts:169 | Identical outcomes land in a single counter. |
| Text.ToLower | app/api/analyze/route.ts:243 | Lower-casing keeps the length and maps each character on its own. |
| Text.IsJsSpace | app/api/analyze/route.ts:244 | What `\s` matches in the route's patterns: the ECMAScript white space and line terminators. |
| Text.IsPySpace | legacy_python/app.py:423 | What `\s` matches in a Python `str` pattern: Python's whitespace, which adds 0x1C-0x1F and 0x85 and drops the byte order mark. |
| Text.RemoveCommas | app/api/analyze/route.ts:224 | The result has no comma and is no longer than the input. |
| Text.RemoveCommasKeepsCommaFree | app/api/analyze/route.ts:224 | Removing commas from text without any changes nothing. |
| Text.RemoveCommasAppend | app/api/analyze/route.ts:224 | Removing commas distributes over concatenation. |
| Text.FindFrom | app/api/analyze/route.ts:336 | The first position at or after `i` where the pattern occurs, or none when it occurs nowhere there. |
| Text.EmptyContainsNone | app/api/analyze/route.ts:336 | The empty text contains no non-empty channel keyword. |
| Text.FindNumberFrom | app/api/analyze/route.ts:225 | A match found from a position lies at or after it, within the text, is not empty and is never negative. |
| Text.FindNumber | app/api/analyze/route.ts:225 | A match lies within the text, is not empty and has a value that is never negative. |
| Text.FindNumberShape | app/api/analyze/route.ts:225 | For any text, the match is a whole `\d+(\.\d+)?` numeral worth its face value: a whole number is never followed by a dot and a digit, a number with a fraction is worth its decimal value, and no digit follows. |
| Text.FindNumberMeaning | app/api/analyze/route.ts:225 | The first `\d+(\.\d+)?` match: none exactly when there is no digit, otherwise a run starting at the first digit and not cut short. |
| Text.FindNumberOfShown | app/api/analyze/route.ts:225 | A number written out between digit-free text is found with its value. |
| Text.FindNumberBetween | app/api/analyze/route.ts:225 | Digits between digit-free text, followed by neither a digit nor a dot, are found in place with their value. |
| Text.FindDecimalBetween | app/api/analyze/route.ts:225 | Digits, a dot and digits after digit-free text are found in place as one number worth whole part plus fraction. |
| Text.DecimalNumeral | app/api/analyze/route.ts:225 | A numeral has at most one dot, so a numeral with a fraction has one reading as a decimal. |
| Text.FindDigitsAt | app/api/analyze/route.ts:225 | A digit run with no digit before it and neither a digit nor a dot after it is the number found. |
| Text.ShowNatRoundTrip | app/api/analyze/route.ts:225 | Reading back the decimal digits of `n` gives `n`. |
| Text.LitMatchesIffContains | app/api/analyze/route.ts:253-261 | A literal pattern matches exactly when the text contains it. |
| RouteValues.ToInt0To100 | app/api/analyze/route.ts:164-168 | A non-finite value gives the fallback; a finite one gives the nearest score in [0,100]. |
| RouteValues.ClampScore0To100 | app/api/analyze/route.ts:230-233 | Always a score; a non-finite value gives 0, a finite one the nearest score. |
| RouteValues.ClampScore | app/api/analyze/route.ts:269-271 | The nearest score in [0,100] to the value. |
| RouteValues.ClampsAgreeOnFinite | app/api/analyze/route.ts:164-168 | The three clamps agree on every finite value and differ only on non-finite ones. |
| RouteValues.ToInt0To100KeepsScores | app/api/analyze/route.ts:164-168 | An integer score passes through unchanged. |
| RouteValues.SafeTri | app/api/analyze/route.ts:204-212 | A triangle is returned exactly when all three values are finite and ordered. |
| RouteValues.SafeTriRoundTrip | app/api/analyze/route.ts:204-212 | Any ordered triangle is read back as itself. |
| RouteValues.SafeNumValue | app/api/analyze/route.ts:214-218 | A value comes back exactly when it is finite, and unchanged. |
| RouteValues.ParsePriceValue | app/api/analyze/route.ts:220-228 | Null gives nothing; a finite number is kept; text gives a value exactly when it has a digit once commas are gone, and that value is never negative. |
| RouteValues.ParsePriceReadsNumeral | app/api/analyze/route.ts:223-227 | For any text, the price is the first numeral of the comma-free text, whole or with its fraction, at face value. |
| RouteValues.ParsePriceOfShown | app/api/analyze/route.ts:220-228 | A whole price written in digits inside comma- and digit-free text, not followed by a digit or a dot, reads back as that price. |
| RouteValues.ParsePriceOfDecimal | app/api/analyze/route.ts:220-228 | A price written as digits, a dot and digits reads back with its fraction. |
| RouteValues.PriceWithCents | app/api/analyze/route.ts:220-228 | "9.99" is the price 9.99. |
| RouteValues.ParsePriceIgnoresCommas | app/api/analyze/route.ts:224 | A comma anywhere in the text never changes the parsed price. |
| RouteAudience.FirstDecadeFrom | app/api/analyze/route.ts:244 | The first place where two digits, optional spaces and "대" occur. |
| RouteAudience.DecadeValue | app/api/analyze/route.ts:246 | The two digits read as a number below 100. |
| RouteAudience.FirstRuleFrom | app/api/analyze/route.ts:252-260 | The first keyword rule, in source order, whose pattern matches. |
| RouteAudience.DecadeAt | app/api/analyze/route.ts:244 | `(\d{2})\s*대` matches at a position: two digits, optional whitespace, then 대. |
| RouteAudience.DecadeBand | app/api/analyze/route.ts:246-248 | The band of a decade `d`: from `d` to `d + 9`, labelled `${d}대`. |
| RouteAudience.AgeRules | app/api/analyze/route.ts:252-260 | The nine keyword tests with their bands, in the order the route tries them. |
| RouteAudience.AgeRuleBandsOrdered | app/api/analyze/route.ts:252-260 | Every keyword band is an ordered age range within 10 to 79. |
| RouteAudience.ExtractAgeBand | app/api/analyze/route.ts:241-263 | Empty text gives nothing. A decade from 10 to 90 wins over the keywords. Otherwise the first matching keyword rule decides. Any band lies within 10 to 99. |
| RouteAudience.DecadeRoundTrip | app/api/analyze/route.ts:244-249 | "`d`대" reads back as the band `d` to `d + 9`, for every decade from 10 to 90. |
| RouteAudience.Midpoint | app/api/analyze/route.ts:265-267 | The midpoint lies within the band and is the average of its ends. |
| RouteAudience.UnitFactor | app/api/analyze/route.ts:276-283 | The unit after the number multiplies it by 10000, 1000 or 1. |
| RouteAudience.ExtractMonthlyIncome | app/api/analyze/route.ts:273-285 | An income is found exactly when the comma-free text has a digit, and it is never negative. |
| RouteAudience.IncomeReadsNumeral | app/api/analyze/route.ts:273-285 | For any text, the income is the first numeral of the comma-free text, whole or with its fraction, times the multiplier of the unit after it. |
| RouteAudience.UnitWordFacts | app/api/analyze/route.ts:276-283 | Each unit word 만, 만원, 천, 천원, 원 or none has no digit, comma, leading dot, space or 대, and its first letter selects its multiplier. |
| RouteAudience.IncomeOfMatch | app/api/analyze/route.ts:273-285 | Text whose first number is `v`, wherever it starts, with a unit multiplying by `f`, reads as the income `v * f`. |
| RouteAudience.IncomeOfShown | app/api/analyze/route.ts:273-285 | A whole number after any digit- and comma-free text, followed by 만, 만원, 천, 천원, 원 or nothing, reads back scaled by its unit. |
| RouteAudience.IncomeOfDecimal | app/api/analyze/route.ts:273-285 | The same for digits, a dot and digits: the fraction is kept and scaled. |
| RouteAudience.IncomeAfterLabel | app/api/analyze/route.ts:273-285 | "월 300만원" is a monthly income of 3,000,000. |
| RouteAudience.IncomeWithFraction | app/api/analyze/route.ts:273-285 | "1.5만원" is a monthly income of 15,000. |
| RouteAudience.ShownIsCommaFree | app/api/analyze/route.ts:275 | A shown number and unit word after comma-free text have no comma to remove. |
| RouteAudience.UnitWordAfter | app/api/analyze/route.ts:276-283 | A unit word right after the digits selects its own multiplier. |
| RouteAudience.UnitAfterNumber | app/api/analyze/route.ts:276-283 | Text right after the digits that starts with no whitespace selects the multiplier its first letter names. |
| RouteAudience.AgeDecadeReadAsIncome | app/api/analyze/route.ts:273-285 | As written, a number followed by 대 is the income whatever follows: the age decade is read as the amount. |
| RouteAudience.ThirtiesReadAsIncome | app/api/analyze/route.ts:273-285 | As written, "30대 월 300만원" is read as an income of 30. |
| RouteAudience.AgeFreeMatch | app/api/analyze/route.ts:275 | The corrected search: a number at or after the position that lies within the text and is never negative, passing over numbers followed by 대. |
| RouteAudience.ExtractIncomeSkippingAges | app/api/analyze/route.ts:273-285 | The corrected income is never negative. |
| RouteAudience.SkippingAgesAgreesOtherwise | app/api/analyze/route.ts:273-285 | When the first number is not an age, the corrected income is the route's. |
| RouteAudience.SkippingAgesReadsIncome | app/api/analyze/route.ts:273-285 | The corrected reading passes over an age decade to the amount after it, scaled by its unit. |
| RouteAudience.ThirtiesIncomeSkippingAge | app/api/analyze/route.ts:273-285 | The corrected reading of "30대 월 300만원" is 3,000,000. |
| RouteAdjust.Lower | app/api/analyze/route.ts:314 | Lowering a score by a penalty keeps it a score, never raises it, and drops it by at most the penalty. |
| RouteAdjust.LowerOfScore | app/api/analyze/route.ts:314 | On a score, `clampScore(v - penalty)` is `max(0, v - penalty)`. |
| RouteAdjust.AgeGapRule | app/api/analyze/route.ts:310-324 | The age-gap rule touches only founder, strategy and marketing, only lowers them, and adds at most one warning. |
| RouteAdjust.AgeGapEffect | app/api/analyze/route.ts:310-324 | Midpoints 30 or more years apart cost founder 12, strategy 10 and marketing 8 with the large-gap warning naming both bands; 20 to under 30 years cost founder 6 and strategy 5 with the moderate warning; a smaller gap or a missing band changes nothing. |
| RouteAdjust.SeniorAndYoungExclusive | app/api/analyze/route.ts:332-333 | No ordered age band is both senior and young, so at most one channel rule fires. |
| RouteAdjust.ChannelRule | app/api/analyze/route.ts:331-348 | The channel rules touch only marketing, distribution and potential customers, only lowering them, with at most one warning. |
| RouteAdjust.ChannelEffect | app/api/analyze/route.ts:331-348 | A buyer band starting at 50 or later with a young channel word costs marketing 20, distribution 15 and potential customers 10 with its warning; a band ending at 25 or earlier with an older channel word costs marketing 15 and distribution 10 with its warning; otherwise, or with no buyer band, nothing changes. |
| RouteAdjust.YouthChannels | app/api/analyze/route.ts:327 | The eleven channel words that point at a young audience. |
| RouteAdjust.SeniorChannels | app/api/analyze/route.ts:328 | The fourteen channel words that point at an older audience. |
| RouteAdjust.PriceRule | app/api/analyze/route.ts:351-365 | The price rule touches only price fit, consumer needs and potential customers, only lowering them, with at most one warning. |
| RouteAdjust.AffordabilityAtLeast | app/api/analyze/route.ts:354-356 | The ratio reaches `k` exactly when the price reaches `k` times the income, an income below 1 counting as 1. |
| RouteAdjust.PriceEffect | app/api/analyze/route.ts:351-365 | A price of half the income or more costs price fit 30, consumer needs 20 and potential customers 20 with the strong warning; a fifth up to half costs price fit 15 and consumer needs 10 with the milder warning; below a fifth, or without an income or a price, nothing changes. |
| RouteAdjust.Affordability | app/api/analyze/route.ts:354 | The price over the monthly income, with incomes below 1 read as 1. |
| RouteAdjust.ApplyContextAdjustments | app/api/analyze/route.ts:291-369 | The result keeps every score in [0,100], never raises a stat, leaves the other stats alone, and gives at most three warnings. |
| RouteAdjust.AdjustmentBounds | app/api/analyze/route.ts:310-365 | Each stat drops by at most its largest total penalty; marketing by at most 28, because the two channel rules never both fire. |
| RouteAdjust.RuleBounds | app/api/analyze/route.ts:310-365 | The same bounds for the three rules applied in turn to any bands, channel text, income and price. |
| RouteAdjust.EmptyContextChangesNothing | app/api/analyze/route.ts:291-369 | Without any context nothing changes and no warning is given. |
| RouteAdjust.PriceRuleMonotone | app/api/analyze/route.ts:353-364 | A higher price never leaves a stat higher. |
| RouteAdjust.NoChannelNoChannelRule | app/api/analyze/route.ts:331-348 | Without a sales channel the channel rules never fire. |
| RouteAdjust.NoChannelWordNoChannelRule | app/api/analyze/route.ts:331-348 | A channel text naming none of the listed channels changes nothing and warns of nothing. |
| RouteAdjust.FiftiesAndTeensBands | app/api/analyze/route.ts:244-249 | "50대" and "10대" read as the bands 50-59 and 10-19. |
| RouteAdjust.LargeGapOnly | app/api/analyze/route.ts:310-318 | Bands thirty or more years apart, with no channel and no price, cost founder 12, strategy 10 and marketing 8 (floored at 0), with the large-gap warning only. |
| RouteAdjust.LargeGapAlone | app/api/analyze/route.ts:310-365 | The three rules on a large gap, with an empty channel text and no price, give exactly the large-gap penalties and warning. |
| RouteAdjust.FiftiesSellingToTeens | app/api/analyze/route.ts:310-318 | A seller in their fifties and teenage buyers cost founder 12, strategy 10 and marketing 8, with the large-gap warning only. |
| RouteAdjust.HalfAffordable | app/api/analyze/route.ts:354-356 | A price of at least half an income of 1 or more has an affordability of at least 0.5. |
| RouteAdjust.HalfOfIncomeFlagged | app/api/analyze/route.ts:303-307 | A price of at least half the buyer's income always ends with the strongest price warning, whatever the other rules raise. |
| RouteAdjust.BelowFifthOfIncome | app/api/analyze/route.ts:352-366 | A price under a fifth of the income draws no price warning. |
| RouteAdjust.ThirtiesBuyerFlagsAnyPrice | app/api/analyze/route.ts:306-307 | As written, the buyer "30대 월 300만원" with any price of 15 or more draws the strongest price warning. |
| RouteAdjust.ThirtiesIncomeSparesModestPrices | app/api/analyze/route.ts:352-366 | With the age skipped, the same buyer with a price below 600,000 draws no price warning. |
| RouteReport.UsableRange | app/api/analyze/route.ts:815-818 | The reference range is used only when both ends are finite, positive and in order. |
| RouteReport.PricePenalty | app/api/analyze/route.ts:820-827 | The penalty is -5 exactly inside the range and positive exactly outside it; below the minimum it is 120 times the relative shortfall `(min - p) / min`, above the maximum 120 times the relative excess `(p - max) / max`. |
| RouteReport.AdjustPriceFit | app/api/analyze/route.ts:813-829 | No reference, no price or an unusable range keeps price fit. Inside the range gives +5, capped at 100. Outside never raises it. |
| RouteReport.WholePointPenalty | app/api/analyze/route.ts:820-828 | A price `n / 120` of the minimum below it, or of the maximum above it, takes exactly `n` points off the fit, clamped to [0,100]. |
| RouteReport.TenPercentOutsideCostsTwelve | app/api/analyze/route.ts:820-828 | A price ten percent below the minimum or above the maximum costs twelve points. |
| RouteReport.PenaltyFallsBelow | app/api/analyze/route.ts:821-822 | Below the minimum, the penalty grows as the price falls. |
| RouteReport.PenaltyRisesAbove | app/api/analyze/route.ts:823-824 | Above the maximum, the penalty grows as the price rises. |
| RouteReport.PriceFitFallsBelowRange | app/api/analyze/route.ts:821-822 | Below the range, a lower price never scores higher. |
| RouteReport.PriceFitFallsAboveRange | app/api/analyze/route.ts:823-824 | Above the range, a higher price never scores higher. |
| RouteReport.InsideRangeBeatsOutside | app/api/analyze/route.ts:820-828 | A price inside the range scores at least as well as any price outside it. |
| RouteReport.FarOutsideRangeScoresZero | app/api/analyze/route.ts:820-828 | A price at most a sixth of the minimum, or 11/6 of the maximum or more, scores 0. |
| RouteReport.Factors | app/api/analyze/route.ts:859-871 | The eleven factor pairs, in the listed order, with their scores. |
| RouteReport.FactorOrder | app/api/analyze/route.ts:859-871 | The eleven factors in the order the report lists them. |
| RouteReport.Insert | app/api/analyze/route.ts:872 | Inserting keeps the elements and the ascending score order. |
| RouteReport.SortByScore | app/api/analyze/route.ts:872 | The sort is a permutation in ascending score order. |
| RouteReport.InsertKeepsTies | app/api/analyze/route.ts:872 | Inserting puts the new element before the equal scores already present. |
| RouteReport.SortIsStable | app/api/analyze/route.ts:872 | Equal scores keep their relative order, as the stable `Array.prototype.sort` does. |
| RouteReport.WeakestThree | app/api/analyze/route.ts:858-873 | Three factors from the list, in ascending score order. |
| RouteReport.WeakestThreeAreWeakest | app/api/analyze/route.ts:858-873 | No factor left out scores below a chosen one. |
| RouteReport.TiesFavourListOrder | app/api/analyze/route.ts:858-873 | Among equal scores, the chosen factors are the earliest in the listed order. |
| RouteReport.LaunchReadiness | app/api/analyze/route.ts:974-976 | The readiness lies between the smallest and the largest of its three inputs. |
| RouteReport.LaunchReadinessInIntegers | app/api/analyze/route.ts:974-976 | The readiness equals `(2 needs + distribution + business model + 2) div 4`. |
| RouteReport.LaunchReadinessMonotone | app/api/analyze/route.ts:974-976 | Raising any of the three inputs never lowers the readiness. |
| RouteModels.FindStarting | app/api/analyze/route.ts:83 | The first listed name that starts with the pattern, or none when no name does. |
| RouteModels.PickOne | app/api/analyze/route.ts:81-85 | An exact listing wins. Otherwise the first name starting with the pattern. None exactly when no name starts with it. |
| RouteModels.Picks | app/api/analyze/route.ts:87-90 | The picks have no duplicates and are at most one per pattern. |
| RouteModels.PicksMembers | app/api/analyze/route.ts:87-90 | A name is picked exactly when some pattern picks it. |
| RouteModels.PickedHasFirstPick | app/api/analyze/route.ts:87-90 | A picked name is first picked by one of the patterns. |
| RouteModels.FirstPick | app/api/analyze/route.ts:87-90 | The earliest pattern that picks a given name. |
| RouteModels.FirstPickKept | app/api/analyze/route.ts:87-90 | A later pattern never changes where an earlier pick was first picked. |
| RouteModels.OldPicksKeepOrder | app/api/analyze/route.ts:87-90 | Another pattern leaves the order of the earlier picks' first patterns as it was. |
| RouteModels.NewPickComesLast | app/api/analyze/route.ts:87-90 | A name the last pattern adds is first picked after every earlier pick. |
| RouteModels.PicksOrdered | app/api/analyze/route.ts:87-90 | The picks are in the order of the patterns that first pick them. |
| RouteModels.PicksGrow | app/api/analyze/route.ts:87-90 | Each pattern only appends to the earlier picks. |
| RouteModels.NonEmptyPicks | app/api/analyze/route.ts:87-92 | One pattern that picks something makes the picks non-empty. |
| RouteModels.FallbackModels | app/api/analyze/route.ts:68-93 | Only listed names. Empty exactly when nothing is listed. The first three listed names when no pattern picks. Otherwise exactly the picked names, without duplicates. |
| RouteModels.BuildFallbackModels | app/api/analyze/route.ts:68-93 | Only listed names, and empty exactly when nothing is listed. |
| RouteModels.FallbackFollowsPreference | app/api/analyze/route.ts:68-93 | When something is picked, the result follows the preference order of the patterns. |
| RouteModels.MostPreferredComesFirst | app/api/analyze/route.ts:69-76 | A listed `gemini-2.0-flash` is always the first choice. |
| Legacy.ClampScorePy | legacy_python/app.py:328-333 | A convertible value is truncated toward zero and clamped to [0,100]; anything else gives 0. |
| Legacy.RoundingAtMostOneAbove | legacy_python/app.py:328-333 | The TypeScript clamp is never below the Python one, and at most one above it. |
| Legacy.HalfRoundsUpButTruncatesDown | legacy_python/app.py:330 | 49.5 is 50 in the TypeScript clamp and 49 in the Python one. |
| Legacy.LegacyDifficulty | legacy_python/app.py:591 | Every stage's difficulty lies in (0, 1]. |
| Legacy.LegacyWeightsSumToOne | legacy_python/app.py:584-590 | Each stage weighs the same five distinct stats, and the weights add up to exactly 1.00. |
| Legacy.LegacyWeights | legacy_python/app.py:584-590 | The five Python stage weight tables, each weight in hundredths. |
| Legacy.Get | legacy_python/app.py:595 | `stats.get(k, 0) or 0`: a missing stat reads as 0, and the value is not clamped. |
| Legacy.WeightedSum | legacy_python/app.py:595 | The numerator: the sum of each stat times its weight. |
| Legacy.WeightSum | legacy_python/app.py:595 | The denominator: the sum of the table's weights. |
| Legacy.LegacyProb | legacy_python/app.py:593-597 | A stage's survival probability is clamped into [0,1]. |
| Legacy.WeightedSumBounds | legacy_python/app.py:595 | With scores in [0,100], the weighted sum lies between 0 and 100 times the weight sum. |
| Legacy.LegacyProbInRange | legacy_python/app.py:593-597 | With scores in [0,100], the probability is the weighted mean times the difficulty, and never above the difficulty. |
| Legacy.WeightedSumMonotone | legacy_python/app.py:595 | Stats that are no higher give a weighted sum that is no higher. |
| Legacy.LegacyProbMonotone | legacy_python/app.py:593-597 | Raising stats never lowers a survival probability. |
| Legacy.MissingStatCountsAsZero | legacy_python/app.py:595 | A stat left out gives the same probability as the stat set to 0. |
| Legacy.NonPositiveStatsNeverSurvive | legacy_python/app.py:593-597 | When no stat is positive, no stage can be survived. |
| Legacy.ZeroWeightedSum | legacy_python/app.py:595 | Empty stats weigh nothing. |
| Legacy.LegacyProbs | legacy_python/app.py:599-603 | The table holds one probability in [0,1] per stage, in stage order. |
| Legacy.Rollout | legacy_python/app.py:599-603 | `_rollout`: the stage returned is the first whose draw exceeds its survival probability, every earlier draw being at most its own; none exactly when every draw is at most its stage's probability. |
| Legacy.FirstMaxFrom | legacy_python/app.py:614 | The scan returns a position holding the maximum with nothing as large before it. |
| Legacy.FirstBottleneck | legacy_python/app.py:614 | The bottleneck has the most deaths, and a tie goes to the earlier stage. |
| Legacy.FirstArgMaxUnique | legacy_python/app.py:614 | Only one stage meets the bottleneck rule. |
| Legacy.NoDeathsReportSeed | legacy_python/app.py:614 | With no deaths at all the bottleneck is Seed. |
| Legacy.Run | legacy_python/app.py:605-616 | Zero iterations fail with a division by zero. Otherwise the counts are the rollout outcomes, the rate is the survivor percentage (0 to 100), and the bottleneck is the first maximum. |
| LegacyText.CountChar | legacy_python/app.py:415 | The count is zero exactly when the character is absent. |
| LegacyText.Disallowed | legacy_python/app.py:423 | The characters outside the allowed class; none exactly when every character is allowed. |
| LegacyText.HasControl | legacy_python/app.py:419-421 | True exactly when some code point is below 9. |
| LegacyText.IsAllowed | legacy_python/app.py:423 | The allowed class: ASCII letters and digits, Hangul syllables, Python whitespace and `.,-()[]!?:/`. |
| LegacyText.GarbageCounting | legacy_python/app.py:408-426 | Garbage exactly when the text is empty, holds "[XLS]" or NUL, has 8 broken characters, a control character, or more than 35% disallowed characters. |
| LegacyText.RatioAbove | legacy_python/app.py:424 | `bad / max(1, len) > 0.35` is the integer test `20 bad > 7 len`. |
| LegacyText.LooksLikeGarbageAsWritten | legacy_python/app.py:408-426 | The check as written: any 8 ASCII spaces mark the text as garbage. |
| LegacyText.LooksLikeGarbage | legacy_python/app.py:408-426 | The check with U+FFFD counted as the broken character. |
| LegacyText.CleanTextIsKept | legacy_python/app.py:408-426 | Non-empty text of allowed characters without '[' passes the corrected check. |
| LegacyText.CleanTextWithEightSpacesIsDropped | legacy_python/app.py:414-417 | As written, any text with 8 spaces is dropped. |
| LegacyText.LeadCharMissing | legacy_python/app.py:412 | Text without a pattern's first character does not contain the pattern. |
| LegacyText.Words | legacy_python/app.py:414-417 | `n` + 1 one-letter words separated by single spaces: `2n + 1` characters, `n` of them spaces. |
| LegacyText.WordsSpaces | legacy_python/app.py:414-417 | `n` + 1 words hold exactly `n` spaces. |
| LegacyText.OrdinarySentences | legacy_python/app.py:414-417 | The sentence of `n` + 1 one-letter words, for any `n` of 8 or more, is dropped as written and kept by the corrected check. |
| LegacyText.StripStart | legacy_python/app.py:528 | Leading whitespace is removed, and only that. |
| LegacyText.StripEnd | legacy_python/app.py:528 | Trailing whitespace is removed, and only that. |
| LegacyText.PyStrip | legacy_python/app.py:528 | The result starts and ends with non-whitespace, is empty exactly for blank input, and leaves stripped text as it is. |
| LegacyText.PyStripIdempotent | legacy_python/app.py:528 | Stripping twice is stripping once. |
| LegacyText.RemoveAll | legacy_python/app.py:529 | Removing occurrences never lengthens the name. |
| LegacyText.NoSlashNothingRemoved | legacy_python/app.py:529 | A name without '/' has no `models/` to remove. |
| LegacyText.PrefixRemoved | legacy_python/app.py:529 | A leading `models/` is removed. |
| LegacyText.DefaultModelKept | legacy_python/app.py:528-529 | The default name has nothing to remove. |
| LegacyText.DefaultModelNormalizes | legacy_python/app.py:528-536 | The default name comes through prefix removal and the alias table unchanged. |
| LegacyText.AliasIdempotent | legacy_python/app.py:530-536 | The alias table maps no name to another alias. |
| LegacyText.Normalize | legacy_python/app.py:528-536 | A missing or blank name asks for `gemini-1.5-flash`. |
| LegacyText.FirstListed | legacy_python/app.py:542-544 | The first candidate that is listed, or none exactly when none is listed. |
| LegacyText.Alias | legacy_python/app.py:530-536 | `alias.get(n, n)`: the four alias names map to their models, any other name to itself. |
| LegacyText.ResolveGeminiModel | legacy_python/app.py:527-545 | An empty list or a listed name gives the normalized name. Otherwise the first listed candidate, or the normalized name when none is listed. |
| LegacyText.BlankNameAsksForDefault | legacy_python/app.py:527-545 | With the default listed, a missing or empty name resolves to it. |
| LegacyText.PrefixedNameNormalizes | legacy_python/app.py:528-536 | A stripped name without '/' normalizes to its alias, with or without the `models/` prefix. |
| Compare.BottlenecksAgreeIffUniqueMax | lib/mcts.ts:173-175 | The two engines name the same bottleneck exactly when one stage alone has the most deaths. |
| Compare.TiedDeathsSplitTheEngines | legacy_python/app.py:614 | A Seed/PMF tie is PMF in the TypeScript engine and Seed in the Python one. |
| Compare.MissingStatDefaults | legacy_python/app.py:595 | A missing stat counts as 50 in the TypeScript engine and 0 in the Python one. |

## Left out

- `StartupMCTS.runWithMarket`: the route's only engine call (app/api/analyze/route.ts:839-843) targets this method, which lib/mcts.ts does not define, so there is nothing to model; `Mcts.Run` models the `run` method the route's final stats would feed.
- The request handler `POST`, the UI and the report prompts: they are orchestration of model calls and rendering, not part of this model.
- Network and language-model I/O: `fetchAvailableModels`, `getModelCandidates`, `generateJsonWithFallback`, `generateTextWithFallback`, Tavily search and `_list_gemini_models`. The list of available model names is a parameter instead.
- `hardFallbackModels`: a constant list, used only when listing models fails.
- `Math.random()` and `random.random()`: both are replaced by the explicit draw stream `Draws`.
- IEEE floating point: numbers are exact reals, so float rounding of the weight sums and of `survivors / iterations` is not modelled. The same holds for a digit string so long that `Number` overflows to Infinity.
- Mcts.Run: iterations are a mathematical integer; a fractional `iterations` (which the loop would round up) is not modelled.
- Mcts.SimResult: the camelCase copies of the result fields hold the same values and are kept once.
- Text.ToLower: folds ASCII letters only. JavaScript's `toLowerCase` also folds other scripts, and it maps a few non-ASCII letters onto ASCII ones: U+212A KELVIN SIGN becomes "k" and U+0130 becomes "i" plus a combining dot. So "TIKTOK" written with a Kelvin sign matches `tiktok` in the route but not in the model. The keywords and channel names themselves are ASCII or Hangul, which has no case.
- `stripMarkdownArtifacts`, `compactSources`, `buildMarketSizingQuery`, `extractErrMsg`: text formatting for prompts and display.
- `proChannels` in `applyContextAdjustments` is declared but never read, so it has no effect to model.
- RouteAdjust.ApplyContextAdjustments: the warnings are modelled as tagged values, with the band labels kept; their Korean wording is not.
- RouteReport.Factors: the Korean display labels of the weakness pairs are kept as `FactorLabel`; the report text built from them is not modelled.
- Legacy.ClampScorePy: the value is one of a float, infinity, NaN or something `float()` rejects. Python's handling of `bool`, of very large integers and of strings like "1e3" is folded into these cases.
- Legacy.Get: a stat stored as `None` counts as 0 (`or 0`), which is the same as a missing key; non-integer stat values are not modelled.
- Compare.MissingStatDefaults: this only states the two defaults; the monotonicity and missing-stat lemmas of each engine carry the general case.
- Cached model lists and their time-to-live: time is not modelled.

## Findings

| source | as written | input that shows it | evidently intended | confidence | as-written member | corrected member |
|---|---|---|---|---|---|---|
| app/api/analyze/route.ts:275 | the first `\d+(\.\d+)?` in the buyer text is the income, so an age decade written first is read as the amount | "30대 월 300만원" reads as an income of 30, and with it any price of 15 or more draws the strongest price warning | skip a number followed by 대, which the age reader at line 244 treats as a decade, and read the amount after it: 3,000,000 | medium, not executed | RouteAudience.AgeDecadeReadAsIncome, RouteAudience.ThirtiesReadAsIncome, RouteAdjust.ThirtiesBuyerFlagsAnyPrice | RouteAudience.ExtractIncomeSkippingAges, RouteAudience.SkippingAgesReadsIncome, RouteAdjust.ThirtiesIncomeSparesModestPrices |
| legacy_python/app.py:415 | `text.count(" ")` counts ASCII spaces, so any text with 8 spaces is dropped as broken | the nine-word sentence `Words(8)` = "a a a a a a a a a"; any clean text with eight spaces | count the replacement character U+FFFD, as the adjacent comment about broken characters says | medium, not executed | LegacyText.LooksLikeGarbageAsWritten, LegacyText.CleanTextWithEightSpacesIsDropped, LegacyText.OrdinarySentences | LegacyText.LooksLikeGarbage, LegacyText.CleanTextIsKept |

`RouteAdjust.ApplyContextAdjustments` keeps the route's income reading, so
that the adjuster matches the code as written; the price rule on the
corrected reading is stated by `RouteAdjust.ThirtiesIncomeSparesModestPrices`.
