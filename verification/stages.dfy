/**
 The ordered growth stages and the trial walk shared by both simulators.

 A trial walks the stages in order and, at each stage, takes the next value of
 the random stream: if it is strictly greater than the stage's survival
 probability the trial dies there and the walk stops. The random source is an
 explicit stream `draws` (the k-th value `Math.random()` / `random.random()`
 would have returned), so a run is a pure function of its inputs.
 */
module Stages {
  import opened Wrappers

  datatype Stage = Seed | MVP | PMF | ScaleUp | Unicorn

  /** `STAGES`, in the order trials walk them. */
  const StageOrder: seq<Stage> := [Seed, MVP, PMF, ScaleUp, Unicorn]

  const StageCount: nat := 5

  /** The position of a stage in `StageOrder`. */
  function Index(s: Stage): (i: nat)
    ensures i < StageCount && StageOrder[i] == s
  {
    match s
    case Seed => 0
    case MVP => 1
    case PMF => 2
    case ScaleUp => 3
    case Unicorn => 4
  }

  /** Position `i` of the stage order holds the stage whose index is `i`. */
  lemma IndexOfOrder(i: nat)
    requires i < StageCount
    ensures Index(StageOrder[i]) == i
  {
  }

  /** The random stream: `draws(k)` is the k-th random value drawn. */
  type Draws = nat -> real

  /** One survival probability per stage, in `StageOrder`. */
  predicate IsStageTable(probs: seq<real>) {
    |probs| == StageCount
  }

  /** The draw for stage `j` of a trial starting at stream position `pos` does
      not exceed that stage's survival probability. */
  predicate Survives(probs: seq<real>, draws: Draws, pos: nat, j: nat)
    requires j < |probs|
  {
    draws(pos + j) <= probs[j]
  }

  /** The index of the first stage at or after `i` whose draw exceeds its
      probability, for the trial whose draws start at stream position `pos`. */
  function DeathIndexFrom(probs: seq<real>, draws: Draws, pos: nat, i: nat): (d: Option<nat>)
    requires i <= |probs|
    ensures d.Some? ==> i <= d.value < |probs| && !Survives(probs, draws, pos, d.value)
    ensures d.Some? ==> forall j :: i <= j < d.value ==> Survives(probs, draws, pos, j)
    ensures d.None? ==> forall j :: i <= j < |probs| ==> Survives(probs, draws, pos, j)
    decreases |probs| - i
  {
    if i == |probs| then None
    else if !Survives(probs, draws, pos, i) then Some(i)
    else DeathIndexFrom(probs, draws, pos, i + 1)
  }

  /** The stage a trial starting at stream position `pos` dies at, or `None`
      for a trial that survives every stage. */
  function Trial(probs: seq<real>, draws: Draws, pos: nat): (died: Option<Stage>)
    requires IsStageTable(probs)
    ensures died.Some? ==> !Survives(probs, draws, pos, Index(died.value))
  {
    match DeathIndexFrom(probs, draws, pos, 0)
    case None => None
    case Some(j) => Some(StageOrder[j])
  }

  /** A trial dies at a stage only after surviving every earlier one, and
      survives exactly when every draw is at most its stage's probability. */
  lemma TrialMeaning(probs: seq<real>, draws: Draws, pos: nat)
    requires IsStageTable(probs)
    ensures var died := Trial(probs, draws, pos);
      died.Some? ==>
      var j := Index(died.value);
      !Survives(probs, draws, pos, j) && forall i :: 0 <= i < j ==> Survives(probs, draws, pos, i)
    ensures Trial(probs, draws, pos).None? <==> forall i :: 0 <= i < StageCount ==> Survives(probs, draws, pos, i)
  {
  }

  /** How many draws the trial at `pos` takes from the stream. */
  function Consumed(probs: seq<real>, draws: Draws, pos: nat): (n: nat)
    requires IsStageTable(probs)
    ensures Trial(probs, draws, pos).Some? ==> n == Index(Trial(probs, draws, pos).value) + 1
    ensures Trial(probs, draws, pos).None? ==> n == StageCount
  {
    match DeathIndexFrom(probs, draws, pos, 0)
    case None => StageCount
    case Some(j) => j + 1
  }

  /** One past the last stage index the walk from stage `i` looks at. */
  function ReachFrom(probs: seq<real>, draws: Draws, pos: nat, i: nat): nat
    requires i <= |probs|
  {
    match DeathIndexFrom(probs, draws, pos, i)
    case None => |probs|
    case Some(j) => j + 1
  }

  lemma {:induction false} DeathIndexFromFrame(probs: seq<real>, d1: Draws, d2: Draws, pos: nat, i: nat)
    requires i <= |probs|
    requires forall k :: pos + i <= k < pos + ReachFrom(probs, d1, pos, i) ==> d1(k) == d2(k)
    ensures DeathIndexFrom(probs, d1, pos, i) == DeathIndexFrom(probs, d2, pos, i)
    decreases |probs| - i
  {
    if i < |probs| {
      assert d1(pos + i) == d2(pos + i);
      if Survives(probs, d1, pos, i) {
        DeathIndexFromFrame(probs, d1, d2, pos, i + 1);
      }
    }
  }

  /** A trial reads no draw beyond the stage it dies at: two streams that agree
      on the draws it consumed give the same outcome. */
  lemma TrialReadsOnlyConsumedDraws(probs: seq<real>, d1: Draws, d2: Draws, pos: nat)
    requires IsStageTable(probs)
    requires forall k :: pos <= k < pos + Consumed(probs, d1, pos) ==> d1(k) == d2(k)
    ensures Trial(probs, d1, pos) == Trial(probs, d2, pos)
    ensures Consumed(probs, d1, pos) == Consumed(probs, d2, pos)
  {
    DeathIndexFromFrame(probs, d1, d2, pos, 0);
  }

  /** The outcomes of `n` consecutive trials, the first starting at `pos`. */
  function Trials(probs: seq<real>, draws: Draws, pos: nat, n: nat): (outs: seq<Option<Stage>>)
    requires IsStageTable(probs)
    ensures |outs| == n
    decreases n
  {
    if n == 0 then []
    else [Trial(probs, draws, pos)] + Trials(probs, draws, pos + Consumed(probs, draws, pos), n - 1)
  }

  /** The stream position just after `n` consecutive trials starting at `pos`. */
  function PosAfter(probs: seq<real>, draws: Draws, pos: nat, n: nat): nat
    requires IsStageTable(probs)
    decreases n
  {
    if n == 0 then pos
    else PosAfter(probs, draws, pos + Consumed(probs, draws, pos), n - 1)
  }

  lemma {:induction false} PosAfterSnoc(probs: seq<real>, draws: Draws, pos: nat, n: nat)
    requires IsStageTable(probs)
    ensures PosAfter(probs, draws, pos, n + 1)
         == PosAfter(probs, draws, pos, n) + Consumed(probs, draws, PosAfter(probs, draws, pos, n))
    decreases n
  {
    if n > 0 {
      PosAfterSnoc(probs, draws, pos + Consumed(probs, draws, pos), n - 1);
    }
  }

  /** Running one more trial appends its outcome to the outcome list. */
  lemma {:induction false} TrialsSnoc(probs: seq<real>, draws: Draws, pos: nat, n: nat)
    requires IsStageTable(probs)
    ensures Trials(probs, draws, pos, n + 1)
         == Trials(probs, draws, pos, n) + [Trial(probs, draws, PosAfter(probs, draws, pos, n))]
    decreases n
  {
    if n > 0 {
      var next := pos + Consumed(probs, draws, pos);
      TrialsSnoc(probs, draws, next, n - 1);
      var first := [Trial(probs, draws, pos)];
      var mid := Trials(probs, draws, next, n - 1);
      var last := [Trial(probs, draws, PosAfter(probs, draws, next, n - 1))];
      assert first + (mid + last) == (first + mid) + last;
    }
  }

  /** A per-stage death table (in `StageOrder`) and the survivor count. */
  datatype Counts = Counts(deaths: seq<nat>, survivors: nat)

  /** The sum of a per-stage count table. */
  function Sum(c: seq<nat>): nat
    requires |c| == StageCount
  {
    c[0] + c[1] + c[2] + c[3] + c[4]
  }

  /** A tally after one more outcome: a death bumps its stage's count, a
      survivor bumps the survivor count. */
  function Record(c: Counts, died: Option<Stage>): (c': Counts)
    requires |c.deaths| == StageCount
    ensures |c'.deaths| == StageCount
  {
    match died
    case None => c.(survivors := c.survivors + 1)
    case Some(s) => c.(deaths := c.deaths[Index(s) := c.deaths[Index(s)] + 1])
  }

  /** The tally of a list of trial outcomes, recorded in order. */
  function CountOutcomes(outs: seq<Option<Stage>>): (c: Counts)
    ensures |c.deaths| == StageCount
  {
    if |outs| == 0 then Counts([0, 0, 0, 0, 0], 0)
    else Record(CountOutcomes(outs[..|outs| - 1]), outs[|outs| - 1])
  }

  /** What the tally means: each stage's count is the number of trials that
      died there, the survivor count is the number that died nowhere, and
      together they account for every trial. */
  lemma {:induction false} CountOutcomesMeaning(outs: seq<Option<Stage>>)
    ensures CountOutcomes(outs).survivors == multiset(outs)[None]
    ensures forall s :: CountOutcomes(outs).deaths[Index(s)] == multiset(outs)[Some(s)]
    ensures CountOutcomes(outs).survivors + Sum(CountOutcomes(outs).deaths) == |outs|
  {
    if |outs| > 0 {
      var init := outs[..|outs| - 1];
      var last := outs[|outs| - 1];
      assert outs == init + [last];
      var m := multiset(outs);
      assert m == multiset(init) + multiset{last};
      CountOutcomesMeaning(init);
      var c := CountOutcomes(outs);
      var ci := CountOutcomes(init);
      assert c == Record(ci, last);
      if last.None? {
        assert c.deaths == ci.deaths && c.survivors == ci.survivors + 1;
      } else {
        assert c.survivors == ci.survivors;
        forall s ensures c.deaths[Index(s)] == m[Some(s)] {
          if s != last.value {
            assert Index(s) != Index(last.value);
          }
        }
      }
    }
  }

  /** The counting loop of both simulators: runs `n` trials on the stream and
      tallies deaths per stage and survivors. */
  method Tally(probs: seq<real>, draws: Draws, n: nat) returns (deaths: seq<nat>, survivors: nat)
    requires IsStageTable(probs)
    ensures Counts(deaths, survivors) == CountOutcomes(Trials(probs, draws, 0, n))
    ensures survivors == multiset(Trials(probs, draws, 0, n))[None]
    ensures forall s :: deaths[Index(s)] == multiset(Trials(probs, draws, 0, n))[Some(s)]
    ensures survivors + Sum(deaths) == n
  {
    deaths := [0, 0, 0, 0, 0];
    survivors := 0;
    var pos: nat := 0;
    var i: nat := 0;
    while i < n
      invariant i <= n
      invariant pos == PosAfter(probs, draws, 0, i)
      invariant Counts(deaths, survivors) == CountOutcomes(Trials(probs, draws, 0, i))
    {
      var died := Trial(probs, draws, pos);
      OneMoreTrial(probs, draws, i);
      var next := Record(Counts(deaths, survivors), died);
      deaths, survivors := next.deaths, next.survivors;
      pos := pos + Consumed(probs, draws, pos);
      i := i + 1;
    }
    CountOutcomesMeaning(Trials(probs, draws, 0, n));
  }

  /** The tally and stream position after trial `i + 1`, from those after
      trial `i`. */
  lemma OneMoreTrial(probs: seq<real>, draws: Draws, i: nat)
    requires IsStageTable(probs)
    ensures var pos := PosAfter(probs, draws, 0, i);
      && PosAfter(probs, draws, 0, i + 1) == pos + Consumed(probs, draws, pos)
      && CountOutcomes(Trials(probs, draws, 0, i + 1))
         == Record(CountOutcomes(Trials(probs, draws, 0, i)), Trial(probs, draws, pos))
  {
    TrialsSnoc(probs, draws, 0, i);
    PosAfterSnoc(probs, draws, 0, i);
    CountOutcomesSnoc(Trials(probs, draws, 0, i), Trial(probs, draws, PosAfter(probs, draws, 0, i)));
  }

  lemma CountOutcomesSnoc(outs: seq<Option<Stage>>, o: Option<Stage>)
    ensures CountOutcomes(outs + [o]) == Record(CountOutcomes(outs), o)
  {
    assert (outs + [o])[..|outs|] == outs;
  }

  /** `n` copies of one outcome. */
  function Repeat(o: Option<Stage>, n: nat): (outs: seq<Option<Stage>>)
    ensures |outs| == n && forall i :: 0 <= i < n ==> outs[i] == o
  {
    seq(n, _ => o)
  }

  /** A stream whose every draw is at most every stage's probability lets
      every trial through. */
  lemma {:induction false} AllSurviveOnLowDraws(probs: seq<real>, draws: Draws, pos: nat, n: nat)
    requires IsStageTable(probs)
    requires forall k, j :: 0 <= j < |probs| ==> draws(k) <= probs[j]
    ensures Trials(probs, draws, pos, n) == Repeat(None, n)
    decreases n
  {
    if n > 0 {
      assert forall j :: 0 <= j < StageCount ==> Survives(probs, draws, pos, j);
      AllSurviveOnLowDraws(probs, draws, pos + Consumed(probs, draws, pos), n - 1);
      assert [None] + Repeat(None, n - 1) == Repeat(None, n);
    }
  }

  /** A stream whose every draw exceeds the first stage's probability ends
      every trial at `Seed`. */
  lemma {:induction false} AllDieAtSeedOnHighDraws(probs: seq<real>, draws: Draws, pos: nat, n: nat)
    requires IsStageTable(probs)
    requires forall k :: draws(k) > probs[0]
    ensures Trials(probs, draws, pos, n) == Repeat(Some(Seed), n)
    decreases n
  {
    if n > 0 {
      assert !Survives(probs, draws, pos, 0);
      AllDieAtSeedOnHighDraws(probs, draws, pos + Consumed(probs, draws, pos), n - 1);
      assert [Some(Seed)] + Repeat(Some(Seed), n - 1) == Repeat(Some(Seed), n);
    }
  }

  /** The tally of `n` equal outcomes puts all `n` in one place. */
  lemma {:induction false} CountRepeat(o: Option<Stage>, n: nat)
    ensures o.None? ==> CountOutcomes(Repeat(o, n)) == Counts([0, 0, 0, 0, 0], n)
    ensures o.Some? ==> CountOutcomes(Repeat(o, n)) == Counts([0, 0, 0, 0, 0][Index(o.value) := n], 0)
  {
    if n > 0 {
      assert Repeat(o, n)[..n - 1] == Repeat(o, n - 1);
      CountRepeat(o, n - 1);
    }
  }
}
