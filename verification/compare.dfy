/**
 Where the TypeScript engine (lib/mcts.ts) and the earlier Python engine
 (legacy_python/app.py) part ways on the same inputs.
 */
module Compare {
  import opened Stages
  import Mcts
  import Legacy

  /** Position `m` holds a count strictly larger than every other. */
  predicate UniqueMax(d: seq<nat>, m: nat) {
    m < |d| && forall j :: 0 <= j < |d| && j != m ==> d[j] < d[m]
  }

  /** The two bottleneck rules name the same stage exactly when the largest
      death count is held by one stage only. */
  lemma BottlenecksAgreeIffUniqueMax(d: seq<nat>)
    requires |d| == StageCount
    ensures Mcts.Bottleneck(d) == Legacy.FirstBottleneck(d)
        <==> UniqueMax(d, Index(Legacy.FirstBottleneck(d)))
  {
    var first := Index(Legacy.FirstBottleneck(d));
    var last := Index(Mcts.Bottleneck(d));
    if UniqueMax(d, first) {
      assert Mcts.IsLastArgMax(d, first);
      Mcts.LastArgMaxUnique(d, first, last);
    }
  }

  /** A tie between Seed and PMF: the later stage in the TypeScript engine,
      the earlier in the Python one. */
  lemma TiedDeathsSplitTheEngines()
    ensures Mcts.Bottleneck([5, 0, 5, 0, 0]) == PMF
    ensures Legacy.FirstBottleneck([5, 0, 5, 0, 0]) == Seed
  {
    var d: seq<nat> := [5, 0, 5, 0, 0];
    assert Mcts.IsLastArgMax(d, 2);
    Mcts.LastArgMaxUnique(d, Index(Mcts.Bottleneck(d)), 2);
    assert Legacy.IsFirstArgMax(d, 0);
    Legacy.FirstArgMaxUnique(d, Index(Legacy.FirstBottleneck(d)), 0);
  }

  /** A stat left out counts as 50 in the TypeScript engine and as 0 in the
      Python one. */
  lemma MissingStatDefaults()
    ensures Mcts.StatScore(map[], Mcts.ConsumerNeeds) == 50
    ensures Legacy.Get(map[], Legacy.ConsumerNeeds) == 0
  {
  }
}
