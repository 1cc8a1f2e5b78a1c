/**
 `buildFallbackModels` of app/api/analyze/route.ts: from the model names the
 service lists, the ones to try, in order of preference.
 */
module RouteModels {
  import opened Wrappers
  import opened Numbers
  import opened Text

  /** The names looked for, most preferred first. */
  const PreferredPatterns: seq<string> := [
    "gemini-2.0-flash",
    "gemini-2.0-flash-exp",
    "gemini-1.5-flash",
    "gemini-1.5-pro",
    "gemini-1.0-pro",
    "gemini-pro"
  ]

  predicate NoDuplicates(xs: seq<string>) {
    forall i, j :: 0 <= i < j < |xs| ==> xs[i] != xs[j]
  }

  /** `available.find((m) => m.startsWith(pattern))`, as an index. */
  function FindStarting(available: seq<string>, pattern: string, from: nat): (r: Option<nat>)
    requires from <= |available|
    ensures r.Some? ==> from <= r.value < |available| && StartsWith(available[r.value], pattern)
    ensures r.Some? ==> forall k :: from <= k < r.value ==> !StartsWith(available[k], pattern)
    ensures r.None? ==> forall k :: from <= k < |available| ==> !StartsWith(available[k], pattern)
    decreases |available| - from
  {
    if from == |available| then None
    else if StartsWith(available[from], pattern) then Some(from)
    else FindStarting(available, pattern, from + 1)
  }

  /** `pickOne`: the pattern itself when it is listed, else the first listed
      name that starts with it. */
  function PickOne(available: seq<string>, pattern: string): (r: Option<string>)
    ensures pattern in available ==> r == Some(pattern)
    ensures r.Some? ==> r.value in available && StartsWith(r.value, pattern)
    ensures r.None? <==> forall m :: m in available ==> !StartsWith(m, pattern)
    ensures pattern !in available && r.Some? ==>
      exists i :: 0 <= i < |available| && r.value == available[i]
                  && forall k :: 0 <= k < i ==> !StartsWith(available[k], pattern)
  {
    if pattern in available then
      assert StartsAt(pattern, 0, pattern);
      Some(pattern)
    else
      match FindStarting(available, pattern, 0)
      case None => None
      case Some(i) => Some(available[i])
  }

  /** The function that picks a name for a pattern. */
  type Picker = string -> Option<string>

  /** `pickOne` over a given list of available names. */
  function PickerFor(available: seq<string>): Picker {
    p => PickOne(available, p)
  }

  /** The loop over the patterns: each pick is appended unless already
      there. */
  function Picks(pick: Picker, patterns: seq<string>): (r: seq<string>)
    ensures NoDuplicates(r)
    ensures |r| <= |patterns|
  {
    if |patterns| == 0 then []
    else
      var prev := Picks(pick, patterns[..|patterns| - 1]);
      var m := pick(patterns[|patterns| - 1]);
      if m.Some? && m.value !in prev then prev + [m.value]
      else prev
  }

  /** A name is picked exactly when some pattern picks it. */
  lemma {:induction false} PicksMembers(pick: Picker, patterns: seq<string>, m: string)
    ensures m in Picks(pick, patterns) <==> exists k :: 0 <= k < |patterns| && pick(patterns[k]) == Some(m)
  {
    if |patterns| > 0 {
      var init := patterns[..|patterns| - 1];
      PicksMembers(pick, init, m);
      assert forall k :: 0 <= k < |init| ==> init[k] == patterns[k];
    }
  }

  /** The index of the first pattern that picks `m`, or the number of
      patterns when none does. */
  function FirstPick(pick: Picker, patterns: seq<string>, m: string): (k: nat)
    ensures k <= |patterns|
    ensures k < |patterns| ==> pick(patterns[k]) == Some(m)
    ensures forall j :: 0 <= j < k ==> pick(patterns[j]) != Some(m)
  {
    if |patterns| == 0 then 0
    else if pick(patterns[0]) == Some(m) then 0
    else
      var k := FirstPick(pick, patterns[1..], m);
      assert forall j :: 1 <= j < |patterns| ==> patterns[j] == patterns[1..][j - 1];
      1 + k
  }

  /** A picked name is first picked by one of the patterns. */
  lemma PickedHasFirstPick(pick: Picker, patterns: seq<string>, x: string)
    requires x in Picks(pick, patterns)
    ensures FirstPick(pick, patterns, x) < |patterns|
  {
    PicksMembers(pick, patterns, x);
    var k :| 0 <= k < |patterns| && pick(patterns[k]) == Some(x);
    assert !(FirstPick(pick, patterns, x) > k);
  }

  /** A name the earlier patterns pick is first picked at the same index
      when one more pattern follows. */
  lemma FirstPickKept(pick: Picker, patterns: seq<string>, x: string)
    requires |patterns| > 0
    requires x in Picks(pick, patterns[..|patterns| - 1])
    ensures FirstPick(pick, patterns, x) == FirstPick(pick, patterns[..|patterns| - 1], x)
  {
    var init := patterns[..|patterns| - 1];
    var k1 := FirstPick(pick, init, x);
    var k2 := FirstPick(pick, patterns, x);
    assert forall k :: 0 <= k < |init| ==> init[k] == patterns[k];
    PickedHasFirstPick(pick, init, x);
    assert !(k2 < k1);
    assert pick(patterns[k1]) == Some(x);
  }

  /** Two earlier picks keep their order when one more pattern follows. */
  lemma OldPicksKeepOrder(pick: Picker, patterns: seq<string>, x: string, y: string)
    requires |patterns| > 0
    requires x in Picks(pick, patterns[..|patterns| - 1])
    requires y in Picks(pick, patterns[..|patterns| - 1])
    requires FirstPick(pick, patterns[..|patterns| - 1], x) < FirstPick(pick, patterns[..|patterns| - 1], y)
    ensures FirstPick(pick, patterns, x) < FirstPick(pick, patterns, y)
  {
    FirstPickKept(pick, patterns, x);
    FirstPickKept(pick, patterns, y);
  }

  /** The name the last pattern adds was first picked by that pattern, after
      every earlier pick. */
  lemma NewPickComesLast(pick: Picker, patterns: seq<string>, x: string)
    requires |patterns| > 0
    requires x in Picks(pick, patterns[..|patterns| - 1])
    requires pick(patterns[|patterns| - 1]).Some?
    requires pick(patterns[|patterns| - 1]).value !in Picks(pick, patterns[..|patterns| - 1])
    ensures FirstPick(pick, patterns, x) < FirstPick(pick, patterns, pick(patterns[|patterns| - 1]).value)
  {
    var n := |patterns| - 1;
    var init := patterns[..n];
    var m := pick(patterns[n]).value;
    FirstPickKept(pick, patterns, x);
    PickedHasFirstPick(pick, init, x);
    PicksMembers(pick, init, m);
    assert forall k :: 0 <= k < n ==> init[k] == patterns[k];
    assert FirstPick(pick, patterns, m) == n;
  }

  /** The picks come in the order of the patterns that first pick them. */
  lemma {:induction false} PicksOrdered(pick: Picker, patterns: seq<string>)
    ensures var r := Picks(pick, patterns);
      forall i, j :: 0 <= i < j < |r| ==> FirstPick(pick, patterns, r[i]) < FirstPick(pick, patterns, r[j])
  {
    if |patterns| > 0 {
      var n := |patterns| - 1;
      var init := patterns[..n];
      var prev := Picks(pick, init);
      PicksOrdered(pick, init);
      var r := Picks(pick, patterns);
      var m := pick(patterns[n]);
      if m.Some? && m.value !in prev {
        assert r == prev + [m.value];
        forall i, j | 0 <= i < j < |r|
          ensures FirstPick(pick, patterns, r[i]) < FirstPick(pick, patterns, r[j])
        {
          assert r[i] == prev[i];
          if j < |prev| {
            assert r[j] == prev[j];
            OldPicksKeepOrder(pick, patterns, prev[i], prev[j]);
          } else {
            NewPickComesLast(pick, patterns, prev[i]);
          }
        }
      } else {
        assert r == prev;
        forall i, j | 0 <= i < j < |r|
          ensures FirstPick(pick, patterns, r[i]) < FirstPick(pick, patterns, r[j])
        {
          OldPicksKeepOrder(pick, patterns, prev[i], prev[j]);
        }
      }
    }
  }

  /** Each pattern only adds to what the earlier ones picked. */
  lemma {:induction false} PicksGrow(pick: Picker, patterns: seq<string>, n: nat)
    requires n <= |patterns|
    ensures Picks(pick, patterns[..n]) <= Picks(pick, patterns)
    decreases |patterns| - n
  {
    if n < |patterns| {
      var longer := patterns[..n + 1];
      assert longer[..|longer| - 1] == patterns[..n];
      if n + 1 < |patterns| {
        PicksGrow(pick, patterns, n + 1);
      } else {
        assert longer == patterns;
      }
    } else {
      assert patterns[..n] == patterns;
    }
  }

  /** `buildFallbackModels` over a given list of patterns: the picks, or
      the first three listed names when no pattern picks anything. */
  function FallbackModels(available: seq<string>, patterns: seq<string>): (r: seq<string>)
    ensures forall m :: m in r ==> m in available
    ensures |r| == 0 <==> |available| == 0
    ensures (forall k :: 0 <= k < |patterns| ==> PickOne(available, patterns[k]).None?) ==>
      r == available[..Min(3, |available|)]
    ensures (exists k :: 0 <= k < |patterns| && PickOne(available, patterns[k]).Some?) ==>
      && NoDuplicates(r)
      && |r| <= |patterns|
      && (forall m :: m in r <==> exists k :: 0 <= k < |patterns| && PickOne(available, patterns[k]) == Some(m))
  {
    var pick := PickerFor(available);
    var picked := Picks(pick, patterns);
    assert forall m :: m in picked <==> exists k :: 0 <= k < |patterns| && PickOne(available, patterns[k]) == Some(m) by {
      forall m
        ensures m in picked <==> exists k :: 0 <= k < |patterns| && PickOne(available, patterns[k]) == Some(m)
      {
        PicksMembers(pick, patterns, m);
      }
    }
    if |picked| > 0 then
      assert picked[0] in picked;
      picked
    else
      available[..Min(3, |available|)]
  }

  /** `buildFallbackModels` with its own pattern list. */
  function BuildFallbackModels(available: seq<string>): (r: seq<string>)
    ensures forall m :: m in r ==> m in available
    ensures |r| == 0 <==> |available| == 0
  {
    FallbackModels(available, PreferredPatterns)
  }

  /** One pattern that picks something makes the picks non-empty. */
  lemma NonEmptyPicks(pick: Picker, patterns: seq<string>, k: nat)
    requires k < |patterns| && pick(patterns[k]).Some?
    ensures |Picks(pick, patterns)| > 0
  {
    PicksMembers(pick, patterns, pick(patterns[k]).value);
  }

  /** When anything is picked, the result follows the preference order:
      a name comes before another when a more preferred pattern picks it. */
  lemma FallbackFollowsPreference(available: seq<string>, patterns: seq<string>)
    requires exists k :: 0 <= k < |patterns| && PickOne(available, patterns[k]).Some?
    ensures var r := FallbackModels(available, patterns);
      forall i, j :: 0 <= i < j < |r| ==>
        FirstPick(PickerFor(available), patterns, r[i]) < FirstPick(PickerFor(available), patterns, r[j])
  {
    var pick := PickerFor(available);
    var k :| 0 <= k < |patterns| && PickOne(available, patterns[k]).Some?;
    assert pick(patterns[k]) == PickOne(available, patterns[k]);
    NonEmptyPicks(pick, patterns, k);
    assert FallbackModels(available, patterns) == Picks(pick, patterns);
    PicksOrdered(pick, patterns);
  }

  /** A service that lists `gemini-2.0-flash` gets it as the first choice. */
  lemma MostPreferredComesFirst(available: seq<string>)
    requires "gemini-2.0-flash" in available
    ensures |BuildFallbackModels(available)| > 0
    ensures BuildFallbackModels(available)[0] == "gemini-2.0-flash"
  {
    var pick := PickerFor(available);
    var first := PreferredPatterns[..1];
    assert first[..0] == [];
    assert pick(first[0]) == Some("gemini-2.0-flash");
    assert Picks(pick, first) == ["gemini-2.0-flash"];
    PicksGrow(pick, PreferredPatterns, 1);
    assert FallbackModels(available, PreferredPatterns) == Picks(pick, PreferredPatterns);
  }
}
