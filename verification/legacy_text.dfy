/**
 Two text helpers of the earlier Python app (legacy_python/app.py): the
 filter that drops search results that look like binary or broken text, and
 the choice of the model name to call.
 */
module LegacyText {
  import opened Wrappers
  import opened Numbers
  import opened Text

  // ---------------------------------------------------------------------
  // _looks_like_binary_or_garbage
  // ---------------------------------------------------------------------

  /** `text.count(c)` for a single character. */
  function CountChar(s: string, c: char): (n: nat)
    ensures n <= |s|
    ensures n == 0 <==> forall i :: 0 <= i < |s| ==> s[i] != c
  {
    if |s| == 0 then 0
    else (if s[0] == c then 1 else 0) + CountChar(s[1..], c)
  }

  /** A character of the class `[A-Za-z0-9가-힣\s\.\,\-\(\)\[\]\!\?\:\/]`. */
  predicate IsAllowed(c: char) {
    || ('A' <= c <= 'Z') || ('a' <= c <= 'z') || ('0' <= c <= '9')
    || (0xAC00 <= c as int <= 0xD7A3)
    || IsPySpace(c)
    || c in ".,-()[]!?:/"
  }

  /** `len(re.sub(<class>, "", text))`: how many characters fall outside the
      class. */
  function Disallowed(s: string): (n: nat)
    ensures n <= |s|
    ensures n == 0 <==> forall i :: 0 <= i < |s| ==> IsAllowed(s[i])
  {
    if |s| == 0 then 0
    else (if IsAllowed(s[0]) then 0 else 1) + Disallowed(s[1..])
  }

  /** Some character has a code point below 9. */
  function HasControl(s: string): (b: bool)
    ensures b <==> exists i :: 0 <= i < |s| && s[i] as int < 9
  {
    if |s| == 0 then false
    else s[0] as int < 9 || (assert forall i :: 1 <= i < |s| ==> s[i] == s[1..][i - 1]; HasControl(s[1..]))
  }

  /** The checks in order, with `broken` the character whose count marks
      broken text. */
  function GarbageCounting(text: string, broken: char): (g: bool)
    ensures g <==>
      || |text| == 0
      || Contains(text, "[XLS]") || Contains(text, "\0")
      || CountChar(text, broken) >= 8
      || (exists i :: 0 <= i < |text| && text[i] as int < 9)
      || 20 * Disallowed(text) > 7 * |text|
  {
    if |text| == 0 then true
    else if Contains(text, "[XLS]") || Contains(text, "\0") then true
    else if CountChar(text, broken) >= 8 then true
    else if HasControl(text) then true
    else
      var ratio := Disallowed(text) as real / Max(1, |text|) as real;
      assert ratio > 0.35 <==> 20 * Disallowed(text) > 7 * |text| by {
        RatioAbove(Disallowed(text), |text|);
      }
      ratio > 0.35
  }

  /** `len(clean) / len(text) > 0.35` in integers. */
  lemma RatioAbove(bad: nat, len: nat)
    requires 0 < len
    ensures bad as real / Max(1, len) as real > 0.35 <==> 20 * bad > 7 * len
  {
    var b, l := bad as real, len as real;
    assert Max(1, len) == len;
    var q := b / l;
    assert q * l == b;
    assert (20 * bad) as real == 20.0 * b && (7 * len) as real == 7.0 * l;
    if q > 0.35 {
      MulStrict(q, 0.35, l);
      assert b > 0.35 * l;
    } else {
      if q < 0.35 {
        MulStrict(0.35, q, l);
      }
      assert b <= 0.35 * l;
    }
  }

  lemma MulStrict(x: real, y: real, b: real)
    requires y < x && 0.0 < b
    ensures y * b < x * b
  {
    assert x * b - y * b == (x - y) * b;
  }

  /** The replacement character U+FFFD, which broken decoding leaves behind. */
  const Replacement: char := 0xFFFD as char

  /** `_looks_like_binary_or_garbage` as written: the count of broken
      characters counts ASCII spaces. */
  function LooksLikeGarbageAsWritten(text: string): (g: bool)
    ensures CountChar(text, ' ') >= 8 ==> g
    ensures g <==> GarbageCounting(text, ' ')
  {
    GarbageCounting(text, ' ')
  }

  /** The check with the count the comment describes: replacement
      characters. */
  function LooksLikeGarbage(text: string): (g: bool)
    ensures CountChar(text, Replacement) >= 8 ==> g
    ensures g <==> GarbageCounting(text, Replacement)
  {
    GarbageCounting(text, Replacement)
  }

  /** Text made of the allowed letters, digits and punctuation, without a
      square bracket, is kept, and the corrected check is never fooled by its
      spaces. */
  lemma CleanTextIsKept(text: string)
    requires |text| > 0
    requires forall i :: 0 <= i < |text| ==> IsAllowed(text[i]) && text[i] != '['
    ensures !LooksLikeGarbage(text)
  {
    LeadCharMissing(text, "[XLS]");
    LeadCharMissing(text, "\0");
    assert CountChar(text, Replacement) == 0;
  }

  /** The same clean text is dropped by the check as written once it has
      eight spaces. */
  lemma CleanTextWithEightSpacesIsDropped(text: string)
    requires CountChar(text, ' ') >= 8
    ensures LooksLikeGarbageAsWritten(text)
  {
  }

  /** A text of which no position starts with the first character of `p`
      does not contain `p`. */
  lemma LeadCharMissing(s: string, p: string)
    requires |p| > 0
    requires forall i :: 0 <= i < |s| ==> s[i] != p[0]
    ensures !Contains(s, p)
  {
    forall k | 0 <= k <= |s| ensures !StartsAt(s, k, p) {
      if k + |p| <= |s| {
        assert s[k..k + |p|][0] == s[k];
      }
    }
  }

  /** `n + 1` words "a" separated by single spaces. */
  function Words(n: nat): (s: string)
    ensures |s| == 2 * n + 1
    ensures forall i :: 0 <= i < |s| ==> s[i] == 'a' || s[i] == ' '
  {
    if n == 0 then "a" else "a " + Words(n - 1)
  }

  lemma {:induction false} WordsSpaces(n: nat)
    ensures CountChar(Words(n), ' ') == n
  {
    if n > 0 {
      var w := Words(n - 1);
      WordsSpaces(n - 1);
      assert ("a " + w)[1..] == " " + w;
      assert (" " + w)[1..] == w;
    }
  }

  /** The sentence of `n` + 1 one-letter words, for `n` of 8 or more, is
      dropped as written and kept as intended. The same holds for any text
      of allowed characters without '[' that has eight spaces, by
      `CleanTextWithEightSpacesIsDropped` and `CleanTextIsKept`. */
  lemma OrdinarySentences(n: nat)
    requires 8 <= n
    ensures LooksLikeGarbageAsWritten(Words(n))
    ensures !LooksLikeGarbage(Words(n))
  {
    WordsSpaces(n);
    CleanTextIsKept(Words(n));
  }

  // ---------------------------------------------------------------------
  // resolve_gemini_model
  // ---------------------------------------------------------------------

  /** Leading whitespace removed. */
  function StripStart(s: string): (r: string)
    ensures |r| <= |s| && r == s[|s| - |r|..]
    ensures |r| > 0 ==> !IsPySpace(r[0])
    ensures forall i :: 0 <= i < |s| - |r| ==> IsPySpace(s[i])
  {
    if |s| > 0 && IsPySpace(s[0]) then StripStart(s[1..]) else s
  }

  /** Trailing whitespace removed. */
  function StripEnd(s: string): (r: string)
    ensures |r| <= |s| && r == s[..|r|]
    ensures |r| > 0 ==> !IsPySpace(r[|r| - 1])
    ensures forall i :: |r| <= i < |s| ==> IsPySpace(s[i])
  {
    if |s| > 0 && IsPySpace(s[|s| - 1]) then StripEnd(s[..|s| - 1]) else s
  }

  /** `str.strip()`: the text between the outer whitespace runs. */
  function PyStrip(s: string): (r: string)
    ensures |r| > 0 ==> !IsPySpace(r[0]) && !IsPySpace(r[|r| - 1])
    ensures |r| <= |s|
    ensures |s| > 0 && !IsPySpace(s[0]) && !IsPySpace(s[|s| - 1]) ==> r == s
    ensures |r| == 0 <==> forall i :: 0 <= i < |s| ==> IsPySpace(s[i])
  {
    var t := StripStart(s);
    var r := StripEnd(t);
    assert |r| > 0 ==> r[0] == t[0];
    r
  }

  /** Stripping twice strips nothing more. */
  lemma PyStripIdempotent(s: string)
    ensures PyStrip(PyStrip(s)) == PyStrip(s)
  {
    var r := PyStrip(s);
    if |r| > 0 {
      assert StripStart(r) == r;
      assert StripEnd(r) == r;
    }
  }

  /** `s.replace(p, "")`: every occurrence of `p`, scanned left to right
      without overlap, removed. */
  function RemoveAll(s: string, p: string): (r: string)
    requires |p| > 0
    ensures |r| <= |s|
    decreases |s|
  {
    if |s| == 0 then []
    else if StartsAt(s, 0, p) then RemoveAll(s[|p|..], p)
    else [s[0]] + RemoveAll(s[1..], p)
  }

  /** Text without a slash has no `models/` to remove. */
  lemma {:induction false} NoSlashNothingRemoved(s: string)
    requires forall i :: 0 <= i < |s| ==> s[i] != '/'
    ensures RemoveAll(s, "models/") == s
  {
    if |s| > 0 {
      assert |s| >= 7 ==> s[0..7][6] == s[6];
      NoSlashNothingRemoved(s[1..]);
      assert [s[0]] + s[1..] == s;
    }
  }

  /** A leading `models/` is dropped. */
  lemma PrefixRemoved(s: string)
    ensures RemoveAll("models/" + s, "models/") == RemoveAll(s, "models/")
  {
    var t := "models/" + s;
    assert t[..7] == "models/";
    assert t[7..] == s;
  }

  /** The name the app falls back to. */
  const DefaultModel: string := "gemini-1.5-flash"

  /** The default survives the removal of `models/` and the alias table. */
  lemma DefaultModelKept()
    ensures RemoveAll(DefaultModel, "models/") == DefaultModel
  {
    forall i | 0 <= i < |DefaultModel| ensures DefaultModel[i] != '/' {
    }
    NoSlashNothingRemoved(DefaultModel);
  }

  /** `alias.get(n, n)`. */
  function Alias(n: string): string {
    if n == "gemini" then "gemini-2.0-flash"
    else if n == "gemini-2.0" then "gemini-2.0-flash"
    else if n == "gemini-1.5-pro-latest" then "gemini-1.5-pro"
    else if n == "gemini-1.5-flash-latest" then "gemini-1.5-flash"
    else n
  }

  /** No alias points at another alias, so applying the table twice is
      applying it once. */
  lemma AliasIdempotent(n: string)
    ensures Alias(Alias(n)) == Alias(n)
  {
  }

  /** `requested`, `replace` and the alias table: the normalized name. */
  function Normalize(modelName: Option<string>): (r: string)
    ensures modelName.None? ==> r == DefaultModel
    ensures modelName.Some? && |PyStrip(modelName.value)| == 0 ==> r == DefaultModel
  {
    var requested :=
      if modelName.None? || |PyStrip(modelName.value)| == 0 then DefaultModel
      else PyStrip(modelName.value);
    DefaultModelNormalizes();
    Alias(RemoveAll(requested, "models/"))
  }

  /** The default name comes through normalization unchanged. */
  lemma DefaultModelNormalizes()
    ensures Alias(RemoveAll(DefaultModel, "models/")) == DefaultModel
  {
    DefaultModelKept();
  }

  /** The fallback names tried in order when the requested one is not
      listed. */
  const Candidates: seq<string> := ["gemini-2.0-flash", "gemini-1.5-flash", "gemini-1.5-pro"]

  /** The first candidate that is listed. */
  function FirstListed(cands: seq<string>, models: seq<string>): (r: Option<string>)
    ensures r.Some? ==> r.value in models
    ensures r.Some? ==> exists k :: 0 <= k < |cands| && cands[k] == r.value
                                    && forall j :: 0 <= j < k ==> cands[j] !in models
    ensures r.None? <==> forall k :: 0 <= k < |cands| ==> cands[k] !in models
  {
    if |cands| == 0 then None
    else if cands[0] in models then Some(cands[0])
    else
      var rest := FirstListed(cands[1..], models);
      assert forall k :: 1 <= k < |cands| ==> cands[k] == cands[1..][k - 1];
      rest
  }

  /** `resolve_gemini_model`, with the listed model names as a parameter.
      When the list is empty the normalized name is used as it is. */
  function ResolveGeminiModel(modelName: Option<string>, models: seq<string>): (r: string)
    ensures |models| == 0 ==> r == Normalize(modelName)
    ensures Normalize(modelName) in models ==> r == Normalize(modelName)
    ensures r !in models ==> r == Normalize(modelName)
    ensures |models| > 0 && Normalize(modelName) !in models ==>
      (r in models <==> exists k :: 0 <= k < |Candidates| && Candidates[k] in models)
    ensures r in models && r != Normalize(modelName) ==>
      exists k :: 0 <= k < |Candidates| && Candidates[k] == r
                  && forall j :: 0 <= j < k ==> Candidates[j] !in models
  {
    var normalized := Normalize(modelName);
    if |models| > 0 then
      if normalized in models then normalized
      else
        match FirstListed(Candidates, models)
        case Some(c) => c
        case None => normalized
    else normalized
  }

  /** A blank or missing name asks for the default. */
  lemma BlankNameAsksForDefault(models: seq<string>)
    requires DefaultModel in models
    ensures ResolveGeminiModel(None, models) == DefaultModel
    ensures ResolveGeminiModel(Some(""), models) == DefaultModel
  {
    assert |PyStrip("")| == 0;
  }

  /** A name written with or without the `models/` prefix normalizes the
      same way, through the alias table: `models/gemini-1.5-pro-latest`
      becomes `gemini-1.5-pro`. */
  lemma PrefixedNameNormalizes(n: string)
    requires |n| > 0 && !IsPySpace(n[0]) && !IsPySpace(n[|n| - 1])
    requires forall i :: 0 <= i < |n| ==> n[i] != '/'
    ensures Normalize(Some("models/" + n)) == Alias(n)
    ensures Normalize(Some(n)) == Alias(n)
  {
    var s := "models/" + n;
    assert s[0] == 'm' && s[|s| - 1] == n[|n| - 1];
    PrefixRemoved(n);
    NoSlashNothingRemoved(n);
  }
}
