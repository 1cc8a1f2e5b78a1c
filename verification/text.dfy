/**
 The string matching the route helpers and the legacy helpers rely on.

 Strings are sequences of Unicode code points. The regular expressions of the
 source are small enough to be written out as functions: a decimal number run
 `\d+(\.\d+)?` (ASCII digits only, as in both JavaScript and Python), a
 whitespace run `\s*`, a literal substring and `a\s*b`.
 */
module Text {
  import opened Wrappers

  predicate IsDigit(c: char) {
    '0' <= c <= '9'
  }

  function DigitValue(c: char): (v: nat)
    requires IsDigit(c)
    ensures v < 10
  {
    (c as int - '0' as int) as nat
  }

  function DigitChar(v: nat): (c: char)
    requires v < 10
    ensures IsDigit(c) && DigitValue(c) == v
  {
    (v + '0' as int) as char
  }

  predicate AllDigits(s: string) {
    forall i :: 0 <= i < |s| ==> IsDigit(s[i])
  }

  predicate NoDigits(s: string) {
    forall i :: 0 <= i < |s| ==> !IsDigit(s[i])
  }

  /** JavaScript `\s`: the WhiteSpace and LineTerminator code points of
      ECMAScript (tab, line feed, vertical tab, form feed, carriage return,
      space, no-break space, the Zs separators, the line and paragraph
      separators and the byte order mark). */
  predicate IsJsSpace(c: char) {
    var x := c as int;
    || (0x09 <= x <= 0x0D) || x == 0x20 || x == 0xA0 || x == 0x1680
    || (0x2000 <= x <= 0x200A) || x == 0x2028 || x == 0x2029 || x == 0x202F
    || x == 0x205F || x == 0x3000 || x == 0xFEFF
  }

  /** Python `str.isspace()`, which is also what `\s` means in a `str`
      pattern: as JavaScript, but with the four separators 0x1C-0x1F and next
      line 0x85, and without the byte order mark. */
  predicate IsPySpace(c: char) {
    var x := c as int;
    || (0x09 <= x <= 0x0D) || (0x1C <= x <= 0x20) || x == 0x85 || x == 0xA0
    || x == 0x1680 || (0x2000 <= x <= 0x200A) || x == 0x2028 || x == 0x2029
    || x == 0x202F || x == 0x205F || x == 0x3000
  }

  /** ASCII upper case to lower case; every other code point is kept. */
  function LowerChar(c: char): (d: char)
    ensures 'A' <= c <= 'Z' ==> d as int == c as int + 32
    ensures !('A' <= c <= 'Z') ==> d == c
  {
    if 'A' <= c <= 'Z' then (c as int + 32) as char else c
  }

  function ToLower(s: string): (r: string)
    ensures |r| == |s| && forall i :: 0 <= i < |s| ==> r[i] == LowerChar(s[i])
  {
    seq(|s|, i requires 0 <= i < |s| => LowerChar(s[i]))
  }

  predicate NoCommas(s: string) {
    forall i :: 0 <= i < |s| ==> s[i] != ','
  }

  /** Text made of comma-free pieces is comma-free. */
  lemma CommaFreeJoin(a: string, b: string)
    requires NoCommas(a) && NoCommas(b)
    ensures NoCommas(a + b)
  {
    forall i | 0 <= i < |a + b| ensures (a + b)[i] != ',' {
      if i >= |a| {
        assert (a + b)[i] == b[i - |a|];
      }
    }
  }

  /** A digit is not a comma. */
  lemma DigitsHaveNoCommas(d: string)
    requires AllDigits(d)
    ensures NoCommas(d)
  {
  }

  /** `s.replace(/,/g, "")`. */
  function RemoveCommas(s: string): (r: string)
    ensures NoCommas(r)
    ensures |r| <= |s|
  {
    if |s| == 0 then []
    else (if s[0] == ',' then [] else [s[0]]) + RemoveCommas(s[1..])
  }

  lemma {:induction false} RemoveCommasAppend(a: string, b: string)
    ensures RemoveCommas(a + b) == RemoveCommas(a) + RemoveCommas(b)
  {
    if |a| > 0 {
      assert (a + b)[0] == a[0];
      assert (a + b)[1..] == a[1..] + b;
      RemoveCommasAppend(a[1..], b);
      var head: string := if a[0] == ',' then [] else [a[0]];
      assert RemoveCommas(a + b) == head + RemoveCommas(a[1..] + b);
      assert head + (RemoveCommas(a[1..]) + RemoveCommas(b)) == (head + RemoveCommas(a[1..])) + RemoveCommas(b);
    } else {
      assert a + b == b;
    }
  }

  lemma {:induction false} RemoveCommasKeepsCommaFree(s: string)
    requires NoCommas(s)
    ensures RemoveCommas(s) == s
  {
    if |s| > 0 {
      RemoveCommasKeepsCommaFree(s[1..]);
    }
  }

  /** `s[i..]` begins with `p`. */
  predicate StartsAt(s: string, i: nat, p: string) {
    i + |p| <= |s| && s[i..i + |p|] == p
  }

  /** `s.startsWith(p)`. */
  predicate StartsWith(s: string, p: string) {
    StartsAt(s, 0, p)
  }

  /** The first position at or after `i` where `p` occurs. */
  function FindFrom(s: string, p: string, i: nat): (r: Option<nat>)
    requires i <= |s|
    ensures r.Some? ==> i <= r.value <= |s| && StartsAt(s, r.value, p)
    ensures r.Some? ==> forall k :: i <= k < r.value ==> !StartsAt(s, k, p)
    ensures r.None? ==> forall k :: i <= k <= |s| ==> !StartsAt(s, k, p)
    decreases |s| - i
  {
    if StartsAt(s, i, p) then Some(i)
    else if i == |s| then None
    else FindFrom(s, p, i + 1)
  }

  /** `s.includes(p)` / `p in s`. */
  predicate Contains(s: string, p: string) {
    FindFrom(s, p, 0).Some?
  }

  /** `list.some((k) => s.includes(k))`. */
  predicate ContainsAny(s: string, list: seq<string>) {
    |list| > 0 && (Contains(s, list[0]) || ContainsAny(s, list[1..]))
  }

  /** The empty text contains no non-empty word. */
  lemma {:induction false} EmptyContainsNone(list: seq<string>)
    requires "" !in list
    ensures !ContainsAny("", list)
  {
    if |list| > 0 {
      assert list[0] != "";
      assert !StartsAt("", 0, list[0]);
      assert forall w :: w in list[1..] ==> w in list;
      EmptyContainsNone(list[1..]);
    }
  }

  lemma ContainsAt(s: string, p: string, i: nat)
    requires StartsAt(s, i, p)
    ensures Contains(s, p)
  {
    assert FindFrom(s, p, 0).None? ==> !StartsAt(s, i, p);
  }

  lemma ContainsInfix(a: string, p: string, b: string)
    ensures Contains(a + p + b, p)
  {
    assert (a + p + b)[|a|..|a| + |p|] == p;
    ContainsAt(a + p + b, p, |a|);
  }

  /** One past the whitespace run starting at `i`. */
  function SpaceRunEnd(s: string, i: nat): (j: nat)
    requires i <= |s|
    ensures i <= j <= |s|
    ensures forall k :: i <= k < j ==> IsJsSpace(s[k])
    ensures j == |s| || !IsJsSpace(s[j])
    decreases |s| - i
  {
    if i < |s| && IsJsSpace(s[i]) then SpaceRunEnd(s, i + 1) else i
  }

  /** One past the digit run starting at `i`. */
  function DigitRunEnd(s: string, i: nat): (j: nat)
    requires i <= |s|
    ensures i <= j <= |s|
    ensures forall k :: i <= k < j ==> IsDigit(s[k])
    ensures j == |s| || !IsDigit(s[j])
    decreases |s| - i
  {
    if i < |s| && IsDigit(s[i]) then DigitRunEnd(s, i + 1) else i
  }

  /** The first digit at or after `i`. */
  function FirstDigitFrom(s: string, i: nat): (r: Option<nat>)
    requires i <= |s|
    ensures r.Some? ==> i <= r.value < |s| && IsDigit(s[r.value])
    ensures r.Some? ==> forall k :: i <= k < r.value ==> !IsDigit(s[k])
    ensures r.None? ==> forall k :: i <= k < |s| ==> !IsDigit(s[k])
    decreases |s| - i
  {
    if i == |s| then None
    else if IsDigit(s[i]) then Some(i)
    else FirstDigitFrom(s, i + 1)
  }

  /** The value of a string of decimal digits, most significant first. */
  function DigitsValue(d: string): nat
    requires AllDigits(d)
  {
    if |d| == 0 then 0
    else 10 * DigitsValue(d[..|d| - 1]) + DigitValue(d[|d| - 1])
  }

  function Pow10(n: nat): (p: nat)
    ensures p >= 1
  {
    if n == 0 then 1 else 10 * Pow10(n - 1)
  }

  /** The value of the digits after a decimal point: "25" is 0.25. */
  function Fraction(d: string): (f: real)
    requires AllDigits(d)
    ensures 0.0 <= f
  {
    DigitsValue(d) as real / Pow10(|d|) as real
  }

  /** The value of the decimal numeral `d1.d2`: the whole digits plus the
      fractional digits over the matching power of ten. */
  function DecimalValue(d1: string, d2: string): real
    requires AllDigits(d1) && AllDigits(d2)
  {
    DigitsValue(d1) as real + DigitsValue(d2) as real / Pow10(|d2|) as real
  }

  /** `n` in decimal, without leading zeros. */
  function ShowNat(n: nat): (s: string)
    ensures |s| >= 1 && AllDigits(s)
    ensures n >= 10 ==> s[0] != '0'
  {
    if n < 10 then [DigitChar(n)] else ShowNat(n / 10) + [DigitChar(n % 10)]
  }

  /** Reading back what `ShowNat` writes gives the number again. */
  lemma {:induction false} ShowNatRoundTrip(n: nat)
    ensures DigitsValue(ShowNat(n)) == n
  {
    if n >= 10 {
      var s := ShowNat(n);
      assert s[..|s| - 1] == ShowNat(n / 10);
      ShowNatRoundTrip(n / 10);
    }
  }

  /** A match of `(\d+(\.\d+)?)`: where it starts and ends and its value. */
  datatype NumberMatch = NumberMatch(start: nat, end: nat, value: real)

  /** The leftmost, longest match of `\d+(\.\d+)?` in `s` at or after
      `from`. */
  function FindNumberFrom(s: string, from: nat): (m: Option<NumberMatch>)
    requires from <= |s|
    ensures m.Some? ==> from <= m.value.start < m.value.end <= |s| && 0.0 <= m.value.value
  {
    match FirstDigitFrom(s, from)
    case None => None
    case Some(i) =>
      var j := DigitRunEnd(s, i);
      var whole := DigitsValue(s[i..j]);
      if j + 1 < |s| && s[j] == '.' && IsDigit(s[j + 1]) then
        var k := DigitRunEnd(s, j + 1);
        Some(NumberMatch(i, k, whole as real + Fraction(s[j + 1..k])))
      else
        Some(NumberMatch(i, j, whole as real))
  }

  /** The leftmost, longest match of `\d+(\.\d+)?` in `s` (`s.match`). */
  function FindNumber(s: string): (m: Option<NumberMatch>)
    ensures m.Some? ==> m.value.start < m.value.end <= |s| && 0.0 <= m.value.value
  {
    FindNumberFrom(s, 0)
  }

  /** `t` is the whole of `\d+(\.\d+)?`: digits, or digits, a dot and
      digits. */
  predicate IsNumeral(t: string) {
    |t| > 0 && (AllDigits(t) || exists p :: 0 < p < |t| - 1 && t[p] == '.' && AllDigits(t[..p]) && AllDigits(t[p + 1..]))
  }

  /** `m` covers a numeral of `s` worth its face value. A whole number is
      not followed by a dot and a digit, since those would belong to its
      fraction; a number with a fraction is worth its decimal value. Either
      way no digit follows. */
  predicate NumeralMatch(s: string, m: NumberMatch) {
    m.start <= m.end <= |s| &&
    var t := s[m.start..m.end];
    && IsNumeral(t)
    && (AllDigits(t) ==> m.value == DigitsValue(t) as real
                         && !(m.end + 1 < |s| && s[m.end] == '.' && IsDigit(s[m.end + 1])))
    && (forall p :: 0 < p < |t| - 1 && t[p] == '.' && AllDigits(t[..p]) && AllDigits(t[p + 1..])
                    ==> m.value == DecimalValue(t[..p], t[p + 1..]))
    && (m.end == |s| || !IsDigit(s[m.end]))
  }

  /** Whatever the text, the match is a numeral worth its face value. */
  lemma FindNumberShape(s: string, from: nat)
    requires from <= |s|
    ensures var m := FindNumberFrom(s, from); m.Some? ==> NumeralMatch(s, m.value)
  {
    match FirstDigitFrom(s, from)
    case None =>
    case Some(i) =>
      var j := DigitRunEnd(s, i);
      if j + 1 < |s| && s[j] == '.' && IsDigit(s[j + 1]) {
        var k := DigitRunEnd(s, j + 1);
        var m := NumberMatch(i, k, DigitsValue(s[i..j]) as real + Fraction(s[j + 1..k]));
        assert FindNumberFrom(s, from) == Some(m);
        DecimalMatch(s, i, j, k);
      } else {
        var m := NumberMatch(i, j, DigitsValue(s[i..j]) as real);
        assert FindNumberFrom(s, from) == Some(m);
        WholeMatch(s, i, j);
      }
  }

  lemma WholeMatch(s: string, i: nat, j: nat)
    requires i < j <= |s| && AllDigits(s[i..j]) && (j == |s| || !IsDigit(s[j]))
    requires !(j + 1 < |s| && s[j] == '.' && IsDigit(s[j + 1]))
    ensures NumeralMatch(s, NumberMatch(i, j, DigitsValue(s[i..j]) as real))
  {
  }

  lemma DecimalMatch(s: string, i: nat, j: nat, k: nat)
    requires i < j && j + 1 < k <= |s| && s[j] == '.'
    requires AllDigits(s[i..j]) && AllDigits(s[j + 1..k]) && (k == |s| || !IsDigit(s[k]))
    ensures NumeralMatch(s, NumberMatch(i, k, DigitsValue(s[i..j]) as real + Fraction(s[j + 1..k])))
  {
    var t := s[i..k];
    assert t[..j - i] == s[i..j] && t[j - i + 1..] == s[j + 1..k];
    DecimalNumeral(t, j - i, DigitsValue(s[i..j]) as real + Fraction(s[j + 1..k]));
  }

  /** A numeral with a dot has exactly one dot, so its value is the
      decimal value split there. */
  lemma DecimalNumeral(t: string, q: nat, v: real)
    requires 0 < q < |t| - 1 && t[q] == '.' && AllDigits(t[..q]) && AllDigits(t[q + 1..])
    requires v == DecimalValue(t[..q], t[q + 1..])
    ensures IsNumeral(t) && !AllDigits(t)
    ensures forall p :: 0 < p < |t| - 1 && t[p] == '.' && AllDigits(t[..p]) && AllDigits(t[p + 1..])
                        ==> v == DecimalValue(t[..p], t[p + 1..])
  {
  }

  /** What the match found means: none exactly when there is no digit; else
      it starts at the first digit and its digit run is not cut short. */
  lemma FindNumberMeaning(s: string)
    ensures FindNumber(s).None? <==> NoDigits(s)
    ensures var m := FindNumber(s); m.Some? ==>
      && IsDigit(s[m.value.start])
      && (forall k :: 0 <= k < m.value.start ==> !IsDigit(s[k]))
      && (m.value.end == |s| || !IsDigit(s[m.value.end]))
  {
  }

  /** A number written out after digit-free text, and followed by neither a
      digit nor a dot, is found whole. */
  lemma FindNumberOfShown(p: string, n: nat, q: string)
    requires NoDigits(p)
    requires |q| == 0 || (!IsDigit(q[0]) && q[0] != '.')
    ensures FindNumber(p + ShowNat(n) + q) == Some(NumberMatch(|p|, |p| + |ShowNat(n)|, n as real))
  {
    ShowNatRoundTrip(n);
    FindNumberBetween(p + ShowNat(n) + q, p, ShowNat(n), q, n);
  }

  /** Digits after digit-free text, followed by neither a digit nor a dot,
      are the number found. */
  lemma FindNumberBetween(s: string, p: string, d: string, q: string, v: nat)
    requires s == p + d + q
    requires NoDigits(p) && AllDigits(d) && |d| > 0
    requires |q| == 0 || (!IsDigit(q[0]) && q[0] != '.')
    requires DigitsValue(d) == v
    ensures FindNumber(s) == Some(NumberMatch(|p|, |p| + |d|, v as real))
  {
    PlacedBetween(p, d, q);
    FindDigitsAt(s, 0, p, d, |p| + |d|);
  }

  /** Where the pieces of `p + d + q` sit. */
  lemma PlacedBetween(p: string, d: string, q: string)
    requires |q| == 0 || (!IsDigit(q[0]) && q[0] != '.')
    ensures var s := p + d + q; var j := |p| + |d|;
      && s[..|p|] == p && s[|p|..j] == d
      && (j == |s| || (!IsDigit(s[j]) && s[j] != '.'))
  {
    var s := p + d + q;
    assert s[..|p|] == p;
    assert s[|p|..|p| + |d|] == d;
    if |q| > 0 {
      assert s[|p| + |d|] == q[0];
    }
  }

  /** The digits `d` after `p`, whose part from `from` on holds no digit,
      followed by neither a digit nor a dot, are the number found from
      `from`. */
  lemma FindDigitsAt(s: string, from: nat, p: string, d: string, j: nat)
    requires from <= |p| < j <= |s| && s[..|p|] == p && s[|p|..j] == d
    requires forall k :: from <= k < |p| ==> !IsDigit(p[k])
    requires AllDigits(d)
    requires j == |s| || (!IsDigit(s[j]) && s[j] != '.')
    ensures FindNumberFrom(s, from) == Some(NumberMatch(|p|, j, DigitsValue(d) as real))
  {
    var i := |p|;
    forall k | from <= k < i ensures !IsDigit(s[k]) {
      assert s[k] == p[k];
    }
    forall k | i <= k < j ensures IsDigit(s[k]) {
      assert s[k] == d[k - i];
    }
    FindNumberAt(s, from, i, j);
  }

  /** A run of digits with no digit between `from` and it, and neither a
      digit nor a dot after it, is the number found from `from`. */
  lemma FindNumberAt(s: string, from: nat, i: nat, j: nat)
    requires from <= i < j <= |s|
    requires forall k :: from <= k < i ==> !IsDigit(s[k])
    requires forall k :: i <= k < j ==> IsDigit(s[k])
    requires j == |s| || (!IsDigit(s[j]) && s[j] != '.')
    ensures FindNumberFrom(s, from) == Some(NumberMatch(i, j, DigitsValue(s[i..j]) as real))
  {
    FirstDigitSkips(s, from, i);
    DigitRunCovers(s, i, j);
    FindWholeNumber(s, from, i, j);
  }

  /** A digit run that is the first from `from` and is not followed by a
      fraction is the whole number found. */
  lemma FindWholeNumber(s: string, from: nat, i: nat, j: nat)
    requires from <= i <= j <= |s|
    requires FirstDigitFrom(s, from) == Some(i) && DigitRunEnd(s, i) == j
    requires !(j + 1 < |s| && s[j] == '.')
    ensures FindNumberFrom(s, from) == Some(NumberMatch(i, j, DigitsValue(s[i..j]) as real))
  {
  }

  /** A decimal `d1.d2` after digit-free text, followed by no digit, is
      found whole, with the value of its whole and its fractional digits. */
  lemma FindDecimalBetween(s: string, p: string, d1: string, d2: string, q: string)
    requires s == p + d1 + "." + d2 + q
    requires NoDigits(p) && AllDigits(d1) && AllDigits(d2) && |d1| > 0 && |d2| > 0
    requires |q| == 0 || !IsDigit(q[0])
    ensures FindNumber(s) == Some(NumberMatch(|p|, |p| + |d1| + 1 + |d2|, DecimalValue(d1, d2)))
  {
    PlacedDecimal(p, d1, d2, q);
    FindDecimalDigitsAt(s, p, d1, d2, |p| + |d1|, |p| + |d1| + 1 + |d2|);
  }

  /** Where the pieces of `p + d1 + "." + d2 + q` sit. */
  lemma PlacedDecimal(p: string, d1: string, d2: string, q: string)
    requires |q| == 0 || !IsDigit(q[0])
    ensures var s := p + d1 + "." + d2 + q; var j := |p| + |d1|; var k := j + 1 + |d2|;
      && k <= |s| && s[..|p|] == p && s[|p|..j] == d1 && s[j] == '.' && s[j + 1..k] == d2
      && (k == |s| || !IsDigit(s[k]))
  {
    var s := p + d1 + "." + d2 + q;
    var j := |p| + |d1|;
    assert s[..|p|] == p;
    assert s[|p|..j] == d1;
    assert s[j] == '.';
    assert s[j + 1..j + 1 + |d2|] == d2;
    if |q| > 0 {
      assert s[j + 1 + |d2|] == q[0];
    }
  }

  /** The digits `d1`, a dot and the digits `d2` after digit-free `p`,
      followed by no digit, are the number found. */
  lemma FindDecimalDigitsAt(s: string, p: string, d1: string, d2: string, j: nat, k: nat)
    requires |p| < j && j + 1 < k <= |s|
    requires s[..|p|] == p && s[|p|..j] == d1 && s[j] == '.' && s[j + 1..k] == d2
    requires NoDigits(p) && AllDigits(d1) && AllDigits(d2)
    requires k == |s| || !IsDigit(s[k])
    ensures FindNumber(s) == Some(NumberMatch(|p|, k, DecimalValue(d1, d2)))
  {
    var i := |p|;
    forall m | 0 <= m < i ensures !IsDigit(s[m]) {
      assert s[m] == p[m];
    }
    forall m | i <= m < j ensures IsDigit(s[m]) {
      assert s[m] == d1[m - i];
    }
    forall m | j + 1 <= m < k ensures IsDigit(s[m]) {
      assert s[m] == d2[m - j - 1];
    }
    FindDecimalAt(s, i, j, k);
  }

  /** A digit run, a dot and a second digit run, with no digit before and
      none after, is the number found, fraction included. */
  lemma FindDecimalAt(s: string, i: nat, j: nat, k: nat)
    requires i < j && j + 1 < k <= |s|
    requires forall m :: 0 <= m < i ==> !IsDigit(s[m])
    requires forall m :: i <= m < j ==> IsDigit(s[m])
    requires s[j] == '.'
    requires forall m :: j + 1 <= m < k ==> IsDigit(s[m])
    requires k == |s| || !IsDigit(s[k])
    ensures FindNumber(s) == Some(NumberMatch(i, k, DigitsValue(s[i..j]) as real + Fraction(s[j + 1..k])))
  {
    FirstDigitSkips(s, 0, i);
    DigitRunCovers(s, i, j);
    DigitRunCovers(s, j + 1, k);
  }

  lemma {:induction false} FirstDigitSkips(s: string, i: nat, j: nat)
    requires i <= j < |s|
    requires forall k :: i <= k < j ==> !IsDigit(s[k])
    requires IsDigit(s[j])
    ensures FirstDigitFrom(s, i) == Some(j)
    decreases j - i
  {
    if i < j {
      FirstDigitSkips(s, i + 1, j);
    }
  }

  lemma {:induction false} DigitRunCovers(s: string, i: nat, j: nat)
    requires i <= j <= |s|
    requires forall k :: i <= k < j ==> IsDigit(s[k])
    requires j == |s| || !IsDigit(s[j])
    ensures DigitRunEnd(s, i) == j
    decreases j - i
  {
    if i < j {
      DigitRunCovers(s, i + 1, j);
    }
  }

  /** A search pattern: a literal, or `a\s*b`. */
  datatype Pattern = Lit(text: string) | Spaced(before: string, after: string)

  /** The pattern matches at position `i` of `s`. For `a\s*b` with `b` not
      starting with whitespace, the greedy whitespace run is the only one that
      can be followed by `b`. */
  predicate MatchesAt(s: string, i: nat, pat: Pattern)
    requires i <= |s|
  {
    match pat
    case Lit(t) => StartsAt(s, i, t)
    case Spaced(a, b) =>
      StartsAt(s, i, a) && StartsAt(s, SpaceRunEnd(s, i + |a|), b)
  }

  /** The pattern matches somewhere in `s` (`regex.test(s)`). */
  predicate MatchesFrom(s: string, pat: Pattern, i: nat)
    requires i <= |s|
    decreases |s| - i
  {
    MatchesAt(s, i, pat) || (i < |s| && MatchesFrom(s, pat, i + 1))
  }

  predicate Matches(s: string, pat: Pattern) {
    MatchesFrom(s, pat, 0)
  }

  /** Any of the alternatives matches (`a|b|...`). */
  predicate MatchesAny(s: string, pats: seq<Pattern>) {
    |pats| > 0 && (Matches(s, pats[0]) || MatchesAny(s, pats[1..]))
  }

  lemma {:induction false} MatchesFromAt(s: string, pat: Pattern, i: nat, j: nat)
    requires i <= j <= |s| && MatchesAt(s, j, pat)
    ensures MatchesFrom(s, pat, i)
    decreases j - i
  {
    if i < j {
      MatchesFromAt(s, pat, i + 1, j);
    }
  }

  /** A literal pattern matches exactly when the text contains it. */
  lemma LitMatchesIffContains(s: string, t: string)
    ensures Matches(s, Lit(t)) <==> Contains(s, t)
  {
    if Contains(s, t) {
      MatchesFromAt(s, Lit(t), 0, FindFrom(s, t, 0).value);
    }
    if Matches(s, Lit(t)) {
      var k := LitMatchPosition(s, t, 0);
      ContainsAt(s, t, k);
    }
  }

  lemma {:induction false} LitMatchPosition(s: string, t: string, i: nat) returns (k: nat)
    requires i <= |s| && MatchesFrom(s, Lit(t), i)
    ensures i <= k <= |s| && StartsAt(s, k, t)
    decreases |s| - i
  {
    if MatchesAt(s, i, Lit(t)) {
      k := i;
    } else {
      k := LitMatchPosition(s, t, i + 1);
    }
  }
}
