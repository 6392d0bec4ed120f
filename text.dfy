/** The parts of Python's `str` behaviour the crawler relies on: whitespace
    (`isspace`, `strip`, `split()`), prefix and substring tests, ASCII
    lower-casing, splitting on one character, and decimal `int()` parsing. */
module Text {
  import opened Wrappers

  /** Python's `str.isspace()`: the characters `strip()`, `split()` and the regex class `\s` treat as blanks. */
  predicate IsSpace(c: char) {
    || c == ' '
    || ('\t' <= c <= '\r')
    || ('\U{1c}' <= c <= '\U{1f}')
    || c == '\U{85}' || c == '\U{a0}' || c == '\U{1680}'
    || ('\U{2000}' <= c <= '\U{200a}')
    || c == '\U{2028}' || c == '\U{2029}' || c == '\U{202f}' || c == '\U{205f}' || c == '\U{3000}'
  }

  predicate AllSpace(s: string) {
    forall i :: 0 <= i < |s| ==> IsSpace(s[i])
  }

  predicate NoSpace(s: string) {
    forall i :: 0 <= i < |s| ==> !IsSpace(s[i])
  }

  /** Neither end of `s` is a blank (what `strip()` guarantees). */
  predicate IsStripped(s: string) {
    s == [] || (!IsSpace(s[0]) && !IsSpace(s[|s| - 1]))
  }

  /** `s.lstrip()`: the suffix of `s` after its leading blanks (see `LStripIsSuffix`). */
  function LStrip(s: string): (r: string)
    ensures |r| <= |s|
    ensures r == [] || !IsSpace(r[0])
  {
    if |s| > 0 && IsSpace(s[0]) then LStrip(s[1..]) else s
  }

  /** `s.rstrip()`: the prefix of `s` before its trailing blanks (see `RStripIsPrefix`). */
  function RStrip(s: string): (r: string)
    ensures |r| <= |s|
    ensures r == [] || (r[0] == s[0] && !IsSpace(r[|r| - 1]))
  {
    if |s| > 0 && IsSpace(s[|s| - 1]) then RStrip(s[..|s| - 1]) else s
  }

  /** `s.strip()`: the blanks at both ends removed. */
  function Strip(s: string): (r: string)
    ensures IsStripped(r)
  {
    RStrip(LStrip(s))
  }

  /** `lstrip` removes a run of blanks and keeps the rest of the text. */
  lemma {:induction false} LStripIsSuffix(s: string)
    ensures var r := LStrip(s); r == s[|s| - |r|..] && AllSpace(s[..|s| - |r|])
    decreases |s|
  {
    if |s| > 0 && IsSpace(s[0]) {
      LStripIsSuffix(s[1..]);
      var r := LStrip(s);
      assert s[|s| - |r|..] == s[1..][|s| - 1 - |r|..];
      assert forall i :: 1 <= i < |s| - |r| ==> s[i] == s[1..][..|s| - 1 - |r|][i - 1];
    }
  }

  /** `rstrip` removes a run of blanks and keeps the start of the text. */
  lemma {:induction false} RStripIsPrefix(s: string)
    ensures var r := RStrip(s); r == s[..|r|] && AllSpace(s[|r|..])
    decreases |s|
  {
    if |s| > 0 && IsSpace(s[|s| - 1]) {
      var t := s[..|s| - 1];
      RStripIsPrefix(t);
      var r := RStrip(s);
      assert s[..|r|] == t[..|r|];
      assert forall i :: |r| <= i < |s| - 1 ==> s[i] == t[|r|..][i - |r|];
    }
  }

  /** What `strip()` leaves is a slice of `s` with only blanks before and after it. */
  lemma {:induction false} StripIsSliceBetweenBlanks(s: string)
    ensures var r := Strip(s);
      exists i, j :: 0 <= i <= j <= |s| && r == s[i..j] && AllSpace(s[..i]) && AllSpace(s[j..])
  {
    var l := LStrip(s);
    var r := Strip(s);
    LStripIsSuffix(s);
    RStripIsPrefix(l);
    var i := |s| - |l|;
    assert s[i..i + |r|] == r;
    assert s[i + |r|..] == l[|r|..];
  }

  lemma {:induction false} StrippedIsFixpoint(s: string)
    requires IsStripped(s)
    ensures Strip(s) == s
  {
  }

  lemma {:induction false} StripIdempotent(s: string)
    ensures Strip(Strip(s)) == Strip(s)
  {
    StrippedIsFixpoint(Strip(s));
  }

  lemma {:induction false} NoSpaceIsStripped(s: string)
    requires NoSpace(s)
    ensures Strip(s) == s
  {
    StrippedIsFixpoint(s);
  }

  predicate StartsWith(s: string, prefix: string) {
    |prefix| <= |s| && s[..|prefix|] == prefix
  }

  predicate EndsWith(s: string, suffix: string) {
    |suffix| <= |s| && s[|s| - |suffix|..] == suffix
  }

  /** `t` occurs in `s` at position `i`. */
  predicate OccursAt(s: string, i: nat, t: string) {
    i + |t| <= |s| && s[i..i + |t|] == t
  }

  /**
   * `re.search` for a pattern that never matches the empty string: the leftmost position
   * `p` in `from..n` where `matchAt(p)` succeeds, with what it matched.
   */
  function Search<T>(n: nat, from: nat, matchAt: nat -> Option<T>): (r: Option<(nat, T)>)
    ensures r.Some? ==> from <= r.value.0 < n && matchAt(r.value.0) == Some(r.value.1)
    ensures r.Some? ==> forall q :: from <= q < r.value.0 ==> matchAt(q).None?
    ensures r.None? ==> forall q :: from <= q < n ==> matchAt(q).None?
    decreases n - from
  {
    if from >= n then None
    else match matchAt(from)
      case Some(m) => Some((from, m))
      case None => Search(n, from + 1, matchAt)
  }

  /** The search finds the first position where the pattern matches. */
  lemma {:induction false} SearchFindsFirst<T>(n: nat, from: nat, matchAt: nat -> Option<T>, p: nat)
    requires from <= p < n && matchAt(p).Some?
    requires forall q :: from <= q < p ==> matchAt(q).None?
    ensures Search(n, from, matchAt) == Some((p, matchAt(p).value))
  {
  }

  /** `sub in s` */
  predicate Contains(s: string, sub: string)
    decreases |s|
  {
    StartsWith(s, sub) || (|s| > 0 && Contains(s[1..], sub))
  }

  lemma {:induction false} ContainsAt(s: string, sub: string, i: nat)
    requires i + |sub| <= |s| && s[i..i + |sub|] == sub
    ensures Contains(s, sub)
    decreases i
  {
    if i > 0 {
      assert s[1..][i - 1..i - 1 + |sub|] == sub;
      ContainsAt(s[1..], sub, i - 1);
    }
  }

  lemma {:induction false} ContainsPrefix(s: string, t: string, sub: string)
    requires Contains(s, sub)
    ensures Contains(s + t, sub)
    decreases |s|
  {
    if StartsWith(s, sub) {
      assert (s + t)[..|sub|] == s[..|sub|];
    } else {
      assert (s + t)[1..] == s[1..] + t;
      ContainsPrefix(s[1..], t, sub);
    }
  }

  /** A substring occurrence cannot hold a character the whole string lacks. */
  lemma {:induction false} ContainsChar(s: string, sub: string, k: nat)
    requires Contains(s, sub) && k < |sub|
    ensures sub[k] in s
    decreases |s|
  {
    if StartsWith(s, sub) {
      assert s[k] == sub[k];
    } else {
      ContainsChar(s[1..], sub, k);
    }
  }

  function LowerChar(c: char): char {
    if 'A' <= c <= 'Z' then (c as int + 32) as char else c
  }

  /** `s.lower()` on ASCII letters. */
  function Lower(s: string): (r: string)
    ensures |r| == |s| && forall i :: 0 <= i < |s| ==> r[i] == LowerChar(s[i])
  {
    seq(|s|, i requires 0 <= i < |s| => LowerChar(s[i]))
  }

  /** The regex flag `re.IGNORECASE` applied to a lower-case literal `word` at the start of `s`. */
  predicate StartsWithIgnoreCase(s: string, word: string) {
    |word| <= |s| && Lower(s[..|word|]) == word
  }

  /** The end of the run of blanks that starts at `i` (`\s*` matched greedily). */
  function SkipSpaces(s: string, i: nat): (j: nat)
    requires i <= |s|
    ensures i <= j <= |s| && AllSpace(s[i..j]) && (j == |s| || !IsSpace(s[j]))
    decreases |s| - i
  {
    if i < |s| && IsSpace(s[i]) then SkipSpaces(s, i + 1) else i
  }

  /** `SkipSpaces` stops at the first non-blank. */
  lemma {:induction false} SkipSpacesTo(s: string, i: nat, j: nat)
    requires i <= j < |s| && !IsSpace(s[j])
    requires forall k :: i <= k < j ==> IsSpace(s[k])
    ensures SkipSpaces(s, i) == j
    decreases j - i
  {
    if i < j {
      SkipSpacesTo(s, i + 1, j);
    }
  }

  /** The longest prefix of `s` without blanks. */
  function TakeWord(s: string): (w: string)
    ensures |w| <= |s| && w == s[..|w|] && NoSpace(w)
    ensures |w| == |s| || IsSpace(s[|w|])
  {
    if |s| > 0 && !IsSpace(s[0]) then [s[0]] + TakeWord(s[1..]) else []
  }

  /** `s.split()`: the maximal runs of non-blank characters, in order. */
  function Words(s: string): (ws: seq<string>)
    ensures forall i :: 0 <= i < |ws| ==> |ws[i]| > 0 && NoSpace(ws[i])
    decreases |s|
  {
    var t := LStrip(s);
    if t == [] then [] else
      var w := TakeWord(t);
      [w] + Words(t[|w|..])
  }

  /** `sep.join(parts)` */
  function Join(parts: seq<string>, sep: string): string {
    if |parts| == 0 then ""
    else if |parts| == 1 then parts[0]
    else parts[0] + sep + Join(parts[1..], sep)
  }

  /** `" ".join(s.split())`: blanks collapsed to single spaces and trimmed at both ends. */
  function CollapseSpaces(s: string): string {
    Join(Words(s), " ")
  }

  /** Every blank is a single ' ' standing between two non-blanks. */
  predicate Collapsed(r: string) {
    forall i :: 0 <= i < |r| && IsSpace(r[i]) ==>
      r[i] == ' ' && 0 < i < |r| - 1 && !IsSpace(r[i - 1]) && !IsSpace(r[i + 1])
  }

  /** Words joined with single spaces give a non-empty text that starts and ends with a non-blank. */
  lemma {:induction false} JoinWordsEnds(ws: seq<string>)
    requires forall i :: 0 <= i < |ws| ==> |ws[i]| > 0 && NoSpace(ws[i])
    ensures |ws| > 0 ==> |Join(ws, " ")| > 0 && IsStripped(Join(ws, " "))
  {
    if |ws| > 1 {
      JoinWordsEnds(ws[1..]);
      var rest := Join(ws[1..], " ");
      var r := ws[0] + " " + rest;
      assert Join(ws, " ") == r;
      assert r[|r| - 1] == rest[|rest| - 1];
    }
  }

  lemma {:induction false} JoinWordsCollapsed(ws: seq<string>)
    requires forall i :: 0 <= i < |ws| ==> |ws[i]| > 0 && NoSpace(ws[i])
    ensures Collapsed(Join(ws, " "))
    ensures |ws| > 0 ==> |Join(ws, " ")| > 0 && !IsSpace(Join(ws, " ")[0])
    ensures |ws| > 0 ==> !IsSpace(Join(ws, " ")[|Join(ws, " ")| - 1])
  {
    if |ws| > 1 {
      JoinWordsCollapsed(ws[1..]);
      var w, rest := ws[0], Join(ws[1..], " ");
      var r := w + " " + rest;
      assert Join(ws, " ") == r;
      forall i | 0 <= i < |r| && IsSpace(r[i])
        ensures r[i] == ' ' && 0 < i < |r| - 1 && !IsSpace(r[i - 1]) && !IsSpace(r[i + 1])
      {
        if i > |w| {
          assert r[i] == rest[i - |w| - 1];
          if i - |w| - 1 > 0 {
            assert r[i - 1] == rest[i - |w| - 2];
          }
          assert r[i + 1] == rest[i - |w|];
        }
      }
      assert r[|r| - 1] == rest[|rest| - 1];
    }
  }

  /** The collapsed text is trimmed and has only single spaces between words. */
  lemma {:induction false} CollapseSpacesShape(s: string)
    ensures Collapsed(CollapseSpaces(s)) && IsStripped(CollapseSpaces(s))
  {
    JoinWordsCollapsed(Words(s));
  }

  lemma {:induction false} TakeWordBeforeSpace(w: string, rest: string)
    requires NoSpace(w) && (rest == [] || IsSpace(rest[0]))
    ensures TakeWord(w + rest) == w
    decreases |w|
  {
    if |w| > 0 {
      assert (w + rest)[1..] == w[1..] + rest;
      TakeWordBeforeSpace(w[1..], rest);
    } else {
      assert w + rest == rest;
    }
  }

  lemma {:induction false} LStripAfterSpace(rest: string)
    requires rest == [] || !IsSpace(rest[0])
    ensures LStrip(" " + rest) == rest
  {
    assert (" " + rest)[1..] == rest;
  }

  lemma {:induction false} WordsAfterSpace(rest: string)
    requires rest == [] || !IsSpace(rest[0])
    ensures Words(" " + rest) == Words(rest)
  {
    LStripAfterSpace(rest);
  }

  lemma {:induction false} WordsOfWordThenSpace(w: string, rest: string)
    requires |w| > 0 && NoSpace(w) && (rest == [] || !IsSpace(rest[0]))
    ensures Words(w + " " + rest) == [w] + Words(rest)
  {
    var r := w + " " + rest;
    assert r == w + (" " + rest);
    TakeWordBeforeSpace(w, " " + rest);
    assert r[|w|..] == " " + rest;
    WordsAfterSpace(rest);
  }

  lemma {:induction false} WordsOfWord(w: string)
    requires |w| > 0 && NoSpace(w)
    ensures Words(w) == [w]
  {
    TakeWordBeforeSpace(w, []);
    assert w + [] == w;
    assert w[|w|..] == [];
    assert Words([]) == [];
  }

  lemma {:induction false} WordsOfJoin(ws: seq<string>)
    requires forall i :: 0 <= i < |ws| ==> |ws[i]| > 0 && NoSpace(ws[i])
    ensures Words(Join(ws, " ")) == ws
  {
    if |ws| == 0 {
      assert Words("") == [];
    } else if |ws| == 1 {
      WordsOfWord(ws[0]);
    } else {
      var tail := ws[1..];
      JoinWordsEnds(tail);
      WordsOfJoin(tail);
      var rest := Join(tail, " ");
      WordsOfWordThenSpace(ws[0], rest);
      assert Join(ws, " ") == ws[0] + " " + rest;
      assert [ws[0]] + tail == ws;
    }
  }

  /** Collapsing twice changes nothing. */
  lemma {:induction false} CollapseSpacesIdempotent(s: string)
    ensures CollapseSpaces(CollapseSpaces(s)) == CollapseSpaces(s)
  {
    WordsOfJoin(Words(s));
  }

  /** The position of the first `c` in `s`, or `|s|`. */
  function IndexOf(s: string, c: char): (k: nat)
    ensures k <= |s| && c !in s[..k] && (k < |s| ==> s[k] == c)
  {
    if |s| == 0 then 0
    else if s[0] == c then 0
    else
      var k := 1 + IndexOf(s[1..], c);
      assert s[..k] == [s[0]] + s[1..][..k - 1];
      k
  }

  /** `s.split(c)`: the pieces between occurrences of `c`; joining them with `c` gives `s` back. */
  function SplitOn(s: string, c: char): (parts: seq<string>)
    ensures |parts| == multiset(s)[c] + 1
    ensures forall i :: 0 <= i < |parts| ==> c !in parts[i]
    ensures Join(parts, [c]) == s
    decreases |s|
  {
    var k := IndexOf(s, c);
    if k == |s| then
      assert s[..k] == s;
      [s]
    else
      var rest := SplitOn(s[k + 1..], c);
      SplitAround(s, k);
      JoinCons(s[..k], rest, [c]);
      [s[..k]] + rest
  }

  /** Joining a first part in front of a non-empty list puts the separator between them. */
  lemma {:induction false} JoinCons(first: string, rest: seq<string>, sep: string)
    requires |rest| > 0
    ensures Join([first] + rest, sep) == first + sep + Join(rest, sep)
  {
    assert ([first] + rest)[1..] == rest;
  }

  /** `s` is what comes before position `k`, the character there, and what follows it. */
  lemma {:induction false} SplitAround(s: string, k: nat)
    requires k < |s|
    ensures s == s[..k] + [s[k]] + s[k + 1..]
    ensures multiset(s) == multiset(s[..k]) + multiset([s[k]]) + multiset(s[k + 1..])
  {
    assert s == s[..k] + [s[k]] + s[k + 1..];
  }

  predicate IsLineBreak(c: char) {
    c == '\r' || c == '\n'
  }

  /** The position of the first '\r' or '\n' in `s`, or `|s|`. */
  function IndexOfLineBreak(s: string): (k: nat)
    ensures k <= |s| && (forall i :: 0 <= i < k ==> !IsLineBreak(s[i]))
    ensures k < |s| ==> IsLineBreak(s[k])
  {
    if |s| == 0 || IsLineBreak(s[0]) then 0 else 1 + IndexOfLineBreak(s[1..])
  }

  /** The end of the run of line breaks starting at `i`. */
  function SkipLineBreaks(s: string, i: nat): (j: nat)
    requires i <= |s|
    ensures i <= j <= |s| && (j == |s| || !IsLineBreak(s[j]))
    ensures forall k :: i <= k < j ==> IsLineBreak(s[k])
    decreases |s| - i
  {
    if i < |s| && IsLineBreak(s[i]) then SkipLineBreaks(s, i + 1) else i
  }

  /** `re.split(r'[\r\n]+', s)`: the pieces between runs of line breaks (empty pieces at the ends kept). */
  function SplitLines(s: string): (parts: seq<string>)
    ensures |parts| >= 1
    ensures forall i, k :: 0 <= i < |parts| && 0 <= k < |parts[i]| ==> !IsLineBreak(parts[i][k])
    decreases |s|
  {
    var k := IndexOfLineBreak(s);
    if k == |s| then [s]
    else [s[..k]] + SplitLines(s[SkipLineBreaks(s, k)..])
  }

  // ---------------------------------------------------------------------------------------
  // Decimal numbers: Python's `int(text)` and `str(n)`.

  predicate IsDigit(c: char) {
    '0' <= c <= '9'
  }

  predicate AllDigits(s: string) {
    forall i :: 0 <= i < |s| ==> IsDigit(s[i])
  }

  /** The value of a string of decimal digits. */
  function DecimalValue(s: string): nat
    requires AllDigits(s)
  {
    if |s| == 0 then 0 else DecimalValue(s[..|s| - 1]) * 10 + (s[|s| - 1] as int - '0' as int)
  }

  lemma {:induction false} DecimalValueBound(s: string)
    requires AllDigits(s)
    ensures DecimalValue(s) < Pow10(|s|)
  {
    if |s| > 0 {
      DecimalValueBound(s[..|s| - 1]);
    }
  }

  function Pow10(n: nat): (p: nat)
    ensures p >= 1
  {
    if n == 0 then 1 else 10 * Pow10(n - 1)
  }

  /** `str(n)` for a natural number. */
  function NatToDecimal(n: nat): (s: string)
    ensures |s| > 0 && AllDigits(s)
  {
    if n < 10 then [('0' as int + n) as char]
    else NatToDecimal(n / 10) + [('0' as int + n % 10) as char]
  }

  lemma {:induction false} NatToDecimalValue(n: nat)
    ensures DecimalValue(NatToDecimal(n)) == n
  {
    if n >= 10 {
      var s := NatToDecimal(n);
      assert s[..|s| - 1] == NatToDecimal(n / 10);
      NatToDecimalValue(n / 10);
    }
  }

  /** The digits of a Python integer literal: digits, with single underscores allowed between them. */
  predicate DigitGroups(s: string) {
    && |s| > 0 && IsDigit(s[0]) && IsDigit(s[|s| - 1])
    && DigitsOrUnderscores(s)
    && forall i :: 0 <= i < |s| ==> DigitFollowsUnderscore(s, i)
  }

  /** An underscore at `i` has a digit right after it. */
  predicate DigitFollowsUnderscore(s: string, i: nat)
    requires i < |s|
  {
    s[i] == '_' ==> i + 1 < |s| && IsDigit(s[i + 1])
  }

  predicate DigitsOrUnderscores(s: string) {
    forall i :: 0 <= i < |s| ==> IsDigit(s[i]) || s[i] == '_'
  }

  function RemoveUnderscores(s: string): (r: string)
    requires DigitsOrUnderscores(s)
    ensures AllDigits(r) && |r| <= |s|
    ensures AllDigits(s) ==> r == s
  {
    if |s| == 0 then []
    else if s[0] == '_' then RemoveUnderscores(s[1..])
    else [s[0]] + RemoveUnderscores(s[1..])
  }

  /** Python's `int(text)` in base 10: blanks around, an optional sign, digit groups; `None` where Python raises. */
  function ParseInt(text: string): Option<int> {
    ParseSigned(Strip(text))
  }

  /** `int` on text with no blanks around it. */
  function ParseSigned(t: string): Option<int> {
    var signed := |t| > 0 && (t[0] == '-' || t[0] == '+');
    match ParseDigits(if signed then t[1..] else t)
    case Some(n) => Some(if signed && t[0] == '-' then -(n as int) else n as int)
    case None => None
  }

  /** The value of a run of digit groups, `None` on anything else. */
  function ParseDigits(digits: string): Option<nat> {
    if DigitGroups(digits) then Some(DecimalValue(RemoveUnderscores(digits))) else None
  }

  /** `str(n)` for any integer. */
  function IntToDecimal(n: int): string {
    if n < 0 then "-" + NatToDecimal(-n) else NatToDecimal(n)
  }

  lemma {:induction false} DecimalHasNoSpace(d: string)
    requires AllDigits(d)
    ensures NoSpace(d)
  {
    forall i | 0 <= i < |d| ensures !IsSpace(d[i]) {
      assert IsDigit(d[i]);
    }
  }

  lemma {:induction false} SignedHasNoSpace(d: string, negative: bool)
    requires AllDigits(d)
    ensures NoSpace((if negative then "-" else "") + d)
  {
    var s := (if negative then "-" else "") + d;
    DecimalHasNoSpace(d);
    forall i | 0 <= i < |s| ensures !IsSpace(s[i]) {
      if negative && i > 0 { assert s[i] == d[i - 1]; }
      if !negative { assert s[i] == d[i]; }
    }
  }

  lemma {:induction false} ParseDigitsOfDigits(d: string)
    requires |d| > 0 && AllDigits(d)
    ensures ParseDigits(d) == Some(DecimalValue(d))
  {
    assert DigitGroups(d);
  }

  lemma {:induction false} ParseSignedOfNegative(d: string)
    requires |d| > 0 && AllDigits(d)
    ensures ParseSigned("-" + d) == Some(-(DecimalValue(d) as int))
  {
    var t := "-" + d;
    assert t[0] == '-';
    assert t[1..] == d;
    ParseDigitsOfDigits(d);
    assert ParseDigits(t[1..]) == Some(DecimalValue(d));
  }

  lemma {:induction false} ParseSignedOfNonNegative(d: string)
    requires |d| > 0 && AllDigits(d)
    ensures ParseSigned(d) == Some(DecimalValue(d) as int)
  {
    ParseDigitsOfDigits(d);
    assert IsDigit(d[0]);
  }

  lemma {:induction false} ParseIntOfDigits(d: string, negative: bool)
    requires |d| > 0 && AllDigits(d)
    ensures ParseInt((if negative then "-" else "") + d) == Some(if negative then -(DecimalValue(d) as int) else DecimalValue(d))
  {
    var s := (if negative then "-" else "") + d;
    SignedHasNoSpace(d, negative);
    NoSpaceIsStripped(s);
    assert ParseInt(s) == ParseSigned(s);
    if negative {
      assert s == "-" + d;
      ParseSignedOfNegative(d);
    } else {
      assert s == d;
      ParseSignedOfNonNegative(d);
    }
  }

  lemma {:induction false} IntRoundTrip(n: int)
    ensures ParseInt(IntToDecimal(n)) == Some(n)
  {
    var m := if n < 0 then -n else n;
    NatToDecimalValue(m);
    ParseIntOfDigits(NatToDecimal(m), n < 0);
    if n >= 0 {
      assert "" + NatToDecimal(m) == NatToDecimal(m);
    }
  }

  lemma {:induction false} ParseIntRejectsNonNumbers(text: string)
    requires forall i :: 0 <= i < |text| ==> !IsDigit(text[i])
    ensures ParseInt(text) == None
  {
    StripIsSliceBetweenBlanks(text);
    var t := Strip(text);
    var i, j :| 0 <= i <= j <= |text| && t == text[i..j];
    assert forall k :: 0 <= k < |t| ==> t[k] == text[i + k];
  }
}
