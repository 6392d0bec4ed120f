/**
 * `parse_date` of extraction.py: the first `D/M/YYYY` in a text, optionally followed by
 * blanks and `H:MM`, read with `datetime.strptime`.
 *
 * The pattern `(\d{1,2}/\d{1,2}/\d{4})(?:\s+(\d{1,2}:\d{2}))?` is matched the way Python's
 * `re.search` does: at the leftmost position where it matches, each `\d{1,2}` taking two
 * digits when the separator follows them and one digit otherwise, `\s+` taking the whole
 * run of blanks.  `strptime` then accepts exactly the values `ValidDateTime` describes.
 */
module DateParsing {
  import opened Wrappers
  import opened Text
  import opened Models

  /** `n` digits start at position `i` of `s`. */
  predicate DigitsAt(s: string, i: nat, n: nat) {
    i + n <= |s| && forall k :: i <= k < i + n ==> IsDigit(s[k])
  }

  /** How many digits `\d{1,2}` takes at `i` when `sep` must follow them; 0 when it cannot match. */
  function ShortNumberWidth(s: string, i: nat, sep: char): nat {
    if DigitsAt(s, i, 2) && i + 2 < |s| && s[i + 2] == sep then 2
    else if DigitsAt(s, i, 1) && i + 1 < |s| && s[i + 1] == sep then 1
    else 0
  }

  /** The text of group 1: day, month and year digits. */
  datatype DateText = DateText(dayDigits: string, monthDigits: string, yearDigits: string) {
    predicate WellFormed() {
      && 1 <= |dayDigits| <= 2 && AllDigits(dayDigits)
      && 1 <= |monthDigits| <= 2 && AllDigits(monthDigits)
      && |yearDigits| == 4 && AllDigits(yearDigits)
    }
    function Spelled(): string {
      dayDigits + "/" + monthDigits + "/" + yearDigits
    }
  }

  /** The text of group 2: hour and minute digits. */
  datatype TimeText = TimeText(hourDigits: string, minuteDigits: string) {
    predicate WellFormed() {
      1 <= |hourDigits| <= 2 && AllDigits(hourDigits) && |minuteDigits| == 2 && AllDigits(minuteDigits)
    }
    function Spelled(): string {
      hourDigits + ":" + minuteDigits
    }
  }

  /** Group 1 when the pattern matches at position `p`. */
  function DateAt(s: string, p: nat): (r: Option<DateText>)
    ensures r.Some? ==> r.value.WellFormed() && OccursAt(s, p, r.value.Spelled())
  {
    var w1 := ShortNumberWidth(s, p, '/');
    if w1 == 0 then None
    else
      var q := p + w1 + 1;
      var w2 := ShortNumberWidth(s, q, '/');
      if w2 == 0 then None
      else
        var y := q + w2 + 1;
        if !DigitsAt(s, y, 4) then None
        else
          var t := DateText(s[p..p + w1], s[q..q + w2], s[y..y + 4]);
          SpelledAt(s, p, w1, w2);
          Some(t)
  }

  /** A stretch of `s` holding two separators is the three pieces they delimit, spelled back. */
  lemma {:induction false} SpelledAt(s: string, p: nat, w1: nat, w2: nat)
    requires p + w1 + w2 + 6 <= |s| && s[p + w1] == '/' && s[p + w1 + 1 + w2] == '/'
    ensures var q, y := p + w1 + 1, p + w1 + w2 + 2;
      s[p..y + 4] == DateText(s[p..p + w1], s[q..q + w2], s[y..y + 4]).Spelled()
  {
    var q, y := p + w1 + 1, p + w1 + w2 + 2;
    assert s[p..y + 4] == s[p..p + w1] + s[p + w1..q] + s[q..y + 4];
    assert s[q..y + 4] == s[q..q + w2] + s[q + w2..y] + s[y..y + 4];
    assert s[p + w1..q] == "/" && s[q + w2..y] == "/";
  }

  lemma {:induction false} OccursAtSplit(s: string, i: nat, a: string, b: string)
    requires OccursAt(s, i, a + b)
    ensures OccursAt(s, i, a) && OccursAt(s, i + |a|, b)
  {
    assert s[i..i + |a|] == (a + b)[..|a|];
    assert s[i + |a|..i + |a| + |b|] == (a + b)[|a|..];
  }

  /** `\d{1,2}` followed by a separator that is not a digit takes exactly the digits written. */
  lemma {:induction false} ShortNumberWidthOf(s: string, i: nat, digits: string, sep: char)
    requires 1 <= |digits| <= 2 && AllDigits(digits) && !IsDigit(sep)
    requires OccursAt(s, i, digits + [sep])
    ensures ShortNumberWidth(s, i, sep) == |digits| && s[i..i + |digits|] == digits
  {
    var w := digits + [sep];
    assert s[i..i + |w|] == w;
    assert s[i + |digits|] == w[|digits|] == sep;
    assert s[i] == w[0] == digits[0];
    if |digits| == 2 {
      assert s[i + 1] == w[1] == digits[1];
    }
    assert s[i..i + |digits|] == w[..|digits|] == digits;
  }

  /** Every well-formed date text is found where it occurs. */
  lemma {:induction false} DateAtComplete(s: string, p: nat, t: DateText)
    requires t.WellFormed() && OccursAt(s, p, t.Spelled())
    ensures DateAt(s, p) == Some(t)
  {
    assert t.Spelled() == (t.dayDigits + ['/']) + ((t.monthDigits + ['/']) + t.yearDigits);
    OccursAtSplit(s, p, t.dayDigits + ['/'], (t.monthDigits + ['/']) + t.yearDigits);
    ShortNumberWidthOf(s, p, t.dayDigits, '/');
    var q := p + |t.dayDigits| + 1;
    OccursAtSplit(s, q, t.monthDigits + ['/'], t.yearDigits);
    ShortNumberWidthOf(s, q, t.monthDigits, '/');
    var y := q + |t.monthDigits| + 1;
    assert s[y..y + 4] == t.yearDigits;
    assert DigitsAt(s, y, 4) by {
      forall k | y <= k < y + 4 ensures IsDigit(s[k]) {
        assert s[k] == t.yearDigits[k - y];
      }
    }
  }

  /** The first match of the pattern in `s`, as `re.search` finds it. */
  function FindDate(s: string): (r: Option<(nat, DateText)>)
    ensures r.Some? ==> r.value.0 < |s| && DateAt(s, r.value.0) == Some(r.value.1)
    ensures r.Some? ==> forall q :: 0 <= q < r.value.0 ==> DateAt(s, q).None?
    ensures r.None? ==> forall q :: 0 <= q < |s| ==> DateAt(s, q).None?
  {
    var at := (p: nat) => DateAt(s, p);
    assert forall q: nat :: at(q) == DateAt(s, q);
    Search(|s|, 0, at)
  }

  /** Group 2 when `(?:\s+(\d{1,2}:\d{2}))` matches at position `e`, right after group 1. */
  function TimeAfter(s: string, e: nat): (r: Option<TimeText>)
    requires e <= |s|
    ensures r.Some? ==> r.value.WellFormed()
    ensures r.Some? ==> exists q :: e < q <= |s| && AllSpace(s[e..q]) && OccursAt(s, q, r.value.Spelled())
  {
    var q := SkipSpaces(s, e);
    if q == e then None
    else
      var w := ShortNumberWidth(s, q, ':');
      if w == 0 then None
      else
        var m := q + w + 1;
        if !DigitsAt(s, m, 2) then None
        else
          var t := TimeText(s[q..q + w], s[m..m + 2]);
          assert s[q..m + 2] == t.Spelled();
          Some(t)
  }

  /** Blanks followed by a well-formed time are always read as that time. */
  lemma {:induction false} TimeAfterComplete(s: string, e: nat, blanks: string, t: TimeText)
    requires t.WellFormed() && |blanks| > 0 && AllSpace(blanks)
    requires OccursAt(s, e, blanks + t.Spelled())
    ensures TimeAfter(s, e) == Some(t)
  {
    OccursAtSplit(s, e, blanks, t.Spelled());
    var q := e + |blanks|;
    forall k | e <= k < q ensures IsSpace(s[k]) {
      assert s[k] == s[e..q][k - e];
    }
    assert t.Spelled() == (t.hourDigits + [':']) + t.minuteDigits;
    OccursAtSplit(s, q, t.hourDigits + [':'], t.minuteDigits);
    ShortNumberWidthOf(s, q, t.hourDigits, ':');
    assert !IsSpace(s[q]) by {
      assert s[q] == t.hourDigits[0];
    }
    SkipSpacesTo(s, e, q);
    var m := q + |t.hourDigits| + 1;
    assert s[m..m + 2] == t.minuteDigits;
    assert DigitsAt(s, m, 2) by {
      forall k | m <= k < m + 2 ensures IsDigit(s[k]) {
        assert s[k] == t.minuteDigits[k - m];
      }
    }
  }

  /** The value `strptime` builds from the two groups; midnight when there is no time. */
  function DateValue(t: DateText, time: Option<TimeText>): (r: DateTime)
    requires t.WellFormed()
    requires time.Some? ==> time.value.WellFormed()
    ensures r.year == DecimalValue(t.yearDigits) && r.month == DecimalValue(t.monthDigits) && r.day == DecimalValue(t.dayDigits)
    ensures time.None? ==> r.hour == 0 && r.minute == 0
    ensures time.Some? ==> r.hour == DecimalValue(time.value.hourDigits) && r.minute == DecimalValue(time.value.minuteDigits)
  {
    var day, month, year := DecimalValue(t.dayDigits), DecimalValue(t.monthDigits), DecimalValue(t.yearDigits);
    match time
    case None => DateTime(year, month, day, 0, 0)
    case Some(tt) => DateTime(year, month, day, DecimalValue(tt.hourDigits), DecimalValue(tt.minuteDigits))
  }

  /**
   * `parse_date(text)`: `None` for an empty text, for a text without a date, and when
   * `strptime` rejects the values of the first date found (with its time, if any).
   */
  function ParseDate(text: string): (r: Option<DateTime>)
    ensures r.Some? ==> ValidDateTime(r.value)
  {
    if text == "" then None else ParseStripped(Strip(text))
  }

  /** The search and conversion, on the text once stripped. */
  function ParseStripped(s: string): (r: Option<DateTime>)
    ensures r.Some? ==> ValidDateTime(r.value)
  {
    match FindDate(s)
    case None => None
    case Some((p, t)) =>
      var dt := DateValue(t, TimeAfter(s, p + |t.Spelled()|));
      if ValidDateTime(dt) then Some(dt) else None
  }

  /** A text in which the pattern matches nowhere gives `None`. */
  lemma {:induction false} ParseDateWithoutDate(text: string)
    requires forall q :: 0 <= q < |Strip(text)| ==> DateAt(Strip(text), q).None?
    ensures ParseDate(text) == None
  {
    if text != "" {
      assert FindDate(Strip(text)).None?;
    }
  }

  /** A text that begins with a date and ends with no blank is its own `strip()`. */
  lemma {:induction false} StartsWithDateIsStripped(text: string, t: DateText)
    requires t.WellFormed() && OccursAt(text, 0, t.Spelled()) && !IsSpace(text[|text| - 1])
    ensures Strip(text) == text
  {
    assert text[0] == text[0..|t.Spelled()|][0] == t.Spelled()[0] == t.dayDigits[0];
    assert IsDigit(text[0]);
    StrippedIsFixpoint(text);
  }

  /** The search stops at the first position when a date starts there. */
  lemma {:induction false} FindDateAtStart(s: string, t: DateText)
    requires t.WellFormed() && OccursAt(s, 0, t.Spelled())
    ensures FindDate(s) == Some((0, t))
  {
    DateAtComplete(s, 0, t);
    SearchFindsFirst(|s|, 0, p => DateAt(s, p), 0);
  }

  lemma {:induction false} ParseStrippedAtStart(s: string, t: DateText)
    requires t.WellFormed() && FindDate(s) == Some((0, t))
    ensures ParseStripped(s) == (
      var dt := DateValue(t, TimeAfter(s, |t.Spelled()|));
      if ValidDateTime(dt) then Some(dt) else None)
  {
  }

  /** A text that begins with a date: the result is read from that first date and the time after it. */
  lemma {:induction false} ParseDateAtStart(text: string, t: DateText)
    requires t.WellFormed() && OccursAt(text, 0, t.Spelled()) && !IsSpace(text[|text| - 1])
    ensures ParseDate(text) == (
      var dt := DateValue(t, TimeAfter(text, |t.Spelled()|));
      if ValidDateTime(dt) then Some(dt) else None)
  {
    StartsWithDateIsStripped(text, t);
    FindDateAtStart(text, t);
    ParseStrippedAtStart(text, t);
  }

  /** `D/M/YYYY` alone: midnight of that day when the day exists, `None` otherwise. */
  lemma {:induction false} ParseDateOnly(t: DateText)
    requires t.WellFormed()
    ensures ParseDate(t.Spelled()) == (if ValidDateTime(DateValue(t, None)) then Some(DateValue(t, None)) else None)
  {
    var text := t.Spelled();
    assert text[|text| - 1] == t.yearDigits[3];
    assert text[0..|text|] == text;
    ParseDateAtStart(text, t);
    assert SkipSpaces(text, |text|) == |text|;
  }

  lemma {:induction false} DateAndTimeShape(t: DateText, tt: TimeText)
    requires t.WellFormed() && tt.WellFormed()
    ensures var text := t.Spelled() + " " + tt.Spelled();
      && OccursAt(text, 0, t.Spelled()) && !IsSpace(text[|text| - 1])
      && OccursAt(text, |t.Spelled()|, " " + tt.Spelled())
  {
    var text := t.Spelled() + " " + tt.Spelled();
    var n := |t.Spelled()|;
    assert text[|text| - 1] == tt.minuteDigits[1];
    assert text[0..n] == t.Spelled();
    assert text[n..n + |" " + tt.Spelled()|] == " " + tt.Spelled();
  }

  /** `D/M/YYYY H:MM`: that minute when day and time are valid, `None` when either is not. */
  lemma {:induction false} ParseDateAndTime(t: DateText, tt: TimeText)
    requires t.WellFormed() && tt.WellFormed()
    ensures
      var dt := DateValue(t, Some(tt));
      ParseDate(t.Spelled() + " " + tt.Spelled()) == (if ValidDateTime(dt) then Some(dt) else None)
  {
    var text := t.Spelled() + " " + tt.Spelled();
    DateAndTimeShape(t, tt);
    ParseDateAtStart(text, t);
    assert AllSpace(" ");
    TimeAfterComplete(text, |t.Spelled()|, " ", tt);
  }

  // ---------------------------------------------------------------------------------------
  // The inverse direction: writing a date as `DD/MM/YYYY HH:MM`.

  function DigitChar(n: nat): (c: char)
    requires n < 10
    ensures IsDigit(c)
  {
    ('0' as int + n) as char
  }

  /** `n` written with `width` digits, leading zeros included. */
  function Padded(n: nat, width: nat): (s: string)
    requires n < Pow10(width)
    ensures |s| == width && AllDigits(s)
  {
    if width == 0 then "" else Padded(n / 10, width - 1) + [DigitChar(n % 10)]
  }

  lemma {:induction false} PaddedValue(n: nat, width: nat)
    requires n < Pow10(width)
    ensures DecimalValue(Padded(n, width)) == n
  {
    if width > 0 {
      var s := Padded(n, width);
      assert s[..|s| - 1] == Padded(n / 10, width - 1);
      PaddedValue(n / 10, width - 1);
    }
  }

  /** The date as `strftime("%d/%m/%Y %H:%M")` writes it. */
  function FormatDate(d: DateTime): string
    requires ValidDateTime(d)
  {
    Padded(d.day, 2) + "/" + Padded(d.month, 2) + "/" + Padded(d.year, 4) + " "
      + Padded(d.hour, 2) + ":" + Padded(d.minute, 2)
  }

  /** `parse_date` reads back every valid date and time written as `DD/MM/YYYY HH:MM`. */
  lemma {:induction false} ParseFormattedDate(d: DateTime)
    requires ValidDateTime(d)
    ensures ParseDate(FormatDate(d)) == Some(d)
  {
    var t := DateText(Padded(d.day, 2), Padded(d.month, 2), Padded(d.year, 4));
    var tt := TimeText(Padded(d.hour, 2), Padded(d.minute, 2));
    PaddedValue(d.day, 2);
    PaddedValue(d.month, 2);
    PaddedValue(d.year, 4);
    PaddedValue(d.hour, 2);
    PaddedValue(d.minute, 2);
    assert DateValue(t, Some(tt)) == d;
    assert FormatDate(d) == t.Spelled() + " " + tt.Spelled();
    ParseDateAndTime(t, tt);
  }

  /** The date text with the given values written with leading zeros. */
  function PaddedDate(day: nat, month: nat, year: nat): (t: DateText)
    requires day < 100 && month < 100 && year < 10000
    ensures t.WellFormed()
    ensures DateValue(t, None) == DateTime(year, month, day, 0, 0)
  {
    PaddedValue(day, 2);
    PaddedValue(month, 2);
    PaddedValue(year, 4);
    DateText(Padded(day, 2), Padded(month, 2), Padded(year, 4))
  }

  /** A valid date followed by an impossible time gives `None`: the date alone is not kept. */
  lemma {:induction false} ParseDateDropsDateWithBadTime(t: DateText, tt: TimeText)
    requires t.WellFormed() && tt.WellFormed()
    requires ValidDateTime(DateValue(t, None))
    requires DecimalValue(tt.hourDigits) > 23 || DecimalValue(tt.minuteDigits) > 59
    ensures ParseDate(t.Spelled() + " " + tt.Spelled()) == None
  {
    ParseDateAndTime(t, tt);
  }

  /** Day 31 of month 13 is not a date. */
  lemma {:induction false} ParseDateRejectsMonth13()
    ensures ParseDate(PaddedDate(31, 13, 2024).Spelled()) == None
  {
    ParseDateOnly(PaddedDate(31, 13, 2024));
  }

  /** The 29th of February exists in 2024. */
  lemma {:induction false} ParseDateLeapDay()
    ensures ParseDate(PaddedDate(29, 2, 2024).Spelled()) == Some(DateTime(2024, 2, 29, 0, 0))
  {
    var t := PaddedDate(29, 2, 2024);
    assert ValidDateTime(DateTime(2024, 2, 29, 0, 0)) by {
      assert IsLeapYear(2024);
    }
    ParseDateOnly(t);
  }

  /** The 29th of February does not exist in 2023. */
  lemma {:induction false} ParseDateNoLeapDay()
    ensures ParseDate(PaddedDate(29, 2, 2023).Spelled()) == None
  {
    ParseDateOnly(PaddedDate(29, 2, 2023));
  }
}
