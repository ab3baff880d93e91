/**
  final_bot.py: the "enhanced basic" analysis of the final bot, its date
  parser, the merge of a model reply over the basic record, and the `'|'`
  storage form of the requirement list. The clock reading `datetime.now()`
  is the parameter `now`; the model reply and `json.loads` are parameters
  too (see `GeminiEnhance`).
*/
module FinalBot {
  import opened Base
  import opened Text
  import opened Calendar
  import opened Strptime
  import opened Patterns
  import opened Fences
  import Requirements
  import AiAnalyzer
  import PyValue

  // ----- title -----

  /**
    The title: the first `.`-separated segment of the stripped text,
    stripped; longer than 80 characters, its first 80 plus "...".
  */
  function ExtractTitle(content: string): (r: string)
    ensures |r| <= 83
    ensures '.' !in Take(r, 80)
    ensures |r| <= 80 ==> Trimmed(r)
    ensures |r| > 80 ==> |r| == 83 && r[80..] == "..." && !IsSpace(r[0])
    // The stripped first sentence of the stripped text, cut to 80 characters plus "..." when longer.
    ensures var title := Strip(BeforeChar(Strip(content), '.'));
            |title| <= 80 ==> r == title
    ensures var title := Strip(BeforeChar(Strip(content), '.'));
            |title| > 80 ==> |r| == 83 && r[..80] == title[..80] && r[80..] == "..."
  {
    var title := Strip(BeforeChar(Strip(content), '.'));
    if |title| > 80 then title[..80] + "..." else title
  }

  /** A trimmed sentence of at most 80 characters, followed by a full stop, is its own title. */
  lemma TitleOfSentence(sentence: string, rest: string)
    requires sentence != [] && Trimmed(sentence) && '.' !in sentence && |sentence| <= 80
    ensures ExtractTitle(sentence + "." + rest) == sentence
  {
    var content := sentence + "." + rest;
    assert content[0] == sentence[0];
    assert SkipSpace(content, 0) == 0;
    var b := BackSpace(content, 0, |content|);
    assert content[|sentence|] == '.';
    assert b > |sentence|;
    var stripped := Strip(content);
    assert stripped == content[..b];
    assert stripped == sentence + "." + content[|sentence| + 1..b];
    IndexOfCharPrefix(sentence, '.', content[|sentence| + 1..b]);
    assert BeforeChar(stripped, '.') == sentence;
    StripTrimmed(sentence);
  }

  // ----- category -----

  const JobWords: seq<string> := ["job", "position", "role", "hiring", "developer", "engineer", "manager"]
  const FreelanceWords: seq<string> := ["freelance", "contract", "gig", "project"]
  const BusinessWords: seq<string> := ["business", "startup", "investment"]

  /** The category of the lower-cased text: the first keyword group with a hit wins. */
  function CategoryOf(lower: string): (r: string)
    ensures r == "job" <==> AnyIn(JobWords, lower)
    ensures r == "freelance" <==> !AnyIn(JobWords, lower) && AnyIn(FreelanceWords, lower)
    ensures r == "business" <==> !AnyIn(JobWords, lower) && !AnyIn(FreelanceWords, lower) && AnyIn(BusinessWords, lower)
    ensures r == "other" <==> !AnyIn(JobWords, lower) && !AnyIn(FreelanceWords, lower) && !AnyIn(BusinessWords, lower)
  {
    if AnyIn(JobWords, lower) then "job"
    else if AnyIn(FreelanceWords, lower) then "freelance"
    else if AnyIn(BusinessWords, lower) then "business"
    else "other"
  }

  /** The place of a category in the precedence order. */
  function Rank(category: string): nat {
    if category == "job" then 0 else if category == "freelance" then 1 else if category == "business" then 2 else 3
  }

  /** A keyword of a text is a keyword of any longer text that starts with it. */
  lemma AnyInAppend(words: seq<string>, a: string, b: string)
    requires AnyIn(words, a)
    ensures AnyIn(words, a + b)
  {
    var i :| 0 <= i < |words| && Contains(a, words[i]);
    var p := Find(a, words[i], 0).value;
    assert (a + b)[p..p + |words[i]|] == a[p..p + |words[i]|];
    ContainsAt(a + b, words[i], p);
  }

  /** More text never moves the category down the precedence order. */
  lemma CategoryMonotone(a: string, b: string)
    ensures Rank(CategoryOf(a + b)) <= Rank(CategoryOf(a))
  {
    if AnyIn(JobWords, a) { AnyInAppend(JobWords, a, b); }
    else if AnyIn(FreelanceWords, a) { AnyInAppend(FreelanceWords, a, b); }
    else if AnyIn(BusinessWords, a) { AnyInAppend(BusinessWords, a, b); }
  }

  // ----- dates -----

  /** The shape of a `f"{year}-{month:02d}-{day:02d}"` result: digits with dashes at 4 and 7. */
  predicate YmdShaped(s: string) {
    |s| == 10 && s[4] == '-' && s[7] == '-' && forall i :: 0 <= i < 10 && i != 4 && i != 7 ==> IsDigit(s[i])
  }

  /** A year string, then the month and day zero-padded. */
  function YmdText(year: string, month: nat, day: nat): (r: string)
    requires |year| == 4 && AllDigits(year) && month < 100 && day < 100
    ensures YmdShaped(r)
  {
    year + "-" + Pad2(month) + "-" + Pad2(day)
  }

  /** One or two digits read as a number stay below 100. */
  lemma ShortValue(s: string)
    requires AllDigits(s) && |s| <= 2
    ensures DigitsValue(s) < 100
  {
    if |s| == 2 {
      assert DigitsValue(s[..1]) < 10 by {
        assert s[..1][..0] == [];
      }
    } else if |s| == 1 {
      assert s[..0] == [];
    }
  }

  /** The month-name branch of `parse_date_smart`, trying the months from the k-th on. */
  function MonthNameDate(t: string, k: nat): (r: Option<string>)
    requires k <= 12
    ensures r.Some? ==> YmdShaped(r.value)
    decreases 12 - k
  {
    if k == 12 then None
    else if Contains(t, MonthNames[k]) && SearchShortNumber(t).Some? && SearchCenturyYear(t).Some? then
      Some(MonthText(t, k))
    else MonthNameDate(t, k + 1)
  }

  /** Month k with the first standalone one- or two-digit number as the day and the first 20xx as the year. */
  function MonthText(t: string, k: nat): (r: string)
    requires k < 12 && SearchShortNumber(t).Some? && SearchCenturyYear(t).Some?
    ensures YmdShaped(r)
  {
    var day := SearchShortNumber(t).value;
    ShortValue(day);
    YmdText(SearchCenturyYear(t).value, k + 1, DigitsValue(day))
  }

  /** The month branch takes the first month in table order that the text names. */
  lemma {:induction false} MonthNameFirst(t: string, k: nat, j: nat)
    requires k <= j < 12
    requires Contains(t, MonthNames[j]) && forall i :: k <= i < j ==> !Contains(t, MonthNames[i])
    requires SearchShortNumber(t).Some? && SearchCenturyYear(t).Some?
    ensures MonthNameDate(t, k) == Some(MonthText(t, j))
    decreases j - k
  {
    if k < j {
      MonthNameFirst(t, k + 1, j);
    }
  }

  /** The month branch yields nothing exactly when no month is named, or the day or the year is missing. */
  lemma {:induction false} MonthNameNone(t: string, k: nat)
    requires k <= 12
    ensures MonthNameDate(t, k).None? <==>
              (forall i :: k <= i < 12 ==> !Contains(t, MonthNames[i]))
              || SearchShortNumber(t).None? || SearchCenturyYear(t).None?
    decreases 12 - k
  {
    if k < 12 {
      MonthNameNone(t, k + 1);
    }
  }

  /** The MM/DD/YYYY branch of `parse_date_smart`: read month first, not checked against the calendar. */
  function SlashedDate(t: string): (r: Option<string>)
    ensures r.Some? ==> YmdShaped(r.value)
  {
    match SearchTriple(t, '/', AiAnalyzer.OneOrTwo, AiAnalyzer.OneOrTwo, AiAnalyzer.Four)
    case None => None
    case Some((_, m)) =>
      ShortValue(m.g1);
      ShortValue(m.g2);
      Some(YmdText(m.g3, DigitsValue(m.g1), DigitsValue(m.g2)))
  }

  /** `parse_date_smart`: a zero-padded `YYYY-MM-DD` text, or None. */
  function ParseDateSmart(dateText: string): (r: Option<string>)
    ensures r.Some? ==> YmdShaped(r.value)
    ensures var t := Lower(Strip(dateText));
            MonthNameDate(t, 0).None? ==> r == SlashedDate(t)
  {
    var t := Lower(Strip(dateText));
    match MonthNameDate(t, 0)
    case Some(d) => Some(d)
    case None => SlashedDate(t)
  }

  /**
    No date comes out exactly when the month branch fails (no month name, no
    day or no 20xx year) and no M/D/YYYY group is found either.
  */
  lemma ParseDateSmartNone(dateText: string)
    ensures var t := Lower(Strip(dateText));
            ParseDateSmart(dateText).None? <==>
              ((forall i :: 0 <= i < 12 ==> !Contains(t, MonthNames[i]))
               || SearchShortNumber(t).None? || SearchCenturyYear(t).None?)
              && SearchTriple(t, '/', AiAnalyzer.OneOrTwo, AiAnalyzer.OneOrTwo, AiAnalyzer.Four).None?
  {
    MonthNameNone(Lower(Strip(dateText)), 0);
  }

  /** From p: a day of n digits, a comma, a space and a four-digit year starting "20", after a space. */
  predicate DayYearPart(x: string, p: nat, n: nat) {
    1 <= n <= 2 && 1 < p && p + n + 6 == |x| && x[p - 1] == ' ' && x[p + n] == ',' && x[p + n + 1] == ' '
    && x[p + n + 2] == '2' && x[p + n + 3] == '0' && DigitsAt(x, p, n) && DigitsAt(x, p + n + 2, 4)
  }

  /** The text layout "<month> <day>, <year>" with month k, a day of n digits and a 20xx year. */
  predicate MonthDayYearShape(x: string, k: nat, n: nat) {
    k < 12 && OccursAt(x, MonthNames[k], 0) && (forall i :: 0 <= i < |MonthNames[k]| ==> IsAsciiLower(x[i]))
    && DayYearPart(x, |MonthNames[k]| + 1, n)
  }

  /** No digit stands before position p. */
  predicate NoDigitBefore(x: string, p: nat) {
    forall i :: 0 <= i < p && i < |x| ==> !IsDigit(x[i])
  }

  /** Where the pieces of "<month> <day>, <year>" stand, and what kind of character each is. */
  lemma MonthDayYearLayout(k: nat, d: string, y: string)
    requires k < 12 && 1 <= |d| <= 2 && AllDigits(d) && |y| == 4 && AllDigits(y) && y[..2] == "20"
    ensures var p := |MonthNames[k]| + 1;
            var x := MonthNames[k] + " " + d + ", " + y;
            MonthDayYearShape(x, k, |d|) && x[p..p + |d|] == d && x[p + |d| + 2..|x|] == y
  {
    var m := MonthNames[k];
    var x := m + " " + d + ", " + y;
    var p := |m| + 1;
    assert x == (m + " ") + (d + ", " + y);
    assert x[..|m|] == m && x[p - 1] == ' ' && x[p..] == d + ", " + y;
    MonthLead(x, k);
    DayYearTail(x, p, d, y);
  }

  /** A text that starts with month k starts with its lower-case letters. */
  lemma MonthLead(x: string, k: nat)
    requires k < 12 && |MonthNames[k]| <= |x| && x[..|MonthNames[k]|] == MonthNames[k]
    ensures OccursAt(x, MonthNames[k], 0) && forall i :: 0 <= i < |MonthNames[k]| ==> IsAsciiLower(x[i])
  {
    forall i | 0 <= i < |MonthNames[k]| ensures IsAsciiLower(x[i]) {
      assert x[i] == MonthNames[k][i];
      MonthLetters(k, i);
    }
  }

  /** After a space at p - 1, the text d + ", " + y is the day-and-year part, with d and y where they stand. */
  lemma DayYearTail(x: string, p: nat, d: string, y: string)
    requires 1 < p <= |x| && x[p - 1] == ' ' && x[p..] == d + ", " + y
    requires 1 <= |d| <= 2 && AllDigits(d) && |y| == 4 && AllDigits(y) && y[..2] == "20"
    ensures DayYearPart(x, p, |d|) && x[p..p + |d|] == d && x[p + |d| + 2..|x|] == y
  {
    var u := d + ", " + y;
    assert u[..|d|] == d && u[|d|] == ',' && u[|d| + 1] == ' ' && u[|d| + 2..] == y;
    assert x[p..p + |d|] == u[..|d|];
    assert x[p + |d| + 2..|x|] == u[|d| + 2..];
    forall i | p <= i < p + |d| ensures IsDigit(x[i]) {
      assert x[i] == u[i - p] == d[i - p];
    }
    forall i | p + |d| + 2 <= i < |x| ensures IsDigit(x[i]) {
      assert x[i] == u[i - p] == y[i - p - |d| - 2];
    }
    assert y[0] == y[..2][0] && y[1] == y[..2][1];
  }

  /** A text laid out as month, space, digits, comma, space and digits is already lower-case and stripped. */
  lemma MonthDayYearPlain(x: string, p: nat, n: nat)
    requires DayYearPart(x, p, n)
    requires forall i :: 0 <= i < p - 1 ==> IsAsciiLower(x[i])
    ensures Lower(Strip(x)) == x
    ensures NoDigitBefore(x, p)
    ensures forall i :: p - 1 <= i < |x| ==> !IsAsciiLower(x[i])
  {
    StripTrimmed(x);
    assert !IsDigit(x[p - 1]);
    forall i | 0 <= i < |x| ensures LowerChar(x[i]) == x[i] {
      if i < p - 1 {
      } else if i == p - 1 || i == p + n || i == p + n + 1 {
      } else if i < p + n {
      } else {
      }
    }
  }

  /** A one- or two-digit number at p with no digit before it is the first standalone one. */
  lemma ShortNumberFirst(x: string, p: nat, n: nat)
    requires 0 < p && 1 <= n <= 2 && p + n < |x|
    requires NoDigitBefore(x, p)
    requires !IsWord(x[p - 1]) && !IsWord(x[p + n])
    requires DigitsAt(x, p, n)
    ensures SearchShortNumber(x) == Some(x[p..p + n])
  {
    assert ShortNumberAt(x, p) == Some(p + n);
    forall q | 0 <= q < p ensures ShapeAt(x, ShortNumber, q).None? {
      assert !IsDigit(x[q]);
    }
    SearchFromAt(x, ShortNumber, p);
  }

  /**
    Four digits starting "20" at the end of x, after a number of at most two
    digits at p that is followed by two non-digits, and no digit before p:
    they are the first standalone 20xx year.
  */
  lemma CenturyYearFirst(x: string, p: nat, n: nat)
    requires 1 <= n <= 2 && p + n + 6 == |x|
    requires NoDigitBefore(x, p)
    requires !IsDigit(x[p + n]) && !IsWord(x[p + n + 1])
    requires DigitsAt(x, p + n + 2, 4)
    requires x[p + n + 2] == '2' && x[p + n + 3] == '0'
    ensures SearchCenturyYear(x) == Some(x[p + n + 2..|x|])
  {
    var q := p + n + 2;
    assert x[q..q + 2] == "20";
    assert CenturyYearAt(x, q) == Some(q + 4);
    forall i | 0 <= i < q ensures ShapeAt(x, CenturyYear, i).None? {
      if i < p {
        assert !IsDigit(x[i]);
      } else if i <= p + n {
        assert !IsDigit(x[p + n]);
      } else {
        assert !IsDigit(x[i]) by { assert !IsWord(x[i]); }
      }
    }
    SearchFromAt(x, CenturyYear, q);
  }

  /** A text that starts with month k and has no letter after it names no earlier month. */
  lemma NoEarlierMonth(x: string, k: nat, j: nat)
    requires j < k < 12 && OccursAt(x, MonthNames[k], 0)
    requires forall i :: |MonthNames[k]| <= i < |x| ==> !IsAsciiLower(x[i])
    ensures !Contains(x, MonthNames[j])
  {
    var mk, mj := MonthNames[k], MonthNames[j];
    forall r: nat | OccursAt(x, mj, r) ensures false {
      if r + |mj| <= |mk| {
        assert mk[r..r + |mj|] == x[r..r + |mj|];
        MonthsApart(k, j, r);
      } else {
        var i := if r < |mk| then |mk| else r;
        assert x[r..r + |mj|][i - r] == mj[i - r];
        MonthLetters(j, i - r);
      }
    }
  }

  /** In that layout the day and the year are the first standalone numbers of their kind. */
  lemma DayFirst(x: string, p: nat, n: nat)
    requires DayYearPart(x, p, n) && NoDigitBefore(x, p)
    ensures SearchShortNumber(x) == Some(x[p..p + n])
  {
    ShortNumberFirst(x, p, n);
  }

  lemma YearFirst(x: string, p: nat, n: nat)
    requires DayYearPart(x, p, n) && NoDigitBefore(x, p)
    ensures SearchCenturyYear(x) == Some(x[p + n + 2..|x|])
  {
    CenturyYearFirst(x, p, n);
  }

  /** Month k is named in such a text and no month before it in the table is. */
  lemma MonthsBefore(x: string, k: nat, n: nat)
    requires MonthDayYearShape(x, k, n)
    ensures Contains(x, MonthNames[k]) && forall j :: 0 <= j < k ==> !Contains(x, MonthNames[j])
  {
    MonthDayYearPlain(x, |MonthNames[k]| + 1, n);
    ContainsAt(x, MonthNames[k], 0);
    forall j | 0 <= j < k ensures !Contains(x, MonthNames[j]) {
      NoEarlierMonth(x, k, j);
    }
  }

  /** A text laid out as month k, space, day digits, comma, space and a 20xx year reads as that date. */
  lemma MonthDayYearAt(x: string, k: nat, d: string, y: string)
    requires MonthDayYearShape(x, k, |d|) && AllDigits(d)
    requires var p := |MonthNames[k]| + 1;
             x[p..p + |d|] == d && x[p + |d| + 2..|x|] == y
    ensures (ShortValue(d); ParseDateSmart(x) == Some(YmdText(y, k + 1, DigitsValue(d))))
  {
    var p := |MonthNames[k]| + 1;
    MonthDayYearPlain(x, p, |d|);
    DayFirst(x, p, |d|);
    YearFirst(x, p, |d|);
    MonthsBefore(x, k, |d|);
    MonthDayYearRead(x, k, d, y);
  }

  /** The month branch reads a stripped lower-case text naming month k first, with day d and year y found. */
  lemma MonthDayYearRead(x: string, k: nat, d: string, y: string)
    requires k < 12 && Lower(Strip(x)) == x && 1 <= |d| <= 2 && AllDigits(d)
    requires SearchShortNumber(x) == Some(d) && SearchCenturyYear(x) == Some(y)
    requires Contains(x, MonthNames[k]) && forall j :: 0 <= j < k ==> !Contains(x, MonthNames[j])
    ensures (ShortValue(d); ParseDateSmart(x) == Some(YmdText(y, k + 1, DigitsValue(d))))
  {
    MonthNameFirst(x, 0, k);
    MonthBranchTaken(x, k);
    MonthTextIs(x, k, d, y);
  }

  /** When the text is already lower-case and stripped, a month-branch date is the answer. */
  lemma MonthBranchTaken(x: string, k: nat)
    requires k < 12 && Lower(Strip(x)) == x
    requires SearchShortNumber(x).Some? && SearchCenturyYear(x).Some?
    requires MonthNameDate(x, 0) == Some(MonthText(x, k))
    ensures ParseDateSmart(x) == Some(MonthText(x, k))
  {
  }

  /** The month text built from a known day and year. */
  lemma MonthTextIs(x: string, k: nat, d: string, y: string)
    requires k < 12 && SearchShortNumber(x) == Some(d) && SearchCenturyYear(x) == Some(y)
    ensures (ShortValue(d); MonthText(x, k) == YmdText(y, k + 1, DigitsValue(d)))
  {
  }

  /**
    "<month> <day>, <year>" in lower case, with a day of one or two digits
    and a year 20xx, is read as that month, day and year.
  */
  lemma MonthDayYear(k: nat, d: string, y: string)
    requires k < 12 && 1 <= |d| <= 2 && AllDigits(d)
    requires |y| == 4 && AllDigits(y) && y[..2] == "20"
    ensures (ShortValue(d);
             ParseDateSmart(MonthNames[k] + " " + d + ", " + y) == Some(YmdText(y, k + 1, DigitsValue(d))))
  {
    MonthDayYearLayout(k, d, y);
    MonthDayYearAt(MonthNames[k] + " " + d + ", " + y, k, d, y);
  }

  /** Text without letters names no month. */
  lemma {:induction false} NoMonthWithoutLetters(t: string, k: nat)
    requires k <= 12
    requires forall i :: 0 <= i < |t| ==> !IsAsciiLower(t[i])
    ensures MonthNameDate(t, k).None?
    decreases 12 - k
  {
    if k < 12 {
      AiAnalyzer.WordNeedsLetter(t, MonthNames[k]);
      NoMonthWithoutLetters(t, k + 1);
    }
  }

  /** Text without digits names no day, so the month branch never yields. */
  lemma {:induction false} NoMonthWithoutDigits(t: string, k: nat)
    requires k <= 12
    requires forall i :: 0 <= i < |t| ==> !IsDigit(t[i])
    ensures MonthNameDate(t, k).None?
    decreases 12 - k
  {
    if k < 12 {
      NoMonthWithoutDigits(t, k + 1);
    }
  }

  /** Stripping and lower-casing keep a text free of digits. */
  lemma LowerStripNoDigits(t: string)
    requires forall i :: 0 <= i < |t| ==> !IsDigit(t[i])
    ensures var u := Lower(Strip(t)); forall i :: 0 <= i < |u| ==> !IsDigit(u[i])
  {
    var s := Strip(t);
    forall i | 0 <= i < |s| ensures !IsDigit(s[i]) {
      assert s[i] in t;
    }
  }

  /** A text without digits parses to no date. */
  lemma NoDigitsNoDate(t: string)
    requires forall i :: 0 <= i < |t| ==> !IsDigit(t[i])
    ensures ParseDateSmart(t).None?
  {
    var u := Lower(Strip(t));
    LowerStripNoDigits(t);
    NoMonthWithoutDigits(u, 0);
    NoTripleWithoutDigits(u, '/', AiAnalyzer.OneOrTwo, AiAnalyzer.OneOrTwo, AiAnalyzer.Four);
  }

  /** A text of digits and dashes alone (an ISO date, say) parses to no date. */
  lemma DashedNoDate(t: string)
    requires forall i :: 0 <= i < |t| ==> IsDigit(t[i]) || t[i] == '-'
    ensures ParseDateSmart(t).None?
  {
    var s := Strip(t);
    forall i | 0 <= i < |s| ensures IsDigit(s[i]) || s[i] == '-' {
      assert s[i] in t;
    }
    var u := Lower(s);
    assert forall i :: 0 <= i < |u| ==> u[i] == s[i];
    NoMonthWithoutLetters(u, 0);
    AiAnalyzer.NoTripleWithout(u, '/', AiAnalyzer.OneOrTwo, AiAnalyzer.OneOrTwo, AiAnalyzer.Four);
  }

  /** An ISO date is never parsed. */
  lemma IsoNotParsed(y: nat, m: nat, d: nat)
    requires y < 10000 && m < 100 && d < 100
    ensures ParseDateSmart(Pad4(y) + "-" + Pad2(m) + "-" + Pad2(d)).None?
  {
    DashedNoDate(Pad4(y) + "-" + Pad2(m) + "-" + Pad2(d));
  }

  /**
    M/D/YYYY is read month first and rendered zero-padded without any range
    check: 13/45/2025 gives "2025-13-45", 1/5/2025 gives "2025-01-05".
  */
  lemma SlashedNoValidation(a: string, b: string, c: string)
    requires AiAnalyzer.SlashedGroups(a, b, c)
    ensures (ShortValue(a); ShortValue(b);
             ParseDateSmart(a + "/" + b + "/" + c) == Some(YmdText(c, DigitsValue(a), DigitsValue(b))))
  {
    var s := a + "/" + b + "/" + c;
    AiAnalyzer.SlashedPlain(a, b, c);
    assert Lower(Strip(s)) == s;
    NoMonthWithoutLetters(s, 0);
    AiAnalyzer.SlashedMatch(a, b, c);
    ShortValue(a);
    ShortValue(b);
    assert SlashedDate(s) == Some(YmdText(c, DigitsValue(a), DigitsValue(b)));
  }

  // ----- deadlines -----

  /** The capture of every deadline lead-in stops at a full stop, newline or exclamation mark. */
  const DeadlineStop: set<char> := {'.', '\n', '!'}

  /** The patterns of `extract_deadline`, in order. */
  const DeadlineShapes: seq<Shape> := [
    Lead(LeadIn("deadline", false, DeadlineStop)), Lead(LeadIn("due", false, DeadlineStop)),
    Lead(LeadIn("apply by", false, DeadlineStop)), Lead(LeadIn("closes", false, DeadlineStop)),
    MonthDate,
    Digits('/', AiAnalyzer.OneOrTwo, AiAnalyzer.OneOrTwo, AiAnalyzer.Four),
    Digits('-', AiAnalyzer.Four, AiAnalyzer.OneOrTwo, AiAnalyzer.OneOrTwo)
  ]

  /**
    What pattern k contributes: the text it finds (group 1 when the pattern
    has a group, the whole match otherwise), parsed.
  */
  function ParsedAt(content: string, k: nat): Option<string>
    requires k < |DeadlineShapes|
  {
    match SearchGroup(content, DeadlineShapes[k])
    case None => None
    case Some(text) => ParseDateSmart(text)
  }

  /** `extract_deadline` from the k-th pattern on: the first whose text parses. */
  function DeadlineFrom(content: string, k: nat): (r: Option<string>)
    requires k <= |DeadlineShapes|
    ensures r.Some? ==> YmdShaped(r.value)
    decreases |DeadlineShapes| - k
  {
    if k == |DeadlineShapes| then None
    else match ParsedAt(content, k)
      case Some(d) => Some(d)
      case None => DeadlineFrom(content, k + 1)
  }

  function ExtractDeadline(content: string): Option<string> {
    DeadlineFrom(content, 0)
  }

  /** What each pattern contributes, in order. */
  function ParsedAll(content: string): (r: seq<Option<string>>)
    ensures |r| == |DeadlineShapes| && forall i :: 0 <= i < |r| ==> r[i] == ParsedAt(content, i)
  {
    seq(|DeadlineShapes|, i requires 0 <= i < |DeadlineShapes| => ParsedAt(content, i))
  }

  /** The pattern loop returns the first contribution present. */
  lemma {:induction false} DeadlineIsFirstSome(content: string, k: nat)
    requires k <= |DeadlineShapes|
    ensures DeadlineFrom(content, k) == FirstSome(ParsedAll(content), k)
    decreases |DeadlineShapes| - k
  {
    if k < |DeadlineShapes| {
      DeadlineIsFirstSome(content, k + 1);
    }
  }

  /** A deadline found comes from the first pattern whose text parses. */
  lemma DeadlineFirst(content: string, k: nat)
    requires k <= |DeadlineShapes| && DeadlineFrom(content, k).Some?
    ensures exists j :: k <= j < |DeadlineShapes| && ParsedAt(content, j) == DeadlineFrom(content, k)
                        && forall i :: k <= i < j ==> ParsedAt(content, i).None?
  {
    var xs := ParsedAll(content);
    DeadlineIsFirstSome(content, k);
    FirstSomeIsFirst(xs, k);
    var j :| k <= j < |xs| && xs[j] == FirstSome(xs, k) && forall i :: k <= i < j ==> xs[i].None?;
    assert ParsedAt(content, j) == DeadlineFrom(content, k);
  }

  /** No deadline is found exactly when no pattern contributes one. */
  lemma DeadlineNone(content: string)
    ensures ExtractDeadline(content).None? <==> forall i :: 0 <= i < |DeadlineShapes| ==> ParsedAt(content, i).None?
  {
    DeadlineIsFirstSome(content, 0);
    FirstSomeNone(ParsedAll(content), 0);
  }

  /** The month-name pattern hands the parser only the month word, which never parses. */
  lemma MonthPatternNeverYields(content: string)
    ensures ParsedAt(content, 4).None?
  {
    assert DeadlineShapes[4] == MonthDate;
    MonthGroupDigitFree(content);
    match SearchGroup(content, MonthDate)
    case None =>
    case Some(t) => NoDigitsNoDate(t);
  }

  /** Three digit groups joined by dashes hold digits and dashes alone. */
  lemma DigitsAndDashes(a: string, b: string, c: string)
    requires AllDigits(a) && AllDigits(b) && AllDigits(c)
    ensures var t := a + "-" + b + "-" + c; forall i :: 0 <= i < |t| ==> IsDigit(t[i]) || t[i] == '-'
  {
    var t := a + "-" + b + "-" + c;
    forall i | 0 <= i < |t| ensures IsDigit(t[i]) || t[i] == '-' {
      if i < |a| { assert t[i] == a[i]; }
      else if i == |a| { }
      else if i < |a| + 1 + |b| { assert t[i] == b[i - |a| - 1]; }
      else if i == |a| + 1 + |b| { }
      else { assert t[i] == c[i - |a| - |b| - 2]; }
    }
  }

  /** The bare ISO pattern hands the parser digits and dashes, which never parse. */
  lemma IsoPatternNeverYields(content: string)
    ensures ParsedAt(content, 6).None?
  {
    var shape := Digits('-', AiAnalyzer.Four, AiAnalyzer.OneOrTwo, AiAnalyzer.OneOrTwo);
    assert DeadlineShapes[6] == shape;
    match SearchFrom(content, shape, 0)
    case None =>
    case Some((p, h)) =>
      var m := TripleAt(content, '-', AiAnalyzer.Four, AiAnalyzer.OneOrTwo, AiAnalyzer.OneOrTwo, p).value;
      var text := content[p..m.end];
      assert SearchGroup(content, shape) == Some(text);
      DigitsAndDashes(m.g1, m.g2, m.g3);
      DashedNoDate(text);
  }

  /**
    Neither bare pattern ever yields a date: the search goes from the month
    pattern straight to the slashed one, and ends with nothing after it.
  */
  lemma BarePatternsNeverYield(content: string)
    ensures DeadlineFrom(content, 4) == DeadlineFrom(content, 5)
    ensures DeadlineFrom(content, 6).None?
  {
    MonthPatternNeverYields(content);
    IsoPatternNeverYields(content);
  }

  // ----- requirements -----

  /** The capture of every requirement lead-in stops at a full stop or an exclamation mark. */
  const ReqStop: set<char> := {'.', '!'}

  const RequirementLeadIns: seq<LeadIn> := [
    LeadIn("requirement", true, ReqStop), LeadIn("qualification", true, ReqStop), LeadIn("skill", true, ReqStop),
    LeadIn("experience", false, ReqStop), LeadIn("must have", false, ReqStop), LeadIn("need someone with", false, ReqStop)
  ]

  /** `extract_requirements` splits at `[,;•\n]|and\s+` and keeps stripped items of 4 to 49 characters. */
  const BotItems := Requirements.ItemRule(Requirements.AtCharsOrAnd, Some(50))

  /** What `extract_requirements` returns. */
  function RequirementsOf(content: string): seq<string> {
    Requirements.RequirementsIn(content, RequirementLeadIns, BotItems)
  }

  /**
    At most five requirements, in pattern order then match order, each of
    4 to 49 characters, stripped, and free of the one-character separators,
    full stops and exclamation marks.
  */
  lemma RequirementsBounds(content: string)
    ensures var r := RequirementsOf(content);
            |r| <= 5 && Avoids(r, ReqSeparators + ReqStop)
            && forall i :: 0 <= i < |r| ==> 3 < |r[i]| < 50 && !IsSpace(r[i][0]) && !IsSpace(r[i][|r[i]| - 1])
  {
    Requirements.RequirementsShape(content, RequirementLeadIns, BotItems, ReqStop);
    var r := RequirementsOf(content);
    assert Requirements.SplitSeps(BotItems.split) + ReqStop == ReqSeparators + ReqStop;
    forall i | 0 <= i < |r| ensures 3 < |r[i]| < 50 && !IsSpace(r[i][0]) && !IsSpace(r[i][|r[i]| - 1]) {
      assert Requirements.Keep(BotItems, r[i]);
    }
  }

  /** `extract_requirements`, with its nested loops. */
  method ExtractRequirements(content: string) returns (result: seq<string>)
    ensures result == RequirementsOf(content)
  {
    result := Requirements.ExtractRequirements(content, RequirementLeadIns, BotItems);
  }

  // ----- storing the requirement list -----

  /** The stored form: `'|'.join(requirements) if requirements else ""`. */
  function StoreRequirements(reqs: seq<string>): string {
    if reqs != [] then Join(reqs, '|') else ""
  }

  /** The read-back: `row.split('|') if row else []`. */
  function LoadRequirements(s: string): seq<string> {
    if s != "" then Split(s, '|') else []
  }

  /** A join is at least as long as its first item. */
  lemma JoinCoversFirst(xs: seq<string>, c: char)
    requires xs != []
    ensures |Join(xs, c)| >= |xs[0]|
  {
  }

  /** A list of non-empty items without `|` reads back as it was stored. */
  lemma LoadStore(reqs: seq<string>)
    requires forall i :: 0 <= i < |reqs| ==> reqs[i] != [] && '|' !in reqs[i]
    ensures LoadRequirements(StoreRequirements(reqs)) == reqs
  {
    if reqs != [] {
      JoinCoversFirst(reqs, '|');
      SplitJoin(reqs, '|');
    }
  }

  /** Any stored text reads back to a list that stores as the same text. */
  lemma StoreLoad(s: string)
    ensures StoreRequirements(LoadRequirements(s)) == s
  {
    if s != "" {
      JoinSplit(s, '|');
    }
  }

  /**
    Exactly which lists survive storage: those with no `|` in any item, except
    the one-item list [""], which is stored as "" and read back as [].
  */
  lemma StorageRoundTrip(reqs: seq<string>)
    ensures LoadRequirements(StoreRequirements(reqs)) == reqs <==>
              reqs != [""] && forall i :: 0 <= i < |reqs| ==> '|' !in reqs[i]
  {
    if reqs != [""] && forall i :: 0 <= i < |reqs| ==> '|' !in reqs[i] {
      if |reqs| == 1 {
        assert reqs == [reqs[0]];
      } else if |reqs| > 1 {
        assert Join(reqs, '|') == reqs[0] + ['|'] + Join(reqs[1..], '|');
      }
      if reqs != [] {
        SplitJoin(reqs, '|');
      }
    }
  }

  /** The requirements of a text without `|` survive storage. */
  lemma RequirementsSurviveStorage(content: string)
    requires '|' !in content
    ensures LoadRequirements(StoreRequirements(RequirementsOf(content))) == RequirementsOf(content)
  {
    var r := RequirementsOf(content);
    RequirementsBounds(content);
    Requirements.RequirementsAvoidText(content, RequirementLeadIns, BotItems, {'|'});
    forall i | 0 <= i < |r| ensures r[i] != [] && '|' !in r[i] {
      assert forall k :: 0 <= k < |r[i]| ==> r[i][k] !in {'|'};
    }
    LoadStore(r);
  }

  // ----- contacts, compensation, location -----

  /**
    The contact dictionary: all three keys always, each with its `re.findall`
    list, so every email holds "@", every phone has 10 to 12 characters and
    every website starts with a scheme.
  */
  function ContactInfoOf(content: string): (m: map<string, seq<string>>)
    ensures m.Keys == {"emails", "phones", "websites"}
    ensures m["emails"] == FindEmails(content, 0) && m["phones"] == FindPhones(content, 0)
            && m["websites"] == FindUrls(content, 0)
    ensures forall i :: 0 <= i < |m["emails"]| ==> '@' in m["emails"][i]
    ensures forall i :: 0 <= i < |m["phones"]| ==> 10 <= |m["phones"][i]| <= 12
    ensures forall i :: 0 <= i < |m["websites"]| ==>
              StartsWith(m["websites"][i], "https://") || StartsWith(m["websites"][i], "http://")
  {
    map["emails" := FindEmails(content, 0), "phones" := FindPhones(content, 0), "websites" := FindUrls(content, 0)]
  }

  /** The patterns of `extract_compensation`, in order. */
  const BotSalaryPatterns: seq<AmountPattern> := [
    AmountPattern(Labelled("salary"), OptionalDollarRange, true),
    AmountPattern(Dollar, DollarRange, true),
    AmountPattern(Labelled("budget"), NoRange, false),
    AmountPattern(Labelled("pay"), NoRange, false)
  ]

  /** `extract_compensation`: the text of the first pattern that matches. */
  function ExtractCompensation(content: string): Option<string> {
    FirstAmount(content, BotSalaryPatterns, 0)
  }

  /**
    A compensation found is the verbatim leftmost match of the first pattern
    that matches anywhere, and starts with "salary", a dollar sign, "budget" or
    "pay"; none is found exactly when no pattern starts anywhere in the text.
  */
  lemma CompensationShape(content: string)
    ensures var r := ExtractCompensation(content);
            (r.Some? ==> r.value != [] && (FoldAt(r.value, 0, "salary") || r.value[0] == '$'
                                           || FoldAt(r.value, 0, "budget") || FoldAt(r.value, 0, "pay")))
            && (r.None? ==> forall j, p: nat :: 0 <= j < |BotSalaryPatterns| && p <= |content| ==>
                              AmountPatternAt(content, BotSalaryPatterns[j], p).None?)
    // The text is the verbatim leftmost match of the first pattern that matches anywhere ...
    ensures var r := ExtractCompensation(content);
            r.Some? ==>
              exists j: nat, p: nat :: j < |BotSalaryPatterns| && LeftmostAmount(content, BotSalaryPatterns[j], p)
                                  && r.value == content[p..AmountPatternAt(content, BotSalaryPatterns[j], p).value]
                                  && forall i: nat, q: nat :: i < j && q <= |content| ==>
                                       AmountPatternAt(content, BotSalaryPatterns[i], q).None?
    // ... and a match of any pattern anywhere gives a result.
    ensures ExtractCompensation(content).None? <==>
              forall j: nat, p: nat :: j < |BotSalaryPatterns| && p <= |content| ==> AmountPatternAt(content, BotSalaryPatterns[j], p).None?
  {
    FirstAmountText(content, BotSalaryPatterns);
    if ExtractCompensation(content).Some? {
      FirstAmountFound(content, BotSalaryPatterns, 0);
    } else {
      FirstAmountNone(content, BotSalaryPatterns, 0);
    }
  }

  /** `extract_location`: "Remote" for a standalone "remote", else the capitalised place after "in". */
  function ExtractLocation(content: string): Option<string> {
    if SearchFrom(content, RemoteWord, 0).Some? then Some("Remote") else SearchGroup(content, InPlace)
  }

  /** When the search finds no standalone "remote", there is none anywhere. */
  lemma NoRemoteAnywhere(s: string)
    requires SearchFrom(s, RemoteWord, 0).None?
    ensures forall p: nat :: p <= |s| ==> !RemoteWordAt(s, p)
  {
    forall p: nat | p <= |s| ensures !RemoteWordAt(s, p) {
      RemoteMissesAt(s, 0, |s| + 1, p);
    }
  }

  /** A standalone "remote" anywhere gives "Remote", whatever else the text holds. */
  lemma RemoteFirst(content: string, p: nat)
    requires p <= |content| && RemoteWordAt(content, p)
    ensures ExtractLocation(content) == Some("Remote")
  {
    if SearchFrom(content, RemoteWord, 0).None? {
      NoRemoteAnywhere(content);
    }
  }

  /** `[A-Z][a-z]+(?:\s+[A-Z][a-z]+)*` in outline: a capital first, then letters and spaces. */
  predicate CapitalisedPhrase(t: string) {
    t != [] && IsAsciiUpper(t[0])
    && forall k :: 0 <= k < |t| ==> IsSpace(t[k]) || IsAsciiUpper(t[k]) || IsAsciiLower(t[k])
  }

  /** Any location other than "Remote" is a capitalised phrase that followed "in". */
  lemma LocationPhrase(content: string)
    ensures var r := ExtractLocation(content);
            r.None? || r == Some("Remote") || CapitalisedPhrase(r.value)
  {
    if SearchFrom(content, RemoteWord, 0).None? {
      match SearchFrom(content, InPlace, 0)
      case None =>
      case Some((p, h)) =>
        assert InPlaceAt(content, p) == Some((h.start, h.end));
        PhraseOfSpan(content, p);
    }
  }

  lemma PhraseOfSpan(s: string, p: nat)
    requires InPlaceAt(s, p).Some?
    ensures var span := InPlaceAt(s, p).value; CapitalisedPhrase(s[span.0..span.1])
  {
    var span := InPlaceAt(s, p).value;
    var t := s[span.0..span.1];
    forall k | 0 <= k < |t| ensures IsSpace(t[k]) || IsAsciiUpper(t[k]) || IsAsciiLower(t[k]) {
      assert t[k] == s[span.0 + k];
    }
  }

  /** There is no location exactly when neither pattern matches anywhere. */
  lemma LocationNone(content: string)
    ensures ExtractLocation(content).None?
            <==> forall p: nat :: p <= |content| ==> !RemoteWordAt(content, p) && InPlaceAt(content, p).None?
  {
    match SearchFrom(content, RemoteWord, 0)
    case Some((q, _)) =>
      assert RemoteWordAt(content, q);
    case None =>
      NoRemoteAnywhere(content);
      match SearchFrom(content, InPlace, 0)
      case None =>
        forall p: nat | p <= |content| ensures InPlaceAt(content, p).None? {
          NoMatchAt(content, InPlace, 0, |content| + 1, p);
        }
      case Some((q, h)) =>
        assert InPlaceAt(content, q).Some?;
  }

  // ----- priority -----

  const UrgentWords: seq<string> := ["urgent", "asap", "immediate", "rush"]
  const SeniorWords: seq<string> := ["senior", "lead", "manager", "director", "cto"]
  const TopPay: seq<string> := ["100k", "120k", "140k", "150k", "200k"]

  /** The compensation bonus: +1 for a top pay figure (case-sensitive), +0.5 for "equity" in any case. */
  function CompensationBonus(compensation: Option<string>): real {
    if compensation.None? || compensation.value == [] then 0.0
    else (if AnyIn(TopPay, compensation.value) then 1.0 else 0.0)
         + (if Contains(Lower(compensation.value), "equity") then 0.5 else 0.0)
  }

  /** The deadline bonus: +1 within 7 days (past dates included), else +0.5 within 30; nothing unless it parses. */
  function DeadlineBonus(deadline: Option<string>, now: Instant): (b: real)
    requires ValidInstant(now)
    ensures b == 0.0 || b == 0.5 || b == 1.0
    ensures deadline.None? || Parse(deadline.value, YmdFormat).None? ==> b == 0.0
    ensures deadline.Some? && Parse(deadline.value, YmdFormat).Some? ==>
      b == BonusTier(DaysUntil(Parse(deadline.value, YmdFormat).value.date, now))
  {
    if deadline.None? || deadline.value == [] then 0.0
    else match Parse(deadline.value, YmdFormat)
      case None => 0.0
      case Some(t) =>
        var days := DaysUntil(t.date, now);
        if days <= 7 then 1.0 else if days <= 30 then 0.5 else 0.0
  }

  /** The bonus for a deadline `days` days ahead: +1 within 7, +0.5 within 30. */
  function BonusTier(days: int): real {
    if days <= 7 then 1.0 else if days <= 30 then 0.5 else 0.0
  }

  /** A deadline this bot wrote earns the tier of its own distance from now. */
  lemma FormattedDeadlineBonus(d: Date, now: Instant)
    requires ValidDate(d) && ValidInstant(now)
    ensures DeadlineBonus(Some(FormatYmd(d)), now) == BonusTier(DaysUntil(d, now))
  {
    YmdRoundTrip(d);
  }

  /** What `calculate_smart_priority` returns. */
  function SmartPriorityOf(contentLower: string, deadline: Option<string>, compensation: Option<string>, now: Instant): real
    requires ValidInstant(now)
  {
    var score := 5.0 + (if AnyIn(UrgentWords, contentLower) then 2.0 else 0.0)
                 + (if AnyIn(SeniorWords, contentLower) then 1.5 else 0.0)
                 + CompensationBonus(compensation) + DeadlineBonus(deadline, now);
    if score < 10.0 then score else 10.0
  }

  /** The priority lies in [5, 10] and moves in half points. */
  lemma SmartPriorityBounds(contentLower: string, deadline: Option<string>, compensation: Option<string>, now: Instant)
    requires ValidInstant(now)
    ensures 5.0 <= SmartPriorityOf(contentLower, deadline, compensation, now) <= 10.0
    ensures AiAnalyzer.HalfPoints(SmartPriorityOf(contentLower, deadline, compensation, now))
  {
    var u := if AnyIn(UrgentWords, contentLower) then 4 else 0;
    var v := if AnyIn(SeniorWords, contentLower) then 3 else 0;
    var c := CompensationBonus(compensation);
    var d := DeadlineBonus(deadline, now);
    var ci := if c == 1.5 then 3 else if c == 1.0 then 2 else if c == 0.5 then 1 else 0;
    var di := if d == 1.0 then 2 else if d == 0.5 then 1 else 0;
    var twice := 10 + u + v + ci + di;
    assert c == ci as real / 2.0;
    assert d == di as real / 2.0;
    var clamped := if twice < 20 then twice else 20;
    assert SmartPriorityOf(contentLower, deadline, compensation, now) == clamped as real / 2.0;
    AiAnalyzer.HalfPointsOf(clamped);
  }

  /**
    The top score 10 is reached exactly with an urgent word, a seniority word
    and at least 1.5 from compensation and deadline together; every other mix
    stays below 10.
  */
  lemma TopPriority(contentLower: string, deadline: Option<string>, compensation: Option<string>, now: Instant)
    requires ValidInstant(now)
    ensures SmartPriorityOf(contentLower, deadline, compensation, now) == 10.0 <==>
              AnyIn(UrgentWords, contentLower) && AnyIn(SeniorWords, contentLower)
              && CompensationBonus(compensation) + DeadlineBonus(deadline, now) >= 1.5
  {
  }

  /** `calculate_smart_priority`: adds each bonus to the score in turn, then caps it at 10. */
  method CalculateSmartPriority(contentLower: string, deadline: Option<string>, compensation: Option<string>, now: Instant)
    returns (result: real)
    requires ValidInstant(now)
    ensures result == SmartPriorityOf(contentLower, deadline, compensation, now)
  {
    var score := 5.0;
    if AnyIn(UrgentWords, contentLower) {
      score := score + 2.0;
    }
    if AnyIn(SeniorWords, contentLower) {
      score := score + 1.5;
    }
    if compensation.Some? && compensation.value != [] {
      if AnyIn(TopPay, compensation.value) {
        score := score + 1.0;
      }
      if Contains(Lower(compensation.value), "equity") {
        score := score + 0.5;
      }
    }
    if deadline.Some? && deadline.value != [] {
      var parsed := Parse(deadline.value, YmdFormat);
      if parsed.Some? {
        var days := DaysUntil(parsed.value.date, now);
        if days <= 7 {
          score := score + 1.0;
        } else if days <= 30 {
          score := score + 0.5;
        }
      }
    }
    result := if score < 10.0 then score else 10.0;
  }

  // ----- the basic record -----

  /** The dictionary `enhanced_basic_analysis` returns. */
  datatype BotAnalysis = BotAnalysis(
    title: string,
    category: string,
    deadline: Option<string>,
    requirements: seq<string>,
    contactInfo: map<string, seq<string>>,
    priorityScore: real,
    compensation: Option<string>,
    location: Option<string>,
    summary: string)

  /** The summary line. */
  function SummaryOf(category: string, count: nat): string {
    "Smart analysis: " + category + " opportunity with " + NatToString(count) + " requirements"
  }

  /** What `enhanced_basic_analysis` returns. */
  function BasicAnalysisOf(content: string, now: Instant): BotAnalysis
    requires ValidInstant(now)
  {
    var contentLower := Lower(content);
    var category := CategoryOf(contentLower);
    var deadline := ExtractDeadline(content);
    var requirements := RequirementsOf(content);
    var compensation := ExtractCompensation(content);
    BotAnalysis(ExtractTitle(content), category, deadline, requirements, ContactInfoOf(content),
                SmartPriorityOf(contentLower, deadline, compensation, now), compensation,
                ExtractLocation(content), SummaryOf(category, |requirements|))
  }

  /** The invariants of every basic record. */
  predicate ValidBasic(a: BotAnalysis) {
    |a.title| <= 83
    && a.category in {"job", "freelance", "business", "other"}
    && (a.deadline.Some? ==> YmdShaped(a.deadline.value))
    && |a.requirements| <= 5
    && (forall i :: 0 <= i < |a.requirements| ==> 3 < |a.requirements[i]| < 50)
    && a.contactInfo.Keys == {"emails", "phones", "websites"}
    && 5.0 <= a.priorityScore <= 10.0 && AiAnalyzer.HalfPoints(a.priorityScore)
    && a.summary == SummaryOf(a.category, |a.requirements|)
  }

  /** Every basic record keeps the invariants. */
  lemma BasicInvariants(content: string, now: Instant)
    requires ValidInstant(now)
    ensures ValidBasic(BasicAnalysisOf(content, now))
  {
    var a := BasicAnalysisOf(content, now);
    RequirementsBounds(content);
    assert a.requirements == RequirementsOf(content);
    SmartPriorityBounds(Lower(content), a.deadline, a.compensation, now);
    assert a.priorityScore == SmartPriorityOf(Lower(content), a.deadline, a.compensation, now);
  }

  /** `enhanced_basic_analysis`. */
  method EnhancedBasicAnalysis(content: string, now: Instant) returns (a: BotAnalysis)
    requires ValidInstant(now)
    ensures a == BasicAnalysisOf(content, now)
  {
    var title := ExtractTitle(content);
    var contentLower := Lower(content);
    var category := CategoryOf(contentLower);
    var deadline := ExtractDeadline(content);
    var requirements := ExtractRequirements(content);
    var contactInfo := ContactInfoOf(content);
    var compensation := ExtractCompensation(content);
    var location := ExtractLocation(content);
    var priority := CalculateSmartPriority(contentLower, deadline, compensation, now);
    a := BotAnalysis(title, category, deadline, requirements, contactInfo, priority, compensation, location,
                     SummaryOf(category, |requirements|));
  }

  // ----- the model reply -----

  /** The record as the dictionary it is in Python. */
  function AsDict(a: BotAnalysis): map<string, PyValue.Value> {
    map["title" := PyValue.Str(a.title), "category" := PyValue.Str(a.category),
        "deadline" := PyValue.OptStr(a.deadline), "requirements" := PyValue.Strings(a.requirements),
        "contact_info" := PyValue.Dict(map k | k in a.contactInfo :: PyValue.Strings(a.contactInfo[k])),
        "priority_score" := PyValue.Num(a.priorityScore), "compensation" := PyValue.OptStr(a.compensation),
        "location" := PyValue.OptStr(a.location), "summary" := PyValue.Str(a.summary)]
  }

  const BasicKeys: set<string> :=
    {"title", "category", "deadline", "requirements", "contact_info", "priority_score", "compensation", "location", "summary"}

  /**
    `gemini_enhance`: `reply` is the model's text, None when the call
    failed; `parse` stands for `json.loads`, None when it raises. A JSON
    object is merged over the basic record (`{**basic, **enhanced}`);
    anything else leaves the record as it was.
  */
  function GeminiEnhance(basic: map<string, PyValue.Value>, reply: Option<string>,
                         parse: string -> Option<PyValue.Value>): (r: map<string, PyValue.Value>)
    ensures basic.Keys <= r.Keys
  {
    match reply
    case None => basic
    case Some(text) =>
      match parse(CutFenced(Strip(text)))
      case Some(v) => if v.Dict? then basic + v.fields else basic
      case None => basic
  }

  /** The merged record keeps every basic field the reply does not name, and takes the reply's value for the others. */
  lemma EnhanceMerges(basic: map<string, PyValue.Value>, text: string, parse: string -> Option<PyValue.Value>,
                      fields: map<string, PyValue.Value>)
    requires parse(CutFenced(Strip(text))) == Some(PyValue.Dict(fields))
    ensures var r := GeminiEnhance(basic, Some(text), parse);
            r.Keys == basic.Keys + fields.Keys
            && (forall k :: k in fields ==> r[k] == fields[k])
            && (forall k :: k in basic && k !in fields ==> r[k] == basic[k])
  {
  }

  /** Merging the same reply twice changes nothing more. */
  lemma EnhanceIdempotent(basic: map<string, PyValue.Value>, reply: Option<string>, parse: string -> Option<PyValue.Value>)
    ensures GeminiEnhance(GeminiEnhance(basic, reply, parse), reply, parse) == GeminiEnhance(basic, reply, parse)
  {
    if reply.Some? {
      match parse(CutFenced(Strip(reply.value)))
      case Some(v) =>
        if v.Dict? {
          assert (basic + v.fields) + v.fields == basic + v.fields;
        }
      case None =>
    }
  }

  /** A reply fenced as "```json" body "```" is parsed from exactly its body. */
  lemma EnhanceJsonBlock(basic: map<string, PyValue.Value>, body: string, parse: string -> Option<PyValue.Value>)
    requires '`' !in body
    ensures GeminiEnhance(basic, Some(JsonFence + body + Fence), parse)
            == match parse(body) case Some(v) => (if v.Dict? then basic + v.fields else basic) case None => basic
  {
    var text := JsonFence + body + Fence;
    assert text[0] == '`' && text[|text| - 1] == '`';
    StripTrimmed(text);
    CutJsonBlock(body);
  }

  /**
    `smart_analyze`: the basic record, merged with the model reply when a
    model is configured. The merge is a non-empty dictionary, so its result
    is always the one returned.
  */
  function SmartAnalyze(content: string, now: Instant, modelConfigured: bool, reply: Option<string>,
                        parse: string -> Option<PyValue.Value>): map<string, PyValue.Value>
    requires ValidInstant(now)
  {
    var basic := AsDict(BasicAnalysisOf(content, now));
    if modelConfigured then GeminiEnhance(basic, reply, parse) else basic
  }

  /** The result always has every basic key, and without a model it is the basic record itself. */
  lemma SmartAnalyzeKeys(content: string, now: Instant, modelConfigured: bool, reply: Option<string>,
                         parse: string -> Option<PyValue.Value>)
    requires ValidInstant(now)
    ensures BasicKeys <= SmartAnalyze(content, now, modelConfigured, reply, parse).Keys
    ensures !modelConfigured ==> SmartAnalyze(content, now, modelConfigured, reply, parse) == AsDict(BasicAnalysisOf(content, now))
  {
    AsDictKeys(BasicAnalysisOf(content, now));
  }

  lemma AsDictKeys(a: BotAnalysis)
    ensures BasicKeys <= AsDict(a).Keys
  {
  }
}
