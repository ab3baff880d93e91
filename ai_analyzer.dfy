/**
  `FreeOpportunityAnalyzer` (ai_analyzer.py): the keyword-and-pattern
  analyzer that turns an opportunity text into a record of title, category,
  deadline, requirements, contacts, priority, compensation and location.
  The clock reading `datetime.now()` is the parameter `now`.
*/
module AiAnalyzer {
  import opened Base
  import opened Text
  import opened Calendar
  import opened Strptime
  import opened Patterns
  import Requirements

  /** The category keyword table, in declaration order. */
  const Categories: seq<(string, seq<string>)> := [
    ("job", ["job", "position", "role", "hiring", "employment", "career", "work", "developer", "engineer", "manager"]),
    ("freelance", ["freelance", "contract", "gig", "project", "consultant", "independent"]),
    ("business", ["business", "partnership", "investment", "startup", "entrepreneur", "venture"]),
    ("grant", ["grant", "funding", "scholarship", "award", "fellowship", "sponsorship"]),
    ("competition", ["competition", "contest", "hackathon", "challenge", "tournament"])
  ]

  /** The capture of every lead-in here stops at a full stop or a newline. */
  const LineStop: set<char> := {'.', '\n'}

  const DeadlineLeadIns: seq<LeadIn> := [
    LeadIn("deadline", false, LineStop), LeadIn("due", false, LineStop), LeadIn("apply by", false, LineStop),
    LeadIn("closes", false, LineStop), LeadIn("expires", false, LineStop)
  ]

  const RequirementLeadIns: seq<LeadIn> := [
    LeadIn("requirement", true, LineStop), LeadIn("qualification", true, LineStop), LeadIn("skill", true, LineStop),
    LeadIn("experience", false, LineStop), LeadIn("must have", false, LineStop)
  ]

  /** The separators `[,;•\n]` requirement captures are split on. */
  const ItemSeparators: set<char> := {',', ';', '•', '\n'}

  /** What no requirement item can hold: an item separator, a full stop or a newline. */
  const ItemStops: set<char> := ItemSeparators + LineStop

  const SalaryPatterns: seq<AmountPattern> := [
    AmountPattern(Dollar, DollarRange, false),
    AmountPattern(Labelled("salary"), NoRange, false),
    AmountPattern(Labelled("budget"), NoRange, false),
    AmountPattern(Labelled("pay"), NoRange, false)
  ]

  const LocationLeadIns: seq<LeadIn> := [LeadIn("location", false, LineStop), LeadIn("based in", false, LineStop)]

  const UrgentWords: seq<string> := ["urgent", "asap", "immediate", "rush", "priority"]
  const ValueWords: seq<string> := ["senior", "lead", "manager", "director", "high salary", "competitive"]

  /** The dictionary `analyze_opportunity` returns. */
  datatype Analysis = Analysis(
    title: string,
    category: string,
    deadline: Option<string>,
    requirements: seq<string>,
    contactInfo: map<string, seq<string>>,
    priorityScore: real,
    compensation: Option<string>,
    location: Option<string>)

  // ----- title -----

  /** `_extract_title`. */
  function ExtractTitle(content: string): (r: string)
    ensures |r| < 100
    ensures r == [] <==> |content| <= 50 && forall i :: 0 <= i < |content| ==> IsSpace(content[i])
    ensures r != [] ==> !IsSpace(r[0])
    // The stripped first line of the stripped text wins when it is short and non-empty ...
    ensures var line := Strip(BeforeChar(Strip(content), '\n'));
            0 < |line| < 100 ==> r == line
    // ... otherwise the first 50 characters, stripped, plus "...", or the whole text stripped.
    ensures var line := Strip(BeforeChar(Strip(content), '\n'));
            !(0 < |line| < 100) && |content| > 50 ==> r == Strip(content[..50]) + "..."
    ensures var line := Strip(BeforeChar(Strip(content), '\n'));
            !(0 < |line| < 100) && |content| <= 50 ==> r == Strip(content)
  {
    var firstLine := Strip(BeforeChar(Strip(content), '\n'));
    if |firstLine| < 100 && firstLine != [] then firstLine
    else if |content| > 50 then Strip(Take(content, 50)) + "..."
    else Strip(content)
  }

  /** A trimmed first line shorter than 100 characters is the title, whatever follows it. */
  lemma TitleOfFirstLine(line: string, rest: string)
    requires line != [] && Trimmed(line) && '\n' !in line && |line| < 100
    ensures ExtractTitle(line + "\n" + rest) == line
  {
    var content := line + "\n" + rest;
    assert content[0] == line[0];
    assert SkipSpace(content, 0) == 0;
    var b := BackSpace(content, 0, |content|);
    assert content[|line| - 1] == line[|line| - 1];
    assert b >= |line|;
    var stripped := Strip(content);
    assert stripped == content[..b];
    if b == |line| {
      assert stripped == line;
    } else {
      assert stripped == line + "\n" + content[|line| + 1..b];
      IndexOfCharPrefix(line, '\n', content[|line| + 1..b]);
    }
    assert BeforeChar(stripped, '\n') == line;
    StripTrimmed(line);
  }

  // ----- category -----

  /** `sum(1 for keyword in keywords if keyword in text)`. */
  function Score(text: string, keywords: seq<string>): (n: nat)
    ensures n <= |keywords|
  {
    if keywords == [] then 0
    else Score(text, keywords[..|keywords| - 1]) + (if Contains(text, keywords[|keywords| - 1]) then 1 else 0)
  }

  /** The score is zero exactly when none of the keywords occurs in the text. */
  lemma {:induction false} ScoreZero(text: string, keywords: seq<string>)
    ensures Score(text, keywords) == 0 <==> forall i :: 0 <= i < |keywords| ==> !Contains(text, keywords[i])
  {
    if keywords != [] {
      var init := keywords[..|keywords| - 1];
      ScoreZero(text, init);
      assert forall i :: 0 <= i < |init| ==> init[i] == keywords[i];
    }
  }

  /** A category table: names with their keyword lists, in declaration order. */
  type CategoryTable = seq<(string, seq<string>)>

  /**
    The `category_scores` dict after the first n categories: the positive
    scores in table order, each keyed by its category's position in the table.
  */
  function ScoreTable(text: string, cats: CategoryTable, n: nat): (t: seq<(nat, nat)>)
    requires n <= |cats|
    ensures forall j :: 0 <= j < |t| ==> t[j].0 < n && t[j].1 == Score(text, cats[t[j].0].1) > 0
    ensures forall j, k :: 0 <= j < k < |t| ==> t[j].0 < t[k].0
  {
    if n == 0 then []
    else
      var sc := Score(text, cats[n - 1].1);
      ScoreTable(text, cats, n - 1) + (if sc > 0 then [(n - 1, sc)] else [])
  }

  /** Every category with a positive score has its entry in the table. */
  lemma {:induction false} ScoreTableComplete(text: string, cats: CategoryTable, n: nat, c: nat)
    requires c < n <= |cats| && Score(text, cats[c].1) > 0
    ensures exists j :: 0 <= j < |ScoreTable(text, cats, n)| && ScoreTable(text, cats, n)[j].0 == c
  {
    var t := ScoreTable(text, cats, n);
    var prev := ScoreTable(text, cats, n - 1);
    var sc := Score(text, cats[n - 1].1);
    assert t == prev + (if sc > 0 then [(n - 1, sc)] else []);
    if c == n - 1 {
      assert t[|prev|].0 == c;
    } else {
      ScoreTableComplete(text, cats, n - 1, c);
      var j :| 0 <= j < |prev| && prev[j].0 == c;
      assert t[j] == prev[j];
    }
  }

  /** `max(d, key=d.get)`: the first entry with the largest score. */
  function MaxEntry(t: seq<(nat, nat)>): (k: nat)
    requires t != []
    ensures k < |t|
    ensures forall j :: 0 <= j < |t| ==> t[j].1 <= t[k].1
    ensures forall j :: 0 <= j < k ==> t[j].1 < t[k].1
  {
    if |t| == 1 then 0
    else
      var m := MaxEntry(t[..|t| - 1]);
      if t[|t| - 1].1 > t[m].1 then |t| - 1 else m
  }

  /** What `_detect_category` returns for a category table. */
  function CategoryIn(text: string, cats: CategoryTable): string {
    var t := ScoreTable(text, cats, |cats|);
    if t == [] then "other" else cats[t[MaxEntry(t)].0].0
  }

  /** Category c has a hit, beats every earlier category and is not beaten by a later one. */
  predicate Wins(text: string, cats: CategoryTable, c: nat)
    requires c < |cats|
  {
    Score(text, cats[c].1) > 0
    && (forall j :: 0 <= j < c ==> Score(text, cats[j].1) < Score(text, cats[c].1))
    && (forall j :: 0 <= j < |cats| ==> Score(text, cats[j].1) <= Score(text, cats[c].1))
  }

  /**
    The category is the one with the most keyword hits, ties going to the
    earlier category, and "other" exactly when no keyword occurs.
  */
  lemma CategoryIsBest(text: string, cats: CategoryTable)
    requires forall c :: 0 <= c < |cats| ==> cats[c].0 != "other"
    ensures CategoryIn(text, cats) == "other" <==> forall c :: 0 <= c < |cats| ==> Score(text, cats[c].1) == 0
    ensures CategoryIn(text, cats) != "other" ==>
              exists c :: 0 <= c < |cats| && cats[c].0 == CategoryIn(text, cats) && Wins(text, cats, c)
  {
    var t := ScoreTable(text, cats, |cats|);
    forall c | 0 <= c < |cats| && Score(text, cats[c].1) > 0 ensures t != [] {
      ScoreTableComplete(text, cats, |cats|, c);
    }
    if t != [] {
      var b := t[MaxEntry(t)].0;
      forall j | 0 <= j < |cats|
        ensures Score(text, cats[j].1) <= Score(text, cats[b].1)
        ensures j < b ==> Score(text, cats[j].1) < Score(text, cats[b].1)
      {
        MaxEntryBeats(text, cats, j);
      }
      assert Wins(text, cats, b);
    }
  }

  /** The entry `max` picks scores at least as much as category j, and more when j comes first. */
  lemma MaxEntryBeats(text: string, cats: CategoryTable, j: nat)
    requires j < |cats| && ScoreTable(text, cats, |cats|) != []
    ensures var t := ScoreTable(text, cats, |cats|);
            var b := t[MaxEntry(t)].0;
            b < |cats| && Score(text, cats[j].1) <= Score(text, cats[b].1)
            && (j < b ==> Score(text, cats[j].1) < Score(text, cats[b].1))
  {
    var t := ScoreTable(text, cats, |cats|);
    var k := MaxEntry(t);
    if Score(text, cats[j].1) > 0 {
      ScoreTableComplete(text, cats, |cats|, j);
      var i :| 0 <= i < |t| && t[i].0 == j;
      if j < t[k].0 {
        assert i < k;
      }
    }
  }

  /** What `_detect_category` returns with the analyzer's table. */
  function CategoryOf(text: string): string {
    CategoryIn(text, Categories)
  }

  /** The category detected is "other" or the name of a row of the table. */
  lemma CategoryNamed(text: string)
    ensures CategoryOf(text) == "other" || exists c :: 0 <= c < |Categories| && Categories[c].0 == CategoryOf(text)
  {
    CategoryIsBest(text, Categories);
  }

  /** One more category adds its entry when its score is positive. */
  lemma ScoreTableStep(text: string, cats: CategoryTable, i: nat)
    requires i < |cats|
    ensures var sc := Score(text, cats[i].1);
            ScoreTable(text, cats, i + 1) == ScoreTable(text, cats, i) + if sc > 0 then [(i, sc)] else []
  {
  }

  /** The scoring loop of `_detect_category`: the `category_scores` dict in insertion order. */
  method ScoreCategories(contentLower: string, cats: CategoryTable) returns (scores: seq<(nat, nat)>)
    ensures scores == ScoreTable(contentLower, cats, |cats|)
  {
    scores := [];
    var i := 0;
    while i < |cats|
      invariant i <= |cats|
      invariant scores == ScoreTable(contentLower, cats, i)
    {
      var score := Score(contentLower, cats[i].1);
      ScoreTableStep(contentLower, cats, i);
      if score > 0 {
        scores := scores + [(i, score)];
      }
      i := i + 1;
    }
  }

  /** `max(category_scores, key=category_scores.get)`: a scan that keeps the first largest entry. */
  method BestEntry(scores: seq<(nat, nat)>) returns (best: nat)
    requires scores != []
    ensures best == MaxEntry(scores)
  {
    best := 0;
    var j := 1;
    while j < |scores|
      invariant 1 <= j <= |scores|
      invariant best == MaxEntry(scores[..j])
    {
      assert scores[..j + 1][..j] == scores[..j];
      if scores[j].1 > scores[best].1 {
        best := j;
      }
      j := j + 1;
    }
    assert scores[..j] == scores;
  }

  /** `_detect_category` over `self.categories`: fills the score dict, then takes its maximum. */
  method DetectCategory(contentLower: string, cats: CategoryTable) returns (category: string)
    ensures category == CategoryIn(contentLower, cats)
  {
    var scores := ScoreCategories(contentLower, cats);
    if scores == [] {
      return "other";
    }
    var best := BestEntry(scores);
    category := cats[scores[best].0].0;
  }

  // ----- dates -----

  const OneOrTwo := Reps(1, 2)
  const Four := Reps(4, 4)

  /** The numeric forms of `_parse_date`, in order: `/` and `-` month first, then year first. */
  const DateForms: seq<(char, Reps, Reps, Reps)> := [
    ('/', OneOrTwo, OneOrTwo, Four), ('-', OneOrTwo, OneOrTwo, Four), ('-', Four, OneOrTwo, OneOrTwo)
  ]

  /** The date a digit-triple match names: year first when the first group has four digits. */
  function TripleDate(m: Triple): Date
    requires AllDigits(m.g1) && AllDigits(m.g2) && AllDigits(m.g3)
  {
    if |m.g1| == 4 then Date(DigitsValue(m.g1), DigitsValue(m.g2), DigitsValue(m.g3))
    else Date(DigitsValue(m.g3), DigitsValue(m.g1), DigitsValue(m.g2))
  }

  /** Numeric form k: the date its leftmost match names, when that is a real date. */
  function FormDate(t: string, k: nat): (r: Option<Date>)
    requires k < |DateForms|
    ensures r.Some? ==> ValidDate(r.value)
    ensures var form := DateForms[k];
            r.Some? <==> SearchTriple(t, form.0, form.1, form.2, form.3).Some?
                         && ValidDate(TripleDate(SearchTriple(t, form.0, form.1, form.2, form.3).value.1))
    ensures var form := DateForms[k];
            r.Some? ==> r.value == TripleDate(SearchTriple(t, form.0, form.1, form.2, form.3).value.1)
  {
    var form := DateForms[k];
    match SearchTriple(t, form.0, form.1, form.2, form.3)
    case None => None
    case Some((_, m)) => if ValidDate(TripleDate(m)) then Some(TripleDate(m)) else None
  }

  /** The numeric forms from the k-th on: the first that matches and names a real date. */
  function NumericDate(t: string, k: nat): (r: Option<Date>)
    ensures r.Some? ==> ValidDate(r.value)
    decreases |DateForms| - k
  {
    if k >= |DateForms| then None
    else match FormDate(t, k)
      case Some(d) => Some(d)
      case None => NumericDate(t, k + 1)
  }

  /** What each numeric form contributes, in order. */
  function FormDates(t: string): (r: seq<Option<Date>>)
    ensures |r| == |DateForms| && forall i :: 0 <= i < |r| ==> r[i] == FormDate(t, i)
  {
    seq(|DateForms|, i requires 0 <= i < |DateForms| => FormDate(t, i))
  }

  /** The loop over the numeric forms returns the first contribution present. */
  lemma {:induction false} NumericIsFirstSome(t: string, k: nat)
    requires k <= |DateForms|
    ensures NumericDate(t, k) == FirstSome(FormDates(t), k)
    decreases |DateForms| - k
  {
    if k < |DateForms| {
      NumericIsFirstSome(t, k + 1);
    }
  }

  /**
    A numeric date is the one the leftmost match of the first form names, among
    the forms whose match is a real date; an impossible date (13/45/2025) lets
    the next form try, and none at all leaves the relative terms.
  */
  lemma NumericFirst(t: string)
    ensures NumericDate(t, 0).Some? ==>
              exists j :: 0 <= j < |DateForms| && FormDate(t, j) == NumericDate(t, 0)
                          && forall i :: 0 <= i < j ==> FormDate(t, i).None?
  {
    var xs := FormDates(t);
    NumericIsFirstSome(t, 0);
    if FirstSome(xs, 0).Some? {
      FirstSomeIsFirst(xs, 0);
    }
  }

  /** No numeric date exactly when none of the forms yields one. */
  lemma NumericNone(t: string)
    ensures NumericDate(t, 0).None? <==> forall i :: 0 <= i < |DateForms| ==> FormDate(t, i).None?
  {
    NumericIsFirstSome(t, 0);
    FirstSomeNone(FormDates(t), 0);
  }

  /** The relative terms: tomorrow, next week, next month. */
  function RelativeDate(t: string, now: Instant): (r: Option<Date>)
    requires ValidInstant(now) && now.date.year < 9999
    ensures r.Some? ==> ValidDate(r.value)
  {
    if Contains(t, "tomorrow") then AddDaysValid(now.date, 1); Some(AddDays(now.date, 1))
    else if Contains(t, "next week") then AddDaysValid(now.date, 7); Some(AddDays(now.date, 7))
    else if Contains(t, "next month") then AddDaysValid(now.date, 30); Some(AddDays(now.date, 30))
    else None
  }

  /**
    `_parse_date`: the numeric forms first; failing those, "tomorrow",
    "next week" and "next month", in that order, counted from today.
  */
  function ParseDate(dateText: string, now: Instant): (r: Option<Date>)
    requires ValidInstant(now) && now.date.year < 9999
    ensures r.Some? ==> ValidDate(r.value)
    ensures var t := Strip(Lower(dateText));
            NumericDate(t, 0).Some? ==> r == NumericDate(t, 0)
    ensures var t := Strip(Lower(dateText));
            NumericDate(t, 0).None? && Contains(t, "tomorrow") ==> r == Some(AddDays(now.date, 1))
    ensures var t := Strip(Lower(dateText));
            NumericDate(t, 0).None? && !Contains(t, "tomorrow") && Contains(t, "next week")
            ==> r == Some(AddDays(now.date, 7))
    ensures var t := Strip(Lower(dateText));
            NumericDate(t, 0).None? && !Contains(t, "tomorrow") && !Contains(t, "next week") && Contains(t, "next month")
            ==> r == Some(AddDays(now.date, 30))
    ensures var t := Strip(Lower(dateText));
            r.None? <==> NumericDate(t, 0).None? && !Contains(t, "tomorrow") && !Contains(t, "next week")
                         && !Contains(t, "next month")
  {
    var t := Strip(Lower(dateText));
    match NumericDate(t, 0)
    case Some(d) => Some(d)
    case None => RelativeDate(t, now)
  }

  /** Lead-in k: its capture, stripped and parsed, written as `YYYY-MM-DD`. */
  function LeadDate(content: string, now: Instant, k: nat): (r: Option<string>)
    requires ValidInstant(now) && now.date.year < 9999
    requires k < |DeadlineLeadIns|
    ensures r.Some? <==> SearchLeadIn(content, DeadlineLeadIns[k]).Some?
                         && ParseDate(Strip(SearchLeadIn(content, DeadlineLeadIns[k]).value), now).Some?
    ensures r.Some? ==> r.value == FormatYmd(ParseDate(Strip(SearchLeadIn(content, DeadlineLeadIns[k]).value), now).value)
  {
    match SearchLeadIn(content, DeadlineLeadIns[k])
    case None => None
    case Some(capture) =>
      match ParseDate(Strip(capture), now)
      case Some(d) => Some(FormatYmd(d))
      case None => None
  }

  /** `_extract_deadline`, trying the lead-ins from the k-th on. */
  function DeadlineFrom(content: string, now: Instant, k: nat): (r: Option<string>)
    requires ValidInstant(now) && now.date.year < 9999
    ensures r.Some? ==> exists d :: ValidDate(d) && r.value == FormatYmd(d)
    decreases |DeadlineLeadIns| - k
  {
    if k >= |DeadlineLeadIns| then None
    else match LeadDate(content, now, k)
      case Some(x) => Some(x)
      case None => DeadlineFrom(content, now, k + 1)
  }

  function ExtractDeadline(content: string, now: Instant): Option<string>
    requires ValidInstant(now) && now.date.year < 9999
  {
    DeadlineFrom(content, now, 0)
  }

  /** What each lead-in contributes, in order. */
  function LeadDates(content: string, now: Instant): (r: seq<Option<string>>)
    requires ValidInstant(now) && now.date.year < 9999
    ensures |r| == |DeadlineLeadIns| && forall i :: 0 <= i < |r| ==> r[i] == LeadDate(content, now, i)
  {
    seq(|DeadlineLeadIns|, i requires 0 <= i < |DeadlineLeadIns| => LeadDate(content, now, i))
  }

  /** The loop over the lead-ins returns the first contribution present. */
  lemma {:induction false} DeadlineIsFirstSome(content: string, now: Instant, k: nat)
    requires ValidInstant(now) && now.date.year < 9999
    requires k <= |DeadlineLeadIns|
    ensures DeadlineFrom(content, now, k) == FirstSome(LeadDates(content, now), k)
    decreases |DeadlineLeadIns| - k
  {
    if k < |DeadlineLeadIns| {
      DeadlineIsFirstSome(content, now, k + 1);
    }
  }

  /** The deadline is the date of the first lead-in whose capture parses. */
  lemma DeadlineFirst(content: string, now: Instant)
    requires ValidInstant(now) && now.date.year < 9999
    ensures ExtractDeadline(content, now).Some? ==>
              exists j :: 0 <= j < |DeadlineLeadIns| && LeadDate(content, now, j) == ExtractDeadline(content, now)
                          && forall i :: 0 <= i < j ==> LeadDate(content, now, i).None?
  {
    var xs := LeadDates(content, now);
    DeadlineIsFirstSome(content, now, 0);
    if FirstSome(xs, 0).Some? {
      FirstSomeIsFirst(xs, 0);
    }
  }

  /** There is no deadline exactly when no lead-in's capture parses. */
  lemma DeadlineNone(content: string, now: Instant)
    requires ValidInstant(now) && now.date.year < 9999
    ensures ExtractDeadline(content, now).None? <==>
              forall i :: 0 <= i < |DeadlineLeadIns| ==> LeadDate(content, now, i).None?
  {
    DeadlineIsFirstSome(content, now, 0);
    FirstSomeNone(LeadDates(content, now), 0);
  }

  /** A deadline found is always a date string that `strptime(..., "%Y-%m-%d")` accepts. */
  lemma DeadlineParses(content: string, now: Instant)
    requires ValidInstant(now) && now.date.year < 9999
    ensures ExtractDeadline(content, now).Some? ==>
              Parse(ExtractDeadline(content, now).value, YmdFormat).Some?
  {
    if ExtractDeadline(content, now).Some? {
      var d :| ValidDate(d) && ExtractDeadline(content, now).value == FormatYmd(d);
      YmdRoundTrip(d);
    }
  }

  /** Month, day and year digit groups of a slashed date: one or two, one or two, and four digits. */
  predicate SlashedGroups(a: string, b: string, c: string) {
    AllDigits(a) && AllDigits(b) && AllDigits(c) && 1 <= |a| <= 2 && 1 <= |b| <= 2 && |c| == 4
  }

  /** The three digit groups of a slashed text, seen through their positions. */
  lemma SlashedLayout(a: string, b: string, c: string)
    requires SlashedGroups(a, b, c)
    ensures var s := a + "/" + b + "/" + c;
            var i, j := |a|, |a| + 1 + |b|;
            s[i] == '/' && s[j] == '/' && j + 5 == |s|
            && (forall k :: 0 <= k < |s| && k != i && k != j ==> IsDigit(s[k]))
            && s[0..i] == a && s[i + 1..j] == b && s[j + 1..|s|] == c
  {
    var s := a + "/" + b + "/" + c;
    var i, j := |a|, |a| + 1 + |b|;
    forall k | 0 <= k < |s| && k != i && k != j ensures IsDigit(s[k]) {
      if k < i { assert s[k] == a[k]; }
      else if k < j { assert s[k] == b[k - i - 1]; }
      else { assert s[k] == c[k - j - 1]; }
    }
  }

  /** Digits up to i, a slash, digits up to j, a slash and four digits: the first form matches all of it. */
  lemma SlashedTripleAt(s: string, i: nat, j: nat)
    requires 1 <= i <= 2 && i + 2 <= j <= i + 3 && j + 5 == |s| && s[i] == '/' && s[j] == '/'
    requires forall k :: 0 <= k < |s| && k != i && k != j ==> IsDigit(s[k])
    ensures TripleAt(s, '/', OneOrTwo, OneOrTwo, Four, 0) == Some(Triple(s[0..i], s[i + 1..j], s[j + 1..|s|], |s|))
  {
    DigitRunIs(s, 0, i);
    DigitRunIs(s, i + 1, j);
    DigitRunIs(s, j + 1, |s|);
    var g := GroupsOf(s, '/', 0, i, j, |s|);
    assert g == Triple(s[0..i], s[i + 1..j], s[j + 1..|s|], |s|);
    assert TripleAt(s, '/', OneOrTwo, OneOrTwo, Four, 0) == Some(g);
  }

  /** A text with three digit groups separated by slashes matches the first form at its very start. */
  lemma SlashedMatch(a: string, b: string, c: string)
    requires SlashedGroups(a, b, c)
    ensures var s := a + "/" + b + "/" + c;
            SearchTriple(s, '/', OneOrTwo, OneOrTwo, Four) == Some((0, Triple(a, b, c, |s|)))
  {
    var s := a + "/" + b + "/" + c;
    var i, j := |a|, |a| + 1 + |b|;
    SlashedLayout(a, b, c);
    SlashedTripleAt(s, i, j);
    SearchAtStart(s, '/', OneOrTwo, OneOrTwo, Four);
    assert Triple(s[0..i], s[i + 1..j], s[j + 1..|s|], |s|) == Triple(a, b, c, |s|);
  }

  /** A slashed digit text holds no letter, no dash and nothing for lower-casing or stripping to change. */
  lemma SlashedPlain(a: string, b: string, c: string)
    requires SlashedGroups(a, b, c)
    ensures var s := a + "/" + b + "/" + c;
            Strip(s) == s && Lower(s) == s && '-' !in s && forall i :: 0 <= i < |s| ==> !IsAsciiLower(s[i])
  {
    var s := a + "/" + b + "/" + c;
    assert forall i :: 0 <= i < |s| ==> IsDigit(s[i]) || s[i] == '/' by {
      forall i | 0 <= i < |s| ensures IsDigit(s[i]) || s[i] == '/' {
        if i < |a| { assert s[i] == a[i]; }
        else if i == |a| { }
        else if i < |a| + 1 + |b| { assert s[i] == b[i - |a| - 1]; }
        else if i == |a| + 1 + |b| { }
        else { assert s[i] == c[i - |a| - |b| - 2]; }
      }
    }
    assert Lower(s) == s;
    StripTrimmed(s);
  }

  /** No digit triple with separator sep matches a text without sep. */
  lemma NoTripleWithout(t: string, sep: char, r1: Reps, r2: Reps, r3: Reps)
    requires sep !in t
    ensures SearchTriple(t, sep, r1, r2, r3).None?
  {
  }

  /** A word that starts with a lower-case letter is not in a text without one. */
  lemma WordNeedsLetter(t: string, w: string)
    requires w != [] && IsAsciiLower(w[0])
    requires forall i :: 0 <= i < |t| ==> !IsAsciiLower(t[i])
    ensures !Contains(t, w)
  {
  }

  /** Text without letters names no relative date. */
  lemma NoRelativeWithoutLetters(t: string, now: Instant)
    requires ValidInstant(now) && now.date.year < 9999
    requires forall i :: 0 <= i < |t| ==> !IsAsciiLower(t[i])
    ensures RelativeDate(t, now).None?
  {
    WordNeedsLetter(t, "tomorrow");
    WordNeedsLetter(t, "next week");
    WordNeedsLetter(t, "next month");
  }

  /**
    M/D/YYYY (one or two digits for month and day) is read month first: a
    real date written that way parses to itself, and one that is not a real
    date (month 13, say) gives None.
  */
  lemma SlashedMonthFirst(a: string, b: string, c: string, now: Instant)
    requires SlashedGroups(a, b, c)
    requires ValidInstant(now) && now.date.year < 9999
    ensures var d := Date(DigitsValue(c), DigitsValue(a), DigitsValue(b));
            ParseDate(a + "/" + b + "/" + c, now) == if ValidDate(d) then Some(d) else None
  {
    var s := a + "/" + b + "/" + c;
    SlashedPlain(a, b, c);
    SlashedMatch(a, b, c);
    NoTripleWithout(s, '-', OneOrTwo, OneOrTwo, Four);
    NoTripleWithout(s, '-', Four, OneOrTwo, OneOrTwo);
    NoRelativeWithoutLetters(s, now);
  }

  // ----- requirements -----

  /** `_extract_requirements` splits captures at `[,;•\n]` and keeps stripped items longer than 3 characters. */
  const AnalyzerItems := Requirements.ItemRule(Requirements.AtChars(ItemSeparators), None)

  /** What `_extract_requirements` returns. */
  function RequirementsOf(content: string): seq<string> {
    Requirements.RequirementsIn(content, RequirementLeadIns, AnalyzerItems)
  }

  /**
    At most five requirements, in pattern order then match order, each longer
    than 3 characters, stripped, and free of separators, full stops and
    newlines; no upper bound on their length.
  */
  lemma RequirementsBounds(content: string)
    ensures var r := RequirementsOf(content);
            |r| <= 5 && Avoids(r, ItemStops)
            && forall i :: 0 <= i < |r| ==> |r[i]| > 3 && !IsSpace(r[i][0]) && !IsSpace(r[i][|r[i]| - 1])
  {
    Requirements.RequirementsShape(content, RequirementLeadIns, AnalyzerItems, LineStop);
    var r := RequirementsOf(content);
    assert Requirements.SplitSeps(AnalyzerItems.split) + LineStop == ItemStops;
    forall i | 0 <= i < |r| ensures |r[i]| > 3 && !IsSpace(r[i][0]) && !IsSpace(r[i][|r[i]| - 1]) {
      assert Requirements.Keep(AnalyzerItems, r[i]);
    }
  }

  /** `_extract_requirements`, with its nested loops. */
  method ExtractRequirements(content: string) returns (result: seq<string>)
    ensures result == RequirementsOf(content)
  {
    result := Requirements.ExtractRequirements(content, RequirementLeadIns, AnalyzerItems);
  }

  // ----- contacts -----

  /** The contact dict for the lists found: a key for each non-empty list. */
  function ContactDict(emails: seq<string>, phones: seq<string>, urls: seq<string>): (m: map<string, seq<string>>)
    ensures "emails" in m <==> emails != []
    ensures "phones" in m <==> phones != []
    ensures "websites" in m <==> urls != []
    ensures m.Keys <= {"emails", "phones", "websites"}
    ensures forall k :: k in m ==> m[k] != []
    ensures "emails" in m ==> m["emails"] == emails
    ensures "phones" in m ==> m["phones"] == phones
    ensures "websites" in m ==> m["websites"] == urls
  {
    var withEmails := if emails != [] then map["emails" := emails] else map[];
    var withPhones := if phones != [] then withEmails["phones" := phones] else withEmails;
    if urls != [] then withPhones["websites" := urls] else withPhones
  }

  /** What `_extract_contact_info` returns. */
  function ContactInfoOf(content: string): map<string, seq<string>> {
    ContactDict(FindEmails(content, 0), FindPhones(content, 0), FindUrls(content, 0))
  }

  /** `_extract_contact_info`: builds the dict key by key. */
  method ExtractContactInfo(content: string) returns (contactInfo: map<string, seq<string>>)
    ensures contactInfo == ContactInfoOf(content)
  {
    contactInfo := map[];
    var emails := FindEmails(content, 0);
    var phones := FindPhones(content, 0);
    var urls := FindUrls(content, 0);
    if emails != [] {
      contactInfo := contactInfo["emails" := emails];
    }
    if phones != [] {
      contactInfo := contactInfo["phones" := phones];
    }
    if urls != [] {
      contactInfo := contactInfo["websites" := urls];
    }
  }

  // ----- compensation and location -----

  /** `_extract_compensation`: the match of the first salary pattern that matches. */
  function ExtractCompensation(content: string): Option<string> {
    FirstAmount(content, SalaryPatterns, 0)
  }

  /**
    A compensation found is the verbatim leftmost match of the first salary
    pattern that matches anywhere, and starts with a dollar sign or a label;
    none is found exactly when no salary pattern starts anywhere in the text.
  */
  lemma CompensationShape(content: string)
    ensures var r := ExtractCompensation(content);
            (r.Some? ==> r.value != [] && (r.value[0] == '$' || FoldAt(r.value, 0, "salary")
                                           || FoldAt(r.value, 0, "budget") || FoldAt(r.value, 0, "pay")))
            && (r.None? ==> forall j, p: nat :: 0 <= j < |SalaryPatterns| && p <= |content| ==>
                              AmountPatternAt(content, SalaryPatterns[j], p).None?)
    // The text is the verbatim leftmost match of the first pattern that matches anywhere ...
    ensures var r := ExtractCompensation(content);
            r.Some? ==>
              exists j: nat, p: nat :: j < |SalaryPatterns| && LeftmostAmount(content, SalaryPatterns[j], p)
                                  && r.value == content[p..AmountPatternAt(content, SalaryPatterns[j], p).value]
                                  && forall i: nat, q: nat :: i < j && q <= |content| ==>
                                       AmountPatternAt(content, SalaryPatterns[i], q).None?
    // ... and a match of any pattern anywhere gives a result.
    ensures ExtractCompensation(content).None? <==>
              forall j: nat, p: nat :: j < |SalaryPatterns| && p <= |content| ==> AmountPatternAt(content, SalaryPatterns[j], p).None?
  {
    FirstAmountText(content, SalaryPatterns);
    if ExtractCompensation(content).Some? {
      FirstAmountFound(content, SalaryPatterns, 0);
    } else {
      FirstAmountNone(content, SalaryPatterns, 0);
    }
  }

  /** `_extract_location`: location label, then "based in", then remote, then onsite. */
  function ExtractLocation(content: string): (r: Option<string>)
    ensures r.Some? && r.value != "Remote" && r.value != "On-site" ==>
              SearchLeadIn(content, LocationLeadIns[0]).Some? || SearchLeadIn(content, LocationLeadIns[1]).Some?
    ensures r.Some? && r.value != "Remote" && r.value != "On-site" ==> '.' !in r.value && '\n' !in r.value
    ensures r.None? <==> SearchLeadIn(content, LocationLeadIns[0]).None? && SearchLeadIn(content, LocationLeadIns[1]).None?
                         && FoldFind(content, "remote").None? && FoldFind(content, "work from home").None?
                         && FoldFind(content, "onsite").None?
    // The patterns are tried in order and the first that matches decides.
    ensures SearchLeadIn(content, LocationLeadIns[0]).Some? ==>
              r == Some(Strip(SearchLeadIn(content, LocationLeadIns[0]).value))
    ensures SearchLeadIn(content, LocationLeadIns[0]).None? && SearchLeadIn(content, LocationLeadIns[1]).Some? ==>
              r == Some(Strip(SearchLeadIn(content, LocationLeadIns[1]).value))
    ensures (SearchLeadIn(content, LocationLeadIns[0]).None? && SearchLeadIn(content, LocationLeadIns[1]).None?
             && (FoldFind(content, "remote").Some? || FoldFind(content, "work from home").Some?))
            ==> r == Some("Remote")
    ensures (SearchLeadIn(content, LocationLeadIns[0]).None? && SearchLeadIn(content, LocationLeadIns[1]).None?
             && FoldFind(content, "remote").None? && FoldFind(content, "work from home").None?
             && FoldFind(content, "onsite").Some?)
            ==> r == Some("On-site")
  {
    match SearchLeadIn(content, LocationLeadIns[0])
    case Some(capture) => Some(Strip(capture))
    case None =>
      match SearchLeadIn(content, LocationLeadIns[1])
      case Some(capture) => Some(Strip(capture))
      case None =>
        if FoldFind(content, "remote").Some? || FoldFind(content, "work from home").Some? then Some("Remote")
        else if FoldFind(content, "onsite").Some? then Some("On-site")
        else None
  }

  // ----- priority -----

  /** The deadline bonus: +2 within 3 days, +1 within 7, +0.5 within 14 (and for past dates). */
  function DeadlineBonus(deadline: Option<string>, now: Instant): (b: real)
    requires ValidInstant(now)
    ensures b == 0.0 || b == 0.5 || b == 1.0 || b == 2.0
    ensures deadline.None? || Parse(deadline.value, YmdFormat).None? ==> b == 0.0
    ensures deadline.Some? && Parse(deadline.value, YmdFormat).Some? ==>
      b == BonusTier(DaysUntil(Parse(deadline.value, YmdFormat).value.date, now))
  {
    if deadline.None? || deadline.value == [] then 0.0
    else match Parse(deadline.value, YmdFormat)
      case None => 0.0
      case Some(t) =>
        var days := DaysUntil(t.date, now);
        if days <= 3 then 2.0 else if days <= 7 then 1.0 else if days <= 14 then 0.5 else 0.0
  }

  /** The bonus for a deadline `days` days ahead: +2 within 3, +1 within 7, +0.5 within 14. */
  function BonusTier(days: int): real {
    if days <= 3 then 2.0 else if days <= 7 then 1.0 else if days <= 14 then 0.5 else 0.0
  }

  /** A deadline this analyzer wrote earns the tier of its own distance from now. */
  lemma FormattedDeadlineBonus(d: Date, now: Instant)
    requires ValidDate(d) && ValidInstant(now)
    ensures DeadlineBonus(Some(FormatYmd(d)), now) == BonusTier(DaysUntil(d, now))
  {
    YmdRoundTrip(d);
  }

  /** What `_calculate_priority` returns. */
  function PriorityOf(contentLower: string, deadline: Option<string>, now: Instant): real
    requires ValidInstant(now)
  {
    var score := 5.0 + Score(contentLower, UrgentWords) as real + 0.5 * Score(contentLower, ValueWords) as real
                 + DeadlineBonus(deadline, now);
    if score > 10.0 then 10.0 else if score < 1.0 then 1.0 else score
  }

  /** A whole number of half points. */
  predicate HalfPoints(x: real) {
    (2.0 * x).Floor as real == 2.0 * x
  }

  /** The priority lies in [5, 10] (so the lower clamp never acts) and moves in half points. */
  lemma PriorityBounds(contentLower: string, deadline: Option<string>, now: Instant)
    requires ValidInstant(now)
    ensures 5.0 <= PriorityOf(contentLower, deadline, now) <= 10.0
    ensures HalfPoints(PriorityOf(contentLower, deadline, now))
  {
    var u := Score(contentLower, UrgentWords);
    var v := Score(contentLower, ValueWords);
    var b := DeadlineBonus(deadline, now);
    var score := 5.0 + u as real + 0.5 * v as real + b;
    var twice := 10 + 2 * u + v + (if b == 2.0 then 4 else if b == 1.0 then 2 else if b == 0.5 then 1 else 0);
    assert score == twice as real / 2.0;
    var clamped := if twice > 20 then 20 else twice;
    assert PriorityOf(contentLower, deadline, now) == clamped as real / 2.0;
    HalfPointsOf(clamped);
  }

  /** Any whole number of halves is a whole number of half points. */
  lemma HalfPointsOf(n: int)
    ensures HalfPoints(n as real / 2.0)
  {
    assert 2.0 * (n as real / 2.0) == n as real;
  }

  /** With no urgent word, no value word and no deadline the priority is the base 5. */
  lemma PriorityBase(contentLower: string, now: Instant)
    requires ValidInstant(now)
    requires forall i :: 0 <= i < |UrgentWords| ==> !Contains(contentLower, UrgentWords[i])
    requires forall i :: 0 <= i < |ValueWords| ==> !Contains(contentLower, ValueWords[i])
    ensures PriorityOf(contentLower, None, now) == 5.0
  {
    ScoreZero(contentLower, UrgentWords);
    ScoreZero(contentLower, ValueWords);
  }

  /** `_calculate_priority`: accumulates the score keyword by keyword. */
  method CalculatePriority(contentLower: string, deadline: Option<string>, now: Instant) returns (result: real)
    requires ValidInstant(now)
    ensures result == PriorityOf(contentLower, deadline, now)
  {
    var score := 5.0;
    var i := 0;
    while i < |UrgentWords|
      invariant i <= |UrgentWords|
      invariant score == 5.0 + Score(contentLower, UrgentWords[..i]) as real
    {
      assert UrgentWords[..i + 1][..i] == UrgentWords[..i];
      if Contains(contentLower, UrgentWords[i]) {
        score := score + 1.0;
      }
      i := i + 1;
    }
    assert UrgentWords[..i] == UrgentWords;
    var j := 0;
    while j < |ValueWords|
      invariant j <= |ValueWords|
      invariant score == 5.0 + Score(contentLower, UrgentWords) as real + 0.5 * Score(contentLower, ValueWords[..j]) as real
    {
      assert ValueWords[..j + 1][..j] == ValueWords[..j];
      if Contains(contentLower, ValueWords[j]) {
        score := score + 0.5;
      }
      j := j + 1;
    }
    assert ValueWords[..j] == ValueWords;
    if deadline.Some? && deadline.value != [] {
      var parsed := Parse(deadline.value, YmdFormat);
      if parsed.Some? {
        var days := DaysUntil(parsed.value.date, now);
        if days <= 3 {
          score := score + 2.0;
        } else if days <= 7 {
          score := score + 1.0;
        } else if days <= 14 {
          score := score + 0.5;
        }
      }
    }
    result := if 10.0 < (if 1.0 > score then 1.0 else score) then 10.0 else (if 1.0 > score then 1.0 else score);
  }

  // ----- the whole analysis -----

  /** What `analyze_opportunity` returns. */
  function AnalysisOf(content: string, now: Instant): Analysis
    requires ValidInstant(now) && now.date.year < 9999
  {
    var contentLower := Lower(content);
    var deadline := ExtractDeadline(content, now);
    Analysis(ExtractTitle(content), CategoryOf(contentLower), deadline, RequirementsOf(content),
             ContactInfoOf(content), PriorityOf(contentLower, deadline, now),
             ExtractCompensation(content), ExtractLocation(content))
  }

  /** The invariants of every analysis record. */
  predicate ValidAnalysis(a: Analysis) {
    |a.title| < 100
    && (a.category == "other" || exists c :: 0 <= c < |Categories| && Categories[c].0 == a.category)
    && (a.deadline.Some? ==> Parse(a.deadline.value, YmdFormat).Some?)
    && |a.requirements| <= 5
    && 1.0 <= a.priorityScore <= 10.0
    && a.contactInfo.Keys <= {"emails", "phones", "websites"}
  }

  /** Every analysis the analyzer builds keeps the record invariants. */
  lemma AnalysisInvariants(content: string, now: Instant)
    requires ValidInstant(now) && now.date.year < 9999
    ensures ValidAnalysis(AnalysisOf(content, now))
  {
    var a := AnalysisOf(content, now);
    var lower := Lower(content);
    CategoryNamed(lower);
    assert a.category == CategoryOf(lower);
    DeadlineParses(content, now);
    assert a.deadline == ExtractDeadline(content, now);
    PriorityBounds(lower, a.deadline, now);
    assert a.priorityScore == PriorityOf(lower, a.deadline, now);
  }

  /** `analyze_opportunity`. */
  method AnalyzeOpportunity(content: string, now: Instant) returns (a: Analysis)
    requires ValidInstant(now) && now.date.year < 9999
    ensures a == AnalysisOf(content, now)
  {
    var contentLower := Lower(content);
    var title := ExtractTitle(content);
    var category := DetectCategory(contentLower, Categories);
    var deadline := ExtractDeadline(content, now);
    var requirements := ExtractRequirements(content);
    var contactInfo := ExtractContactInfo(content);
    var priorityScore := CalculatePriority(contentLower, deadline, now);
    var compensation := ExtractCompensation(content);
    a := Analysis(title, category, deadline, requirements, contactInfo, priorityScore, compensation,
                  ExtractLocation(content));
  }
}
