/**
  The OpenAI-backed analyzer (ai_engine/analyzer.py): the deadline parser
  that tries an ordered list of date formats, the keyword fallback with its
  first-hit category, and the post-processing of a parsed model reply.
*/
module AiEngine {
  import opened Base
  import opened Text
  import opened Calendar
  import opened Strptime
  import opened Patterns
  import PyValue

  // ----- deadlines -----

  /** The formats `_parse_deadline` tries, in order. */
  const DeadlineFormats: seq<seq<Directive>> := [YmdHmsFormat, YmdFormat, DmyFormat, MdyFormat]

  /** The result of the first format from the k-th on that parses s. */
  function FirstFormat(s: string, formats: seq<seq<Directive>>, k: nat): Option<Stamp>
    decreases |formats| - k
  {
    if k >= |formats| then None
    else match Parse(s, formats[k])
      case Some(t) => Some(t)
      case None => FirstFormat(s, formats, k + 1)
  }

  /** A result comes from some format, and every earlier format failed. */
  lemma {:induction false} FirstFormatFound(s: string, formats: seq<seq<Directive>>, k: nat)
    requires FirstFormat(s, formats, k).Some?
    ensures exists j :: k <= j < |formats| && Parse(s, formats[j]) == FirstFormat(s, formats, k)
                        && forall i :: k <= i < j ==> Parse(s, formats[i]).None?
    decreases |formats| - k
  {
    if Parse(s, formats[k]).Some? {
      assert Parse(s, formats[k]) == FirstFormat(s, formats, k);
    } else {
      FirstFormatFound(s, formats, k + 1);
      var j :| k + 1 <= j < |formats| && Parse(s, formats[j]) == FirstFormat(s, formats, k + 1)
               && forall i :: k + 1 <= i < j ==> Parse(s, formats[i]).None?;
      assert forall i :: k <= i < j ==> Parse(s, formats[i]).None?;
    }
  }

  /** No result means no format from the k-th on parses s. */
  lemma {:induction false} FirstFormatNone(s: string, formats: seq<seq<Directive>>, k: nat)
    requires FirstFormat(s, formats, k).None?
    ensures forall j :: k <= j < |formats| ==> Parse(s, formats[j]).None?
    decreases |formats| - k
  {
    if k < |formats| {
      assert Parse(s, formats[k]).None?;
      FirstFormatNone(s, formats, k + 1);
    }
  }

  /**
    What `_parse_deadline` returns. A value that is not a string makes
    `strptime` raise TypeError, which the outer handler turns into None.
  */
  function ParseDeadlineOf(deadline: PyValue.Value): (r: Option<Stamp>)
    ensures r.Some? ==> ValidStamp(r.value)
  {
    if deadline.Str? then
      var r := FirstFormat(deadline.s, DeadlineFormats, 0);
      if r.Some? then FirstFormatFound(deadline.s, DeadlineFormats, 0); r else r
    else None
  }

  /** `_parse_deadline`: the loop over the formats, returning at the first that parses. */
  method ParseDeadline(deadline: PyValue.Value) returns (r: Option<Stamp>)
    ensures r == ParseDeadlineOf(deadline)
  {
    if !deadline.Str? {
      return None;
    }
    var formats := DeadlineFormats;
    var i := 0;
    while i < |formats|
      invariant 0 <= i <= |formats|
      invariant FirstFormat(deadline.s, formats, i) == FirstFormat(deadline.s, formats, 0)
    {
      var parsed := Parse(deadline.s, formats[i]);
      if parsed.Some? {
        return parsed;
      }
      i := i + 1;
    }
    return None;
  }

  /** Text whose third character is a slash matches neither dashed format. */
  lemma DashedFormatsMiss(s: string)
    requires |s| > 2 && s[2] == '/'
    ensures Parse(s, YmdHmsFormat).None? && Parse(s, YmdFormat).None?
  {
    assert Candidates(Year, s, 0) == [];
  }

  /** "a/b/yyyy" with two-digit fields. */
  function SlashedText(a: nat, b: nat, y: nat): (s: string)
    requires a < 100 && b < 100 && y < 10000
    ensures |s| == 10 && s[2] == '/' && s[5] == '/'
    ensures s[0..2] == Pad2(a) && s[3..5] == Pad2(b) && s[6..10] == Pad4(y)
  {
    Pad2(a) + "/" + Pad2(b) + "/" + Pad4(y)
  }

  /** The match of "/%Y" from the second slash of a slashed text. */
  lemma SlashedTail(s: string, y: nat)
    requires |s| == 10 && s[5] == '/' && y < 10000 && s[6..10] == Pad4(y)
    ensures MatchFrom(s, 5, [Lit('/'), Year]) == Some(([0, y], 10))
  {
    YearOfPad4(s, 6, y);
    assert MatchFrom(s, 10, []) == Some(([], 10));
    FirstWins(s, 6, [Year], y, 10, [], 10);
    assert [y] + [] == [y];
    assert Candidates(Lit('/'), s, 5) == [Piece(0, 6)];
    assert [Lit('/'), Year][1..] == [Year];
    FirstWins(s, 5, [Lit('/'), Year], 0, 6, [y], 10);
    assert [0] + [y] == [0, y];
  }

  /** The match of "/x/%Y" from the first slash of a slashed text whose middle field reads as b. */
  lemma SlashedMiddle(s: string, second: Directive, b: nat, y: nat)
    requires |s| == 10 && s[2] == '/' && s[5] == '/' && y < 10000 && s[6..10] == Pad4(y)
    requires Candidates(second, s, 3) != [] && Candidates(second, s, 3)[0] == Piece(b, 5)
    ensures MatchFrom(s, 2, [Lit('/'), second, Lit('/'), Year]) == Some(([0, b, 0, y], 10))
  {
    SlashedTail(s, y);
    assert [second, Lit('/'), Year][1..] == [Lit('/'), Year];
    FirstWins(s, 3, [second, Lit('/'), Year], b, 5, [0, y], 10);
    assert [b] + [0, y] == [b, 0, y];
    assert Candidates(Lit('/'), s, 2) == [Piece(0, 3)];
    assert [Lit('/'), second, Lit('/'), Year][1..] == [second, Lit('/'), Year];
    FirstWins(s, 2, [Lit('/'), second, Lit('/'), Year], 0, 3, [b, 0, y], 10);
    assert [0] + [b, 0, y] == [0, b, 0, y];
  }

  /** The match of "x/x/%Y" on a slashed text whose leading fields read as a and b. */
  lemma SlashedMatch(s: string, first: Directive, second: Directive, a: nat, b: nat, y: nat)
    requires |s| == 10 && s[2] == '/' && s[5] == '/' && y < 10000 && s[6..10] == Pad4(y)
    requires Candidates(first, s, 0) != [] && Candidates(first, s, 0)[0] == Piece(a, 2)
    requires Candidates(second, s, 3) != [] && Candidates(second, s, 3)[0] == Piece(b, 5)
    ensures MatchFrom(s, 0, [first, Lit('/'), second, Lit('/'), Year]) == Some(([a, 0, b, 0, y], 10))
  {
    SlashedMiddle(s, second, b, y);
    assert [first, Lit('/'), second, Lit('/'), Year][1..] == [Lit('/'), second, Lit('/'), Year];
    FirstWins(s, 0, [first, Lit('/'), second, Lit('/'), Year], a, 2, [0, b, 0, y], 10);
    assert [a] + [0, b, 0, y] == [a, 0, b, 0, y];
  }

  /**
    A slashed date whose first field is a valid day is read day first: the
    ambiguous 03/04/2025 is the 3rd of April.
  */
  lemma DayFirstWins(d: nat, m: nat, y: nat)
    requires ValidDate(Date(y, m, d))
    ensures ParseDeadlineOf(PyValue.Str(SlashedText(d, m, y))) == Some(Stamp(Date(y, m, d), 0, 0, 0))
  {
    var s := SlashedText(d, m, y);
    DashedFormatsMiss(s);
    DayFirstParses(d, m, y);
    ThirdFormatFirst(s);
  }

  lemma DayFirstParses(d: nat, m: nat, y: nat)
    requires ValidDate(Date(y, m, d))
    ensures Parse(SlashedText(d, m, y), DmyFormat) == Some(Stamp(Date(y, m, d), 0, 0, 0))
  {
    var s := SlashedText(d, m, y);
    DayOfPad2(s, 0, d);
    MonthOfPad2(s, 3, m);
    SlashedMatch(s, Day, Month, d, m, y);
    FieldsOfSlashed([d, 0, m, 0, y]);
  }

  lemma MonthFirstParses(m: nat, d: nat, y: nat)
    requires ValidDate(Date(y, m, d))
    ensures Parse(SlashedText(m, d, y), MdyFormat) == Some(Stamp(Date(y, m, d), 0, 0, 0))
  {
    var s := SlashedText(m, d, y);
    MonthOfPad2(s, 0, m);
    DayOfPad2(s, 3, d);
    SlashedMatch(s, Month, Day, m, d, y);
    FieldsOfSlashed([m, 0, d, 0, y]);
  }

  /** Where the numbers of "%d/%m/%Y" and "%m/%d/%Y" land. */
  lemma FieldsOfSlashed(vs: seq<nat>)
    requires |vs| == 5
    ensures FieldOf(DmyFormat, vs, Year, 1900) == vs[4] && FieldOf(MdyFormat, vs, Year, 1900) == vs[4]
    ensures FieldOf(DmyFormat, vs, Month, 1) == vs[2] && FieldOf(MdyFormat, vs, Month, 1) == vs[0]
    ensures FieldOf(DmyFormat, vs, Day, 1) == vs[0] && FieldOf(MdyFormat, vs, Day, 1) == vs[2]
    ensures FieldOf(DmyFormat, vs, Hour, 0) == 0 && FieldOf(MdyFormat, vs, Hour, 0) == 0
    ensures FieldOf(DmyFormat, vs, Minute, 0) == 0 && FieldOf(MdyFormat, vs, Minute, 0) == 0
    ensures FieldOf(DmyFormat, vs, Second, 0) == 0 && FieldOf(MdyFormat, vs, Second, 0) == 0
  {
  }

  /** When both dashed formats fail, the list's answer is that of the slashed ones. */
  lemma ThirdFormatFirst(s: string)
    requires Parse(s, YmdHmsFormat).None? && Parse(s, YmdFormat).None?
    ensures FirstFormat(s, DeadlineFormats, 0) == FirstFormat(s, DeadlineFormats, 2)
  {
    assert DeadlineFormats[0] == YmdHmsFormat && DeadlineFormats[1] == YmdFormat;
  }

  /** Every way `%d` can start on a digit ends one or two characters later. */
  lemma DayEndsNear(s: string, i: nat)
    requires i < |s| && IsDigit(s[i])
    ensures forall k :: 0 <= k < |Candidates(Day, s, i)| ==>
              Candidates(Day, s, i)[k].end == i + 1 || Candidates(Day, s, i)[k].end == i + 2
  {
    assert SpaceDigitAt(s, i) == [];
  }

  /** After the day, "/%m/%Y" fails when the second field is two digits that are no month. */
  lemma MonthFieldFails(s: string, b: nat)
    requires |s| == 10 && s[2] == '/' && IsDigit(s[4])
    requires 12 < b < 100 && s[3..5] == Pad2(b)
    ensures MatchFrom(s, 2, [Lit('/'), Month, Lit('/'), Year]).None?
  {
    MonthOfPad2(s, 3, b);
    var months := Candidates(Month, s, 3);
    forall j | 0 <= j < |months| ensures MatchFrom(s, months[j].end, [Month, Lit('/'), Year][1..]).None? {
      assert [Month, Lit('/'), Year][1..] == [Lit('/')] + [Year];
      LitMisses(s, 4, '/', [Year]);
    }
    NoneWins(s, [Month, Lit('/'), Year], months, 0);
    assert Candidates(Lit('/'), s, 2) == [Piece(0, 3)];
    assert [Lit('/'), Month, Lit('/'), Year][1..] == [Month, Lit('/'), Year];
    NoneWins(s, [Lit('/'), Month, Lit('/'), Year], [Piece(0, 3)], 0);
  }

  /** "%d/%m/%Y" fails on a slashed text whose second field is two digits that are no month. */
  lemma DayFirstFails(s: string, b: nat)
    requires |s| == 10 && s[2] == '/' && IsDigit(s[0]) && IsDigit(s[1]) && IsDigit(s[4])
    requires 12 < b < 100 && s[3..5] == Pad2(b)
    ensures Parse(s, DmyFormat).None?
  {
    MonthFieldFails(s, b);
    DayEndsNear(s, 0);
    var days := Candidates(Day, s, 0);
    assert DmyFormat[1..] == [Lit('/'), Month, Lit('/'), Year];
    forall j | 0 <= j < |days| ensures MatchFrom(s, days[j].end, DmyFormat[1..]).None? {
      if days[j].end == 1 {
        assert DmyFormat[1..] == [Lit('/')] + [Month, Lit('/'), Year];
        LitMisses(s, 1, '/', [Month, Lit('/'), Year]);
      }
    }
    NoneWins(s, DmyFormat, days, 0);
  }

  /**
    Month first is used only when day first fails: 12/25/2025 is the 25th
    of December.
  */
  lemma MonthFirstFallback(m: nat, d: nat, y: nat)
    requires ValidDate(Date(y, m, d)) && d > 12
    ensures ParseDeadlineOf(PyValue.Str(SlashedText(m, d, y))) == Some(Stamp(Date(y, m, d), 0, 0, 0))
  {
    var s := SlashedText(m, d, y);
    DashedFormatsMiss(s);
    assert s[0..2] == Pad2(m) && s[3..5] == Pad2(d);
    assert IsDigit(s[0]) && IsDigit(s[1]) && IsDigit(s[4]);
    DayFirstFails(s, d);
    MonthFirstParses(m, d, y);
    ThirdFormatFirst(s);
    assert DeadlineFormats[2] == DmyFormat && DeadlineFormats[3] == MdyFormat;
    assert FirstFormat(s, DeadlineFormats, 2) == FirstFormat(s, DeadlineFormats, 3);
  }

  // ----- the keyword fallback -----

  /** The category table, in the order the loop visits it. */
  const CategoryKeywords: seq<(string, seq<string>)> := [
    ("job", ["job", "position", "role", "hiring", "employment"]),
    ("freelance", ["freelance", "contract", "gig", "project"]),
    ("business", ["business", "partnership", "investment", "startup"]),
    ("grant", ["grant", "funding", "scholarship", "award"])
  ]

  /** The first category from the k-th on with a keyword in the text, or "other". */
  function FirstCategory(contentLower: string, k: nat): string
    decreases |CategoryKeywords| - k
  {
    if k >= |CategoryKeywords| then "other"
    else if AnyIn(CategoryKeywords[k].1, contentLower) then CategoryKeywords[k].0
    else FirstCategory(contentLower, k + 1)
  }

  /** The loop with `break` of `_fallback_analysis`. */
  method DetectCategory(contentLower: string) returns (category: string)
    ensures category == FirstCategory(contentLower, 0)
  {
    category := "other";
    var i := 0;
    while i < |CategoryKeywords|
      invariant 0 <= i <= |CategoryKeywords|
      invariant FirstCategory(contentLower, i) == FirstCategory(contentLower, 0)
    {
      if AnyIn(CategoryKeywords[i].1, contentLower) {
        category := CategoryKeywords[i].0;
        break;
      }
      i := i + 1;
    }
  }

  /**
    First hit, not best score: the category is the j-th exactly when the
    j-th has a keyword and no earlier one does, and "other" exactly when
    none has.
  */
  lemma {:induction false} FirstCategoryHit(contentLower: string, k: nat)
    requires k <= |CategoryKeywords|
    ensures forall j :: k <= j < |CategoryKeywords| ==>
              (FirstCategory(contentLower, k) == CategoryKeywords[j].0
               <==> AnyIn(CategoryKeywords[j].1, contentLower)
                    && forall i :: k <= i < j ==> !AnyIn(CategoryKeywords[i].1, contentLower))
    ensures FirstCategory(contentLower, k) == "other"
            <==> forall j :: k <= j < |CategoryKeywords| ==> !AnyIn(CategoryKeywords[j].1, contentLower)
    decreases |CategoryKeywords| - k
  {
    if k < |CategoryKeywords| {
      FirstCategoryHit(contentLower, k + 1);
    }
  }

  /** The record `_fallback_analysis` returns (it has no summary field). */
  datatype Fallback = Fallback(
    title: string,
    category: string,
    deadline: Option<Stamp>,
    requirements: seq<string>,
    contactInfo: map<string, seq<string>>,
    priorityScore: real,
    location: Option<string>,
    compensation: Option<string>)

  /** What `_fallback_analysis` returns. */
  function FallbackOf(content: string): Fallback {
    Fallback(Ellipsis(content, 50), FirstCategory(Lower(content), 0), None, [],
             map["emails" := FindEmails(content, 0), "phones" := FindPhones(content, 0)], 5.0, None, None)
  }

  /** `_fallback_analysis`. */
  method FallbackAnalysis(content: string) returns (r: Fallback)
    ensures r == FallbackOf(content)
  {
    var category := DetectCategory(Lower(content));
    var emails := FindEmails(content, 0);
    var phones := FindPhones(content, 0);
    r := Fallback(Ellipsis(content, 50), category, None, [], map["emails" := emails, "phones" := phones], 5.0, None, None);
  }

  /**
    The fallback never finds a deadline, requirements, location or
    compensation, always scores 5, and its category is one of the table's
    or "other".
  */
  lemma FallbackFixedFields(content: string)
    ensures var r := FallbackOf(content);
            r.deadline.None? && r.requirements == [] && r.location.None? && r.compensation.None?
            && r.priorityScore == 5.0 && r.contactInfo.Keys == {"emails", "phones"}
            && r.category in {"job", "freelance", "business", "grant", "other"}
  {
    FirstCategoryHit(Lower(content), 0);
    var c := FirstCategory(Lower(content), 0);
    if c != "other" {
      var j :| 0 <= j < |CategoryKeywords| && c == CategoryKeywords[j].0 by {
        var i := FirstHitIndex(Lower(content), 0);
      }
    }
  }

  /** The index of the table row `FirstCategory` picks, when it picks one. */
  lemma {:induction false} FirstHitIndex(contentLower: string, k: nat) returns (j: nat)
    requires k <= |CategoryKeywords| && FirstCategory(contentLower, k) != "other"
    ensures k <= j < |CategoryKeywords| && FirstCategory(contentLower, k) == CategoryKeywords[j].0
    decreases |CategoryKeywords| - k
  {
    if AnyIn(CategoryKeywords[k].1, contentLower) {
      j := k;
    } else {
      j := FirstHitIndex(contentLower, k + 1);
    }
  }

  // ----- the model reply -----

  /** What `analyze_opportunity` returns: the model's own dictionary, or the fallback. */
  datatype Outcome = Model(analysis: map<string, PyValue.Value>) | Basic(fallback: Fallback)

  /**
    `analyze_opportunity`. `reply` is the model's text (None when the call
    raises) and `parse` stands for `json.loads` (None when it raises). A
    truthy deadline is replaced by its parsed `datetime`, or None.
  */
  function AnalyzeOf(content: string, reply: Option<string>, parse: string -> Option<PyValue.Value>): Outcome {
    if reply.None? then Basic(FallbackOf(content))
    else match parse(reply.value)
      case None => Basic(FallbackOf(content))
      case Some(v) =>
        if !v.Dict? then Basic(FallbackOf(content))
        else
          var d := PyValue.Get(v.fields, "deadline", PyValue.Null);
          if !PyValue.Truthy(d) then Model(v.fields)
          else Model(v.fields["deadline" := match ParseDeadlineOf(d) case Some(t) => PyValue.Time(t) case None => PyValue.Null])
  }

  /**
    The model's dictionary is returned with its keys and values as they
    were, except that a truthy deadline is replaced by what `_parse_deadline`
    makes of it: the first format's valid `datetime`, or None.
  */
  lemma ModelReplyKept(content: string, text: string, parse: string -> Option<PyValue.Value>,
                       fields: map<string, PyValue.Value>)
    requires parse(text) == Some(PyValue.Dict(fields))
    ensures var o := AnalyzeOf(content, Some(text), parse);
            o.Model? && o.analysis.Keys == fields.Keys
            && (forall k :: k in fields && k != "deadline" ==> o.analysis[k] == fields[k])
            && ("deadline" in fields && PyValue.Truthy(fields["deadline"]) ==>
                  o.analysis["deadline"] == (match ParseDeadlineOf(fields["deadline"])
                                               case Some(t) => PyValue.Time(t)
                                               case None => PyValue.Null)
                  && ((o.analysis["deadline"].Time? && ValidStamp(o.analysis["deadline"].t))
                      || o.analysis["deadline"].Null?))
            && ("deadline" in fields && !PyValue.Truthy(fields["deadline"]) ==> o.analysis["deadline"] == fields["deadline"])
  {
  }

  /** Without a reply, or with one that is not a JSON object, the result is the fallback. */
  lemma FailureFallsBack(content: string, reply: Option<string>, parse: string -> Option<PyValue.Value>)
    requires reply.None? || parse(reply.value).None? || !parse(reply.value).value.Dict?
    ensures AnalyzeOf(content, reply, parse) == Basic(FallbackOf(content))
  {
  }
}
