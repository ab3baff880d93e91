/**
  The standalone Gemini server (working_gemini.py): the keyword fallback
  `analyze_basic`, and the model path of `analyze_with_gemini`, which
  slices fences off the reply, bounds the fields of the parsed record, and
  falls back to `analyze_basic` on any failure.
*/
module WorkingGemini {
  import opened Base
  import opened Text
  import opened Patterns
  import PyValue

  // ----- the keyword fallback -----

  const JobWords: seq<string> := ["job", "position", "role", "hiring"]
  const FreelanceWords: seq<string> := ["freelance", "contract", "gig"]
  const UrgentWords: seq<string> := ["urgent", "asap", "immediate"]
  const SeniorWords: seq<string> := ["senior", "lead", "manager"]

  /** `content.split('\n')[0][:100] if content else "Untitled Opportunity"`. */
  function BasicTitle(content: string): string {
    if content != [] then FirstLineCut(content, 100) else "Untitled Opportunity"
  }

  /** The category: "job" words win over "freelance" words; otherwise "other". */
  function BasicCategory(contentLower: string): string {
    if AnyIn(JobWords, contentLower) then "job"
    else if AnyIn(FreelanceWords, contentLower) then "freelance"
    else "other"
  }

  /** Each category exactly when its words (and no earlier category's words) occur. */
  lemma BasicCategoryPrecedence(contentLower: string)
    ensures BasicCategory(contentLower) == "job" <==> AnyIn(JobWords, contentLower)
    ensures BasicCategory(contentLower) == "freelance" <==> !AnyIn(JobWords, contentLower) && AnyIn(FreelanceWords, contentLower)
    ensures BasicCategory(contentLower) == "other" <==> !AnyIn(JobWords, contentLower) && !AnyIn(FreelanceWords, contentLower)
  {
  }

  /** The priority `analyze_basic` computes. */
  function BasicPriorityOf(contentLower: string): real {
    var score := 5.0 + (if AnyIn(UrgentWords, contentLower) then 2.0 else 0.0)
                 + (if AnyIn(SeniorWords, contentLower) then 1.0 else 0.0);
    if score < 10.0 then score else 10.0
  }

  /** `priority` raised once for urgency and once for seniority, then capped at 10. */
  method BasicPriority(contentLower: string) returns (priority: real)
    ensures priority == BasicPriorityOf(contentLower)
  {
    priority := 5.0;
    if AnyIn(UrgentWords, contentLower) {
      priority := priority + 2.0;
    }
    if AnyIn(SeniorWords, contentLower) {
      priority := priority + 1.0;
    }
    priority := if priority < 10.0 then priority else 10.0;
  }

  /**
    The priority is one of 5, 6, 7 and 8: at least 7 exactly for urgency,
    and odd above 5 exactly for seniority; the cap never acts.
  */
  lemma BasicPriorityValues(contentLower: string)
    ensures var p := BasicPriorityOf(contentLower);
            p in {5.0, 6.0, 7.0, 8.0}
            && (p >= 7.0 <==> AnyIn(UrgentWords, contentLower))
            && (p == 6.0 || p == 8.0 <==> AnyIn(SeniorWords, contentLower))
  {
  }

  /** The summary line. */
  function BasicSummary(category: string): string {
    "Basic analysis of " + category + " opportunity"
  }

  /** What `analyze_basic` returns. */
  function BasicOf(content: string): PyValue.Record {
    var contentLower := Lower(content);
    var category := BasicCategory(contentLower);
    PyValue.Record(
      PyValue.Str(BasicTitle(content)), PyValue.Str(category), PyValue.Null, PyValue.List([]),
      PyValue.Dict(map["emails" := PyValue.Strings(FindEmails(content, 0)), "phones" := PyValue.Strings(FindPhones(content, 0))]),
      BasicPriorityOf(contentLower), PyValue.Null, PyValue.Null, PyValue.Str(BasicSummary(category)))
  }

  /** `analyze_basic`. */
  method AnalyzeBasic(content: string) returns (r: PyValue.Record)
    ensures r == BasicOf(content)
  {
    var title := BasicTitle(content);
    var contentLower := Lower(content);
    var category := BasicCategory(contentLower);
    var emails := FindEmails(content, 0);
    var phones := FindPhones(content, 0);
    var priority := BasicPriority(contentLower);
    r := PyValue.Record(
      PyValue.Str(title), PyValue.Str(category), PyValue.Null, PyValue.List([]),
      PyValue.Dict(map["emails" := PyValue.Strings(emails), "phones" := PyValue.Strings(phones)]),
      priority, PyValue.Null, PyValue.Null, PyValue.Str(BasicSummary(category)));
  }

  /**
    The fallback never finds a deadline, requirements, compensation or
    location; its contacts have only the email and phone lists, and every
    email holds an `@`.
  */
  lemma BasicFixedFields(content: string)
    ensures var r := BasicOf(content);
            r.deadline == PyValue.Null && r.requirements == PyValue.List([])
            && r.compensation == PyValue.Null && r.location == PyValue.Null
            && r.contactInfo.Dict? && r.contactInfo.fields.Keys == {"emails", "phones"}
            && r.contactInfo.fields["emails"].List?
            && forall i :: 0 <= i < |r.contactInfo.fields["emails"].items| ==>
                 r.contactInfo.fields["emails"].items[i].Str? && '@' in r.contactInfo.fields["emails"].items[i].s
  {
    var emails := FindEmails(content, 0);
    var r := BasicOf(content);
    assert r.contactInfo.fields["emails"] == PyValue.Strings(emails);
  }

  // ----- the model reply -----

  /** Python's `s[a:-3]`: from a up to three before the end, empty when that range is empty. */
  function SliceButLast3(s: string, a: nat): (r: string)
    ensures |r| <= |s|
  {
    var end := if |s| >= 3 then |s| - 3 else 0;
    if a < end then s[a..end] else ""
  }

  /** The text handed to `json.loads`: the stripped reply with a leading fence and the last three characters cut off. */
  function ReplyText(text: string): string {
    var t := Strip(text);
    if StartsWith(t, "```json") then SliceButLast3(t, 7)
    else if StartsWith(t, "```") then SliceButLast3(t, 3)
    else t
  }

  /** A reply fenced as "```json" body "```" yields exactly the body. */
  lemma ReplyOfJsonBlock(body: string)
    ensures ReplyText("```json" + body + "```") == body
  {
    var t := "```json" + body + "```";
    assert t[0] == '`' && t[|t| - 1] == '`';
    StripTrimmed(t);
    assert t[..7] == "```json";
    assert t[7..|t| - 3] == body;
  }

  /** A reply fenced as "```" body "```" yields the body, less a leading "json". */
  lemma ReplyOfPlainBlock(body: string)
    ensures ReplyText("```" + body + "```") == if StartsWith(body, "json") then body[4..] else body
  {
    var t := "```" + body + "```";
    assert t[0] == '`' && t[|t| - 1] == '`';
    StripTrimmed(t);
    assert t[..3] == "```";
    if StartsWith(body, "json") {
      assert t[..7] == "```" + body[..4];
      assert t[7..|t| - 3] == body[4..];
    } else {
      assert !StartsWith(t, "```json") by {
        if |body| >= 4 {
          assert t[3..7] == body[..4];
        } else {
          assert |t| < 7 || t[6] == '`';
        }
      }
      assert t[3..|t| - 3] == body;
    }
  }

  /** A reply opened with "```json" but never closed loses its last three characters. */
  lemma ReplyOfUnclosedBlock(body: string)
    requires |body| >= 3 && !IsSpace(body[|body| - 1])
    ensures ReplyText("```json" + body) == body[..|body| - 3]
  {
    var t := "```json" + body;
    assert t[0] == '`' && t[|t| - 1] == body[|body| - 1];
    StripTrimmed(t);
    assert t[..7] == "```json";
    assert t[7..|t| - 3] == body[..|body| - 3];
  }

  /** A reply that does not open with a fence is only stripped. */
  lemma ReplyUnfenced(text: string)
    requires !StartsWith(Strip(text), "```")
    ensures ReplyText(text) == Strip(text)
  {
    var t := Strip(text);
    assert !StartsWith(t, "```json") by {
      if |t| >= 7 {
        assert t[..3] == t[..7][..3];
      }
    }
  }

  /**
    The record `analyze_with_gemini` builds from a parsed reply; None when
    building it raises (a field that cannot be sliced, a priority `float()`
    rejects). The category is not checked here.
  */
  function BoundRecordOf(result: map<string, PyValue.Value>): Option<PyValue.Record> {
    var title := PyValue.SliceValue(PyValue.Get(result, "title", PyValue.Str("Untitled Opportunity")), 100);
    var requirements := PyValue.SliceValue(PyValue.Get(result, "requirements", PyValue.List([])), 5);
    var priority := PyValue.FloatOf(PyValue.Get(result, "priority_score", PyValue.Num(5.0)));
    var summary := PyValue.SliceValue(PyValue.Get(result, "summary", PyValue.Str("")), 200);
    if title.None? || requirements.None? || priority.None? || summary.None? then None
    else Some(PyValue.Record(
      title.value, PyValue.Get(result, "category", PyValue.Str("other")), PyValue.Get(result, "deadline", PyValue.Null),
      requirements.value, PyValue.Get(result, "contact_info", PyValue.Dict(map[])), PyValue.ClampScore(priority.value),
      PyValue.Get(result, "compensation", PyValue.Null), PyValue.Get(result, "location", PyValue.Null), summary.value))
  }

  /** The length of a string or list value. */
  function Len(v: PyValue.Value): nat
    requires v.Str? || v.List?
  {
    if v.Str? then |v.s| else |v.items|
  }

  /** The bounds every record from the model path keeps. */
  predicate Bounded(r: PyValue.Record) {
    (r.title.Str? || r.title.List?) && Len(r.title) <= 100
    && (r.requirements.Str? || r.requirements.List?) && Len(r.requirements) <= 5
    && (r.summary.Str? || r.summary.List?) && Len(r.summary) <= 200
    && 1.0 <= r.priorityScore <= 10.0
  }

  /**
    A record built from a reply keeps the bounds, is a prefix-cut of the
    reply's own fields, and carries the category through unchecked.
  */
  lemma BoundRecordShape(result: map<string, PyValue.Value>)
    requires BoundRecordOf(result).Some?
    ensures var r := BoundRecordOf(result).value;
            Bounded(r)
            && r.category == PyValue.Get(result, "category", PyValue.Str("other"))
            && ("title" in result && result["title"].Str? ==> r.title.s == result["title"].s[..|r.title.s|])
            && ("summary" in result && result["summary"].Str? ==> r.summary.s == result["summary"].s[..|r.summary.s|])
            && ("requirements" in result && result["requirements"].List? ==>
                  r.requirements.items == result["requirements"].items[..|r.requirements.items|])
  {
  }

  /** Building raises exactly when a sliced field is neither a string nor a list, or the priority is not a number. */
  lemma BoundRecordRaises(result: map<string, PyValue.Value>)
    ensures BoundRecordOf(result).None? <==>
            var t := PyValue.Get(result, "title", PyValue.Str("Untitled Opportunity"));
            var q := PyValue.Get(result, "requirements", PyValue.List([]));
            var s := PyValue.Get(result, "summary", PyValue.Str(""));
            !(t.Str? || t.List?) || !(q.Str? || q.List?) || !(s.Str? || s.List?)
            || PyValue.FloatOf(PyValue.Get(result, "priority_score", PyValue.Num(5.0))).None?
  {
  }

  /** Rebuilding a record from its own dictionary changes nothing. */
  lemma BoundRecordIdempotent(result: map<string, PyValue.Value>)
    requires BoundRecordOf(result).Some?
    ensures BoundRecordOf(PyValue.AsDict(BoundRecordOf(result).value)) == BoundRecordOf(result)
  {
    var r := BoundRecordOf(result).value;
    BoundRecordShape(result);
    var d := PyValue.AsDict(r);
    assert PyValue.SliceValue(d["title"], 100) == Some(r.title);
    assert PyValue.SliceValue(d["requirements"], 5) == Some(r.requirements);
    assert PyValue.SliceValue(d["summary"], 200) == Some(r.summary);
  }

  /**
    `analyze_with_gemini`. `modelConfigured` is whether a model was set up;
    `reply` is its text (None when the call raises) and `parse` stands for
    `json.loads` (None when it raises). Every failure falls back to
    `analyze_basic`.
  */
  function AnalyzeWithGeminiOf(content: string, modelConfigured: bool, reply: Option<string>,
                               parse: string -> Option<PyValue.Value>): PyValue.Record
  {
    if !modelConfigured || reply.None? then BasicOf(content)
    else
      match parse(ReplyText(reply.value))
      case None => BasicOf(content)
      case Some(v) =>
        if !v.Dict? then BasicOf(content)
        else match BoundRecordOf(v.fields)
          case None => BasicOf(content)
          case Some(r) => r
  }

  /** The result is the fallback, or a bounded record built from the reply; without a model it is the fallback. */
  lemma AnalyzeWithGeminiCases(content: string, modelConfigured: bool, reply: Option<string>,
                               parse: string -> Option<PyValue.Value>)
    ensures var r := AnalyzeWithGeminiOf(content, modelConfigured, reply, parse);
            (!modelConfigured ==> r == BasicOf(content))
            && (r == BasicOf(content) || Bounded(r))
  {
    if modelConfigured && reply.Some? {
      var p := parse(ReplyText(reply.value));
      if p.Some? && p.value.Dict? && BoundRecordOf(p.value.fields).Some? {
        BoundRecordShape(p.value.fields);
      }
    }
  }
}
