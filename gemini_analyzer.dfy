/**
  The Gemini analyzer (gemini_analyzer.py): the cleaning of the model's
  reply (code fences dropped in a fixed order), the validation that turns
  any parsed reply into a record with a whitelisted category, a clamped
  priority and a deadline that is a real calendar date, and the dispatch
  between the model and the keyword analyzer.
*/
module GeminiAnalyzer {
  import opened Base
  import opened Text
  import opened Calendar
  import opened Strptime
  import opened PyValue
  import opened Fences
  import AiAnalyzer

  // ----- the reply text -----

  /** `s[len(p):] if s.startswith(p) else s`. */
  function DropPrefix(s: string, p: string): (r: string)
    ensures StartsWith(s, p) ==> s == p + r
    ensures !StartsWith(s, p) ==> r == s
  {
    if StartsWith(s, p) then s[|p|..] else s
  }

  /** `s[:-len(p)] if s.endswith(p) else s`. */
  function DropSuffix(s: string, p: string): (r: string)
    ensures EndsWith(s, p) ==> s == r + p
    ensures !EndsWith(s, p) ==> r == s
  {
    if EndsWith(s, p) then s[..|s| - |p|] else s
  }

  /** The text handed to `json.loads`. */
  function CleanReply(text: string): string {
    Strip(DropSuffix(DropPrefix(DropPrefix(Strip(text), JsonFence), Fence), Fence))
  }

  /** The cleaning as the source does it: `result_text` reassigned step by step. */
  method CleanReplyText(text: string) returns (resultText: string)
    ensures resultText == CleanReply(text)
  {
    resultText := Strip(text);
    if StartsWith(resultText, JsonFence) {
      resultText := resultText[7..];
    }
    if StartsWith(resultText, Fence) {
      resultText := resultText[3..];
    }
    if EndsWith(resultText, Fence) {
      resultText := resultText[..|resultText| - 3];
    }
    resultText := Strip(resultText);
  }

  /** Stripping twice is stripping once. */
  lemma StripTwice(s: string)
    ensures Strip(Strip(s)) == Strip(s)
  {
    StripTrimmed(Strip(s));
  }

  /** What follows an opening fence: body "```" is cleaned to the stripped body. */
  lemma CleanAfterFence(body: string)
    requires body == [] || body[0] != '`'
    ensures Strip(DropSuffix(DropPrefix(body + Fence, Fence), Fence)) == Strip(body)
  {
    var u := body + Fence;
    if body == [] {
      assert DropPrefix(u, Fence) == [];
    } else {
      assert u[0] == body[0];
      assert DropPrefix(u, Fence) == u;
      assert EndsWith(u, Fence) && u[..|u| - 3] == body;
    }
  }

  /** A reply fenced as "```json" body "```" is cleaned to the stripped body. */
  lemma CleanJsonBlock(body: string)
    requires body == [] || body[0] != '`'
    ensures CleanReply(JsonFence + body + Fence) == Strip(body)
  {
    var t := JsonFence + body + Fence;
    assert t[0] == '`' && t[|t| - 1] == '`';
    StripTrimmed(t);
    assert StartsWith(t, JsonFence) && t[7..] == body + Fence;
    CleanAfterFence(body);
  }

  /** A reply fenced as "```" body "```" (body not starting with "json") is cleaned to the stripped body. */
  lemma CleanPlainBlock(body: string)
    requires body == [] || body[0] != '`'
    requires !StartsWith(body, "json")
    ensures CleanReply(Fence + body + Fence) == Strip(body)
  {
    var t := Fence + body + Fence;
    assert t[0] == '`' && t[|t| - 1] == '`';
    StripTrimmed(t);
    assert !StartsWith(t, JsonFence) by {
      if |body| >= 4 {
        assert t[3..7] == body[..4];
      } else {
        assert |t| < 7 || t[6] == '`';
      }
    }
    assert DropPrefix(t, JsonFence) == t;
    assert t[..3] == Fence && t[3..] == body + Fence;
    CleanAfterFence(body);
  }

  /** A reply without a fence at either end is only stripped. */
  lemma CleanUnfenced(text: string)
    requires !StartsWith(Strip(text), Fence) && !EndsWith(Strip(text), Fence)
    ensures CleanReply(text) == Strip(text)
  {
    JsonFenceIsFence(Strip(text));
    StripTwice(text);
  }

  lemma JsonFenceIsFence(s: string)
    ensures StartsWith(s, JsonFence) ==> StartsWith(s, Fence)
  {
    if StartsWith(s, JsonFence) {
      assert s[..3] == JsonFence[..3];
    }
  }

  /** A "```json" opening with no closing fence keeps everything after the opening. */
  lemma CleanUnclosed(body: string)
    requires body != [] && body[0] != '`' && !IsSpace(body[|body| - 1]) && body[|body| - 1] != '`'
    ensures CleanReply(JsonFence + body) == Strip(body)
  {
    var t := JsonFence + body;
    assert t[0] == '`' && t[|t| - 1] == body[|body| - 1];
    StripTrimmed(t);
    assert StartsWith(t, JsonFence) && t[7..] == body;
    assert !StartsWith(body, Fence) by { assert body[0] != Fence[0]; }
    assert !EndsWith(body, Fence) by { assert body[|body| - 1] != Fence[2]; }
  }

  // ----- validation -----

  const ValidCategories: seq<string> := ["job", "freelance", "business", "grant", "competition", "internship", "other"]

  /** A category value the whitelist accepts (Python's `in` on a list compares with `==`). */
  predicate Whitelisted(v: Value) {
    v.Str? && v.s in ValidCategories
  }

  /**
    What `_validate_result` returns; None when it raises: `float()` of a
    priority that is not a number, or `strptime` of a truthy deadline that
    is not a string.
  */
  function ValidateOf(result: map<string, Value>): Option<Record> {
    var priority := FloatOf(Get(result, "priority_score", Num(5.0)));
    var deadline := Get(result, "deadline", Null);
    if priority.None? || (Truthy(deadline) && !deadline.Str?) then None
    else
      var category := Get(result, "category", Str("other"));
      Some(Record(
        Get(result, "title", Str("Untitled Opportunity")),
        if Whitelisted(category) then category else Str("other"),
        if Truthy(deadline) && Parse(deadline.s, YmdFormat).None? then Null else deadline,
        Get(result, "requirements", List([])),
        Get(result, "contact_info", Dict(map[])),
        ClampScore(priority.value),
        Get(result, "compensation", Null),
        Get(result, "location", Null),
        Get(result, "summary", Str(""))))
  }

  /** `_validate_result`: builds the record, then overwrites category, priority and deadline in turn. */
  method ValidateResult(result: map<string, Value>) returns (r: Option<Record>)
    ensures r == ValidateOf(result)
  {
    var priority := FloatOf(Get(result, "priority_score", Num(5.0)));
    if priority.None? {
      return None;
    }
    var validated := Record(
      Get(result, "title", Str("Untitled Opportunity")),
      Get(result, "category", Str("other")),
      Get(result, "deadline", Null),
      Get(result, "requirements", List([])),
      Get(result, "contact_info", Dict(map[])),
      priority.value,
      Get(result, "compensation", Null),
      Get(result, "location", Null),
      Get(result, "summary", Str("")));
    if !Whitelisted(validated.category) {
      validated := validated.(category := Str("other"));
    }
    var low := if 10.0 < validated.priorityScore then 10.0 else validated.priorityScore;
    validated := validated.(priorityScore := if 1.0 > low then 1.0 else low);
    if Truthy(validated.deadline) {
      if !validated.deadline.Str? {
        return None;
      }
      if Parse(validated.deadline.s, YmdFormat).None? {
        validated := validated.(deadline := Null);
      }
    }
    r := Some(validated);
  }

  /** The invariants of a validated record. */
  predicate ValidRecord(v: Record) {
    Whitelisted(v.category)
    && 1.0 <= v.priorityScore <= 10.0
    && (Truthy(v.deadline) ==> v.deadline.Str? && Parse(v.deadline.s, YmdFormat).Some?)
  }

  /**
    A validated record has a whitelisted category, a priority in [1, 10],
    and a deadline that is falsy or a real date.
  */
  lemma ValidatedShape(result: map<string, Value>)
    requires ValidateOf(result).Some?
    ensures ValidRecord(ValidateOf(result).value)
  {
  }

  /** Validation raises exactly for a priority `float()` rejects or a truthy deadline that is not a string. */
  lemma ValidateRaises(result: map<string, Value>)
    ensures ValidateOf(result).None?
            <==> FloatOf(Get(result, "priority_score", Num(5.0))).None?
                 || (Truthy(Get(result, "deadline", Null)) && !Get(result, "deadline", Null).Str?)
  {
  }

  /** A JSON number for the priority and a string or null deadline never make validation raise. */
  lemma NumericPriorityAccepted(result: map<string, Value>, x: real)
    requires "priority_score" in result && result["priority_score"] == Num(x)
    requires "deadline" !in result || result["deadline"].Null? || result["deadline"].Str?
    ensures ValidateOf(result).Some?
    ensures ValidateOf(result).value.priorityScore == ClampScore(x)
  {
  }

  /** The category is kept exactly when it is whitelisted; otherwise it becomes "other". */
  lemma CategoryKept(result: map<string, Value>)
    requires ValidateOf(result).Some?
    ensures var c := Get(result, "category", Str("other"));
            var v := ValidateOf(result).value;
            (v.category == c <==> Whitelisted(c)) && (!Whitelisted(c) ==> v.category == Str("other"))
  {
  }

  /** A priority inside [1, 10] is kept; one outside is moved to the nearer bound. */
  lemma PriorityClamped(result: map<string, Value>)
    requires ValidateOf(result).Some?
    ensures var x := FloatOf(Get(result, "priority_score", Num(5.0))).value;
            var p := ValidateOf(result).value.priorityScore;
            (1.0 <= x <= 10.0 ==> p == x) && (x < 1.0 ==> p == 1.0) && (x > 10.0 ==> p == 10.0)
  {
  }

  /** A truthy string deadline is kept exactly when it is a real `%Y-%m-%d` date. */
  lemma DeadlineChecked(result: map<string, Value>)
    requires ValidateOf(result).Some?
    ensures var d := Get(result, "deadline", Null);
            var v := ValidateOf(result).value;
            (!Truthy(d) ==> v.deadline == d)
            && (Truthy(d) ==> (v.deadline == d <==> Parse(d.s, YmdFormat).Some?))
            && (v.deadline != d ==> v.deadline == Null)
  {
  }

  /** Missing fields take their defaults. */
  lemma ValidateDefaults(result: map<string, Value>)
    requires ValidateOf(result).Some?
    ensures var v := ValidateOf(result).value;
            ("title" !in result ==> v.title == Str("Untitled Opportunity"))
            && ("category" !in result ==> v.category == Str("other"))
            && ("deadline" !in result ==> v.deadline == Null)
            && ("requirements" !in result ==> v.requirements == List([]))
            && ("contact_info" !in result ==> v.contactInfo == Dict(map[]))
            && ("priority_score" !in result ==> v.priorityScore == 5.0)
            && ("compensation" !in result ==> v.compensation == Null)
            && ("location" !in result ==> v.location == Null)
            && ("summary" !in result ==> v.summary == Str(""))
  {
  }

  /** The fields validation does not check pass through unchanged. */
  lemma ValidatePassesThrough(result: map<string, Value>)
    requires ValidateOf(result).Some?
    ensures var v := ValidateOf(result).value;
            ("title" in result ==> v.title == result["title"])
            && ("requirements" in result ==> v.requirements == result["requirements"])
            && ("contact_info" in result ==> v.contactInfo == result["contact_info"])
            && ("compensation" in result ==> v.compensation == result["compensation"])
            && ("location" in result ==> v.location == result["location"])
            && ("summary" in result ==> v.summary == result["summary"])
  {
  }

  /** Validating a validated record, as a dictionary, gives the same record back. */
  lemma ValidateIdempotent(result: map<string, Value>)
    requires ValidateOf(result).Some?
    ensures ValidateOf(AsDict(ValidateOf(result).value)) == ValidateOf(result)
  {
    var v := ValidateOf(result).value;
    ValidRecordStable(v);
  }

  /** A record that keeps the invariants is a fixed point of validation. */
  lemma ValidRecordStable(v: Record)
    requires ValidRecord(v)
    ensures ValidateOf(AsDict(v)) == Some(v)
  {
    var d := AsDict(v);
    assert d["priority_score"] == Num(v.priorityScore);
    assert d["deadline"] == v.deadline;
    assert d["category"] == v.category;
  }

  // ----- dispatch -----

  /**
    What `analyze_opportunity` yields. `Unhandled` is an exception reaching
    `self.fallback`, an attribute the analyzer only has when it runs
    without the model; that path is not modelled further.
  */
  datatype Outcome =
    | Basic(analysis: AiAnalyzer.Analysis)
    | Validated(record: Record)
    | Unhandled

  /**
    `analyze_opportunity`. `useAi` is whether a usable key was configured;
    `reply` is the model's text (None when the call raises) and `parse`
    stands for `json.loads` (None when it raises).
  */
  function AnalyzeOf(content: string, now: Instant, useAi: bool, reply: Option<string>,
                     parse: string -> Option<Value>): Outcome
    requires ValidInstant(now) && now.date.year < 9999
  {
    if !useAi then Basic(AiAnalyzer.AnalysisOf(content, now))
    else if reply.None? then Unhandled
    else
      match parse(CleanReply(reply.value))
      case None => Unhandled
      case Some(v) =>
        if !v.Dict? then Unhandled
        else match ValidateOf(v.fields)
          case None => Unhandled
          case Some(record) => Validated(record)
  }

  /**
    Without a key the result is the keyword analyzer's; with one, any
    record returned has passed validation.
  */
  lemma DispatchCases(content: string, now: Instant, useAi: bool, reply: Option<string>,
                      parse: string -> Option<Value>)
    requires ValidInstant(now) && now.date.year < 9999
    ensures var o := AnalyzeOf(content, now, useAi, reply, parse);
            (!useAi ==> o == Basic(AiAnalyzer.AnalysisOf(content, now)) && AiAnalyzer.ValidAnalysis(o.analysis))
            && (useAi ==> !o.Basic?)
            && (o.Validated? ==> ValidRecord(o.record))
  {
    if !useAi {
      AiAnalyzer.AnalysisInvariants(content, now);
    } else {
      var o := AnalyzeOf(content, now, useAi, reply, parse);
      if o.Validated? {
        var v := parse(CleanReply(reply.value)).value;
        ValidatedShape(v.fields);
      }
    }
  }
}
