/**
  The WhatsApp webhook server (whatsapp_bot.py): the model reply cut out of
  its code fence, the keyword fallback record, and the title shown in the
  confirmation message.
*/
module WhatsappBot {
  import opened Base
  import opened Text
  import opened Fences
  import PyValue

  const JobWords: seq<string> := ["job", "position", "role"]

  /** The fallback record of `analyze_opportunity`. */
  function FallbackOf(content: string): PyValue.Record {
    var contentLower := Lower(content);
    PyValue.Record(
      PyValue.Str(Ellipsis(content, 50)),
      PyValue.Str(if AnyIn(JobWords, contentLower) then "job" else "other"),
      PyValue.Null, PyValue.List([]),
      PyValue.Dict(map["emails" := PyValue.List([]), "phones" := PyValue.List([])]),
      if Contains(contentLower, "urgent") then 6.0 else 5.0,
      PyValue.Null, PyValue.Null, PyValue.Str("Opportunity received via WhatsApp"))
  }

  /**
    The fallback title is the text up to 50 characters or its first 50 and
    an ellipsis; the category is "job" exactly for a job word and "other"
    otherwise; the priority is 6 exactly for "urgent" and 5 otherwise; and
    nothing else is extracted.
  */
  lemma FallbackShape(content: string)
    ensures var r := FallbackOf(content);
            var lower := Lower(content);
            r.title.Str? && |r.title.s| <= 53
            && (|content| <= 50 ==> r.title.s == content)
            && (|content| > 50 ==> r.title.s[..50] == content[..50] && r.title.s[50..] == "...")
            && (r.category == PyValue.Str("job") <==> AnyIn(JobWords, lower))
            && (r.category == PyValue.Str("other") <==> !AnyIn(JobWords, lower))
            && (r.priorityScore == 6.0 <==> Contains(lower, "urgent"))
            && (r.priorityScore == 5.0 <==> !Contains(lower, "urgent"))
            && r.deadline.Null? && r.requirements == PyValue.List([])
            && r.compensation.Null? && r.location.Null?
            && r.contactInfo.Dict? && r.contactInfo.fields.Keys == {"emails", "phones"}
  {
    EllipsisShape(content, 50);
  }

  /** What `analyze_opportunity` yields: the parsed reply as it is, or the fallback record. */
  datatype Outcome = Model(reply: PyValue.Value) | Basic(record: PyValue.Record)

  /**
    `analyze_opportunity`. `modelConfigured` is whether a model was set up;
    `reply` is its text (None when the call raises) and `parse` stands for
    `json.loads` (None when it raises). The parsed value is returned
    unchecked, whatever kind of JSON value it is.
  */
  function AnalyzeOf(content: string, modelConfigured: bool, reply: Option<string>,
                     parse: string -> Option<PyValue.Value>): Outcome
  {
    if !modelConfigured || reply.None? then Basic(FallbackOf(content))
    else match parse(CutFenced(Strip(reply.value)))
      case None => Basic(FallbackOf(content))
      case Some(v) => Model(v)
  }

  /** A reply "```json" body "```" is parsed from its body; without a model the fallback is used. */
  lemma AnalyzeCases(content: string, modelConfigured: bool, body: string, parse: string -> Option<PyValue.Value>)
    requires '`' !in body
    ensures !modelConfigured ==> AnalyzeOf(content, modelConfigured, Some(JsonFence + body + Fence), parse) == Basic(FallbackOf(content))
    ensures modelConfigured && parse(body).Some? ==>
              AnalyzeOf(content, modelConfigured, Some(JsonFence + body + Fence), parse) == Model(parse(body).value)
  {
    var text := JsonFence + body + Fence;
    assert text[0] == '`' && text[|text| - 1] == '`';
    StripTrimmed(text);
    CutJsonBlock(body);
  }

  /** `title[:60] + ('...' if len(title) > 60 else '')`: the title shown in the confirmation. */
  function DisplayTitle(title: string): string {
    title[..if |title| < 60 then |title| else 60] + (if |title| > 60 then "..." else "")
  }

  /** The shown title is the title when it fits in 60 characters, else its first 60 and an ellipsis. */
  lemma DisplayTitleShape(title: string)
    ensures DisplayTitle(title) == Ellipsis(title, 60)
  {
    if |title| <= 60 {
      assert title[..|title|] == title;
    }
  }

  /** A fallback title is always shown whole. */
  lemma FallbackTitleShownWhole(content: string)
    ensures DisplayTitle(FallbackOf(content).title.s) == FallbackOf(content).title.s
  {
    var t := FallbackOf(content).title.s;
    EllipsisShape(content, 50);
    DisplayTitleShape(t);
    EllipsisShape(t, 60);
  }
}
