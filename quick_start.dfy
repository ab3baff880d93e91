/**
  The quick-start server's `create_opportunity` (quick_start.py): a title,
  category and priority from keyword tests on the lowercased text, and the
  record returned to the client. The database insert is not modelled; the
  row id it yields is a parameter.
*/
module QuickStart {
  import opened Base
  import opened Text

  const UrgentWords: seq<string> := ["urgent", "asap", "immediate"]
  const SeniorWords: seq<string> := ["senior", "lead", "manager"]
  const TechWords: seq<string> := ["python", "developer", "engineer"]
  const FreelanceWords: seq<string> := ["freelance", "contract"]

  /** `content.split('\n')[0][:100] if content else "New Opportunity"`. */
  function QuickTitle(content: string): string {
    if content != [] then FirstLineCut(content, 100) else "New Opportunity"
  }

  /** 9 for urgency, else 7 for seniority, else 5. */
  function QuickPriority(contentLower: string): int {
    if AnyIn(UrgentWords, contentLower) then 9
    else if AnyIn(SeniorWords, contentLower) then 7
    else 5
  }

  /** "tech" for a technical word, else "freelance" for a contract word, else "general". */
  function QuickCategory(contentLower: string): string {
    if AnyIn(TechWords, contentLower) then "tech"
    else if AnyIn(FreelanceWords, contentLower) then "freelance"
    else "general"
  }

  /** The dictionary `create_opportunity` returns. */
  datatype Created = Created(
    id: int,
    title: string,
    content: string,
    category: string,
    priorityScore: int,
    status: string,
    message: string)

  /** What `create_opportunity` returns for a text stored under row `id`. */
  function CreateOpportunityOf(content: string, id: int): Created {
    var contentLower := Lower(content);
    Created(id, QuickTitle(content), content, QuickCategory(contentLower), QuickPriority(contentLower),
            "new", "Opportunity analyzed and saved!")
  }

  /**
    The title is "New Opportunity" for an empty text and otherwise the
    first line cut to 100 characters; the text and id come back as given,
    and the status is always "new".
  */
  lemma CreatedShape(content: string, id: int)
    ensures var r := CreateOpportunityOf(content, id);
            r.id == id && r.content == content && r.status == "new"
            && (content == [] ==> r.title == "New Opportunity")
    ensures var t := CreateOpportunityOf(content, id).title;
            content != [] ==>
              |t| <= 100 && t == content[..|t|] && '\n' !in t
              && (|t| < 100 ==> |t| == |content| || content[|t|] == '\n')
  {
    if content != [] {
      FirstLineCutShape(content, 100);
    }
  }

  /** Urgency takes precedence over seniority; the priority is 9, 7 or 5. */
  lemma PriorityPrecedence(content: string)
    ensures var p := CreateOpportunityOf(content, 0).priorityScore;
            var lower := Lower(content);
            (p == 9 <==> AnyIn(UrgentWords, lower))
            && (p == 7 <==> !AnyIn(UrgentWords, lower) && AnyIn(SeniorWords, lower))
            && (p == 5 <==> !AnyIn(UrgentWords, lower) && !AnyIn(SeniorWords, lower))
  {
  }

  /** Technical words take precedence over contract words; the category is tech, freelance or general. */
  lemma CategoryPrecedence(content: string)
    ensures var c := CreateOpportunityOf(content, 0).category;
            var lower := Lower(content);
            (c == "tech" <==> AnyIn(TechWords, lower))
            && (c == "freelance" <==> !AnyIn(TechWords, lower) && AnyIn(FreelanceWords, lower))
            && (c == "general" <==> !AnyIn(TechWords, lower) && !AnyIn(FreelanceWords, lower))
  {
  }

  /** The keyword tests ignore case: texts that lowercase alike get the same category and priority. */
  lemma CaseBlind(a: string, b: string, id: int)
    requires Lower(a) == Lower(b)
    ensures CreateOpportunityOf(a, id).category == CreateOpportunityOf(b, id).category
    ensures CreateOpportunityOf(a, id).priorityScore == CreateOpportunityOf(b, id).priorityScore
  {
  }
}
