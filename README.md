# OpportunityBot text analysis, modelled in Dafny

OpportunityBot turns a free-text opportunity announcement (a job post, a gig,
a grant call) into a structured record: title, category, deadline,
requirements, contact details, priority score, compensation, location and,
in some front ends, a summary. Each of the repository's front ends carries
its own copy of this analysis. Some use keywords and regular expressions.
Others ask a language model for JSON and clean, validate and bound what
comes back, falling back to keywords when the model is missing or fails.

This project models every one of those analyses:

- `AiAnalyzer` models `FreeOpportunityAnalyzer` (ai_analyzer.py). It picks
  the category with the most keyword hits, parses dates from lead-in
  captures, extracts requirements and contacts, finds salaries and
  locations, and scores priority from keywords and deadline proximity.
- `FinalBot` models final_bot.py:
  - the enhanced basic analysis: sentence title, keyword-precedence
    category, smart deadline parsing, requirement splitting, compensation,
    location and a capped priority score;
  - the model-reply merge `{**basic, **enhanced}`;
  - the `'|'` join and split used to store requirements in the database.
- `GeminiAnalyzer` models gemini_analyzer.py: reply fence stripping,
  `_validate_result`, and the dispatch between model and keyword analyzer.
- `WorkingGemini` models working_gemini.py: the keyword fallback
  `analyze_basic`, the slice-based fence stripping, and the bounded record
  built from a reply.
- `AiEngine` models ai_engine/analyzer.py: `_parse_deadline`'s four
  strptime formats tried in order, and the first-hit keyword fallback.
- `WhatsappBot` models whatsapp_bot.py: the fenced-reply cut, the fallback
  record, and the 60-character title in the confirmation message.
- `QuickStart` models quick_start.py: `create_opportunity`'s title,
  category and priority rules.

Shared modules give the Python and `re` semantics these files rely on:

- `Base` and `Text`: `str.lower`, `strip`, `in`, slicing, `split` and `join`.
- `Patterns`: the regular expressions, each as a leftmost-first matcher
  with the source's greedy and back-off behaviour.
- `Requirements`: the requirement-splitting loops.
- `Calendar`: dates, ordinals, `timedelta` and `strftime`.
- `Strptime`: the `datetime.strptime` formats used.
- `PyValue`: the JSON values a model reply parses to, `dict.get`,
  `float()` and slicing.
- `Fences`: the `split('```json')` / `split('```')` reply cut.

Where the source loops (category scoring, priority accumulation, the nested
requirement loops, format trial, keyword scans), the model is a method with
loop invariants. Where it updates a result step by step without a loop
(fence stripping, record validation, the fallback priority), the model is a
method that does the same. Each such method is proved equal to a
specification function. The properties are proved about
those functions.

The clock (`datetime.now()`) is the parameter `now`. A language model's
reply is the parameter `reply`: `None` stands for a call that raised.
`json.loads` is the parameter `parse`: `None` stands for a reply that does
not parse. Every outcome of those calls is therefore covered.

## Model

| member | source | states |
|---|---|---|
| AiAnalyzer.ExtractTitle | ai_analyzer.py:72-82 | The title is the stripped first line of the stripped text when that line is non-empty and under 100 characters; otherwise the first 50 characters stripped plus "..." for a text over 50 characters, else the stripped text. It is under 100 characters, empty exactly for a text of at most 50 whitespace characters, and never starts with whitespace |
| AiAnalyzer.TitleOfFirstLine | ai_analyzer.py:74-79 | A trimmed line under 100 characters followed by a newline is its text's title, whatever follows |
| AiAnalyzer.ScoreZero | ai_analyzer.py:89 | A category's keyword score is zero exactly when none of its keywords occurs in the text |
| AiAnalyzer.CategoryIsBest | ai_analyzer.py:84-96 | The category is the one with the most keyword hits, ties going to the earlier category; it is "other" exactly when no keyword of any category occurs |
| AiAnalyzer.CategoryNamed | ai_analyzer.py:12-18 | The detected category is "other" or a name from the category table |
| AiAnalyzer.ScoreCategories | ai_analyzer.py:86-91 | The scoring loop builds the positive scores in table order, as the score table function defines them |
| AiAnalyzer.BestEntry | ai_analyzer.py:94 | The `max(..., key=get)` scan returns the first entry with the largest score |
| AiAnalyzer.DetectCategory | ai_analyzer.py:84-96 | `_detect_category` returns the best-scoring category or "other" |
| AiAnalyzer.FormDate | ai_analyzer.py:122-131 | One numeric form yields a date exactly when its leftmost match names a real calendar date, and then that date, read year first for a four-digit first group and month first otherwise |
| AiAnalyzer.NumericFirst | ai_analyzer.py:122-131 | A numeric date comes from the first form, in pattern order, that yields one; every earlier form yields nothing |
| AiAnalyzer.NumericNone | ai_analyzer.py:122-131 | There is no numeric date exactly when no form yields one |
| AiAnalyzer.ParseDate | ai_analyzer.py:111-141 | On the lowered, stripped text: a numeric date wins; otherwise "tomorrow" gives now + 1 day, else "next week" now + 7, else "next month" now + 30; None exactly when none of these applies. Any date returned is a real calendar date |
| AiAnalyzer.LeadDate | ai_analyzer.py:100-107 | One lead-in yields a deadline exactly when it matches and its stripped capture parses, and then the `%Y-%m-%d` text of that date |
| AiAnalyzer.DeadlineFirst | ai_analyzer.py:98-109 | A deadline found comes from the first lead-in, in pattern order, whose capture parses; every earlier lead-in yields nothing |
| AiAnalyzer.DeadlineNone | ai_analyzer.py:98-109 | There is no deadline exactly when no lead-in's capture parses |
| AiAnalyzer.DeadlineParses | ai_analyzer.py:98-109 | A deadline found is a `%Y-%m-%d` string of a real date, which the priority code's strptime accepts |
| AiAnalyzer.SlashedMonthFirst | ai_analyzer.py:117-129 | "M/D/YYYY" with one- or two-digit month and day is read month first: a real date parses to itself, and an impossible one (month 13) gives None |
| AiAnalyzer.RequirementsBounds | ai_analyzer.py:143-166 | At most five requirements, each longer than 3 characters, stripped, with no separator, full stop or newline |
| AiAnalyzer.ExtractRequirements | ai_analyzer.py:156-166 | The nested findall, split and filter loops yield exactly the requirement list of the specification |
| AiAnalyzer.ContactDict | ai_analyzer.py:168-190 | The contact dict has a key exactly for each non-empty list found, each with that list |
| AiAnalyzer.ExtractContactInfo | ai_analyzer.py:168-190 | `_extract_contact_info` adds each key only when its findall list is non-empty |
| AiAnalyzer.CompensationShape | ai_analyzer.py:192-198 | A compensation found is the verbatim text of the leftmost match of the first pattern, in the order `$` amount, salary, budget, pay, that matches anywhere; every earlier pattern matches nowhere; it starts with `$` or its label; None exactly when no pattern matches anywhere |
| AiAnalyzer.ExtractLocation | ai_analyzer.py:200-220 | The patterns decide in order: the stripped capture after "location", else after "based in", else "Remote" for "remote" or "work from home", else "On-site" for "onsite"; a capture holds no full stop or newline; None exactly when no pattern matches |
| AiAnalyzer.DeadlineBonus | ai_analyzer.py:238-250 | A deadline that strptime accepts earns 2 within 3 days (past dates included), 1 within 7, 0.5 within 14 and 0 beyond; a missing or unparsable deadline earns 0 |
| AiAnalyzer.FormattedDeadlineBonus | ai_analyzer.py:238-250 | A deadline this analyzer wrote earns the tier of its own date's distance from now |
| AiAnalyzer.PriorityBounds | ai_analyzer.py:222-252 | The priority lies in [5, 10], so the lower clamp never acts, and moves in half points |
| AiAnalyzer.PriorityBase | ai_analyzer.py:224-236 | With no urgent or value keyword and no deadline, the priority is the base 5 |
| AiAnalyzer.CalculatePriority | ai_analyzer.py:222-252 | The keyword loops and deadline adjustment compute the specified priority |
| AiAnalyzer.AnalysisInvariants | ai_analyzer.py:35-70 | Every analysis has a title under 100 characters, a known category, a strptime-parsable deadline, at most 5 requirements, a priority in [1, 10] and only known contact keys |
| AiAnalyzer.AnalyzeOpportunity | ai_analyzer.py:35-70 | `analyze_opportunity` assembles the record from the extractors |
| FinalBot.ExtractTitle | final_bot.py:87-91 | The title is the stripped first sentence of the stripped text, cut to its first 80 characters plus "..." when longer; its first 80 characters hold no full stop |
| FinalBot.TitleOfSentence | final_bot.py:88-91 | A trimmed sentence of at most 80 characters, followed by a full stop, is its own title |
| FinalBot.CategoryOf | final_bot.py:93-102 | Job words beat freelance words, which beat business words; "other" exactly when none occurs |
| FinalBot.CategoryMonotone | final_bot.py:95-102 | Appending text never moves the category down the precedence order |
| FinalBot.MonthNameFirst | final_bot.py:167-173 | When a day and a 20xx year are found, the month branch takes the first month in table order that the text names |
| FinalBot.MonthNameNone | final_bot.py:167-173 | The month branch yields nothing exactly when no month is named, or no day or no year is found |
| FinalBot.ParseDateSmart | final_bot.py:157-181 | `parse_date_smart` yields only zero-padded `YYYY-MM-DD` shapes; when the month branch yields nothing, the slashed form decides |
| FinalBot.ParseDateSmartNone | final_bot.py:157-181 | No date comes out exactly when the month branch fails (no month, day or year) and no M/D/YYYY group is found either |
| FinalBot.MonthDayYear | final_bot.py:167-173 | "<month> <d>, <20yy>" reads as that year, the month's table number and the day d, zero-padded |
| FinalBot.NoDigitsNoDate | final_bot.py:167-181 | A text without digits parses to no date |
| FinalBot.IsoNotParsed | final_bot.py:175-181 | An ISO `YYYY-MM-DD` text is never parsed |
| FinalBot.SlashedNoValidation | final_bot.py:175-179 | "M/D/YYYY" with one- or two-digit month and day is rewritten month first without checking the calendar, so 13/45/2025 becomes "2025-13-45" |
| FinalBot.DeadlineFirst | final_bot.py:148-155 | A deadline found comes from the first pattern whose text parses |
| FinalBot.DeadlineIsFirstSome | final_bot.py:148-155 | The pattern loop returns the first pattern contribution that is present, in pattern order |
| FinalBot.DeadlineNone | final_bot.py:148-155 | No deadline is found exactly when no pattern contributes one |
| FinalBot.MonthPatternNeverYields | final_bot.py:143-151 | The month-name pattern hands the parser only its month group, which never parses |
| FinalBot.IsoPatternNeverYields | final_bot.py:145-151 | The bare ISO pattern never yields a deadline |
| FinalBot.BarePatternsNeverYield | final_bot.py:138-155 | The bare month-name and ISO patterns add nothing: from the month-name pattern on, the search gives what the M/D/YYYY pattern alone gives, and the ISO pattern gives nothing |
| FinalBot.RequirementsBounds | final_bot.py:183-207 | At most five requirements, each 4 to 49 characters, stripped, with no separator, full stop or exclamation mark |
| FinalBot.ExtractRequirements | final_bot.py:197-207 | The nested loops yield exactly the specified requirement list |
| FinalBot.LoadStore | final_bot.py:331-365 | Non-empty requirements without `|` read back from storage as they were stored |
| FinalBot.StoreLoad | final_bot.py:331-365 | Any stored requirements text reads back to a list that stores as the same text |
| FinalBot.StorageRoundTrip | final_bot.py:331-365 | A requirement list reads back from storage as it was stored exactly when no item holds `|` and it is not the one-item list [""], which reads back as [] |
| FinalBot.RequirementsSurviveStorage | final_bot.py:183-207 | The requirements of a text without `|` survive the storage round trip |
| FinalBot.ContactInfoOf | final_bot.py:110-129 | The contact dict always has exactly the emails, phones and websites keys, each holding its findall list: emails contain "@", phones have 10 to 12 characters, websites start with http:// or https:// |
| FinalBot.CompensationShape | final_bot.py:209-222 | A compensation found is the verbatim text of the leftmost match of the first pattern, in the order salary, `$` amount, budget, pay, that matches anywhere; every earlier pattern matches nowhere; it starts with its label or `$`; None exactly when no pattern matches anywhere |
| FinalBot.RemoteFirst | final_bot.py:226-227 | A standalone "remote" anywhere gives "Remote", whatever else the text holds |
| FinalBot.LocationPhrase | final_bot.py:224-234 | Any location is None, "Remote", or a capitalised phrase of letters and spaces |
| FinalBot.LocationNone | final_bot.py:224-234 | There is no location exactly when neither pattern matches anywhere |
| FinalBot.DeadlineBonus | final_bot.py:255-265 | A deadline that strptime accepts earns 1 within 7 days (past dates included), 0.5 within 30 and 0 beyond; a missing or unparsable deadline earns 0 |
| FinalBot.FormattedDeadlineBonus | final_bot.py:255-265 | A deadline this bot wrote earns the tier of its own date's distance from now |
| FinalBot.SmartPriorityBounds | final_bot.py:236-267 | The priority lies in [5, 10] and moves in half points |
| FinalBot.TopPriority | final_bot.py:236-267 | The score reaches the cap 10 exactly with an urgent word, a seniority word and at least 1.5 from compensation and deadline together |
| FinalBot.CalculateSmartPriority | final_bot.py:236-267 | Adding each bonus in turn and capping gives the specified priority |
| FinalBot.BasicInvariants | final_bot.py:84-134 | Every basic record has a title of at most 83 characters, a category among job, freelance, business and other, a `YYYY-MM-DD`-shaped deadline if any, at most 5 requirements of 4 to 49 characters, all three contact keys, a priority in [5, 10] in half points, and a summary naming the category and requirement count |
| FinalBot.EnhancedBasicAnalysis | final_bot.py:84-134 | `enhanced_basic_analysis` assembles the specified record |
| FinalBot.GeminiEnhance | final_bot.py:269-299 | The merge never drops a key of the basic record |
| FinalBot.EnhanceMerges | final_bot.py:295 | The merged record takes the reply's value for keys it names and keeps the basic value for all others |
| FinalBot.EnhanceIdempotent | final_bot.py:295 | Merging the same reply twice changes nothing more |
| FinalBot.EnhanceJsonBlock | final_bot.py:286-292 | A reply fenced as "```json" body "```" is parsed from exactly its body |
| FinalBot.SmartAnalyzeKeys | final_bot.py:67-82 | The result always has every basic key; without a model it is the basic record |
| GeminiAnalyzer.DropPrefix | gemini_analyzer.py:83-86 | Dropping a fence prefix removes exactly it when present and changes nothing otherwise |
| GeminiAnalyzer.DropSuffix | gemini_analyzer.py:87-88 | Dropping a fence suffix removes exactly it when present and changes nothing otherwise |
| GeminiAnalyzer.CleanReplyText | gemini_analyzer.py:80-90 | The step-by-step fence stripping computes the specified cleaned reply |
| GeminiAnalyzer.CleanJsonBlock | gemini_analyzer.py:80-90 | A reply "```json" body "```" cleans to the stripped body |
| GeminiAnalyzer.CleanPlainBlock | gemini_analyzer.py:80-90 | A reply "```" body "```" cleans to the stripped body |
| GeminiAnalyzer.CleanUnfenced | gemini_analyzer.py:80-90 | An unfenced reply is only stripped |
| GeminiAnalyzer.CleanUnclosed | gemini_analyzer.py:83-88 | A "```json" reply with no closing fence cleans to its stripped body |
| GeminiAnalyzer.ValidateResult | gemini_analyzer.py:101-132 | `_validate_result`'s field-by-field rewrites compute the specified validated record, or the exception |
| GeminiAnalyzer.ValidatedShape | gemini_analyzer.py:117-130 | A validated record has a whitelisted category, a priority in [1, 10] and a null or strptime-parsable deadline |
| GeminiAnalyzer.ValidateRaises | gemini_analyzer.py:111-130 | Validation raises exactly when `float()` rejects the priority, or when the deadline is truthy but not a string |
| GeminiAnalyzer.NumericPriorityAccepted | gemini_analyzer.py:111-123 | A numeric priority is accepted and clamped into [1, 10] |
| GeminiAnalyzer.CategoryKept | gemini_analyzer.py:117-120 | The category is kept exactly when whitelisted, otherwise it becomes "other" |
| GeminiAnalyzer.PriorityClamped | gemini_analyzer.py:123 | The priority is the reply's value clamped into [1, 10] |
| GeminiAnalyzer.DeadlineChecked | gemini_analyzer.py:125-130 | A truthy deadline survives exactly when strptime accepts it, otherwise it becomes null; a falsy one is kept as it is |
| GeminiAnalyzer.ValidateDefaults | gemini_analyzer.py:105-115 | Missing fields take the documented defaults |
| GeminiAnalyzer.ValidatePassesThrough | gemini_analyzer.py:105-115 | Title, requirements, contacts, compensation, location and summary pass through unchanged |
| GeminiAnalyzer.ValidateIdempotent | gemini_analyzer.py:101-132 | Validating a validated record again gives the same record |
| GeminiAnalyzer.DispatchCases | gemini_analyzer.py:27-37 | Without a key the result is the keyword analyzer's valid record; with a key, any returned record has passed validation |
| WorkingGemini.BasicCategoryPrecedence | working_gemini.py:138-144 | Job words beat freelance words; "other" exactly when neither occurs |
| WorkingGemini.BasicPriority | working_gemini.py:152-165 | The priority loop computes the specified priority |
| WorkingGemini.BasicPriorityValues | working_gemini.py:152-165 | The fallback priority is 5, 6, 7 or 8, so the cap never acts; it is at least 7 exactly for an urgent word, and 6 or 8 exactly for a senior word |
| WorkingGemini.AnalyzeBasic | working_gemini.py:130-169 | `analyze_basic` assembles the specified record |
| WorkingGemini.BasicFixedFields | working_gemini.py:146-169 | The fallback never finds a deadline, requirements, compensation or location; its contacts hold only the email and phone lists, and every email contains "@" |
| WorkingGemini.SliceButLast3 | working_gemini.py:105-108 | Python's `s[a:-3]` is never longer than s |
| WorkingGemini.ReplyOfJsonBlock | working_gemini.py:105-106 | A reply "```json" body "```" yields exactly the body |
| WorkingGemini.ReplyOfPlainBlock | working_gemini.py:107-108 | A reply "```" body "```" yields the body, less a leading "json" |
| WorkingGemini.ReplyOfUnclosedBlock | working_gemini.py:105-106 | A "```json" reply with no closing fence loses the last three characters of its body |
| WorkingGemini.ReplyUnfenced | working_gemini.py:102-108 | An unfenced reply is only stripped |
| WorkingGemini.BoundRecordShape | working_gemini.py:114-124 | A built record has a title of at most 100, requirements of at most 5 and a summary of at most 200 items, all prefixes of the reply's, a priority in [1, 10], and the category unchecked |
| WorkingGemini.BoundRecordRaises | working_gemini.py:114-124 | Building raises exactly when a sliced field is neither a string nor a list, or the priority is not a number |
| WorkingGemini.BoundRecordIdempotent | working_gemini.py:114-124 | Rebuilding a record from its own dictionary changes nothing |
| WorkingGemini.AnalyzeWithGeminiCases | working_gemini.py:70-128 | The result is the keyword fallback or a bounded reply record; without a model it is the fallback |
| AiEngine.FirstFormatFound | ai_engine/analyzer.py:68-72 | A parsed deadline comes from the first format that accepts the text |
| AiEngine.FirstFormatNone | ai_engine/analyzer.py:68-76 | None means no format accepts the text |
| AiEngine.ParseDeadlineOf | ai_engine/analyzer.py:57-76 | A parsed deadline is a valid datetime |
| AiEngine.ParseDeadline | ai_engine/analyzer.py:57-76 | The format loop computes the specified first-format parse |
| AiEngine.DayFirstWins | ai_engine/analyzer.py:61-66 | An ambiguous slashed date is read day first |
| AiEngine.MonthFirstFallback | ai_engine/analyzer.py:61-66 | A slashed date whose second field exceeds 12 falls through to month first |
| AiEngine.DetectCategory | ai_engine/analyzer.py:89-93 | The break-on-first-hit loop returns the specified category |
| AiEngine.FirstCategoryHit | ai_engine/analyzer.py:82-93 | The category is "other" exactly when no keyword of any category occurs |
| AiEngine.FirstHitIndex | ai_engine/analyzer.py:89-93 | A category found is the first table row with a keyword hit |
| AiEngine.FallbackAnalysis | ai_engine/analyzer.py:78-115 | `_fallback_analysis` assembles the specified record |
| AiEngine.FallbackFixedFields | ai_engine/analyzer.py:82-115 | The fallback never finds a deadline, requirements, location or compensation, always scores 5, has only email and phone contact keys, and its category is a table row's or "other" |
| AiEngine.ModelReplyKept | ai_engine/analyzer.py:45-51 | A dictionary reply keeps its keys and every other value; a truthy deadline becomes `_parse_deadline`'s result (a valid datetime, or null when no format accepts it); a falsy one is kept |
| AiEngine.FailureFallsBack | ai_engine/analyzer.py:53-55 | A failed call or unparsable reply gives the keyword fallback |
| WhatsappBot.FallbackShape | whatsapp_bot.py:115-126 | The fallback title is the text or its first 50 characters and "..."; "job" exactly for a job word; priority 6 exactly for "urgent"; nothing else extracted |
| WhatsappBot.AnalyzeCases | whatsapp_bot.py:79-113 | Without a model the fallback is used; a reply "```json" body "```" is parsed from exactly its body |
| WhatsappBot.DisplayTitleShape | whatsapp_bot.py:199 | The shown title is the title if it fits in 60 characters, else its first 60 and "..." |
| WhatsappBot.FallbackTitleShownWhole | whatsapp_bot.py:199 | A fallback title is always shown whole |
| QuickStart.CreatedShape | quick_start.py:100-138 | The title is "New Opportunity" for empty text, else the first line cut to 100; id and text come back as given; status "new" |
| QuickStart.PriorityPrecedence | quick_start.py:105-111 | Priority 9 exactly for urgency, 7 exactly for seniority without urgency, else 5 |
| QuickStart.CategoryPrecedence | quick_start.py:104-116 | "tech" exactly for a technical word, "freelance" for a contract word without one, else "general" |
| QuickStart.CaseBlind | quick_start.py:108-116 | Texts that lowercase alike get the same category and priority |
| Patterns.FindEmails | ai_analyzer.py:173-174 | Every email found contains "@" |
| Patterns.FindPhones | ai_analyzer.py:179-180 | Every phone found is 10 to 12 characters long |
| Patterns.FindUrls | ai_analyzer.py:185-186 | Every website found starts with "http://" or "https://" |
| Patterns.SearchLeadIn | ai_analyzer.py:101 | A lead-in capture is non-empty and stops before a stop character; None means the lead-in matches nowhere |
| Patterns.SearchTriple | ai_analyzer.py:123 | A digit-triple match is leftmost, its groups are digits of the allowed lengths, and None means no position matches |
| Patterns.SearchAmountLeftmost | final_bot.py:219-221 | `re.search(...).group(0)` for a compensation pattern is the text from the leftmost match position to the end the pattern reaches; no result exactly when the pattern matches nowhere |
| Patterns.FirstAmountText | final_bot.py:209-222 | Trying the patterns in order gives the leftmost match text of the first pattern that matches anywhere, earlier patterns matching nowhere; nothing exactly when no pattern matches |
| Requirements.RequirementsShape | final_bot.py:197-207 | The requirement list has at most five items, all passing the length filter, stripped, and free of separators and stop characters |
| Requirements.ExtractRequirements | ai_analyzer.py:156-166 | The three nested loops compute the specified requirement list |
| Fences.CutFenced | final_bot.py:286-289 | The cut reply holds no fence and occurs in the reply |
| Fences.CutJsonBlock | whatsapp_bot.py:104-105 | A reply "```json" body "```" cuts to exactly its body |
| Fences.CutPlainBlock | whatsapp_bot.py:106-107 | A reply "```" body "```" cuts to exactly its body |
| Strptime.YmdRoundTrip | ai_analyzer.py:241 | `strptime(..., "%Y-%m-%d")` reads back what `strftime("%Y-%m-%d")` wrote |
| Calendar.AddDaysValid | ai_analyzer.py:134-139 | Adding at most 30 days to a date before 9999 gives a valid date exactly that many ordinals later |
| Calendar.DaysUntilIsFloor | ai_analyzer.py:242 | `(deadline - now).days` is the floor of the exact difference in days |
| Text.SplitJoin | final_bot.py:331-365 | Splitting a join gives back items that do not contain the separator |
| Text.JoinSplit | final_bot.py:331-365 | Joining the pieces of a split rebuilds the string |
| Text.EllipsisShape | ai_engine/analyzer.py:104 | `s[:n] + "..."` is s when it fits, else its first n characters and "..." |
| Text.FirstLineCutShape | working_gemini.py:135 | The first line cut to n characters is a newline-free prefix that stops early only at a newline or the end |

## Left out

- Databases, HTTP endpoints (FastAPI, Twilio), printing and environment lookup: I/O outside the analysis.
- Model prompts and network calls: a reply is a parameter, and `None` stands for a call that raised.
- `json.loads`: a parameter returning a parsed value or `None`. JSON syntax is not modelled.
- `datetime.now()`: a parameter. Relative dates require `now` before the year 9999, where Python would raise OverflowError.
- Floating point: priority scores are exact reals. Every score the keyword analyzers produce is a whole number of half points, so the rounding is the same.
- `float()` of text: only plain decimals are read. Exponents, `inf`, `nan` and underscores count as rejected.
- Unicode: `str.lower` folds only ASCII capitals and the Kelvin sign. `\b`, `\d` and `\w` are ASCII.
- Dictionary order: JSON objects and the model-reply merge are maps. Key order is not kept.
- The contact dictionary's `str()` form in final_bot.py's database row is not modelled. The requirements column is.
- GeminiAnalyzer.AnalyzeOf: on every failure path with a key configured, the source calls `self.fallback`, which only exists without a key. This raises AttributeError, modelled as `Unhandled` and not further.
- AiEngine.AnalyzeOf: the model's reply is returned unchecked apart from the deadline. Its other fields are left as parsed.
- WhatsappBot.DisplayTitle: models a string title. A model reply whose title is a list or a number is not modelled.
- QuickStart.CreateOpportunityOf: the request body's "content" is a string. The row id from the insert is a parameter.
- Keyword fallbacks and analyzers of the files outside the core (backend, webhook, start scripts) are not part of this model.
