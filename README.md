# future-prediction: the deterministic core around the model calls

This project models, in Dafny, the deterministic logic of a "future events"
research agent. The agent asks a language model for a report outline, then
for web-search queries paragraph by paragraph, and reflects on them. The
model covers:

- **The report-structure node** (`report_structure_node.dfy`, module
  `ReportStructureNode`). It clarifies a vague user query and prefixes the
  request with the forecast horizon. It reads the model's outline
  defensively, keeping the dict elements of a list with per-item defaults and
  falling back to a two-paragraph outline. It writes the outline into the
  session state (`mutate_state`, a class with in-place updates).
- **The first-search and reflection nodes** (`search_node.dfy`, module
  `SearchNode`). One model serves both classes. They share `process_output`,
  `_clean_search_query` and `_enhance_search_query_with_date`, up to the
  fallback strings. `_extract_key_concepts` exists only in the first-search
  node, and `Kind` selects it.
  It covers:
  - input validation and the never-raising reply reader;
  - vague-keyword stripping of the node input and of the returned query;
  - the date-correction pass, which rewrites stale `20xx` years in a query
    and appends the target year;
  - the order of `run`: clean first, then correct dates.
- **The prompt helpers** (`prompts.dfy`, module `Prompts`). This covers:
  - the whitespace-word filter `_remove_vague_keywords`;
  - the target date the prompts mention;
  - which reflection focus a round gets;
  - which summary focus and analysis-angle line a prompt gets.

  A prompt is modelled as the branch that built it plus the values spliced
  into it.
- **Shared pieces**:
  - `values.dfy` (module `Values`): the JSON values the nodes handle, Python
    truthiness, the exceptions the code can raise, and the outcome of reply
    parsing.
  - `text.dfy` (module `Text`): the Python string operations the code relies
    on. These are `str.replace` (leftmost, non-overlapping), `split()`/`join`,
    `strip()`, `lower()`, `in`, `int()` and `str()`.
  - `horizon.dfy` (module `Horizon`): reading a horizon such as "3个月" or
    "1年", and the month-carry loop.

The model call is a function parameter `llm: (Prompt, Message) -> Parsed`.
It covers the HTTP call together with the reply clean-up and JSON
extraction. The clock is a parameter `now`.

Where the design intent and the code differ, the model follows the code:

- The outline is not capped at five paragraphs. The cap appears only in the
  prompt text (src/prompts/prompts.py:133,149), and `ValidatedPlan` keeps
  every dict element.
- A vague query is rewritten only when it also contains "简事"
  (`ClarifyVagueQuery`, `VagueQueryWithoutJianShiKept`).
- Input validation checks that the keys are present, not that their values
  are non-empty (`ValidateInput`).
- When dateutil is present, the year comes from `relativedelta`; the
  month-carry loop is the fallback. Both give the same year and month.
  `CarryMonths` proves that the loop ends on `TargetYear` and `TargetMonth`:
  the year and month whose month count is now.year·12 + now.month + n, which
  is what adding months with `relativedelta` yields.
- When a bare stale year is followed later by the same year written with 年
  ("2023和2023年"), the first replacement also rewrites the second occurrence
  and leaves "2026年年". The second token is then not found any more. This is
  the behaviour as written (`BareYearBeforeSuffixedYear`).

## Model

| member | source | states |
|---|---|---|
| Text.ReplaceLeftmost | src/nodes/search_node.py:177 | `str.replace` rewrites the leftmost occurrence first and carries on after it, never overlapping |
| Text.ReplaceAbsent | src/nodes/search_node.py:177 | replacing a substring that does not occur leaves the string unchanged |
| Text.ReplaceByEmptyShrinks | src/nodes/search_node.py:177 | deleting a keyword never lengthens a string |
| Text.ContainsIff | src/nodes/search_node.py:263 | `p in s` holds exactly when `p` occurs at some index of `s` |
| Text.ContainsTrans | src/nodes/report_structure_node.py:64 | containment of substrings is transitive |
| Text.WordsOfJoin | src/nodes/search_node.py:180 | splitting a space-joined list of words gives back the words |
| Text.CollapseShrinks | src/nodes/search_node.py:180 | `" ".join(s.split())` is never longer than `s` |
| Text.CollapseIdempotent | src/nodes/search_node.py:180 | collapsing whitespace a second time changes nothing |
| Text.CollapseEmptyIff | src/nodes/search_node.py:204-205 | the collapsed string is empty exactly when the input is all whitespace |
| Text.StripCollapsed | src/nodes/search_node.py:186 | `strip()` of a collapsed string is that string |
| Text.StripEmptyIff | src/nodes/report_structure_node.py:40 | `strip()` gives "" exactly when the input is all whitespace |
| Text.ContainsLower | src/nodes/report_structure_node.py:58-59 | for a pattern without ASCII letters, testing it against `lower()` of a string is the same as testing it against the string |
| Text.ParseNatToString | src/nodes/search_node.py:228 | `int(str(n)) == n` for every natural number |
| Horizon.ParseHorizon | src/prompts/prompts.py:193-212 | "个月" is tested before "年". A month horizon gives months or an error, a year-only horizon gives years or an error, and a horizon with neither unit gives "unspecified". The only error is ValueError |
| Horizon.HorizonRoundTrip | src/prompts/prompts.py:193-208 | "N个月" reads back as N months and "N年" as N years |
| Horizon.CarryMonths | src/prompts/prompts.py:200-204 | the carry loop ends with the month in 1..12, keeps year·12+month equal to now.year·12+now.month+N, and ends on `TargetYear` and `TargetMonth` of the date N months ahead |
| Horizon.TargetYear | src/nodes/search_node.py:227-244 | a month horizon gives the year of the date N months ahead (12·y ≤ 12·now.year + now.month − 1 + N < 12·y + 12), a year horizon gives the current year + N, and a horizon with neither unit gives the current year + 1 |
| Horizon.TargetMonth | src/prompts/prompts.py:200-206 | the month of the date N months ahead: in 1..12, and with the target year it makes up now.year·12 + now.month + N |
| Horizon.TargetDateText | src/prompts/prompts.py:191-212 | "未来" without a unit. Otherwise the text starts with the digits of the target year followed by 年; a year horizon has nothing after it, and a month horizon ends in 月 with a month in 1..12 that, read back, names the date N months ahead |
| Horizon.CurrentDateText | src/prompts/prompts.py:187-189 | the date text is "<year>年<month>月<day>日": the year, the month and the day each read back as the current one, in that order, after 年 and 月 |
| Prompts.AnglesText | src/prompts/prompts.py:126-128 | the analysis-angles line is present exactly for a non-empty list, and it contains the angles joined with ", " |
| Prompts.GetReportStructurePrompt | src/prompts/prompts.py:118-131 | the horizon's prompt carries the horizon and the angles line `AnglesText(angles)`, which is present exactly when the angles list is non-empty |
| Prompts.FutureDateString | src/prompts/prompts.py:190-212 | the target date text is computed with the carry loop: "<year>年<month>月", "<year>年" or "未来". A bad horizon number is an error |
| Prompts.GetFirstSearchPrompt | src/prompts/prompts.py:187-214 | the prompt carries the given date (today's when none is given) and the target date. It fails with ValueError exactly when the horizon's number does not parse |
| Prompts.ReflectionFocus | src/prompts/prompts.py:351-374 | round 0 gets the omission-finding focus; every other round gets the critical focus |
| Prompts.OmissionFocusKeepsPlaceholders | src/prompts/prompts.py:353-359 | the round-0 focus is not interpolated, so `{time_horizon}` and `{future_date_str}` stay in it literally |
| Prompts.GetReflectionPrompt | src/prompts/prompts.py:323-376 | the prompt carries the dates and the round's focus; in round 0 the focus holds both literal placeholders. It fails with ValueError exactly when the horizon's number does not parse |
| Prompts.GetReflectionSummaryPrompt | src/prompts/prompts.py:436-449 | the correct-and-revise focus exactly for a critical reflection, the enrich-only focus otherwise |
| Prompts.KeptWords | src/prompts/prompts.py:175 | a word is kept exactly when it is a word of the query and not a vague keyword, and no more words are kept than there were |
| Prompts.KeptWordsAppend | src/prompts/prompts.py:175 | filtering a concatenation is the concatenation of the filtered parts, so the kept words keep the order of the query |
| Prompts.KeptWordsOfKept | src/prompts/prompts.py:175 | a word list with no vague keyword is kept whole |
| Prompts.RemoveVagueKeywords | src/prompts/prompts.py:173-176 | with a word left, the result's words are exactly the kept words and are single-spaced. With none left, the query is returned; otherwise no word of the result is a vague keyword |
| Prompts.RemoveVagueKeywordsIdempotent | src/prompts/prompts.py:174-176 | filtering a second time changes nothing |
| SearchNode.AllIn | src/nodes/search_node.py:288-290 | `all(k in data ...)` on a dict is key presence. It is a TypeError exactly for a value that is not a dict, list or string |
| SearchNode.ValidateInput | src/nodes/search_node.py:34-44 | a dict (or a text parsing to one) is valid exactly when title and content are present, plus paragraph_latest_state for the reflection node. A parse failure or another input is invalid; a text parsing to a number, boolean or null raises TypeError |
| SearchNode.PyIn | src/nodes/search_node.py:288-295 | Python's `k in v`: key presence for a dict, element membership for a list, occurrence at some index for a string, and TypeError for anything else |
| SearchNode.ProcessSearchOutput | src/nodes/search_node.py:124-156 | never raises and always yields a truthy query. It is exactly the reply's search_query and reasoning (default "") when the reply is an object with a truthy search_query, and the node's fixed fallback otherwise |
| SearchNode.Fallback | src/nodes/search_node.py:150-156 | the fallback reply holds a non-empty string query and reasoning: "相关主题研究" for the first-search node and "深度研究补充信息" for the reflection node (src/nodes/search_node.py:398) |
| SearchNode.RemoveKeywords | src/nodes/search_node.py:175-177 | deleting the keywords one after the other never lengthens the text |
| SearchNode.KeyConcepts | src/nodes/search_node.py:168-186 | an empty text, or one that cleans to fewer than 5 characters, is returned as it is. Otherwise the result is the cleaned text, single-spaced, with 5 ≤ length ≤ the input's |
| SearchNode.KeyConceptsOf | src/nodes/search_node.py:168-177 | a falsy value is returned as it is, and a truthy value that is not a string raises AttributeError |
| SearchNode.ExtractKeyConcepts | src/nodes/search_node.py:168-186 | the keyword loop computes the key concepts of the input |
| SearchNode.RemoveQueryKeywords | src/nodes/search_node.py:199-201 | deleting each keyword and its lower-cased form never lengthens the query |
| SearchNode.CleanedQuery | src/nodes/search_node.py:198-205 | the result is empty only for an empty query. When removal leaves only whitespace the query is returned; otherwise the result is the collapsed remainder, single-spaced and no longer than the query |
| SearchNode.CleanedQueryOf | src/nodes/search_node.py:96-99 | a query that is not a string raises AttributeError, and a non-empty string stays truthy |
| SearchNode.CleanSearchQuery | src/nodes/search_node.py:198-205 | the keyword loop computes the cleaned query |
| SearchNode.CleanedReply | src/nodes/search_node.py:95-99 | a falsy query is left alone, a truthy non-string query raises AttributeError, and a non-empty string query is replaced by its cleaned form, which stays truthy |
| SearchNode.YearOf | src/nodes/search_node.py:254 | the year a `20\d{2}年?` token names is 2000 plus ten times its third digit plus its fourth digit, so it lies in 2000..2099 |
| SearchNode.YearTokensFrom | src/nodes/search_node.py:248-249 | every token found from an index on occurs in the query |
| SearchNode.YearTokens | src/nodes/search_node.py:248-249 | every token `re.findall` returns occurs in the query |
| SearchNode.TokenAt | src/nodes/search_node.py:248-249 | the token matched at an index is `20\d{2}` followed by 年 when one follows, cut from the query there |
| SearchNode.YearTokensFromEmptyIff | src/nodes/search_node.py:248-249 | the scan from an index finds no token exactly when `20\d{2}` occurs nowhere from there on |
| SearchNode.YearTokensEmptyIff | src/nodes/search_node.py:249 | `re.findall` finds no year token exactly when `20\d{2}` occurs nowhere in the query |
| SearchNode.ReplaceStale | src/nodes/search_node.py:252-258 | when every token is the current year or later, the query is left unchanged; rewriting with a non-empty year text never empties a non-empty query |
| SearchNode.DateCorrected | src/nodes/search_node.py:246-264 | with no `20\d{2}` in the query, it is unchanged, or has " <year>年" appended when a horizon is set and the query has neither 年 nor 月. With year tokens that are all current or later, it is unchanged. A non-empty query stays non-empty |
| SearchNode.SingleStaleTokenRewritten | src/nodes/search_node.py:251-258 | when the only `20\d{2}` match in the query is one stale year token, that token is replaced by "<target year>年" and everything before and after it is kept |
| SearchNode.DatedReply | src/nodes/search_node.py:218-267 | a falsy query leaves the reply untouched, a bad horizon number raises ValueError, and a non-string query raises TypeError. Otherwise only the query changes: it becomes `DateCorrected` of the query against the current year and the horizon's `TargetYear`. A query without `20\d{2}` gets the target year appended exactly when it lacks 年 and 月; one whose years are all current or later is kept |
| SearchNode.EnhanceSearchQueryWithDate | src/nodes/search_node.py:218-267 | the carry loop and the token loop compute the date-corrected reply |
| SearchNode.PostProcess | src/nodes/search_node.py:95-105 | the query is cleaned first and dated afterwards, and only with a horizon. The reasoning is kept; a truthy query that is not a string raises AttributeError; a truthy query ends as a non-empty string |
| SearchNode.MessageOf | src/nodes/search_node.py:61-78 | a text is sent as it is and a reflection dict as JSON. A first-search dict is sent as an object with exactly title and content, holding the key concepts of the dict's title and content ("" when absent); it raises AttributeError exactly when either of them is truthy and not a string |
| SearchNode.SearchPromptOf | src/nodes/search_node.py:80-87 | the fixed prompt without a horizon. With one, the prompt succeeds exactly when the horizon parses (ValueError otherwise) and carries the horizon, today's date and the horizon's target date; a reflection prompt also carries `ReflectionFocus(iteration)`, the omission focus in round 0 and the critical focus after that (reflection node at search_node.py:322-331). Without a horizon, the reflection node uses its own fixed prompt |
| SearchNode.SearchRun | src/nodes/search_node.py:57-112 | invalid input raises ValueError and a TypeError from validation passes through. Valid input gives the message's or the prompt's error, or else `PostProcess` of the model's reply to that prompt and message; a successful run returns a non-empty string query |
| SearchNode.Run | src/nodes/search_node.py:57-108 | the node's run computes `SearchRun` |
| SearchNode.CleanedPlainQuery | src/nodes/search_node.py:198-205 | a single word that does not contain "简事" (and so not "未来简事") is returned as it is by the cleaning |
| SearchNode.UndatedQueryGetsYear | src/nodes/search_node.py:260-264 | with a horizon set, a query with no digit, 年 or 月 gets " <target year>年" appended |
| SearchNode.FallbackQueryIsDated | src/nodes/search_node.py:95-105 | in 2025 with horizon "1年", the fallback query becomes "相关主题研究 2026年" |
| SearchNode.FallbackQueryKept | src/nodes/search_node.py:95-99 | the cleaning leaves the fallback reply unchanged |
| SearchNode.FallbackQueryGetsYear | src/nodes/search_node.py:218-267 | in 2025 with horizon "1年", the date correction turns the fallback query "相关主题研究" into "相关主题研究 2026年" |
| SearchNode.StaleYearRewritten | src/nodes/search_node.py:248-258 | in 2025, "2023年 人工智能" becomes "2026年 人工智能" |
| SearchNode.TokensOfRepeatedYear | src/nodes/search_node.py:249 | `re.findall` on "2023和2023年" gives "2023" and "2023年" |
| SearchNode.RewriteOfBareYear | src/nodes/search_node.py:258 | replacing "2023" in "2023和2023年" also rewrites the prefix of "2023年" |
| SearchNode.BareYearBeforeSuffixedYear | src/nodes/search_node.py:253-258 | "2023和2023年" becomes "2026年和2026年年" |
| ReportStructureNode.ValidatePlanInput | src/nodes/report_structure_node.py:38-40 | the input is valid exactly when the query is not all whitespace |
| ReportStructureNode.JianShiTestRedundant | src/nodes/report_structure_node.py:64 | containing "未来简事" implies containing "简事" |
| ReportStructureNode.ClarifyVagueQuery | src/nodes/report_structure_node.py:42-70 | The query is replaced by "未来<horizon or 3个月>内可能发生的重要事件、趋势和变化" exactly when it contains a vague pattern, is shorter than 20 characters once trimmed, and contains "简事". Otherwise it is returned as it is |
| ReportStructureNode.VagueQueryWithoutJianShiKept | src/nodes/report_structure_node.py:59-64 | "人工智能的发展" is vague and short, yet it is kept |
| ReportStructureNode.ModelInput | src/nodes/report_structure_node.py:86-100 | with a horizon, the model gets "未来<horizon>内，" + the clarified query; without one, the clarified query. It always contains the clarified query |
| ReportStructureNode.PlanPrompt | src/nodes/report_structure_node.py:89-99 | the fixed prompt exactly when there is no horizon; otherwise the report-structure prompt for the node's own horizon and the angles line of its angles, present exactly for a non-empty angle list |
| ReportStructureNode.Normalize | src/nodes/report_structure_node.py:149-155 | a paragraph takes the element's title and content when present; the defaults are "段落 <index + 1>" and "" |
| ReportStructureNode.ValidatedPlan | src/nodes/report_structure_node.py:143-157 | at most one paragraph per list element, and exactly one per element when every element is a dict |
| ReportStructureNode.DictPositionsLength | src/nodes/report_structure_node.py:143-157 | there are as many paragraphs as dict elements, and no more than list elements |
| ReportStructureNode.DictPositionsInRange | src/nodes/report_structure_node.py:146-147 | every recorded position holds a dict |
| ReportStructureNode.DictPositionsIncreasing | src/nodes/report_structure_node.py:145 | the positions increase, so the order of the list is kept |
| ReportStructureNode.DictPositionsComplete | src/nodes/report_structure_node.py:145-155 | every dict element is kept |
| ReportStructureNode.ValidatedPlanAt | src/nodes/report_structure_node.py:149-155 | paragraph k is the k-th dict normalized with its own list index: title default "段落 <i+1>", content default "" |
| ReportStructureNode.ValidatedPlanKeepsDicts | src/nodes/report_structure_node.py:143-157 | the outline consists of exactly the dict elements, in their order, each normalized with its index |
| ReportStructureNode.ValidatedPlanEmptyIff | src/nodes/report_structure_node.py:143-157 | the outline is empty exactly when the list holds no dict |
| ReportStructureNode.FallbackPlan | src/nodes/report_structure_node.py:159-171 | two paragraphs, "概述" and "详细分析", whose contents both contain the query |
| ReportStructureNode.PlanFromReply | src/nodes/report_structure_node.py:125-171 | a list gives its validated outline, so at most as many paragraphs as elements, and none for an empty list. Anything else, or a parse failure, gives the fallback outline |
| ReportStructureNode.ProcessPlanOutput | src/nodes/report_structure_node.py:140-157 | the validation loop computes `PlanFromReply` |
| ReportStructureNode.PlanOf | src/nodes/report_structure_node.py:83-109 | the model is asked with the node's prompt and its clarified, prefixed query; a list reply gives its validated outline and any other reply the fallback outline |
| ReportStructureNode.PlanEmptyIff | src/nodes/report_structure_node.py:103-157 | the outline is empty exactly when the model replied with a list holding no dict |
| ReportStructureNode.RunPlan | src/nodes/report_structure_node.py:83-109 | the node's run computes `PlanOf`: clarified, prefixed input, then the chosen prompt and the reading of the reply |
| ReportStructureNode.ReportState.constructor | src/nodes/report_structure_node.py:185-186 | a fresh state has an empty query, title and paragraph list |
| ReportStructureNode.ReportState.AddParagraph | src/nodes/report_structure_node.py:199-202 | appends one paragraph and changes nothing else |
| ReportStructureNode.ReportTitle | src/nodes/report_structure_node.py:194-195 | the default report title contains the query |
| ReportStructureNode.MutateState | src/nodes/report_structure_node.py:185-202 | The state is created when none is given. Its query becomes the original, unclarified query, and its title is set only when it was empty. The outline is appended after the existing paragraphs, in order |

## Left out

- The model call, including its network and provider errors, is the parameter `llm`. So are `remove_reasoning_from_output`, `clean_json_tags`, `extract_clean_response` and `json.loads` of the reply. A reply is either a parsed value or a parse failure. An exception raised by the model call is not modelled.
- `json.loads` of a text input in `validate_input` is the `parsed` field of `TextInput`. `json.dumps` of a message is the value itself (`JsonMessage`).
- The clock is the parameter `now`. The source reads `datetime.now()` several times in one run: in `run` (src/nodes/search_node.py:83,327), twice in each prompt builder (src/prompts/prompts.py:188,192 and 324,328) and twice in `_enhance_search_query_with_date` (src/nodes/search_node.py:223,226). The model takes all of these reads to be the same instant, so a run that straddles midnight or a year's end is not modelled.
- `datetime(year, month, now.day)` in the prompt builders can raise for a day the target month lacks, or for February 29 in a non-leap year (src/prompts/prompts.py:205,209). Day validity is not modelled, and neither is the 9999 year limit of `datetime`.
- Horizon.ParseHorizon: `int()` also accepts surrounding whitespace, a sign, underscores and non-ASCII digits. The model reads only plain ASCII digits, so negative horizons are out of scope.
- SearchNode.YearTokens: `\d` in a Python regular expression also matches non-ASCII digits; the model matches ASCII digits only.
- Text.Lower: `lower()` is modelled for ASCII letters only. It is applied to the search-query keywords and to the user query (src/nodes/report_structure_node.py:58). The patterns then looked for are all CJK, so lowering the other letters of the query cannot change the outcome of the test (`ContainsLower`).
- SearchNode.EnhanceSearchQueryWithDate: the response dict is updated in place in the source. The model returns an updated `SearchReply` value, since that dict is never shared.
- JSON numbers are integers in `Value`; floats, and the truthiness of 0.0, are not modelled.
- Prompts.AnglesText: the angles are an optional list of strings. The source accepts any truthy value for `analysis_angles` (src/prompts/prompts.py:127), and `', '.join` raises TypeError when an element is not a string (src/prompts/prompts.py:128). Neither case is modelled.
- Prompt wording and the JSON schema constants are left out. `OMISSION_FOCUS` and `CRITICAL_FOCUS` stand in for the Chinese instructions of the two reflection rounds. Only the two literal placeholders `{time_horizon}` and `{future_date_str}` are taken from the source text (src/prompts/prompts.py:353-359). A prompt is the branch that built it plus its spliced values. `get_first_summary_prompt` and `get_report_formatting_prompt` contain no branch and are left out as text.
- ReportStructureNode.ValidatePlanInput: the query is a string in the model, so the `isinstance` test is not modelled.
- `run` of the report-structure node never calls `validate_input`, and the model keeps them apart in the same way.
- The `State` and paragraph classes are not part of this model. Only the query, the title and an appendable list of (title, content) pairs are modelled. An exception from `run` inside `mutate_state` cannot arise, because `llm` is total.
- Logging (`log_info`, `log_error`) is left out. So are the LLM clients in src/llms, the example and UI scripts, and the configuration constants.
