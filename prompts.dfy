/** The prompt builders and the vague-keyword word filter. The wording of a
    prompt is not modelled: a prompt is the branch that built it together with
    the values spliced into it. */
module Prompts {
  import opened Values
  import opened Text
  import opened Horizon

  /** The instructions of the first reflection round. They are not an
      interpolated string in the source, so the two placeholders stay in the
      prompt as written. */
  const OMISSION_FOCUS: string :=
    OMISSION_HEAD + "{time_horizon}" + OMISSION_MIDDLE + "{future_date_str}" + OMISSION_TAIL

  const OMISSION_HEAD := "Omissions: look for what is still missing about events within "
  const OMISSION_MIDDLE := " (from now until "
  const OMISSION_TAIL := "): other scenarios, other forecasts, risks and opportunities, related trends."

  /** The instructions of every later reflection round. */
  const CRITICAL_FOCUS: string :=
    "Critical: contradictions or outdated claims, opposing views and trends, overlooked dimensions, how credible the forecasts are."

  /** What a reflection summary is asked to do with the existing text. */
  datatype SummaryFocus =
    | CorrectAndRevise  // critical round: contradicted content may be revised
    | EnrichOnly        // only add; do not delete key information

  /** A system prompt: the branch that built it and the values spliced into it. */
  datatype Prompt =
    | DefaultReportStructurePrompt
    | ReportStructurePrompt(horizon: string, anglesText: string)
    | DefaultFirstSearchPrompt
    | FirstSearchPrompt(horizon: string, currentDate: string, targetDate: string)
    | DefaultReflectionPrompt
    | ReflectionPrompt(horizon: string, currentDate: string, targetDate: string, focus: string)
    | ReflectionSummaryPrompt(horizon: string, summaryFocus: SummaryFocus)

  /** The user message sent with a prompt: a text, or a JSON document. */
  datatype Message = RawText(text: string) | JsonMessage(doc: Value)

  // ---------------------------------------------------------------------------
  // The report-structure prompt

  /** The analysis-angles line: present only for a non-empty list, which it
      joins with ", ". */
  function AnglesText(angles: Option<seq<string>>): (t: string)
    ensures t == "" <==> angles.None? || angles.value == []
    ensures t != "" ==> Contains(t, Join(angles.value, ", "))
  {
    if angles.Some? && angles.value != [] then
      var prefix := "\n分析角度：";
      var t := prefix + Join(angles.value, ", ") + "。请根据这些角度来规划报告结构。";
      assert t[|prefix|..|prefix| + |Join(angles.value, ", ")|] == Join(angles.value, ", ");
      ContainsAt(t, Join(angles.value, ", "), |prefix|);
      t
    else ""
  }

  function GetReportStructurePrompt(horizon: string, angles: Option<seq<string>>): (p: Prompt)
    ensures p.ReportStructurePrompt? && p.horizon == horizon
    ensures p.anglesText != "" <==> angles.Some? && angles.value != []
    ensures p.anglesText == AnglesText(angles)
  {
    ReportStructurePrompt(horizon, AnglesText(angles))
  }

  // ---------------------------------------------------------------------------
  // The search and reflection prompts

  /** The target date the prompts mention, computed with the month-carry loop. */
  method FutureDateString(horizon: string, now: Now) returns (r: Result<string>)
    ensures ParseHorizon(horizon).Err? ==> r == Err(ParseHorizon(horizon).error)
    ensures ParseHorizon(horizon).Ok? ==> r == Ok(TargetDateText(ParseHorizon(horizon).value, now))
  {
    var span :- ParseHorizon(horizon);
    match span {
      case Months(n) =>
        var year, month := CarryMonths(now, n);
        r := Ok(NatToString(year) + "年" + NatToString(month) + "月");
      case Years(n) =>
        r := Ok(NatToString(now.year + n) + "年");
      case Unspecified =>
        r := Ok("未来");
    }
  }

  method GetFirstSearchPrompt(horizon: string, currentDate: Option<string>, now: Now) returns (r: Result<Prompt>)
    ensures r.Ok? <==> ParseHorizon(horizon).Ok?
    ensures r.Err? ==> r.error == ValueError
    ensures r.Ok? ==> r.value == FirstSearchPrompt(
      horizon,
      if currentDate.Some? then currentDate.value else CurrentDateText(now),
      TargetDateText(ParseHorizon(horizon).value, now))
  {
    var date := if currentDate.Some? then currentDate.value else CurrentDateText(now);
    var target :- FutureDateString(horizon, now);
    r := Ok(FirstSearchPrompt(horizon, date, target));
  }

  /** Round 0 looks for omissions; every other round reflects critically. */
  function ReflectionFocus(iteration: int): (focus: string)
    ensures focus == OMISSION_FOCUS <==> iteration == 0
    ensures focus == CRITICAL_FOCUS <==> iteration != 0
  {
    assert |OMISSION_FOCUS| != |CRITICAL_FOCUS|;
    if iteration == 0 then OMISSION_FOCUS else CRITICAL_FOCUS
  }

  /** The first-round instructions carry their placeholders verbatim. */
  lemma OmissionFocusKeepsPlaceholders()
    ensures Contains(OMISSION_FOCUS, "{time_horizon}")
    ensures Contains(OMISSION_FOCUS, "{future_date_str}")
  {
    var i := |OMISSION_HEAD|;
    assert OMISSION_FOCUS[i..i + 14] == "{time_horizon}";
    ContainsAt(OMISSION_FOCUS, "{time_horizon}", i);
    var j := i + 14 + |OMISSION_MIDDLE|;
    assert OMISSION_FOCUS[j..j + 17] == "{future_date_str}";
    ContainsAt(OMISSION_FOCUS, "{future_date_str}", j);
  }

  method GetReflectionPrompt(horizon: string, currentDate: Option<string>, iteration: int, now: Now)
    returns (r: Result<Prompt>)
    ensures r.Ok? <==> ParseHorizon(horizon).Ok?
    ensures r.Err? ==> r.error == ValueError
    ensures r.Ok? ==> r.value == ReflectionPrompt(
      horizon,
      if currentDate.Some? then currentDate.value else CurrentDateText(now),
      TargetDateText(ParseHorizon(horizon).value, now),
      ReflectionFocus(iteration))
    ensures r.Ok? && iteration == 0 ==>
      Contains(r.value.focus, "{time_horizon}") && Contains(r.value.focus, "{future_date_str}")
  {
    var date := if currentDate.Some? then currentDate.value else CurrentDateText(now);
    var target :- FutureDateString(horizon, now);
    OmissionFocusKeepsPlaceholders();
    r := Ok(ReflectionPrompt(horizon, date, target, ReflectionFocus(iteration)));
  }

  function GetReflectionSummaryPrompt(horizon: string, isCriticalReflection: bool): (p: Prompt)
    ensures p.ReflectionSummaryPrompt? && p.horizon == horizon
    ensures p.summaryFocus == CorrectAndRevise <==> isCriticalReflection
  {
    ReflectionSummaryPrompt(horizon, if isCriticalReflection then CorrectAndRevise else EnrichOnly)
  }

  // ---------------------------------------------------------------------------
  // The vague-keyword word filter

  const VAGUE_WORDS: seq<string> := ["未来简事", "简事", "未来", "趋势", "发展", "展望"]

  /** The words that are not exactly a vague keyword, in their order: a word
      is kept exactly when it is a word of the input and not a vague keyword,
      and there are no more of them than there were words. */
  function KeptWords(ws: seq<string>): (kept: seq<string>)
    ensures forall w :: w in kept <==> w in ws && w !in VAGUE_WORDS
    ensures |kept| <= |ws|
    decreases |ws|
  {
    if ws == [] then []
    else
      var rest := KeptWords(ws[1..]);
      assert forall w :: w in ws <==> w == ws[0] || w in ws[1..] by {
        assert ws == [ws[0]] + ws[1..];
      }
      (if ws[0] in VAGUE_WORDS then [] else [ws[0]]) + rest
  }

  /** Filtering a concatenation filters each part, so the kept words stay in
      the order of the input. */
  lemma {:induction false} KeptWordsAppend(a: seq<string>, b: seq<string>)
    ensures KeptWords(a + b) == KeptWords(a) + KeptWords(b)
    decreases |a|
  {
    if a != [] {
      assert (a + b)[0] == a[0] && (a + b)[1..] == a[1..] + b;
      KeptWordsAppend(a[1..], b);
    } else {
      assert a + b == b;
    }
  }

  lemma {:induction false} KeptWordsOfKept(ws: seq<string>)
    requires forall k :: 0 <= k < |ws| ==> ws[k] !in VAGUE_WORDS
    ensures KeptWords(ws) == ws
    decreases |ws|
  {
    if ws != [] {
      KeptWordsOfKept(ws[1..]);
      assert [ws[0]] + ws[1..] == ws;
    }
  }

  lemma KeptWordsAreWords(ws: seq<string>)
    requires AllWords(ws)
    ensures AllWords(KeptWords(ws))
  {
    forall k | 0 <= k < |KeptWords(ws)|
      ensures IsWord(KeptWords(ws)[k])
    {
      var w := KeptWords(ws)[k];
      assert w in KeptWords(ws);
      var j :| 0 <= j < |ws| && ws[j] == w;
    }
  }

  /** `_remove_vague_keywords`: drop every whitespace-separated word that is
      exactly a vague keyword and join the rest with single spaces; when
      nothing is left, return the query itself. */
  function RemoveVagueKeywords(query: string): (r: string)
    ensures KeptWords(Words(query)) == [] ==> r == query
    ensures KeptWords(Words(query)) != [] ==>
      Words(r) == KeptWords(Words(query)) && SingleSpaced(r)
    ensures r == query || forall k :: 0 <= k < |Words(r)| ==> Words(r)[k] !in VAGUE_WORDS
  {
    var kept := KeptWords(Words(query));
    if kept != [] then
      WordsAreWords(query);
      KeptWordsAreWords(Words(query));
      WordsOfJoin(kept);
      Join(kept, " ")
    else query
  }

  /** Filtering a second time changes nothing. */
  lemma RemoveVagueKeywordsIdempotent(query: string)
    ensures RemoveVagueKeywords(RemoveVagueKeywords(query)) == RemoveVagueKeywords(query)
  {
    var r := RemoveVagueKeywords(query);
    if r != query {
      KeptWordsOfKept(Words(r));
    }
  }
}
