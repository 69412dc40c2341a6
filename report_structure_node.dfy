/** The report-structure node: it asks the model for the outline of the report,
    reads the outline defensively, and writes it into the session state. */
module ReportStructureNode {
  import opened Values
  import opened Text
  import opened Prompts

  /** The node: the user's query, its horizon ("" when none was given) and the
      optional analysis angles. */
  datatype PlanNode = PlanNode(query: string, horizon: string, angles: Option<seq<string>>)

  /** One planned paragraph, `{"title": ..., "content": ...}`. */
  datatype PlanItem = PlanItem(title: Value, content: Value)

  // ---------------------------------------------------------------------------
  // The query

  /** `validate_input`: the query is not blank, that is, not all whitespace. */
  function ValidatePlanInput(node: PlanNode): (valid: bool)
    ensures valid <==> !AllSpace(node.query)
  {
    StripEmptyIff(node.query);
    |Strip(node.query)| > 0
  }

  const VAGUE_PATTERNS: seq<string> := ["未来简事", "未来", "趋势", "发展", "展望", "预测"]

  /** `any(p in s for p in patterns)`. */
  predicate AnyContains(s: string, patterns: seq<string>) {
    exists k :: 0 <= k < |patterns| && Contains(s, patterns[k])
  }

  /** The query a vague short query is replaced by. */
  function ClarifiedQuery(horizon: string): string {
    "未来" + (if horizon != "" then horizon else "3个月") + "内可能发生的重要事件、趋势和变化"
  }

  /** `_clarify_vague_query`: a query is replaced only when it contains a vague
      pattern, is shorter than 20 characters once trimmed, and contains
      "简事"; otherwise it is returned as it is. Lower-casing the query before
      the pattern test changes nothing, as the patterns have no ASCII letter. */
  function ClarifyVagueQuery(query: string, horizon: string): (r: string)
    ensures AnyContains(query, VAGUE_PATTERNS) && |Strip(query)| < 20 && Contains(query, "简事") ==>
      r == ClarifiedQuery(horizon)
    ensures !(AnyContains(query, VAGUE_PATTERNS) && |Strip(query)| < 20 && Contains(query, "简事")) ==>
      r == query
  {
    var lowered := Lower(query);
    assert AnyContains(lowered, VAGUE_PATTERNS) <==> AnyContains(query, VAGUE_PATTERNS) by {
      forall k | 0 <= k < |VAGUE_PATTERNS|
        ensures Contains(lowered, VAGUE_PATTERNS[k]) <==> Contains(query, VAGUE_PATTERNS[k])
      {
        ContainsLower(query, VAGUE_PATTERNS[k]);
      }
    }
    JianShiTestRedundant(query);
    var isVague := AnyContains(lowered, VAGUE_PATTERNS) && |Strip(query)| < 20;
    if isVague && (Contains(query, "未来简事") || Contains(query, "简事")) then
      ClarifiedQuery(horizon)
    else query
  }

  /** Of the two "简事" tests, the first implies the second. */
  lemma JianShiTestRedundant(query: string)
    ensures Contains(query, "未来简事") ==> Contains(query, "简事")
  {
    if Contains(query, "未来简事") {
      assert "未来简事"[2..4] == "简事";
      ContainsAt("未来简事", "简事", 2);
      ContainsTrans(query, "未来简事", "简事");
    }
  }

  /** A vague query without "简事" is not clarified: "人工智能的发展" contains
      the vague pattern "发展" and is short, yet it is kept. */
  lemma VagueQueryWithoutJianShiKept(horizon: string)
    ensures ClarifyVagueQuery("人工智能的发展", horizon) == "人工智能的发展"
  {
    var q := "人工智能的发展";
    assert forall i :: 0 <= i < |q| ==> q[i] != '简';
    NotContainsWithoutHead(q, "简事");
  }

  /** The text sent to the model: with a horizon, "未来<horizon>内，" followed
      by the clarified query; without one, the clarified query. */
  function ModelInput(node: PlanNode): (r: string)
    ensures node.horizon != "" ==>
      r == "未来" + node.horizon + "内，" + ClarifyVagueQuery(node.query, node.horizon)
    ensures node.horizon == "" ==> r == ClarifyVagueQuery(node.query, node.horizon)
    ensures Contains(r, ClarifyVagueQuery(node.query, node.horizon))
  {
    var clarified := ClarifyVagueQuery(node.query, node.horizon);
    if node.horizon != "" then
      var prefix := "未来" + node.horizon + "内，";
      assert (prefix + clarified)[|prefix|..|prefix| + |clarified|] == clarified;
      ContainsAt(prefix + clarified, clarified, |prefix|);
      prefix + clarified
    else
      assert clarified[0..|clarified|] == clarified;
      ContainsAt(clarified, clarified, 0);
      clarified
  }

  /** The system prompt: the horizon's report-structure prompt, or the fixed one. */
  function PlanPrompt(node: PlanNode): (p: Prompt)
    ensures node.horizon == "" <==> p == DefaultReportStructurePrompt
    ensures node.horizon != "" ==>
      p.ReportStructurePrompt? && p.horizon == node.horizon && p.anglesText == AnglesText(node.angles) &&
      (p.anglesText != "" <==> node.angles.Some? && node.angles.value != [])
  {
    if node.horizon != "" then GetReportStructurePrompt(node.horizon, node.angles)
    else DefaultReportStructurePrompt
  }

  // ---------------------------------------------------------------------------
  // Reading the outline

  /** One list element made into a paragraph: the title defaults to
      "段落 <index + 1>" and the content to "". */
  function Normalize(fields: map<string, Value>, index: nat): (item: PlanItem)
    ensures "title" in fields ==> item.title == fields["title"]
    ensures "title" !in fields ==> item.title == JStr("段落 " + NatToString(index + 1))
    ensures "content" in fields ==> item.content == fields["content"]
    ensures "content" !in fields ==> item.content == JStr("")
  {
    PlanItem(Get(fields, "title", JStr("段落 " + NatToString(index + 1))), Get(fields, "content", JStr("")))
  }

  /** The validation loop over a list: every dict element becomes a paragraph,
      in order; every other element is skipped. There is at most one paragraph
      per element, and exactly one when every element is a dict. */
  function ValidatedPlan(items: seq<Value>): (plan: seq<PlanItem>)
    ensures |plan| <= |items|
    ensures (forall i :: 0 <= i < |items| ==> items[i].JObj?) ==> |plan| == |items|
    decreases |items|
  {
    if items == [] then []
    else
      var i := |items| - 1;
      ValidatedPlan(items[..i]) + (if items[i].JObj? then [Normalize(items[i].fields, i)] else [])
  }

  /** The positions of the dict elements, in increasing order. */
  function DictPositions(items: seq<Value>): seq<nat>
    decreases |items|
  {
    if items == [] then []
    else
      var i := |items| - 1;
      DictPositions(items[..i]) + (if items[i].JObj? then [i] else [])
  }

  lemma {:induction false} DictPositionsLength(items: seq<Value>)
    ensures |ValidatedPlan(items)| == |DictPositions(items)| <= |items|
    decreases |items|
  {
    if items != [] {
      DictPositionsLength(items[..|items| - 1]);
    }
  }

  lemma {:induction false} DictPositionsInRange(items: seq<Value>)
    ensures forall k :: 0 <= k < |DictPositions(items)| ==>
      DictPositions(items)[k] < |items| && items[DictPositions(items)[k]].JObj?
    decreases |items|
  {
    if items != [] {
      var front := items[..|items| - 1];
      DictPositionsInRange(front);
    }
  }

  lemma {:induction false} DictPositionsIncreasing(items: seq<Value>)
    ensures forall k, l :: 0 <= k < l < |DictPositions(items)| ==> DictPositions(items)[k] < DictPositions(items)[l]
    decreases |items|
  {
    if items != [] {
      var front := items[..|items| - 1];
      DictPositionsIncreasing(front);
      DictPositionsInRange(front);
    }
  }

  lemma {:induction false} DictPositionsComplete(items: seq<Value>)
    ensures forall i :: 0 <= i < |items| && items[i].JObj? ==> i in DictPositions(items)
    decreases |items|
  {
    if items != [] {
      var front := items[..|items| - 1];
      DictPositionsComplete(front);
    }
  }

  lemma {:induction false} ValidatedPlanAt(items: seq<Value>)
    ensures |ValidatedPlan(items)| == |DictPositions(items)|
    ensures forall k :: 0 <= k < |DictPositions(items)| ==>
      (DictPositions(items)[k] < |items| && items[DictPositions(items)[k]].JObj? &&
       ValidatedPlan(items)[k] == Normalize(items[DictPositions(items)[k]].fields, DictPositions(items)[k]))
    decreases |items|
  {
    DictPositionsLength(items);
    DictPositionsInRange(items);
    if items != [] {
      var front := items[..|items| - 1];
      ValidatedPlanAt(front);
      DictPositionsInRange(front);
    }
  }

  /** The outline keeps exactly the dict elements, in their original order,
      each normalized with its own index. */
  lemma ValidatedPlanKeepsDicts(items: seq<Value>)
    ensures var plan, pos := ValidatedPlan(items), DictPositions(items);
      && |plan| == |pos| <= |items|
      && (forall k :: 0 <= k < |pos| ==> pos[k] < |items| && items[pos[k]].JObj?)
      && (forall k :: 0 <= k < |pos| ==> plan[k] == Normalize(items[pos[k]].fields, pos[k]))
      && (forall k, l :: 0 <= k < l < |pos| ==> pos[k] < pos[l])
      && (forall i :: 0 <= i < |items| && items[i].JObj? ==> i in pos)
  {
    DictPositionsLength(items);
    DictPositionsInRange(items);
    DictPositionsIncreasing(items);
    DictPositionsComplete(items);
    ValidatedPlanAt(items);
  }

  /** No paragraph comes out of a list without dicts, and some does otherwise. */
  lemma ValidatedPlanEmptyIff(items: seq<Value>)
    ensures ValidatedPlan(items) == [] <==> forall i :: 0 <= i < |items| ==> !items[i].JObj?
  {
    ValidatedPlanKeepsDicts(items);
  }

  /** The outline used when the reply is not a list: an overview and a
      detailed analysis, both about the query. */
  function FallbackPlan(query: string): (plan: seq<PlanItem>)
    ensures |plan| == 2
    ensures plan[0].title == JStr("概述") && plan[1].title == JStr("详细分析")
    ensures plan[0].content.JStr? && Contains(plan[0].content.s, query)
    ensures plan[1].content.JStr? && Contains(plan[1].content.s, query)
  {
    var overview := "对'" + query + "'的总体概述和背景介绍";
    var analysis := "深入分析'" + query + "'的相关内容";
    assert overview[2..2 + |query|] == query;
    ContainsAt(overview, query, 2);
    assert analysis[5..5 + |query|] == query;
    ContainsAt(analysis, query, 5);
    [PlanItem(JStr("概述"), JStr(overview)), PlanItem(JStr("详细分析"), JStr(analysis))]
  }

  /** `process_output`: it never raises. A list gives its validated outline,
      which may be empty; a parse failure or any other value gives the
      fallback outline. */
  function PlanFromReply(parsed: Parsed, query: string): (plan: seq<PlanItem>)
    ensures parsed.ParseOk? && parsed.value.JArr? ==> plan == ValidatedPlan(parsed.value.items)
    ensures parsed.ParseOk? && parsed.value.JArr? ==> |plan| <= |parsed.value.items|
    ensures parsed.ParseOk? && parsed.value.JArr? && parsed.value.items == [] ==> plan == []
    ensures !(parsed.ParseOk? && parsed.value.JArr?) ==> plan == FallbackPlan(query)
  {
    if parsed.ParseOk? && parsed.value.JArr? then
      ValidatedPlanKeepsDicts(parsed.value.items);
      ValidatedPlan(parsed.value.items)
    else FallbackPlan(query)
  }

  /** The validation loop of `process_output`. */
  method ProcessPlanOutput(parsed: Parsed, query: string) returns (plan: seq<PlanItem>)
    ensures plan == PlanFromReply(parsed, query)
  {
    if !(parsed.ParseOk? && parsed.value.JArr?) {
      return FallbackPlan(query);
    }
    var items := parsed.value.items;
    plan := [];
    for i := 0 to |items|
      invariant plan == ValidatedPlan(items[..i])
    {
      assert items[..i + 1][..i] == items[..i];
      if items[i].JObj? {
        plan := plan + [Normalize(items[i].fields, i)];
      }
    }
    assert items[..|items|] == items;
  }

  /** `run`: the outline the model's reply gives, asked with the node's prompt
      and its clarified, prefixed query. */
  function PlanOf(node: PlanNode, llm: (Prompt, Message) -> Parsed): (plan: seq<PlanItem>)
    ensures var reply := llm(PlanPrompt(node), RawText(ModelInput(node)));
      && (reply.ParseOk? && reply.value.JArr? ==> plan == ValidatedPlan(reply.value.items))
      && (!(reply.ParseOk? && reply.value.JArr?) ==> plan == FallbackPlan(node.query))
  {
    PlanFromReply(llm(PlanPrompt(node), RawText(ModelInput(node))), node.query)
  }

  /** The outline is empty exactly when the model replied with a list holding
      no dict. */
  lemma PlanEmptyIff(node: PlanNode, llm: (Prompt, Message) -> Parsed)
    ensures var reply := llm(PlanPrompt(node), RawText(ModelInput(node)));
      PlanOf(node, llm) == [] <==>
        reply.ParseOk? && reply.value.JArr? &&
        forall i :: 0 <= i < |reply.value.items| ==> !reply.value.items[i].JObj?
  {
    var reply := llm(PlanPrompt(node), RawText(ModelInput(node)));
    if reply.ParseOk? && reply.value.JArr? {
      ValidatedPlanEmptyIff(reply.value.items);
    }
  }

  method RunPlan(node: PlanNode, llm: (Prompt, Message) -> Parsed) returns (plan: seq<PlanItem>)
    ensures plan == PlanOf(node, llm)
  {
    var clarified := ClarifyVagueQuery(node.query, node.horizon);
    var prompt: Prompt;
    var input: string;
    if node.horizon != "" {
      prompt := GetReportStructurePrompt(node.horizon, node.angles);
      input := "未来" + node.horizon + "内，" + clarified;
    } else {
      prompt := DefaultReportStructurePrompt;
      input := clarified;
    }
    plan := ProcessPlanOutput(llm(prompt, RawText(input)), node.query);
  }

  // ---------------------------------------------------------------------------
  // The session state

  /** The part of the session state this node writes: the query, the report
      title and the paragraphs, each a title and a content. */
  class ReportState {
    var query: string
    var reportTitle: string
    var paragraphs: seq<PlanItem>

    constructor()
      ensures query == "" && reportTitle == "" && paragraphs == []
    {
      query := "";
      reportTitle := "";
      paragraphs := [];
    }

    /** `add_paragraph`: appends one paragraph. */
    method AddParagraph(title: Value, content: Value)
      modifies this
      ensures paragraphs == old(paragraphs) + [PlanItem(title, content)]
      ensures query == old(query) && reportTitle == old(reportTitle)
    {
      paragraphs := paragraphs + [PlanItem(title, content)];
    }
  }

  /** The report title set when the state has none. */
  function ReportTitle(query: string): (t: string)
    ensures Contains(t, query)
  {
    var t := "关于'" + query + "'的深度研究报告";
    assert t[3..3 + |query|] == query;
    ContainsAt(t, query, 3);
    t
  }

  /** `mutate_state`: a fresh state when none is given; the query set to the
      node's own query (not the clarified one); the title set only when it was
      empty; the outline appended after the paragraphs already there. */
  method MutateState(node: PlanNode, state: ReportState?, llm: (Prompt, Message) -> Parsed)
    returns (s: ReportState)
    modifies state
    ensures state != null ==> s == state
    ensures state == null ==> fresh(s)
    ensures s.query == node.query
    ensures state != null && old(state.reportTitle) != "" ==> s.reportTitle == old(state.reportTitle)
    ensures state == null || old(state.reportTitle) == "" ==> s.reportTitle == ReportTitle(node.query)
    ensures s.paragraphs == (if state == null then [] else old(state.paragraphs)) + PlanOf(node, llm)
  {
    if state == null {
      s := new ReportState();
    } else {
      s := state;
    }
    var plan := RunPlan(node, llm);
    s.query := node.query;
    if s.reportTitle == "" {
      s.reportTitle := ReportTitle(node.query);
    }
    ghost var before := s.paragraphs;
    ghost var title := s.reportTitle;
    for i := 0 to |plan|
      invariant s.paragraphs == before + plan[..i]
      invariant s.query == node.query && s.reportTitle == title
    {
      s.AddParagraph(plan[i].title, plan[i].content);
      assert plan[..i + 1] == plan[..i] + [plan[i]];
    }
    assert plan[..|plan|] == plan;
  }
}
