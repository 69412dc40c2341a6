/** The first-search and reflection nodes. The two node classes share the
    output processing, the query cleaning and the date correction, so one
    model serves both; `Kind` says which node runs, and only the first-search
    node extracts key concepts from its input. A node asks
    the model for a search query and then cleans it and corrects its dates. */
module SearchNode {
  import opened Values
  import opened Text
  import opened Horizon
  import opened Prompts

  /** A keyword to delete; `str.replace` is only modelled for a non-empty one. */
  type Pattern = p: string | p != [] witness "?"

  datatype Kind = FirstSearch | Reflection

  /** A node: which of the two it is and its time horizon ("" when none was given). */
  datatype SearchNodeConfig = SearchNodeConfig(kind: Kind, horizon: string)

  /** What `run` receives: a JSON text together with what `json.loads` makes
      of it, a dict, or anything else. */
  datatype NodeInput =
    | TextInput(text: string, parsed: Parsed)
    | DictInput(fields: map<string, Value>)
    | OtherInput

  /** The response dict `{"search_query": ..., "reasoning": ...}`. */
  datatype SearchReply = SearchReply(query: Value, reasoning: Value)

  // ---------------------------------------------------------------------------
  // Input validation

  function RequiredKeys(kind: Kind): seq<string> {
    match kind
    case FirstSearch => ["title", "content"]
    case Reflection => ["title", "content", "paragraph_latest_state"]
  }

  /** Python's `key in v`: a key of a dict, an element of a list, a substring
      of a string, and a TypeError for anything else. */
  function PyIn(key: string, v: Value): (r: Result<bool>)
    ensures r.Err? <==> !(v.JObj? || v.JArr? || v.JStr?)
    ensures r.Err? ==> r.error == TypeError
    ensures v.JObj? ==> r == Ok(key in v.fields)
    ensures v.JArr? ==> r == Ok(exists k :: 0 <= k < |v.items| && v.items[k] == JStr(key))
    ensures v.JStr? ==> r == Ok(exists i: nat :: OccursAt(v.s, key, i))
  {
    match v
    case JObj(fields) => Ok(key in fields)
    case JArr(items) => Ok(JStr(key) in items)
    case JStr(s) =>
      ContainsIff(s, key);
      Ok(Contains(s, key))
    case _ => Err(TypeError)
  }

  /** `all(k in v for k in keys)`, which stops at the first key that is absent. */
  function AllIn(keys: seq<string>, v: Value): (r: Result<bool>)
    ensures v.JObj? ==> r == Ok(forall k :: k in keys ==> k in v.fields)
    ensures r.Err? <==> keys != [] && !(v.JObj? || v.JArr? || v.JStr?)
    ensures r.Err? ==> r.error == TypeError
    decreases |keys|
  {
    if keys == [] then Ok(true)
    else
      var present :- PyIn(keys[0], v);
      if present then AllIn(keys[1..], v) else Ok(false)
  }

  /** The keys a dict needs: title and content, and for the reflection node
      also paragraph_latest_state. */
  predicate HasRequiredKeys(kind: Kind, fields: map<string, Value>) {
    && "title" in fields
    && "content" in fields
    && (kind == Reflection ==> "paragraph_latest_state" in fields)
  }

  /** `validate_input`. Only the presence of the keys is checked, not their
      values. A text that parses to a number, a boolean or null makes the
      `in` test raise a TypeError, which is not caught. */
  function ValidateInput(kind: Kind, input: NodeInput): (r: Result<bool>)
    ensures input.DictInput? ==> r == Ok(HasRequiredKeys(kind, input.fields))
    ensures input.TextInput? && input.parsed.ParseOk? && input.parsed.value.JObj? ==>
      r == Ok(HasRequiredKeys(kind, input.parsed.value.fields))
    ensures input.OtherInput? || (input.TextInput? && input.parsed.ParseFail?) ==> r == Ok(false)
    ensures r.Err? <==>
      input.TextInput? && input.parsed.ParseOk? &&
      !(input.parsed.value.JObj? || input.parsed.value.JArr? || input.parsed.value.JStr?)
    ensures r.Err? ==> r.error == TypeError
  {
    var keys := RequiredKeys(kind);
    assert "title" in keys && "content" in keys;
    assert kind == Reflection ==> "paragraph_latest_state" in keys;
    assert forall k :: k in keys ==> k == "title" || k == "content" || k == "paragraph_latest_state";
    assert kind == FirstSearch ==> forall k :: k in keys ==> k == "title" || k == "content";
    match input
    case TextInput(_, parsed) =>
      if parsed.ParseFail? then Ok(false) else AllIn(RequiredKeys(kind), parsed.value)
    case DictInput(fields) => AllIn(RequiredKeys(kind), JObj(fields))
    case OtherInput => Ok(false)
  }

  // ---------------------------------------------------------------------------
  // Reading the model's reply

  /** The reply used when no search query can be read. */
  function Fallback(kind: Kind): (r: SearchReply)
    ensures r.query.JStr? && Truthy(r.query) && r.reasoning.JStr? && Truthy(r.reasoning)
    ensures kind == FirstSearch ==> r.query == JStr("相关主题研究")
    ensures kind == Reflection ==> r.query == JStr("深度研究补充信息")
  {
    match kind
    case FirstSearch => SearchReply(JStr("相关主题研究"), JStr("由于解析失败，使用默认搜索查询"))
    case Reflection => SearchReply(JStr("深度研究补充信息"), JStr("由于解析失败，使用默认反思搜索查询"))
  }

  /** The reply is an object holding a truthy search_query. */
  predicate HasQuery(parsed: Parsed) {
    parsed.ParseOk? && parsed.value.JObj? && "search_query" in parsed.value.fields &&
    Truthy(parsed.value.fields["search_query"])
  }

  /** `process_output`: it never raises. A reply that is an object with a
      truthy search_query gives exactly that query and its reasoning ("" when
      absent); a parse failure, a reply that is not an object (whose `.get`
      raises and is caught) or a missing or falsy query gives the fallback. */
  function ProcessSearchOutput(kind: Kind, parsed: Parsed): (r: SearchReply)
    ensures Truthy(r.query)
    ensures HasQuery(parsed) ==>
      r == SearchReply(parsed.value.fields["search_query"], Get(parsed.value.fields, "reasoning", JStr("")))
    ensures !HasQuery(parsed) ==> r == Fallback(kind)
  {
    if parsed.ParseFail? || !parsed.value.JObj? then Fallback(kind)
    else
      var query := Get(parsed.value.fields, "search_query", JStr(""));
      var reasoning := Get(parsed.value.fields, "reasoning", JStr(""));
      if !Truthy(query) then Fallback(kind) else SearchReply(query, reasoning)
  }

  // ---------------------------------------------------------------------------
  // Key concepts of the input

  const KEY_CONCEPT_VAGUE: seq<Pattern> := ["未来简事", "简事", "未来", "趋势", "发展", "展望", "预测", "分析"]

  /** Deletes every occurrence of each keyword, one keyword after the other. */
  function RemoveKeywords(s: string, ks: seq<Pattern>): (r: string)
    ensures |r| <= |s|
    decreases |ks|
  {
    if ks == [] then s
    else
      ReplaceByEmptyShrinks(s, ks[0]);
      RemoveKeywords(ReplaceAll(s, ks[0], ""), ks[1..])
  }

  /** `_extract_key_concepts` on a string: an empty text is returned as it is;
      otherwise the text without its vague keywords, whitespace collapsed,
      unless that leaves fewer than 5 characters, when the text is returned
      as it is. */
  function KeyConcepts(text: string): (r: string)
    ensures text == "" ==> r == text
    ensures var c := CollapseSpaces(RemoveKeywords(text, KEY_CONCEPT_VAGUE));
      (|c| < 5 ==> r == text) && (text != "" && |c| >= 5 ==> r == c)
    ensures r != text ==> SingleSpaced(r) && 5 <= |r| <= |text|
  {
    if text == "" then text
    else
      var removed := RemoveKeywords(text, KEY_CONCEPT_VAGUE);
      var cleaned := CollapseSpaces(removed);
      StripCollapsed(removed);
      CollapseShrinks(removed);
      CollapseIdempotent(removed);
      if |Strip(cleaned)| < 5 then text else Strip(cleaned)
  }

  /** `_extract_key_concepts` on whatever the dict held: a falsy value is
      returned as it is, a string is cleaned, and anything else has no
      `replace` (AttributeError). */
  function KeyConceptsOf(v: Value): (r: Result<Value>)
    ensures !Truthy(v) ==> r == Ok(v)
    ensures r.Err? <==> Truthy(v) && !v.JStr?
    ensures r.Err? ==> r.error == AttributeError
    ensures v.JStr? ==> r == Ok(JStr(KeyConcepts(v.s)))
  {
    if !Truthy(v) then Ok(v)
    else if v.JStr? then Ok(JStr(KeyConcepts(v.s)))
    else Err(AttributeError)
  }

  /** The keyword loop of `_extract_key_concepts`. */
  method ExtractKeyConcepts(text: Value) returns (r: Result<Value>)
    ensures r == KeyConceptsOf(text)
  {
    if !Truthy(text) {
      return Ok(text);
    }
    if !text.JStr? {
      return Err(AttributeError);
    }
    var cleaned := text.s;
    for i := 0 to |KEY_CONCEPT_VAGUE|
      invariant RemoveKeywords(cleaned, KEY_CONCEPT_VAGUE[i..]) == RemoveKeywords(text.s, KEY_CONCEPT_VAGUE)
    {
      cleaned := ReplaceAll(cleaned, KEY_CONCEPT_VAGUE[i], "");
    }
    cleaned := CollapseSpaces(cleaned);
    if |Strip(cleaned)| < 5 {
      return Ok(text);
    }
    return Ok(JStr(Strip(cleaned)));
  }

  // ---------------------------------------------------------------------------
  // Cleaning the returned query

  const QUERY_VAGUE: seq<Pattern> := ["未来简事", "简事"]

  /** Deletes each keyword and then its lower-cased form, keyword after keyword. */
  function RemoveQueryKeywords(s: string, ks: seq<Pattern>): (r: string)
    ensures |r| <= |s|
    decreases |ks|
  {
    if ks == [] then s
    else
      var once := ReplaceAll(s, ks[0], "");
      ReplaceByEmptyShrinks(s, ks[0]);
      ReplaceByEmptyShrinks(once, Lower(ks[0]));
      RemoveQueryKeywords(ReplaceAll(once, Lower(ks[0]), ""), ks[1..])
  }

  /** `_clean_search_query` on a string: the query without its vague keywords,
      whitespace collapsed, or the query itself when nothing but whitespace
      is left. */
  function CleanedQuery(q: string): (r: string)
    ensures r == "" <==> q == ""
    ensures AllSpace(RemoveQueryKeywords(q, QUERY_VAGUE)) ==> r == q
    ensures !AllSpace(RemoveQueryKeywords(q, QUERY_VAGUE)) ==>
      r == CollapseSpaces(RemoveQueryKeywords(q, QUERY_VAGUE)) && SingleSpaced(r) && |r| <= |q|
  {
    var removed := RemoveQueryKeywords(q, QUERY_VAGUE);
    var cleaned := CollapseSpaces(removed);
    StripCollapsed(removed);
    CollapseEmptyIff(removed);
    CollapseShrinks(removed);
    CollapseIdempotent(removed);
    if Strip(cleaned) != "" then Strip(cleaned) else q
  }

  /** `_clean_search_query` on the reply's value: anything but a string has
      no `replace` (AttributeError). */
  function CleanedQueryOf(v: Value): (r: Result<Value>)
    ensures r.Err? <==> !v.JStr?
    ensures r.Err? ==> r.error == AttributeError
    ensures v.JStr? ==> r == Ok(JStr(CleanedQuery(v.s))) && (v.s != "" ==> Truthy(r.value))
  {
    if v.JStr? then Ok(JStr(CleanedQuery(v.s))) else Err(AttributeError)
  }

  /** The keyword loop of `_clean_search_query`. */
  method CleanSearchQuery(query: Value) returns (r: Result<Value>)
    ensures r == CleanedQueryOf(query)
  {
    if !query.JStr? {
      return Err(AttributeError);
    }
    var cleaned := query.s;
    for i := 0 to |QUERY_VAGUE|
      invariant RemoveQueryKeywords(cleaned, QUERY_VAGUE[i..]) == RemoveQueryKeywords(query.s, QUERY_VAGUE)
    {
      var keyword := QUERY_VAGUE[i];
      cleaned := ReplaceAll(ReplaceAll(cleaned, keyword, ""), Lower(keyword), "");
    }
    cleaned := CollapseSpaces(cleaned);
    r := Ok(JStr(if Strip(cleaned) != "" then Strip(cleaned) else query.s));
  }

  // ---------------------------------------------------------------------------
  // Year tokens

  /** `20\d{2}` matches at index `i` of `s` (ASCII digits). */
  predicate YearAt(s: string, i: nat) {
    i + 4 <= |s| && s[i] == '2' && s[i + 1] == '0' && IsDigit(s[i + 2]) && IsDigit(s[i + 3])
  }

  /** A match of `20\d{2}年?`. */
  predicate IsYearToken(t: string) {
    (|t| == 4 || (|t| == 5 && t[4] == '年')) && YearAt(t, 0)
  }

  type YearToken = t: string | IsYearToken(t) witness "2000"

  /** The length of the match at `i`: the optional 年 is taken when it follows. */
  function MatchLength(s: string, i: nat): nat
    requires YearAt(s, i)
  {
    if i + 4 < |s| && s[i + 4] == '年' then 5 else 4
  }

  /** `re.findall(r'20\d{2}年?', s)` from index `i` on: each match is the
      leftmost one, and the scan resumes after it. */
  function YearTokensFrom(s: string, i: nat): (tokens: seq<YearToken>)
    ensures forall k :: 0 <= k < |tokens| ==> Contains(s, tokens[k])
    decreases |s| - i
  {
    if i + 4 > |s| then []
    else if YearAt(s, i) then
      var t := TokenAt(s, i);
      ContainsAt(s, t, i);
      [t] + YearTokensFrom(s, i + MatchLength(s, i))
    else YearTokensFrom(s, i + 1)
  }

  /** The match at `i`: `20\d{2}` and the 年 that follows it, if any. */
  function TokenAt(s: string, i: nat): (t: YearToken)
    requires YearAt(s, i)
    ensures |t| == MatchLength(s, i) && t == s[i..i + MatchLength(s, i)]
  {
    var t := s[i..i + MatchLength(s, i)];
    assert IsYearToken(t) by {
      assert t[0] == s[i] && t[1] == s[i + 1] && t[2] == s[i + 2] && t[3] == s[i + 3];
    }
    t
  }

  /** `re.findall(r'20\d{2}年?', s)`: every token it returns occurs in `s`. */
  function YearTokens(s: string): (tokens: seq<YearToken>)
    ensures forall k :: 0 <= k < |tokens| ==> Contains(s, tokens[k])
  {
    YearTokensFrom(s, 0)
  }

  /** `int` of the four digits at the head of a token. */
  function YearOf(t: YearToken): (y: nat)
    ensures 2000 <= y <= 2099
    ensures y == 2000 + 10 * DigitValue(t[2]) + DigitValue(t[3])
  {
    var d := t[..4];
    assert DigitsValue(d[..1]) == 2 by { assert d[..1][..0] == []; }
    assert DigitsValue(d[..2]) == 20 by { assert d[..2][..1] == d[..1]; }
    assert DigitsValue(d[..3]) == 200 + DigitValue(d[2]) by { assert d[..3][..2] == d[..2]; }
    assert d[..3] == d[..|d| - 1];
    DigitsValue(d)
  }

  /** The scan finds nothing exactly when no `20\d{2}` occurs from `i` on. */
  lemma {:induction false} YearTokensFromEmptyIff(s: string, i: nat)
    ensures YearTokensFrom(s, i) == [] <==> forall j :: i <= j ==> !YearAt(s, j)
    decreases |s| - i
  {
    if i + 4 > |s| {
    } else if YearAt(s, i) {
    } else {
      YearTokensFromEmptyIff(s, i + 1);
    }
  }

  lemma YearTokensEmptyIff(s: string)
    ensures YearTokens(s) == [] <==> forall j :: 0 <= j ==> !YearAt(s, j)
  {
    YearTokensFromEmptyIff(s, 0);
  }

  // ---------------------------------------------------------------------------
  // The date correction

  /** The rewriting loop: each token that names a year before `current` is
      replaced, at every occurrence, by `rep`, token after token. Tokens that
      are all current or later change nothing, and replacing by a non-empty
      text keeps a non-empty query non-empty. */
  function ReplaceStale(q: string, tokens: seq<YearToken>, current: nat, rep: string): (r: string)
    ensures (forall k :: 0 <= k < |tokens| ==> YearOf(tokens[k]) >= current) ==> r == q
    ensures q != "" && rep != "" ==> r != ""
    decreases |tokens|
  {
    if tokens == [] then q
    else
      var t := tokens[0];
      ReplaceKeepsNonEmpty(q, t, rep);
      ReplaceStale(if YearOf(t) < current then ReplaceAll(q, t, rep) else q, tokens[1..], current, rep)
  }

  /** The query after `_enhance_search_query_with_date` has passed over it,
      stated on the occurrences of `20\d{2}`: with none, the target year is
      appended when a horizon is set and the query mentions neither 年 nor 月,
      and the query is kept otherwise; when every year found is current or
      later, the query is kept; a non-empty query stays non-empty. */
  function DateCorrected(q: string, current: nat, futureYear: nat, horizonSet: bool): (r: string)
    ensures (forall j :: 0 <= j ==> !YearAt(q, j)) ==>
      r == if horizonSet && !Contains(q, "年") && !Contains(q, "月") then q + " " + YearText(futureYear) else q
    ensures ((exists j :: 0 <= j && YearAt(q, j)) &&
             (forall k :: 0 <= k < |YearTokens(q)| ==> YearOf(YearTokens(q)[k]) >= current)) ==> r == q
    ensures q != "" ==> r != ""
  {
    var tokens := YearTokens(q);
    YearTokensEmptyIff(q);
    if tokens == [] then
      if horizonSet && !Contains(q, "年") && !Contains(q, "月") then q + " " + YearText(futureYear) else q
    else ReplaceStale(q, tokens, current, YearText(futureYear))
  }

  /** An occurrence of a year token is a match of `20\d{2}`. */
  lemma YearAtOfOccurrence(s: string, t: YearToken, j: nat)
    requires OccursAt(s, t, j)
    ensures YearAt(s, j)
  {
    var w := s[j..j + |t|];
    assert s[j] == w[0] && s[j + 1] == w[1] && s[j + 2] == w[2] && s[j + 3] == w[3];
  }

  /** The scan passes over indices where nothing matches. */
  lemma {:induction false} SkipNoYear(s: string, a: nat, b: nat)
    requires a <= b
    requires forall j :: a <= j < b ==> !YearAt(s, j)
    ensures YearTokensFrom(s, a) == YearTokensFrom(s, b)
    decreases b - a
  {
    if a < b && a + 4 <= |s| {
      SkipNoYear(s, a + 1, b);
    }
  }

  /** A query whose only match of `20\d{2}` is one stale year token: that
      token is rewritten to "<target year>年" and the rest of the query is
      kept. */
  lemma SingleStaleTokenRewritten(q: string, i: nat, current: nat, futureYear: nat, horizonSet: bool)
    requires YearAt(q, i)
    requires forall j :: 0 <= j < i ==> !YearAt(q, j)
    requires forall j :: i + MatchLength(q, i) <= j ==> !YearAt(q, j)
    requires YearOf(TokenAt(q, i)) < current
    ensures DateCorrected(q, current, futureYear, horizonSet) ==
      q[..i] + YearText(futureYear) + q[i + MatchLength(q, i)..]
  {
    var t, n, rep := TokenAt(q, i), MatchLength(q, i), YearText(futureYear);
    SkipNoYear(q, 0, i);
    YearTokensFromEmptyIff(q, i + n);
    assert YearTokens(q) == [t];
    assert DateCorrected(q, current, futureYear, horizonSet) == ReplaceAll(q, t, rep);
    forall j | 0 <= j < i
      ensures !OccursAt(q, t, j)
    {
      if OccursAt(q, t, j) {
        YearAtOfOccurrence(q, t, j);
      }
    }
    ReplaceLeftmost(q, t, rep, i);
    NoLaterToken(q, t, i + n);
    ReplaceAbsent(q[i + n..], t, rep);
  }

  /** No year token occurs past the last match. */
  lemma NoLaterToken(q: string, t: YearToken, from: nat)
    requires from <= |q|
    requires forall j :: from <= j ==> !YearAt(q, j)
    ensures !Contains(q[from..], t)
  {
    var rest := q[from..];
    ContainsIff(rest, t);
    forall j: nat | OccursAt(rest, t, j)
      ensures false
    {
      assert q[from + j..from + j + |t|] == rest[j..j + |t|];
      YearAtOfOccurrence(q, t, from + j);
    }
  }

  /** `_enhance_search_query_with_date` as a function of the reply: a falsy
      query leaves the reply as it is; otherwise the horizon is read (a
      ValueError when its number is not one), a query that is not a string
      fails in the regular-expression search (TypeError), and the query is
      corrected against the clock's year. Only the query changes. */
  function DatedReply(reply: SearchReply, horizon: string, now: Now): (r: Result<SearchReply>)
    ensures !Truthy(reply.query) ==> r == Ok(reply)
    ensures Truthy(reply.query) && ParseHorizon(horizon).Err? ==> r == Err(ValueError)
    ensures Truthy(reply.query) && ParseHorizon(horizon).Ok? ==> (r.Err? <==> !reply.query.JStr?)
    ensures r.Ok? ==> r.value.reasoning == reply.reasoning
    ensures r.Ok? && Truthy(reply.query) ==> r.value.query.JStr? && r.value.query.s != ""
    ensures Truthy(reply.query) && reply.query.JStr? && ParseHorizon(horizon).Ok? ==>
      r == Ok(reply.(query := JStr(DateCorrected(reply.query.s, now.year,
                                                 TargetYear(ParseHorizon(horizon).value, now), horizon != ""))))
    ensures r.Ok? && reply.query.JStr? && reply.query.s != "" && (forall j :: 0 <= j ==> !YearAt(reply.query.s, j)) ==>
      r.value.query == JStr(
        if horizon != "" && !Contains(reply.query.s, "年") && !Contains(reply.query.s, "月")
        then reply.query.s + " " + YearText(TargetYear(ParseHorizon(horizon).value, now))
        else reply.query.s)
    ensures (r.Ok? && reply.query.JStr? && (exists j :: 0 <= j && YearAt(reply.query.s, j)) &&
             (forall k :: 0 <= k < |YearTokens(reply.query.s)| ==> YearOf(YearTokens(reply.query.s)[k]) >= now.year)) ==>
      r.value.query == reply.query
  {
    if !Truthy(reply.query) then Ok(reply)
    else
      var span :- ParseHorizon(horizon);
      if !reply.query.JStr? then Err(TypeError)
      else
        Ok(reply.(query := JStr(DateCorrected(reply.query.s, now.year, TargetYear(span, now), horizon != ""))))
  }

  /** The correction loop: the target year from the month-carry loop, then the
      rewrite of each stale token and the appended year. */
  method EnhanceSearchQueryWithDate(reply: SearchReply, horizon: string, now: Now) returns (r: Result<SearchReply>)
    ensures r == DatedReply(reply, horizon, now)
  {
    if !Truthy(reply.query) {
      return Ok(reply);
    }
    var span :- ParseHorizon(horizon);
    var futureYear: nat;
    match span {
      case Months(n) =>
        var month;
        futureYear, month := CarryMonths(now, n);
      case Years(n) =>
        futureYear := now.year + n;
      case Unspecified =>
        futureYear := now.year + 1;
    }
    assert futureYear == TargetYear(span, now);
    if !reply.query.JStr? {
      return Err(TypeError);
    }
    var query := reply.query.s;
    var tokens := YearTokens(query);
    var rep := YearText(futureYear);
    for i := 0 to |tokens|
      invariant ReplaceStale(query, tokens[i..], now.year, rep) == ReplaceStale(reply.query.s, tokens, now.year, rep)
    {
      if YearOf(tokens[i]) < now.year {
        query := ReplaceAll(query, tokens[i], rep);
      }
    }
    if tokens == [] && horizon != "" && !Contains(query, "年") && !Contains(query, "月") {
      query := query + " " + rep;
    }
    r := Ok(reply.(query := JStr(query)));
  }

  // ---------------------------------------------------------------------------
  // The node's run

  /** The cleaning step of `run`: only a truthy query is cleaned, a truthy
      query that is not a string has no `replace` (AttributeError), and a
      cleaned query stays truthy. */
  function CleanedReply(reply: SearchReply): (r: Result<SearchReply>)
    ensures !Truthy(reply.query) ==> r == Ok(reply)
    ensures Truthy(reply.query) && !reply.query.JStr? ==> r == Err(AttributeError)
    ensures reply.query.JStr? && reply.query.s != "" ==>
      r == Ok(reply.(query := JStr(CleanedQuery(reply.query.s)))) && Truthy(r.value.query)
  {
    if Truthy(reply.query) then
      var query :- CleanedQueryOf(reply.query);
      Ok(reply.(query := query))
    else Ok(reply)
  }

  /** What `run` does after `process_output`: the query is cleaned first and
      only then, when the node has a horizon, date-corrected. */
  function PostProcess(node: SearchNodeConfig, reply: SearchReply, now: Now): (r: Result<SearchReply>)
    ensures Truthy(reply.query) && !reply.query.JStr? ==> r == Err(AttributeError)
    ensures r.Ok? ==> r.value.reasoning == reply.reasoning
    ensures r.Ok? && Truthy(reply.query) ==> r.value.query.JStr? && r.value.query.s != ""
    ensures node.horizon == "" && reply.query.JStr? ==>
      r == Ok(reply.(query := JStr(CleanedQuery(reply.query.s))))
    ensures node.horizon != "" && reply.query.JStr? && reply.query.s != "" ==>
      r == (var span :- ParseHorizon(node.horizon);
            Ok(reply.(query := JStr(DateCorrected(CleanedQuery(reply.query.s), now.year, TargetYear(span, now), true)))))
  {
    var cleaned :- CleanedReply(reply);
    if node.horizon != "" && Truthy(cleaned.query) then DatedReply(cleaned, node.horizon, now) else Ok(cleaned)
  }

  /** The message sent to the model: a text input as it is, a dict as JSON;
      the first-search node sends only the key concepts of its title and
      content. */
  function MessageOf(kind: Kind, input: NodeInput): (r: Result<Message>)
    requires !input.OtherInput?
    ensures input.TextInput? ==> r == Ok(RawText(input.text))
    ensures input.DictInput? && kind == Reflection ==> r == Ok(JsonMessage(JObj(input.fields)))
    ensures input.DictInput? && kind == FirstSearch && r.Ok? ==>
      r.value.JsonMessage? && r.value.doc.JObj? && r.value.doc.fields.Keys == {"title", "content"}
    ensures input.DictInput? && kind == FirstSearch ==>
      var title, content := Get(input.fields, "title", JStr("")), Get(input.fields, "content", JStr(""));
      && (r.Err? <==> (Truthy(title) && !title.JStr?) || (Truthy(content) && !content.JStr?))
      && (r.Err? ==> r.error == AttributeError)
      && (r.Ok? ==> r.value.doc.fields["title"] == KeyConceptsOf(title).value
                    && r.value.doc.fields["content"] == KeyConceptsOf(content).value)
  {
    match input
    case TextInput(text, _) => Ok(RawText(text))
    case DictInput(fields) =>
      if kind == Reflection then Ok(JsonMessage(JObj(fields)))
      else
        var title :- KeyConceptsOf(Get(fields, "title", JStr("")));
        var content :- KeyConceptsOf(Get(fields, "content", JStr("")));
        Ok(JsonMessage(JObj(map["title" := title, "content" := content])))
  }

  /** The system prompt: the fixed one without a horizon, otherwise the one
      built from the horizon, today's date and the target date; the
      reflection node also passes its round number. */
  function SearchPromptOf(node: SearchNodeConfig, now: Now, iteration: int): (r: Result<Prompt>)
    ensures node.horizon == "" ==> r.Ok? && (r.value.DefaultFirstSearchPrompt? <==> node.kind == FirstSearch)
    ensures node.horizon == "" && node.kind == Reflection ==> r == Ok(DefaultReflectionPrompt)
    ensures node.horizon != "" ==> (r.Ok? <==> ParseHorizon(node.horizon).Ok?)
    ensures r.Err? ==> r.error == ValueError
    ensures r.Ok? && node.horizon != "" && node.kind == FirstSearch ==>
      r.value == FirstSearchPrompt(node.horizon, CurrentDateText(now), TargetDateText(ParseHorizon(node.horizon).value, now))
    ensures r.Ok? && node.horizon != "" && node.kind == Reflection ==>
      r.value.ReflectionPrompt? && r.value.horizon == node.horizon && r.value.currentDate == CurrentDateText(now) &&
      r.value.targetDate == TargetDateText(ParseHorizon(node.horizon).value, now) &&
      r.value.focus == ReflectionFocus(iteration) &&
      (r.value.focus == OMISSION_FOCUS <==> iteration == 0)
  {
    if node.horizon == "" then
      Ok(if node.kind == FirstSearch then DefaultFirstSearchPrompt else DefaultReflectionPrompt)
    else
      var span :- ParseHorizon(node.horizon);
      var date := CurrentDateText(now);
      var target := TargetDateText(span, now);
      Ok(if node.kind == FirstSearch then FirstSearchPrompt(node.horizon, date, target)
         else ReflectionPrompt(node.horizon, date, target, ReflectionFocus(iteration)))
  }

  /** `run`: validate, build the message and the prompt, ask the model, read
      its reply, clean the query and correct its dates. */
  function SearchRun(node: SearchNodeConfig, input: NodeInput, now: Now, iteration: int,
                     llm: (Prompt, Message) -> Parsed): (r: Result<SearchReply>)
    ensures ValidateInput(node.kind, input) == Ok(false) ==> r == Err(ValueError)
    ensures ValidateInput(node.kind, input).Err? ==> r == Err(TypeError)
    ensures ValidateInput(node.kind, input) == Ok(true) ==>
      var m, p := MessageOf(node.kind, input), SearchPromptOf(node, now, iteration);
      r == if m.Err? then Err(m.error) else if p.Err? then Err(p.error)
           else PostProcess(node, ProcessSearchOutput(node.kind, llm(p.value, m.value)), now)
    ensures r.Ok? ==> r.value.query.JStr? && r.value.query.s != ""
  {
    var valid :- ValidateInput(node.kind, input);
    if !valid then Err(ValueError)
    else
      var message :- MessageOf(node.kind, input);
      var prompt :- SearchPromptOf(node, now, iteration);
      PostProcess(node, ProcessSearchOutput(node.kind, llm(prompt, message)), now)
  }

  method Run(node: SearchNodeConfig, input: NodeInput, now: Now, iteration: int,
             llm: (Prompt, Message) -> Parsed) returns (r: Result<SearchReply>)
    ensures r == SearchRun(node, input, now, iteration, llm)
  {
    var valid :- ValidateInput(node.kind, input);
    if !valid {
      return Err(ValueError);
    }
    var message: Message;
    if input.TextInput? {
      message := RawText(input.text);
    } else if node.kind == Reflection {
      message := JsonMessage(JObj(input.fields));
    } else {
      var title :- ExtractKeyConcepts(Get(input.fields, "title", JStr("")));
      var content :- ExtractKeyConcepts(Get(input.fields, "content", JStr("")));
      message := JsonMessage(JObj(map["title" := title, "content" := content]));
    }
    var prompt: Prompt;
    if node.horizon == "" {
      prompt := if node.kind == FirstSearch then DefaultFirstSearchPrompt else DefaultReflectionPrompt;
    } else if node.kind == FirstSearch {
      prompt :- GetFirstSearchPrompt(node.horizon, Some(CurrentDateText(now)), now);
    } else {
      prompt :- GetReflectionPrompt(node.horizon, Some(CurrentDateText(now)), iteration, now);
    }
    var reply := ProcessSearchOutput(node.kind, llm(prompt, message));
    if Truthy(reply.query) {
      var query :- CleanSearchQuery(reply.query);
      reply := reply.(query := query);
    }
    if node.horizon != "" && Truthy(reply.query) {
      r := EnhanceSearchQueryWithDate(reply, node.horizon, now);
    } else {
      r := Ok(reply);
    }
  }

  // ---------------------------------------------------------------------------
  // Worked cases

  /** A single word without "简事" (and so without "未来简事") is left alone
      by the query cleaning. */
  lemma CleanedPlainQuery(w: string)
    requires IsWord(w)
    requires !Contains(w, "简事")
    ensures CleanedQuery(w) == w
  {
    var k1, k2 := "未来简事", "简事";
    assert QUERY_VAGUE == [k1, k2] && QUERY_VAGUE[1..] == [k2];
    assert !Contains(w, k1) by {
      assert k1[2..4] == k2;
      ContainsAt(k1, k2, 2);
      if Contains(w, k1) {
        ContainsTrans(w, k1, k2);
      }
    }
    LowerMatch(k1, k1);
    LowerMatch(k2, k2);
    ReplaceAbsent(w, k1, "");
    ReplaceAbsent(w, k2, "");
    assert RemoveQueryKeywords(w, QUERY_VAGUE) == w;
    CollapseWord(w);
  }

  /** A query with no digit, no 年 and no 月 gets " <target year>年"
      appended when a horizon is set. */
  lemma UndatedQueryGetsYear(q: string, current: nat, futureYear: nat)
    requires forall i :: 0 <= i < |q| ==> !IsDigit(q[i]) && q[i] != '年' && q[i] != '月'
    ensures DateCorrected(q, current, futureYear, true) == q + " " + YearText(futureYear)
  {
    NotContainsWithoutHead(q, "年");
    NotContainsWithoutHead(q, "月");
  }

  /** The fallback query is dated like any other: in 2025, with horizon "1年",
      it becomes "相关主题研究 2026年". */
  lemma FallbackQueryIsDated()
    ensures PostProcess(SearchNodeConfig(FirstSearch, "1年"), Fallback(FirstSearch), Date(2025, 6, 1)) ==
      Ok(SearchReply(JStr("相关主题研究 2026年"), Fallback(FirstSearch).reasoning))
  {
    FallbackQueryKept();
    FallbackQueryGetsYear();
  }

  lemma FallbackQueryKept()
    ensures CleanedReply(Fallback(FirstSearch)) == Ok(Fallback(FirstSearch))
  {
    var w := "相关主题研究";
    assert forall i :: 0 <= i < |w| ==> !IsSpace(w[i]) && w[i] != '简';
    NotContainsWithoutHead(w, "简事");
    CleanedPlainQuery(w);
  }

  lemma FallbackQueryGetsYear()
    ensures DatedReply(Fallback(FirstSearch), "1年", Date(2025, 6, 1)) ==
      Ok(SearchReply(JStr("相关主题研究 2026年"), Fallback(FirstSearch).reasoning))
  {
    OneYearHorizon();
    assert TargetYear(Years(1), Date(2025, 6, 1)) == 2026;
    FallbackWordGetsYear();
  }

  lemma OneYearHorizon()
    ensures ParseHorizon("1年") == Ok(Years(1))
  {
    assert NatToString(1) == "1";
    HorizonRoundTrip(1);
  }

  lemma FallbackWordGetsYear()
    ensures DateCorrected("相关主题研究", 2025, 2026, true) == "相关主题研究 2026年"
  {
    FallbackWordUndated();
    YearText2026();
    UndatedQueryGetsYear("相关主题研究", 2025, 2026);
  }

  lemma FallbackWordUndated()
    ensures var w := "相关主题研究";
      forall i :: 0 <= i < |w| ==> !IsDigit(w[i]) && w[i] != '年' && w[i] != '月'
  {
  }

  lemma YearText2026()
    ensures YearText(2026) == "2026年"
  {
    assert NatToString(2026) == "2026";
  }

  /** A stale year is rewritten to the target year: in 2025, with target
      year 2026, "2023年 人工智能" becomes "2026年 人工智能". */
  lemma StaleYearRewritten()
    ensures DateCorrected("2023年 人工智能", 2025, 2026, true) == "2026年 人工智能"
  {
    var q := "2023年 人工智能";
    var t: YearToken := "2023年";
    assert YearAt(q, 0) && MatchLength(q, 0) == 5 && q[0..5] == t;
    assert forall j :: 5 <= j < |q| ==> q[j] != '2';
    YearTokensFromEmptyIff(q, 5);
    assert YearTokens(q) == [t];
    assert YearOf(t) == 2023;
    assert NatToString(2026) == "2026";
    assert YearText(2026) == "2026年";
    assert DateCorrected(q, 2025, 2026, true) == ReplaceStale(q, [t], 2025, "2026年");
    assert ReplaceStale(q, [t], 2025, "2026年") == ReplaceAll(q, t, "2026年");
    ReplaceLeftmost(q, t, "2026年", 0);
    NotContainsWithoutHead(q[5..], t);
    ReplaceAbsent(q[5..], t, "2026年");
    assert ReplaceAll(q, t, "2026年") == "2026年" + q[5..];
  }

  /** A bare stale year followed later by the same year written with 年: the
      first rewrite also turns the second into "<target>年年", and the second
      token is then no longer found. */
  lemma BareYearBeforeSuffixedYear()
    ensures DateCorrected("2023和2023年", 2025, 2026, true) == "2026年和2026年年"
  {
    var q, once := "2023和2023年", "2026年和2026年年";
    var t1: YearToken, t2: YearToken, rep := "2023", "2023年", "2026年";
    TokensOfRepeatedYear();
    assert YearText(2026) == rep by {
      assert NatToString(2026) == "2026";
    }
    RewriteOfBareYear();
    SuffixedYearGone();
    ReplaceAbsent(once, t2, rep);
    assert DateCorrected(q, 2025, 2026, true) == ReplaceStale(q, [t1, t2], 2025, rep);
  }

  lemma SuffixedYearGone()
    ensures !Contains("2026年和2026年年", "2023年")
  {
    var once, t2 := "2026年和2026年年", "2023年";
    assert forall k :: 0 <= k < |once| ==> once[k] != t2[3];
    NotContainsWithout(once, t2, 3);
  }

  lemma TokensOfRepeatedYear()
    ensures YearTokens("2023和2023年") == ["2023", "2023年"]
    ensures YearOf("2023") == 2023 && YearOf("2023年") == 2023
  {
    var q := "2023和2023年";
    assert YearAt(q, 0) && MatchLength(q, 0) == 4 && q[0..4] == "2023";
    assert !YearAt(q, 4);
    assert YearAt(q, 5) && MatchLength(q, 5) == 5 && q[5..10] == "2023年";
    YearTokensFromEmptyIff(q, 10);
  }

  lemma RewriteOfBareYear()
    ensures ReplaceAll("2023和2023年", "2023", "2026年") == "2026年和2026年年"
  {
    var q, t1, rep := "2023和2023年", "2023", "2026年";
    ReplaceLeftmost(q, t1, rep, 0);
    var rest := q[4..];
    assert rest == "和2023年";
    assert OccursAt(rest, t1, 1) && !OccursAt(rest, t1, 0);
    ReplaceLeftmost(rest, t1, rep, 1);
    assert rest[5..] == "年";
    assert ReplaceAll(rest[5..], t1, rep) == "年";
  }
}
