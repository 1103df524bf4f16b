/**
 * `generateSmartSQL` and `generateSQL` of lib/gemini.ts: the prompt goes to the
 * language model, the reply is read as JSON, and the query in it is cleaned
 * and checked; every failure on the way lands on the canned fallback query.
 *
 * The model call and `JSON.parse` are not part of this model: they are the
 * parameters `model` and `parse`. A thrown error is `Err`; the only error
 * that leaves `generateSmartSQL` is the fallback's own.
 */
module SmartSql {
  import opened Wrappers
  import opened Text
  import opened Js
  import opened SqlGuard
  import opened ChartClassifier
  import opened SchemaPrompt
  import Fallback

  /** What the model call gives back: the reply text, or a thrown error. */
  datatype ModelReply = ModelFailed | Reply(text: string)

  /** The query of a response: text taken from the reply, or a fallback template. */
  datatype Query = FromText(sql: string) | Canned(template: Fallback.Template)

  function QueryText(q: Query): string {
    match q
    case FromText(sql) => sql
    case Canned(t) => Fallback.TemplateSql(t)
  }

  /** The fallback of `generateFallbackQuery`, as the template it picks. */
  function FallbackFor(question: string, schemas: seq<TableSchema>): (r: Result<Fallback.Template, Fallback.FallbackError>)
    ensures r.Ok? <==> Fallback.GenerateFallbackQuery(question, schemas).Ok?
    ensures r.Ok? ==> Fallback.GenerateFallbackQuery(question, schemas).value == Fallback.TemplateSql(r.value)
  {
    Fallback.ChooseFallback(Lower(question), TableNames(schemas))
  }

  /** The object `generateSmartSQL` resolves to. The message and the insights
      say where their text comes from; `NoteValue` and `InsightValue` give it. */
  datatype SmartResponse = SmartResponse(
    sqlQuery: Query,
    chartType: ChartType,
    responseMessage: Note,
    insights: seq<Insight>)

  // ------------------------------------------------------------ the reply text

  /** The reply trimmed, with every "```json" and then every "```" removed
      (ASCII case ignored, each with one line feed after it), and trimmed again. */
  function StripReplyFences(text: string): (t: string)
    ensures IsTrimmed(t)
  {
    var u := RemoveAllCI(RemoveAllCI(Trim(text), "```json"), "```");
    TrimSpec(u);
    Trim(u)
  }

  /** A reply fenced as a ```json block loses both fences and nothing else. */
  lemma StripReplyFencesOfFenced(q: string)
    requires IsTrimmed(q)
    requires forall i | 0 <= i < |q| :: !ContainsAt(q, "```", i)
    ensures StripReplyFences("```json\n" + q + "\n```") == q
  {
    assert "```" + "json" + "\n" == "```json\n";
    assert "```" + "json" == "```json";
    TrimFenced(q, "json");
    RemoveFencePair(q, "json");
  }

  /** The first position at or after `i` where "select" starts, ASCII case
      ignored, or `|t|` when there is none. */
  function FirstSelect(t: string, i: nat): (k: nat)
    requires i <= |t|
    ensures i <= k <= |t|
    ensures k < |t| ==> ContainsAtCI(t, "select", k)
    ensures forall m | i <= m < k :: !ContainsAtCI(t, "select", m)
    decreases |t| - i
  {
    if i == |t| || ContainsAtCI(t, "select", i) then i else FirstSelect(t, i + 1)
  }

  /** The first position at or after `j` where a blank line ("\n\n") starts, or `|t|`. */
  function BlankLineAt(t: string, j: nat): (e: nat)
    requires j <= |t|
    ensures j <= e <= |t|
    ensures e == |t| || ContainsAt(t, "\n\n", e)
    ensures forall m | j <= m < e :: !ContainsAt(t, "\n\n", m)
    decreases |t| - j
  {
    if j == |t| || ContainsAt(t, "\n\n", j) then j else BlankLineAt(t, j + 1)
  }

  /** `t.match(/SELECT[\s\S]*?(?=\n\n|$)/i)`, trimmed, or "" without a match: the
      text from the first "select" to the nearest blank line after it, or to the end. */
  function ExtractSelect(t: string): (r: string)
    ensures r == "" <==> forall m | 0 <= m < |t| :: !ContainsAtCI(t, "select", m)
    ensures r != "" ==> ContainsAtCI(r, "select", 0) && IsTrimmed(r)
    ensures r != "" ==> ContainsAt(t, r, FirstSelect(t, 0))
    ensures r != "" ==> forall m | 0 <= m < |r| :: !ContainsAt(r, "\n\n", m)
    ensures r != "" ==> var i := FirstSelect(t, 0);
      forall m | i + |r| <= m < BlankLineAt(t, i + 6) :: IsSpace(t[m])
  {
    var i := FirstSelect(t, 0);
    if i == |t| then ""
    else
      var e := BlankLineAt(t, i + 6);
      CutFacts(t, i, e);
      Trim(t[i..e])
  }

  /** The cut from a "select" at `i` to `e` keeps that "select" in front, and
      trimming it drops only whitespace at the end. */
  lemma CutFacts(t: string, i: nat, e: nat)
    requires ContainsAtCI(t, "select", i) && i + 6 <= e <= |t|
    requires forall m | i + 6 <= m < e :: !ContainsAt(t, "\n\n", m)
    ensures var r := Trim(t[i..e]);
      6 <= |r| && ContainsAt(t, r, i) && ContainsAtCI(r, "select", 0) && IsTrimmed(r)
      && (forall m | 0 <= m < |r| :: !ContainsAt(r, "\n\n", m))
      && forall m | i + |r| <= m < e :: IsSpace(t[m])
  {
    var u := t[i..e];
    assert Lower(t[i..i + 6])[0] == AsciiLower(u[0]);
    assert Lower(t[i..i + 6])[5] == AsciiLower(u[5]);
    TrimKeepsPrefix(u, 6);
    var r := Trim(u);
    assert r == u[..|r|] == t[i..i + |r|];
    assert r[..6] == t[i..i + 6];
    CutHasNoBlankLine(t, i, e, r);
    forall m | i + |r| <= m < e
      ensures IsSpace(t[m])
    {
      assert t[m] == u[m - i];
    }
  }

  /** A prefix of length at least six of the text from a "select", ending
      before the cut, has no blank line. */
  lemma CutHasNoBlankLine(t: string, i: nat, e: nat, r: string)
    requires ContainsAtCI(t, "select", i) && 6 <= |r| && i + |r| <= e <= |t|
    requires r == t[i..i + |r|]
    requires forall m | i + 6 <= m < e :: !ContainsAt(t, "\n\n", m)
    ensures forall m | 0 <= m < |r| :: !ContainsAt(r, "\n\n", m)
  {
    forall m | 0 <= m < |r|
      ensures !ContainsAt(r, "\n\n", m)
    {
      if m < 6 {
        assert r[m] == t[i + m];
        assert Lower(t[i..i + 6])[m] == AsciiLower(r[m]) == "select"[m];
        assert "select"[m] != '\n' by {
          assert m == 0 || m == 1 || m == 2 || m == 3 || m == 4 || m == 5;
        }
        assert r[m] != '\n';
      } else if m + 2 <= |r| {
        assert t[i + m] == r[m] && t[i + m + 1] == r[m + 1];
        assert !ContainsAt(t, "\n\n", i + m);
        assert r[m..m + 2] == t[i + m..i + m + 2];
      }
    }
  }

  // ----------------------------------------------------------- fixed wording

  /** The response message: the reply's own, or one of the fixed sentences about
      the question. */
  datatype Note =
    | FromReply(value: JsValue)
    | ParseFailureNote(question: string)
    | DefaultNote(question: string)
    | CatchNote(question: string)

  /** One insight: the reply's own, or one of the fixed lines. */
  datatype Insight =
    | ReplyInsight(value: JsValue)
    | AnalysisCompleted(question: string)
    | UsingTables(tables: string)
    | TablesAnalyzed(tables: string)
    | FallbackGenerated
    | QuestionAnalyzed(question: string)
    | SourcesUsed

  /** The message as the value the response holds. */
  function NoteValue(n: Note): JsValue {
    match n
    case FromReply(v) => v
    case ParseFailureNote(q) => Str("I've analyzed your question \"" + q + "\" and generated a query based on your available data.")
    case DefaultNote(q) => Str("Here's the analysis for your question: \"" + q + "\"")
    case CatchNote(q) => Str("I've generated an analysis for your question: \"" + q + "\". The results should help provide the insights you're looking for.")
  }

  /** The insight as the value the response holds. */
  function InsightValue(i: Insight): JsValue {
    match i
    case ReplyInsight(v) => v
    case AnalysisCompleted(q) => Str("Analysis completed for: " + q)
    case UsingTables(t) => Str("Using available tables: " + t)
    case TablesAnalyzed(t) => Str("Tables analyzed: " + t)
    case FallbackGenerated => Str("Fallback query generated")
    case QuestionAnalyzed(q) => Str("Question analyzed: " + q)
    case SourcesUsed => Str("Available data sources used")
  }

  /** The insights as the array the response holds. */
  function InsightValues(ins: seq<Insight>): (vs: seq<JsValue>)
    ensures |vs| == |ins|
    ensures forall k :: 0 <= k < |ins| ==> vs[k] == InsightValue(ins[k])
  {
    seq(|ins|, k requires 0 <= k < |ins| => InsightValue(ins[k]))
  }

  // ------------------------------------------------------------------- paths

  /** What every way through `generateSmartSQL` may use that does not depend on
      the reply: the question, the table list, the chart type the question
      suggests and the fallback. */
  datatype Context = Context(
    question: string,
    tables: string,
    detected: ChartType,
    fallback: Result<Fallback.Template, Fallback.FallbackError>)

  function ContextFor(question: string, schemas: seq<TableSchema>): Context {
    Context(question, AvailableTables(schemas), DetectChartType(question), FallbackFor(question, schemas))
  }

  /** The `catch` block: the fallback query, the chart the question suggests and
      the fixed wording; the fallback's error propagates. */
  function CatchResponse(c: Context): (r: Result<SmartResponse, Fallback.FallbackError>)
    ensures r.Err? <==> c.fallback.Err?
    ensures r.Ok? ==> r.value.sqlQuery == Canned(c.fallback.value) && r.value.chartType == c.detected
                      && |r.value.insights| == 3
  {
    match c.fallback
    case Ok(t) => Ok(SmartResponse(Canned(t), c.detected, CatchNote(c.question),
                                   [FallbackGenerated, QuestionAnalyzed(c.question), SourcesUsed]))
    case Err(e) => Err(e)
  }

  /** The reply is not JSON: the query is cut out of the text, or else the fallback
      is used. A fallback that throws here throws again in the `catch` block. */
  function ParseFailureResponse(c: Context, t: string): (r: Result<SmartResponse, Fallback.FallbackError>)
    ensures r.Err? ==> c.fallback.Err?
    ensures ExtractSelect(t) != "" ==> r.Ok? && r.value.sqlQuery == FromText(ExtractSelect(t))
    ensures ExtractSelect(t) == "" && r.Ok? ==> r.value.sqlQuery.Canned? && c.fallback == Ok(r.value.sqlQuery.template)
    ensures r.Ok? ==> r.value.chartType == c.detected && |r.value.insights| <= 3
  {
    var sql := ExtractSelect(t);
    var message := ParseFailureNote(c.question);
    var insights := [AnalysisCompleted(c.question), UsingTables(c.tables)];
    if sql != "" then Ok(SmartResponse(FromText(sql), c.detected, message, insights))
    else match c.fallback
      case Ok(f) => Ok(SmartResponse(Canned(f), c.detected, message, insights))
      case Err(_) => CatchResponse(c)
  }

  /** `cleanSQLQuery(parsed.sqlQuery || '')`, or `None` when it throws: a falsy
      value becomes "", a string is cleaned, and any other value has no `replace`. */
  function ReplySql(v: JsValue): (r: Option<string>)
    ensures !Truthy(v) ==> r == Some("")
    ensures v.Str? && v.s != "" ==> (r.Some? <==> CleanSql(v.s).Ok?)
    ensures v.Str? && r.Some? ==> CleanSql(v.s) == Ok(r.value)
    ensures Truthy(v) && !v.Str? ==> r.None?
    ensures r.Some? ==> r.value == "" || IsSafeSelect(r.value)
  {
    if !Truthy(v) then Some("")
    else if v.Str? then
      match CleanSql(v.s)
      case Ok(q) => Some(q)
      case Err(_) => None
    else None
  }

  /** The chart type of the reply when it is one of the four names, else the
      one the question suggests. */
  function ReplyChart(v: JsValue, detected: ChartType): (c: ChartType)
    ensures v.Str? && ChartFromName(v.s).Some? ==> ChartName(c) == v.s
    ensures !(v.Str? && ChartFromName(v.s).Some?) ==> c == detected
  {
    if v.Str? && ChartFromName(v.s).Some? then ChartFromName(v.s).value else detected
  }

  /** At most four insights of the reply when it holds an array, else the defaults. */
  function ReplyInsights(v: JsValue, c: Context): (r: seq<Insight>)
    ensures |r| <= 4
    ensures v.Arr? ==> |r| == (if |v.elems| < 4 then |v.elems| else 4)
                       && forall k :: 0 <= k < |r| ==> r[k] == ReplyInsight(v.elems[k])
    ensures !v.Arr? ==> r == [AnalysisCompleted(c.question), TablesAnalyzed(c.tables)]
  {
    if v.Arr? then
      var n := if |v.elems| < 4 then |v.elems| else 4;
      seq(n, k requires 0 <= k < n => ReplyInsight(v.elems[k]))
    else [AnalysisCompleted(c.question), TablesAnalyzed(c.tables)]
  }

  /** The message of the reply when it is truthy, else the default sentence. */
  function ReplyNote(v: JsValue, c: Context): (n: Note)
    ensures Truthy(v) ==> n == FromReply(v)
    ensures !Truthy(v) ==> n == DefaultNote(c.question)
  {
    if Truthy(v) then FromReply(v) else DefaultNote(c.question)
  }

  /** The reply parsed: its fields are read; reading a field of `null`, or a query
      that the cleaning rejects, ends in the `catch` block. */
  function JsonResponse(c: Context, parsed: JsValue): (r: Result<SmartResponse, Fallback.FallbackError>)
    ensures r.Err? ==> c.fallback.Err?
    ensures r.Ok? ==> |r.value.insights| <= 4
    ensures r.Ok? ==> (r.value.sqlQuery.FromText? && (r.value.sqlQuery.sql == "" || IsSafeSelect(r.value.sqlQuery.sql)))
                      || (r.value.sqlQuery.Canned? && c.fallback == Ok(r.value.sqlQuery.template))
  {
    match Prop(parsed, "sqlQuery")
    case None => CatchResponse(c)
    case Some(v) =>
      match ReplySql(v)
      case None => CatchResponse(c)
      case Some(sql) =>
        Ok(SmartResponse(
          FromText(sql),
          ReplyChart(Prop(parsed, "chartType").value, c.detected),
          ReplyNote(Prop(parsed, "responseMessage").value, c),
          ReplyInsights(Prop(parsed, "insights").value, c)))
  }

  /** What `generateSmartSQL` makes of the model's reply. */
  function RespondTo(c: Context, reply: ModelReply, parse: string -> Option<JsValue>): (r: Result<SmartResponse, Fallback.FallbackError>)
    ensures r.Err? ==> c.fallback.Err?
    ensures r.Ok? ==> |r.value.insights| <= 4
    ensures r.Ok? ==>
      (r.value.sqlQuery.Canned? && c.fallback == Ok(r.value.sqlQuery.template))
      || (r.value.sqlQuery.FromText? && (r.value.sqlQuery.sql == "" || IsSafeSelect(r.value.sqlQuery.sql)))
      || (r.value.sqlQuery.FromText? && CutFromText(reply, parse, r.value.sqlQuery.sql)
          && ContainsAtCI(r.value.sqlQuery.sql, "select", 0) && IsTrimmed(r.value.sqlQuery.sql))
  {
    match reply
    case ModelFailed => CatchResponse(c)
    case Reply(text) =>
      var t := StripReplyFences(text);
      match parse(t)
      case None => ParseFailureResponse(c, t)
      case Some(parsed) => JsonResponse(c, parsed)
  }

  /** `generateSmartSQL(question, schemas)`, given what the model replies to each
      prompt and what `JSON.parse` makes of each text (`None` when it throws). */
  function GenerateSmartSql(ins: Instructions, question: string, schemas: seq<TableSchema>,
                            stringify: seq<Row> -> string, model: string -> ModelReply,
                            parse: string -> Option<JsValue>): (r: Result<SmartResponse, Fallback.FallbackError>)
    ensures r.Err? ==> Fallback.GenerateFallbackQuery(question, schemas).Err?
    ensures r.Err? ==> var names := TableNames(schemas);
      "orders" !in names && "users" !in names && "products" !in names && (|names| == 0 || names[0] == "")
  {
    RespondTo(ContextFor(question, schemas), model(Prompt(ins, question, schemas, stringify)), parse)
  }

  /** `generateSQL`: the query of `generateSmartSQL`'s response. */
  function GenerateSql(ins: Instructions, question: string, schemas: seq<TableSchema>,
                       stringify: seq<Row> -> string, model: string -> ModelReply,
                       parse: string -> Option<JsValue>): (r: Result<string, Fallback.FallbackError>)
    ensures r.Err? ==> Fallback.GenerateFallbackQuery(question, schemas).Err?
    ensures model(Prompt(ins, question, schemas, stringify)) == ModelFailed ==>
      r == Fallback.GenerateFallbackQuery(question, schemas)
  {
    match GenerateSmartSql(ins, question, schemas, stringify, model, parse)
    case Ok(resp) => Ok(QueryText(resp.sqlQuery))
    case Err(e) => Err(e)
  }

  // --------------------------------------------------------------- properties

  /** A JSON object whose query is accepted is answered with that query as
      cleaned, its own chart type when that is one of the four names, its own
      message when it is truthy and at most four of its insights when they are
      an array. */
  lemma JsonFieldsAreRead(c: Context, fields: seq<Field>)
    requires ReplySql(Get(fields, "sqlQuery")).Some?
    ensures var r := JsonResponse(c, Obj(fields));
      r.Ok? && r.value.sqlQuery == FromText(ReplySql(Get(fields, "sqlQuery")).value)
      && r.value.chartType == ReplyChart(Get(fields, "chartType"), c.detected)
      && r.value.responseMessage == ReplyNote(Get(fields, "responseMessage"), c)
      && r.value.insights == ReplyInsights(Get(fields, "insights"), c)
  {
    assert Prop(Obj(fields), "sqlQuery") == Some(Get(fields, "sqlQuery"));
  }

  /** A JSON reply whose query the cleaning rejects, or that is `null`, is
      answered as a failed call. */
  lemma JsonQueryRejected(c: Context, parsed: JsValue)
    requires parsed.Null? || (parsed.Obj? && Get(parsed.fields, "sqlQuery").Str?
                              && Get(parsed.fields, "sqlQuery").s != "" && CleanSql(Get(parsed.fields, "sqlQuery").s).Err?)
    ensures JsonResponse(c, parsed) == CatchResponse(c)
  {
  }

  /** The query came out of the reply text without any of the cleaning. */
  predicate CutFromText(reply: ModelReply, parse: string -> Option<JsValue>, q: string) {
    reply.Reply? && parse(StripReplyFences(reply.text)).None? && q == ExtractSelect(StripReplyFences(reply.text))
  }

  /** When the model call fails, `generateSmartSQL` answers with the fallback
      template and the chart the question suggests. */
  lemma ModelFailureUsesFallback(ins: Instructions, question: string, schemas: seq<TableSchema>,
                                 stringify: seq<Row> -> string, model: string -> ModelReply,
                                 parse: string -> Option<JsValue>)
    requires model(Prompt(ins, question, schemas, stringify)) == ModelFailed
    ensures var r := GenerateSmartSql(ins, question, schemas, stringify, model, parse);
      (r.Ok? <==> Fallback.GenerateFallbackQuery(question, schemas).Ok?)
      && (r.Ok? ==> r.value.sqlQuery == Canned(FallbackFor(question, schemas).value)
                    && r.value.chartType == DetectChartType(question))
  {
  }

  /** A trimmed reply that opens with "select" and has no blank line is taken
      whole as the query. */
  lemma ExtractWholeReply(t: string)
    requires IsTrimmed(t) && ContainsAtCI(t, "select", 0)
    requires forall m | 0 <= m < |t| :: !ContainsAt(t, "\n\n", m)
    ensures ExtractSelect(t) == t
  {
    assert FirstSelect(t, 0) == 0;
    assert BlankLineAt(t, 6) == |t|;
    assert t[0..|t|] == t;
    TrimOfTrimmed(t);
  }

  /** Such a reply, when it is not JSON, is answered with itself as the query,
      whether or not `cleanSQLQuery` would accept it. */
  lemma ParseFailureSkipsChecks(c: Context, t: string)
    requires IsTrimmed(t) && ContainsAtCI(t, "select", 0)
    requires forall m | 0 <= m < |t| :: !ContainsAt(t, "\n\n", m)
    ensures ParseFailureResponse(c, t) ==
      Ok(SmartResponse(FromText(t), c.detected, ParseFailureNote(c.question),
                       [AnalysisCompleted(c.question), UsingTables(c.tables)]))
  {
    ExtractWholeReply(t);
  }

  /** "select drop" is a reply of that shape. */
  lemma SelectDropIsWholeReply()
    ensures var t := "select drop";
      IsTrimmed(t) && ContainsAtCI(t, "select", 0) && forall m | 0 <= m < |t| :: !ContainsAt(t, "\n\n", m)
  {
    var t := "select drop";
    LowerOfLowercase(t[0..6]);
    forall m | 0 <= m < |t| ensures !ContainsAt(t, "\n\n", m) {
      if m + 2 <= |t| {
        assert t[m..m + 2][0] == t[m] != '\n';
      }
    }
  }

  /** The checks reject "select drop": together with the two lemmas above, a
      reply the checks reject reaches the response unchecked. */
  lemma SelectDropIsRejected()
    ensures !IsSafeSelect("select drop")
  {
    var t := "select drop";
    LowerOfLowercase(t);
    assert t[7..11] == "drop";
    assert WordAt(Lower(t), "drop", 7);
    assert HasWord(Lower(t), "drop");
    assert "drop" in DangerousKeywords;
  }

  /** A fallback query does not always pass the checks: the query for a single
      table named "drop" is rejected by them, and it is never put to them. */
  lemma TableNamedDropIsUnsafe()
    ensures Fallback.ChooseFallback("", ["drop"]) == Ok(Fallback.AnyTable("drop"))
    ensures !IsSafeSelect(Fallback.TemplateSql(Fallback.AnyTable("drop")))
  {
    Fallback.UnknownTableQueried("", ["drop"]);
    var t := Fallback.TemplateSql(Fallback.AnyTable("drop"));
    Fallback.AnyTableSplicesName("drop");
    LowerSlice(t, 14, 18);
    LowerOfLowercase(t[14..18]);
    assert WordAt(Lower(t), "drop", 14);
    assert HasWord(Lower(t), "drop");
    assert "drop" in DangerousKeywords;
  }
}
