/**
 * The execute endpoint (validate, run in the sandbox, respond) and the
 * hint endpoint's handling of its request, as functions from what the
 * request and the services give to the HTTP status and JSON body sent back.
 */
module AssignmentController {
  import opened Wrappers
  import opened WordMatch
  import opened QueryValidator
  import opened DbService

  /**
   * The body of an execute response. `rowCount` is `None` when the field is
   * absent, as in every failure body, and `Some(None)` when it is `null`.
   */
  datatype ExecuteBody = ExecuteBody(
    success: bool, error: Option<string>, rows: seq<Row>, fields: seq<Field>, rowCount: Option<Option<int>>)

  datatype Response = Response(status: int, body: ExecuteBody)

  /** The response, and the text the sandbox executor was called with, if it was called. */
  datatype Handled = Handled(response: Response, executed: Option<string>)

  const SqlRequiredError := "SQL query is required"
  const UnexpectedError := "An unexpected error occurred while executing your query"

  /** A 400 whose body carries the error and no data: empty rows and fields, and no `rowCount` field. */
  function BadRequest(error: string): (r: Response)
    ensures r.status == 400 && !r.body.success && r.body.error == Some(error)
    ensures r.body.rows == [] && r.body.fields == [] && r.body.rowCount.None?
  {
    Response(400, ExecuteBody(false, Some(error), [], [], None))
  }

  /**
   * `executeQuery` for a request whose body holds `sql`, with the row limit
   * in force and `execute` standing for `executeSandboxQuery`.
   */
  function ExecuteQuery(sql: JsValue, rowLimit: int, execute: string -> Execution): (h: Handled)
    ensures h.response.status in {200, 400, 500}
    ensures h.response.body.success <==> h.response.status == 200
    ensures h.response.status != 200 ==>
      h.response.body.rows == [] && h.response.body.fields == [] && h.response.body.rowCount.None?
    ensures h.response.status != 200 && h.executed.None? ==> h.response.body.error.Some?
  {
    if !Truthy(sql) then Handled(BadRequest(SqlRequiredError), None)
    else
      var validation := ValidateQuery(sql, rowLimit);
      if !validation.valid then Handled(BadRequest(validation.error.value), None)
      else
        var text := validation.sanitizedSql.value;
        match execute(text)
        case Threw(_) =>
          Handled(Response(500, ExecuteBody(false, Some(UnexpectedError), [], [], None)), Some(text))
        case Returned(result) =>
          if !result.success then
            Handled(Response(400, ExecuteBody(false, result.error, [], [], None)), Some(text))
          else
            Handled(Response(200, ExecuteBody(true, None, result.rows, result.fields, Some(result.rowCount))), Some(text))
  }

  /** A missing or falsy `sql` is refused before anything else runs. */
  lemma MissingSqlIsRefused(sql: JsValue, rowLimit: int, execute: string -> Execution)
    requires !Truthy(sql)
    ensures ExecuteQuery(sql, rowLimit, execute) == Handled(BadRequest("SQL query is required"), None)
  {
  }

  /** The executor runs exactly when the validator accepts, and receives exactly the sanitized text. */
  lemma ExecutorGetsSanitizedText(sql: JsValue, rowLimit: int, execute: string -> Execution)
    ensures var h := ExecuteQuery(sql, rowLimit, execute);
      var v := ValidateQuery(sql, rowLimit);
      && (h.executed.Some? <==> Truthy(sql) && v.valid)
      && (h.executed.Some? ==> h.executed == v.sanitizedSql)
  {
    var v := ValidateQuery(sql, rowLimit);
    if Truthy(sql) && v.valid {
      assert ExecuteQuery(sql, rowLimit, execute).executed == Some(v.sanitizedSql.value);
    }
  }

  /** A rejected query gets 400 with the validator's own error, and nothing is executed. */
  lemma RejectedNeverExecuted(sql: JsValue, rowLimit: int, execute: string -> Execution)
    requires Truthy(sql) && !ValidateQuery(sql, rowLimit).valid
    ensures ExecuteQuery(sql, rowLimit, execute) ==
      Handled(BadRequest(ValidateQuery(sql, rowLimit).error.value), None)
  {
  }

  /** Whatever reaches the executor holds no `;` and none of the blacklisted words. */
  lemma ExecutedTextIsSafe(sql: JsValue, rowLimit: int, execute: string -> Execution)
    ensures var h := ExecuteQuery(sql, rowLimit, execute);
      h.executed.Some? ==>
        && ';' !in h.executed.value
        && !ContainsAnyWholeWord(h.executed.value, DestructiveKeywords)
        && !ContainsAnyWholeWord(h.executed.value, DangerousFunctions)
  {
    ExecutorGetsSanitizedText(sql, rowLimit, execute);
    var v := ValidateQuery(sql, rowLimit);
    if v.valid {
      SanitizedIsSafe(sql, rowLimit);
    }
  }

  /** How an accepted query's execution maps to the response. */
  lemma ExecutionOutcomes(sql: JsValue, rowLimit: int, execute: string -> Execution)
    requires Truthy(sql) && ValidateQuery(sql, rowLimit).valid
    ensures var text := ValidateQuery(sql, rowLimit).sanitizedSql.value;
      var b := ExecuteQuery(sql, rowLimit, execute).response.body;
      var status := ExecuteQuery(sql, rowLimit, execute).response.status;
      match execute(text)
      case Threw(_) => status == 500 && b.error == Some("An unexpected error occurred while executing your query")
      case Returned(res) =>
        if res.success then
          status == 200 && b.rows == res.rows && b.fields == res.fields
          && b.rowCount == Some(res.rowCount) && b.error.None?
        else
          status == 400 && b.rows == [] && b.fields == [] && b.rowCount.None? && b.error == res.error
  {
  }

  /** A thrown fault's own text never reaches the client: every fault gives the same response. */
  lemma ThrownFaultIsHidden(sql: JsValue, rowLimit: int, fault: PgError, other: PgError)
    requires Truthy(sql) && ValidateQuery(sql, rowLimit).valid
    ensures var h := ExecuteQuery(sql, rowLimit, _ => Threw(fault));
      h.response.status == 500 && h.response.body.error == Some(UnexpectedError)
    ensures ExecuteQuery(sql, rowLimit, _ => Threw(fault)).response ==
      ExecuteQuery(sql, rowLimit, _ => Threw(other)).response
  {
  }

  /**
   * Behind the sandbox executor, a failing statement reaches the client as
   * a 400 whose error is the sanitized, one-line message.
   */
  lemma SandboxFailureIsOneLine(sql: JsValue, rowLimit: int, replies: nat -> Reply)
    requires Truthy(sql) && ValidateQuery(sql, rowLimit).valid
    requires !ExpectedResult(replies).success
    ensures var h := ExecuteQuery(sql, rowLimit, _ => Returned(ExpectedResult(replies)));
      h.response.status == 400 && h.response.body.error.Some? && '\n' !in h.response.body.error.value
  {
    FailureShape(replies);
  }

  // The hint endpoint.

  const ValidLevels: seq<string> := ["low", "medium", "high"]

  /** `validLevels.includes(hintLevel) ? hintLevel : 'low'` */
  function NormalizeHintLevel(hintLevel: JsValue): (level: string)
    ensures level in ValidLevels
    ensures hintLevel.JsString? && hintLevel.s in ValidLevels ==> level == hintLevel.s
    ensures !(hintLevel.JsString? && hintLevel.s in ValidLevels) ==> level == "low"
  {
    if hintLevel.JsString? && hintLevel.s in ValidLevels then hintLevel.s else "low"
  }

  /** Normalising a level already normalised changes nothing. */
  lemma NormalizeHintLevelIdempotent(hintLevel: JsValue)
    ensures NormalizeHintLevel(JsString(NormalizeHintLevel(hintLevel))) == NormalizeHintLevel(hintLevel)
  {
  }

  /** What the assignment lookup gave: the context handed to the hint service, nothing, or a fault. */
  datatype AssignmentContext = AssignmentContext(title: string, question: string, tables: seq<string>)
  datatype Lookup = Found(context: AssignmentContext) | NotFound | LookupFailed

  /** `{ hint, nextSteps, explainWhy, error }` as the hint service returns it and the endpoint sends it. */
  datatype HintBody = HintBody(hint: Option<string>, nextSteps: seq<string>, explainWhy: Option<string>, error: Option<string>)

  datatype HintResponse = HintResponse(status: int, body: HintBody)

  /**
   * The user's text sent to the hint service: `sql || ''`. A truthy value is
   * passed on as it is, and the only falsy value the service ever receives is
   * the empty string, whatever falsy value the request carried.
   */
  function HintSql(sql: JsValue): (r: JsValue)
    ensures Truthy(sql) ==> r == sql
    ensures Truthy(r) <==> Truthy(sql)
    ensures !Truthy(r) ==> r == JsString("")
    ensures r.JsOther? ==> Truthy(r)
  {
    if Truthy(sql) then sql else JsString("")
  }

  /**
   * `getAssignmentHint` after the lookup: `getHint` and `getFallbackHint`
   * are the hint service's answers, taken as given.
   */
  function GetAssignmentHint(
    sql: JsValue, hintLevel: JsValue, lookup: Lookup,
    getHint: (AssignmentContext, JsValue, string) -> HintBody,
    getFallbackHint: AssignmentContext -> HintBody): (r: HintResponse)
    ensures lookup.NotFound? ==> r.status == 404 && r.body.error == Some("Assignment not found")
    ensures lookup.LookupFailed? ==> r.status == 500 && r.body.error == Some("Failed to generate hint")
    ensures lookup.Found? ==> r.status == 200
  {
    match lookup
    case LookupFailed => HintResponse(500, HintBody(None, [], None, Some("Failed to generate hint")))
    case NotFound => HintResponse(404, HintBody(None, [], None, Some("Assignment not found")))
    case Found(context) =>
      var level := NormalizeHintLevel(hintLevel);
      var result := getHint(context, HintSql(sql), level);
      if result.error.Some? && result.error.value != [] then HintResponse(200, getFallbackHint(context))
      else HintResponse(200, HintBody(result.hint, result.nextSteps, result.explainWhy, None))
  }

  /** The hint service is always asked at a valid level, the requested one when it is valid; its failure falls back. */
  lemma HintServiceCall(
    sql: JsValue, hintLevel: JsValue, context: AssignmentContext,
    getHint: (AssignmentContext, JsValue, string) -> HintBody,
    getFallbackHint: AssignmentContext -> HintBody)
    ensures var result := getHint(context, HintSql(sql), NormalizeHintLevel(hintLevel));
      var r := GetAssignmentHint(sql, hintLevel, Found(context), getHint, getFallbackHint);
      if result.error.Some? && result.error.value != [] then r.body == getFallbackHint(context)
      else r.body == result.(error := None)
  {
  }
}
