/**
 * The `claude-analysis` edge function: one HTTP request in, one response
 * out. The language-model call lies outside the model; its outcome is a
 * parameter, and the handler reports which messages it would forward.
 */
module AnalysisHandler {

  import opened Wrappers
  import opened Conversation

  // Status codes, named after the sections of RFC 9110 that define them.
  const StatusOk := 200                    // section 15.3.1
  const StatusBadRequest := 400            // section 15.5.1
  const StatusMethodNotAllowed := 405      // section 15.5.6
  const StatusInternalServerError := 500   // section 15.6.1

  const ErrMethodNotAllowed := "Method not allowed"
  const ErrInputRequired := "User input is required"
  const ErrUnavailable := "Analysis system temporarily unavailable"
  const InvalidFormatText := "Analysis system error: Invalid response format"
  const UnknownErrorDetails := "Unknown error"

  type Headers = map<string, string>

  /** The permissive CORS headers every response carries. */
  const CorsHeaders: Headers := map[
    "Access-Control-Allow-Origin" := "*",
    "Access-Control-Allow-Headers" := "authorization, x-client-info, apikey, content-type"
  ]

  const JsonHeaders: Headers := CorsHeaders["Content-Type" := "application/json"]

  /** The value found under `userInput` in the request body. */
  datatype InputField = Missing | StringValue(s: string) | NonStringValue

  /**
   * The request body after `await req.json()` and its destructuring: either
   * that step threw an `Error` (malformed JSON, or a body that is `null`),
   * or it gave the two fields.
   */
  datatype Body =
    | BodyThrows(message: string)
    | Json(userInput: InputField, conversationHistory: Option<seq<Exchange>>)

  /** `verb` is `req.method`. */
  datatype Request = Request(verb: string, body: Body)

  /** A value caught by the handler's `catch`: an `Error` instance, or anything else thrown. */
  datatype Thrown = ErrorInstance(message: string) | NonErrorValue

  /**
   * What the provider call yields: a first content block of type text, a
   * first block of another type, or a throw. An empty `content` array is a
   * throw too (reading `.type` of `undefined` raises a `TypeError`).
   */
  datatype ProviderOutcome = TextBlock(text: string) | NonTextBlock | ProviderThrew(thrown: Thrown)

  datatype ResponseBody =
    | NoBody
    | ResultBody(result: string)
    | ErrorBody(error: string, details: Option<string>)

  datatype Response = Response(status: int, headers: Headers, body: ResponseBody)

  /** The response, and the messages sent to the provider (`None` when no call is made). */
  datatype Outcome = Outcome(response: Response, forwarded: Option<seq<Exchange>>)

  predicate HasCorsHeaders(h: Headers)
  {
    forall k :: k in CorsHeaders ==> k in h && h[k] == CorsHeaders[k]
  }

  /**
   * `!userInput || typeof userInput !== 'string'` is false: the input is
   * refused when it is missing, not a string, or the empty string, which
   * is falsy.
   */
  predicate IsUsableInput(f: InputField)
    ensures !IsUsableInput(f) <==> f == Missing || f == NonStringValue || f == StringValue("")
  {
    f.StringValue? && f.s != ""
  }

  /** `conversationHistory = []` in the destructuring: the default applies only when the field is absent. */
  function HistoryOrEmpty(h: Option<seq<Exchange>>): (turns: seq<Exchange>)
    ensures h == Some(turns) || (h == None && turns == [])
  {
    match h
    case None => []
    case Some(turns) => turns
  }

  /** `[...conversationHistory, { role: 'user', content: userInput }]`. */
  function BuildMessages(history: seq<Exchange>, userInput: string): (messages: seq<Exchange>)
    ensures |messages| == |history| + 1
    ensures messages[..|history|] == history
    ensures messages[|history|] == Exchange(User, userInput)
  {
    history + [Exchange(User, userInput)]
  }

  function ErrorDetails(t: Thrown): string
  {
    match t
    case ErrorInstance(m) => m
    case NonErrorValue => UnknownErrorDetails
  }

  /**
   * The `catch` branch: 500, JSON with the CORS headers, the generic
   * message, and the thrown `Error`'s message (or "Unknown error") as
   * details.
   */
  function Failure(t: Thrown): (r: Response)
    ensures r.status == StatusInternalServerError
    ensures HasCorsHeaders(r.headers) && "Content-Type" in r.headers && r.headers["Content-Type"] == "application/json"
    ensures r.body.ErrorBody? && r.body.error == ErrUnavailable
    ensures t.ErrorInstance? ==> r.body.details == Some(t.message)
    ensures t.NonErrorValue? ==> r.body.details == Some(UnknownErrorDetails)
  {
    Response(StatusInternalServerError, JsonHeaders, ErrorBody(ErrUnavailable, Some(ErrorDetails(t))))
  }

  /** The `serve` callback. */
  function Handle(req: Request, provider: ProviderOutcome): (out: Outcome)
    ensures HasCorsHeaders(out.response.headers)
    ensures out.response.status in {StatusOk, StatusBadRequest, StatusMethodNotAllowed, StatusInternalServerError}
    ensures out.forwarded.Some? <==>
              req.verb == "POST" && req.body.Json? && IsUsableInput(req.body.userInput)
    ensures out.forwarded.Some? ==>
              |out.forwarded.value| == |HistoryOrEmpty(req.body.conversationHistory)| + 1
  {
    if req.verb == "OPTIONS" then
      Outcome(Response(StatusOk, CorsHeaders, NoBody), None)
    else if req.verb != "POST" then
      Outcome(Response(StatusMethodNotAllowed, JsonHeaders, ErrorBody(ErrMethodNotAllowed, None)), None)
    else
      match req.body
      case BodyThrows(m) => Outcome(Failure(ErrorInstance(m)), None)
      case Json(userInput, history) =>
        if !IsUsableInput(userInput) then
          Outcome(Response(StatusBadRequest, JsonHeaders, ErrorBody(ErrInputRequired, None)), None)
        else
          var messages := BuildMessages(HistoryOrEmpty(history), userInput.s);
          var response :=
            match provider
            case TextBlock(text) => Response(StatusOk, JsonHeaders, ResultBody(text))
            case NonTextBlock => Response(StatusOk, JsonHeaders, ResultBody(InvalidFormatText))
            case ProviderThrew(t) => Failure(t);
          Outcome(response, Some(messages))
  }

  /** A preflight gets an empty 200 with exactly the CORS headers, before the body is read. */
  lemma PreflightShortCircuits(body: Body, provider: ProviderOutcome)
    ensures Handle(Request("OPTIONS", body), provider)
         == Outcome(Response(StatusOk, CorsHeaders, NoBody), None)
  {
  }

  /** Every method other than OPTIONS and POST is refused with 405 and no provider call. */
  lemma OtherMethodsRefused(req: Request, provider: ProviderOutcome)
    requires req.verb != "OPTIONS" && req.verb != "POST"
    ensures var out := Handle(req, provider);
            && out.response.status == StatusMethodNotAllowed
            && out.response.body == ErrorBody(ErrMethodNotAllowed, None)
            && out.forwarded == None
  {
  }

  /**
   * A POST is answered 400 exactly when its body parses and `userInput` is
   * missing, empty or not a string; no provider call is made then.
   */
  lemma BadRequestIffUnusableInput(req: Request, provider: ProviderOutcome)
    requires req.verb == "POST"
    ensures var out := Handle(req, provider);
            out.response.status == StatusBadRequest <==> req.body.Json? && !IsUsableInput(req.body.userInput)
    ensures var out := Handle(req, provider);
            out.response.status == StatusBadRequest ==>
              out.response.body == ErrorBody(ErrInputRequired, None) && out.forwarded == None
  {
  }

  /**
   * The forwarded messages are the history, unchanged and in order (empty
   * when absent), followed by one user turn carrying the input.
   */
  lemma ForwardedMessages(input: string, history: Option<seq<Exchange>>, provider: ProviderOutcome)
    requires input != ""
    ensures var out := Handle(Request("POST", Json(StringValue(input), history)), provider);
            && out.forwarded.Some?
            && out.forwarded.value[..|HistoryOrEmpty(history)|] == HistoryOrEmpty(history)
            && out.forwarded.value[|HistoryOrEmpty(history)|] == Exchange(User, input)
            && (history == None ==> out.forwarded.value == [Exchange(User, input)])
  {
  }

  /** A first block of type text is returned with 200; any other block gives the fixed notice, still with 200. */
  lemma ProviderReplyMapping(input: string, history: Option<seq<Exchange>>, text: string)
    requires input != ""
    ensures Handle(Request("POST", Json(StringValue(input), history)), TextBlock(text)).response
         == Response(StatusOk, JsonHeaders, ResultBody(text))
    ensures Handle(Request("POST", Json(StringValue(input), history)), NonTextBlock).response
         == Response(StatusOk, JsonHeaders, ResultBody(InvalidFormatText))
  {
  }

  /**
   * Whatever is thrown after the method checks (bad body, provider failure,
   * empty content) becomes 500 with the generic message; the details are
   * the `Error`'s message, or "Unknown error" for any other thrown value.
   */
  lemma ThrownBecomesServerError(req: Request, provider: ProviderOutcome)
    requires req.verb == "POST"
    requires req.body.BodyThrows? || (IsUsableInput(req.body.userInput) && provider.ProviderThrew?)
    ensures var out := Handle(req, provider);
            && out.response.status == StatusInternalServerError
            && out.response.body.ErrorBody?
            && out.response.body.error == ErrUnavailable
            && out.response.body.details ==
                 Some(if req.body.BodyThrows? then req.body.message else ErrorDetails(provider.thrown))
            && (req.body.BodyThrows? ==> out.forwarded == None)
  {
  }

  /** Every response other than the preflight is JSON; the preflight carries only the CORS headers. */
  lemma ContentTypeOnlyOffPreflight(req: Request, provider: ProviderOutcome)
    ensures var h := Handle(req, provider).response.headers;
            if req.verb == "OPTIONS" then h == CorsHeaders
            else h == JsonHeaders && h["Content-Type"] == "application/json"
  {
  }
}
