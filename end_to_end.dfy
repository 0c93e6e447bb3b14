/**
 * How the client pieces and the edge function fit together: what the prompt
 * submits is always accepted by the handler, and the history the engine
 * keeps is what the handler forwarded plus the reply.
 */
module EndToEnd {

  import opened Wrappers
  import opened Conversation
  import PromptInput
  import AnalysisHandler
  import SortingEngine

  /** The POST the engine sends for an objective and the history it holds. */
  function RequestFor(input: string, history: seq<Exchange>): AnalysisHandler.Request
  {
    AnalysisHandler.Request("POST", AnalysisHandler.Json(AnalysisHandler.StringValue(input), Some(history)))
  }

  /**
   * A text that passed the prompt's guard never meets the handler's 400
   * branch: the handler always calls the provider with it.
   */
  lemma SubmittedTextNeverBadRequest(raw: string, history: seq<Exchange>, provider: AnalysisHandler.ProviderOutcome)
    requires PromptInput.HandleSubmit(raw).Some?
    ensures var out := AnalysisHandler.Handle(RequestFor(PromptInput.HandleSubmit(raw).value, history), provider);
            && out.response.status != AnalysisHandler.StatusBadRequest
            && out.forwarded.Some?
  {
  }

  /**
   * When the provider's text reaches the client as `data.result`, the
   * engine's new history is exactly the message list the handler forwarded
   * followed by the assistant's reply. The handler forwards whatever
   * history it is given; the page itself only ever sends the empty one
   * (see `SortingEngine.Engine.CompleteSubmit`).
   */
  lemma HistoryIsForwardedPlusReply(input: string, history: seq<Exchange>, reply: string)
    requires input != "" && reply != ""
    ensures var out := AnalysisHandler.Handle(RequestFor(input, history), AnalysisHandler.TextBlock(reply));
            && out.response.body == AnalysisHandler.ResultBody(reply)
            && out.forwarded.Some?
            && SortingEngine.HistoryAfter(history, input, SortingEngine.InvokeData(Some(reply)))
                 == out.forwarded.value + [Exchange(Assistant, reply)]
  {
  }

  /**
   * An empty provider text is still a 200 from the handler, but the client
   * treats the empty `result` as a failure: it shows the fallback and keeps
   * the history as it was.
   */
  lemma EmptyReplyFallsBack(input: string, history: seq<Exchange>)
    requires input != ""
    ensures AnalysisHandler.Handle(RequestFor(input, history), AnalysisHandler.TextBlock("")).response.status
         == AnalysisHandler.StatusOk
    ensures SortingEngine.HistoryAfter(history, input, SortingEngine.InvokeData(Some(""))) == history
    ensures SortingEngine.ReplyText(input, SortingEngine.InvokeData(Some(""))) == SortingEngine.FallbackText(input)
  {
  }
}
