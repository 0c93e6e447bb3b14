/**
 * The page-level state machine: boot, idle prompt, processing, results or
 * rejection, and the conversation history kept across submissions. The
 * edge-function invocation lies outside the model; its outcome is a parameter.
 */
module SortingEngine {

  import opened Wrappers
  import opened Text
  import opened Conversation
  import FallbackMessage

  datatype EngineState = Boot | Idle | Processing | Results | Rejected | Error

  const RejectionPhrase := "Even Yegor can't save you"

  /**
   * What `supabase.functions.invoke` gives back: an error, or `data` whose
   * `result` is `None` when `data` is null or has no `result` field.
   */
  datatype InvokeOutcome = InvokeError | InvokeData(result: Option<string>)

  /** The body sent to the edge function. */
  datatype AnalysisRequest = AnalysisRequest(userInput: string, conversationHistory: seq<Exchange>)

  /**
   * Neither `error` nor `!data || !data.result` holds: the call fails when
   * it reports an error, when `data` or its `result` is absent, and when
   * `result` is the empty string, which is falsy.
   */
  predicate Succeeded(outcome: InvokeOutcome)
    ensures !Succeeded(outcome) <==>
              outcome == InvokeError || outcome == InvokeData(None) || outcome == InvokeData(Some(""))
  {
    outcome.InvokeData? && outcome.result.Some? && outcome.result.value != ""
  }

  /** The canned text `analyzeObjective` returns on any failure; it quotes the objective. */
  function FallbackText(input: string): (text: string)
    ensures Contains(text, input)
    ensures |text| > |input|
  {
    ContainsSelf(input);
    ContainsInside(FallbackMessage.Head, input, FallbackMessage.Tail, input);
    FallbackMessage.Head + input + FallbackMessage.Tail
  }

  /** The text `analyzeObjective` resolves to: `data.result` on success, the fallback otherwise. */
  function ReplyText(input: string, outcome: InvokeOutcome): (text: string)
    ensures text != ""
    ensures Succeeded(outcome) ==> text == outcome.result.value
    ensures !Succeeded(outcome) ==> Contains(text, input)
  {
    if Succeeded(outcome) then outcome.result.value else FallbackText(input)
  }

  /** The history after `analyzeObjective`: one exchange appended on success only. */
  function HistoryAfter(history: seq<Exchange>, input: string, outcome: InvokeOutcome): (after: seq<Exchange>)
    ensures history <= after
    ensures |after| == |history| + (if Succeeded(outcome) then 2 else 0)
  {
    if Succeeded(outcome) then
      history + [Exchange(User, input), Exchange(Assistant, outcome.result.value)]
    else
      history
  }

  /** The state chosen from the analysis text. */
  function Verdict(text: string): (s: EngineState)
    ensures s == Rejected <==> Contains(text, RejectionPhrase)
    ensures s == Rejected || s == Results
  {
    if Contains(text, RejectionPhrase) then Rejected else Results
  }

  /**
   * A successful exchange keeps the old history as a prefix and adds
   * exactly the user turn and the assistant turn, in that order; a failed
   * one leaves the history as it was.
   */
  lemma HistoryGrowsByOneExchange(history: seq<Exchange>, input: string, outcome: InvokeOutcome)
    ensures Succeeded(outcome) ==>
              && |HistoryAfter(history, input, outcome)| == |history| + 2
              && HistoryAfter(history, input, outcome)[..|history|] == history
              && HistoryAfter(history, input, outcome)[|history|] == Exchange(User, input)
              && HistoryAfter(history, input, outcome)[|history| + 1]
                   == Exchange(Assistant, ReplyText(input, outcome))
    ensures !Succeeded(outcome) ==> HistoryAfter(history, input, outcome) == history
  {
  }

  /** Every history the engine builds stays a sequence of user/assistant pairs. */
  lemma HistoryAfterWellPaired(history: seq<Exchange>, input: string, outcome: InvokeOutcome)
    requires WellPaired(history)
    ensures WellPaired(HistoryAfter(history, input, outcome))
  {
    if Succeeded(outcome) {
      AppendPairKeepsWellPaired(history, input, outcome.result.value);
    }
  }

  lemma RejectionPhraseShape()
    ensures |RejectionPhrase| == 25 && RejectionPhrase[13] == 'n' && RejectionPhrase[14] == '\''
    ensures '"' !in RejectionPhrase
  {
  }

  /** The head of the fallback never contains the phrase: it has no apostrophe. */
  lemma PhraseNotInFallbackHead()
    ensures !Contains(FallbackMessage.Head, RejectionPhrase)
  {
    FallbackMessage.HeadShape();
    RejectionPhraseShape();
    MissingCharExcludes(FallbackMessage.Head, RejectionPhrase, 14);
  }

  /**
   * Nor does its tail: its one apostrophe follows an `e`, while in the
   * phrase the apostrophe follows an `n`.
   */
  lemma PhraseNotInFallbackTail()
    ensures !Contains(FallbackMessage.Tail, RejectionPhrase)
  {
    FallbackMessage.TailShape();
    RejectionPhraseShape();
    var t := FallbackMessage.Tail;
    forall i | 0 <= i <= |t| - |RejectionPhrase|
      ensures !OccursAt(t, RejectionPhrase, i)
    {
      if OccursAt(t, RejectionPhrase, i) {
        OccurrenceChar(t, RejectionPhrase, i, 14);
        OccurrenceChar(t, RejectionPhrase, i, 13);
      }
    }
  }

  /**
   * The fallback is REJECTED exactly when the objective it quotes contains
   * the rejection phrase: the quotes around the objective keep an
   * occurrence from reaching into the canned text, which has none of its own.
   */
  lemma FallbackVerdict(input: string, outcome: InvokeOutcome)
    requires !Succeeded(outcome)
    ensures Verdict(ReplyText(input, outcome)) == Rejected <==> Contains(input, RejectionPhrase)
  {
    FallbackMessage.HeadShape();
    FallbackMessage.TailShape();
    RejectionPhraseShape();
    PhraseNotInFallbackHead();
    PhraseNotInFallbackTail();
    DelimitedContains(FallbackMessage.Head, input, FallbackMessage.Tail, RejectionPhrase);
  }

  class Engine {
    var state: EngineState
    var userInput: string
    var result: string
    var isLoading: bool
    var conversationHistory: seq<Exchange>

    /**
     * The history is made of user/assistant pairs; ERROR is never entered;
     * the history is empty until a submission completes. Since the prompt
     * is shown only in IDLE, and IDLE is reached only from BOOT or through
     * a reset, at most one exchange is ever remembered.
     */
    ghost predicate Valid()
      reads this
    {
      && WellPaired(conversationHistory)
      && |conversationHistory| <= 2
      && state != Error
      && (state == Boot || state == Idle || state == Processing ==> conversationHistory == [])
    }

    /** The initial render. */
    constructor ()
      ensures Valid()
      ensures state == Boot && userInput == "" && result == ""
      ensures !isLoading && conversationHistory == []
    {
      state := Boot;
      userInput := "";
      result := "";
      isLoading := false;
      conversationHistory := [];
    }

    /**
     * The boot timer set on mount expires. It fires once, while the page is
     * still in BOOT: nothing else leaves BOOT.
     */
    method BootTimerFires()
      requires Valid() && state == Boot
      modifies this`state
      ensures Valid()
      ensures state == Idle
    {
      state := Idle;
    }

    /**
     * The synchronous start of `handleInputSubmit`, which the prompt calls;
     * the prompt is rendered only in IDLE.
     */
    method BeginSubmit(input: string)
      requires Valid() && state == Idle
      modifies this`userInput, this`state, this`isLoading
      ensures Valid()
      ensures userInput == input && state == Processing && isLoading
    {
      userInput := input;
      state := Processing;
      isLoading := true;
    }

    /**
     * `analyzeObjective`: sends the objective with the history as it stands,
     * appends the exchange on success and never fails.
     */
    method AnalyzeObjective(input: string, outcome: InvokeOutcome) returns (text: string, request: AnalysisRequest)
      requires WellPaired(conversationHistory)
      modifies this`conversationHistory
      ensures WellPaired(conversationHistory)
      ensures request == AnalysisRequest(input, old(conversationHistory))
      ensures text == ReplyText(input, outcome)
      ensures conversationHistory == HistoryAfter(old(conversationHistory), input, outcome)
    {
      request := AnalysisRequest(input, conversationHistory);
      HistoryAfterWellPaired(conversationHistory, input, outcome);
      if outcome.InvokeError? {
        text := FallbackText(input);
      } else if outcome.result.None? || outcome.result.value == "" {
        text := FallbackText(input);
      } else {
        conversationHistory := conversationHistory
          + [Exchange(User, input), Exchange(Assistant, outcome.result.value)];
        text := outcome.result.value;
      }
    }

    /**
     * The rest of `handleInputSubmit`, once the processing delay is over:
     * the analysis text is shown, the state is RESULTS or REJECTED (the
     * ERROR branch cannot be taken, because `analyzeObjective` catches every
     * failure) and loading ends. The request carries the history as it
     * stood, which in PROCESSING is always empty.
     */
    method CompleteSubmit(input: string, outcome: InvokeOutcome) returns (request: AnalysisRequest)
      requires Valid() && state == Processing && input == userInput
      modifies this`result, this`state, this`isLoading, this`conversationHistory
      ensures Valid()
      ensures request == AnalysisRequest(input, old(conversationHistory)) && request.conversationHistory == []
      ensures result == ReplyText(input, outcome) && result != ""
      ensures state == Verdict(result) && state != Error
      ensures !isLoading
      ensures conversationHistory == HistoryAfter(old(conversationHistory), input, outcome)
    {
      var analysisResult;
      analysisResult, request := AnalyzeObjective(input, outcome);
      result := analysisResult;
      if Contains(analysisResult, RejectionPhrase) {
        state := Rejected;
      } else {
        state := Results;
      }
      isLoading := false;
    }

    /** `handleReset`: back to the prompt with nothing remembered; `isLoading` is left alone. */
    method Reset()
      modifies this`state, this`userInput, this`result, this`conversationHistory
      ensures Valid()
      ensures state == Idle && userInput == "" && result == "" && conversationHistory == []
    {
      state := Idle;
      userInput := "";
      result := "";
      conversationHistory := [];
    }
  }
}
