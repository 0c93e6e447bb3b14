# Yegor directive engine: a Dafny model of its logic

The site is a themed "terminal". A visitor types an objective, watches a
scripted processing animation and gets back a recommendation that points to
one of three affiliate services. Nearly all of it is view code. This project
models the parts that carry logic:

- **The `claude-analysis` edge function** (`AnalysisHandler`). It is the pure
  function `Handle(request, providerOutcome)`. OPTIONS is a CORS preflight.
  Any other method except POST is refused with 405. A missing, empty or
  non-string `userInput` is refused with 400. Otherwise the message list is
  the prior history followed by one user turn. The provider's answer (a text
  block, a non-text block, or a throw) becomes a 200 or a 500. The status
  codes are those of RFC 9110: section 15.5.1 (400), section 15.5.6 (405) and
  section 15.6.1 (500); OPTIONS is section 9.3.7. As in the code, a 405
  carries no `Allow` header. The provider is never called. Its outcome is a
  parameter, and `Handle` reports the messages it would forward (`None` when
  no call is made).
- **The page state machine** (`SortingEngine.Engine`). It has the states BOOT,
  IDLE, PROCESSING, RESULTS, REJECTED and ERROR. It moves on the boot timer,
  on submit, on the analysis outcome and on reset. It also keeps the
  conversation history, which grows by one user/assistant pair per successful
  exchange and is cleared on reset. The `functions.invoke` call is a
  parameter too. The canned fallback analysis is `FallbackMessage`.
- **Service routing** (`ResultsDisplay`). A priority rule on substring search
  picks a service, and a constant map gives its URL.
- **The text-reveal machines.** These are the type/pause/delete cycle of
  `useTerminalText` (`TerminalTextHook`), the chunked reveal of
  `useTypewriter` (`TypewriterHook`), the char-by-char reveal of
  `SovietTerminal`, the capped line counter of `BootSequence`, and the
  diagnostic lines and two-column split of `ProcessingAnimation`. Each timer
  firing is one method call; in `useTypewriter` the whole run of animation
  frames is one method, `TypeOut`, and each frame is one iteration of its
  loop.
- **The submit guard** (`PromptInput`). The input is trimmed with JavaScript's
  `trim` and submitted only when the result is non-empty. `EndToEnd` proves
  that the guard keeps the client out of the handler's 400 branch. It also
  proves that the engine's history after a success is exactly the list the
  handler forwarded plus the reply.

Shared modules: `Text` holds `includes`, `substring(0, n)` and `trim` with
ECMAScript's whitespace set. `Conversation` holds the exchange record and the
"well paired" history invariant. `Wrappers` holds `Option`.

Behaviours of the code worth noting:

- The handler also refuses an empty `userInput` with 400, not only a missing
  or non-string one.
- A provider reply whose first block is not text is not an upstream error.
  It is a 200 with the fixed text "Analysis system error: Invalid response
  format".
- ERROR is never entered. `analyzeObjective` catches every failure and
  returns the fallback text, so the `catch` of `handleInputSubmit` cannot run
  as long as `data.result` is a string, which is all the handler sends.
  `CompleteSubmit` ensures the state is RESULTS or REJECTED.
- The fallback text quotes the objective. A failed call ends in REJECTED
  exactly when the objective itself contains "Even Yegor can't save you"
  (`FallbackVerdict`). The canned text has no occurrence of its own, and the
  quotes around the objective keep an occurrence from reaching across.
- An empty entry in the `texts` of `useTerminalText` stops the cycle for good.
  When it is typed, `"".substring(0, 1)` leaves the display text as it was
  (src/hooks/useTerminalText.ts:45), and the pause test `0 === -1` on line 47
  fails. No state changes, so the effect never runs again. `TerminalText.Tick`
  states this: on an empty current entry it changes nothing, and its progress
  clause excludes that case.
- The page only ever sends an empty `conversationHistory`. The prompt is
  rendered only in IDLE (src/components/SortingEngine.tsx:135-137). IDLE is
  entered only from BOOT (line 30) or through a reset (line 64), and both
  leave the history empty. `onContinueSubmit` is passed to `ResultsDisplay`
  (line 150) but never declared there (src/components/ResultsDisplay.tsx:12).
  The "ANALYZE ALTERNATIVE VECTOR" button has no handler
  (src/components/ResultsDisplay.tsx:111-115). `Engine.Valid()` keeps the
  history empty in BOOT, IDLE and PROCESSING, and `CompleteSubmit` ensures
  its request carries the empty history. At most one exchange is ever
  remembered, and it is never sent. The handler's history forwarding
  (`ForwardedMessages`) is reachable only from other clients.
- An empty provider text is a 200 from the handler. The client treats the
  empty `result` as a failure, shows the fallback and keeps the history
  (`EndToEnd.EmptyReplyFallsBack`).

## Model

| member | source | states |
|---|---|---|
| `AnalysisHandler.Handle` | supabase/functions/claude-analysis/index.ts:100-173 | every response carries the CORS headers; the status is 200, 400, 405 or 500; the provider is called exactly when the method is POST, the body parses and `userInput` is a non-empty string; the forwarded list is one longer than the history |
| `AnalysisHandler.IsUsableInput` | supabase/functions/claude-analysis/index.ts:116 | the input is refused exactly when it is missing, not a string, or the empty string |
| `AnalysisHandler.HistoryOrEmpty` | supabase/functions/claude-analysis/index.ts:114 | the default `[]` applies only when the history is absent; a given history is used as it is |
| `AnalysisHandler.Failure` | supabase/functions/claude-analysis/index.ts:162-171 | the `catch` answer is 500 with the CORS and JSON headers, "Analysis system temporarily unavailable", and the Error's message or "Unknown error" as details |
| `AnalysisHandler.BuildMessages` | supabase/functions/claude-analysis/index.ts:132-140 | the messages are the history unchanged and in order, then one user turn with the input, so N+1 entries |
| `AnalysisHandler.PreflightShortCircuits` | supabase/functions/claude-analysis/index.ts:102-104 | OPTIONS gives 200, no body, exactly the CORS headers and no provider call, whatever the body |
| `AnalysisHandler.OtherMethodsRefused` | supabase/functions/claude-analysis/index.ts:106-111 | any method other than OPTIONS or POST gives 405 "Method not allowed" and no provider call |
| `AnalysisHandler.BadRequestIffUnusableInput` | supabase/functions/claude-analysis/index.ts:114-121 | a POST gives 400 exactly when the body parses and `userInput` is missing, empty or not a string; then the error is "User input is required" and no provider call is made |
| `AnalysisHandler.ForwardedMessages` | supabase/functions/claude-analysis/index.ts:114-140 | for a usable input the provider gets the history (empty when absent) as a prefix, followed by the user turn |
| `AnalysisHandler.ProviderReplyMapping` | supabase/functions/claude-analysis/index.ts:150-160 | a first text block gives 200 `{result: text}`; a non-text block gives 200 with the fixed invalid-format text |
| `AnalysisHandler.ThrownBecomesServerError` | supabase/functions/claude-analysis/index.ts:162-171 | a bad body or a provider throw gives 500 "Analysis system temporarily unavailable", with the Error's message as details or "Unknown error" otherwise |
| `AnalysisHandler.ContentTypeOnlyOffPreflight` | supabase/functions/claude-analysis/index.ts:102-171 | the preflight carries exactly the CORS headers; every other response carries them plus `Content-Type: application/json` |
| `PromptInput.HandleSubmit` | src/components/PromptInput.tsx:35-40 | `onSubmit` is called exactly when the input is not all whitespace, and then with `input.trim()`, which is non-empty and has no whitespace at either end |
| `PromptInput.HandleKeyDown` | src/components/PromptInput.tsx:42-46 | keys other than Enter submit nothing |
| `PromptInput.EnterIsSubmit` | src/components/PromptInput.tsx:42-46 | Enter goes through the same guard as the form submit |
| `PromptInput.SubmittedIsTrimmed` | src/components/PromptInput.tsx:37-38 | the submitted text is a fixed point of `trim` |
| `Text.Trim` | src/components/PromptInput.tsx:37-38 | `trim` returns a contiguous slice of the input with only whitespace around it, and it neither starts nor ends with whitespace |
| `Text.TrimEmptyIffAllWhitespace` | src/components/PromptInput.tsx:37 | `input.trim()` is empty exactly when the input is all whitespace |
| `Text.Contains` | src/components/SortingEngine.tsx:50 | `includes` finds only parts no longer than the string |
| `Text.SubstringTo` | src/hooks/useTerminalText.ts:37-45 | `substring(0, n)` is a prefix of the string, with n clamped to the range 0 to the length |
| `SortingEngine.FallbackText` | src/components/SortingEngine.tsx:102-115 | the fallback text quotes the objective and is longer than it |
| `SortingEngine.PhraseNotInFallbackHead` | src/components/SortingEngine.tsx:106-112 | the canned text before the objective does not contain the rejection phrase |
| `SortingEngine.PhraseNotInFallbackTail` | src/components/SortingEngine.tsx:112-115 | nor does the canned text after it |
| `FallbackMessage.HeadShape` | src/components/SortingEngine.tsx:106-112 | the canned text before the objective has no apostrophe and ends with the opening quote |
| `FallbackMessage.TailShape` | src/components/SortingEngine.tsx:112-115 | the canned text after the objective starts with the closing quote, and its only apostrophe ("objective's") follows an `e` |
| `SortingEngine.Succeeded` | src/components/SortingEngine.tsx:83-90 | the call counts as failed exactly when it reports an error, `data` or `result` is absent, or `result` is the empty string |
| `SortingEngine.ReplyText` | src/components/SortingEngine.tsx:71-116 | the analysis text is never empty; on success it is `data.result`, otherwise a text that contains the objective |
| `SortingEngine.Verdict` | src/components/SortingEngine.tsx:49-54 | REJECTED exactly when the text contains "Even Yegor can't save you", RESULTS otherwise |
| `SortingEngine.HistoryAfter` | src/components/SortingEngine.tsx:93-97 | the old history is a prefix of the new one, which is two entries longer on success and unchanged in length otherwise |
| `SortingEngine.HistoryGrowsByOneExchange` | src/components/SortingEngine.tsx:83-97 | on success the old history is kept as a prefix and exactly the user turn and the assistant turn follow; on failure the history is unchanged |
| `SortingEngine.HistoryAfterWellPaired` | src/components/SortingEngine.tsx:93-97 | the history stays a sequence of user/assistant pairs |
| `Conversation.AppendPairKeepsWellPaired` | src/components/SortingEngine.tsx:93-97 | appending a user turn and an assistant turn keeps a well-paired history well paired |
| `SortingEngine.FallbackVerdict` | src/components/SortingEngine.tsx:46-115 | after a failed call the page shows REJECTED exactly when the objective contains the rejection phrase |
| `SortingEngine.Engine.constructor` | src/components/SortingEngine.tsx:20-24 | the engine starts in BOOT with empty input, result and history, not loading |
| `SortingEngine.Engine.BootTimerFires` | src/components/SortingEngine.tsx:28-31 | the boot timer, which fires once while in BOOT, sets IDLE and changes nothing else; the history stays empty |
| `SortingEngine.Engine.BeginSubmit` | src/components/SortingEngine.tsx:36-39 | submit, reachable only from the prompt shown in IDLE, records the input, enters PROCESSING and sets loading, and changes nothing else |
| `SortingEngine.Engine.AnalyzeObjective` | src/components/SortingEngine.tsx:71-117 | the request carries the history as it stood before; the text is the reply or the fallback; the history is extended only on success |
| `SortingEngine.Engine.CompleteSubmit` | src/components/SortingEngine.tsx:41-60 | the request carries the history as it stood, which is always empty; the result is the non-empty analysis text, the state is its verdict (never ERROR), loading ends and the history is updated as above, holding at most one exchange |
| `SortingEngine.Engine.Reset` | src/components/SortingEngine.tsx:63-68 | reset sets IDLE and clears input, result and history, leaving the loading flag as it was |
| `ResultsDisplay.SelectService` | src/components/ResultsDisplay.tsx:49-52 | each service is chosen exactly under its condition: XVIRALITY if named, else INBADDIESWETRUST if named, else PRINTMONEY |
| `ResultsDisplay.XViralityWinsTies` | src/components/ResultsDisplay.tsx:51-52 | when both names appear, XVIRALITY wins |
| `ResultsDisplay.NamedServiceSelected` | src/components/ResultsDisplay.tsx:51 | XVIRALITY anywhere in the result selects it, whatever surrounds it |
| `ResultsDisplay.ServiceUrl` | src/components/ResultsDisplay.tsx:69-74 | every address is an `https://` site ending in `.pro` |
| `ResultsDisplay.EngageUrl` | src/components/ResultsDisplay.tsx:49-75 | the engage button opens one of the three sites: XVIRALITY's whenever the result names it, INBADDIESWETRUST's when only that is named, PRINTMONEY's otherwise |
| `ResultsDisplay.UrlsDistinct` | src/components/ResultsDisplay.tsx:69-74 | the three services open three distinct URLs |
| `TerminalTextHook.TerminalText.constructor` | src/hooks/useTerminalText.ts:16-19 | the text starts empty at index 0, neither deleting nor paused |
| `TerminalTextHook.TerminalText.Tick` | src/hooks/useTerminalText.ts:21-54 | no change for an empty list; the shown text stays a prefix of the current text; typing adds one character and pauses at the end; a pause ends in deleting; deleting removes one character and after the last one moves to index (i+1) mod n; every other tick decreases the ticks left in the cycle |
| `TypewriterHook.TypeOut` | src/hooks/useTypewriter.ts:6-37 | starting from "", there is a frame exactly when `fullText` is non-empty, frame k reveals `min(length, previous + max(1, charsPerFrame(k)))` characters, every frame shows a prefix of `fullText`, each frame is longer than the last, there are at most `fullText.length` frames, and the typed text ends equal to `fullText` |
| `SovietTerminal.SovietTerminal.constructor` | src/components/SovietTerminal.tsx:10-12 | the reveal starts empty at index 0, not complete |
| `SovietTerminal.SovietTerminal.Tick` | src/components/SovietTerminal.tsx:15-27 | the shown text stays `text[0..currentIndex]`; a tick appends the next character; at the end it completes and `onComplete` fires exactly once |
| `SovietTerminal.SovietTerminal.SetText` | src/components/SovietTerminal.tsx:29-34 | a different text resets the reveal; the same text changes nothing |
| `SovietTerminal.SovietTerminal.ShowsCursor` | src/components/SovietTerminal.tsx:50 | the cursor shows exactly while the reveal is incomplete |
| `BootSequence.BootSequence.constructor` | src/components/BootSequence.tsx:8-9 | the count starts at line 0 with the listing shown |
| `BootSequence.BootSequence.IntervalTick` | src/components/BootSequence.tsx:33-45 | a tick adds one line until the last; at the last line it stops the interval and schedules the hide; the line never passes the last index |
| `BootSequence.BootSequence.HideTimerFires` | src/components/BootSequence.tsx:38-40 | the scheduled hide turns the listing off |
| `BootSequence.BootSequence.VisibleLines` | src/components/BootSequence.tsx:69 | the visible lines are exactly the first `currentLine + 1` BIOS lines |
| `BootSequence.BootSequence.HasCursor` | src/components/BootSequence.tsx:72 | a line carries the cursor exactly when it is the last visible line |
| `ProcessingAnimation.LeftColumn` | src/components/ProcessingAnimation.tsx:139 | the left column is a prefix of the lines holding half of them, rounded up |
| `ProcessingAnimation.RightColumn` | src/components/ProcessingAnimation.tsx:155 | the right column is a suffix of the lines holding half of them, rounded down |
| `ProcessingAnimation.ColumnsSplitEvenly` | src/components/ProcessingAnimation.tsx:139-155 | the left and right columns together are the whole list in order, and the left is as long as the right or one line longer |
| `ProcessingAnimation.ProcessingAnimation.constructor` | src/components/ProcessingAnimation.tsx:51-52 | no lines are shown at phase 0 |
| `ProcessingAnimation.ProcessingAnimation.BeginDiagnostics` | src/components/ProcessingAnimation.tsx:87-91 | the timeline callback moves phase 0 to 1 and starts the interval |
| `ProcessingAnimation.ProcessingAnimation.IntervalTick` | src/components/ProcessingAnimation.tsx:91-102 | each tick appends the next of the 13 lines, so the list stays a prefix; the interval stops and phase 2 is scheduled only once all 13 are shown |
| `ProcessingAnimation.ProcessingAnimation.ClimaxTimerFires` | src/components/ProcessingAnimation.tsx:98-100 | the scheduled timeout sets phase 2; the phase never decreases |
| `EndToEnd.SubmittedTextNeverBadRequest` | supabase/functions/claude-analysis/index.ts:116-121 | text that passed the prompt guard never draws a 400, and the provider is called |
| `EndToEnd.HistoryIsForwardedPlusReply` | src/components/SortingEngine.tsx:76-97 | after a success the engine's history equals the handler's forwarded list plus the assistant reply |
| `EndToEnd.EmptyReplyFallsBack` | src/components/SortingEngine.tsx:88-90 | an empty provider text is a 200 from the handler, but the client shows the fallback and keeps the history |

## Left out

- The Anthropic SDK call, its model name, `max_tokens` and the long system prompt. The provider is an outcome parameter, and the prompt is opaque configuration with no control flow.
- The API key read from the environment. A missing key surfaces only as a provider throw, which the model covers.
- A `conversationHistory` that is present but not a list of exchanges. A `null` history throws at `.length` (supabase/functions/claude-analysis/index.ts:129), and the handler answers 500. Any other value the spread cannot iterate, such as a number or a plain object, passes line 129 (its `length` is `undefined`) and throws at the spread (line 134), again giving 500. A non-empty string is spread into one message per character, which the provider call is then likely to reject with a 500. The empty string spreads to nothing, so the provider gets only the user turn and the answer can be a 200. Only an absent history or a list of exchanges is modelled, and the entries are passed on without checks, as in the code.
- A `data.result` that is a truthy non-string. A number, `true` or a plain object has no `includes`, so src/components/SortingEngine.tsx:50 throws and the page reaches ERROR. An array does have `includes`, so it reaches RESULTS, or REJECTED when one of its elements equals the phrase. The handler only ever sends a string `result`, so the model takes `result` as a string.
- The `functions.invoke` transport. Its outcome is a parameter (an error, or `data` with or without `result`).
- Timers and real time. The 2500 ms, 5000 ms, 300 ms, 200 ms and 500 ms delays and the gsap and framer-motion animations are only ordering. Each firing is a method call.
- In `useTypewriter`, the `performance.now` deltas and the float `msPerChar`. They are the arbitrary per-frame count `charsPerFrame`, raised to at least one as in the code. A cancelled frame on unmount is not modelled.
- React rendering details: batching of state updates, stale closures, effect cleanup and re-running an effect when a prop other than the text changes. Each handler is one sequential transition. `useTerminalText` keeps its `texts` fixed.
- The `containerRef` guards that skip an effect before mount. Mounting is the constructor.
- `window.open` navigation, `console.log` and `console.error`, the upper-cased input shown during processing, and the random `PROC_TIME`.
- The canvas grain, the three.js scene, the landing and not-found pages, the module rows, the service pillars and the module list. These are static content or rendering with no logic.
- The `onContinueSubmit` prop passed to `ResultsDisplay`. The component never declares or uses it.
- `TerminalTextHook.TerminalText.Tick`, `TypewriterHook.TypeOut`, `SovietTerminal.SovietTerminal.Tick`: JavaScript strings are indexed by UTF-16 code unit, while a Dafny `string` is indexed by character. For text made only of characters of the Basic Multilingual Plane the two agree. For a character outside it, the code needs two ticks where the model needs one, and between them it shows a lone surrogate. The model does not capture that intermediate state.
- `SovietTerminal.SovietTerminal.SetText`: effect ordering inside one React commit is not modelled. The reveal effect (src/components/SovietTerminal.tsx:15-27) runs before the reset effect (lines 29-34). Mounting with an empty text fires `onComplete`, and then the reset leaves `isComplete` false. Switching mid-reveal to a text no longer than `currentIndex` fires `onComplete` a second time. The model treats a text change as one reset followed by ticks, so `onComplete` fires once per text.
- `ProcessingAnimation.ProcessingAnimation.IntervalTick`: the state updater reads the mutable `lineIndex` local when React runs it (src/components/ProcessingAnimation.tsx:93-94). If React defers it past `lineIndex++`, it could append the line after the intended one. The model appends the line at the index the tick read.
- `TypewriterHook.TypeOut`: the state updater `prev => prev + fullText.slice(i, nextIndex)` reads the mutable `i` local when React runs it (src/hooks/useTypewriter.ts:26-27). If React defers it until after `i = nextIndex`, the slice is empty and that frame appends nothing, so the typed text could end short of `fullText`. The model appends the chunk at the index the frame read, so its `typedText == fullText` holds for the model, not for every scheduling React may choose.
