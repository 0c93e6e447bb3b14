/** The submit guard of the objective prompt: trim, then submit only a non-empty text. */
module PromptInput {

  import opened Wrappers
  import opened Text

  /**
   * `handleSubmit`: what `onSubmit` receives, or `None` when it is not
   * called. The input field itself is not touched.
   */
  function HandleSubmit(input: string): (submitted: Option<string>)
    ensures submitted.Some? <==> !AllWhitespace(input)
    ensures submitted.Some? ==>
              && submitted.value == Trim(input)
              && submitted.value != ""
              && !IsJsWhitespace(submitted.value[0])
              && !IsJsWhitespace(submitted.value[|submitted.value| - 1])
  {
    TrimEmptyIffAllWhitespace(input);
    var trimmed := Trim(input);
    if trimmed != "" then Some(trimmed) else None
  }

  /** `handleKeyDown`: Enter goes through `handleSubmit`; every other key submits nothing. */
  function HandleKeyDown(key: string, input: string): (submitted: Option<string>)
    ensures key != "Enter" ==> submitted == None
  {
    if key == "Enter" then HandleSubmit(input) else None
  }

  /** Enter and the form's submit apply the same guard to the same text. */
  lemma EnterIsSubmit(input: string)
    ensures HandleKeyDown("Enter", input) == HandleSubmit(input)
  {
  }

  /** What is submitted is already trimmed: trimming it again changes nothing. */
  lemma SubmittedIsTrimmed(input: string)
    requires HandleSubmit(input).Some?
    ensures Trim(HandleSubmit(input).value) == HandleSubmit(input).value
  {
    TrimIdempotent(input);
  }
}
