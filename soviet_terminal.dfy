/**
 * The `SovietTerminal` component: reveals `text` one character per tick,
 * then marks itself complete and fires `onComplete` once. A new text
 * restarts the reveal.
 */
module SovietTerminal {

  class SovietTerminal {
    var text: string
    var displayedText: string
    var currentIndex: nat
    var isComplete: bool
    /** How many times `onComplete` has fired for the current text. */
    ghost var completions: nat

    ghost predicate Valid()
      reads this
    {
      && currentIndex <= |text|
      && displayedText == text[..currentIndex]
      && (isComplete ==> currentIndex == |text|)
      && completions == (if isComplete then 1 else 0)
    }

    /** Whether the block cursor is drawn after the text. */
    function ShowsCursor(): (shows: bool)
      reads this
      requires Valid()
      ensures shows <==> !isComplete
      ensures !shows ==> displayedText == text
    {
      !isComplete
    }

    constructor (text: string)
      ensures Valid()
      ensures this.text == text && displayedText == "" && currentIndex == 0
      ensures !isComplete && completions == 0
    {
      this.text := text;
      displayedText := "";
      currentIndex := 0;
      isComplete := false;
      completions := 0;
    }

    /** One run of the reveal effect (a timer firing, or the check once the text is out). */
    method Tick()
      requires Valid()
      modifies this`displayedText, this`currentIndex, this`isComplete, this`completions
      ensures Valid()
      ensures old(currentIndex) < |text| ==>
                && displayedText == old(displayedText) + [text[old(currentIndex)]]
                && currentIndex == old(currentIndex) + 1
                && isComplete == old(isComplete) && completions == old(completions)
      ensures old(currentIndex) == |text| ==>
                && displayedText == old(displayedText) && currentIndex == old(currentIndex)
                && isComplete && completions == 1
                && (old(completions) == 0 <==> completions == old(completions) + 1)
    {
      if currentIndex < |text| {
        displayedText := displayedText + [text[currentIndex]];
        currentIndex := currentIndex + 1;
      } else if !isComplete {
        isComplete := true;
        completions := completions + 1;
      }
    }

    /** A new `text` prop: the reset effect runs only when the text actually changed. */
    method SetText(newText: string)
      requires Valid()
      modifies this
      ensures Valid()
      ensures text == newText
      ensures newText != old(text) ==>
                displayedText == "" && currentIndex == 0 && !isComplete && completions == 0
      ensures newText == old(text) ==>
                displayedText == old(displayedText) && currentIndex == old(currentIndex)
                && isComplete == old(isComplete) && completions == old(completions)
    {
      if newText != text {
        text := newText;
        displayedText := "";
        currentIndex := 0;
        isComplete := false;
        completions := 0;
      }
    }
  }
}
