/**
 * The `useTerminalText` hook: type a text one character per tick, pause,
 * delete it one character per tick, then move on to the next text,
 * cyclically. Each timer firing is one call of `Tick`.
 */
module TerminalTextHook {

  import opened Text

  class TerminalText {
    const texts: seq<string>
    var displayText: string
    var currentIndex: nat
    var isDeleting: bool
    var isPaused: bool

    ghost function CurrentText(): string
      reads this
      requires currentIndex < |texts|
    {
      texts[currentIndex]
    }

    ghost predicate Valid()
      reads this
    {
      if |texts| == 0 then
        displayText == "" && currentIndex == 0 && !isDeleting && !isPaused
      else
        && currentIndex < |texts|
        && IsPrefix(displayText, CurrentText())
        && (isPaused ==> !isDeleting && displayText == CurrentText() && displayText != "")
        && (isDeleting ==> |displayText| >= 1)
        && (!isPaused && !isDeleting ==> |displayText| < |CurrentText()| || CurrentText() == "")
    }

    /**
     * Ticks left before the current text is fully deleted: typing, then the
     * pause, then deleting. Each tick lowers it, except the one that deletes
     * the last character and moves to the next text.
     */
    ghost function Remaining(): nat
      reads this
      requires Valid() && |texts| > 0
    {
      if isDeleting then |displayText|
      else if isPaused then |displayText| + 1
      else 2 * |CurrentText()| - |displayText| + 1
    }

    constructor (texts: seq<string>)
      ensures Valid()
      ensures this.texts == texts
      ensures displayText == "" && currentIndex == 0 && !isDeleting && !isPaused
    {
      this.texts := texts;
      displayText := "";
      currentIndex := 0;
      isDeleting := false;
      isPaused := false;
    }

    /** One timer firing of the effect. */
    method Tick()
      requires Valid()
      modifies this
      ensures Valid()
      ensures |texts| == 0 ==>
                displayText == old(displayText) && currentIndex == old(currentIndex)
                && isDeleting == old(isDeleting) && isPaused == old(isPaused)
      // The pause ends by switching to deleting.
      ensures |texts| > 0 && old(isPaused) ==>
                !isPaused && isDeleting
                && displayText == old(displayText) && currentIndex == old(currentIndex)
      // A deleting tick removes exactly the last character; removing the final
      // one moves on to the next text, wrapping around.
      ensures |texts| > 0 && !old(isPaused) && old(isDeleting) ==>
                && !isPaused
                && displayText == old(displayText)[..|old(displayText)| - 1]
                && (if |old(displayText)| == 1
                    then !isDeleting && currentIndex == (old(currentIndex) + 1) % |texts|
                    else isDeleting && currentIndex == old(currentIndex))
      // A typing tick adds exactly the next character; typing the last one starts the pause.
      ensures |texts| > 0 && !old(isPaused) && !old(isDeleting) && texts[old(currentIndex)] != "" ==>
                && !isDeleting && currentIndex == old(currentIndex)
                && displayText == old(displayText) + [texts[currentIndex][|old(displayText)|]]
                && isPaused == (displayText == texts[currentIndex])
      // An empty text is never typed, paused on or deleted.
      ensures |texts| > 0 && !old(isPaused) && !old(isDeleting) && texts[old(currentIndex)] == "" ==>
                displayText == "" && currentIndex == old(currentIndex) && !isDeleting && !isPaused
      // Progress: every tick but the one that completes a cycle gets closer to it.
      ensures |texts| > 0 && texts[old(currentIndex)] != "" && !(old(isDeleting) && |old(displayText)| == 1) ==>
                currentIndex == old(currentIndex) && Remaining() < old(Remaining())
    {
      if |texts| == 0 {
        return;
      }
      var currentText := texts[currentIndex];
      if isPaused {
        isPaused := false;
        isDeleting := true;
        return;
      }
      var shown := displayText;
      if isDeleting {
        displayText := SubstringTo(currentText, |shown| - 1);
        if |shown| == 1 {
          isDeleting := false;
          currentIndex := (currentIndex + 1) % |texts|;
        }
      } else {
        displayText := SubstringTo(currentText, |shown| + 1);
        if |shown| == |currentText| - 1 {
          isPaused := true;
        }
      }
    }
  }
}
