/**
 * The `BootSequence` component: the BIOS lines appear one per interval
 * tick; at the last line the interval stops and, after a delay, the BIOS
 * listing gives way to the command prompt.
 */
module BootSequence {

  const BiosLines: seq<string> := [
    "YEGOR OS V1.0 BOOT SEQUENCE INITIATED",
    "MEMORY CHECK................ [ OK ]",
    "CPU VERIFICATION............. [ OK ]",
    "NEURAL NETWORKS.............. [ OK ]",
    "CLASSIFICATION ENGINE........ [ OK ]",
    "PSYCHOMETRIC MODULES......... [ OK ]",
    "MARKET ANALYSIS CORE......... [ OK ]",
    "",
    "LOADING SORTING_ENGINE.EXE..."
  ]

  const LastLine := |BiosLines| - 1

  class BootSequence {
    var currentLine: nat
    var showBios: bool
    /** The 200 ms interval is running. */
    var intervalActive: bool
    /** The 500 ms timeout that hides the BIOS listing is pending. */
    var hidePending: bool

    ghost predicate Valid()
      reads this
    {
      && currentLine <= LastLine
      && !(intervalActive && hidePending)
      && (hidePending ==> currentLine == LastLine && showBios)
      && (!showBios ==> currentLine == LastLine && !intervalActive && !hidePending)
    }

    /** The BIOS lines on screen (none once the prompt has replaced them). */
    function VisibleLines(): (lines: seq<string>)
      reads this
      requires Valid()
      ensures showBios ==> |lines| == currentLine + 1 && lines == BiosLines[..|lines|]
      ensures !showBios ==> lines == []
    {
      if showBios then BiosLines[..currentLine + 1] else []
    }

    /** Whether the visible line at `index` carries the cursor block. */
    function HasCursor(index: nat): (cursor: bool)
      reads this
      requires Valid()
      ensures cursor <==> VisibleLines() != [] && index == |VisibleLines()| - 1
    {
      showBios && index == currentLine
    }

    /** Mount; the timeline starts the interval straight away (its 0.2 s lead-in is timing only). */
    constructor ()
      ensures Valid()
      ensures currentLine == 0 && showBios && intervalActive && !hidePending
    {
      currentLine := 0;
      showBios := true;
      intervalActive := true;
      hidePending := false;
    }

    /** One firing of the interval; a cleared interval no longer fires. */
    method IntervalTick()
      requires Valid()
      modifies this`currentLine, this`intervalActive, this`hidePending
      ensures Valid()
      ensures old(intervalActive) && old(currentLine) < LastLine ==>
                currentLine == old(currentLine) + 1 && intervalActive && !hidePending
      ensures old(intervalActive) && old(currentLine) == LastLine ==>
                currentLine == old(currentLine) && !intervalActive && hidePending
      ensures !old(intervalActive) ==>
                currentLine == old(currentLine) && !intervalActive && hidePending == old(hidePending)
    {
      if intervalActive {
        if currentLine >= LastLine {
          intervalActive := false;
          hidePending := true;
        } else {
          currentLine := currentLine + 1;
        }
      }
    }

    /** The hide timeout fires. */
    method HideTimerFires()
      requires Valid()
      modifies this`showBios, this`hidePending
      ensures Valid()
      ensures old(hidePending) ==> !showBios && !hidePending
      ensures !old(hidePending) ==> showBios == old(showBios) && !hidePending
    {
      if hidePending {
        showBios := false;
        hidePending := false;
      }
    }
  }
}
