/**
 * The `ProcessingAnimation` component: after the opening glitch, phase 1
 * starts an interval that shows the diagnostic lines one per tick; once all
 * are shown the interval stops and phase 2 follows after a delay. The lines
 * are drawn in two columns.
 */
module ProcessingAnimation {

  const AllDiagnosticLines: seq<string> := [
    "ДЕКОДИРОВАНИЕ НАМЕРЕНИЙ...",
    "PARSING SEMANTIC VECTORS",
    "MARKET VECTOR ANALYSIS INITIATED",
    "COMPILING PSYCHOMETRIC PROFILE",
    "ПРОТОКОЛ АКТИВИРОВАН",
    "NEURAL PATHWAYS MAPPING",
    "INTENT CLASSIFICATION IN PROGRESS",
    "BEHAVIORAL PATTERN RECOGNITION",
    "COMPETITIVE ANALYSIS RUNNING",
    "REVENUE POTENTIAL CALCULATING",
    "STRATEGIC ALIGNMENT CHECKING",
    "FINAL CLASSIFICATION SEQUENCE",
    "РЕЗУЛЬТАТ ГОТОВ..."
  ]

  /** `Math.ceil(n / 2)` for a length `n`. */
  function HalfUp(n: nat): nat
  {
    (n + 1) / 2
  }

  /** The left column: `lines.slice(0, Math.ceil(lines.length / 2))`, the first half rounded up. */
  function LeftColumn(lines: seq<string>): (left: seq<string>)
    ensures |left| <= |lines| && left == lines[..|left|]
    ensures |lines| <= 2 * |left| <= |lines| + 1
  {
    lines[..HalfUp(|lines|)]
  }

  /** The right column: `lines.slice(Math.ceil(lines.length / 2))`, the last half rounded down. */
  function RightColumn(lines: seq<string>): (right: seq<string>)
    ensures |right| <= |lines| && right == lines[|lines| - |right|..]
    ensures 2 * |right| <= |lines| <= 2 * |right| + 1
  {
    lines[HalfUp(|lines|)..]
  }

  /**
   * The two columns together are the whole list in order, and the left one
   * is as long as the right one or one line longer.
   */
  lemma ColumnsSplitEvenly(lines: seq<string>)
    ensures LeftColumn(lines) + RightColumn(lines) == lines
    ensures |RightColumn(lines)| <= |LeftColumn(lines)| <= |RightColumn(lines)| + 1
  {
  }

  class ProcessingAnimation {
    var diagnosticLines: seq<string>
    var phase: nat
    /** The `lineIndex` local of the effect. */
    var lineIndex: nat
    /** The 300 ms interval is running. */
    var intervalActive: bool
    /** The 500 ms timeout that sets phase 2 is pending. */
    var climaxPending: bool

    ghost predicate Valid()
      reads this
    {
      && lineIndex <= |AllDiagnosticLines|
      && diagnosticLines == AllDiagnosticLines[..lineIndex]
      && phase <= 2
      && !(intervalActive && climaxPending)
      && (phase == 0 ==> lineIndex == 0 && !intervalActive && !climaxPending)
      && (climaxPending ==> phase == 1 && lineIndex == |AllDiagnosticLines|)
      && (phase == 2 ==> lineIndex == |AllDiagnosticLines| && !intervalActive && !climaxPending)
    }

    constructor ()
      ensures Valid()
      ensures diagnosticLines == [] && phase == 0 && lineIndex == 0
      ensures !intervalActive && !climaxPending
    {
      diagnosticLines := [];
      phase := 0;
      lineIndex := 0;
      intervalActive := false;
      climaxPending := false;
    }

    /** The timeline reaches its `add` callback (once per mount): phase 1 and the interval begin. */
    method BeginDiagnostics()
      requires Valid() && phase == 0
      modifies this`phase, this`intervalActive
      ensures Valid()
      ensures phase == 1 && intervalActive
    {
      phase := 1;
      intervalActive := true;
    }

    /** One firing of the interval; a cleared interval no longer fires. */
    method IntervalTick()
      requires Valid()
      modifies this`diagnosticLines, this`lineIndex, this`intervalActive, this`climaxPending
      ensures Valid()
      ensures old(intervalActive) && old(lineIndex) < |AllDiagnosticLines| ==>
                && diagnosticLines == old(diagnosticLines) + [AllDiagnosticLines[old(lineIndex)]]
                && lineIndex == old(lineIndex) + 1 && intervalActive && !climaxPending
      ensures old(intervalActive) && old(lineIndex) == |AllDiagnosticLines| ==>
                && diagnosticLines == old(diagnosticLines) && lineIndex == old(lineIndex)
                && !intervalActive && climaxPending
      ensures !old(intervalActive) ==>
                && diagnosticLines == old(diagnosticLines) && lineIndex == old(lineIndex)
                && !intervalActive && climaxPending == old(climaxPending)
    {
      if intervalActive {
        if lineIndex < |AllDiagnosticLines| {
          diagnosticLines := diagnosticLines + [AllDiagnosticLines[lineIndex]];
          lineIndex := lineIndex + 1;
        } else {
          intervalActive := false;
          climaxPending := true;
        }
      }
    }

    /** The climax timeout fires. */
    method ClimaxTimerFires()
      requires Valid()
      modifies this`phase, this`climaxPending
      ensures Valid()
      ensures old(climaxPending) ==> phase == 2 && !climaxPending
      ensures !old(climaxPending) ==> phase == old(phase) && !climaxPending
      ensures old(phase) <= phase
    {
      if climaxPending {
        phase := 2;
        climaxPending := false;
      }
    }
  }
}
