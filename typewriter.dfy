/**
 * The `useTypewriter` hook: on every change of `fullText` the typed text is
 * reset and then revealed in chunks, one chunk per animation frame, until
 * the whole text is shown. Frame timing is not modelled: the number of
 * characters the elapsed time allows in frame `k` is `charsPerFrame(k)`.
 */
module TypewriterHook {

  import opened Text

  function Max(a: int, b: int): int { if a < b then b else a }

  function Min(a: int, b: int): int { if a < b then a else b }

  /**
   * One run of the effect. Returns the final typed text and the typed text
   * after each frame. Frame `k` adds `max(1, charsPerFrame(k))` characters,
   * capped at the end of the text, so every frame adds at least one.
   */
  method TypeOut(fullText: string, charsPerFrame: nat -> nat) returns (typedText: string, shown: seq<string>)
    ensures typedText == fullText
    ensures shown == [] <==> fullText == ""
    ensures |shown| <= |fullText|
    ensures forall k :: 0 <= k < |shown| ==> IsPrefix(shown[k], fullText)
    ensures forall k :: 0 < k < |shown| ==> |shown[k - 1]| < |shown[k]|
    ensures shown != [] ==> shown[|shown| - 1] == fullText
    ensures forall k :: 0 <= k < |shown| ==>
              |shown[k]| == Min(|fullText|, (if k == 0 then 0 else |shown[k - 1]|) + Max(1, charsPerFrame(k)))
  {
    typedText := "";
    shown := [];
    if fullText == "" {
      return;
    }
    var i := 0;
    var frame := 0;
    while i < |fullText|
      invariant 0 <= i <= |fullText|
      invariant typedText == fullText[..i]
      invariant |shown| <= i
      invariant forall k :: 0 <= k < |shown| ==> IsPrefix(shown[k], fullText)
      invariant forall k :: 0 < k < |shown| ==> |shown[k - 1]| < |shown[k]|
      invariant shown != [] ==> shown[|shown| - 1] == typedText
      invariant shown == [] ==> i == 0
      invariant frame == |shown|
      invariant forall k :: 0 <= k < |shown| ==>
                  |shown[k]| == Min(|fullText|, (if k == 0 then 0 else |shown[k - 1]|) + Max(1, charsPerFrame(k)))
      decreases |fullText| - i
    {
      var charsToAdd := Max(1, charsPerFrame(frame));
      var nextIndex := Min(|fullText|, i + charsToAdd);
      if nextIndex > i {
        assert fullText[..nextIndex] == fullText[..i] + fullText[i..nextIndex];
        typedText := typedText + fullText[i..nextIndex];
        i := nextIndex;
        shown := shown + [typedText];
      }
      frame := frame + 1;
    }
  }
}
