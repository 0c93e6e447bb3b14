/**
 * String operations of JavaScript that the model relies on:
 * `includes`, `substring(0, n)` and `trim`.
 */
module Text {

  /** `s.includes(part)`: `part` occurs somewhere in `s` as a contiguous run. */
  predicate Contains(s: string, part: string)
    ensures Contains(s, part) ==> |part| <= |s|
  {
    exists i | 0 <= i <= |s| - |part| :: OccursAt(s, part, i)
  }

  predicate OccursAt(s: string, part: string, i: int)
  {
    0 <= i <= |s| - |part| && s[i..i + |part|] == part
  }

  predicate IsPrefix(p: string, s: string)
  {
    |p| <= |s| && p == s[..|p|]
  }

  /** An occurrence inside `mid` is an occurrence inside `pre + mid + post`. */
  lemma ContainsInside(pre: string, mid: string, post: string, part: string)
    requires Contains(mid, part)
    ensures Contains(pre + mid + post, part)
  {
    var i :| 0 <= i <= |mid| - |part| && OccursAt(mid, part, i);
    var s := pre + mid + post;
    assert s[|pre| + i..|pre| + i + |part|] == mid[i..i + |part|];
    assert OccursAt(s, part, |pre| + i);
  }

  /** Every string contains itself. */
  lemma ContainsSelf(s: string)
    ensures Contains(s, s)
  {
    assert OccursAt(s, s, 0);
  }

  /** Inside an occurrence, `s` agrees with `part` character by character. */
  lemma OccurrenceChar(s: string, part: string, i: int, j: int)
    requires OccursAt(s, part, i) && 0 <= j < |part|
    ensures s[i + j] == part[j]
  {
    assert s[i..i + |part|][j] == s[i + j];
  }

  /** An occurrence lying within `s[lo..hi]` is an occurrence in that slice. */
  lemma OccursInSlice(s: string, part: string, i: int, lo: int, hi: int)
    requires OccursAt(s, part, i) && 0 <= lo <= i && i + |part| <= hi <= |s|
    ensures OccursAt(s[lo..hi], part, i - lo)
  {
    var t := s[lo..hi];
    forall k | 0 <= k < |part|
      ensures t[i - lo..i - lo + |part|][k] == part[k]
    {
      OccurrenceChar(s, part, i, k);
    }
  }

  /** A string that lacks one of the characters of `part` does not contain `part`. */
  lemma MissingCharExcludes(s: string, part: string, j: int)
    requires 0 <= j < |part| && part[j] !in s
    ensures !Contains(s, part)
  {
    forall i | 0 <= i <= |s| - |part|
      ensures !OccursAt(s, part, i)
    {
      if OccursAt(s, part, i) {
        OccurrenceChar(s, part, i, j);
      }
    }
  }

  /**
   * When `head` ends and `tail` starts with a character that `part` lacks,
   * and neither contains `part`, then `head + mid + tail` contains `part`
   * exactly when `mid` does: an occurrence cannot reach across either
   * delimiter.
   */
  lemma DelimitedContains(head: string, mid: string, tail: string, part: string)
    requires !Contains(head, part) && !Contains(tail, part)
    requires |head| > 0 && head[|head| - 1] !in part
    requires |tail| > 0 && tail[0] !in part
    ensures Contains(head + mid + tail, part) <==> Contains(mid, part)
  {
    if Contains(mid, part) {
      ContainsInside(head, mid, tail, part);
    }
    var s := head + mid + tail;
    var h, m, n := |head|, |mid|, |part|;
    if i :| 0 <= i <= |s| - n && OccursAt(s, part, i) {
      if i + n <= h {
        OccursInSlice(s, part, i, 0, h);
        assert s[0..h] == head;
      } else if h <= i && i + n <= h + m {
        OccursInSlice(s, part, i, h, h + m);
        assert s[h..h + m] == mid;
      } else if h + m < i {
        OccursInSlice(s, part, i, h + m, |s|);
        assert s[h + m..|s|] == tail;
      } else if i < h {
        OccurrenceChar(s, part, i, h - 1 - i);
      } else {
        OccurrenceChar(s, part, i, h + m - i);
      }
    }
  }

  /**
   * `s.substring(0, n)`: a negative end counts as 0 and an end past the
   * string counts as its length.
   */
  function SubstringTo(s: string, n: int): (r: string)
    ensures IsPrefix(r, s)
    ensures |r| == if n <= 0 then 0 else if n >= |s| then |s| else n
  {
    if n <= 0 then "" else if n >= |s| then s else s[..n]
  }

  /**
   * The characters JavaScript's `String.prototype.trim` strips: the
   * WhiteSpace and LineTerminator code points of ECMAScript (sections
   * 12.2 and 12.3 of ECMA-262).
   */
  predicate IsJsWhitespace(c: char)
  {
    || c == '\t' || c == '\n' || c == '\U{000B}' || c == '\U{000C}' || c == '\r'
    || c == ' ' || c == '\U{00A0}' || c == '\U{1680}'
    || ('\U{2000}' <= c <= '\U{200A}')
    || c == '\U{2028}' || c == '\U{2029}' || c == '\U{202F}' || c == '\U{205F}'
    || c == '\U{3000}' || c == '\U{FEFF}'
  }

  predicate AllWhitespace(s: string)
  {
    forall i :: 0 <= i < |s| ==> IsJsWhitespace(s[i])
  }

  /** Strips leading whitespace: the result is the suffix after a run of whitespace. */
  function TrimStart(s: string): (r: string)
    ensures |r| <= |s| && r == s[|s| - |r|..]
    ensures AllWhitespace(s[..|s| - |r|])
    ensures r != [] ==> !IsJsWhitespace(r[0])
  {
    if |s| > 0 && IsJsWhitespace(s[0]) then
      var r := TrimStart(s[1..]);
      assert s[1..][..|s| - 1 - |r|] == s[1..|s| - |r|];
      assert s[..|s| - |r|] == [s[0]] + s[1..|s| - |r|];
      r
    else
      s
  }

  /** Strips trailing whitespace: the result is the prefix before a run of whitespace. */
  function TrimEnd(s: string): (r: string)
    ensures |r| <= |s| && r == s[..|r|]
    ensures AllWhitespace(s[|r|..])
    ensures r != [] ==> !IsJsWhitespace(r[|r| - 1])
  {
    if |s| > 0 && IsJsWhitespace(s[|s| - 1]) then
      var r := TrimEnd(s[..|s| - 1]);
      assert s[..|s| - 1][|r|..] == s[|r|..|s| - 1];
      assert s[|r|..] == s[|r|..|s| - 1] + [s[|s| - 1]];
      r
    else
      s
  }

  /**
   * `s.trim()`: the result is the slice `s[a..a + |r|]` of `s`, everything
   * around it is whitespace, and it neither starts nor ends with whitespace.
   */
  function Trim(s: string): (r: string)
    ensures var a := |s| - |TrimStart(s)|;
            && a + |r| <= |s| && r == s[a..a + |r|]
            && AllWhitespace(s[..a]) && AllWhitespace(s[a + |r|..])
    ensures r != [] ==> !IsJsWhitespace(r[0]) && !IsJsWhitespace(r[|r| - 1])
  {
    var t := TrimStart(s);
    var r := TrimEnd(t);
    SliceOfSuffix(s, |s| - |t|, |r|);
    r
  }

  lemma SliceOfSuffix(s: string, a: nat, n: nat)
    requires a <= |s| && n <= |s| - a
    ensures s[a..][..n] == s[a..a + n]
    ensures s[a..][n..] == s[a + n..]
  {
  }

  /** `trim()` gives the empty string exactly when the input is all whitespace. */
  lemma TrimEmptyIffAllWhitespace(s: string)
    ensures Trim(s) == [] <==> AllWhitespace(s)
  {
    var r := Trim(s);
    var a := |s| - |TrimStart(s)|;
    if r == [] {
      forall i | 0 <= i < |s| ensures IsJsWhitespace(s[i]) {
        if i < a { assert s[..a][i] == s[i]; } else { assert s[a..][i - a] == s[i]; }
      }
    } else {
      assert s[a] == r[0];
    }
  }

  /** Trimming twice is trimming once. */
  lemma TrimIdempotent(s: string)
    ensures Trim(Trim(s)) == Trim(s)
  {
    var r := Trim(s);
    if r != [] {
      TrimStartNoop(r);
      TrimEndNoop(r);
    }
  }

  lemma TrimStartNoop(s: string)
    requires s != [] && !IsJsWhitespace(s[0])
    ensures TrimStart(s) == s
  {
  }

  lemma TrimEndNoop(s: string)
    requires s != [] && !IsJsWhitespace(s[|s| - 1])
    ensures TrimEnd(s) == s
  {
  }
}
