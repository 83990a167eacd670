/** The string operations the program relies on: `str.lower()`, the
    substring test `a in b`, and `"\n".join(...)`, together with a line
    splitter used to state what a rendered text contains. */
module Text {

  /** `c.lower()` for one character; only the ASCII letters A-Z are changed. */
  function LowerChar(c: char): char {
    if 'A' <= c <= 'Z' then (c as int + 32) as char else c
  }

  /** `s.lower()`, over ASCII letters only: each capital becomes the small
      letter 32 code points above it, and nothing else changes. */
  function Lower(s: string): (r: string)
    ensures |r| == |s|
    ensures forall i :: 0 <= i < |r| ==> !('A' <= r[i] <= 'Z')
    ensures forall i :: 0 <= i < |r| ==> (r[i] == s[i] || 'A' <= s[i] <= 'Z')
    ensures forall i :: 0 <= i < |s| && 'A' <= s[i] <= 'Z' ==> r[i] as int == s[i] as int + 32
  {
    seq(|s|, i requires 0 <= i < |s| => LowerChar(s[i]))
  }

  /** `a` and `b` are the same character, or the same ASCII letter in the
      two cases. */
  predicate SameIgnoringCase(a: char, b: char) {
    || a == b
    || ('A' <= a <= 'Z' && b as int == a as int + 32)
    || ('A' <= b <= 'Z' && a as int == b as int + 32)
  }

  /** Two spellings of a text that differ only in the case of ASCII letters
      lower-case to the same text. */
  lemma LowerIgnoresCase(s: string, t: string)
    requires |s| == |t|
    requires forall i :: 0 <= i < |s| ==> SameIgnoringCase(s[i], t[i])
    ensures Lower(s) == Lower(t)
  {
    forall i | 0 <= i < |s| ensures Lower(s)[i] == Lower(t)[i] {
      assert LowerChar(s[i]) == LowerChar(t[i]);
    }
  }

  /** `needle` occurs in `hay` at position `i`. */
  predicate OccursAt(hay: string, needle: string, i: int) {
    0 <= i && i + |needle| <= |hay| && hay[i..i + |needle|] == needle
  }

  lemma OccursAtShift(hay: string, needle: string, i: int)
    requires |hay| > 0 && i >= 0
    ensures OccursAt(hay, needle, i + 1) <==> OccursAt(hay[1..], needle, i)
  {
    if i + 1 + |needle| <= |hay| {
      assert hay[1..][i..i + |needle|] == hay[i + 1..i + 1 + |needle|];
    }
  }

  /** An occurrence is either at the front or in the tail. */
  lemma OccursUnfold(hay: string, needle: string)
    ensures (exists i :: OccursAt(hay, needle, i)) <==>
            OccursAt(hay, needle, 0) || (|hay| > 0 && exists i :: OccursAt(hay[1..], needle, i))
  {
    if i :| OccursAt(hay, needle, i) && i != 0 {
      OccursAtShift(hay, needle, i - 1);
    }
    if |hay| > 0 {
      if j :| OccursAt(hay[1..], needle, j) {
        OccursAtShift(hay, needle, j);
      }
    }
  }

  /** Python's `needle in hay` on strings: true exactly when `needle` is a
      contiguous substring of `hay` (the empty string is in every string). */
  function Contains(hay: string, needle: string): (r: bool)
    ensures r <==> exists i :: OccursAt(hay, needle, i)
    decreases |hay|
  {
    OccursUnfold(hay, needle);
    if OccursAt(hay, needle, 0) then true
    else if |hay| == 0 then false
    else Contains(hay[1..], needle)
  }

  /** `"\n".join(lines)`. */
  function JoinLines(lines: seq<string>): string
    decreases |lines|
  {
    if |lines| == 0 then ""
    else if |lines| == 1 then lines[0]
    else lines[0] + "\n" + JoinLines(lines[1..])
  }

  /** `s.split("\n")`: the lines of `s`; a text without a newline is one line. */
  function SplitLines(s: string): (r: seq<string>)
    ensures |r| >= 1
    decreases |s|
  {
    if |s| == 0 then [""]
    else
      var rest := SplitLines(s[1..]);
      if s[0] == '\n' then [""] + rest
      else [[s[0]] + rest[0]] + rest[1..]
  }

  /** A line without a newline, followed by a newline, is a line of its own. */
  lemma {:induction false} SplitAfterLine(a: string, b: string)
    requires '\n' !in a
    ensures SplitLines(a + "\n" + b) == [a] + SplitLines(b)
    decreases |a|
  {
    var s := a + "\n" + b;
    if |a| == 0 {
      assert s[0] == '\n' && s[1..] == b;
    } else {
      var tail := a[1..] + "\n" + b;
      assert s[0] == a[0] && s[1..] == tail;
      SplitAfterLine(a[1..], b);
      assert [a[0]] + a[1..] == a;
    }
  }

  /** A text without a newline is a single line. */
  lemma {:induction false} SplitWithoutBreaks(s: string)
    requires '\n' !in s
    ensures SplitLines(s) == [s]
    decreases |s|
  {
    if |s| > 0 {
      SplitWithoutBreaks(s[1..]);
      assert [s[0]] + s[1..] == s;
    }
  }

  /** Joining lines that hold no newline and splitting again gives them back. */
  lemma {:induction false} SplitJoin(lines: seq<string>)
    requires |lines| > 0
    requires forall i :: 0 <= i < |lines| ==> '\n' !in lines[i]
    ensures SplitLines(JoinLines(lines)) == lines
    decreases |lines|
  {
    if |lines| == 1 {
      SplitWithoutBreaks(lines[0]);
    } else {
      SplitJoin(lines[1..]);
      SplitAfterLine(lines[0], JoinLines(lines[1..]));
      assert lines == [lines[0]] + lines[1..];
    }
  }

  /** Joining two non-empty runs of lines puts one newline between them. */
  lemma {:induction false} JoinAppend(xs: seq<string>, ys: seq<string>)
    requires |xs| > 0 && |ys| > 0
    ensures JoinLines(xs + ys) == JoinLines(xs) + "\n" + JoinLines(ys)
    decreases |xs|
  {
    assert (xs + ys)[0] == xs[0];
    if |xs| == 1 {
      assert (xs + ys)[1..] == ys;
    } else {
      assert (xs + ys)[1..] == xs[1..] + ys;
      JoinAppend(xs[1..], ys);
    }
  }

  /** Lines without newlines, joined and followed by a newline, stay
      lines of their own in front of whatever follows. */
  lemma {:induction false} SplitAfterLines(lines: seq<string>, b: string)
    requires |lines| > 0
    requires forall i :: 0 <= i < |lines| ==> '\n' !in lines[i]
    ensures SplitLines(JoinLines(lines) + "\n" + b) == lines + SplitLines(b)
    decreases |lines|
  {
    if |lines| == 1 {
      SplitAfterLine(lines[0], b);
    } else {
      var first, rest := lines[0], lines[1..];
      var tail := JoinLines(rest) + "\n" + b;
      calc {
        SplitLines(JoinLines(lines) + "\n" + b);
        { assert JoinLines(lines) + "\n" + b == first + "\n" + tail; }
        SplitLines(first + "\n" + tail);
        { SplitAfterLine(first, tail); }
        [first] + SplitLines(tail);
        { SplitAfterLines(rest, b); }
        [first] + (rest + SplitLines(b));
        { assert lines == [first] + rest; }
        lines + SplitLines(b);
      }
    }
  }
}
