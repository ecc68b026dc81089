/**
 * The sentinel lines an executor is asked to print, and the matcher that
 * decides whether an output ends with one of them.
 */
module CliStrings {
  import opened Text

  const STEP2_SENTINEL: string := "RESULT: TESTS_WRITTEN"
  const PASS_SENTINEL: string := "RESULT: PASS"
  const FAIL_SENTINEL: string := "RESULT: FAIL"

  /** The lines of an output once the whole output has been stripped. */
  function OutputLines(output: string): seq<string>
  {
    SplitLines(Strip(output))
  }

  /** The last three of `lines`, or all of them when there are fewer. */
  function LastThree(lines: seq<string>): seq<string>
  {
    if |lines| >= 3 then lines[|lines| - 3..] else lines
  }

  /** The last three lines of the stripped output, or all of them when there are fewer. */
  function Window(output: string): seq<string>
  {
    LastThree(OutputLines(output))
  }

  /** One line matches when, stripped and upper-cased, it equals the upper-cased
      sentinel. The sentinel itself is upper-cased but not stripped. */
  predicate LineMatches(line: string, sentinel: string)
  {
    Upper(Strip(line)) == Upper(sentinel)
  }

  /** The search loop over the window, returning at the first matching line. */
  function AnyLineMatches(lines: seq<string>, sentinel: string): bool
  {
    if lines == [] then false
    else if LineMatches(lines[0], sentinel) then true
    else AnyLineMatches(lines[1..], sentinel)
  }

  /** `check_sentinel_in_output`. */
  function CheckSentinelInOutput(output: string, sentinel: string): bool
  {
    AnyLineMatches(Window(output), sentinel)
  }

  lemma {:induction false} AnyLineMatchesExists(lines: seq<string>, sentinel: string)
    ensures AnyLineMatches(lines, sentinel) <==>
            exists i :: 0 <= i < |lines| && LineMatches(lines[i], sentinel)
  {
    if lines != [] {
      AnyLineMatchesExists(lines[1..], sentinel);
      if !LineMatches(lines[0], sentinel) && AnyLineMatches(lines, sentinel) {
        var i :| 0 <= i < |lines[1..]| && LineMatches(lines[1..][i], sentinel);
        assert LineMatches(lines[i + 1], sentinel);
      }
      if exists i :: 0 <= i < |lines| && LineMatches(lines[i], sentinel) {
        var i :| 0 <= i < |lines| && LineMatches(lines[i], sentinel);
        if i > 0 {
          assert LineMatches(lines[1..][i - 1], sentinel);
        }
      }
    }
  }

  /** The matcher accepts exactly when one of the last min(3, n) lines of the
      stripped output equals the sentinel after trimming and upper-casing. */
  lemma CheckSentinelCharacterization(output: string, sentinel: string)
    ensures var lines := OutputLines(output);
            CheckSentinelInOutput(output, sentinel) <==>
            exists i :: 0 <= i < |lines| && |lines| - 3 <= i && LineMatches(lines[i], sentinel)
  {
    LastThreeMatch(OutputLines(output), sentinel);
  }

  /** A line of the last three matches exactly when one of `lines` from index
      `|lines| - 3` on matches. */
  lemma LastThreeMatch(lines: seq<string>, sentinel: string)
    ensures AnyLineMatches(LastThree(lines), sentinel) <==>
            exists i :: 0 <= i < |lines| && |lines| - 3 <= i && LineMatches(lines[i], sentinel)
  {
    var w := LastThree(lines);
    var off := |lines| - |w|;
    assert forall i | 0 <= i < |w| :: w[i] == lines[off + i];
    AnyLineMatchesExists(w, sentinel);
    if exists i :: 0 <= i < |lines| && |lines| - 3 <= i && LineMatches(lines[i], sentinel) {
      var i :| 0 <= i < |lines| && |lines| - 3 <= i && LineMatches(lines[i], sentinel);
      assert LineMatches(w[i - off], sentinel);
    }
  }

  /** A line that is the sentinel itself matches it. */
  lemma SentinelLineMatches(s: string)
    requires s == [] || (!IsSpace(s[0]) && !IsSpace(s[|s| - 1]))
    ensures LineMatches(s, s)
  {
    StripNoBorder(s);
  }

  /** A sentinel on the last line of the stripped output is seen. */
  lemma LastLineSeen(output: string, sentinel: string)
    requires OutputLines(output) != []
    requires LineMatches(OutputLines(output)[|OutputLines(output)| - 1], sentinel)
    ensures CheckSentinelInOutput(output, sentinel)
  {
    CheckSentinelCharacterization(output, sentinel);
  }

  /** When the stripped output has at least three lines, the matcher decides on exactly
      the last three. */
  lemma LastThreeLinesDecide(output: string, a: string, b: string, c: string, sentinel: string)
    requires |OutputLines(output)| >= 3
    requires OutputLines(output)[|OutputLines(output)| - 3..] == [a, b, c]
    ensures CheckSentinelInOutput(output, sentinel) <==>
            LineMatches(a, sentinel) || LineMatches(b, sentinel) || LineMatches(c, sentinel)
  {
    var lines := OutputLines(output);
    var n := |lines|;
    assert lines[n - 3] == a && lines[n - 2] == b && lines[n - 1] == c;
    CheckSentinelCharacterization(output, sentinel);
    if LineMatches(a, sentinel) || LineMatches(b, sentinel) || LineMatches(c, sentinel) {
      if LineMatches(a, sentinel) {
        assert LineMatches(lines[n - 3], sentinel);
      } else if LineMatches(b, sentinel) {
        assert LineMatches(lines[n - 2], sentinel);
      } else {
        assert LineMatches(lines[n - 1], sentinel);
      }
    }
  }

  /** An empty or whitespace-only output never matches any sentinel. */
  lemma BlankOutputNeverMatches(output: string, sentinel: string)
    requires AllSpace(output)
    ensures !CheckSentinelInOutput(output, sentinel)
  {
    StripAllSpace(output);
  }

  /** A sentinel that occurs only on the fourth line from the end, or earlier,
      is not seen. */
  lemma EarlyLinesAreIgnored(output: string, sentinel: string)
    requires |OutputLines(output)| >= 4
    requires forall i | |OutputLines(output)| - 3 <= i < |OutputLines(output)| ::
               !LineMatches(OutputLines(output)[i], sentinel)
    ensures !CheckSentinelInOutput(output, sentinel)
  {
    CheckSentinelCharacterization(output, sentinel);
  }

  /** Extra text on the sentinel's line defeats the match: only whole lines match. */
  lemma OnlyWholeLinesMatch(p: string, s: string, q: string)
    requires s != [] && !IsSpace(s[0]) && !IsSpace(s[|s| - 1])
    requires !AllSpace(p) || !AllSpace(q)
    ensures !LineMatches(p + s + q, s)
  {
    var x := p + s + q;
    assert x[|p|] == s[0] && x[|p| + |s| - 1] == s[|s| - 1];
    if !AllSpace(p) {
      var c :| c in p && !IsSpace(c);
      var k :| 0 <= k < |p| && p[k] == c;
      assert x[k] == c;
      StripKeepsNonSpace(x, k, |p| + |s| - 1);
    } else {
      var c :| c in q && !IsSpace(c);
      var k :| 0 <= k < |q| && q[k] == c;
      assert x[|p| + |s| + k] == c;
      StripKeepsNonSpace(x, |p|, |p| + |s| + k);
    }
    assert |Upper(Strip(x))| != |Upper(s)|;
  }

  /** Whitespace around the line and the letter case are ignored. */
  lemma SpacesAndCaseIgnored(a: string, t: string, b: string, s: string)
    requires AllSpace(a) && AllSpace(b)
    requires t == [] || (!IsSpace(t[0]) && !IsSpace(t[|t| - 1]))
    requires Upper(t) == Upper(s)
    ensures LineMatches(a + t + b, s)
  {
    StripSurrounded(a, t, b);
  }

  /** Trailing whitespace, blank lines included, never pushes a sentinel out of the window. */
  lemma TrailingBlanksIgnored(output: string, w: string, sentinel: string)
    requires AllSpace(w)
    ensures CheckSentinelInOutput(output + w, sentinel) == CheckSentinelInOutput(output, sentinel)
  {
    StripAppendSpace(output, w);
  }

  /** An output given line by line, with no whitespace at its two ends: its lines
      are exactly those lines, blank interior lines included. */
  lemma JoinedOutputLines(lines: seq<string>)
    requires |lines| >= 1
    requires BreakFree(lines)
    requires lines[0] != [] && !IsSpace(lines[0][0])
    requires var last := lines[|lines| - 1]; last != [] && !IsSpace(last[|last| - 1])
    ensures OutputLines(JoinLines(lines)) == lines
  {
    JoinLinesBorders(lines);
    SplitJoin(lines);
    OutputLinesOfBorderless(JoinLines(lines), lines);
  }

  /** Output without surrounding whitespace or a final line break is split as it stands. */
  lemma OutputLinesOfBorderless(s: string, lines: seq<string>)
    requires s != [] && !IsSpace(s[0]) && !IsSpace(s[|s| - 1])
    requires Split(s) == lines
    ensures OutputLines(s) == lines
  {
    StripNoBorder(s);
    SplitLinesNoFinalBreak(s);
  }

  /** Hence the matcher decides on the last three of those lines. */
  lemma LinesOfJoinedOutput(lines: seq<string>, sentinel: string)
    requires |lines| >= 1
    requires BreakFree(lines)
    requires lines[0] != [] && !IsSpace(lines[0][0])
    requires var last := lines[|lines| - 1]; last != [] && !IsSpace(last[|last| - 1])
    ensures CheckSentinelInOutput(JoinLines(lines), sentinel) <==>
            exists i :: 0 <= i < |lines| && |lines| - 3 <= i && LineMatches(lines[i], sentinel)
  {
    JoinedOutputLines(lines);
    CheckSentinelCharacterization(JoinLines(lines), sentinel);
  }

  /** A blank line never matches a non-empty sentinel. */
  lemma BlankLineNeverMatches(s: string)
    requires s != []
    ensures !LineMatches("", s)
  {
    assert |Upper(s)| == |s|;
  }

  /** An output that is some text, a line break and then lines of which the last
      ones are break-free has, when neither end is whitespace, those last lines as
      its last lines. */
  lemma OutputLinesEnd(x: string, front: seq<string>, back: seq<string>)
    requires x != [] && !IsSpace(x[0])
    requires |front| >= 1 && |back| >= 1 && BreakFree(back)
    requires var last := back[|back| - 1]; last != [] && !IsSpace(last[|last| - 1])
    ensures var lines := OutputLines(x + "\n" + JoinLines(front + back));
            |lines| >= |back| && lines[|lines| - |back|..] == back
  {
    var s := x + "\n" + JoinLines(front + back);
    JoinLinesLast(front + back);
    assert s[0] == x[0];
    StripNoBorder(s);
    SplitAround(x, JoinLines(front + back));
    SplitJoinTail(front, back);
    var lines := OutputLines(s);
    assert lines == (Split(x) + Split(JoinLines(front))) + back;
  }

  /** The same, for the lines of `lines` from index `n` on. */
  lemma OutputLinesFrom(x: string, lines: seq<string>, n: nat)
    requires x != [] && !IsSpace(x[0])
    requires 1 <= n < |lines| && BreakFree(lines[n..])
    requires var last := lines[|lines| - 1]; last != [] && !IsSpace(last[|last| - 1])
    ensures var r := OutputLines(x + "\n" + JoinLines(lines));
            |r| >= |lines| - n && r[|r| - (|lines| - n)..] == lines[n..]
  {
    assert lines[..n] + lines[n..] == lines;
    OutputLinesEnd(x, lines[..n], lines[n..]);
  }

  /** Interior blank lines occupy window slots: a sentinel followed by one blank
      line and a last line is seen, ... */
  lemma SentinelThirdFromLastSeen(s: string, t: string)
    requires s != [] && !IsSpace(s[0]) && !IsSpace(s[|s| - 1]) && '\n' !in s
    requires t != [] && !IsSpace(t[|t| - 1]) && '\n' !in t
    ensures CheckSentinelInOutput(JoinLines([s, "", t]), s)
  {
    var ls := [s, "", t];
    StripNoBorder(s);
    assert LineMatches(ls[0], s);
    LinesOfJoinedOutput(ls, s);
  }

  /** ... but followed by two blank lines and a last line, it is not. */
  lemma SentinelFourthFromLastMissed(s: string, t: string)
    requires s != [] && !IsSpace(s[0]) && '\n' !in s
    requires t != [] && !IsSpace(t[|t| - 1]) && '\n' !in t
    requires !LineMatches(t, s)
    ensures !CheckSentinelInOutput(JoinLines([s, "", "", t]), s)
  {
    var ls := [s, "", "", t];
    FourLinesBreakFree(s, t);
    JoinedOutputLines(ls);
    FourLinesMissed(JoinLines(ls), s, t);
  }

  lemma FourLinesMissed(output: string, s: string, t: string)
    requires s != [] && !LineMatches(t, s)
    requires OutputLines(output) == [s, "", "", t]
    ensures !CheckSentinelInOutput(output, s)
  {
    var ls := OutputLines(output);
    assert ls[|ls| - 3..] == ["", "", t];
    BlankLineNeverMatches(s);
    LastThreeLinesDecide(output, "", "", t, s);
  }

  lemma FourLinesBreakFree(s: string, t: string)
    requires '\n' !in s && '\n' !in t
    ensures BreakFree([s, "", "", t])
  {
  }

  /** An output that is exactly the sentinel, possibly followed by blank lines, matches. */
  lemma BareSentinelMatches(s: string, w: string)
    requires s != [] && !IsSpace(s[0]) && !IsSpace(s[|s| - 1]) && '\n' !in s
    requires AllSpace(w)
    ensures CheckSentinelInOutput(s + w, s)
  {
    StripAppendSpace(s, w);
    StripNoBorder(s);
    SplitSingle(s);
    assert OutputLines(s + w) == [s];
  }

  /** Each sentinel is already upper-case, and the three are pairwise distinct. */
  lemma SentinelsDistinct()
    ensures Upper(STEP2_SENTINEL) == STEP2_SENTINEL
    ensures Upper(PASS_SENTINEL) == PASS_SENTINEL
    ensures Upper(FAIL_SENTINEL) == FAIL_SENTINEL
    ensures STEP2_SENTINEL != PASS_SENTINEL && STEP2_SENTINEL != FAIL_SENTINEL && PASS_SENTINEL != FAIL_SENTINEL
  {
    UpperNoLower(STEP2_SENTINEL);
    UpperNoLower(PASS_SENTINEL);
    UpperNoLower(FAIL_SENTINEL);
    assert PASS_SENTINEL[8] != FAIL_SENTINEL[8];
  }

  /** So a `RESULT: FAIL` line never satisfies a check for `RESULT: PASS`, and
      no line satisfies two different sentinels. */
  lemma LineMatchesAtMostOneSentinel(line: string)
    ensures LineMatches(line, FAIL_SENTINEL) ==> !LineMatches(line, PASS_SENTINEL)
    ensures LineMatches(line, STEP2_SENTINEL) ==> !LineMatches(line, PASS_SENTINEL) && !LineMatches(line, FAIL_SENTINEL)
  {
    SentinelsDistinct();
  }
}
