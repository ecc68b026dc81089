/**
 * The instruction texts given to the executor for the three stages. Each is a
 * fixed template with its arguments spliced in; the fixed multi-line parts are
 * written as the lines of the template joined with line breaks.
 */
module Prompts {
  import opened Text
  import opened CliStrings

  /** Where the first, second and fourth parts of a five-part concatenation sit, and
      that it ends with the fifth. */
  lemma FiveParts(a: string, b: string, c: string, d: string, e: string)
    ensures var s := a + b + c + d + e;
            && OccursAt(s, a, 0)
            && OccursAt(s, b, |a|)
            && OccursAt(s, c, |a| + |b|)
            && OccursAt(s, d, |a| + |b| + |c|)
            && EndsWith(s, e)
  {
    SelfOccurs(a);
    ExtendOccurs(a, b);
    AppendOccurs(a, b);
    ExtendOccurs(a + b, c);
    AppendOccurs(a + b, c);
    AppendOccurs(a + b + c, d);
    ExtendOccurs(a + b + c, d);
    ExtendOccurs(a + b + c + d, e);
    EndsWithAppend(a + b + c + d, e);
  }

  /** The indentation carried by the lines of the stage-3 template. */
  const Pad: string := "                "

  // ---- Stage 1 ----

  const Step1HeadLines: seq<string> := [
    "[SYSTEM]",
    "You are an expert codebase investigator. First understand the repository",
    "structure and how the described issue might manifest. Be concise; produce a focused",
    "report and a proposed search plan. Do NOT modify any files in this step.",
    "",
    "Task: Understand the scope and narrow the search.",
    "Project root: "]

  const Step1Middle: string := "\nUser description:\n"

  const Step1TailLines: seq<string> := [
    "",
    "Output:",
    "1) Likely impacted modules/packages",
    "2) How components interact with the bug/feature",
    "3) Shortlist of files/functions to inspect next",
    ""]

  /** `step1_prompt`: the analysis instruction for a project root and a description. */
  function Step1Prompt(projectRoot: string, description: string): string
  {
    JoinLines(Step1HeadLines) + projectRoot + Step1Middle + description + ("\n" + JoinLines(Step1TailLines))
  }

  /** The stage-1 instruction starts with the fixed head and ends with the fixed
      tail, and both arguments appear verbatim between them, the root first and
      then, after the fixed `User description:` text, the description. */
  lemma Step1PromptShape(projectRoot: string, description: string)
    ensures var s := Step1Prompt(projectRoot, description);
            var head := JoinLines(Step1HeadLines);
            var tail := "\n" + JoinLines(Step1TailLines);
            var at := |head| + |projectRoot| + |Step1Middle|;
            && OccursAt(s, head, 0)
            && OccursAt(s, projectRoot, |head|)
            && OccursAt(s, description, at)
            && EndsWith(s, tail) && |s| == at + |description| + |tail|
    ensures OccursAt(Step1Prompt(projectRoot, description), Step1Middle, |JoinLines(Step1HeadLines)| + |projectRoot|)
  {
    FiveParts(JoinLines(Step1HeadLines), projectRoot, Step1Middle, description, "\n" + JoinLines(Step1TailLines));
  }

  // ---- Stage 2 ----

  const Step2HeadLines: seq<string> := [
    "[SYSTEM]",
    "You are a senior test engineer. Generate minimal failing tests that capture the intended",
    "behavior. Use pytest. Keep tests deterministic and small.",
    "",
    "Using the analysis from: "]

  const Step2Middle: string := "\nWrite tests ONLY under: "

  /** The lines after the tests directory, ending with the stage-2 sentinel. */
  const Step2ClosingLines: seq<string> := [
    "- Use pytest; name files like test_bugfix_*.py.",
    "- Keep each file short and focused.",
    "- If project APIs are unclear, create minimal fakes/mocks.",
    "",
    "At the VERY END, print exactly one line:",
    "RESULT: TESTS_WRITTEN"]

  /** `step2_prompt`: the test-writing instruction for the stage-1 report and the tests directory. */
  function Step2Prompt(step1Path: string, testsDir: string): string
  {
    JoinLines(Step2HeadLines) + step1Path + Step2Middle + testsDir + ("\n" + JoinLines(Step2ClosingLines))
  }

  /** The stage-1 report path and the tests directory appear verbatim, in that order. */
  lemma Step2PromptMentions(step1Path: string, testsDir: string)
    ensures var s := Step2Prompt(step1Path, testsDir);
            var head := JoinLines(Step2HeadLines);
            && OccursAt(s, step1Path, |head|)
            && OccursAt(s, testsDir, |head| + |step1Path| + |Step2Middle|)
  {
    FiveParts(JoinLines(Step2HeadLines), step1Path, Step2Middle, testsDir, "\n" + JoinLines(Step2ClosingLines));
  }

  /** Whatever the arguments, the last three lines of the stage-2 instruction are
      fixed text, the last being the stage-2 sentinel. */
  lemma Step2PromptLastLines(step1Path: string, testsDir: string)
    ensures var lines := OutputLines(Step2Prompt(step1Path, testsDir));
            |lines| >= 3 &&
            lines[|lines| - 3..] == ["", "At the VERY END, print exactly one line:", STEP2_SENTINEL]
  {
    var head := JoinLines(Step2HeadLines);
    var x := head + step1Path + Step2Middle + testsDir;
    JoinLinesBorders(Step2HeadLines);
    assert x[0] == head[0];
    AppendAssociates(x, "\n", JoinLines(Step2ClosingLines));
    Step2ClosingEnd();
    LastThreeLines(x, Step2ClosingLines);
  }

  lemma Step2ClosingEnd()
    ensures var c := Step2ClosingLines;
            && |c| == 6 && c[3] == "" && c[4] == "At the VERY END, print exactly one line:"
            && c[5] == STEP2_SENTINEL && '\n' !in c[4] && '\n' !in c[5] && c[5][|c[5]| - 1] == 'N'
  {
    OneLineRequestBreakFree();
    Step2SentinelBreakFree();
  }

  lemma OneLineRequestBreakFree()
    ensures '\n' !in "At the VERY END, print exactly one line:"
  {
  }

  lemma Step2SentinelBreakFree()
    ensures '\n' !in STEP2_SENTINEL && STEP2_SENTINEL[|STEP2_SENTINEL| - 1] == 'N'
  {
  }

  /** The last line the matcher sees in a stage-2 instruction is the sentinel itself. */
  lemma Step2PromptLastLine(step1Path: string, testsDir: string)
    ensures var lines := OutputLines(Step2Prompt(step1Path, testsDir));
            lines != [] && lines[|lines| - 1] == STEP2_SENTINEL
  {
    Step2PromptLastLines(step1Path, testsDir);
  }

  /** Hence the matcher accepts every stage-2 instruction as stage-2 output. */
  lemma Step2PromptCarriesSentinel(step1Path: string, testsDir: string)
    ensures CheckSentinelInOutput(Step2Prompt(step1Path, testsDir), STEP2_SENTINEL)
  {
    Step2PromptLastLine(step1Path, testsDir);
    Step2SentinelMatchesItself();
    LastLineSeen(Step2Prompt(step1Path, testsDir), STEP2_SENTINEL);
  }

  lemma Step2SentinelMatchesItself()
    ensures LineMatches(STEP2_SENTINEL, STEP2_SENTINEL)
  {
    SentinelLineMatches(STEP2_SENTINEL);
  }

  // ---- Stage 3 ----
  const Step3HeadLines: seq<string> := [
    "[SYSTEM]",
    Pad + "You are a surgical code fixer. Iterate: run tests, propose smallest change set, apply, re-run,",
    Pad + "until green or max attempts reached. Avoid irrelevant edits.",
    "",
    Pad + "see "]

  const Step3AfterStep1: string := " for the analysis.\n" + Pad + "see "

  const Step3AfterStep2: string := " for the info about tests made.\n\n" + Pad + "Goal: Make tests in "

  const Step3AfterGoal: string :=
    " pass.\n" + Pad + "You MUST execute all commands yourself.\n\n" + Pad + "Run tests with:\n" + Pad + "python -m pytest \""

  const Step3AfterRun: string := "\" -q"

  /** The lines after the test command, which ask for a PASS or FAIL sentinel. */
  const Step3ClosingLines: seq<string> := [
    "",
    Pad + "If failing:",
    Pad + "- Apply the smallest possible code changes",
    Pad + "- Re-run tests",
    Pad + "- Repeat until green or attempts exhausted",
    "",
    Pad + "At the ABSOLUTE END of your output, print exactly ONE line:",
    Pad + "RESULT: PASS",
    Pad + "or",
    Pad + "RESULT: FAIL",
    ""]

  /** The text of the last line, after its indentation. */
  function AttemptText(attempt: int, maxAttempts: int): string
  {
    "Attempt " + IntToString(attempt) + " of " + IntToString(maxAttempts) + "."
  }

  /** Everything up to the test command, which names the tests directory. */
  function Step3Body(testsDir: string, step1ReportPath: string, step2ReportPath: string): string
  {
    JoinLines(Step3HeadLines) + step1ReportPath + Step3AfterStep1 + step2ReportPath + Step3AfterStep2
    + testsDir + Step3AfterGoal + testsDir + Step3AfterRun
  }

  /** `step3_prompt`: the fixing instruction for one attempt; its closing lines are
      followed by the indented attempt line. */
  function Step3Prompt(testsDir: string, step1ReportPath: string, step2ReportPath: string,
                       attempt: int, maxAttempts: int): string
  {
    Step3Body(testsDir, step1ReportPath, step2ReportPath) + "\n"
    + JoinLines(Step3ClosingLines + [Pad + AttemptText(attempt, maxAttempts)])
  }

  /** The instruction ends with "Attempt <attempt> of <maxAttempts>.". */
  lemma Step3PromptEnding(testsDir: string, step1ReportPath: string, step2ReportPath: string,
                          attempt: int, maxAttempts: int)
    ensures EndsWith(Step3Prompt(testsDir, step1ReportPath, step2ReportPath, attempt, maxAttempts),
                     "Attempt " + IntToString(attempt) + " of " + IntToString(maxAttempts) + ".")
  {
    EndsWithLastLine(Step3Body(testsDir, step1ReportPath, step2ReportPath), Step3ClosingLines,
                     Pad, AttemptText(attempt, maxAttempts));
  }

  /** Text, a line break and lines whose last is `p + t` ends with `t`. */
  lemma EndsWithLastLine(b: string, c: seq<string>, p: string, t: string)
    requires |c| >= 1
    ensures EndsWith(b + "\n" + JoinLines(c + [p + t]), t)
  {
    var j := JoinLines(c + [p + t]);
    JoinLinesAppend(c, [p + t]);
    assert JoinLines([p + t]) == p + t;
    EndsWithAppend(b + "\n", j);
    EndsWithAppend(JoinLines(c) + "\n", p + t);
    EndsWithAppend(p, t);
    EndsWithTrans(j, p + t, t);
    EndsWithTrans(b + "\n" + j, j, t);
  }

  /** Both reports and the tests directory appear verbatim: the stage-1 report, then
      the stage-2 report, then the tests directory (twice: in the goal and in the command). */
  lemma Step3PromptMentions(testsDir: string, step1ReportPath: string, step2ReportPath: string,
                            attempt: int, maxAttempts: int)
    ensures var s := Step3Prompt(testsDir, step1ReportPath, step2ReportPath, attempt, maxAttempts);
            var p1 := |JoinLines(Step3HeadLines)|;
            var p2 := p1 + |step1ReportPath| + |Step3AfterStep1|;
            var p3 := p2 + |step2ReportPath| + |Step3AfterStep2|;
            var p4 := p3 + |testsDir| + |Step3AfterGoal|;
            && OccursAt(s, step1ReportPath, p1)
            && OccursAt(s, step2ReportPath, p2)
            && OccursAt(s, testsDir, p3)
            && OccursAt(s, testsDir, p4)
  {
    Step3BodyNamesReports(testsDir, step1ReportPath, step2ReportPath);
    Step3BodyNamesTestsInGoal(testsDir, step1ReportPath, step2ReportPath);
    Step3BodyNamesTestsInCommand(testsDir, step1ReportPath, step2ReportPath);
    Step3PromptExtendsBody(testsDir, step1ReportPath, step2ReportPath, attempt, maxAttempts);
  }

  /** The stage-3 instruction is its body followed by more text. */
  lemma Step3PromptExtendsBody(testsDir: string, step1ReportPath: string, step2ReportPath: string,
                               attempt: int, maxAttempts: int)
    ensures var b := Step3Body(testsDir, step1ReportPath, step2ReportPath);
            forall x, at | OccursAt(b, x, at) ::
              OccursAt(Step3Prompt(testsDir, step1ReportPath, step2ReportPath, attempt, maxAttempts), x, at)
  {
    var b := Step3Body(testsDir, step1ReportPath, step2ReportPath);
    var rest := "\n" + JoinLines(Step3ClosingLines + [Pad + AttemptText(attempt, maxAttempts)]);
    ExtendOccurs(b, rest);
  }

  /** Where the reports sit in the body. */
  lemma Step3BodyNamesReports(testsDir: string, step1ReportPath: string, step2ReportPath: string)
    ensures var s := Step3Body(testsDir, step1ReportPath, step2ReportPath);
            var p1 := |JoinLines(Step3HeadLines)|;
            && OccursAt(s, step1ReportPath, p1)
            && OccursAt(s, step2ReportPath, p1 + |step1ReportPath| + |Step3AfterStep1|)
  {
    NineParts(JoinLines(Step3HeadLines), step1ReportPath, Step3AfterStep1, step2ReportPath,
              Step3AfterStep2, testsDir, Step3AfterGoal, testsDir, Step3AfterRun);
  }

  /** Where the tests directory sits in the body's goal sentence. */
  lemma Step3BodyNamesTestsInGoal(testsDir: string, step1ReportPath: string, step2ReportPath: string)
    ensures var p2 := |JoinLines(Step3HeadLines)| + |step1ReportPath| + |Step3AfterStep1|;
            OccursAt(Step3Body(testsDir, step1ReportPath, step2ReportPath), testsDir,
                     p2 + |step2ReportPath| + |Step3AfterStep2|)
  {
    NineParts(JoinLines(Step3HeadLines), step1ReportPath, Step3AfterStep1, step2ReportPath,
              Step3AfterStep2, testsDir, Step3AfterGoal, testsDir, Step3AfterRun);
  }

  /** Where the tests directory sits in the body's test command. */
  lemma Step3BodyNamesTestsInCommand(testsDir: string, step1ReportPath: string, step2ReportPath: string)
    ensures var p2 := |JoinLines(Step3HeadLines)| + |step1ReportPath| + |Step3AfterStep1|;
            var p3 := p2 + |step2ReportPath| + |Step3AfterStep2|;
            OccursAt(Step3Body(testsDir, step1ReportPath, step2ReportPath), testsDir,
                     p3 + |testsDir| + |Step3AfterGoal|)
  {
    NineParts(JoinLines(Step3HeadLines), step1ReportPath, Step3AfterStep1, step2ReportPath,
              Step3AfterStep2, testsDir, Step3AfterGoal, testsDir, Step3AfterRun);
  }

  /** Where the arguments of a nine-part concatenation sit. */
  lemma NineParts(h: string, x1: string, a1: string, x2: string, a2: string,
                  x3: string, a3: string, x4: string, a4: string)
    ensures var s := h + x1 + a1 + x2 + a2 + x3 + a3 + x4 + a4;
            var p2 := |h| + |x1| + |a1|;
            var p3 := p2 + |x2| + |a2|;
            && OccursAt(s, x1, |h|)
            && OccursAt(s, x2, p2)
            && OccursAt(s, x3, p3)
            && OccursAt(s, x4, p3 + |x3| + |a3|)
  {
    var s1 := h + x1;
    var s3 := s1 + a1 + x2;
    var s5 := s3 + a2 + x3;
    var s7 := s5 + a3 + x4;
    AppendOccurs(h, x1);
    ExtendOccurs(s1, a1);
    AppendOccurs(s1 + a1, x2);
    ExtendOccurs(s3, a2);
    AppendOccurs(s3 + a2, x3);
    ExtendOccurs(s5, a3);
    AppendOccurs(s5 + a3, x4);
    ExtendOccurs(s3 + a2, x3);
    ExtendOccurs(s1 + a1, x2);
    ExtendOccurs(s5 + a3, x4);
    ExtendOccurs(s7, a4);
  }

  /** The last three lines of every stage-3 instruction: the FAIL sentinel line, a
      blank line and the attempt line. */
  lemma Step3PromptLastLines(testsDir: string, step1ReportPath: string, step2ReportPath: string,
                             attempt: int, maxAttempts: int)
    ensures var lines := OutputLines(Step3Prompt(testsDir, step1ReportPath, step2ReportPath, attempt, maxAttempts));
            |lines| >= 3 &&
            lines[|lines| - 3..] == [Pad + "RESULT: FAIL", "", Pad + AttemptText(attempt, maxAttempts)]
  {
    var x := Step3Body(testsDir, step1ReportPath, step2ReportPath);
    var last := Pad + AttemptText(attempt, maxAttempts);
    Step3BodyStart(testsDir, step1ReportPath, step2ReportPath);
    AttemptLineShape(attempt, maxAttempts);
    Step3ClosingEnd();
    TwoLinesThenLast(x, Step3ClosingLines, last);
  }

  lemma Step3ClosingEnd()
    ensures var c := Step3ClosingLines;
            |c| == 11 && c[9] == Pad + "RESULT: FAIL" && c[10] == "" && '\n' !in c[9]
  {
  }

  /** The last three lines of some text, a line break and `c + [last]`, when the text
      and `last` do not start or end in whitespace: the last two of `c`, then `last`. */
  lemma TwoLinesThenLast(x: string, c: seq<string>, last: string)
    requires x != [] && !IsSpace(x[0])
    requires |c| >= 3 && '\n' !in c[|c| - 2] && '\n' !in c[|c| - 1]
    requires '\n' !in last && last != [] && !IsSpace(last[|last| - 1])
    ensures var r := OutputLines(x + "\n" + JoinLines(c + [last]));
            |r| >= 3 && r[|r| - 3..] == [c[|c| - 2], c[|c| - 1], last]
  {
    var lines := c + [last];
    assert lines[|lines| - 3] == c[|c| - 2] && lines[|lines| - 2] == c[|c| - 1];
    LastThreeLines(x, lines);
  }

  /** The last three lines of some text, a line break and `lines`, when the text
      and the last line do not start or end in whitespace and the last three lines
      are break-free: those three lines. */
  lemma LastThreeLines(x: string, lines: seq<string>)
    requires x != [] && !IsSpace(x[0]) && |lines| >= 4
    requires var n := |lines|; '\n' !in lines[n - 3] && '\n' !in lines[n - 2] && '\n' !in lines[n - 1]
    requires var last := lines[|lines| - 1]; last != [] && !IsSpace(last[|last| - 1])
    ensures var r := OutputLines(x + "\n" + JoinLines(lines));
            var n := |lines|;
            |r| >= 3 && r[|r| - 3..] == [lines[n - 3], lines[n - 2], lines[n - 1]]
  {
    var n := |lines|;
    assert lines[n - 3..] == [lines[n - 3], lines[n - 2], lines[n - 1]];
    OutputLinesFrom(x, lines, n - 3);
  }

  lemma Step3BodyStart(testsDir: string, step1ReportPath: string, step2ReportPath: string)
    ensures var x := Step3Body(testsDir, step1ReportPath, step2ReportPath);
            x != [] && x[0] == '['
  {
    var head := JoinLines(Step3HeadLines);
    JoinLinesBorders(Step3HeadLines);
    assert Step3Body(testsDir, step1ReportPath, step2ReportPath)[0] == head[0];
  }

  lemma AttemptLineShape(attempt: int, maxAttempts: int)
    ensures var l := Pad + AttemptText(attempt, maxAttempts);
            '\n' !in l && l != [] && l[|l| - 1] == '.'
    ensures AttemptText(attempt, maxAttempts)[0] == 'A'
  {
    IntToStringNoSpace(attempt);
    IntToStringNoSpace(maxAttempts);
  }

  /** Whatever the arguments, a stage-3 instruction read as stage-3 output does not
      count as a pass, while it does carry the FAIL sentinel in the lines the matcher
      looks at. */
  lemma Step3PromptSentinels(testsDir: string, step1ReportPath: string, step2ReportPath: string,
                             attempt: int, maxAttempts: int)
    ensures var s := Step3Prompt(testsDir, step1ReportPath, step2ReportPath, attempt, maxAttempts);
            && !CheckSentinelInOutput(s, PASS_SENTINEL)
            && CheckSentinelInOutput(s, FAIL_SENTINEL)
  {
    var s := Step3Prompt(testsDir, step1ReportPath, step2ReportPath, attempt, maxAttempts);
    var last := Pad + AttemptText(attempt, maxAttempts);
    Step3PromptLastLines(testsDir, step1ReportPath, step2ReportPath, attempt, maxAttempts);
    FailLineShape();
    AttemptLineNotPass(attempt, maxAttempts);
    BlankLineNeverMatches(PASS_SENTINEL);
    LastThreeLinesDecide(s, Pad + "RESULT: FAIL", "", last, PASS_SENTINEL);
    LastThreeLinesDecide(s, Pad + "RESULT: FAIL", "", last, FAIL_SENTINEL);
  }

  /** The indented FAIL line of the template matches FAIL and not PASS. */
  lemma FailLineShape()
    ensures LineMatches(Pad + "RESULT: FAIL", FAIL_SENTINEL)
    ensures !LineMatches(Pad + "RESULT: FAIL", PASS_SENTINEL)
  {
    SentinelsDistinct();
    assert Pad + "RESULT: FAIL" == Pad + FAIL_SENTINEL + "";
    SpacesAndCaseIgnored(Pad, FAIL_SENTINEL, "", FAIL_SENTINEL);
    LineMatchesAtMostOneSentinel(Pad + "RESULT: FAIL");
  }

  /** The attempt line never matches PASS: it starts with "Attempt". */
  lemma AttemptLineNotPass(attempt: int, maxAttempts: int)
    ensures !LineMatches(Pad + AttemptText(attempt, maxAttempts), PASS_SENTINEL)
  {
    var t := AttemptText(attempt, maxAttempts);
    AttemptLineShape(attempt, maxAttempts);
    assert t[0] == 'A';
    assert Pad + t == Pad + t + "";
    StripSurrounded(Pad, t, "");
    SentinelsDistinct();
    assert Upper(t)[0] == 'A';
    assert Upper(PASS_SENTINEL)[0] == 'R';
  }
}
