/**
 * What one job does, as values: the progress events it emits, the executor
 * calls it makes, the files it writes and the status it ends in, for any
 * behaviour of the executor. The executor is an oracle `exec` that answers
 * call number `i` with `exec(i)`; a job whose first call is number `k` uses
 * `exec(k)`, `exec(k + 1)`, ... in order. The worker's methods are proved to
 * produce exactly these values.
 */
module Pipeline {
  import opened Wrappers
  import opened Text
  import opened CliStrings
  import opened Models
  import opened Prompts
  import opened Client
  import opened Progress

  // ---- Names ----

  /** A path below a directory. */
  function Below(dir: string, name: string): string
  {
    dir + "/" + name
  }

  function TestsDir(root: string): string
  {
    Below(root, "test_bugfix")
  }

  function ArtifactsDir(root: string, id: string): string
  {
    Below(Below(root, ".claude_tasks"), "item_" + id)
  }

  /** The directories a job creates before its first call: the tests directory, and the
      artifacts directory with its parent. */
  function JobDirs(root: string, id: string): set<string>
  {
    {TestsDir(root), Below(root, ".claude_tasks"), ArtifactsDir(root, id)}
  }

  /** The report file of stage `n`. */
  function StepFile(root: string, id: string, n: nat): string
  {
    Below(ArtifactsDir(root, id), "step" + NatToString(n) + ".md")
  }

  /** The tests directory and the three report files are four different paths. */
  lemma PathsDistinct(root: string, id: string)
    ensures StepFile(root, id, 1) != StepFile(root, id, 2)
    ensures StepFile(root, id, 1) != StepFile(root, id, 3)
    ensures StepFile(root, id, 2) != StepFile(root, id, 3)
    ensures forall n: nat | 1 <= n <= 3 :: StepFile(root, id, n) != TestsDir(root)
  {
    var a := ArtifactsDir(root, id) + "/step";
    assert forall n: nat | 1 <= n <= 3 :: StepFile(root, id, n) == a + [DigitChar(n)] + ".md";
    assert forall n: nat | 1 <= n <= 3 :: StepFile(root, id, n)[|a|] == DigitChar(n);
    forall n: nat | 1 <= n <= 3
      ensures StepFile(root, id, n) != TestsDir(root)
    {
      var f := StepFile(root, id, n);
      assert |f| == |root| + 1 + |".claude_tasks"| + 1 + |"item_" + id| + 1 + |"step1.md"|;
    }
  }

  // ---- The stage-3 log ----

  /** The block the stage-3 log holds for one attempt. */
  function AttemptBlock(attempt: int, output: string): string
  {
    "--- Attempt " + IntToString(attempt) + " ---\n" + output + "\n"
  }

  /** `"".join(...)`. */
  function Concat(blocks: seq<string>): (r: string)
    ensures |blocks| == 0 ==> r == []
  {
    if blocks == [] then [] else blocks[0] + Concat(blocks[1..])
  }

  lemma {:induction false} ConcatAppend(a: seq<string>, b: seq<string>)
    ensures Concat(a + b) == Concat(a) + Concat(b)
  {
    if a == [] {
      assert a + b == b;
    } else {
      assert (a + b)[1..] == a[1..] + b;
      ConcatAppend(a[1..], b);
    }
  }

  // ---- Stages ----

  /** Which instruction a call sends, with the arguments it is built from. */
  datatype Request =
    | Analyze(projectRoot: string, description: string)
    | WriteTests(step1Path: string, testsDir: string)
    | Fix(testsDir: string, step1Path: string, step2Path: string, attempt: int, maxAttempts: int)
  {
    /** The instruction's text. */
    function Prompt(): string
    {
      match this
      case Analyze(r, d) => Step1Prompt(r, d)
      case WriteTests(p, t) => Step2Prompt(p, t)
      case Fix(t, p1, p2, a, m) => Step3Prompt(t, p1, p2, a, m)
    }
  }

  /** One executor call: the working directory and the instruction sent. */
  datatype Call = Call(workdir: string, request: Request)

  /** What a stage did: the notes it sent, its calls, its file writes, and the error it raised if any. */
  datatype Stage = Stage(notes: seq<Note>, calls: seq<Call>, writes: seq<(string, string)>, error: Option<string>)

  /** Stage 1: one plain call whose output becomes report 1. */
  function Step1(exec: nat -> Response, k: nat, id: string, rawRoot: string, root: string, description: string): Stage
  {
    var call := Call(root, Analyze(rawRoot, description));
    match exec(k)
    case Err(e) => Stage([Step1Started], [call], [], Some(e))
    case Ok(output) => Stage([Step1Started, Step1Done], [call], [(StepFile(root, id, 1), output)], None)
  }

  /** Stage 2: one call checked for the stage-2 sentinel; a missing sentinel is only a warning. */
  function Step2(exec: nat -> Response, matcher: Matcher, k: nat, id: string, root: string): Stage
  {
    var call := Call(root, WriteTests(StepFile(root, id, 1), TestsDir(root)));
    match RunWithSentinel(exec(k), matcher, STEP2_SENTINEL)
    case Err(e) => Stage([Step2Started], [call], [], Some(e))
    case Ok((output, found)) =>
      Stage([Step2Started, if found then TestsWritten else SentinelMissing], [call],
            [(StepFile(root, id, 2), output)], None)
  }

  /** How the stage-3 loop went: the outputs of the attempts that returned, in order,
      whether the last of them passed, and the error that ended the loop if any. */
  datatype Attempts = Attempts(outputs: seq<string>, passed: bool, error: Option<string>)
  {
    /** The number of attempts made: those that returned, and the one that raised. */
    function Made(): nat
    {
      |outputs| + if error.Some? then 1 else 0
    }
  }

  /** The stage-3 loop from `attempt` on: stop at the first PASS, at an error, or after `maxAttempts`. */
  function RunAttempts(exec: nat -> Response, matcher: Matcher, k: nat, attempt: int, maxAttempts: int): Attempts
    decreases if attempt <= maxAttempts then maxAttempts - attempt + 1 else 0
  {
    if attempt > maxAttempts then Attempts([], false, None)
    else
      match RunWithSentinel(exec(k), matcher, PASS_SENTINEL)
      case Err(e) => Attempts([], false, Some(e))
      case Ok((output, found)) =>
        if found then Attempts([output], true, None)
        else
          var rest := RunAttempts(exec, matcher, k + 1, attempt + 1, maxAttempts);
          Attempts([output] + rest.outputs, rest.passed, rest.error)
  }

  /** The stage-3 call for one attempt. */
  function AttemptCall(root: string, id: string, attempt: int, maxAttempts: int): Call
  {
    Call(root, Fix(TestsDir(root), StepFile(root, id, 1), StepFile(root, id, 2), attempt, maxAttempts))
  }

  /** The notes of the first `n` attempts. */
  function AttemptNotes(n: nat, maxAttempts: int): seq<Note>
  {
    seq(n, j => AttemptStarted(j + 1, maxAttempts))
  }

  /** The calls of the first `n` attempts. */
  function AttemptCalls(root: string, id: string, n: nat, maxAttempts: int): seq<Call>
  {
    seq(n, j => AttemptCall(root, id, j + 1, maxAttempts))
  }

  /** The log blocks of attempts 1, 2, ... with these outputs. */
  function Blocks(outputs: seq<string>): seq<string>
  {
    seq(|outputs|, j requires 0 <= j < |outputs| => AttemptBlock(j + 1, outputs[j]))
  }

  /** One more attempt adds one note and one call at the end. */
  lemma AttemptsGrow(root: string, id: string, n: nat, maxAttempts: int)
    ensures AttemptNotes(n + 1, maxAttempts) == AttemptNotes(n, maxAttempts) + [AttemptStarted(n + 1, maxAttempts)]
    ensures AttemptCalls(root, id, n + 1, maxAttempts)
            == AttemptCalls(root, id, n, maxAttempts) + [AttemptCall(root, id, n + 1, maxAttempts)]
  {
  }

  /** One more attempt adds one event at the end. */
  lemma AttemptEventsGrow(render: Renderer, id: string, n: nat, maxAttempts: int)
    ensures Events(render, id, AttemptNotes(n + 1, maxAttempts))
            == Events(render, id, AttemptNotes(n, maxAttempts)) + Events(render, id, [AttemptStarted(n + 1, maxAttempts)])
  {
    AttemptsGrow("", id, n, maxAttempts);
    EventsAppend(render, id, AttemptNotes(n, maxAttempts), [AttemptStarted(n + 1, maxAttempts)]);
  }

  /** Stage 3: a note and a call per attempt made, then, unless an attempt raised, the
      log written once and the closing note. */
  function Step3(exec: nat -> Response, matcher: Matcher, k: nat, id: string, root: string, maxAttempts: int): Stage
  {
    var r := RunAttempts(exec, matcher, k, 1, maxAttempts);
    var notes := [Step3Started] + AttemptNotes(r.Made(), maxAttempts);
    var calls := AttemptCalls(root, id, r.Made(), maxAttempts);
    if r.error.Some? then Stage(notes, calls, [], r.error)
    else Stage(notes + [if r.passed then Passed else AttemptsExhausted], calls,
               [(StepFile(root, id, 3), Concat(Blocks(r.outputs)))], None)
  }

  // ---- A whole job ----

  /** What a job did, and the status it ended in. */
  datatype Run = Run(status: TaskStatus, notes: seq<Note>, calls: seq<Call>, writes: seq<(string, string)>)

  /** The job as a whole: `RUNNING`, the three stages in order, and the first error
      raised by any of them ending the job as `FAILED`. `rawRoot` is the root as the
      job holds it, `root` the resolved one. */
  function JobRun(exec: nat -> Response, matcher: Matcher, k: nat, id: string, rawRoot: string, root: string,
                  description: string, maxAttempts: int): Run
  {
    var t1 := Step1(exec, k, id, rawRoot, root, description);
    var t2 := Step2(exec, matcher, k + |t1.calls|, id, root);
    var k3 := k + |t1.calls| + |t2.calls|;
    Assemble(t1, t2, Step3(exec, matcher, k3, id, root, maxAttempts), RunAttempts(exec, matcher, k3, 1, maxAttempts).passed)
  }

  /** The job made of its three stages, whichever raises first ending it. */
  function Assemble(t1: Stage, t2: Stage, t3: Stage, passed: bool): Run
  {
    if t1.error.Some? then
      Run(TaskStatus.Failed, [StatusRunning] + t1.notes + [Raised(t1.error.value)], t1.calls, t1.writes)
    else if t2.error.Some? then
      Run(TaskStatus.Failed, [StatusRunning] + t1.notes + t2.notes + [Raised(t2.error.value)],
          t1.calls + t2.calls, t1.writes + t2.writes)
    else if t3.error.Some? then
      Run(TaskStatus.Failed, [StatusRunning] + t1.notes + t2.notes + t3.notes + [Raised(t3.error.value)],
          t1.calls + t2.calls + t3.calls, t1.writes + t2.writes + t3.writes)
    else
      Run(if passed then TaskStatus.Completed else TaskStatus.Failed,
          [StatusRunning] + t1.notes + t2.notes + t3.notes,
          t1.calls + t2.calls + t3.calls, t1.writes + t2.writes + t3.writes)
  }

  /** A stage followed by the rest of the job: an error the stage raises ends the job
      there as `FAILED`; otherwise the rest runs. */
  function Then(s: Stage, rest: Run): Run
  {
    if s.error.Some? then Run(TaskStatus.Failed, s.notes + [Raised(s.error.value)], s.calls, s.writes)
    else Run(rest.status, s.notes + rest.notes, s.calls + rest.calls, s.writes + rest.writes)
  }

  /** The last stage: an error ends the job as `FAILED`, otherwise `passed` decides. */
  function Last(s: Stage, passed: bool): Run
  {
    if s.error.Some? then Run(TaskStatus.Failed, s.notes + [Raised(s.error.value)], s.calls, s.writes)
    else Run(if passed then TaskStatus.Completed else TaskStatus.Failed, s.notes, s.calls, s.writes)
  }

  /** Stages 2 and 3, starting at call `k`. */
  function LaterStages(exec: nat -> Response, matcher: Matcher, k: nat, id: string, root: string,
                       maxAttempts: int): Run
  {
    var t2 := Step2(exec, matcher, k, id, root);
    var k3 := k + |t2.calls|;
    Then(t2, Last(Step3(exec, matcher, k3, id, root, maxAttempts), RunAttempts(exec, matcher, k3, 1, maxAttempts).passed))
  }

  /** The three stages, starting at call `k`. */
  function Stages(exec: nat -> Response, matcher: Matcher, k: nat, id: string, rawRoot: string, root: string,
                  description: string, maxAttempts: int): Run
  {
    var t1 := Step1(exec, k, id, rawRoot, root, description);
    Then(t1, LaterStages(exec, matcher, k + |t1.calls|, id, root, maxAttempts))
  }

  /** Announcing `RUNNING` and then running the stages one after another, each
      through `Then`, is the job as assembled. */
  lemma AssembleThen(t1: Stage, t2: Stage, t3: Stage, passed: bool)
    ensures var s := Then(t1, Then(t2, Last(t3, passed)));
            Assemble(t1, t2, t3, passed) == Run(s.status, [StatusRunning] + s.notes, s.calls, s.writes)
  {
    if t1.error.None? && t2.error.None? {
      var ws := [StatusRunning] + t1.notes + t2.notes;
      if t3.error.Some? {
        assert [StatusRunning] + (t1.notes + (t2.notes + (t3.notes + [Raised(t3.error.value)])))
            == ws + t3.notes + [Raised(t3.error.value)];
      } else {
        assert [StatusRunning] + (t1.notes + (t2.notes + t3.notes)) == ws + t3.notes;
      }
      assert t1.writes + (t2.writes + t3.writes) == t1.writes + t2.writes + t3.writes;
      assert t1.calls + (t2.calls + t3.calls) == t1.calls + t2.calls + t3.calls;
    } else if t1.error.None? {
      assert [StatusRunning] + (t1.notes + (t2.notes + [Raised(t2.error.value)]))
          == [StatusRunning] + t1.notes + t2.notes + [Raised(t2.error.value)];
    } else {
      assert [StatusRunning] + (t1.notes + [Raised(t1.error.value)]) == [StatusRunning] + t1.notes + [Raised(t1.error.value)];
    }
  }

  /** The job is `RUNNING` announced, then its stages one after another. */
  lemma JobRunStages(exec: nat -> Response, matcher: Matcher, k: nat, id: string, rawRoot: string, root: string,
                     description: string, maxAttempts: int)
    ensures var s := Stages(exec, matcher, k, id, rawRoot, root, description, maxAttempts);
            JobRun(exec, matcher, k, id, rawRoot, root, description, maxAttempts)
              == Run(s.status, [StatusRunning] + s.notes, s.calls, s.writes)
  {
    var t1 := Step1(exec, k, id, rawRoot, root, description);
    var t2 := Step2(exec, matcher, k + |t1.calls|, id, root);
    var k3 := k + |t1.calls| + |t2.calls|;
    var t3 := Step3(exec, matcher, k3, id, root, maxAttempts);
    var passed := RunAttempts(exec, matcher, k3, 1, maxAttempts).passed;
    assert JobRun(exec, matcher, k, id, rawRoot, root, description, maxAttempts) == Assemble(t1, t2, t3, passed);
    assert LaterStages(exec, matcher, k + |t1.calls|, id, root, maxAttempts) == Then(t2, Last(t3, passed));
    AssembleThen(t1, t2, t3, passed);
  }

  // ---- The stage-3 loop ----

  /** How many attempts run from `attempt` to `maxAttempts` when none ends the loop early. */
  function Count(attempt: int, maxAttempts: int): nat
  {
    if attempt <= maxAttempts then maxAttempts - attempt + 1 else 0
  }

  /** The loop makes at most `Count` attempts; it never ends both passed and with an
      error; and every output it keeps is the answer to its own call. */
  lemma {:induction false} AttemptsShape(exec: nat -> Response, matcher: Matcher, k: nat,
                                         attempt: int, maxAttempts: int)
    ensures var r := RunAttempts(exec, matcher, k, attempt, maxAttempts);
            && r.Made() <= Count(attempt, maxAttempts)
            && !(r.passed && r.error.Some?)
            && (forall j | 0 <= j < |r.outputs| :: exec(k + j) == Ok(r.outputs[j]))
            && (r.error.Some? ==> exec(k + |r.outputs|) == Err(r.error.value))
    decreases Count(attempt, maxAttempts)
  {
    if attempt <= maxAttempts && exec(k).Ok? && !matcher(exec(k).value, PASS_SENTINEL) {
      AttemptsShape(exec, matcher, k + 1, attempt + 1, maxAttempts);
      var rest := RunAttempts(exec, matcher, k + 1, attempt + 1, maxAttempts);
      var r := RunAttempts(exec, matcher, k, attempt, maxAttempts);
      assert r.outputs == [exec(k).value] + rest.outputs;
      forall j | 1 <= j < |r.outputs|
        ensures exec(k + j) == Ok(r.outputs[j])
      {
        assert r.outputs[j] == rest.outputs[j - 1];
        assert k + 1 + (j - 1) == k + j;
      }
    }
  }

  /** Conversely, the loop's result is fixed by the answers it got: outputs that are the
      answers to consecutive calls, of which only a last one passes, followed by an error
      or, when none passed, by the end of the attempts, are what the loop gives back. */
  lemma {:induction false} AttemptsFromAnswers(exec: nat -> Response, matcher: Matcher, k: nat,
                                               attempt: int, maxAttempts: int,
                                               outputs: seq<string>, passed: bool, error: Option<string>)
    requires forall j | 0 <= j < |outputs| :: exec(k + j) == Ok(outputs[j])
    requires forall j | 0 <= j < |outputs| :: matcher(outputs[j], PASS_SENTINEL) <==> passed && j == |outputs| - 1
    requires passed ==> |outputs| >= 1 && error.None?
    requires error.Some? ==> |outputs| < Count(attempt, maxAttempts) && exec(k + |outputs|) == Err(error.value)
    requires !passed && error.None? ==> |outputs| == Count(attempt, maxAttempts)
    requires |outputs| <= Count(attempt, maxAttempts)
    ensures RunAttempts(exec, matcher, k, attempt, maxAttempts) == Attempts(outputs, passed, error)
    decreases Count(attempt, maxAttempts)
  {
    if attempt <= maxAttempts && outputs != [] {
      assert exec(k) == Ok(outputs[0]);
      if |outputs| > 1 || !passed {
        var tail := outputs[1..];
        forall j | 0 <= j < |tail|
          ensures exec(k + 1 + j) == Ok(tail[j])
          ensures matcher(tail[j], PASS_SENTINEL) <==> passed && j == |tail| - 1
        {
          assert tail[j] == outputs[j + 1];
        }
        AttemptsFromAnswers(exec, matcher, k + 1, attempt + 1, maxAttempts, tail, passed, error);
        assert [outputs[0]] + tail == outputs;
      }
    }
  }

  /** When no attempt passes and none raises, all `Count` attempts run, and the loop
      ends neither passed nor with an error. */
  lemma {:induction false} AttemptsAllFail(exec: nat -> Response, matcher: Matcher, k: nat,
                                           attempt: int, maxAttempts: int)
    requires forall i | k <= i < k + Count(attempt, maxAttempts) ::
               exec(i).Ok? && !matcher(exec(i).value, PASS_SENTINEL)
    ensures var r := RunAttempts(exec, matcher, k, attempt, maxAttempts);
            && !r.passed && r.error.None?
            && |r.outputs| == Count(attempt, maxAttempts)
    decreases Count(attempt, maxAttempts)
  {
    if attempt <= maxAttempts {
      assert exec(k).Ok?;
      AttemptsAllFail(exec, matcher, k + 1, attempt + 1, maxAttempts);
    }
  }

  /** When attempt `n` (counting from `attempt`) is the first to pass, exactly the
      attempts up to `n` run and the loop ends passed. */
  lemma {:induction false} AttemptsFirstPass(exec: nat -> Response, matcher: Matcher, k: nat,
                                             attempt: int, maxAttempts: int, n: int)
    requires attempt <= n <= maxAttempts
    requires forall i | k <= i < k + (n - attempt) ::
               exec(i).Ok? && !matcher(exec(i).value, PASS_SENTINEL)
    requires exec(k + (n - attempt)).Ok? && matcher(exec(k + (n - attempt)).value, PASS_SENTINEL)
    ensures var r := RunAttempts(exec, matcher, k, attempt, maxAttempts);
            && r.passed && r.error.None?
            && |r.outputs| == n - attempt + 1
    decreases n - attempt
  {
    if attempt < n {
      assert exec(k).Ok?;
      AttemptsFirstPass(exec, matcher, k + 1, attempt + 1, maxAttempts, n);
    }
  }

  /** When attempt `n` (counting from `attempt`) raises before any passed, no later
      attempt runs, and the loop ends with that error. */
  lemma {:induction false} AttemptsStopOnError(exec: nat -> Response, matcher: Matcher, k: nat,
                                               attempt: int, maxAttempts: int, n: int)
    requires attempt <= n <= maxAttempts
    requires forall i | k <= i < k + (n - attempt) ::
               exec(i).Ok? && !matcher(exec(i).value, PASS_SENTINEL)
    requires exec(k + (n - attempt)).Err?
    ensures var r := RunAttempts(exec, matcher, k, attempt, maxAttempts);
            && !r.passed && r.error == Some(exec(k + (n - attempt)).error)
            && |r.outputs| == n - attempt
    decreases n - attempt
  {
    if attempt < n {
      assert exec(k).Ok?;
      AttemptsStopOnError(exec, matcher, k + 1, attempt + 1, maxAttempts, n);
    }
  }

  // ---- Properties of a whole job ----

  /** The outputs of calls `k` to `k + n - 1`, all of which returned. */
  function Outputs(exec: nat -> Response, k: nat, n: nat): seq<string>
    requires forall i | k <= i < k + n :: exec(i).Ok?
  {
    seq(n, j requires 0 <= j < n => exec(k + j).value)
  }

  /** Every job starts with the RUNNING note and ends COMPLETED or FAILED, never
      ENQUEUED or RUNNING; it ends COMPLETED exactly when its last note is the PASS
      one, and the last note is always PASS, attempts exhausted, or an error. */
  lemma JobEndsSettled(exec: nat -> Response, matcher: Matcher, k: nat, id: string, rawRoot: string,
                       root: string, description: string, maxAttempts: int)
    ensures var r := JobRun(exec, matcher, k, id, rawRoot, root, description, maxAttempts);
            && r.status.IsTerminal()
            && |r.notes| >= 3 && r.notes[0] == StatusRunning
            && (r.status == TaskStatus.Completed <==> r.notes[|r.notes| - 1] == Passed)
            && (r.notes[|r.notes| - 1] == Passed || r.notes[|r.notes| - 1] == AttemptsExhausted ||
                r.notes[|r.notes| - 1].Raised?)
  {
  }

  /** When the stage-1 call raises: that one call is all, nothing is written, the job
      ends FAILED, and its notes are RUNNING, the stage-1 start and one error carrying
      the message, last. */
  lemma JobStep1Raises(exec: nat -> Response, matcher: Matcher, k: nat, id: string, rawRoot: string,
                       root: string, description: string, maxAttempts: int)
    requires exec(k).Err?
    ensures var r := JobRun(exec, matcher, k, id, rawRoot, root, description, maxAttempts);
            && r.calls == [Call(root, Analyze(rawRoot, description))]
            && r.writes == []
            && r.status == TaskStatus.Failed
            && r.notes == [StatusRunning, Step1Started, Raised(exec(k).error)]
  {
  }

  /** When stage 2 returns without the stage-2 sentinel: its output is still written to
      report 2, a warning takes the place of the stage-2 completion, and stage 3 still
      starts, making its first call if any attempt is allowed. */
  lemma JobStep2Warns(exec: nat -> Response, matcher: Matcher, k: nat, id: string, rawRoot: string,
                      root: string, description: string, maxAttempts: int)
    requires exec(k).Ok? && exec(k + 1).Ok?
    requires !matcher(exec(k + 1).value, STEP2_SENTINEL)
    ensures var r := JobRun(exec, matcher, k, id, rawRoot, root, description, maxAttempts);
            && |r.writes| >= 2 && r.writes[1] == (StepFile(root, id, 2), exec(k + 1).value)
            && |r.notes| >= 6 && r.notes[4] == SentinelMissing && r.notes[5] == Step3Started
            && (maxAttempts >= 1 ==> |r.calls| >= 3 && r.calls[2] == AttemptCall(root, id, 1, maxAttempts))
  {
    JobAfterEarlyStages(exec, matcher, k, id, rawRoot, root, description, maxAttempts);
    var a := RunAttempts(exec, matcher, k + 2, 1, maxAttempts);
    if maxAttempts >= 1 {
      assert a.Made() >= 1;
    }
  }

  /** The notes of stage 2 when it returned `output`. */
  function Step2Notes(matcher: Matcher, output: string): seq<Note>
  {
    [Step2Started, if matcher(output, STEP2_SENTINEL) then TestsWritten else SentinelMissing]
  }

  /** Once both early stages have returned, the rest of the job is decided by the
      stage-3 loop alone: a note and a call per attempt made, then the error, or the
      log and the closing note. */
  lemma JobAfterEarlyStages(exec: nat -> Response, matcher: Matcher, k: nat, id: string, rawRoot: string,
                            root: string, description: string, maxAttempts: int)
    requires exec(k).Ok? && exec(k + 1).Ok?
    ensures var r := JobRun(exec, matcher, k, id, rawRoot, root, description, maxAttempts);
            var a := RunAttempts(exec, matcher, k + 2, 1, maxAttempts);
            var n := a.Made();
            && r.calls == [Call(root, Analyze(rawRoot, description)),
                           Call(root, WriteTests(StepFile(root, id, 1), TestsDir(root)))]
                          + AttemptCalls(root, id, n, maxAttempts)
            && r.notes == [StatusRunning, Step1Started, Step1Done] + Step2Notes(matcher, exec(k + 1).value)
                          + [Step3Started] + AttemptNotes(n, maxAttempts)
                          + [if a.error.Some? then Raised(a.error.value) else if a.passed then Passed else AttemptsExhausted]
            && r.writes == [(StepFile(root, id, 1), exec(k).value), (StepFile(root, id, 2), exec(k + 1).value)]
                           + (if a.error.Some? then [] else [(StepFile(root, id, 3), Concat(Blocks(a.outputs)))])
            && r.status == (if a.error.None? && a.passed then TaskStatus.Completed else TaskStatus.Failed)
  {
  }

  /** Once both early stages have returned and the loop has ended without an error: the
      job's calls, notes and writes laid out by position. */
  lemma JobLoopEnded(exec: nat -> Response, matcher: Matcher, k: nat, id: string, rawRoot: string,
                     root: string, description: string, maxAttempts: int, outputs: seq<string>, passed: bool)
    requires exec(k).Ok? && exec(k + 1).Ok?
    requires RunAttempts(exec, matcher, k + 2, 1, maxAttempts) == Attempts(outputs, passed, None)
    ensures var r := JobRun(exec, matcher, k, id, rawRoot, root, description, maxAttempts);
            var n := |outputs|;
            && |r.calls| == 2 + n && r.calls[2..] == AttemptCalls(root, id, n, maxAttempts)
            && |r.notes| == 7 + n && r.notes[6..6 + n] == AttemptNotes(n, maxAttempts)
            && r.notes[6 + n] == (if passed then Passed else AttemptsExhausted)
            && |r.writes| == 3
            && r.writes[2] == (StepFile(root, id, 3), Concat(Blocks(outputs)))
            && r.status == (if passed then TaskStatus.Completed else TaskStatus.Failed)
  {
    JobAfterEarlyStages(exec, matcher, k, id, rawRoot, root, description, maxAttempts);
  }

  /** When both early stages return and no attempt passes or raises: exactly
      `max(0, maxAttempts)` attempts run, each with its note and call; report 3 holds
      their blocks in order (nothing when `maxAttempts <= 0`); and the job ends FAILED
      with the attempts-exhausted note. */
  lemma JobNeverPasses(exec: nat -> Response, matcher: Matcher, k: nat, id: string, rawRoot: string,
                       root: string, description: string, maxAttempts: int)
    requires exec(k).Ok? && exec(k + 1).Ok?
    requires forall i | k + 2 <= i < k + 2 + Count(1, maxAttempts) ::
               exec(i).Ok? && !matcher(exec(i).value, PASS_SENTINEL)
    ensures var r := JobRun(exec, matcher, k, id, rawRoot, root, description, maxAttempts);
            var n := Count(1, maxAttempts);
            && n == (if maxAttempts <= 0 then 0 else maxAttempts)
            && |r.calls| == 2 + n && r.calls[2..] == AttemptCalls(root, id, n, maxAttempts)
            && |r.notes| == 7 + n && r.notes[6..6 + n] == AttemptNotes(n, maxAttempts)
            && r.notes[6 + n] == AttemptsExhausted
            && |r.writes| == 3
            && r.writes[2] == (StepFile(root, id, 3), Concat(Blocks(Outputs(exec, k + 2, n))))
            && r.status == TaskStatus.Failed
  {
    var n := Count(1, maxAttempts);
    AttemptsAllFail(exec, matcher, k + 2, 1, maxAttempts);
    AttemptsShape(exec, matcher, k + 2, 1, maxAttempts);
    var outputs := Outputs(exec, k + 2, n);
    assert RunAttempts(exec, matcher, k + 2, 1, maxAttempts).outputs == outputs;
    JobLoopEnded(exec, matcher, k, id, rawRoot, root, description, maxAttempts, outputs, false);
  }

  /** When both early stages return and attempt `n` is the first to pass: exactly `n`
      attempts run, report 3 holds their `n` blocks, and the job ends COMPLETED with the
      PASS note. */
  lemma JobPassesAt(exec: nat -> Response, matcher: Matcher, k: nat, id: string, rawRoot: string,
                    root: string, description: string, maxAttempts: int, n: int)
    requires 1 <= n <= maxAttempts
    requires exec(k).Ok? && exec(k + 1).Ok?
    requires forall i | k + 2 <= i < k + 1 + n :: exec(i).Ok? && !matcher(exec(i).value, PASS_SENTINEL)
    requires exec(k + 1 + n).Ok? && matcher(exec(k + 1 + n).value, PASS_SENTINEL)
    ensures var r := JobRun(exec, matcher, k, id, rawRoot, root, description, maxAttempts);
            && |r.calls| == 2 + n && r.calls[2..] == AttemptCalls(root, id, n, maxAttempts)
            && |r.notes| == 7 + n && r.notes[6..6 + n] == AttemptNotes(n, maxAttempts)
            && r.notes[6 + n] == Passed
            && |r.writes| == 3
            && r.writes[2] == (StepFile(root, id, 3), Concat(Blocks(Outputs(exec, k + 2, n))))
            && r.status == TaskStatus.Completed
  {
    AttemptsFirstPass(exec, matcher, k + 2, 1, maxAttempts, n);
    AttemptsShape(exec, matcher, k + 2, 1, maxAttempts);
    var outputs := Outputs(exec, k + 2, n);
    assert RunAttempts(exec, matcher, k + 2, 1, maxAttempts).outputs == outputs;
    JobLoopEnded(exec, matcher, k, id, rawRoot, root, description, maxAttempts, outputs, true);
  }

  /** When both early stages return and attempt `n` raises before any passed: no
      further attempt runs, report 3 is never written, and the job ends FAILED with an
      error note carrying the message. */
  lemma JobAttemptRaises(exec: nat -> Response, matcher: Matcher, k: nat, id: string, rawRoot: string,
                         root: string, description: string, maxAttempts: int, n: int)
    requires 1 <= n <= maxAttempts
    requires exec(k).Ok? && exec(k + 1).Ok?
    requires forall i | k + 2 <= i < k + 1 + n :: exec(i).Ok? && !matcher(exec(i).value, PASS_SENTINEL)
    requires exec(k + 1 + n).Err?
    ensures var r := JobRun(exec, matcher, k, id, rawRoot, root, description, maxAttempts);
            && |r.calls| == 2 + n && r.calls[2..] == AttemptCalls(root, id, n, maxAttempts)
            && |r.notes| == 7 + n && r.notes[6..6 + n] == AttemptNotes(n, maxAttempts)
            && r.notes[6 + n] == Raised(exec(k + 1 + n).error)
            && |r.writes| == 2 && (forall w | w in r.writes :: w.0 != StepFile(root, id, 3))
            && r.status == TaskStatus.Failed
  {
    AttemptsStopOnError(exec, matcher, k + 2, 1, maxAttempts, n);
    var a := RunAttempts(exec, matcher, k + 2, 1, maxAttempts);
    JobLoopRaised(exec, matcher, k, id, rawRoot, root, description, maxAttempts, a.outputs, exec(k + 1 + n).error);
  }

  /** Once both early stages have returned and an attempt has raised: the job's calls,
      notes and writes laid out by position. */
  lemma JobLoopRaised(exec: nat -> Response, matcher: Matcher, k: nat, id: string, rawRoot: string,
                      root: string, description: string, maxAttempts: int, outputs: seq<string>, error: string)
    requires exec(k).Ok? && exec(k + 1).Ok?
    requires RunAttempts(exec, matcher, k + 2, 1, maxAttempts) == Attempts(outputs, false, Some(error))
    ensures var r := JobRun(exec, matcher, k, id, rawRoot, root, description, maxAttempts);
            var n := |outputs| + 1;
            && |r.calls| == 2 + n && r.calls[2..] == AttemptCalls(root, id, n, maxAttempts)
            && |r.notes| == 7 + n && r.notes[6..6 + n] == AttemptNotes(n, maxAttempts)
            && r.notes[6 + n] == Raised(error)
            && |r.writes| == 2 && (forall w | w in r.writes :: w.0 != StepFile(root, id, 3))
            && r.status == TaskStatus.Failed
  {
    JobAfterEarlyStages(exec, matcher, k, id, rawRoot, root, description, maxAttempts);
    PathsDistinct(root, id);
  }
}
