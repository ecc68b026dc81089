# Claude Debugger job pipeline, verified model

Claude Debugger takes debugging jobs from a user interface. Each job is a project root, a
kind and a description. A single background worker takes the jobs in order and runs each
one through three stages, each a call to an external coding assistant:

1. analysis, whose output becomes `step1.md`;
2. writing failing tests, checked for the `RESULT: TESTS_WRITTEN` sentinel and written
   to `step2.md`;
3. up to `max_attempts` fix attempts, each checked for `RESULT: PASS`. The attempt log
   is written to `step3.md` once, after the loop.

The first error the assistant raises ends the job as FAILED. Every step sends a progress
event to the interface's queue.

The model has these modules:

- `Text`: Python's `strip`, `upper`, `splitlines` and `str(int)` on strings, written out.
- `CliStrings`: the sentinels and the tail-of-output sentinel matcher.
- `Models`: the enumerations and records.
- `Prompts`: the three instruction templates.
- `Client`: `run_with_sentinel` over an abstract executor response.
- `Progress`: the events a job emits.
- `Pipeline`: one job, as a value. It gives the notes, the calls, the file writes and the
  final status, for any behaviour of the executor.
- `Drain`: the worker draining a queue of jobs, as a value.
- `Manager`: the `TaskManager` class. It has fields for the event queue, the job queue,
  the running flag, the calls made, the files and the directories. Its methods are proved
  to do exactly what `Pipeline` and `Drain` say.

The executor is an oracle `executor: nat -> Result<string, string>`. It answers call
number `i`, counted over the whole life of the manager, with an output or an error
message. Path resolution is a parameter `resolve`.

The artifacts of a job go to `<root>/.claude_tasks/item_<id>` (core/manager.py:95), its
tests to `<root>/test_bugfix` (core/manager.py:94). The matcher looks at the last three
lines of the stripped output, and blank lines inside that tail take their places among the
three (core/cli_strings.py:28-29), as `CliStrings.SentinelFourthFromLastMissed` shows.

## Model

| member | source | states |
|---|---|---|
| Text.Strip | core/cli_strings.py:28 | `str.strip` on ASCII whitespace, defined by its body; its contract is stated by StripIsInfix, StripAllSpace, StripNoBorder, StripSurrounded, StripAppendSpace and StripKeepsNonSpace |
| Text.Upper | core/cli_strings.py:32 | `str.upper` on ASCII letters, defined by its body; stated by UpperChar, UpperIdempotent, UpperNoLower and UpperKeepsSpace |
| Text.TrimStart | core/cli_strings.py:28 | the result is a suffix of the input, everything removed is whitespace, and it does not start with whitespace |
| Text.TrimEnd | core/cli_strings.py:28 | the result is a prefix of the input, everything removed is whitespace, and it does not end with whitespace |
| Text.StripIsInfix | core/cli_strings.py:28 | `strip` gives a contiguous slice of the input with no whitespace at either end |
| Text.InfixOfTrims | core/cli_strings.py:28 | a trim of a trim is a slice with only whitespace outside it on both sides |
| Text.StripAllSpace | core/cli_strings.py:28 | stripping whitespace-only text gives the empty string |
| Text.StripNoBorder | core/cli_strings.py:28 | text with no whitespace at its ends is left unchanged by `strip` |
| Text.StripSurrounded | core/cli_strings.py:28 | whitespace on both sides of a borderless text is removed exactly |
| Text.StripAppendSpace | core/cli_strings.py:28 | appending whitespace does not change the stripped text |
| Text.StripKeepsNonSpace | core/cli_strings.py:28 | `strip` keeps at least the span between any two non-whitespace characters |
| Text.UpperChar | core/cli_strings.py:32 | upper-casing a character leaves no lower-case letter, shifts `a`-`z` by 32 and fixes everything else |
| Text.UpperIdempotent | core/cli_strings.py:32 | upper-casing twice is upper-casing once |
| Text.UpperNoLower | core/cli_strings.py:32 | text with no lower-case letter is its own upper-case form |
| Text.UpperKeepsSpace | core/cli_strings.py:32 | upper-casing keeps whitespace and non-whitespace apart |
| Text.Split | core/cli_strings.py:28 | cutting at line breaks always gives at least one piece |
| Text.SplitLines | core/cli_strings.py:28 | `splitlines` gives no lines exactly for the empty string |
| Text.SplitLinesNoFinalBreak | core/cli_strings.py:28 | without a final line break, `splitlines` is cutting at every line break |
| Text.SplitPiecesHaveNoBreak | core/cli_strings.py:28 | no piece of a split contains a line break |
| Text.JoinSplit | core/cli_strings.py:28 | joining the pieces of a split with line breaks gives the text back |
| Text.SplitJoin | core/cli_strings.py:28 | splitting lines that contain no break, joined with line breaks, gives those lines back |
| Text.SplitAround | core/cli_strings.py:28 | splitting at a line break splits each side separately |
| Text.NatToString | core/manager.py:158 | the decimal form of a natural number is a non-empty string of digits |
| Text.DecimalValueOfNatToString | core/manager.py:158 | reading the decimal form back gives the number |
| Text.IntToString | core/prompts.py:94 | the decimal form of an integer is non-empty, made of digits and a minus sign, and starts with `-` exactly for negatives |
| Text.IntToStringInjective | core/prompts.py:94 | different integers have different decimal forms |
| Text.IntToStringNoSpace | core/prompts.py:94 | a decimal form has no line break, whitespace or lower-case letter |
| CliStrings.CheckSentinelInOutput | core/cli_strings.py:17-34 | `check_sentinel_in_output`, defined by its body over the window and the line test; characterized by CheckSentinelCharacterization and the lemmas below |
| CliStrings.OutputLines | core/cli_strings.py:28 | `output.strip().splitlines()`, defined by its body; stated by JoinedOutputLines, OutputLinesOfBorderless, OutputLinesEnd and OutputLinesFrom |
| CliStrings.LastThree | core/cli_strings.py:29 | `lines[-3:]` or all the lines, defined by its body; stated by LastThreeMatch |
| CliStrings.Window | core/cli_strings.py:28-29 | the last three lines of the stripped output, defined by its body; stated by CheckSentinelCharacterization and LastThreeLinesDecide |
| CliStrings.LineMatches | core/cli_strings.py:32 | the test `line.strip().upper() == sentinel.upper()`, defined by its body; stated by OnlyWholeLinesMatch, SpacesAndCaseIgnored, SentinelLineMatches, BlankLineNeverMatches and LineMatchesAtMostOneSentinel |
| CliStrings.AnyLineMatches | core/cli_strings.py:31-34 | the `for` loop returning at the first matching line, defined by its body; stated by AnyLineMatchesExists |
| CliStrings.CheckSentinelCharacterization | core/cli_strings.py:28-34 | the matcher accepts exactly when one of the last min(3, n) lines of the stripped output, stripped and upper-cased, equals the upper-cased sentinel |
| CliStrings.AnyLineMatchesExists | core/cli_strings.py:31-34 | the search loop returns true exactly when some line of the window matches |
| CliStrings.LastThreeMatch | core/cli_strings.py:29 | some line of the window matches exactly when some line from index n-3 on matches |
| CliStrings.LastThreeLinesDecide | core/cli_strings.py:29-33 | with three or more lines, the verdict depends on the last three lines only |
| CliStrings.LastLineSeen | core/cli_strings.py:29-33 | a sentinel on the last line of the stripped output is always seen |
| CliStrings.BlankOutputNeverMatches | core/cli_strings.py:28-34 | an empty or whitespace-only output matches no sentinel |
| CliStrings.EarlyLinesAreIgnored | core/cli_strings.py:29 | with four or more lines, a sentinel only on the fourth line from the end or earlier is not seen |
| CliStrings.OnlyWholeLinesMatch | core/cli_strings.py:32 | a line with extra non-blank text before or after the sentinel does not match it |
| CliStrings.SpacesAndCaseIgnored | core/cli_strings.py:32 | surrounding whitespace on the line and letter case are ignored |
| CliStrings.SentinelLineMatches | core/cli_strings.py:32 | a line that is the sentinel itself matches it |
| CliStrings.BlankLineNeverMatches | core/cli_strings.py:32 | a blank line never matches a non-empty sentinel |
| CliStrings.TrailingBlanksIgnored | core/cli_strings.py:28 | trailing whitespace, blank lines included, never changes the verdict |
| CliStrings.JoinedOutputLines | core/cli_strings.py:28 | an output made of lines, with no whitespace at its ends, has exactly those lines, blank ones included |
| CliStrings.OutputLinesOfBorderless | core/cli_strings.py:28 | output with no whitespace at its ends is split as it stands |
| CliStrings.LinesOfJoinedOutput | core/cli_strings.py:28-33 | on such an output, the matcher decides on the last three of the given lines |
| CliStrings.OutputLinesEnd | core/cli_strings.py:28 | the last lines of a borderless output are the lines it ends with |
| CliStrings.OutputLinesFrom | core/cli_strings.py:28 | the same, for the lines from a given index on |
| CliStrings.SentinelThirdFromLastSeen | core/cli_strings.py:28-29 | a sentinel followed by one blank line and a last line is seen |
| CliStrings.SentinelFourthFromLastMissed | core/cli_strings.py:28-29 | a sentinel followed by two blank lines and a last line is missed, because interior blank lines take slots in the window |
| CliStrings.FourLinesMissed | core/cli_strings.py:29-33 | with four lines whose last three do not match, the output does not match |
| CliStrings.BareSentinelMatches | core/cli_strings.py:28-33 | an output that is exactly the sentinel, possibly followed by whitespace or line breaks, matches |
| CliStrings.SentinelsDistinct | core/cli_strings.py:6-8 | the three sentinels are already upper-case and pairwise distinct |
| CliStrings.LineMatchesAtMostOneSentinel | core/cli_strings.py:6-8 | no line matches two different sentinels, so a `RESULT: FAIL` line never satisfies a PASS check |
| Models.TaskTypeFromValue | core/models.py:11-14 | a kind found from a string has that string as its value |
| Models.TaskTypeValues | core/models.py:11-14 | there are two kinds, `"Bug"` and `"Feature Test"`, each found again from its value |
| Models.TaskStatusFromValue | core/models.py:17-22 | a status found from a string has that string as its value |
| Models.TaskStatusValues | core/models.py:17-22 | there are exactly four statuses; each value is its name, distinct and found again from its string |
| Models.TaskItem.constructor | core/models.py:25-32 | a new job keeps its identity, root, kind and description, and starts ENQUEUED with no creation time |
| Models.EventKindTagsDistinct | core/manager.py:57-177 | the nine event kind tags are pairwise distinct |
| Models.StepResultDefaults | core/models.py:51-56 | a step result built from the two required fields has no sentinel and no error |
| Client.RunWithSentinel | claude/client.py:98-100 | an executor error passes through unchanged; otherwise the output is returned with the matcher's verdict for the sentinel, and a missing sentinel is never an error |
| Prompts.Step1Prompt | core/prompts.py:6-31 | `step1_prompt`, defined by its body as the template's literals around the two arguments; its layout is stated by Step1PromptShape |
| Prompts.Step2Prompt | core/prompts.py:34-56 | `step2_prompt`, defined by its body; stated by Step2PromptMentions, Step2PromptLastLines and Step2PromptCarriesSentinel |
| Prompts.Step3Prompt | core/prompts.py:59-94 | `step3_prompt`, defined by its body; stated by Step3PromptEnding, Step3PromptMentions, Step3PromptLastLines and Step3PromptSentinels |
| Prompts.Step1PromptShape | core/prompts.py:17-31 | the stage-1 instruction is the fixed head, the root, the fixed `User description:` text, the description and the fixed tail, each at its stated position, so both arguments appear verbatim, the root first |
| Prompts.FiveParts | core/prompts.py:17-31 | where the parts of a five-part concatenation sit |
| Prompts.Step2PromptMentions | core/prompts.py:49-50 | the stage-1 report path and then the tests directory appear verbatim |
| Prompts.Step2PromptLastLines | core/prompts.py:54-56 | for all arguments, the last three lines the matcher sees are fixed text ending in the stage-2 sentinel |
| Prompts.Step2PromptLastLine | core/prompts.py:56 | the last line of every stage-2 instruction is exactly `RESULT: TESTS_WRITTEN` |
| Prompts.Step2ClosingEnd | core/prompts.py:51-56 | the closing lines are six, their last three a blank line, the one-line request and the stage-2 sentinel, none holding a line break |
| Prompts.Step2PromptCarriesSentinel | core/prompts.py:54-56 | the matcher accepts every stage-2 instruction for the stage-2 sentinel |
| Prompts.Step2SentinelMatchesItself | core/cli_strings.py:6 | the stage-2 sentinel line matches the stage-2 sentinel |
| Prompts.Step3PromptEnding | core/prompts.py:94 | the stage-3 instruction ends with `Attempt <attempt> of <max_attempts>.` |
| Prompts.Step3PromptMentions | core/prompts.py:75-82 | the stage-1 report, the stage-2 report and the tests directory appear verbatim, in that order, the tests directory twice |
| Prompts.Step3PromptExtendsBody | core/prompts.py:71-94 | everything found in the body is found at the same place in the instruction |
| Prompts.Step3BodyNamesReports | core/prompts.py:75-76 | where the two report paths sit |
| Prompts.Step3BodyNamesTestsInGoal | core/prompts.py:78 | where the tests directory sits in the goal sentence |
| Prompts.Step3BodyNamesTestsInCommand | core/prompts.py:82 | where the tests directory sits in the test command |
| Prompts.NineParts | core/prompts.py:71-82 | where the parts of a nine-part concatenation sit |
| Prompts.Step3PromptLastLines | core/prompts.py:92-94 | the last three lines of every stage-3 instruction are the FAIL line, a blank line and the attempt line |
| Prompts.Step3PromptSentinels | core/prompts.py:89-94 | read back as output, every stage-3 instruction does not pass, and it does carry the FAIL sentinel in the window |
| Prompts.FailLineShape | core/prompts.py:92 | the indented FAIL line matches FAIL and not PASS |
| Prompts.AttemptLineNotPass | core/prompts.py:94 | the attempt line never matches PASS |
| Progress.Short | core/manager.py:87 | the short identifier is the first eight characters of the identifier, or all of it |
| Progress.Render | core/manager.py:57-177 | an event has the note's kind and the job's identifier |
| Progress.RenderTags | core/manager.py:59-63 | every rendered event carries the identifier of its job |
| Progress.Events | core/manager.py:59-63 | one event per note |
| Progress.EventsAppend | core/manager.py:59-63 | making events agrees with appending notes |
| Progress.RenderedKinds | core/manager.py:59-63 | each event has its note's kind and the job's identifier |
| Progress.NoteTags | core/manager.py:57-177 | each note is sent with the worker's tag: `enqueued`, `status`, `step`, `step_complete`, `warning`, `attempt`, `completed`, `failed` or `error` |
| Pipeline.TestsDir | core/manager.py:94 | `<root>/test_bugfix`, defined by its body; PathsDistinct states it differs from every report file |
| Pipeline.ArtifactsDir | core/manager.py:95 | `<root>/.claude_tasks/item_<id>`, defined by its body; the report files lie below it |
| Pipeline.JobDirs | core/manager.py:93-99 | the directories the `mkdir` calls create, parents included, defined by its body; ProcessTask is proved to add exactly these |
| Pipeline.StepFile | core/manager.py:95-104 | the report path `<root>/.claude_tasks/item_<id>/step<n>.md`, defined by its body; PathsDistinct states the paths differ |
| Pipeline.AttemptBlock | core/manager.py:163 | the log block of one attempt, defined by its body; Concat and ConcatAppend state how the blocks make the log |
| Pipeline.Step1 | core/manager.py:124-132 | stage 1 as a value, defined by its body; the method ExecuteStep1 is proved equal to it, and JobStep1Raises states its error case |
| Pipeline.Step2 | core/manager.py:134-147 | stage 2 as a value, defined by its body; the method ExecuteStep2 is proved equal to it, and JobStep2Warns states the missing-sentinel case |
| Pipeline.RunAttempts | core/manager.py:154-167 | the stage-3 loop as a value, defined by its body; characterized both ways by AttemptsShape and AttemptsFromAnswers, the method RunAttemptLoop is proved equal to it |
| Pipeline.Step3 | core/manager.py:149-177 | stage 3 as a value, defined by its body; the method ExecuteStep3 is proved equal to it |
| Pipeline.JobRun | core/manager.py:79-177 | the whole job as a value, defined by its body; the method ProcessTask is proved equal to it, and JobEndsSettled and the Job lemmas below state its outcomes |
| Pipeline.PathsDistinct | core/manager.py:94-104 | the three report files and the tests directory are four different paths |
| Pipeline.Concat | core/manager.py:170 | `"".join` of the attempt blocks, defined by its body; stated by ConcatAppend, and Finish writes it to report 3 |
| Pipeline.ConcatAppend | core/manager.py:163-170 | the log of two runs of blocks is the two logs in order |
| Pipeline.AttemptsGrow | core/manager.py:157-161 | one more attempt adds its note and its call at the end |
| Pipeline.AttemptEventsGrow | core/manager.py:158 | one more attempt adds its event at the end |
| Pipeline.AssembleThen | core/manager.py:111-122 | RUNNING and then the stages in turn, each stopping the job at its error, is the job as assembled |
| Pipeline.JobRunStages | core/manager.py:86-122 | the job is the RUNNING note followed by its stages, one after another |
| Pipeline.AttemptsShape | core/manager.py:157-167 | the loop makes at most `max(0, max_attempts)` attempts, never ends both passed and raised, and keeps each output as the answer to its own call |
| Pipeline.AttemptsFromAnswers | core/manager.py:157-167 | conversely, answers that fit the loop's stopping rules fix its result |
| Pipeline.AttemptsAllFail | core/manager.py:157-167 | when no attempt passes or raises, all attempts run and the loop ends not passed |
| Pipeline.AttemptsFirstPass | core/manager.py:157-167 | when attempt n is the first to pass, exactly n attempts run and the loop ends passed |
| Pipeline.AttemptsStopOnError | core/manager.py:157-167 | when attempt n raises before any pass, no later attempt runs and the loop ends with that error |
| Pipeline.JobEndsSettled | core/manager.py:86-177 | every job starts with the RUNNING note and ends COMPLETED or FAILED; COMPLETED exactly when its last note is the PASS note; the last note is PASS, attempts exhausted or an error |
| Pipeline.JobStep1Raises | core/manager.py:111-131 | when stage 1 raises: one call, no file written, FAILED, and one error note, last |
| Pipeline.JobStep2Warns | core/manager.py:140-147 | when stage 2 misses its sentinel: report 2 is still written, a warning replaces the completion, and stage 3 still starts |
| Pipeline.JobAfterEarlyStages | core/manager.py:86-177 | after two returned calls, the job's calls, notes (so the event order), writes and status are fixed by the stage-3 loop |
| Pipeline.JobLoopEnded | core/manager.py:157-177 | when the loop ends without an error, its calls, notes and report 3 are laid out by position and the status follows the pass |
| Pipeline.JobNeverPasses | core/manager.py:157-177 | when no attempt passes: exactly `max(0, max_attempts)` attempts run, report 3 holds their blocks in order, and the job ends FAILED with the attempts-exhausted note |
| Pipeline.JobPassesAt | core/manager.py:157-174 | when attempt n is the first to pass: exactly n attempts run, report 3 holds their n blocks, and the job ends COMPLETED with the PASS note |
| Pipeline.JobAttemptRaises | core/manager.py:157-170 | when attempt n raises: no further attempt runs, report 3 is never written, and the job ends FAILED with an error note |
| Pipeline.JobLoopRaised | core/manager.py:119-170 | when the loop raises: calls and notes laid out by position, two files written, FAILED |
| Drain.JobLog | core/manager.py:79-122 | one job as the worker runs it: its run, its notes made events, its directories and its final status, defined by its body; stated by WorkerRuns and WorkerSettlesAndTags, and RunTask is proved equal to it |
| Drain.DrainLog | core/manager.py:67-77 | the worker draining the queue in order, one job to its end before the next, defined by its body; stated by DrainStep, DrainExtends, DrainOne, DrainSplit, DrainSettles and DrainEventsTagged, and WorkerLoop is proved equal to it |
| Drain.ApplyWrites | core/manager.py:131-170 | every path written, and every path there before, is present afterwards |
| Drain.ApplyWritesAppend | core/manager.py:131-170 | writing in two batches is writing them in one |
| Drain.ApplyWritesLast | core/manager.py:131-170 | a file holds what its last write put there |
| Drain.ApplyWritesElsewhere | core/manager.py:131-170 | a path no write names keeps its old content |
| Drain.WorkerRuns | core/manager.py:67-77 | the worker runs a job as the job model says |
| Drain.WorkerSettlesAndTags | core/manager.py:67-122 | the worker ends each job in one terminal status and tags its events with the job |
| Drain.DrainStep | core/manager.py:69-73 | draining one more job appends its run, its calls numbered after all earlier ones |
| Drain.DrainExtends | core/manager.py:69-73 | the same step, seen on the event queue, calls, files and directories |
| Drain.DrainOne | core/manager.py:72-73 | draining one job is running it |
| Drain.DrainSplit | core/manager.py:67-77 | draining `a + b` is draining `a` and then `b`, so every event of an earlier job precedes every event of a later one |
| Drain.DrainSettles | core/manager.py:67-77 | every drained job ends COMPLETED or FAILED, one status per job |
| Drain.DrainEventsTagged | core/manager.py:67-77 | every event sent while draining carries the identifier of a drained job |
| Manager.Jobs | core/manager.py:72 | the job records the worker reads from the queued tasks, defined by its body; stated through the drain lemmas, with JobsGrow for one more job |
| Manager.TaskManager.constructor | core/manager.py:24-36 | a stopped manager with an empty queue, sending to the given event queue, `max_attempts` defaulting to 3 |
| Manager.TaskManager.Start | core/manager.py:38-42 | afterwards the manager runs; a worker loop is started, counted by `workersStarted`, exactly when the manager was stopped, so starting a running manager starts no second loop |
| Manager.TaskManager.Stop | core/manager.py:44-52 | afterwards the manager is stopped with no worker, and no worker loop is started |
| Manager.TaskManager.AddTask | core/manager.py:54-57 | the job joins the back of the queue, then exactly one `enqueued` event is sent |
| Manager.TaskManager.Emit | core/manager.py:59-65 | exactly the note's event is appended to the event queue |
| Manager.TaskManager.Invoke | core/manager.py:129 | the answer is the executor's next one and the call is recorded |
| Manager.TaskManager.Write | core/manager.py:131 | the file's content is replaced |
| Manager.TaskManager.ExecuteStep1 | core/manager.py:124-132 | stage 1 sends, calls and writes exactly what the stage-1 model says, and gives its error |
| Manager.TaskManager.ExecuteStep2 | core/manager.py:134-147 | stage 2 sends, calls and writes exactly what the stage-2 model says, and gives its error |
| Manager.TaskManager.Attempt | core/manager.py:158-161 | one more attempt's event and call are appended, and its answer is the next one |
| Manager.TaskManager.RunAttemptLoop | core/manager.py:154-167 | the loop's outputs, pass and error are the loop model's, with one event and one call per attempt made |
| Manager.TaskManager.Finish | core/manager.py:169-177 | report 3 is the concatenated log; the status becomes COMPLETED if passed and FAILED otherwise, with the matching event |
| Manager.TaskManager.ExecuteStep3 | core/manager.py:149-177 | stage 3 sends, calls and writes exactly what the stage-3 model says; the status is set only when no attempt raised |
| Manager.TaskManager.Fail | core/manager.py:119-122 | the job becomes FAILED and one error event with the message is sent |
| Manager.TaskManager.RunLast | core/manager.py:117-122 | stage 3, with an error it raises failing the job |
| Manager.TaskManager.RunLater | core/manager.py:114-122 | stages 2 and 3, with an error stage 2 raises failing the job before stage 3 |
| Manager.TaskManager.RunStages | core/manager.py:111-122 | the three stages, with an error stage 1 raises failing the job before stage 2 |
| Manager.TaskManager.ProcessTask | core/manager.py:79-122 | the job is set RUNNING, then to its final status, sending, calling, writing and creating exactly what the job model says |
| Manager.TaskManager.RunTask | core/manager.py:73 | the job runs as the worker's runner says and ends COMPLETED or FAILED |
| Manager.TaskManager.RunNext | core/manager.py:72-73 | the oldest job leaves the queue and the drain goes one job further |
| Manager.TaskManager.TakeNext | core/manager.py:72-73 | the same, with every job taken so far ended COMPLETED or FAILED |
| Manager.TaskManager.WorkerLoop | core/manager.py:67-77 | a running manager drains the whole queue in order: the event queue, calls, files and directories are the drain's, and every job ends COMPLETED or FAILED, each in its own run's status; on a stopped one the queue, the queued jobs' status and history, events, calls, files and directories are unchanged |

## Left out

- Python's `strip` and `splitlines` also treat `\x1c`-`\x1f`, `\x85` and Unicode spaces and line separators as whitespace or breaks, and `upper` handles non-ASCII letters. The model uses the six ASCII whitespace characters, `\n` as the only line break and ASCII case.
- Text.SplitLines: `\r\n` and the other Python line boundaries are not modelled; only `\n` is a break.
- Paths are strings joined with `/`, so a root that ends in `/`, such as `/` itself, gives a doubled `/` (`//test_bugfix`) where `pathlib` gives one. `Path.resolve` is the parameter `resolve`, and identifiers are taken as strings rather than generated by `uuid4`.
- `mkdir` and `write_text` always succeed. A directory creation or a file write that raises is not modelled.
- `created_at` is carried but never set, as in the code.
- Stop does not model cancelling an in-flight job. The worker is modelled as a sequential drain of the queue that runs no job while stopped. The asyncio scheduling, the one-second polling timeout and the worker loop's exception logging are left out.
- WorkerLoop: it stops when the queue is empty, where the source goes on polling until stopped.
- `run_manager_in_thread` (core/manager.py:180-199) is asyncio and thread bridging, so it is not modelled.
- The exception `_emit_ui_event` would swallow is not modelled: appending to an unbounded queue cannot fail.
- Logging and the user interface are left out.
- Running the external command is left out: the executor is an oracle answering each call with an output or an error message. Its subprocess, the command template and byte decoding are left out.
- The per-call timeout is never applied by the executor client, so a timeout is not modelled apart from other executor errors.
- `CLI_COMMAND_TEMPLATE`, `TEST_DIR_NAME` and `ARTIFACTS_DIR_NAME` (core/cli_strings.py:11-15) are unused by the modelled code. The directory names appear as literals, as core/manager.py:94-95 writes them.
- The matcher and the renderer are parameters of the job model, so its lemmas hold for any of them. The manager fixes them to `CheckSentinelInOutput` and `Render`.
- Each prompt builder depends on its arguments alone: this holds because they are Dafny functions, and no separate lemma states it.
