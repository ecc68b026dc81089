/**
 * The task manager: a queue of jobs, one background worker that takes them in
 * order and runs each through the three stages, and the event queue the
 * interface reads. The coding assistant's answers, in the order the calls are
 * made, and path resolution are fixed at construction; the files and
 * directories the worker creates are fields.
 */
module Manager {
  import opened Wrappers
  import opened Text
  import opened CliStrings
  import opened Models
  import opened Client
  import opened Progress
  import opened Pipeline
  import opened Drain

  /** What the worker reads of each queued job. */
  function Jobs(q: seq<TaskItem>): (r: seq<Job>)
    ensures |r| == |q|
  {
    seq(|q|, i requires 0 <= i < |q| => Job(q[i].id, q[i].projectRoot, q[i].description))
  }

  /** Before the first job is taken the drain has done nothing. */
  lemma NothingDrained(run: Runner, k: nat, q: seq<TaskItem>)
    ensures DrainLog(run, k, Jobs(q[..0])) == Log([], [], [], {}, [])
  {
    assert Jobs(q[..0]) == [];
  }

  /** The jobs of a longer prefix of the queue. */
  lemma JobsGrow(q: seq<TaskItem>, i: nat)
    requires i < |q|
    ensures Jobs(q[..i + 1]) == Jobs(q[..i]) + [Job(q[i].id, q[i].projectRoot, q[i].description)]
  {
  }

  class TaskManager {
    /** The most attempts stage 3 makes. */
    const maxAttempts: int
    /** The answer to the `n`-th call the manager makes, counting from 0. */
    const executor: nat -> Response
    /** What resolving a project root gives. */
    const resolve: string -> string
    /** How an output is checked for a sentinel. */
    const matcher: Matcher
    /** How the event for a note is made. */
    const render: Renderer
    /** What running one job leaves in the log; `Runs` ties it to the job's run. */
    ghost const runner: Runner

    /** The events sent to the interface, oldest first. */
    var uiQueue: seq<UiEvent>
    /** The jobs waiting for the worker, oldest first. */
    var taskQueue: seq<TaskItem>
    var running: bool
    /** Whether a worker loop has been started and not cancelled. */
    var worker: bool
    /** How many worker loops have been started over the manager's life. */
    ghost var workersStarted: nat
    /** The calls made so far, in order. */
    var calls: seq<Call>
    var files: map<string, string>
    var dirs: set<string>

    /** The runner is the worker's: each job is run as `JobLog` says. */
    ghost predicate Runs()
    {
      forall k: nat, job: Job {:trigger JobLog(executor, matcher, render, resolve, maxAttempts, k, job)} ::
        RunJob(runner, k, job) == JobLog(executor, matcher, render, resolve, maxAttempts, k, job)
    }

    /** At most one worker, and it exists exactly while the manager runs. */
    predicate Valid()
      reads this
    {
      worker == running
    }

    /** A stopped manager with no queued jobs, sending to an interface queue that
        already holds `ui`. */
    constructor (ui: seq<UiEvent>, executor: nat -> Response, resolve: string -> string,
                 files: map<string, string>, dirs: set<string>, maxAttempts: int := 3)
      ensures Valid() && Runs()
      ensures this.maxAttempts == maxAttempts && this.executor == executor && this.resolve == resolve
      ensures matcher == CheckSentinelInOutput && render == Render
      ensures uiQueue == ui && taskQueue == [] && !running && calls == []
      ensures this.files == files && this.dirs == dirs
      ensures workersStarted == 0
    {
      this.maxAttempts := maxAttempts;
      this.executor := executor;
      this.resolve := resolve;
      this.matcher := CheckSentinelInOutput;
      this.render := Render;
      this.runner := Worker(executor, CheckSentinelInOutput, Render, resolve, maxAttempts);
      uiQueue := ui;
      taskQueue := [];
      running := false;
      worker := false;
      workersStarted := 0;
      calls := [];
      this.files := files;
      this.dirs := dirs;
      new;
      forall k: nat, job: Job
        ensures RunJob(runner, k, job) == JobLog(executor, matcher, render, resolve, maxAttempts, k, job)
      {
        WorkerRuns(executor, matcher, render, resolve, maxAttempts, k, job);
      }
    }

    /** Start the worker; a new worker loop is started only when the manager was
        stopped, so a running manager never gets a second one. */
    method Start()
      requires Valid()
      modifies this`running, this`worker, this`workersStarted
      ensures Valid() && running
      ensures old(running) ==> worker == old(worker)
      ensures workersStarted == old(workersStarted) + (if old(running) then 0 else 1)
    {
      if !running {
        running := true;
        worker := true;
        workersStarted := workersStarted + 1;
      }
    }

    /** Stop the worker and cancel it; no worker loop is started. */
    method Stop()
      modifies this`running, this`worker
      ensures Valid() && !running
      ensures workersStarted == old(workersStarted)
    {
      running := false;
      worker := false;
    }

    /** Queue a job, then announce it. */
    method AddTask(task: TaskItem)
      modifies this`taskQueue, this`uiQueue
      ensures taskQueue == old(taskQueue) + [task]
      ensures uiQueue == old(uiQueue) + [render(task.id, Queued)]
    {
      taskQueue := taskQueue + [task];
      Emit(task.id, Queued);
      assert Events(render, task.id, [Queued])[0] == render(task.id, Queued);
    }

    /** Send the event for a note of job `id`. */
    method Emit(id: string, note: Note)
      modifies this`uiQueue
      ensures uiQueue == old(uiQueue) + Events(render, id, [note])
    {
      uiQueue := uiQueue + [render(id, note)];
      assert [render(id, note)] == Events(render, id, [note]);
    }

    /** Make a call in directory `workdir`: the answer is the next one the executor holds. */
    method Invoke(workdir: string, request: Request) returns (response: Response)
      modifies this`calls
      ensures response == executor(|old(calls)|)
      ensures calls == old(calls) + [Call(workdir, request)]
    {
      response := executor(|calls|);
      calls := calls + [Call(workdir, request)];
    }

    /** Replace the content of a file. */
    method Write(path: string, content: string)
      modifies this`files
      ensures files == old(files)[path := content]
    {
      files := files[path := content];
    }

    /** Stage 1. */
    method ExecuteStep1(task: TaskItem, root: string) returns (error: Option<string>)
      modifies this`uiQueue, this`calls, this`files
      ensures var s := Step1(executor, |old(calls)|, task.id, task.projectRoot, root, task.description);
              && error == s.error
              && uiQueue == old(uiQueue) + Events(render, task.id, s.notes)
              && calls == old(calls) + s.calls
              && files == ApplyWrites(old(files), s.writes)
    {
      Emit(task.id, Step1Started);
      var response := Invoke(root, Analyze(task.projectRoot, task.description));
      match response
      case Err(e) =>
        error := Some(e);
      case Ok(output) =>
        Write(StepFile(root, task.id, 1), output);
        Emit(task.id, Step1Done);
        error := None;
    }

    /** Stage 2. */
    method ExecuteStep2(task: TaskItem, root: string) returns (error: Option<string>)
      modifies this`uiQueue, this`calls, this`files
      ensures var s := Step2(executor, matcher, |old(calls)|, task.id, root);
              && error == s.error
              && uiQueue == old(uiQueue) + Events(render, task.id, s.notes)
              && calls == old(calls) + s.calls
              && files == ApplyWrites(old(files), s.writes)
    {
      Emit(task.id, Step2Started);
      var response := Invoke(root, WriteTests(StepFile(root, task.id, 1), TestsDir(root)));
      var checked := RunWithSentinel(response, matcher, STEP2_SENTINEL);
      if checked.Err? {
        error := Some(checked.error);
      } else {
        var (output, found) := checked.value;
        Write(StepFile(root, task.id, 2), output);
        if found {
          Emit(task.id, TestsWritten);
        } else {
          Emit(task.id, SentinelMissing);
        }
        error := None;
        assert ApplyWrites(old(files), [(StepFile(root, task.id, 2), output)]) == files;
      }
    }

    /** Announce attempt `n + 1` of stage 3 and make its call, after `n` attempts whose
        events follow `ui` and whose calls follow `before`. */
    method Attempt(id: string, root: string, n: nat, ghost before: seq<Call>, ghost ui: seq<UiEvent>)
      returns (response: Response)
      requires calls == before + AttemptCalls(root, id, n, maxAttempts)
      requires uiQueue == ui + Events(render, id, AttemptNotes(n, maxAttempts))
      modifies this`uiQueue, this`calls
      ensures response == executor(|old(calls)|)
      ensures calls == before + AttemptCalls(root, id, n + 1, maxAttempts)
      ensures uiQueue == ui + Events(render, id, AttemptNotes(n + 1, maxAttempts))
    {
      AttemptsGrow(root, id, n, maxAttempts);
      AttemptEventsGrow(render, id, n, maxAttempts);
      Emit(id, AttemptStarted(n + 1, maxAttempts));
      EventsExtend(render, id, ui, AttemptNotes(n, maxAttempts), [AttemptStarted(n + 1, maxAttempts)]);
      response := Invoke(root, Fix(TestsDir(root), StepFile(root, id, 1), StepFile(root, id, 2),
                                   n + 1, maxAttempts));
      AppendAssociates(before, AttemptCalls(root, id, n, maxAttempts), [AttemptCall(root, id, n + 1, maxAttempts)]);
    }

    /** The stage-3 loop: up to `maxAttempts` attempts, stopping at the first PASS or at
        the first attempt that raises. It gives back the output of every attempt that
        returned, whether the last one passed, and the error if one raised. */
    method RunAttemptLoop(id: string, root: string) returns (outputs: seq<string>, passed: bool, error: Option<string>)
      modifies this`uiQueue, this`calls
      ensures var a := RunAttempts(executor, matcher, |old(calls)|, 1, maxAttempts);
              && outputs == a.outputs && passed == a.passed && error == a.error
              && calls == old(calls) + AttemptCalls(root, id, a.Made(), maxAttempts)
              && uiQueue == old(uiQueue) + Events(render, id, AttemptNotes(a.Made(), maxAttempts))
    {
      ghost var k := |calls|;
      outputs := [];
      passed := false;
      var attempt := 1;
      while attempt <= maxAttempts
        invariant 1 <= attempt && |outputs| == attempt - 1 && !passed
        invariant |outputs| <= Count(1, maxAttempts)
        invariant calls == old(calls) + AttemptCalls(root, id, |outputs|, maxAttempts)
        invariant uiQueue == old(uiQueue) + Events(render, id, AttemptNotes(|outputs|, maxAttempts))
        invariant forall j | 0 <= j < |outputs| ::
                    executor(k + j) == Ok(outputs[j]) && !matcher(outputs[j], PASS_SENTINEL)
        decreases maxAttempts - attempt
      {
        var response := Attempt(id, root, attempt - 1, old(calls), old(uiQueue));
        var checked := RunWithSentinel(response, matcher, PASS_SENTINEL);
        if checked.Err? {
          error := Some(checked.error);
          AttemptsFromAnswers(executor, matcher, k, 1, maxAttempts, outputs, passed, error);
          return;
        }
        var (output, found) := checked.value;
        outputs := outputs + [output];
        if found {
          passed := true;
          error := None;
          AttemptsFromAnswers(executor, matcher, k, 1, maxAttempts, outputs, passed, error);
          return;
        }
        attempt := attempt + 1;
      }
      error := None;
      AttemptsFromAnswers(executor, matcher, k, 1, maxAttempts, outputs, passed, error);
    }

    /** The end of stage 3 once no attempt raised: the log of every attempt written to
        report 3, then the job's final status set and announced. */
    method Finish(task: TaskItem, root: string, outputs: seq<string>, passed: bool)
      modifies this`uiQueue, this`files, task`status, task`history
      ensures files == ApplyWrites(old(files), [(StepFile(root, task.id, 3), Concat(Blocks(outputs)))])
      ensures task.status == (if passed then TaskStatus.Completed else TaskStatus.Failed)
      ensures task.history == old(task.history) + [task.status]
      ensures uiQueue == old(uiQueue) + Events(render, task.id, [if passed then Passed else AttemptsExhausted])
    {
      Write(StepFile(root, task.id, 3), Concat(Blocks(outputs)));
      if passed {
        task.status := TaskStatus.Completed;
      } else {
        task.status := TaskStatus.Failed;
      }
      task.history := task.history + [task.status];
      Emit(task.id, if passed then Passed else AttemptsExhausted);
      assert ApplyWrites(old(files), [(StepFile(root, task.id, 3), Concat(Blocks(outputs)))]) == files;
    }

    /** Stage 3: the attempt loop; then, unless an attempt raised, the log of every
        attempt written to report 3 and the job's final status set. */
    method ExecuteStep3(task: TaskItem, root: string) returns (error: Option<string>)
      modifies this`uiQueue, this`calls, this`files, task`status, task`history
      ensures var k := |old(calls)|;
              var s := Step3(executor, matcher, k, task.id, root, maxAttempts);
              && error == s.error
              && uiQueue == old(uiQueue) + Events(render, task.id, s.notes)
              && calls == old(calls) + s.calls
              && files == ApplyWrites(old(files), s.writes)
      ensures var a := RunAttempts(executor, matcher, |old(calls)|, 1, maxAttempts);
              && (error.None? ==> task.status == (if a.passed then TaskStatus.Completed else TaskStatus.Failed)
                                  && task.history == old(task.history) + [task.status])
              && (error.Some? ==> task.status == old(task.status) && task.history == old(task.history))
    {
      ghost var a := RunAttempts(executor, matcher, |calls|, 1, maxAttempts);
      Emit(task.id, Step3Started);
      var outputs, passed;
      outputs, passed, error := RunAttemptLoop(task.id, root);
      EventsExtend(render, task.id, old(uiQueue), [Step3Started], AttemptNotes(a.Made(), maxAttempts));
      if error.Some? {
        return;
      }
      Finish(task, root, outputs, passed);
      EventsExtend(render, task.id, old(uiQueue), [Step3Started] + AttemptNotes(a.Made(), maxAttempts),
                   [if passed then Passed else AttemptsExhausted]);
      assert ApplyWrites(old(files), [(StepFile(root, task.id, 3), Concat(Blocks(outputs)))]) == files;
    }

    /** Mark the job FAILED and announce the error that ended it. */
    method Fail(task: TaskItem, message: string)
      modifies this`uiQueue, task`status, task`history
      ensures task.status == TaskStatus.Failed && task.history == old(task.history) + [TaskStatus.Failed]
      ensures uiQueue == old(uiQueue) + Events(render, task.id, [Raised(message)])
    {
      task.status := TaskStatus.Failed;
      task.history := task.history + [TaskStatus.Failed];
      Emit(task.id, Raised(message));
    }

    /** Stage 3 as the last stage of a job: an error it raises fails the job. */
    method RunLast(task: TaskItem, root: string)
      modifies this`uiQueue, this`calls, this`files, task`status, task`history
      ensures var k := |old(calls)|;
              var r := Last(Step3(executor, matcher, k, task.id, root, maxAttempts),
                            RunAttempts(executor, matcher, k, 1, maxAttempts).passed);
              && task.status == r.status && task.history == old(task.history) + [r.status]
              && uiQueue == old(uiQueue) + Events(render, task.id, r.notes)
              && calls == old(calls) + r.calls
              && files == ApplyWrites(old(files), r.writes)
    {
      ghost var s := Step3(executor, matcher, |calls|, task.id, root, maxAttempts);
      var error := ExecuteStep3(task, root);
      if error.Some? {
        Fail(task, error.value);
        EventsExtend(render, task.id, old(uiQueue), s.notes, [Raised(error.value)]);
      }
    }

    /** Stages 2 and 3: an error stage 2 raises fails the job before stage 3. */
    method RunLater(task: TaskItem, root: string)
      modifies this`uiQueue, this`calls, this`files, task`status, task`history
      ensures var r := LaterStages(executor, matcher, |old(calls)|, task.id, root, maxAttempts);
              && task.status == r.status && task.history == old(task.history) + [r.status]
              && uiQueue == old(uiQueue) + Events(render, task.id, r.notes)
              && calls == old(calls) + r.calls
              && files == ApplyWrites(old(files), r.writes)
    {
      ghost var s := Step2(executor, matcher, |calls|, task.id, root);
      var error := ExecuteStep2(task, root);
      if error.Some? {
        Fail(task, error.value);
        EventsExtend(render, task.id, old(uiQueue), s.notes, [Raised(error.value)]);
      } else {
        ghost var k3 := |calls|;
        ghost var rest := Last(Step3(executor, matcher, k3, task.id, root, maxAttempts),
                               RunAttempts(executor, matcher, k3, 1, maxAttempts).passed);
        RunLast(task, root);
        EventsExtend(render, task.id, old(uiQueue), s.notes, rest.notes);
        AppendAssociates(old(calls), s.calls, rest.calls);
        ApplyWritesAppend(old(files), s.writes, rest.writes);
      }
    }

    /** The three stages: an error stage 1 raises fails the job before stage 2. */
    method RunStages(task: TaskItem, root: string)
      modifies this`uiQueue, this`calls, this`files, task`status, task`history
      ensures var r := Stages(executor, matcher, |old(calls)|, task.id, task.projectRoot, root, task.description,
                              maxAttempts);
              && task.status == r.status && task.history == old(task.history) + [r.status]
              && uiQueue == old(uiQueue) + Events(render, task.id, r.notes)
              && calls == old(calls) + r.calls
              && files == ApplyWrites(old(files), r.writes)
    {
      ghost var s := Step1(executor, |calls|, task.id, task.projectRoot, root, task.description);
      var error := ExecuteStep1(task, root);
      if error.Some? {
        Fail(task, error.value);
        EventsExtend(render, task.id, old(uiQueue), s.notes, [Raised(error.value)]);
      } else {
        ghost var rest := LaterStages(executor, matcher, |calls|, task.id, root, maxAttempts);
        RunLater(task, root);
        EventsExtend(render, task.id, old(uiQueue), s.notes, rest.notes);
        AppendAssociates(old(calls), s.calls, rest.calls);
        ApplyWritesAppend(old(files), s.writes, rest.writes);
      }
    }

    /** One job through the three stages: its status set to RUNNING and announced, its
        directories created, then each stage in turn; the first error raised ends it as
        FAILED, and otherwise stage 3 decides between COMPLETED and FAILED. */
    method ProcessTask(task: TaskItem)
      modifies this`uiQueue, this`calls, this`files, this`dirs, task`status, task`history
      ensures var root := resolve(task.projectRoot);
              var r := JobRun(executor, matcher, |old(calls)|, task.id, task.projectRoot, root, task.description,
                              maxAttempts);
              && task.status == r.status
              && task.history == old(task.history) + [TaskStatus.Running, r.status]
              && uiQueue == old(uiQueue) + Events(render, task.id, r.notes)
              && calls == old(calls) + r.calls
              && files == ApplyWrites(old(files), r.writes)
              && dirs == old(dirs) + JobDirs(root, task.id)
    {
      task.status := TaskStatus.Running;
      task.history := task.history + [TaskStatus.Running];
      Emit(task.id, StatusRunning);
      var root := resolve(task.projectRoot);
      dirs := dirs + JobDirs(root, task.id);
      ghost var s := Stages(executor, matcher, |calls|, task.id, task.projectRoot, root, task.description, maxAttempts);
      JobRunStages(executor, matcher, |calls|, task.id, task.projectRoot, root, task.description, maxAttempts);
      RunStages(task, root);
      EventsExtend(render, task.id, old(uiQueue), [StatusRunning], s.notes);
      AppendAssociates(old(task.history), [TaskStatus.Running], [s.status]);
    }

    /** A job as the worker runs it: what `runner` gives for it, ending COMPLETED or FAILED. */
    method RunTask(task: TaskItem)
      requires Runs()
      modifies this`uiQueue, this`calls, this`files, this`dirs, task`status, task`history
      ensures var l := RunJob(runner, |old(calls)|, Job(task.id, task.projectRoot, task.description));
              && uiQueue == old(uiQueue) + l.events
              && calls == old(calls) + l.calls
              && files == ApplyWrites(old(files), l.writes)
              && dirs == old(dirs) + l.dirs
              && l.statuses == [task.status] && task.status.IsTerminal()
    {
      ghost var l := JobLog(executor, matcher, render, resolve, maxAttempts, |calls|,
                            Job(task.id, task.projectRoot, task.description));
      JobEndsSettled(executor, matcher, |calls|, task.id, task.projectRoot, resolve(task.projectRoot),
                     task.description, maxAttempts);
      ProcessTask(task);
    }

    /** The state after the worker has run the first `done` jobs of `q`, starting from
        events `ui`, calls `c`, files `f` and directories `d`. */
    ghost predicate Drained(q: seq<TaskItem>, done: nat, ui: seq<UiEvent>, c: seq<Call>, f: map<string, string>,
                            d: set<string>)
      requires done <= |q|
      reads this
    {
      var l := DrainLog(runner, |c|, Jobs(q[..done]));
      && uiQueue == ui + l.events
      && calls == c + l.calls
      && files == ApplyWrites(f, l.writes)
      && dirs == d + l.dirs
    }

    /** The statuses the first `done` jobs of `q` ended in, by the worker's runner. */
    ghost function DrainStatuses(q: seq<TaskItem>, done: nat, k: nat): seq<TaskStatus>
      requires done <= |q|
    {
      DrainLog(runner, k, Jobs(q[..done])).statuses
    }

    /** The first `done` jobs of `q` ended COMPLETED or FAILED, and when none is queued
        twice, each in the status `statuses` gives it. */
    ghost predicate Ended(q: seq<TaskItem>, done: nat, statuses: seq<TaskStatus>)
      requires done <= |q|
      reads q
    {
      && (forall i | 0 <= i < done :: q[i].status.IsTerminal())
      && ((forall i, j | 0 <= i < j < done :: q[i] != q[j]) ==>
            |statuses| == done && forall i | 0 <= i < done :: q[i].status == statuses[i])
    }

    /** Take the next queued job and run it: the drain goes one job further. */
    method RunNext(ghost q: seq<TaskItem>, ghost done: nat, ghost ui: seq<UiEvent>, ghost c: seq<Call>,
                   ghost f: map<string, string>, ghost d: set<string>)
      requires Runs()
      requires done < |q| && taskQueue == q[done..]
      requires Drained(q, done, ui, c, f, d)
      modifies this`taskQueue, this`uiQueue, this`calls, this`files, this`dirs, q[done]
      ensures taskQueue == q[done + 1..]
      ensures Drained(q, done + 1, ui, c, f, d)
      ensures q[done].status.IsTerminal()
      ensures DrainStatuses(q, done + 1, |c|) == DrainStatuses(q, done, |c|) + [q[done].status]
    {
      ghost var before := DrainLog(runner, |c|, Jobs(q[..done]));
      var task := taskQueue[0];
      assert task == q[done];
      taskQueue := taskQueue[1..];
      ghost var job := Job(task.id, task.projectRoot, task.description);
      ghost var k := |c| + |before.calls|;
      assert |calls| == k;
      RunTask(task);
      JobsGrow(q, done);
      DrainExtends(runner, |c|, Jobs(q[..done]), job, ui, c, f, d);
    }

    /** Take the next queued job and run it: it ends COMPLETED or FAILED, and no other
        job's status changes. */
    method TakeNext(ghost q: seq<TaskItem>, ghost done: nat, ghost ui: seq<UiEvent>, ghost c: seq<Call>,
                    ghost f: map<string, string>, ghost d: set<string>)
      requires Runs()
      requires done < |q| && taskQueue == q[done..]
      requires Drained(q, done, ui, c, f, d) && Ended(q, done, DrainStatuses(q, done, |c|))
      modifies this`taskQueue, this`uiQueue, this`calls, this`files, this`dirs, q[done]
      ensures taskQueue == q[done + 1..]
      ensures Drained(q, done + 1, ui, c, f, d) && Ended(q, done + 1, DrainStatuses(q, done + 1, |c|))
    {
      ghost var before := DrainStatuses(q, done, |c|);
      RunNext(q, done, ui, c, f, d);
      ghost var after := DrainStatuses(q, done + 1, |c|);
      forall i | 0 <= i < done + 1
        ensures q[i].status.IsTerminal()
      {
        if i < done && q[i] != q[done] {
          assert q[i].status == old(q[i].status);
        }
      }
      if forall i, j | 0 <= i < j < done + 1 :: q[i] != q[j] {
        forall i | 0 <= i < done
          ensures q[i].status == after[i]
        {
          assert q[i] != q[done];
          assert q[i].status == old(q[i].status);
        }
      }
    }

    /** The worker loop: while the manager runs, the oldest queued job is taken and run
        to its end before the next is taken, so the queue drains in order. A stopped
        manager takes nothing. */
    method WorkerLoop()
      requires Runs()
      modifies this`taskQueue, this`uiQueue, this`calls, this`files, this`dirs, taskQueue
      ensures !running ==> taskQueue == old(taskQueue) && uiQueue == old(uiQueue) && calls == old(calls)
                           && files == old(files) && dirs == old(dirs)
      ensures !running ==> forall t | t in old(taskQueue) :: t.status == old(t.status) && t.history == old(t.history)
      ensures running ==> var q := old(taskQueue);
                          && taskQueue == []
                          && Drained(q, |q|, old(uiQueue), old(calls), old(files), old(dirs))
                          && Ended(q, |q|, DrainStatuses(q, |q|, |old(calls)|))
    {
      if !running {
        return;
      }
      ghost var q := taskQueue;
      ghost var done := 0;
      NothingDrained(runner, |calls|, q);
      while running && taskQueue != []
        invariant done <= |q| && taskQueue == q[done..]
        invariant Drained(q, done, old(uiQueue), old(calls), old(files), old(dirs))
        invariant Ended(q, done, DrainStatuses(q, done, |old(calls)|))
        decreases |taskQueue|
      {
        TakeNext(q, done, old(uiQueue), old(calls), old(files), old(dirs));
        done := done + 1;
      }
      assert |q[done..]| == 0 && done == |q|;
    }
  }
}
