/**
 * The worker as a whole: the files a sequence of writes leaves behind, and what
 * draining a queue of jobs does, one job after another, each job's calls numbered
 * after the previous one's.
 */
module Drain {
  import opened Models
  import opened Client
  import opened Progress
  import opened Pipeline

  // ---- Files ----

  /** The files after these writes, in order; a later write to a path replaces an earlier one. */
  function ApplyWrites(files: map<string, string>, writes: seq<(string, string)>): (r: map<string, string>)
    ensures forall p | p in files :: p in r
    ensures forall i | 0 <= i < |writes| :: writes[i].0 in r
    decreases |writes|
  {
    if writes == [] then files
    else
      var n := |writes| - 1;
      ApplyWrites(files, writes[..n])[writes[n].0 := writes[n].1]
  }

  /** Writing `a` and then `b` is writing `a + b`. */
  lemma {:induction false} ApplyWritesAppend(files: map<string, string>, a: seq<(string, string)>,
                                             b: seq<(string, string)>)
    ensures ApplyWrites(files, a + b) == ApplyWrites(ApplyWrites(files, a), b)
    decreases |b|
  {
    if b == [] {
      assert a + b == a;
    } else {
      var n := |b| - 1;
      assert (a + b)[..|a| + n] == a + b[..n];
      ApplyWritesAppend(files, a, b[..n]);
    }
  }

  /** A path ends up holding what its last write put there. */
  lemma {:induction false} ApplyWritesLast(files: map<string, string>, writes: seq<(string, string)>, i: nat)
    requires i < |writes|
    requires forall j | i < j < |writes| :: writes[j].0 != writes[i].0
    ensures ApplyWrites(files, writes)[writes[i].0] == writes[i].1
    decreases |writes|
  {
    var n := |writes| - 1;
    if i < n {
      assert forall j | i < j < n :: writes[..n][j] == writes[j];
      ApplyWritesLast(files, writes[..n], i);
    }
  }

  /** A path no write names keeps its old content, and no other path appears. */
  lemma {:induction false} ApplyWritesElsewhere(files: map<string, string>, writes: seq<(string, string)>, p: string)
    requires forall j | 0 <= j < |writes| :: writes[j].0 != p
    ensures p in ApplyWrites(files, writes) <==> p in files
    ensures p in files ==> ApplyWrites(files, writes)[p] == files[p]
    decreases |writes|
  {
    if writes != [] {
      var n := |writes| - 1;
      assert forall j | 0 <= j < n :: writes[..n][j] == writes[j];
      ApplyWritesElsewhere(files, writes[..n], p);
    }
  }

  // ---- Draining the queue ----

  /** What the worker reads of a queued job. */
  datatype Job = Job(id: string, projectRoot: string, description: string)

  /** What the worker did while draining: events, calls, writes, the directories
      created, and the status each job ended in. */
  datatype Log = Log(events: seq<UiEvent>, calls: seq<Call>, writes: seq<(string, string)>,
                     dirs: set<string>, statuses: seq<TaskStatus>)
  {
    /** This log followed by `next`. */
    function Then(next: Log): Log
    {
      Log(events + next.events, calls + next.calls, writes + next.writes, dirs + next.dirs,
          statuses + next.statuses)
    }
  }

  /** What running one job, its first call numbered as given, leaves in the log. */
  type Runner = (nat, Job) -> Log

  /** What the worker's runner leaves for one job: the job run as a whole, its notes
      made into events for its identifier. `resolve` is what resolving a project root gives. */
  function JobLog(exec: nat -> Response, matcher: Matcher, render: Renderer, resolve: string -> string,
                  maxAttempts: int, k: nat, job: Job): Log
  {
    var root := resolve(job.projectRoot);
    var r := JobRun(exec, matcher, k, job.id, job.projectRoot, root, job.description, maxAttempts);
    Log(Events(render, job.id, r.notes), r.calls, r.writes, JobDirs(root, job.id), [r.status])
  }

  /** What `run` leaves for `job`, its first call numbered `k`. */
  function RunJob(run: Runner, k: nat, job: Job): Log
  {
    run(k, job)
  }

  /** The worker's runner. */
  function Worker(exec: nat -> Response, matcher: Matcher, render: Renderer, resolve: string -> string,
                  maxAttempts: int): Runner
  {
    (k: nat, job: Job) => JobLog(exec, matcher, render, resolve, maxAttempts, k, job)
  }

  /** The worker's runner runs a job as `JobLog` says. */
  lemma WorkerRuns(exec: nat -> Response, matcher: Matcher, render: Renderer, resolve: string -> string,
                   maxAttempts: int, k: nat, job: Job)
    ensures RunJob(Worker(exec, matcher, render, resolve, maxAttempts), k, job)
            == JobLog(exec, matcher, render, resolve, maxAttempts, k, job)
  {
  }

  /** A runner that ends each job in exactly one status, COMPLETED or FAILED. */
  ghost predicate Settles(run: Runner)
  {
    forall k: nat, job: Job :: |RunJob(run, k, job).statuses| == 1 && RunJob(run, k, job).statuses[0].IsTerminal()
  }

  /** A runner whose events for a job all carry that job's identifier. */
  ghost predicate TagsEvents(run: Runner)
  {
    forall k: nat, job: Job, i | 0 <= i < |RunJob(run, k, job).events| :: RunJob(run, k, job).events[i].taskId == job.id
  }

  /** The worker's runner settles every job and tags every event with its job. */
  lemma WorkerSettlesAndTags(exec: nat -> Response, matcher: Matcher, render: Renderer,
                              resolve: string -> string, maxAttempts: int)
    requires Tags(render)
    ensures Settles(Worker(exec, matcher, render, resolve, maxAttempts))
    ensures TagsEvents(Worker(exec, matcher, render, resolve, maxAttempts))
  {
    var run := Worker(exec, matcher, render, resolve, maxAttempts);
    forall k: nat, job: Job
      ensures |RunJob(run, k, job).statuses| == 1 && RunJob(run, k, job).statuses[0].IsTerminal()
    {
      JobEndsSettled(exec, matcher, k, job.id, job.projectRoot, resolve(job.projectRoot), job.description,
                     maxAttempts);
    }
  }

  /** Draining `jobs` in queue order, the first call numbered `k`: each job runs to its
      end before the next starts, and its calls are numbered after the previous job's. */
  function DrainLog(run: Runner, k: nat, jobs: seq<Job>): Log
  {
    DrainFirst(run, k, jobs, |jobs|)
  }

  /** Draining the first `n` of `jobs`. */
  function DrainFirst(run: Runner, k: nat, jobs: seq<Job>, n: nat): Log
    requires n <= |jobs|
  {
    if n == 0 then Log([], [], [], {}, [])
    else
      var before := DrainFirst(run, k, jobs, n - 1);
      before.Then(RunJob(run, k + |before.calls|, jobs[n - 1]))
  }

  /** Draining the first `n` jobs looks at those jobs only. */
  lemma {:induction false} DrainFirstPrefix(run: Runner, k: nat, jobs: seq<Job>, m: nat, n: nat)
    requires n <= m <= |jobs|
    ensures DrainFirst(run, k, jobs[..m], n) == DrainFirst(run, k, jobs, n)
  {
    if n > 0 {
      DrainFirstPrefix(run, k, jobs, m, n - 1);
      assert jobs[..m][n - 1] == jobs[n - 1];
    }
  }

  lemma DrainLast(run: Runner, k: nat, js: seq<Job>)
    requires js != []
    ensures var before := DrainLog(run, k, js[..|js| - 1]);
            DrainLog(run, k, js) == before.Then(RunJob(run, k + |before.calls|, js[|js| - 1]))
  {
    DrainFirstPrefix(run, k, js, |js| - 1, |js| - 1);
  }

  /** Draining one more job extends the log by that job's run, its calls numbered after
      all the earlier ones. */
  lemma DrainStep(run: Runner, k: nat, jobs: seq<Job>, job: Job)
    ensures var before := DrainLog(run, k, jobs);
            DrainLog(run, k, jobs + [job]) == before.Then(RunJob(run, k + |before.calls|, job))
  {
    var js := jobs + [job];
    assert js[..|js| - 1] == jobs && js[|js| - 1] == job;
    DrainLastIs(run, k, js, DrainLog(run, k, jobs), job);
  }


  /** The same step, as it shows on an event queue, a call list, a file map and a
      directory set that the drain extends. */
  lemma DrainExtends(run: Runner, k: nat, jobs: seq<Job>, job: Job, ui: seq<UiEvent>, c: seq<Call>,
                     f: map<string, string>, d: set<string>)
    ensures var before := DrainLog(run, k, jobs);
            var step := RunJob(run, k + |before.calls|, job);
            var after := DrainLog(run, k, jobs + [job]);
            && ui + before.events + step.events == ui + after.events
            && c + before.calls + step.calls == c + after.calls
            && ApplyWrites(ApplyWrites(f, before.writes), step.writes) == ApplyWrites(f, after.writes)
            && d + before.dirs + step.dirs == d + after.dirs
            && after.statuses == before.statuses + step.statuses
  {
    var before := DrainLog(run, k, jobs);
    var step := RunJob(run, k + |before.calls|, job);
    DrainStep(run, k, jobs, job);
    assert ui + before.events + step.events == ui + (before.events + step.events);
    assert c + before.calls + step.calls == c + (before.calls + step.calls);
    ApplyWritesAppend(f, before.writes, step.writes);
  }

  /** Draining one job is running it. */
  lemma DrainOne(run: Runner, k: nat, job: Job)
    ensures DrainLog(run, k, [job]) == RunJob(run, k, job)
  {
    var x := RunJob(run, k, job);
    DrainLast(run, k, [job]);
    assert [job][..0] == [];
    assert DrainLog(run, k, [job]) == Log([], [], [], {}, []).Then(x);
    assert {} + x.dirs == x.dirs;
  }

  /** Draining `a + b` is draining `a` and then `b`, `b`'s calls numbered after `a`'s:
      every event of a job queued earlier comes before every event of one queued later. */
  lemma {:induction false} DrainSplit(run: Runner, k: nat, a: seq<Job>, b: seq<Job>)
    ensures var first := DrainLog(run, k, a);
            DrainLog(run, k, a + b) == first.Then(DrainLog(run, k + |first.calls|, b))
    decreases |b|
  {
    var first := DrainLog(run, k, a);
    if b == [] {
      assert a + b == a;
    } else {
      var n := |b| - 1;
      var k' := k + |first.calls|;
      DrainSplit(run, k, a, b[..n]);
      var middle := DrainLog(run, k', b[..n]);
      DrainSplitStep(run, k, first, a, b, middle);
    }
  }

  /** The inductive step of `DrainSplit`, on its own. */
  lemma DrainSplitStep(run: Runner, k: nat, first: Log, a: seq<Job>, b: seq<Job>, middle: Log)
    requires b != [] && first == DrainLog(run, k, a)
    requires middle == DrainLog(run, k + |first.calls|, b[..|b| - 1])
    requires DrainLog(run, k, a + b[..|b| - 1]) == first.Then(middle)
    ensures DrainLog(run, k, a + b) == first.Then(DrainLog(run, k + |first.calls|, b))
  {
    var n := |b| - 1;
    var k' := k + |first.calls|;
    var ab := a + b;
    assert ab[..|ab| - 1] == a + b[..n] && ab[|ab| - 1] == b[n];
    var last := RunJob(run, k' + |middle.calls|, b[n]);
    assert k + |first.Then(middle).calls| == k' + |middle.calls|;
    DrainLastIs(run, k, ab, first.Then(middle), b[n]);
    DrainLastIs(run, k', b, middle, b[n]);
    ThenAssociates(first, middle, last);
  }

  lemma DrainLastIs(run: Runner, k: nat, js: seq<Job>, before: Log, job: Job)
    requires js != [] && before == DrainLog(run, k, js[..|js| - 1]) && job == js[|js| - 1]
    ensures DrainLog(run, k, js) == before.Then(RunJob(run, k + |before.calls|, job))
  {
    DrainLast(run, k, js);
  }

  lemma ThenAssociates(a: Log, b: Log, c: Log)
    ensures a.Then(b).Then(c) == a.Then(b.Then(c))
  {
    assert a.events + b.events + c.events == a.events + (b.events + c.events);
    assert a.calls + b.calls + c.calls == a.calls + (b.calls + c.calls);
    assert a.writes + b.writes + c.writes == a.writes + (b.writes + c.writes);
    assert a.dirs + b.dirs + c.dirs == a.dirs + (b.dirs + c.dirs);
    assert a.statuses + b.statuses + c.statuses == a.statuses + (b.statuses + c.statuses);
  }

  /** Under a settling runner, every drained job ends COMPLETED or FAILED, one status per job. */
  lemma {:induction false} DrainSettles(run: Runner, k: nat, jobs: seq<Job>)
    requires Settles(run)
    ensures var l := DrainLog(run, k, jobs);
            |l.statuses| == |jobs| && forall i | 0 <= i < |jobs| :: l.statuses[i].IsTerminal()
    decreases |jobs|
  {
    if jobs != [] {
      var n := |jobs| - 1;
      var before := DrainLog(run, k, jobs[..n]);
      DrainSettles(run, k, jobs[..n]);
      DrainLast(run, k, jobs);
      var last := RunJob(run, k + |before.calls|, jobs[n]);
      var l := DrainLog(run, k, jobs);
      assert l.statuses == before.statuses + last.statuses;
    }
  }

  /** Under a tagging runner, every event sent while draining carries the identifier of
      one of the drained jobs. */
  lemma {:induction false} DrainEventsTagged(run: Runner, k: nat, jobs: seq<Job>)
    requires TagsEvents(run)
    ensures var l := DrainLog(run, k, jobs);
            forall i | 0 <= i < |l.events| :: exists j | 0 <= j < |jobs| :: l.events[i].taskId == jobs[j].id
    decreases |jobs|
  {
    if jobs != [] {
      var n := |jobs| - 1;
      var before := DrainLog(run, k, jobs[..n]);
      DrainEventsTagged(run, k, jobs[..n]);
      DrainLast(run, k, jobs);
      assert var l := DrainLog(run, k, jobs[..n]);
        forall i | 0 <= i < |l.events| :: exists j | 0 <= j < |jobs[..n]| :: l.events[i].taskId == jobs[..n][j].id;
      var last := RunJob(run, k + |before.calls|, jobs[n]);
      var l := DrainLog(run, k, jobs);
      forall i | 0 <= i < |l.events|
        ensures exists j | 0 <= j < |jobs| :: l.events[i].taskId == jobs[j].id
      {
        if i < |before.events| {
          assert exists j | 0 <= j < |jobs[..n]| :: before.events[i].taskId == jobs[..n][j].id;
          var j :| 0 <= j < n && before.events[i].taskId == jobs[..n][j].id;
          assert l.events[i] == before.events[i];
          assert jobs[..n][j] == jobs[j];
        } else {
          assert l.events[i] == last.events[i - |before.events|];
          assert l.events[i].taskId == jobs[n].id;
        }
      }
    }
  }
}
