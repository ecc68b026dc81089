/**
 * The records and enumerations of the pipeline: what a job is, the states it
 * goes through, and the events the worker reports.
 */
module Models {
  import opened Wrappers

  /** The kind of a job; informational only, the pipeline never looks at it. */
  datatype TaskType = Bug | FeatureTest
  {
    /** The enumeration's string value. */
    function Value(): string
    {
      match this
      case Bug => "Bug"
      case FeatureTest => "Feature Test"
    }
  }

  /** Looking a `TaskType` up by its value, as `TaskType(v)` does. */
  function TaskTypeFromValue(v: string): (r: Option<TaskType>)
    ensures r.Some? ==> r.value.Value() == v
  {
    if v == "Bug" then Some(Bug)
    else if v == "Feature Test" then Some(FeatureTest)
    else None
  }

  /** The two values are `"Bug"` and `"Feature Test"`, and each is found again from its string. */
  lemma TaskTypeValues(t: TaskType)
    ensures t == Bug || t == FeatureTest
    ensures TaskTypeFromValue(t.Value()) == Some(t)
    ensures Bug.Value() != FeatureTest.Value()
    ensures Bug.Value() == "Bug" && FeatureTest.Value() == "Feature Test"
  {
  }

  /** The lifecycle of a job: ENQUEUED, then RUNNING, then COMPLETED or FAILED. */
  datatype TaskStatus = Enqueued | Running | Completed | Failed
  {
    /** The enumeration's string value, which is its member name. */
    function Value(): string
    {
      match this
      case Enqueued => "ENQUEUED"
      case Running => "RUNNING"
      case Completed => "COMPLETED"
      case Failed => "FAILED"
    }

    predicate IsTerminal()
    {
      Completed? || Failed?
    }
  }

  /** Looking a `TaskStatus` up by its value. */
  function TaskStatusFromValue(v: string): (r: Option<TaskStatus>)
    ensures r.Some? ==> r.value.Value() == v
  {
    if v == "ENQUEUED" then Some(TaskStatus.Enqueued)
    else if v == "RUNNING" then Some(Running)
    else if v == "COMPLETED" then Some(TaskStatus.Completed)
    else if v == "FAILED" then Some(TaskStatus.Failed)
    else None
  }

  /** Exactly four statuses, each valued by its name; the four values are distinct, and
      each is found again from its string. */
  lemma TaskStatusValues(s: TaskStatus)
    ensures s in [TaskStatus.Enqueued, Running, TaskStatus.Completed, TaskStatus.Failed]
    ensures TaskStatusFromValue(s.Value()) == Some(s)
    ensures forall a: TaskStatus, b: TaskStatus :: a.Value() == b.Value() ==> a == b
    ensures TaskStatus.Enqueued.Value() == "ENQUEUED" && Running.Value() == "RUNNING"
    ensures TaskStatus.Completed.Value() == "COMPLETED" && TaskStatus.Failed.Value() == "FAILED"
  {
  }

  /**
   * A job. Identity, root, kind and description never change after creation;
   * the status is assigned in place by the worker. `history` records every
   * status assignment made after creation, so that contracts can speak of the
   * order of the assignments.
   */
  class TaskItem {
    /** The identifier, as the 32-digit hexadecimal string of the UUID. */
    const id: string
    const projectRoot: string
    const taskType: TaskType
    const description: string
    var status: TaskStatus
    const createdAt: Option<string>
    ghost var history: seq<TaskStatus>

    /** A new job with the record's defaults. */
    constructor (id: string, projectRoot: string, taskType: TaskType, description: string)
      ensures this.id == id && this.projectRoot == projectRoot
      ensures this.taskType == taskType && this.description == description
      ensures status == TaskStatus.Enqueued && createdAt == None && history == []
    {
      this.id := id;
      this.projectRoot := projectRoot;
      this.taskType := taskType;
      this.description := description;
      this.status := TaskStatus.Enqueued;
      this.createdAt := None;
      this.history := [];
    }
  }

  /** The categories of progress events, closed. */
  datatype EventKind = Enqueued | Status | Step | StepComplete | Warning | Attempt | Completed | Failed | Error
  {
    /** The string the worker tags the event with. */
    function Tag(): string
    {
      match this
      case Enqueued => "enqueued"
      case Status => "status"
      case Step => "step"
      case StepComplete => "step_complete"
      case Warning => "warning"
      case Attempt => "attempt"
      case Completed => "completed"
      case Failed => "failed"
      case Error => "error"
    }
  }

  /** The tags are pairwise distinct, so matching on the tag string and on the kind agree. */
  lemma EventKindTagsDistinct()
    ensures forall a: EventKind, b: EventKind :: a.Tag() == b.Tag() ==> a == b
  {
  }

  /** A progress event: a plain record of kind, job identifier and payload. */
  datatype UiEvent = UiEvent(kind: EventKind, taskId: string, payload: string)

  /** What a pipeline step reports; `sentinelFound` and `error` are optional. */
  datatype StepResult = StepResult(success: bool, output: string, sentinelFound: bool := false, error: Option<string> := None)

  /** A result built from the two required fields carries the defaults. */
  lemma StepResultDefaults(success: bool, output: string)
    ensures StepResult(success, output).sentinelFound == false
    ensures StepResult(success, output).error == None
  {
  }
}
