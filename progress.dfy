/**
 * The progress messages a job sends to the user interface. Each message is a
 * `Note` saying what happened; `Render` turns it into the event the worker
 * emits, with the kind tag and the payload text the worker writes, prefixed
 * with the job's short identifier.
 */
module Progress {
  import opened Text
  import opened Models

  /** The first eight hex digits of the identifier, used to tag payloads. */
  function Short(id: string): (r: string)
    ensures |r| == if |id| < 8 then |id| else 8
    ensures r == id[..|r|]
  {
    if |id| <= 8 then id else id[..8]
  }

  /** What a job reports, in the order the worker can report it. */
  datatype Note =
    | Queued
    | StatusRunning
    | Step1Started
    | Step1Done
    | Step2Started
    | TestsWritten
    | SentinelMissing
    | Step3Started
    | AttemptStarted(attempt: int, maxAttempts: int)
    | Passed
    | AttemptsExhausted
    | Raised(message: string)
  {
    /** The kind of event the note is sent as. */
    function Kind(): EventKind
    {
      match this
      case Queued => EventKind.Enqueued
      case StatusRunning => Status
      case Step1Started => Step
      case Step1Done => StepComplete
      case Step2Started => Step
      case TestsWritten => StepComplete
      case SentinelMissing => Warning
      case Step3Started => Step
      case AttemptStarted(_, _) => Attempt
      case Passed => EventKind.Completed
      case AttemptsExhausted => EventKind.Failed
      case Raised(_) => Error
    }

    /** The payload text after the `[short]` tag. */
    function Text(): string
    {
      match this
      case Queued => ""
      case StatusRunning => "status → RUNNING"
      case Step1Started => "step 1: Analyzing scope..."
      case Step1Done => "step 1: ✅ analysis complete"
      case Step2Started => "step 2: Generating failing tests..."
      case TestsWritten => "step 2: ✅ tests written"
      case SentinelMissing => "step 2: ⚠️ sentinel missing, continuing"
      case Step3Started => "step 3: Fixing and running tests..."
      case AttemptStarted(a, m) => "step 3: attempt " + IntToString(a) + "/" + IntToString(m)
      case Passed => "✅ done: RESULT: PASS"
      case AttemptsExhausted => "❌ failed: max attempts reached"
      case Raised(e) => "❌ failed: " + e
    }
  }

  /** The event the worker emits for a note of job `id`. */
  function Render(id: string, note: Note): (e: UiEvent)
    ensures e.kind == note.Kind() && e.taskId == id
  {
    var payload := if note.Queued? then "Task " + Short(id) + " enqueued"
                   else "[" + Short(id) + "] " + note.Text();
    UiEvent(note.Kind(), id, payload)
  }

  /** A way of making the event for a note of a job. */
  type Renderer = (string, Note) -> UiEvent

  /** A renderer whose events carry the identifier of the job they are about. */
  ghost predicate Tags(render: Renderer)
  {
    forall id: string, note: Note :: render(id, note).taskId == id
  }

  /** `Render` tags every event with its job. */
  lemma RenderTags()
    ensures Tags(Render)
  {
    var render: Renderer := Render;
    forall id: string, note: Note
      ensures render(id, note).taskId == id
    {
      assert render(id, note) == Render(id, note);
    }
  }

  /** The events for a sequence of notes of job `id`, one per note, in order. */
  function Events(render: Renderer, id: string, notes: seq<Note>): (r: seq<UiEvent>)
    ensures |r| == |notes|
  {
    seq(|notes|, i requires 0 <= i < |notes| => render(id, notes[i]))
  }

  /** Making events is compatible with appending notes. */
  lemma EventsAppend(render: Renderer, id: string, a: seq<Note>, b: seq<Note>)
    ensures Events(render, id, a + b) == Events(render, id, a) + Events(render, id, b)
  {
    var l, r := Events(render, id, a + b), Events(render, id, a) + Events(render, id, b);
    forall i | 0 <= i < |a + b|
      ensures l[i] == r[i]
    {
      if i < |a| {
        assert (a + b)[i] == a[i];
      } else {
        assert (a + b)[i] == b[i - |a|];
      }
    }
  }

  /** Events for `a` and then for `b`, sent after `before`, are the events for `a + b`. */
  lemma EventsExtend(render: Renderer, id: string, before: seq<UiEvent>, a: seq<Note>, b: seq<Note>)
    ensures before + Events(render, id, a) + Events(render, id, b) == before + Events(render, id, a + b)
  {
    EventsAppend(render, id, a, b);
    assert before + Events(render, id, a) + Events(render, id, b)
        == before + (Events(render, id, a) + Events(render, id, b));
  }

  /** Under `Render`, every event is of its note's kind and carries the job's identifier. */
  lemma RenderedKinds(id: string, notes: seq<Note>)
    ensures forall i | 0 <= i < |notes| ::
              Events(Render, id, notes)[i].kind == notes[i].Kind() && Events(Render, id, notes)[i].taskId == id
  {
    forall i | 0 <= i < |notes|
      ensures Events(Render, id, notes)[i].kind == notes[i].Kind() && Events(Render, id, notes)[i].taskId == id
    {
      var render: Renderer := Render;
      assert Events(Render, id, notes)[i] == render(id, notes[i]) == Render(id, notes[i]);
    }
  }

  /** The kind tags are the worker's: a status note is sent as `status`, a stage start as
      `step`, a stage end as `step_complete` or `warning`, an attempt as `attempt`, and the
      three ways a job ends as `completed`, `failed` and `error`. */
  lemma NoteTags(a: int, m: int, e: string)
    ensures Queued.Kind().Tag() == "enqueued" && StatusRunning.Kind().Tag() == "status"
    ensures Step1Started.Kind().Tag() == "step" && Step2Started.Kind().Tag() == "step"
    ensures Step3Started.Kind().Tag() == "step"
    ensures Step1Done.Kind().Tag() == "step_complete" && TestsWritten.Kind().Tag() == "step_complete"
    ensures SentinelMissing.Kind().Tag() == "warning" && AttemptStarted(a, m).Kind().Tag() == "attempt"
    ensures Passed.Kind().Tag() == "completed" && AttemptsExhausted.Kind().Tag() == "failed"
    ensures Raised(e).Kind().Tag() == "error"
  {
  }
}
