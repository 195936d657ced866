/** The task lifecycle of a served agent (`PydanticAgentExecutor`): the task is
    enqueued, then marked working with the agent's status message, then the
    agent runs and the task ends either with one artifact and `completed`, or
    with a final `failed` status carrying the error. The event queue is an
    append-only log; the agent run is an abstract outcome. */
module AgentExecution {
  import opened Wrappers
  import opened A2A

  /** What `agent.run(query)` returned: an object with an `output` attribute,
      or a bare value used as the text itself. */
  datatype RunResult = WithOutput(output: string) | Bare(text: string)

  /** An agent run either returns, or raises an exception whose `str` is `error`. */
  datatype RunOutcome = Ran(result: RunResult) | Raised(error: string)

  datatype RequestContext = RequestContext(currentTask: Option<Task>, message: Message)

  /** The identifiers the protocol library draws from `uuid4` during one `execute`. */
  datatype FreshIds = FreshIds(taskId: string, contextId: string, statusMessageId: string, artifactId: string, errorMessageId: string)

  const DefaultStatusMessage: string := "Processing request..."
  const DefaultArtifactName: string := "response"

  /** `result.output if hasattr(result, "output") else result`. */
  function ResponseText(r: RunResult): string {
    match r
    case WithOutput(o) => o
    case Bare(t) => t
  }

  /** `context.current_task or new_task(context.message)`. */
  function TaskFor(context: RequestContext, ids: FreshIds): Task {
    if context.currentTask.Some? then context.currentTask.value
    else NewTask(context.message, ids.taskId, ids.contextId)
  }

  /** The events one `execute` appends, in order: the task first, then
      updates of that task only, of which the last alone is terminal --
      `completed` after a run that returned (with exactly one artifact
      before it), `failed` after one that raised (with none). */
  function ExecutionEvents(context: RequestContext, statusMessage: string, artifactName: string,
                           outcome: RunOutcome, ids: FreshIds): (r: seq<Event>)
    ensures |r| == if outcome.Ran? then 4 else 3
    ensures r[0] == TaskEvent(TaskFor(context, ids))
    ensures forall i | 1 <= i < |r| ::
      !r[i].TaskEvent? && r[i].taskId == TaskFor(context, ids).id && r[i].contextId == TaskFor(context, ids).contextId
    ensures r[|r| - 1].StatusUpdate? && r[|r| - 1].final
    ensures r[|r| - 1].state == if outcome.Ran? then Completed else Failed
    ensures forall i | 0 <= i < |r| - 1 :: !IsTerminal(r[i])
    ensures forall i | 0 <= i < |r| :: r[i].ArtifactUpdate? <==> outcome.Ran? && i == 2
  {
    var task := TaskFor(context, ids);
    var working := StatusUpdate(task.id, task.contextId, Working,
                                Some(AgentText(statusMessage, task.contextId, task.id, ids.statusMessageId)), false);
    match outcome
    case Ran(result) =>
      [TaskEvent(task), working,
       ArtifactUpdate(task.id, task.contextId, Artifact(ids.artifactId, Some(artifactName), [TextPart(ResponseText(result))])),
       StatusUpdate(task.id, task.contextId, Completed, None, true)]
    case Raised(e) =>
      [TaskEvent(task), working,
       StatusUpdate(task.id, task.contextId, Failed,
                    Some(AgentText("Error: " + e, task.contextId, task.id, ids.errorMessageId)), true)]
  }

  predicate IsTerminal(e: Event) {
    e.StatusUpdate? && (e.state == Completed || e.state == Failed)
  }

  function TerminalCount(events: seq<Event>): nat {
    if events == [] then 0
    else (if IsTerminal(events[0]) then 1 else 0) + TerminalCount(events[1..])
  }

  function ArtifactCount(events: seq<Event>): nat {
    if events == [] then 0
    else (if events[0].ArtifactUpdate? then 1 else 0) + ArtifactCount(events[1..])
  }

  /** The event log an executor writes to. */
  class EventQueue {
    var events: seq<Event>

    constructor ()
      ensures events == []
    {
      events := [];
    }

    method EnqueueEvent(e: Event)
      modifies this
      ensures events == old(events) + [e]
    {
      events := events + [e];
    }
  }

  /** `TaskUpdater`: emits status and artifact events for one task. */
  class TaskUpdater {
    const queue: EventQueue
    const taskId: string
    const contextId: string

    constructor (queue: EventQueue, taskId: string, contextId: string)
      ensures this.queue == queue && this.taskId == taskId && this.contextId == contextId
    {
      this.queue := queue;
      this.taskId := taskId;
      this.contextId := contextId;
    }

    method UpdateStatus(state: TaskState, message: Option<Message>, final: bool)
      modifies queue
      ensures queue.events == old(queue.events) + [StatusUpdate(taskId, contextId, state, message, final)]
    {
      queue.EnqueueEvent(StatusUpdate(taskId, contextId, state, message, final));
    }

    method AddArtifact(parts: seq<Part>, artifactId: string, name: string)
      modifies queue
      ensures queue.events == old(queue.events) + [ArtifactUpdate(taskId, contextId, Artifact(artifactId, Some(name), parts))]
    {
      queue.EnqueueEvent(ArtifactUpdate(taskId, contextId, Artifact(artifactId, Some(name), parts)));
    }

    /** `complete()`: a final `completed` status without a message. */
    method Complete()
      modifies queue
      ensures queue.events == old(queue.events) + [StatusUpdate(taskId, contextId, Completed, None, true)]
    {
      UpdateStatus(Completed, None, true);
    }
  }

  class PydanticAgentExecutor {
    const statusMessage: string
    const artifactName: string

    constructor (statusMessage: string := DefaultStatusMessage, artifactName: string := DefaultArtifactName)
      ensures this.statusMessage == statusMessage && this.artifactName == artifactName
    {
      this.statusMessage := statusMessage;
      this.artifactName := artifactName;
    }

    /** `cancel(task_id)` does nothing: whatever event queue the caller
        holds keeps exactly the events it had. */
    method Cancel(taskId: string, ghost queue: EventQueue)
      ensures queue.events == old(queue.events)
    {
    }

    /** `execute(context, event_queue)`, with the agent run given as `run`. */
    method Execute(context: RequestContext, queue: EventQueue, run: string -> RunOutcome, ids: FreshIds)
      modifies queue
      ensures queue.events == old(queue.events)
        + ExecutionEvents(context, statusMessage, artifactName, run(UserInput(context.message)), ids)
    {
      var query := UserInput(context.message);
      var task := if context.currentTask.Some? then context.currentTask.value
                  else NewTask(context.message, ids.taskId, ids.contextId);
      queue.EnqueueEvent(TaskEvent(task));
      var updater := new TaskUpdater(queue, task.id, task.contextId);
      updater.UpdateStatus(Working, Some(AgentText(statusMessage, task.contextId, task.id, ids.statusMessageId)), false);
      var outcome := run(query);
      match outcome {
        case Ran(result) =>
          var responseText := ResponseText(result);
          updater.AddArtifact([TextPart(responseText)], ids.artifactId, artifactName);
          updater.Complete();
        case Raised(e) =>
          updater.UpdateStatus(Failed, Some(AgentText("Error: " + e, task.contextId, task.id, ids.errorMessageId)), true);
      }
    }
  }

  /** The task is the context's current one if it has one, otherwise a new
      task built from the context's message; it is enqueued first, and no
      other event enqueues a task. */
  lemma TaskEnqueuedFirst(context: RequestContext, statusMessage: string, artifactName: string,
                          outcome: RunOutcome, ids: FreshIds)
    ensures var events := ExecutionEvents(context, statusMessage, artifactName, outcome, ids);
      && events[0] == TaskEvent(TaskFor(context, ids))
      && (context.currentTask.Some? ==> events[0].task == context.currentTask.value)
      && (context.currentTask.None? ==> events[0].task.history == [context.message] && events[0].task.state == Submitted)
      && forall i | 1 <= i < |events| :: !events[i].TaskEvent?
  {
  }

  /** The first status update marks the task working and carries the
      executor's status message as an agent text message; it is not final. */
  lemma WorkingCarriesStatusMessage(context: RequestContext, statusMessage: string, artifactName: string,
                                    outcome: RunOutcome, ids: FreshIds)
    ensures var events := ExecutionEvents(context, statusMessage, artifactName, outcome, ids);
      && events[1].StatusUpdate? && events[1].state == Working && !events[1].final
      && events[1].message.Some? && events[1].message.value.role == AgentRole
      && events[1].message.value.parts == [TextPart(statusMessage)]
  {
  }

  /** Every `execute` ends in exactly one terminal state, as its last event:
      `completed` exactly when the run returned, `failed` (final) exactly when
      it raised. */
  lemma {:induction false} ExactlyOneTerminal(context: RequestContext, statusMessage: string, artifactName: string,
                                              outcome: RunOutcome, ids: FreshIds)
    ensures var events := ExecutionEvents(context, statusMessage, artifactName, outcome, ids);
      && TerminalCount(events) == 1
      && IsTerminal(events[|events| - 1]) && events[|events| - 1].final
      && (events[|events| - 1].state == Completed <==> outcome.Ran?)
      && (events[|events| - 1].state == Failed <==> outcome.Raised?)
  {
    var events := ExecutionEvents(context, statusMessage, artifactName, outcome, ids);
    assert events[1..][1..] == events[2..];
    assert TerminalCount(events) == TerminalCount(events[1..]) == TerminalCount(events[2..]);
    if outcome.Ran? {
      assert events[2..][1..] == events[3..];
      assert events[3..][1..] == [];
      assert TerminalCount(events[2..]) == TerminalCount(events[3..]) == 1;
    } else {
      assert events[2..][1..] == [];
      assert TerminalCount(events[2..]) == 1;
    }
  }

  /** On success exactly one artifact is added, named by the executor's
      artifact name, holding one text part equal to the run's output, and it is
      added before `completed`; no `failed` status is emitted. */
  lemma {:induction false} SuccessAddsOneArtifact(context: RequestContext, statusMessage: string, artifactName: string,
                                                  result: RunResult, ids: FreshIds)
    ensures var events := ExecutionEvents(context, statusMessage, artifactName, Ran(result), ids);
      && ArtifactCount(events) == 1
      && events[2].ArtifactUpdate?
      && events[2].artifact.name == Some(artifactName)
      && events[2].artifact.parts == [TextPart(ResponseText(result))]
      && events[3].StatusUpdate? && events[3].state == Completed
      && forall i | 0 <= i < |events| :: !(events[i].StatusUpdate? && events[i].state == Failed)
  {
    var events := ExecutionEvents(context, statusMessage, artifactName, Ran(result), ids);
    assert events[1..][1..] == events[2..];
    assert events[2..][1..] == events[3..];
    assert events[3..][1..] == [];
    assert ArtifactCount(events) == ArtifactCount(events[1..]) == ArtifactCount(events[2..]);
    assert ArtifactCount(events[2..]) == 1 + ArtifactCount(events[3..]) == 1;
  }

  /** When the run raises `e`, the last event is a final `failed` status whose
      text is "Error: " followed by `str(e)`, and no artifact is added. */
  lemma {:induction false} FailureEndsFailed(context: RequestContext, statusMessage: string, artifactName: string,
                                             error: string, ids: FreshIds)
    ensures var events := ExecutionEvents(context, statusMessage, artifactName, Raised(error), ids);
      && ArtifactCount(events) == 0
      && events[|events| - 1].StatusUpdate? && events[|events| - 1].state == Failed && events[|events| - 1].final
      && events[|events| - 1].message.Some?
      && events[|events| - 1].message.value.parts == [TextPart("Error: " + error)]
  {
    var events := ExecutionEvents(context, statusMessage, artifactName, Raised(error), ids);
    assert events[1..][1..] == events[2..];
    assert events[2..][1..] == [];
    assert ArtifactCount(events) == ArtifactCount(events[1..]) == ArtifactCount(events[2..]) == 0;
  }
}
