/** The Agent2Agent (A2A) protocol values that the client and the executor
    exchange: messages made of parts, tasks with a lifecycle state and
    artifacts, the events a served agent emits, and the reply to a
    `message/send` request. Identifiers that the protocol library draws from
    `uuid4` are passed in as parameters. */
module A2A {
  import opened Wrappers
  import opened Text

  datatype Role = User | AgentRole

  /** A message part; only a text part has a `text` key once dumped to JSON. */
  datatype Part = TextPart(text: string) | FilePart(uri: string) | DataPart(data: map<string, string>)

  datatype Message = Message(
    role: Role,
    parts: seq<Part>,
    messageId: string,
    taskId: Option<string>,
    contextId: Option<string>)

  datatype Artifact = Artifact(artifactId: string, name: Option<string>, parts: seq<Part>)

  datatype TaskState = Submitted | Working | Completed | Failed

  /** A task; `artifacts` is `None` while no artifact was ever attached, so a
      JSON dump that leaves out `None` has no "artifacts" key then. */
  datatype Task = Task(
    id: string,
    contextId: string,
    state: TaskState,
    statusMessage: Option<Message>,
    history: seq<Message>,
    artifacts: Option<seq<Artifact>>)

  /** What an executor puts on its event queue. */
  datatype Event =
    | TaskEvent(task: Task)
    | StatusUpdate(taskId: string, contextId: string, state: TaskState, message: Option<Message>, final: bool)
    | ArtifactUpdate(taskId: string, contextId: string, artifact: Artifact)

  /** The result of a successful `message/send`: a task, or a direct message. */
  datatype SendResult = TaskResult(task: Task) | MessageResult(message: Message)

  /** A JSON-RPC reply: success carries a result, an error reply does not. */
  datatype SendResponse =
    | SuccessResponse(requestId: string, result: SendResult)
    | ErrorResponse(requestId: string, code: int, errorMessage: string)

  /** The texts of the text parts, in order. */
  function TextsOf(parts: seq<Part>): (texts: seq<string>)
    ensures |texts| <= |parts|
    ensures forall t | t in texts :: TextPart(t) in parts
    ensures (forall i | 0 <= i < |parts| :: parts[i].TextPart?) ==>
      |texts| == |parts| && forall i | 0 <= i < |parts| :: texts[i] == parts[i].text
    ensures (forall i | 0 <= i < |parts| :: !parts[i].TextPart?) ==> texts == []
  {
    if parts == [] then []
    else if parts[0].TextPart? then [parts[0].text] + TextsOf(parts[1..])
    else TextsOf(parts[1..])
  }

  /** The texts of two part lists in a row are the texts of the first list
      followed by those of the second: with the one-part cases of `TextsOf`'s
      contract this says the result is the text parts' texts, in order. */
  lemma {:induction false} TextsOfConcat(a: seq<Part>, b: seq<Part>)
    ensures TextsOf(a + b) == TextsOf(a) + TextsOf(b)
  {
    if a == [] {
      assert a + b == b;
    } else {
      assert (a + b)[0] == a[0] && (a + b)[1..] == a[1..] + b;
      TextsOfConcat(a[1..], b);
    }
  }

  /** `RequestContext.get_user_input()`: the message's text parts joined by a
      line feed. */
  function UserInput(message: Message): string {
    Join(TextsOf(message.parts), "\n")
  }

  /** `new_agent_text_message(text, context_id, task_id)`. */
  function AgentText(text: string, contextId: string, taskId: string, messageId: string): Message {
    Message(AgentRole, [TextPart(text)], messageId, Some(taskId), Some(contextId))
  }

  /** `new_task(message)`: a submitted task whose history is the message; the
      message's own task and context identifiers are kept when it has them. */
  function NewTask(message: Message, freshTaskId: string, freshContextId: string): (t: Task)
    ensures t.state == Submitted && t.history == [message] && t.artifacts == None
    ensures t.id == if message.taskId.Some? && message.taskId.value != "" then message.taskId.value else freshTaskId
  {
    Task(
      if message.taskId.Some? && message.taskId.value != "" then message.taskId.value else freshTaskId,
      if message.contextId.Some? && message.contextId.value != "" then message.contextId.value else freshContextId,
      Submitted, None, [message], None)
  }

  /** The task a client sees after the served agent's events have been applied
      in order: the first event must enqueue the task, a status update sets the
      state, an artifact update appends an artifact. */
  function TaskAfter(events: seq<Event>): Option<Task> {
    if events == [] || !events[0].TaskEvent? then None
    else Some(Apply(events[0].task, events[1..]))
  }

  function Apply(task: Task, events: seq<Event>): Task
    decreases |events|
  {
    if events == [] then task
    else
      var next := match events[0]
        case TaskEvent(t) => t
        case StatusUpdate(_, _, state, message, _) => task.(state := state, statusMessage := message)
        case ArtifactUpdate(_, _, artifact) =>
          task.(artifacts := Some(task.artifacts.GetOr([]) + [artifact]));
      Apply(next, events[1..])
  }
}
