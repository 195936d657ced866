/** The client and the served agent together: a message dispatched by the
    client to an agent that echoes its input comes back as the reply text. */
module DispatchRoundTrip {
  import opened Wrappers
  import opened A2A
  import opened ToolClient
  import opened AgentExecution

  /** The served agent creates a new task for the client's message (it carries
      no task id), runs an echo agent on the user input, and the client
      extracts the text of the resulting task's first artifact: the reply is
      the text that was sent. */
  lemma {:induction false} EchoRoundTrip(text: string, messageId: string, requestId: string,
                                         statusMessage: string, artifactName: string, ids: FreshIds)
    ensures var sent := OutgoingMessage(text, messageId);
      var events := ExecutionEvents(RequestContext(None, sent), statusMessage, artifactName,
                                    Ran(Bare(UserInput(sent))), ids);
      && TaskAfter(events).Some?
      && TaskAfter(events).value.state == Completed
      && ExtractReply(SuccessResponse(requestId, TaskResult(TaskAfter(events).value))) == PartText(text)
  {
    var sent := OutgoingMessage(text, messageId);
    ServerReadsSentText(text, messageId);
    var events := ExecutionEvents(RequestContext(None, sent), statusMessage, artifactName,
                                  Ran(Bare(UserInput(sent))), ids);
    var task0 := events[0].task;
    assert task0.artifacts == None;
    var artifact := events[2].artifact;
    assert artifact.parts == [TextPart(text)];
    assert events[1..][1..] == events[2..];
    assert events[2..][1..] == events[3..];
    assert events[3..][1..] == [];
    var task1 := task0.(state := Working, statusMessage := events[1].message);
    assert task1.artifacts.GetOr([]) + [artifact] == [artifact];
    var task2 := task1.(artifacts := Some([artifact]));
    var task3 := task2.(state := Completed, statusMessage := None);
    assert Apply(task0, events[1..]) == Apply(task1, events[2..]) == Apply(task2, events[3..]) == task3;
    assert AllParts([artifact]) == [TextPart(text)] by {
      assert AllParts([artifact][1..]) == [];
    }
    assert FirstTextPart([TextPart(text)]) == Some(text);
  }
}
