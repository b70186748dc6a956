/** internal/agent/model.go and scripted.go: the conversation and the model that continues it. */
module Conversation {
  import opened Validation

  /** The Gemini client library's message types, as far as the adapter uses them. */
  datatype Part =
    | TextPart(text: string)
    | CallPart(id: string, name: string, arguments: Arguments)
    | ResponsePart(id: string, name: string, key: string, content: string)

  datatype Content = Content(fromModel: bool, parts: seq<Part>)

  datatype Role = User | Model

  /** A call's JSON arguments, already decoded in each way the source decodes them: as an object, as
      the log tool's "previous" flag, and as a submission. */
  datatype Arguments = Arguments(compact: string, isObject: bool, previous: bool, submission: Submission)

  datatype ToolCall = ToolCall(id: string, name: string, arguments: Arguments)

  datatype ToolResult = ToolResult(callId: string, name: string, content: string, isError: bool)

  /** Opaque data an adapter attaches to its own turns. */
  datatype ProviderState = Absent | Gemini(content: Content) | Foreign(data: string)

  datatype Message = Message(
    role: Role,
    text: string,
    toolCalls: seq<ToolCall>,
    toolResults: seq<ToolResult>,
    providerState: ProviderState)

  function UserText(text: string): Message {
    Message(User, text, [], [], Absent)
  }

  datatype Usage = Usage(input: int, output: int)

  /** A model call answers, or fails; a failure may be the deadline's or a cancelled context's. */
  datatype Reply =
    | Answered(message: Message, usage: Usage)
    | Errored(reason: string, deadline: bool)

  /** A model whose every reply is fixed by its script, an arbitrary function of the turn and the
      conversation so far; it records each request. Quantifying over scripts quantifies over every
      behaviour a model can show in a run. */
  class ScriptedModel {
    const script: (nat, seq<Message>) -> Reply
    var requests: seq<seq<Message>>

    constructor (script: (nat, seq<Message>) -> Reply)
      ensures this.script == script && requests == []
    {
      this.script := script;
      requests := [];
    }

    method Generate(messages: seq<Message>) returns (reply: Reply)
      modifies this
      ensures requests == old(requests) + [messages]
      ensures reply == script(old(|requests|), messages)
    {
      var i := |requests|;
      requests := requests + [messages];
      reply := script(i, messages);
    }
  }

  // ----- the shape every request has -----

  /** Each call is answered once, in order, under its own identifier and name. */
  ghost predicate AnswersCalls(calls: seq<ToolCall>, results: seq<ToolResult>) {
    && |results| == |calls|
    && forall i :: 0 <= i < |calls| ==> results[i].callId == calls[i].id && results[i].name == calls[i].name
  }

  /** A user message that answers a model turn: results when it made calls, a prompt when it made none. */
  ghost predicate Answers(turn: Message, next: Message) {
    && next.role.User?
    && (turn.toolCalls == [] ==> next.text != "" && next.toolResults == [])
    && (turn.toolCalls != [] ==> AnswersCalls(turn.toolCalls, next.toolResults))
  }

  /** The conversation opens with a non-empty user message, alternates, and answers every turn. */
  ghost predicate WellShaped(ms: seq<Message>) {
    && |ms| % 2 == 1
    && ms[0].role.User? && ms[0].text != ""
    && (forall i :: 0 <= i < |ms| && i % 2 == 1 ==> ms[i].role.Model?)
    && (forall i :: 0 <= i < |ms| - 1 && i % 2 == 1 ==> Answers(ms[i], ms[i + 1]))
  }
}
