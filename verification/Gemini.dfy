/** internal/model/gemini/gemini.go: how a conversation becomes the client library's contents. */
module GeminiAdapter {
  import opened Wrappers
  import opened Conversation

  /** Which calls of a replayed turn decode as JSON objects. */
  predicate CallsDecode(calls: seq<ToolCall>) {
    forall i :: 0 <= i < |calls| ==> calls[i].arguments.isObject
  }

  function TextParts(text: string): seq<Part> {
    if text == "" then [] else [TextPart(text)]
  }

  function CallParts(calls: seq<ToolCall>, n: nat): (r: seq<Part>)
    requires n <= |calls|
    ensures |r| == n
    ensures forall k :: 0 <= k < n ==> r[k] == CallPart(calls[k].id, calls[k].name, calls[k].arguments)
  {
    if n == 0 then []
    else CallParts(calls, n - 1) + [CallPart(calls[n - 1].id, calls[n - 1].name, calls[n - 1].arguments)]
  }

  function ResultPart(r: ToolResult): Part {
    ResponsePart(r.callId, r.name, if r.isError then "error" else "output", r.content)
  }

  function ResultParts(results: seq<ToolResult>, n: nat): (r: seq<Part>)
    requires n <= |results|
    ensures |r| == n && forall k :: 0 <= k < n ==> r[k] == ResultPart(results[k])
  {
    if n == 0 then [] else ResultParts(results, n - 1) + [ResultPart(results[n - 1])]
  }

  /** A model turn keeps its original content when it carries one. */
  predicate Converts(m: Message) {
    m.role.Model? && !m.providerState.Gemini? ==> CallsDecode(m.toolCalls)
  }

  predicate AllConvert(ms: seq<Message>) {
    forall i :: 0 <= i < |ms| ==> Converts(ms[i])
  }

  function ContentOf(m: Message): Content {
    if m.role.Model? then
      if m.providerState.Gemini? then m.providerState.content
      else Content(true, TextParts(m.text) + CallParts(m.toolCalls, |m.toolCalls|))
    else Content(false, TextParts(m.text) + ResultParts(m.toolResults, |m.toolResults|))
  }

  /** A user message with nothing in it is dropped. */
  predicate Kept(m: Message) {
    m.role.Model? || ContentOf(m).parts != []
  }

  function Contents(ms: seq<Message>, n: nat): seq<Content>
    requires n <= |ms|
  {
    if n == 0 then []
    else Contents(ms, n - 1) + if Kept(ms[n - 1]) then [ContentOf(ms[n - 1])] else []
  }

  /** The parts of a replayed model turn, or nothing when some call's arguments do not decode. */
  method ReplayedParts(msg: Message) returns (parts: Option<seq<Part>>)
    ensures parts.Some? <==> CallsDecode(msg.toolCalls)
    ensures parts.Some? ==> parts.value == TextParts(msg.text) + CallParts(msg.toolCalls, |msg.toolCalls|)
  {
    var out: seq<Part> := [];
    if msg.text != "" {
      out := out + [TextPart(msg.text)];
    }
    for j := 0 to |msg.toolCalls|
      invariant out == TextParts(msg.text) + CallParts(msg.toolCalls, j)
      invariant forall k :: 0 <= k < j ==> msg.toolCalls[k].arguments.isObject
    {
      if !msg.toolCalls[j].arguments.isObject {
        return None;
      }
      var call := msg.toolCalls[j];
      out := out + [CallPart(call.id, call.name, call.arguments)];
    }
    return Some(out);
  }

  method UserParts(msg: Message) returns (parts: seq<Part>)
    ensures parts == TextParts(msg.text) + ResultParts(msg.toolResults, |msg.toolResults|)
  {
    parts := [];
    if msg.text != "" {
      parts := parts + [TextPart(msg.text)];
    }
    for j := 0 to |msg.toolResults|
      invariant parts == TextParts(msg.text) + ResultParts(msg.toolResults, j)
    {
      var r := msg.toolResults[j];
      var key := "output";
      if r.isError {
        key := "error";
      }
      parts := parts + [ResponsePart(r.callId, r.name, key, r.content)];
    }
  }

  method ToContents(messages: seq<Message>) returns (r: Option<seq<Content>>)
    ensures r == if AllConvert(messages) then Some(Contents(messages, |messages|)) else None
  {
    hide TextParts, CallParts, ResultParts, CallsDecode;
    var out: seq<Content> := [];
    for i := 0 to |messages|
      invariant forall k :: 0 <= k < i ==> Converts(messages[k])
      invariant out == Contents(messages, i)
    {
      var msg := messages[i];
      if msg.role.Model? {
        if msg.providerState.Gemini? {
          out := out + [msg.providerState.content];
          continue;
        }
        var parts := ReplayedParts(msg);
        if parts.None? {
          assert !Converts(messages[i]);
          return None;
        }
        out := out + [Content(true, parts.value)];
        continue;
      }
      var parts := UserParts(msg);
      if |parts| > 0 {
        out := out + [Content(false, parts)];
      }
    }
    return Some(out);
  }

  lemma ConversationKept(ms: seq<Message>, i: nat)
    requires WellShaped(ms) && i < |ms|
    ensures Kept(ms[i])
  {
    if i % 2 == 0 && i > 0 {
      assert (i - 1) % 2 == 1 && Answers(ms[i - 1], ms[i - 1 + 1]);
    }
  }

  /** No message of a run's conversation is dropped, and each keeps its place. */
  lemma {:induction false} ConversationSurvives(ms: seq<Message>, n: nat)
    requires WellShaped(ms) && n <= |ms|
    ensures |Contents(ms, n)| == n
    ensures forall i :: 0 <= i < n ==> Contents(ms, n)[i] == ContentOf(ms[i])
  {
    hide Kept, ContentOf, WellShaped;
    if n > 0 {
      ConversationSurvives(ms, n - 1);
      ConversationKept(ms, n - 1);
    }
  }

  /** The parts that answer a turn carry its calls' identifiers and names, in order. */
  lemma ResponsesMatchCalls(turn: Message, next: Message, k: nat)
    requires Answers(turn, next) && k < |turn.toolCalls|
    ensures var parts := ContentOf(next).parts;
            var p := parts[|parts| - |turn.toolCalls| + k];
            && |parts| >= |turn.toolCalls|
            && p.ResponsePart? && p.id == turn.toolCalls[k].id && p.name == turn.toolCalls[k].name
            && p.content == next.toolResults[k].content
            && p.key == if next.toolResults[k].isError then "error" else "output"
  {
    assert next.role.User?;
  }

  /** How many parts the text of a message takes. */
  function Lead(text: string): nat {
    if text == "" then 0 else 1
  }

  /** A turn that carries its original content is replayed as that. */
  lemma OriginalIsReplayed(m: Message)
    requires m.role.Model? && m.providerState.Gemini?
    ensures ContentOf(m) == m.providerState.content
  {
  }

  /** Any other model turn says what it said, and then makes each call, in order. */
  lemma TurnContentSays(m: Message)
    requires m.role.Model? && !m.providerState.Gemini?
    ensures var c := ContentOf(m);
            && c.fromModel && |c.parts| == Lead(m.text) + |m.toolCalls|
            && (m.text != "" ==> c.parts[0] == TextPart(m.text))
            && forall k :: 0 <= k < |m.toolCalls| ==>
                 c.parts[Lead(m.text) + k] ==
                 CallPart(m.toolCalls[k].id, m.toolCalls[k].name, m.toolCalls[k].arguments)
  {
    var calls := CallParts(m.toolCalls, |m.toolCalls|);
    hide CallParts;
    PartsFollow(TextParts(m.text), calls);
  }

  /** A user message says its text if there is any, and then gives each result, in order. */
  lemma UserContentSays(m: Message)
    requires m.role.User?
    ensures var c := ContentOf(m);
            && !c.fromModel && |c.parts| == Lead(m.text) + |m.toolResults|
            && (m.text != "" ==> c.parts[0] == TextPart(m.text))
            && forall k :: 0 <= k < |m.toolResults| ==>
                 var r := m.toolResults[k];
                 c.parts[Lead(m.text) + k] ==
                 ResponsePart(r.callId, r.name, if r.isError then "error" else "output", r.content)
  {
    var results := ResultParts(m.toolResults, |m.toolResults|);
    hide ResultParts;
    PartsFollow(TextParts(m.text), results);
  }

  lemma PartsFollow(a: seq<Part>, b: seq<Part>)
    ensures forall k :: 0 <= k < |a| ==> (a + b)[k] == a[k]
    ensures forall k :: 0 <= k < |b| ==> (a + b)[|a| + k] == b[k]
  {
  }
}
