/** The messages an agent and its model exchange. */
module Conversation {

  datatype Role = System | User | Assistant | Tool

  /** `args` is the raw JSON of the call, never looked into. */
  datatype ToolCall = ToolCall(id: string, name: string, args: string)

  datatype Message = Message(role: Role, content: string, toolCalls: seq<ToolCall>, toolCallId: string)

  function SystemMessage(content: string): Message { Message(System, content, [], "") }

  function UserMessage(content: string): Message { Message(User, content, [], "") }

  function AssistantMessage(calls: seq<ToolCall>): Message { Message(Assistant, "", calls, "") }

  function ToolMessage(callId: string, content: string): Message { Message(Tool, content, [], callId) }

  /** What a memory holds after `messages` were appended to `held`, one at a time. */
  function Feed(append: (seq<Message>, Message) -> seq<Message>, held: seq<Message>,
                messages: seq<Message>): seq<Message> {
    if messages == [] then held
    else append(Feed(append, held, messages[..|messages| - 1]), messages[|messages| - 1])
  }

  lemma {:induction false} FeedSnoc(append: (seq<Message>, Message) -> seq<Message>, held: seq<Message>,
                                    xs: seq<Message>, x: Message)
    ensures Feed(append, held, xs + [x]) == append(Feed(append, held, xs), x)
  {
    assert (xs + [x])[..|xs|] == xs;
  }

  lemma {:induction false} FeedOne(append: (seq<Message>, Message) -> seq<Message>, held: seq<Message>, x: Message)
    ensures Feed(append, held, [x]) == append(held, x)
  {
    assert [] + [x] == [x];
    FeedSnoc(append, held, [], x);
  }

  lemma {:induction false} FeedTwo(append: (seq<Message>, Message) -> seq<Message>, x: Message, y: Message)
    ensures Feed(append, [], [x, y]) == append(append([], x), y)
  {
    assert [x] + [y] == [x, y];
    FeedSnoc(append, [], [x], y);
    FeedOne(append, [], x);
  }
}
