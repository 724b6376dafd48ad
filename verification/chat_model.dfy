/**
 * Chat messages and the message list `ChatModel.get_response` sends to
 * the chat-completion endpoint. The endpoint is an oracle that either
 * replies with text or raises.
 */
module Chat {
  import opened Wrappers

  datatype Message = SystemMessage(content: string) | HumanMessage(content: string) | AIMessage(content: string)

  /** What the chat endpoint does with a message list. */
  datatype Reply = Replied(content: string) | Raised(reason: string)

  type Model = seq<Message> -> Reply

  /** Every earlier entry re-sent as a human message, in the same order. */
  function AsHuman(history: seq<string>): (r: seq<Message>)
    ensures |r| == |history|
    ensures forall k :: 0 <= k < |history| ==> r[k] == HumanMessage(history[k])
  {
    if |history| == 0 then []
    else AsHuman(history[..|history| - 1]) + [HumanMessage(history[|history| - 1])]
  }

  /**
   * The list `get_response` builds: the system prompt, then each history
   * entry as a human message whatever its origin, then the new message.
   * A missing or empty history is skipped alike.
   */
  function Assemble(systemPrompt: string, message: string, history: Option<seq<string>>): (r: seq<Message>)
    ensures |r| == (if history.Some? then |history.value| else 0) + 2
    ensures r[0] == SystemMessage(systemPrompt) && r[|r| - 1] == HumanMessage(message)
    ensures history.Some? ==> forall k :: 0 <= k < |history.value| ==> r[k + 1] == HumanMessage(history.value[k])
    ensures history.None? || history == Some([]) ==> r == [SystemMessage(systemPrompt), HumanMessage(message)]
  {
    [SystemMessage(systemPrompt)]
    + (if history.Some? && |history.value| > 0 then AsHuman(history.value) else [])
    + [HumanMessage(message)]
  }

  /** `get_response`: the endpoint's reply to the assembled list; a raise propagates. */
  function GetResponse(systemPrompt: string, message: string, history: Option<seq<string>>, model: Model): Reply
  {
    model(Assemble(systemPrompt, message, history))
  }

  /** `chat_history=None` and `chat_history=[]` send the same list. */
  lemma NoneAndEmptyHistoryAgree(systemPrompt: string, message: string)
    ensures Assemble(systemPrompt, message, None) == Assemble(systemPrompt, message, Some([]))
  {
  }
}
