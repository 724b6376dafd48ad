/**
 * `DryingAgent`: the conversation state (history, current image,
 * processed image) and how one message moves it. The chat model is an
 * oracle that replies or raises; the image dryer is a given function,
 * total because `ImageDryer.process_image` turns every failure into None.
 */
module DryingAgent {
  import opened Wrappers
  import opened Imaging
  import opened Chat

  datatype Agent = Agent(systemPrompt: string, history: seq<Message>, currentImage: Option<Image>, processedImage: Option<Image>)

  /** One chatbot entry of the returned list. */
  datatype Entry = Entry(role: string, content: string)

  /**
   * The result of one `process_message` call: the new agent state, the
   * returned entries and image, plus the message list given to the chat
   * model and the images given to the dryer, in call order.
   */
  datatype Turn = Turn(agent: Agent, reply: seq<Entry>, shown: Option<Image>, sent: seq<Message>, dryerCalls: seq<Image>)

  type Dryer = Image -> Option<Image>

  function Init(systemPrompt: string): Agent
  {
    Agent(systemPrompt, [], None, None)
  }

  /** The history alternates a human message and the AI reply to it. */
  ghost predicate Alternates(h: seq<Message>)
  {
    && |h| % 2 == 0
    && (forall k :: 0 <= k < |h| && k % 2 == 0 ==> h[k].HumanMessage?)
    && (forall k :: 0 <= k < |h| && k % 2 == 1 ==> h[k].AIMessage?)
  }

  /**
   * `process_message`. The current image is recorded first; then the
   * chat model is asked; only if it replies is the image dried and the
   * history extended. If it raises, the call returns a single error
   * entry and no image, and the rest of the state stays as it was.
   */
  function ProcessMessage(a: Agent, message: string, image: Option<Image>, chat: Model, dryer: Dryer): (t: Turn)
    ensures t.sent == [SystemMessage(a.systemPrompt)] + a.history + [HumanMessage(message)]
    ensures t.agent.currentImage == image && t.agent.systemPrompt == a.systemPrompt
    ensures chat(t.sent).Replied? ==>
              && t.agent.history == a.history + [HumanMessage(message), AIMessage(chat(t.sent).content)]
              && t.reply == [Entry("user", message), Entry("assistant", chat(t.sent).content)]
              && t.dryerCalls == (if image.Some? then [image.value] else [])
              && t.agent.processedImage == (if image.Some? then dryer(image.value) else None)
              && t.shown == t.agent.processedImage
    ensures chat(t.sent).Raised? ==>
              && t.agent.history == a.history
              && t.agent.processedImage == a.processedImage
              && t.reply == [Entry("assistant", "Error: " + chat(t.sent).reason)]
              && t.shown == None
              && t.dryerCalls == []
  {
    var a1 := a.(currentImage := image);
    var sent := [SystemMessage(a.systemPrompt)] + a.history + [HumanMessage(message)];
    match chat(sent)
    case Raised(reason) =>
      Turn(a1, [Entry("assistant", "Error: " + reason)], None, sent, [])
    case Replied(content) =>
      var processed := if image.Some? then dryer(image.value) else None;
      var calls := if image.Some? then [image.value] else [];
      var a2 := a1.(processedImage := processed,
                    history := a.history + [HumanMessage(message), AIMessage(content)]);
      Turn(a2, [Entry("user", message), Entry("assistant", content)], processed, sent, calls)
  }

  /** `reset`: empty history, no current or processed image. */
  function Reset(a: Agent): (r: Agent)
    ensures r.history == [] && r.currentImage == None && r.processedImage == None
    ensures r.systemPrompt == a.systemPrompt
  {
    a.(history := [], currentImage := None, processedImage := None)
  }

  /** A reset agent is a fresh one, and its next message goes out alone with the system prompt. */
  lemma ResetStartsOver(a: Agent, message: string, image: Option<Image>, chat: Model, dryer: Dryer)
    ensures Reset(a) == Init(a.systemPrompt)
    ensures ProcessMessage(Reset(a), message, image, chat, dryer).sent
            == [SystemMessage(a.systemPrompt), HumanMessage(message)]
  {
  }

  /** Every turn keeps the history alternating human, AI, human, AI, ... */
  lemma TurnKeepsAlternation(a: Agent, message: string, image: Option<Image>, chat: Model, dryer: Dryer)
    requires Alternates(a.history)
    ensures Alternates(ProcessMessage(a, message, image, chat, dryer).agent.history)
  {
    var t := ProcessMessage(a, message, image, chat, dryer);
    if chat(t.sent).Replied? {
      var h := t.agent.history;
      forall k | 0 <= k < |h| && k % 2 == 0 ensures h[k].HumanMessage? {
        if k < |a.history| { assert h[k] == a.history[k]; }
      }
      forall k | 0 <= k < |h| && k % 2 == 1 ensures h[k].AIMessage? {
        if k < |a.history| { assert h[k] == a.history[k]; }
      }
    }
  }

  /**
   * A turn whose chat call raised leaves no trace on what the next turn
   * sends: the history it builds on is the one before the failed turn.
   */
  lemma FailedTurnLeavesNoTrace(a: Agent, m1: string, i1: Option<Image>, m2: string, i2: Option<Image>,
                                chat: Model, dryer: Dryer)
    requires chat(ProcessMessage(a, m1, i1, chat, dryer).sent).Raised?
    ensures ProcessMessage(ProcessMessage(a, m1, i1, chat, dryer).agent, m2, i2, chat, dryer).sent
            == ProcessMessage(a, m2, i2, chat, dryer).sent
  {
  }

  /** A sequence of text-only messages, each processed in turn. */
  function Converse(a: Agent, messages: seq<string>, chat: Model, dryer: Dryer): Agent
    decreases |messages|
  {
    if |messages| == 0 then a
    else Converse(ProcessMessage(a, messages[0], None, chat, dryer).agent, messages[1..], chat, dryer)
  }

  /**
   * When the chat model always replies, n messages add exactly 2n history
   * entries, message k becoming the human entry at position 2k after the
   * old history, and no processed image is left behind.
   */
  lemma {:induction false} ConverseHistory(a: Agent, messages: seq<string>, chat: Model, dryer: Dryer)
    requires forall m :: chat(m).Replied?
    ensures |Converse(a, messages, chat, dryer).history| == |a.history| + 2 * |messages|
    ensures Converse(a, messages, chat, dryer).history[..|a.history|] == a.history
    ensures forall k :: 0 <= k < |messages| ==>
              Converse(a, messages, chat, dryer).history[|a.history| + 2 * k] == HumanMessage(messages[k])
    ensures |messages| > 0 ==> Converse(a, messages, chat, dryer).processedImage == None
    decreases |messages|
  {
    if |messages| > 0 {
      var a1 := ProcessMessage(a, messages[0], None, chat, dryer).agent;
      ConverseHistory(a1, messages[1..], chat, dryer);
      var h := Converse(a, messages, chat, dryer).history;
      assert h == Converse(a1, messages[1..], chat, dryer).history;
      assert a1.history == a.history + [HumanMessage(messages[0]), AIMessage(a1.history[|a.history| + 1].content)];
      assert h[..|a1.history|] == a1.history;
      assert h[..|a.history|] == a1.history[..|a.history|];
      forall k | 0 <= k < |messages|
        ensures h[|a.history| + 2 * k] == HumanMessage(messages[k])
      {
        if k == 0 {
          assert h[|a.history|] == a1.history[|a.history|];
        } else {
          assert messages[k] == messages[1..][k - 1];
          assert |a.history| + 2 * k == |a1.history| + 2 * (k - 1);
        }
      }
    }
  }
}
