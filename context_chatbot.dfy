/**
 * The context-carrying chat component: besides the user's text, each request
 * may carry a system message that quotes the previous question and the reply
 * that followed it; the reply is streamed into an empty assistant message.
 */
module ContextChat {
  import opened Wrappers
  import opened Text
  import opened Chat
  import opened EventStream

  const HumanTag := "### Human: "
  const AssistantTag := " ### Assistant: "

  /** `roles.lastIndexOf(role)`: the last position holding `role`, or -1 when there is none. */
  function LastIndexOfRole(h: seq<Message>, role: Role): (r: int)
    ensures -1 <= r < |h|
    ensures r >= 0 ==> h[r].role == role
    ensures forall j :: r < j < |h| ==> h[j].role != role
  {
    if h == [] then -1
    else if h[|h| - 1].role == role then |h| - 1
    else LastIndexOfRole(h[..|h| - 1], role)
  }

  /**
   * The system message built from the history as it was before this
   * submission: it exists exactly when the history holds a user message and
   * does not end with one (the two-message minimum the code also checks is
   * implied), and quotes the last user message and the one after it.
   */
  function ContextMessage(history: seq<Message>): (r: Option<Message>)
    ensures r.Some? <==> |history| > 0 && history[|history| - 1].role != User
                         && exists i :: 0 <= i < |history| && history[i].role == User
    ensures r.Some? ==> r.value.role == System && r.value.sources == None
  {
    if |history| >= 2 then
      var i := LastIndexOfRole(history, User);
      if i != -1 && i < |history| - 1 then
        Some(Message(System, HumanTag + history[i].content + AssistantTag + history[i + 1].content, None))
      else None
    else None
  }

  /** After a question, its reply and anything else that is not a user message, the context quotes that question and that reply. */
  lemma ContextOfLastExchange(before: seq<Message>, question: Message, reply: Message, after: seq<Message>)
    requires question.role == User && reply.role != User
    requires forall k :: 0 <= k < |after| ==> after[k].role != User
    ensures ContextMessage(before + [question, reply] + after)
         == Some(Message(System, HumanTag + question.content + AssistantTag + reply.content, None))
  {
    var h := before + [question, reply] + after;
    var i := |before|;
    assert h[i] == question && h[i + 1] == reply;
    assert LastIndexOfRole(h, User) == i by {
      LastUserAt(h, i);
    }
  }

  /** A user message at `i` with none after it is the last one `lastIndexOf` finds. */
  lemma {:induction false} LastUserAt(h: seq<Message>, i: nat)
    requires i < |h| && h[i].role == User
    requires forall j :: i < j < |h| ==> h[j].role != User
    ensures LastIndexOfRole(h, User) == i
  {
    if i < |h| - 1 {
      assert h[..|h| - 1][i] == h[i];
      LastUserAt(h[..|h| - 1], i);
    }
  }

  /**
   * The `messages` of the request: the new user message, preceded by the
   * context message when there is one.
   */
  function ApiMessages(history: seq<Message>, user: Message): (r: seq<Message>)
    ensures 1 <= |r| <= 2 && r[|r| - 1] == user
    ensures |r| == 2 <==> ContextMessage(history).Some?
    ensures |r| == 2 ==> r[0] == ContextMessage(history).value
  {
    match ContextMessage(history)
    case Some(system) => [system, user]
    case None => [user]
  }

  class ContextChatbot {
    var messages: seq<Message>
    var input: string
    var isGenerating: bool
    var maxTokens: int

    constructor ()
      ensures messages == [] && input == "" && !isGenerating && maxTokens == 100
    {
      messages, input, isGenerating, maxTokens := [], "", false, 100;
    }

    /** `handleStream`: append one empty assistant message, then stream every token of the response into it. */
    method HandleStream(chunks: seq<string>, parse: Parser)
      modifies this`messages
      ensures messages == old(messages) + [Message(Assistant, Concat(StreamTokens(chunks, parse)), None)]
    {
      messages := messages + [Placeholder(None)];
      messages := ConsumeStream(messages, chunks, parse);
      FillPlaceholder(old(messages), None, Concat(StreamTokens(chunks, parse)));
    }

    /**
     * `sendMessage`: rejected without effect for blank input or while a
     * request is in flight. Otherwise the user's text is appended and the
     * input cleared; the request's messages are built from the history before
     * this submission; an ok response is streamed in, any other outcome
     * appends the fixed error reply; the in-flight flag is down again on every
     * exit.
     */
    method SendMessage(generationOk: bool, chunks: seq<string>, parse: Parser)
      returns (request: Option<ChatRequest>)
      modifies this`messages, this`input, this`isGenerating
      ensures old(Blank(input) || isGenerating) ==>
        request == None && messages == old(messages) && input == old(input) && isGenerating == old(isGenerating)
      ensures !old(Blank(input) || isGenerating) ==>
        && request == Some(ChatRequest(ApiMessages(old(messages), UserMessage(old(input))), maxTokens, 0.5, Some(0.8)))
        && input == "" && !isGenerating
        && messages == old(messages) + [UserMessage(old(input))]
                       + [if generationOk then Message(Assistant, Concat(StreamTokens(chunks, parse)), None)
                          else ErrorMessage(None)]
    {
      if Blank(input) || isGenerating {
        return None;
      }
      var user := UserMessage(input);
      var history := messages;
      messages := messages + [user];
      input := "";
      isGenerating := true;

      request := Some(ChatRequest(ApiMessages(history, user), maxTokens, 0.5, Some(0.8)));
      if generationOk {
        HandleStream(chunks, parse);
      } else {
        messages := messages + [ErrorMessage(None)];
      }
      isGenerating := false;
    }
  }
}
