/**
 * The batch chat component: each submission sends only the new user message,
 * shows an empty assistant placeholder while waiting, and replaces that
 * placeholder with the whole generated text or with the error reply.
 */
module BatchChat {
  import opened Wrappers
  import opened Text
  import opened Chat

  class BatchChatbot {
    var messages: seq<Message>
    var input: string
    var isGenerating: bool
    var maxTokens: int

    constructor ()
      ensures messages == [] && input == "" && !isGenerating && maxTokens == 100
    {
      messages, input, isGenerating, maxTokens := [], "", false, 100;
    }

    /**
     * `sendMessage`, where `reply` is the response's `generated_text`, or
     * `None` when the request threw, the status was not ok or the body was
     * not JSON. Rejected without effect for blank input or while a request is
     * in flight. Otherwise the transcript grows by exactly the user message
     * and one assistant message (the placeholder, replaced in place), the
     * request carries only the user message and no `top_p`, and the in-flight
     * flag is down again on every exit.
     */
    method SendMessage(reply: Option<string>) returns (request: Option<ChatRequest>)
      modifies this`messages, this`input, this`isGenerating
      ensures old(Blank(input) || isGenerating) ==>
        request == None && messages == old(messages) && input == old(input) && isGenerating == old(isGenerating)
      ensures !old(Blank(input) || isGenerating) ==>
        && request == Some(ChatRequest([UserMessage(old(input))], maxTokens, 0.5, None))
        && input == "" && !isGenerating
        && |messages| == |old(messages)| + 2
        && messages == old(messages) + [UserMessage(old(input))]
                       + [if reply.Some? then Message(Assistant, reply.value, None) else ErrorMessage(None)]
    {
      if Blank(input) || isGenerating {
        return None;
      }
      var user := UserMessage(input);
      messages := messages + [user];
      input := "";
      isGenerating := true;

      request := Some(ChatRequest([user], maxTokens, 0.5, None));
      var withUser := messages;
      messages := messages + [Placeholder(None)];
      var final := if reply.Some? then Message(Assistant, reply.value, None) else ErrorMessage(None);
      messages := ReplaceLast(messages, final);
      ReplaceAppended(withUser, Placeholder(None), final);
      isGenerating := false;
    }
  }
}
