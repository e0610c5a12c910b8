/**
 * The legacy single-prompt chat component: the user's text is wrapped in a
 * fixed prompt template, and the transcript is rebuilt from the copy of it
 * taken when the message was submitted. It has no in-flight check of its
 * own, and a failure adds nothing to the transcript.
 */
module LegacyChat {
  import opened Wrappers
  import opened Text
  import opened Chat

  const PromptHead := "### Human: "
  const PromptTail := "\n\n### Assistant:"

  /** The prompt template sent to the legacy endpoint. */
  function LegacyPrompt(input: string): string {
    PromptHead + input + PromptTail
  }

  /** The prompt is the user's text, verbatim, between a fixed head and a fixed tail. */
  lemma PromptShape(input: string)
    ensures var r := LegacyPrompt(input);
      && |r| == |PromptHead| + |input| + |PromptTail|
      && r[..|PromptHead|] == PromptHead
      && r[|PromptHead|..|r| - |PromptTail|] == input
      && r[|r| - |PromptTail|..] == PromptTail
  {
  }

  /** Different inputs give different prompts: the text can be read back from the prompt. */
  lemma PromptInjective(a: string, b: string)
    requires LegacyPrompt(a) == LegacyPrompt(b)
    ensures a == b
  {
    PromptShape(a);
    PromptShape(b);
  }

  /** What an accepted submission holds across its `await`: the transcript copy, the user message and the request. */
  datatype Pending = Pending(snapshot: seq<Message>, user: Message, request: PromptRequest)

  class LegacyChatbot {
    var messages: seq<Message>
    var input: string
    var loading: bool

    constructor ()
      ensures messages == [] && input == "" && !loading
    {
      messages, input, loading := [], "", false;
    }

    /**
     * `sendMessage` up to its `await`: blank input is rejected without
     * effect; otherwise the user message is appended to the current
     * transcript, which is kept as the snapshot, the input is cleared and
     * `loading` raised. The request uses the prompt template with
     * `max_tokens` 100.
     */
    method Submit() returns (pending: Option<Pending>)
      modifies this`messages, this`input, this`loading
      ensures Blank(old(input)) ==>
        pending == None && messages == old(messages) && input == old(input) && loading == old(loading)
      ensures !Blank(old(input)) ==>
        && pending == Some(Pending(old(messages), UserMessage(old(input)),
                                   PromptRequest(LegacyPrompt(old(input)), 100, 0.8, 0.95)))
        && messages == old(messages) + [UserMessage(old(input))]
        && input == "" && loading
    {
      if Blank(input) {
        return None;
      }
      var user := UserMessage(input);
      var snapshot := messages;
      messages := snapshot + [user];
      pending := Some(Pending(snapshot, user, PromptRequest(LegacyPrompt(input), 100, 0.8, 0.95)));
      input := "";
      loading := true;
    }

    /**
     * `sendMessage` after its `await`: a reply rebuilds the transcript as the
     * snapshot, the user message and the reply, whatever the transcript holds
     * by then; a failure leaves it as it is. `loading` is lowered either way.
     */
    method Complete(p: Pending, reply: Option<string>)
      modifies this`messages, this`loading
      ensures messages == if reply.Some? then p.snapshot + [p.user, Message(Assistant, reply.value, None)] else old(messages)
      ensures !loading
    {
      if reply.Some? {
        messages := p.snapshot + [p.user, Message(Assistant, reply.value, None)];
      }
      loading := false;
    }

    /**
     * One `sendMessage` that nothing overlaps: blank input changes nothing;
     * otherwise the user message is appended, followed by the reply when
     * there is one and by nothing when the request failed, and `loading` ends
     * lowered.
     */
    method SendMessage(reply: Option<string>) returns (request: Option<PromptRequest>)
      modifies this`messages, this`input, this`loading
      ensures Blank(old(input)) ==>
        request == None && messages == old(messages) && input == old(input) && loading == old(loading)
      ensures !Blank(old(input)) ==>
        && request == Some(PromptRequest(LegacyPrompt(old(input)), 100, 0.8, 0.95))
        && input == "" && !loading
        && messages == old(messages) + [UserMessage(old(input))]
                       + (if reply.Some? then [Message(Assistant, reply.value, None)] else [])
    {
      var pending := Submit();
      if pending.None? {
        return None;
      }
      request := Some(pending.value.request);
      Complete(pending.value, reply);
    }
  }

  /** Two submissions in a row on a fresh component, the second typed while the first is still waiting. */
  method SubmitTwice(first: string, second: string) returns (bot: LegacyChatbot, a: Pending, b: Pending)
    requires !Blank(first) && !Blank(second)
    ensures fresh(bot) && bot.loading
    ensures a.snapshot == [] && a.user == UserMessage(first)
    ensures b.snapshot == [UserMessage(first)] && b.user == UserMessage(second)
  {
    bot := new LegacyChatbot();
    bot.input := first;
    var pa := bot.Submit();
    assert bot.messages == [] + [UserMessage(first)];
    bot.input := second;
    var pb := bot.Submit();
    a, b := pa.value, pb.value;
  }

  /**
   * Nothing stops a second submission while the first is waiting (the Enter
   * key stays live). If the first reply then arrives before the second, the
   * first completion drops the second user message and lowers `loading`
   * while the second request is still out, and the second completion drops
   * the first reply.
   */
  method OverlappingSends(first: string, second: string, firstReply: string, secondReply: string)
    returns (afterFirst: seq<Message>, loadingAfterFirst: bool, final: seq<Message>)
    requires !Blank(first) && !Blank(second)
    ensures afterFirst == [UserMessage(first), Message(Assistant, firstReply, None)]
    ensures !loadingAfterFirst
    ensures final == [UserMessage(first), UserMessage(second), Message(Assistant, secondReply, None)]
  {
    var bot, a, b := SubmitTwice(first, second);
    bot.Complete(a, Some(firstReply));
    afterFirst, loadingAfterFirst := bot.messages, bot.loading;
    bot.Complete(b, Some(secondReply));
    final := bot.messages;
  }
}
