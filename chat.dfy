/**
 * The conversation state shared by the four chat components: a transcript of
 * `{role, content, sources?}` messages, the whole-transcript updaters the
 * components pass to `setMessages`, and the request bodies they send.
 */
module Chat {
  import opened Wrappers

  datatype Role = User | Assistant | System

  /** One transcript entry; `sources` is absent except on the internet-search variant's replies. */
  datatype Message = Message(role: Role, content: string, sources: Option<seq<string>>)

  /** The fixed text every guarded component shows when a request fails. */
  const ErrorText := "Sorry, I encountered an error. Please try again."

  function UserMessage(text: string): Message {
    Message(User, text, None)
  }

  /** The empty assistant reply that streamed tokens are appended to. */
  function Placeholder(sources: Option<seq<string>>): Message {
    Message(Assistant, "", sources)
  }

  function ErrorMessage(sources: Option<seq<string>>): Message {
    Message(Assistant, ErrorText, sources)
  }

  /**
   * The token updater: a copy of the transcript whose last message has
   * `token` appended to its content; its role and sources, the length and
   * every earlier message stay as they were.
   */
  function AppendToken(t: seq<Message>, token: string): (r: seq<Message>)
    requires |t| > 0
    ensures |r| == |t|
    ensures forall i :: 0 <= i < |t| - 1 ==> r[i] == t[i]
    ensures r[|t| - 1].role == t[|t| - 1].role && r[|t| - 1].sources == t[|t| - 1].sources
    ensures r[|t| - 1].content == t[|t| - 1].content + token
  {
    var last := t[|t| - 1];
    t[..|t| - 1] + [last.(content := last.content + token)]
  }

  /** Appending nothing leaves the transcript as it was. */
  lemma AppendEmptyToken(t: seq<Message>)
    requires |t| > 0
    ensures AppendToken(t, "") == t
  {
    assert AppendToken(t, "")[|t| - 1] == t[|t| - 1];
  }

  /** Two token appends in a row are one append of the two tokens in order. */
  lemma AppendTokenTwice(t: seq<Message>, a: string, b: string)
    requires |t| > 0
    ensures AppendToken(AppendToken(t, a), b) == AppendToken(t, a + b)
  {
    var last := t[|t| - 1];
    assert last.content + a + b == last.content + (a + b);
  }

  /**
   * `[...prev.slice(0, -1), m]`: the last message is replaced by `m`, every
   * earlier one kept; `slice(0, -1)` of an empty list is empty, so an empty
   * transcript becomes `[m]`.
   */
  function ReplaceLast(t: seq<Message>, m: Message): (r: seq<Message>)
    ensures |r| == if t == [] then 1 else |t|
    ensures r[|r| - 1] == m
    ensures forall i :: 0 <= i < |r| - 1 ==> r[i] == t[i]
  {
    if t == [] then [m] else t[..|t| - 1] + [m]
  }

  /** Replacing a just-appended placeholder is the same as appending the final message directly. */
  lemma ReplaceAppended(t: seq<Message>, placeholder: Message, m: Message)
    ensures ReplaceLast(t + [placeholder], m) == t + [m]
  {
    assert (t + [placeholder])[..|t|] == t;
  }

  /** Request body of the chat-completion style endpoints. */
  datatype ChatRequest = ChatRequest(messages: seq<Message>, maxTokens: int, temperature: real, topP: Option<real>)

  /** Request body of the legacy single-prompt endpoint. */
  datatype PromptRequest = PromptRequest(prompt: string, maxTokens: int, temperature: real, topP: real)
}
