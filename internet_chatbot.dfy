/**
 * The internet-search chat component: each submission first asks a search
 * endpoint for a summary and source links, sends the summary as a system
 * message beside the user's text, and streams the reply into a placeholder
 * that carries the sources.
 */
module InternetChat {
  import opened Wrappers
  import opened Text
  import opened Chat
  import opened EventStream

  /**
   * What the summary request produced: no usable body (the request threw,
   * the status was not ok, or the body was not JSON), or a body whose
   * `summary` and `sources` fields may be absent.
   */
  datatype SummaryReply = SummaryFailed | SummaryBody(summary: Option<string>, sources: Option<seq<string>>)

  datatype Summary = Summary(text: string, sources: seq<string>)

  const NoSummaryText := "No summary available."
  const FailedSummaryText := "Could not retrieve summary."

  /**
   * `fetchSummary` after its request: a missing or empty summary (both falsy
   * in JavaScript) falls back to a fixed text, missing sources to none, and
   * any failure gives a different fixed text with no sources. It never fails
   * and never yields an empty summary.
   */
  function FetchSummary(reply: SummaryReply): (r: Summary)
    ensures r.text != ""
    ensures reply.SummaryFailed? ==> r == Summary(FailedSummaryText, [])
    ensures reply.SummaryBody? && reply.summary.Some? && reply.summary.value != "" ==> r.text == reply.summary.value
    ensures reply.SummaryBody? && (reply.summary.None? || reply.summary.value == "") ==> r.text == NoSummaryText
    ensures reply.SummaryBody? ==> r.sources == if reply.sources.Some? then reply.sources.value else []
  {
    match reply
    case SummaryFailed => Summary(FailedSummaryText, [])
    case SummaryBody(summary, sources) =>
      Summary(if summary.Some? && summary.value != "" then summary.value else NoSummaryText,
              if sources.Some? then sources.value else [])
  }

  class InternetChatbot {
    var messages: seq<Message>
    var input: string
    var isGenerating: bool
    var maxTokens: int

    constructor ()
      ensures messages == [] && input == "" && !isGenerating && maxTokens == 100
    {
      messages, input, isGenerating, maxTokens := [], "", false, 100;
    }

    /**
     * `handleStream`: append one empty assistant message carrying the
     * sources, then stream every token of the response into it. `chunks` are
     * the decoded reads before the reader reported done or failed; a failed
     * read ends the loop like done, and is not shown.
     */
    method HandleStream(chunks: seq<string>, parse: Parser, sources: seq<string>)
      modifies this`messages
      ensures messages == old(messages) + [Message(Assistant, Concat(StreamTokens(chunks, parse)), Some(sources))]
    {
      messages := messages + [Placeholder(Some(sources))];
      messages := ConsumeStream(messages, chunks, parse);
      FillPlaceholder(old(messages), Some(sources), Concat(StreamTokens(chunks, parse)));
    }

    /**
     * `sendMessage`: rejected without effect for blank input or while a
     * request is in flight. Otherwise the user's text is appended and the
     * input cleared; the request carries the summary as a system message and
     * the text as the user message; an ok response is streamed in, any other
     * outcome appends the fixed error reply with no sources; the in-flight
     * flag is down again on every exit.
     */
    method SendMessage(summaryReply: SummaryReply, generationOk: bool, chunks: seq<string>, parse: Parser)
      returns (request: Option<ChatRequest>)
      modifies this`messages, this`input, this`isGenerating
      ensures old(Blank(input) || isGenerating) ==>
        request == None && messages == old(messages) && input == old(input) && isGenerating == old(isGenerating)
      ensures !old(Blank(input) || isGenerating) ==>
        var summary := FetchSummary(summaryReply);
        && request == Some(ChatRequest([Message(System, summary.text, None), UserMessage(old(input))], maxTokens, 0.5, Some(0.8)))
        && input == "" && !isGenerating
        && messages == old(messages) + [UserMessage(old(input))]
                       + [if generationOk then Message(Assistant, Concat(StreamTokens(chunks, parse)), Some(summary.sources))
                          else ErrorMessage(Some([]))]
    {
      if Blank(input) || isGenerating {
        return None;
      }
      var text := input;
      messages := messages + [UserMessage(text)];
      input := "";
      isGenerating := true;

      var summary := FetchSummary(summaryReply);
      request := Some(ChatRequest([Message(System, summary.text, None), UserMessage(text)], maxTokens, 0.5, Some(0.8)));
      if generationOk {
        HandleStream(chunks, parse, summary.sources);
      } else {
        messages := messages + [ErrorMessage(Some([]))];
      }
      isGenerating := false;
    }
  }
}
