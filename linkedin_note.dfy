/**
  The LinkedIn connection-note drafter: the same prompt preamble as the email
  drafter with its own closing request, and a reply that is returned trimmed,
  replaced by an error message, or not returned at all.
*/
module LinkedInNote {
  import opened Wrappers
  import opened Text
  import opened Gateway
  import opened Prompting

  const NoteClosing :=
    "Please write a concise and polite LinkedIn connection note message for cold outreach based on the above.\n"
  const NoteErrorPrefix := "Error generating LinkedIn connection note: "
  const NoteMaxOutputTokens: nat := 500

  function NotePrompt(website: string, posts: string, instructions: string): string {
    PromptPreamble(website, posts, instructions) + NoteClosing
  }

  /** Sent without web search, capped at 500 output tokens. */
  function NoteRequest(website: string, posts: string, instructions: string): Request {
    Request(NotePrompt(website, posts, instructions), false, Some(NoteMaxOutputTokens))
  }

  /**
    `generate_linkedin_connection_note`: with `returnResponse` the trimmed
    reply or, when the call fails, the error message; without it nothing
    (Python's `None`) on both paths.
  */
  function GenerateLinkedInConnectionNote(model: Model, website: string, posts: string,
                                          instructions: string, returnResponse: bool)
    : (r: Option<string>)
    ensures r.Some? <==> returnResponse
    ensures var reply := model(NoteRequest(website, posts, instructions));
            returnResponse && reply.Success? ==> IsStripped(r.value) && r.value == Strip(reply.text)
    ensures var reply := model(NoteRequest(website, posts, instructions));
            returnResponse && reply.Failure? ==> r.value == NoteErrorPrefix + reply.message
  {
    match model(NoteRequest(website, posts, instructions))
    case Success(text) => if returnResponse then Some(Strip(text)) else None
    case Failure(message) => if returnResponse then Some(NoteErrorPrefix + message) else None
  }

  /** A failed call is told apart from a note only by its text: it starts with the error prefix. */
  lemma FailedNoteStartsWithPrefix(model: Model, website: string, posts: string, instructions: string)
    requires model(NoteRequest(website, posts, instructions)).Failure?
    ensures var r := GenerateLinkedInConnectionNote(model, website, posts, instructions, true);
            StartsWith(r.value, NoteErrorPrefix)
  {
    var r := GenerateLinkedInConnectionNote(model, website, posts, instructions, true);
    assert r.value[..|NoteErrorPrefix|] == NoteErrorPrefix;
  }
}
