/**
  The hosted generative model, seen from the pipeline: one request (a prompt,
  whether live web search grounds the answer, and the output-length cap) gets
  one reply, either the reply text or the message of the exception the client
  library raised. The model is a parameter everywhere: a fixed oracle.
*/
module Gateway {
  import opened Wrappers

  datatype Reply = Success(text: string) | Failure(message: string)

  datatype Request = Request(prompt: string, webSearch: bool, maxOutputTokens: Option<nat>)

  type Model = Request -> Reply

  const SearchErrorPrefix := "Error: "

  /** The request the search helper sends: web search on, no output cap. */
  function SearchRequest(query: string): Request {
    Request(query, true, None)
  }

  /**
    The search helper called with `return_response=True`: the reply text, or
    "Error: " and the exception message when the call fails.
  */
  function SearchWithGemini(model: Model, query: string): (r: string)
    ensures model(SearchRequest(query)).Success? ==> r == model(SearchRequest(query)).text
    ensures model(SearchRequest(query)).Failure? ==>
              r == SearchErrorPrefix + model(SearchRequest(query)).message
  {
    match model(SearchRequest(query))
    case Success(text) => text
    case Failure(message) => SearchErrorPrefix + message
  }
}
