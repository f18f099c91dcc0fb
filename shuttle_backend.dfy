/** The Shuttle-hosted backend: the API key comes from the platform's
    secret store at startup and is held, read-only, in the application
    state handed to every request. */
module ShuttleBackend {
  import opened Wrappers
  import opened Whitespace
  import opened Gemini
  import opened Gateway

  datatype AppState = AppState(geminiApiKey: string)

  /** `paraphrase`: validation, request construction, one upstream call and
      result mapping, using the key held in the state. */
  function Paraphrase(state: AppState, text: string, upstream: Outbound -> Exchange): (h: Handled)
    ensures IsBlank(text) ==> h == Handled(None, HttpResponse(400, ErrorBody(EmptyTextMessage)))
    ensures !IsBlank(text) ==>
              && h.sent == Some(Outbound(RequestUrl(state.geminiApiKey), BuildRequest(text)))
              && h.response == Respond(CallGemini(upstream(h.sent.value)))
    ensures h.response.status in {200, 400, 500}
  {
    Serve(state.geminiApiKey, text, upstream)
  }
}
