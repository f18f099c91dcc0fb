/** The `paraphrase` handler logic that both backends share once the API key
    is known: validate, build the request, call the upstream once, map the
    outcome to an HTTP response. */
module Gateway {
  import opened Wrappers
  import opened Whitespace
  import opened Gemini

  /** The JSON (or plain) bodies the handlers return. */
  datatype Body =
    | Paraphrased(paraphrased: string)
    | ErrorBody(error: string)
    | PlainText(text: string)

  datatype HttpResponse = HttpResponse(status: int, body: Body)

  /** One handled request: the upstream request it sent, if any, and the
      response it returned. */
  datatype Handled = Handled(sent: Option<Outbound>, response: HttpResponse)

  const EmptyTextMessage: string := "Text cannot be empty"
  const FailurePrefix: string := "Failed to paraphrase text: "

  /** The 400 returned for blank text. */
  const BlankRejection: HttpResponse := HttpResponse(400, ErrorBody(EmptyTextMessage))

  /** The match on the result of `call_gemini_api`: success is 200 with the
      text, every error is 500 with the prefixed display text. */
  function Respond(r: Result<string, CallError>): (resp: HttpResponse)
    ensures resp.status == 200 <==> r.Success?
    ensures resp.status == 500 <==> r.Failure?
    ensures r.Success? ==> resp.body == Paraphrased(r.value)
    ensures r.Failure? ==> resp.body == ErrorBody(FailurePrefix + Display(r.error))
  {
    match r
    case Success(t) => HttpResponse(200, Paraphrased(t))
    case Failure(e) => HttpResponse(500, ErrorBody(FailurePrefix + Display(e)))
  }

  /** Apart from transport failures, whose text is opaque, the 500 body
      tells which error occurred and with which message. */
  lemma {:induction false} ErrorBodyDeterminesError(e1: CallError, e2: CallError)
    requires !e1.Transport? && !e2.Transport?
    requires Respond(Failure(e1)) == Respond(Failure(e2))
    ensures e1 == e2
  {
    var b1, b2 := FailurePrefix + Display(e1), FailurePrefix + Display(e2);
    assert b1 == b2;
    assert b1[|FailurePrefix|..] == Display(e1);
    assert b2[|FailurePrefix|..] == Display(e2);
    DisplayDeterminesError(e1, e2);
  }

  /** The handler once the key is known. `upstream` stands for the HTTP call
      and the JSON parse: what the Gemini API answers to a given request.
      Blank text is answered 400 without any request; otherwise exactly one
      request, to the key's URL and with the built body, is sent and its
      outcome is mapped by `Respond`. */
  function Serve(apiKey: string, text: string, upstream: Outbound -> Exchange): (h: Handled)
    ensures IsBlank(text) ==> h == Handled(None, BlankRejection)
    ensures !IsBlank(text) ==>
              && h.sent == Some(Outbound(RequestUrl(apiKey), BuildRequest(text)))
              && h.response == Respond(CallGemini(upstream(h.sent.value)))
    ensures h.response.status in {200, 400, 500}
  {
    if IsBlank(text) then Handled(None, BlankRejection)
    else
      var out := Outbound(RequestUrl(apiKey), BuildRequest(text));
      Handled(Some(out), Respond(CallGemini(upstream(out))))
  }

  /** Empty or all-whitespace text is answered 400 "Text cannot be empty"
      and the upstream is never called. */
  lemma {:induction false} BlankTextRejected(apiKey: string, text: string, upstream: Outbound -> Exchange)
    requires AllWs(text)
    ensures Serve(apiKey, text, upstream).sent == None
    ensures Serve(apiKey, text, upstream).response == HttpResponse(400, ErrorBody("Text cannot be empty"))
  {
    BlankIffAllWhitespace(text);
  }

  /** Text with a non-whitespace character is forwarded: one request with
      one content and one part, whose prompt ends with the text unchanged
      and from which the text is recovered exactly. */
  lemma {:induction false} TextForwardedVerbatim(apiKey: string, text: string, upstream: Outbound -> Exchange)
    requires !AllWs(text)
    ensures var h := Serve(apiKey, text, upstream);
      && h.sent.Some?
      && var req := h.sent.value.request;
      && |req.contents| == 1 && |req.contents[0].parts| == 1
      && var p := req.contents[0].parts[0].text;
      && p[|p| - |text|..] == text
      && PromptText(p) == Some(text)
  {
    BlankIffAllWhitespace(text);
    RequestCarriesText(text);
  }

  /** A reply without `error` whose first candidate has a part yields 200
      with that part's text exactly. */
  lemma {:induction false} FirstPartReturnedVerbatim(apiKey: string, text: string, upstream: Outbound -> Exchange,
                                                     body: string, cands: seq<Candidate>)
    requires !AllWs(text)
    requires upstream(Outbound(RequestUrl(apiKey), BuildRequest(text))) == Received(body, Parsed(GenerateResponse(cands, None)))
    requires |cands| > 0 && |cands[0].content.parts| > 0
    ensures Serve(apiKey, text, upstream).response == HttpResponse(200, Paraphrased(cands[0].content.parts[0].text))
  {
    BlankIffAllWhitespace(text);
  }

  /** A reply with `error` yields 500 with the reported message, even when
      it also carries candidates. */
  lemma {:induction false} ApiErrorReported(apiKey: string, text: string, upstream: Outbound -> Exchange,
                                            body: string, cands: seq<Candidate>, info: ApiErrorInfo)
    requires !AllWs(text)
    requires upstream(Outbound(RequestUrl(apiKey), BuildRequest(text))) == Received(body, Parsed(GenerateResponse(cands, Some(info))))
    ensures Serve(apiKey, text, upstream).response
      == HttpResponse(500, ErrorBody(FailurePrefix + (ApiErrorPrefix + info.message.GetOr(UnknownApiError))))
  {
    BlankIffAllWhitespace(text);
  }

  /** A reply with no candidates, or whose first candidate has no parts,
      yields 500 with the no-content message. */
  lemma {:induction false} NoContentReported(apiKey: string, text: string, upstream: Outbound -> Exchange,
                                             body: string, cands: seq<Candidate>)
    requires !AllWs(text)
    requires upstream(Outbound(RequestUrl(apiKey), BuildRequest(text))) == Received(body, Parsed(GenerateResponse(cands, None)))
    requires |cands| == 0 || |cands[0].content.parts| == 0
    ensures Serve(apiKey, text, upstream).response
      == HttpResponse(500, ErrorBody(FailurePrefix + NoContentMessage))
  {
    BlankIffAllWhitespace(text);
    SuccessIffFirstPart(cands);
  }

  /** An unparsable reply yields 500 with the parser's message; for a given
      parser message, the body has no further influence on the response. */
  lemma {:induction false} ParseFailureReported(apiKey: string, text: string, upstream: Outbound -> Exchange,
                                                body: string, reason: string)
    requires !AllWs(text)
    requires upstream(Outbound(RequestUrl(apiKey), BuildRequest(text))) == Received(body, ParseFailed(reason))
    ensures Serve(apiKey, text, upstream).response
      == HttpResponse(500, ErrorBody(FailurePrefix + (ParseErrorPrefix + reason)))
  {
    BlankIffAllWhitespace(text);
    ParseFailureHidesBody(body, body, reason);
  }

  /** A failed send or body read yields 500 with the transport error's text. */
  lemma {:induction false} TransportFailureReported(apiKey: string, text: string, upstream: Outbound -> Exchange,
                                                    detail: string)
    requires !AllWs(text)
    requires upstream(Outbound(RequestUrl(apiKey), BuildRequest(text))) == TransportFailed(detail)
    ensures Serve(apiKey, text, upstream).response == HttpResponse(500, ErrorBody(FailurePrefix + detail))
  {
    BlankIffAllWhitespace(text);
  }

  /** `GET /api/health`: always 200 "Healthy". */
  function Health(): (r: HttpResponse)
    ensures r.status == 200 && r.body == PlainText("Healthy")
  {
    HttpResponse(200, PlainText("Healthy"))
  }
}
