/** The exchange with the Gemini `generateContent` API that both backends
    share: how the prompt and the outbound request are built, the shape of
    the parsed reply, and the ordered rule that turns a reply into either
    the paraphrased text or an error. The HTTP call and the JSON parser are
    not modelled: their outcome is the `Exchange` value. */
module Gemini {
  import opened Wrappers

  // ---- Outbound request: { contents: [ { parts: [ { text } ] } ] } ----

  datatype Part = Part(text: string)
  datatype Content = Content(parts: seq<Part>)
  datatype GenerateRequest = GenerateRequest(contents: seq<Content>)

  /** The request as it leaves the gateway: the URL (which carries the key)
      and the JSON body. */
  datatype Outbound = Outbound(url: string, request: GenerateRequest)

  // ---- Parsed reply; the informational fields are not modelled ----

  datatype ApiErrorInfo = ApiErrorInfo(code: Option<int>, message: Option<string>, status: Option<string>)
  datatype CandidatePart = CandidatePart(text: string)
  datatype CandidateContent = CandidateContent(parts: seq<CandidatePart>)
  datatype Candidate = Candidate(content: CandidateContent)

  /** `candidates` defaults to the empty list and `error` to absent when the
      reply does not carry them. */
  datatype GenerateResponse = GenerateResponse(candidates: seq<Candidate>, error: Option<ApiErrorInfo>)

  /** What `serde_json::from_str` made of the reply body. */
  datatype ParseOutcome = ParseFailed(reason: string) | Parsed(response: GenerateResponse)

  /** What the HTTP round trip produced: a failure of `send` or of reading
      the body (its display text is opaque here), or a body together with
      its parse. */
  datatype Exchange = TransportFailed(detail: string) | Received(body: string, parse: ParseOutcome)

  /** The errors `call_gemini_api` can return. */
  datatype CallError =
    | Transport(detail: string)
    | ApiReported(message: string)
    | NoContent
    | ParseFailure(reason: string)

  const Instruction: string :=
    "Paraphrase the following text while preserving its meaning and tone. Do not add any additional text, explanations, or formatting - just return the paraphrased version:"
  const Separator: string := "\n\n"
  const Endpoint: string :=
    "https://generativelanguage.googleapis.com/v1beta/models/gemini-2.0-flash:generateContent?key="
  const UnknownApiError: string := "Unknown API error"
  const ApiErrorPrefix: string := "Gemini API error: "
  const NoContentMessage: string := "No valid response content from Gemini API"
  const ParseErrorPrefix: string := "Failed to parse API response: "

  /** The prompt: the fixed instruction, a blank line, then the caller's
      text unchanged. */
  function Prompt(text: string): (p: string)
    ensures |p| == |Instruction| + |Separator| + |text|
    ensures p[..|Instruction|] == Instruction
    ensures p[|Instruction|..|Instruction| + |Separator|] == Separator
    ensures p[|p| - |text|..] == text
  {
    Instruction + Separator + text
  }

  /** The inverse of `Prompt`: the caller's text inside a prompt, if the
      prompt has the fixed header. */
  function PromptText(p: string): (t: Option<string>)
    ensures t.Some? ==> |t.value| + |Instruction| + |Separator| == |p|
  {
    var h := Instruction + Separator;
    if |h| <= |p| && p[..|h|] == h then Some(p[|h|..]) else None
  }

  /** The caller's text can be read back from the prompt unchanged. */
  lemma PromptRoundTrip(text: string)
    ensures PromptText(Prompt(text)) == Some(text)
  {
  }

  /** Every prompt that `PromptText` accepts is `Prompt` of what it returns. */
  lemma PromptTextSound(p: string, text: string)
    requires PromptText(p) == Some(text)
    ensures Prompt(text) == p
  {
  }

  /** Distinct texts give distinct prompts. */
  lemma PromptInjective(a: string, b: string)
    requires Prompt(a) == Prompt(b)
    ensures a == b
  {
    PromptRoundTrip(a);
    PromptRoundTrip(b);
  }

  /** The request body: exactly one content holding exactly one part whose
      text is the prompt. */
  function BuildRequest(text: string): (req: GenerateRequest)
    ensures |req.contents| == 1 && |req.contents[0].parts| == 1
    ensures req.contents[0].parts[0].text == Prompt(text)
  {
    GenerateRequest([Content([Part(Prompt(text))])])
  }

  /** The prompt a request carries, when it has the single-content,
      single-part shape. */
  function SentPrompt(req: GenerateRequest): (p: Option<string>)
    ensures p.Some? <==> |req.contents| == 1 && |req.contents[0].parts| == 1
  {
    if |req.contents| == 1 && |req.contents[0].parts| == 1
    then Some(req.contents[0].parts[0].text)
    else None
  }

  /** The caller's text is recovered from the request that `BuildRequest`
      produced. */
  lemma RequestCarriesText(text: string)
    ensures SentPrompt(BuildRequest(text)).Some?
    ensures PromptText(SentPrompt(BuildRequest(text)).value) == Some(text)
  {
    PromptRoundTrip(text);
  }

  /** The endpoint URL with the API key as its `key` query parameter. */
  function RequestUrl(apiKey: string): (url: string)
    ensures |url| == |Endpoint| + |apiKey|
    ensures url[..|Endpoint|] == Endpoint && url[|Endpoint|..] == apiKey
  {
    Endpoint + apiKey
  }

  /** `candidates.first()` followed by `content.parts.first()`. */
  function FirstPartText(resp: GenerateResponse): (t: Option<string>)
    ensures t.Some? <==> |resp.candidates| > 0 && |resp.candidates[0].content.parts| > 0
    ensures t.Some? ==> t.value == resp.candidates[0].content.parts[0].text
  {
    if |resp.candidates| > 0 && |resp.candidates[0].content.parts| > 0
    then Some(resp.candidates[0].content.parts[0].text)
    else None
  }

  /** The post-parse decision of `call_gemini_api`. A success carries the
      first part of the first candidate exactly as received, and only when
      the reply parsed and reported no error. */
  function Interpret(p: ParseOutcome): (r: Result<string, CallError>)
    ensures r.Success? ==> p.Parsed? && p.response.error.None?
    ensures r.Success? ==>
              && |p.response.candidates| > 0 && |p.response.candidates[0].content.parts| > 0
              && r.value == p.response.candidates[0].content.parts[0].text
  {
    match p
    case ParseFailed(reason) => Failure(ParseFailure(reason))
    case Parsed(resp) =>
      if resp.error.Some? then Failure(ApiReported(resp.error.value.message.GetOr(UnknownApiError)))
      else match FirstPartText(resp)
        case Some(t) => Success(t)
        case None => Failure(NoContent)
  }

  /** `call_gemini_api` from the HTTP outcome on. */
  function CallGemini(x: Exchange): (r: Result<string, CallError>)
    ensures r.Success? ==> x.Received? && x.parse.Parsed?
  {
    match x
    case TransportFailed(d) => Failure(Transport(d))
    case Received(_, p) => Interpret(p)
  }

  /** The display text of an error (`format!("{}", e)`). */
  function Display(e: CallError): (d: string)
  {
    match e
    case Transport(d) => d
    case ApiReported(m) => ApiErrorPrefix + m
    case NoContent => NoContentMessage
    case ParseFailure(m) => ParseErrorPrefix + m
  }

  /** A reply with an `error` is an error whatever its candidates hold; the
      message is the reported one, or "Unknown API error" when absent. */
  lemma ErrorTakesPrecedence(cands: seq<Candidate>, info: ApiErrorInfo)
    ensures Interpret(Parsed(GenerateResponse(cands, Some(info))))
      == Failure(ApiReported(info.message.GetOr(UnknownApiError)))
    ensures info.message.None? ==>
      Display(Interpret(Parsed(GenerateResponse(cands, Some(info)))).error)
      == "Gemini API error: Unknown API error"
  {
  }

  /** Without an `error`, the outcome is a success exactly when the first
      candidate has a first part, and then it is that part's text; otherwise
      it is the no-content error. */
  lemma SuccessIffFirstPart(cands: seq<Candidate>)
    ensures var r := Interpret(Parsed(GenerateResponse(cands, None)));
      (r.Success? <==> |cands| > 0 && |cands[0].content.parts| > 0)
      && (r.Success? ==> r.value == cands[0].content.parts[0].text)
      && (r.Failure? ==> r.error == NoContent && Display(r.error) == NoContentMessage)
  {
  }

  /** Candidates after the first are never consulted. */
  lemma OnlyFirstCandidateMatters(c: Candidate, rest: seq<Candidate>, err: Option<ApiErrorInfo>)
    ensures Interpret(Parsed(GenerateResponse([c] + rest, err)))
      == Interpret(Parsed(GenerateResponse([c], err)))
  {
  }

  /** A parse failure reports the parser's message; for a given parser
      message, the body has no further influence on the result. */
  lemma ParseFailureHidesBody(body1: string, body2: string, reason: string)
    ensures CallGemini(Received(body1, ParseFailed(reason))) == Failure(ParseFailure(reason))
    ensures CallGemini(Received(body1, ParseFailed(reason))) == CallGemini(Received(body2, ParseFailed(reason)))
    ensures Display(ParseFailure(reason)) == ParseErrorPrefix + reason
  {
  }

  /** Apart from transport failures, whose text is opaque, the display text
      of an error determines the error. */
  lemma {:induction false} DisplayDeterminesError(e1: CallError, e2: CallError)
    requires !e1.Transport? && !e2.Transport?
    requires Display(e1) == Display(e2)
    ensures e1 == e2
  {
    var d := Display(e1);
    assert ApiErrorPrefix[0] == 'G' && NoContentMessage[0] == 'N' && ParseErrorPrefix[0] == 'F';
    match e1
    case ApiReported(m) =>
      assert d[0] == 'G';
      assert d[|ApiErrorPrefix|..] == m;
    case ParseFailure(m) =>
      assert d[0] == 'F';
      assert d[|ParseErrorPrefix|..] == m;
    case NoContent =>
      assert d[0] == 'N';
  }
}
