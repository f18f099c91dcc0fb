# Paraphrase gateway — a Dafny model

This project models the request/response translation of the AI paraphrasing
backend. It exists twice in the repository. The Shuttle-hosted backend
(`backend/ai-paraphrase-backend/src/main.rs`) keeps the Gemini API key in
read-only application state. The stand-alone Actix backend
(`backend/src/main.rs`) looks the key up in the environment on every request,
and reads HOST and PORT at startup.

For one `POST /api/paraphrase` request, the model covers:

- input validation: blank text is answered 400 `Text cannot be empty`;
- construction of the prompt and of the single-content, single-part
  `generateContent` request;
- the ordered decision on the parsed Gemini reply: parse failure, then
  reported `error`, then the first part of the first candidate, then "no
  valid content";
- the mapping of the outcome to 200 `{paraphrased}` or 500
  `{error: "Failed to paraphrase text: …"}`;
- for the stand-alone backend, the earlier "API key not configured" check
  and the HOST/PORT defaults with Rust's `u16` parsing.

Modules:

- `Wrappers`: Option and Result.
- `Whitespace`: Rust's `char::is_whitespace` (the Unicode White_Space
  property, written out) and `str::trim`.
- `Gemini`: the request and reply shapes, the prompt, and
  `call_gemini_api` from the HTTP outcome on.
- `Gateway`: the HTTP responses and the handler both backends share.
- `ShuttleBackend` and `EnvBackend`: the two entry points.
- `Variants`: proof that the two entry points agree.

The HTTP call and `serde_json::from_str` are not written out. The handler
takes a function `upstream: Outbound -> Exchange`, which says what the Gemini
API answers to a given request: either a transport failure with its opaque
display text, or a body together with the outcome of parsing it. Each handler
returns a `Handled` value. Its `sent` field records the request that went out,
if one did, so "the upstream is not called" is stated as `sent == None`.

Behaviour worth knowing, as the code has it:

- The prompt's instruction uses an ASCII hyphen (`formatting - just`).
- An API error reaches the caller as `Failed to paraphrase text: Gemini API
  error: <message>`. For example, a `quota exceeded` message becomes
  `Failed to paraphrase text: Gemini API error: quota exceeded`.
- The no-content message is `No valid response content from Gemini API`.
- The stand-alone backend checks the API key on each request and answers 500
  when it is missing; it does not check the key at startup.
- An invalid PORT stops the stand-alone backend with the panic message
  `PORT must be a number: ParseIntError { kind: <kind> }`. The kind is
  `Empty`, `InvalidDigit` or `PosOverflow`; it follows the digit loop of
  the current Rust standard library, which for each byte checks the digit
  before it checks for overflow.

## Model

| member | source | states |
|---|---|---|
| `Whitespace.IsWs` | backend/ai-paraphrase-backend/src/main.rs:115 | `char::is_whitespace`: the Unicode White_Space set U+0009..U+000D, U+0020, U+0085, U+00A0, U+1680, U+2000..U+200A, U+2028, U+2029, U+202F, U+205F, U+3000. |
| `Whitespace.IsBlank` | backend/ai-paraphrase-backend/src/main.rs:115 | `text.trim().is_empty()`; `BlankIffAllWhitespace` shows it holds exactly for all-whitespace text. |
| `Whitespace.TrimStart` | backend/ai-paraphrase-backend/src/main.rs:115 | Removing leading whitespace never lengthens the text. |
| `Whitespace.TrimEnd` | backend/ai-paraphrase-backend/src/main.rs:115 | Removing trailing whitespace never lengthens the text. |
| `Whitespace.TrimStartSpec` | backend/ai-paraphrase-backend/src/main.rs:115 | What leading-trim drops is a whitespace prefix. What it keeps is the rest of the text, and that does not start with whitespace. |
| `Whitespace.TrimEndSpec` | backend/ai-paraphrase-backend/src/main.rs:115 | What trailing-trim drops is a whitespace suffix. What it keeps is the start of the text, and that does not end with whitespace. |
| `Whitespace.Trim` | backend/ai-paraphrase-backend/src/main.rs:115 | `str::trim` never lengthens the text. |
| `Whitespace.TrimIsSlice` | backend/ai-paraphrase-backend/src/main.rs:115 | `trim` returns a contiguous slice of the text. The slice neither starts nor ends with whitespace, and everything removed on both sides is whitespace. |
| `Whitespace.TrimIdempotent` | backend/ai-paraphrase-backend/src/main.rs:115 | Trimming an already trimmed text changes nothing. |
| `Whitespace.BlankIffAllWhitespace` | backend/ai-paraphrase-backend/src/main.rs:115 | `text.trim().is_empty()` holds exactly when every character is whitespace, the empty text included (both directions). |
| `Gemini.Prompt` | backend/ai-paraphrase-backend/src/main.rs:122 | The prompt is the fixed instruction, then `"\n\n"`, then the caller's text. The text is a suffix of the prompt. |
| `Gemini.PromptText` | backend/ai-paraphrase-backend/src/main.rs:122 | The inverse of the prompt format: the text it extracts is as long as the prompt minus the header. |
| `Gemini.PromptRoundTrip` | backend/ai-paraphrase-backend/src/main.rs:122 | The caller's text is read back from its prompt unchanged. |
| `Gemini.PromptTextSound` | backend/ai-paraphrase-backend/src/main.rs:122 | Every prompt with the header is the prompt of the text it carries. |
| `Gemini.PromptInjective` | backend/src/main.rs:125 | Two texts with the same prompt are equal; the text is embedded verbatim. |
| `Gemini.BuildRequest` | backend/ai-paraphrase-backend/src/main.rs:124-128 | The request has exactly one content, holding exactly one part whose text is the prompt. |
| `Gemini.SentPrompt` | backend/src/main.rs:127-131 | A request yields a prompt exactly when it has the one-content, one-part shape. |
| `Gemini.RequestCarriesText` | backend/src/main.rs:125-131 | The caller's text is recovered exactly from the built request. |
| `Gemini.RequestUrl` | backend/ai-paraphrase-backend/src/main.rs:151 | The URL is the `gemini-2.0-flash:generateContent` endpoint, with the API key as the `key` query parameter at its end. |
| `Gemini.FirstPartText` | backend/ai-paraphrase-backend/src/main.rs:178-182 | There is a text exactly when there is a first candidate with a first part, and then it is that part's text. |
| `Gemini.Interpret` | backend/ai-paraphrase-backend/src/main.rs:168-190 | A success happens only for a reply that parsed and reported no error. It carries the first candidate's first part text, unchanged. |
| `Gemini.CallGemini` | backend/ai-paraphrase-backend/src/main.rs:155-190 | A success requires the transport to succeed and the body to parse. |
| `Gemini.ErrorTakesPrecedence` | backend/ai-paraphrase-backend/src/main.rs:171-175 | A reply carrying `error` is an error whatever its candidates hold. Its message is the reported one, or `Gemini API error: Unknown API error` when absent. |
| `Gemini.SuccessIffFirstPart` | backend/ai-paraphrase-backend/src/main.rs:178-184 | Without `error`, the result is a success exactly when the first candidate has a part, and then it is that part's text. Otherwise it is `No valid response content from Gemini API`. |
| `Gemini.OnlyFirstCandidateMatters` | backend/src/main.rs:181-187 | Candidates after the first never change the outcome. |
| `Gemini.ParseFailureHidesBody` | backend/ai-paraphrase-backend/src/main.rs:186-189 | A parse failure gives `Failed to parse API response: ` plus the parser's message. For a given parser message, the body has no further influence on the result. |
| `Gemini.Display` | backend/ai-paraphrase-backend/src/main.rs:172-188 | The display texts of the `anyhow!` errors: `Gemini API error: ` plus the message, the no-content text, `Failed to parse API response: ` plus the parser's message, and the transport error's own text. `DisplayDeterminesError` shows the non-transport texts are distinct. |
| `Gemini.DisplayDeterminesError` | backend/src/main.rs:174-192 | Apart from transport errors, the error's display text determines the error kind and its message. |
| `Gateway.Respond` | backend/ai-paraphrase-backend/src/main.rs:133-145 | Success maps to 200 with `paraphrased` equal to the text. Every error maps to 500 with `Failed to paraphrase text: ` plus its display text. No other status occurs. |
| `Gateway.ErrorBodyDeterminesError` | backend/src/main.rs:142-148 | Apart from transport errors, the 500 body determines the error kind and its message. |
| `Gateway.Serve` | backend/ai-paraphrase-backend/src/main.rs:111-146 | Blank text gives 400 `Text cannot be empty` and no request. Otherwise exactly one request goes out, to the key's URL with the built body, and the response maps its outcome. The status is always 200, 400 or 500. |
| `Gateway.BlankTextRejected` | backend/ai-paraphrase-backend/src/main.rs:115-119 | All-whitespace or empty text gives 400 `Text cannot be empty`, and nothing is sent upstream. |
| `Gateway.TextForwardedVerbatim` | backend/ai-paraphrase-backend/src/main.rs:122-128 | Non-blank text produces one content with one part. The prompt ends with the text, and the text is recovered from it exactly. |
| `Gateway.FirstPartReturnedVerbatim` | backend/ai-paraphrase-backend/src/main.rs:178-181 | Without `error`, a first candidate with a part gives 200 with that part's text, byte for byte. |
| `Gateway.ApiErrorReported` | backend/ai-paraphrase-backend/src/main.rs:171-175 | A reported error gives 500 `Failed to paraphrase text: Gemini API error: <message or Unknown API error>`, even when candidates are present. |
| `Gateway.NoContentReported` | backend/ai-paraphrase-backend/src/main.rs:178-184 | Zero candidates, or a first candidate without parts, gives 500 `Failed to paraphrase text: No valid response content from Gemini API`. |
| `Gateway.ParseFailureReported` | backend/ai-paraphrase-backend/src/main.rs:186-189 | An unparsable reply gives 500 `Failed to paraphrase text: Failed to parse API response: <parser message>`, whatever the body. |
| `Gateway.TransportFailureReported` | backend/ai-paraphrase-backend/src/main.rs:155-161 | A failed send or body read gives 500 `Failed to paraphrase text: <transport error text>`. |
| `Gateway.Health` | backend/ai-paraphrase-backend/src/main.rs:193-195 | The health check always answers 200 `Healthy`. |
| `ShuttleBackend.Paraphrase` | backend/ai-paraphrase-backend/src/main.rs:111-146 | The Shuttle handler validates, then sends one request to the URL for the key held in the state, then maps the outcome. The status is always 200, 400 or 500. |
| `EnvBackend.Paraphrase` | backend/src/main.rs:106-149 | With no key the answer is 500 `API key not configured` and nothing is sent. With a key, blank text gives 400, and other text sends one request to that key's URL and maps the outcome. The status is always 200, 400 or 500. |
| `EnvBackend.MissingKeyBeforeValidation` | backend/src/main.rs:107-122 | The key check comes first: blank text with no key gives 500 `API key not configured`, and blank text with any key gives 400 `Text cannot be empty`. Nothing is sent in either case. |
| `EnvBackend.DigitsValue` | backend/src/main.rs:211 | The reference value of a decimal digit string, most significant digit first. |
| `EnvBackend.Unsigned` | backend/src/main.rs:211 | The digits `parse::<u16>` reads: a leading `+` is skipped. The result is never longer than the input. |
| `EnvBackend.IsU16Numeral` | backend/src/main.rs:211 | What `parse::<u16>` accepts: an optional `+`, at least one ASCII digit, and a value below 65536. |
| `EnvBackend.Accumulate` | backend/src/main.rs:211 | The digit loop of `u16::from_str`. A success means every character was a digit, and the value never falls below the accumulator. |
| `EnvBackend.ParseU16` | backend/src/main.rs:211 | `parse::<u16>`: the empty string gives `Empty`, a lone sign gives `InvalidDigit`, and otherwise the digit loop runs after an optional `+`. A success means a non-empty digit string was read. |
| `EnvBackend.DigitsValueFront` | backend/src/main.rs:211 | Putting a digit in front of a numeral adds the digit times the numeral's power of ten. |
| `EnvBackend.AccumulateValue` | backend/src/main.rs:211 | On a digit string the loop returns the reference value, or `PosOverflow` exactly when that value is 65536 or more. |
| `EnvBackend.AccumulateInvalid` | backend/src/main.rs:211 | A non-digit that the loop reaches before any overflow is possible gives `InvalidDigit`. |
| `EnvBackend.ParseU16Spec` | backend/src/main.rs:211 | Parsing succeeds exactly on `IsU16Numeral` strings (both directions), and then yields their value. Too large a digit string gives `PosOverflow`. This covers `"08080"` and `"+0080"` too. |
| `EnvBackend.ParseU16RejectsNonDigit` | backend/src/main.rs:211 | A PORT with any character other than an ASCII digit after its optional `+` is rejected. When the part after the optional `+` is at most four characters long, the kind is `InvalidDigit`. |
| `EnvBackend.ParseU16RejectsOverflow` | backend/src/main.rs:211 | A digit string whose value is 65536 or more gives `PosOverflow`. |
| `EnvBackend.Decimal` | backend/src/main.rs:209-212 | The reference numeral of a number: a non-empty digit string whose value is the number, with no leading zero unless the number is below 10. |
| `EnvBackend.ParseU16RoundTrip` | backend/src/main.rs:211 | Every port number parses back from its decimal numeral, with or without a leading `+`. |
| `EnvBackend.LeadingZeroValue` | backend/src/main.rs:211 | A leading zero does not change the value of a digit string. |
| `EnvBackend.LeadingZeroIgnored` | backend/src/main.rs:211 | `parse::<u16>` gives a digit string with a leading zero the same result as the string itself: the same value, or the same overflow. |
| `EnvBackend.PanicMessage` | backend/src/main.rs:212 | The `expect` panic text starts with `PORT must be a number`. |
| `EnvBackend.PanicMessageDeterminesKind` | backend/src/main.rs:212 | The panic text `PORT must be a number: ParseIntError { kind: <kind> }` differs for each error kind. |
| `EnvBackend.LoadConfig` | backend/src/main.rs:208-212 | HOST defaults to `127.0.0.1` and PORT to `8080`. Startup succeeds exactly when the effective PORT is a u16 numeral, and then uses its value. Otherwise it stops with the panic message for the parse error's kind. |
| `EnvBackend.ConfigDefaults` | backend/src/main.rs:208-212 | With neither variable set, the result is 127.0.0.1:8080. `+8080` and `08080` give port 8080 too. |
| `EnvBackend.BadPortsRejected` | backend/src/main.rs:209-212 | PORT equal to the empty string, `+`, `-1` or `80a` stops startup with the panic for `Empty`, `InvalidDigit`, `InvalidDigit` and `InvalidDigit`. `65536` stops it with the panic for `PosOverflow`. |
| `Variants.BackendsAgree` | backend/src/main.rs:106-149 | With a key in the environment, the stand-alone backend answers every request exactly as the Shuttle backend holding that key does. |

## Left out

- Actix server setup, routing, `web::Json` extraction and the CORS policy (origins, methods, headers, max-age) are framework configuration, not gateway logic.
- The `reqwest` POST and the body read are networking. Their outcome enters the model as the `upstream` function, and any failure is an opaque display text.
- `serde_json::from_str` is a JSON parser. Its outcome enters as `ParseOutcome`. The informational reply fields (`usageMetadata`, `modelVersion`, `finishReason`, `citationMetadata`, `role`, `avgLogprobs`) are not modelled.
- The parser's message is an input. In the source it is computed from the body, and serde_json's type errors quote parts of it; those fragments reach the 500 body.
- `ApiErrorInfo.code` is an unbounded integer rather than an `i32`. The field is never read.
- The HTTP `status` of the upstream reply is only logged, so it is not modelled.
- Logging (`debug!`, `error!`), `env_logger` and the `RUST_LOG` setting are side effects with no effect on responses.
- `dotenv` fills the environment from a `.env` file before any variable is read. The model takes the resulting values as the `envKey`, `hostVar` and `portVar` inputs.
- LoadConfig: the `expect` panic is modelled as a `Failure` carrying the panic message. The process exit itself is not modelled.
- Loading the Shuttle secret at startup (`secrets.get(...).expect(...)`) is platform I/O. The model starts from the `AppState` it produces.
- An environment variable is `Some` when set to valid Unicode and `None` otherwise. The source handles a non-Unicode value the same way as an unset one.
- Concurrency between requests is not modelled. Each handler is a function of its own inputs and the read-only key, so no two requests can affect each other.
- The frontend (React UI, selection handling, axios call, tooltip geometry) is UI and I/O.
