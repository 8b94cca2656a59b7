/**
  The translation client: the error type and its hand-written equality, the
  HTTP request sent to the generative-language endpoint, and the ordered
  interpretation of what comes back.
 */
module GeminiService {
  import opened Wrappers
  import Text

  // ---------------------------------------------------------------------------
  // Errors

  /** The parts of a Foundation `NSError` the model keeps. */
  datatype NSError = NSError(domain: string, code: int, userInfo: map<string, string>)

  datatype TranslationError =
    | NoAPIKey
    | InvalidURL
    | NetworkError(cause: NSError)
    | DecodingError(cause: NSError)
    | ApiError(message: string)

  /** What `==` looks at: the case, and for the two wrapped errors only their
      domain and code (never their user info), for `apiError` its text. */
  function Identity(e: TranslationError): (int, string, int, string) {
    match e
    case NoAPIKey => (0, "", 0, "")
    case InvalidURL => (1, "", 0, "")
    case NetworkError(x) => (2, x.domain, x.code, "")
    case DecodingError(x) => (3, x.domain, x.code, "")
    case ApiError(s) => (4, "", 0, s)
  }

  /** The `==` operator of `TranslationError`. */
  function Equal(lhs: TranslationError, rhs: TranslationError): (b: bool)
    ensures b <==> Identity(lhs) == Identity(rhs)
  {
    match (lhs, rhs)
    case (NoAPIKey, NoAPIKey) => true
    case (InvalidURL, InvalidURL) => true
    case (NetworkError(e1), NetworkError(e2)) => e1.domain == e2.domain && e1.code == e2.code
    case (DecodingError(e1), DecodingError(e2)) => e1.domain == e2.domain && e1.code == e2.code
    case (ApiError(s1), ApiError(s2)) => s1 == s2
    case _ => false
  }

  /** `==` holds only between errors of the same case, and then exactly when
      the payloads agree as described. */
  lemma EqualByCase(lhs: TranslationError, rhs: TranslationError)
    ensures (lhs.NoAPIKey? && rhs.NoAPIKey?) ==> Equal(lhs, rhs)
    ensures (lhs.InvalidURL? && rhs.InvalidURL?) ==> Equal(lhs, rhs)
    ensures (lhs.NetworkError? && rhs.NetworkError?) ==>
              (Equal(lhs, rhs) <==> lhs.cause.domain == rhs.cause.domain && lhs.cause.code == rhs.cause.code)
    ensures (lhs.DecodingError? && rhs.DecodingError?) ==>
              (Equal(lhs, rhs) <==> lhs.cause.domain == rhs.cause.domain && lhs.cause.code == rhs.cause.code)
    ensures (lhs.ApiError? && rhs.ApiError?) ==> (Equal(lhs, rhs) <==> lhs.message == rhs.message)
    ensures Equal(lhs, rhs) ==>
              (lhs.NoAPIKey? <==> rhs.NoAPIKey?) && (lhs.InvalidURL? <==> rhs.InvalidURL?) &&
              (lhs.NetworkError? <==> rhs.NetworkError?) && (lhs.DecodingError? <==> rhs.DecodingError?) &&
              (lhs.ApiError? <==> rhs.ApiError?)
  {
  }

  /** `==` is an equivalence relation, as `Equatable` requires, though it is
      coarser than structural equality: the user info is ignored. */
  lemma EqualIsEquivalence(a: TranslationError, b: TranslationError, c: TranslationError)
    ensures Equal(a, a)
    ensures Equal(a, b) ==> Equal(b, a)
    ensures Equal(a, b) && Equal(b, c) ==> Equal(a, c)
    ensures a == b ==> Equal(a, b)
  {
  }

  // ---------------------------------------------------------------------------
  // The request

  const Endpoint := "https://generativelanguage.googleapis.com/v1beta/models/gemini-flash-latest:generateContent"
  const AutoLanguage := "Auto"
  const Instruction := ". Only provide the translated text, no explanations or quotes:\n\n"

  /** A JSON value, as the tree `JSONSerialization` is given. */
  datatype Json = JString(s: string) | JArray(items: seq<Json>) | JObject(fields: map<string, Json>)

  /** The parts of a `URLRequest` the client sets. A fresh `URLRequest` has
      the method "GET", no header fields and no body. */
  datatype HttpRequest = HttpRequest(
    url: string,
    httpMethod: string,
    headers: seq<(string, string)>,
    body: Option<Json>)

  /** The address: the endpoint, then the key as query parameter `key`. */
  function RequestURL(apiKey: string): string {
    Endpoint + "?key=" + apiKey
  }

  /** The words before the text in the prompt: with "Auto" as source language
      the source is not named. */
  function PromptHeader(sourceLang: string, targetLang: string): string {
    if sourceLang == AutoLanguage then
      "Translate the following text to " + targetLang + Instruction
    else
      "Translate the following text from " + sourceLang + " to " + targetLang + Instruction
  }

  /** The prompt sent to the model: the instruction, two newlines, the text. */
  function Prompt(text: string, sourceLang: string, targetLang: string): (p: string)
    ensures |p| >= |text| + 2
    ensures p[|p| - |text|..] == text
    ensures p[|p| - |text| - 2..|p| - |text|] == "\n\n"
  {
    PromptHeader(sourceLang, targetLang) + text
  }

  /** The text a prompt for the given languages was made from, if it is one. */
  function OriginalText(prompt: string, sourceLang: string, targetLang: string): Option<string> {
    var header := PromptHeader(sourceLang, targetLang);
    if |header| <= |prompt| && prompt[..|header|] == header then Some(prompt[|header|..]) else None
  }

  /** The prompt keeps the original text whole: it can be read back. */
  lemma PromptRoundTrip(text: string, sourceLang: string, targetLang: string)
    ensures OriginalText(Prompt(text, sourceLang, targetLang), sourceLang, targetLang) == Some(text)
  {
    var header := PromptHeader(sourceLang, targetLang);
    var p := Prompt(text, sourceLang, targetLang);
    assert p[..|header|] == header;
    assert p[|header|..] == text;
  }

  /** The prompt names the source language unless it is "Auto". */
  lemma PromptNamesSource(text: string, sourceLang: string, targetLang: string)
    ensures var p := Prompt(text, sourceLang, targetLang);
            if sourceLang == AutoLanguage then
              p == "Translate the following text to " + targetLang + Instruction + text
            else
              p == "Translate the following text from " + sourceLang + " to " + targetLang + Instruction + text
  {
  }

  /** The body `{"contents": [{"parts": [{"text": prompt}]}]}`. */
  function RequestBody(prompt: string): (j: Json)
    ensures BodyPrompt(j) == Some(prompt)
  {
    JObject(map["contents" := JArray([JObject(map["parts" := JArray([JObject(map["text" := JString(prompt)])])])])])
  }

  /** Reads a body back: `Some(text)` exactly for an object whose only key is
      "contents", holding exactly one content whose only key is "parts",
      holding exactly one part whose only key is "text", a string. */
  function BodyPrompt(j: Json): Option<string> {
    if !(j.JObject? && j.fields.Keys == {"contents"}) then None else
    var contents := j.fields["contents"];
    if !(contents.JArray? && |contents.items| == 1) then None else
    var content := contents.items[0];
    if !(content.JObject? && content.fields.Keys == {"parts"}) then None else
    var parts := content.fields["parts"];
    if !(parts.JArray? && |parts.items| == 1) then None else
    var part := parts.items[0];
    if !(part.JObject? && part.fields.Keys == {"text"} && part.fields["text"].JString?) then None else
    Some(part.fields["text"].s)
  }

  /** `makeRequest`: builds the request step by step. `parsesAsURL` stands for
      `URL(string:)` succeeding and `serializes` for `JSONSerialization`
      succeeding; when either fails there is no request. */
  method MakeRequest(text: string, sourceLang: string, targetLang: string, apiKey: string,
                     parsesAsURL: string -> bool, serializes: Json -> bool)
    returns (r: Option<HttpRequest>)
    ensures r.Some? <==> parsesAsURL(RequestURL(apiKey)) && serializes(RequestBody(Prompt(text, sourceLang, targetLang)))
    ensures r.Some? ==> r.value.url == Endpoint + "?key=" + apiKey
    ensures r.Some? ==> r.value.httpMethod == "POST"
    ensures r.Some? ==> r.value.headers == [("Content-Type", "application/json")]
    ensures r.Some? ==> r.value.body == Some(RequestBody(Prompt(text, sourceLang, targetLang)))
    ensures r.Some? ==> BodyPrompt(r.value.body.value) == Some(Prompt(text, sourceLang, targetLang))
  {
    var urlString := RequestURL(apiKey);
    if !parsesAsURL(urlString) {
      return None;
    }
    var request := HttpRequest(urlString, "GET", [], None);
    request := request.(httpMethod := "POST");
    request := request.(headers := request.headers + [("Content-Type", "application/json")]);
    var prompt := Prompt(text, sourceLang, targetLang);
    var json := RequestBody(prompt);
    if !serializes(json) {
      return None;
    }
    request := request.(body := Some(json));
    return Some(request);
  }

  // ---------------------------------------------------------------------------
  // The reply

  datatype Part = Part(text: string)
  datatype Content = Content(parts: seq<Part>)
  datatype Candidate = Candidate(content: Content)

  /** The decoded response: optional candidates and an optional error object,
      of which only the message is kept. */
  datatype GeminiResponse = GeminiResponse(candidates: Option<seq<Candidate>>, error: Option<string>)

  /** The data received: it decodes as a response, or decoding throws. */
  datatype Payload = Decodes(response: GeminiResponse) | FailsToDecode(cause: NSError)

  /** What the data task hands its completion: optional data, optional error. */
  datatype Reply = Reply(data: Option<Payload>, error: Option<NSError>)

  /** `candidates?.first?.content.parts.first?.text`. */
  function FirstCandidateText(response: GeminiResponse): (t: Option<string>)
    ensures t.Some? <==> response.candidates.Some? && |response.candidates.value| > 0 &&
                         |response.candidates.value[0].content.parts| > 0
    ensures t.Some? ==> t.value == response.candidates.value[0].content.parts[0].text
  {
    match response.candidates
    case None => None
    case Some(cs) =>
      if cs == [] || cs[0].content.parts == [] then None else Some(cs[0].content.parts[0].text)
  }

  /** The data task's completion in `translate`: the checks in their order. */
  function InterpretReply(reply: Reply): (r: Result<string, TranslationError>)
    ensures reply.error.Some? ==> r == Failure(NetworkError(reply.error.value))
    ensures r.Success? <==>
              reply.error.None? && reply.data.Some? && reply.data.value.Decodes? &&
              reply.data.value.response.error.None? &&
              FirstCandidateText(reply.data.value.response).Some?
    ensures r.Success? ==> r.value == Text.Trim(FirstCandidateText(reply.data.value.response).value)
    ensures r.Failure? ==> r.error.NetworkError? || r.error.DecodingError? || r.error.ApiError?
  {
    match reply.error
    case Some(e) => Failure(NetworkError(e))
    case None =>
      match reply.data
      case None => Failure(ApiError("No data received"))
      case Some(FailsToDecode(e)) => Failure(DecodingError(e))
      case Some(Decodes(response)) =>
        match response.error
        case Some(message) => Failure(ApiError("API Error: " + message))
        case None =>
          match FirstCandidateText(response)
          case Some(t) => Success(Text.Trim(t))
          case None => Failure(ApiError("No candidates returned"))
  }

  /** The failures the reply can produce, case by case; an error object in the
      response wins over any candidates it also carries. */
  lemma ReplyFailures(reply: Reply)
    ensures reply.error.None? && reply.data.None? ==>
              InterpretReply(reply) == Failure(ApiError("No data received"))
    ensures reply.error.None? && reply.data.Some? && reply.data.value.FailsToDecode? ==>
              InterpretReply(reply) == Failure(DecodingError(reply.data.value.cause))
    ensures reply.error.None? && reply.data.Some? && reply.data.value.Decodes? &&
            reply.data.value.response.error.Some? ==>
              InterpretReply(reply) == Failure(ApiError("API Error: " + reply.data.value.response.error.value))
    ensures reply.error.None? && reply.data.Some? && reply.data.value.Decodes? &&
            reply.data.value.response.error.None? &&
            FirstCandidateText(reply.data.value.response).None? ==>
              InterpretReply(reply) == Failure(ApiError("No candidates returned"))
  {
  }

  /** A successful translation carries no white space at either end, and is
      non-empty unless the model's text was all white space. */
  lemma TranslationIsTrimmed(reply: Reply)
    requires InterpretReply(reply).Success?
    ensures var t := InterpretReply(reply).value;
            Text.Trim(t) == t &&
            (t == [] <==> Text.AllWhitespace(FirstCandidateText(reply.data.value.response).value))
  {
    Text.TrimIdempotent(FirstCandidateText(reply.data.value.response).value);
  }

  /** `translate`: the key stored under "GeminiAPIKey" (absent reads as ""),
      then the request, then the reply from `send`, which stands for the data
      task. Besides the result it yields the request sent, if any. */
  method Translate(text: string, sourceLang: string, targetLang: string, storedKey: Option<string>,
                   parsesAsURL: string -> bool, serializes: Json -> bool, send: HttpRequest -> Reply)
    returns (result: Result<string, TranslationError>, sent: Option<HttpRequest>)
    ensures storedKey.GetOr("") == "" ==> result == Failure(NoAPIKey) && sent.None?
    ensures storedKey.GetOr("") != "" && sent.None? ==> result == Failure(InvalidURL)
    ensures sent.Some? <==>
              storedKey.GetOr("") != "" && parsesAsURL(RequestURL(storedKey.value)) &&
              serializes(RequestBody(Prompt(text, sourceLang, targetLang)))
    ensures sent.Some? ==>
              sent.value.url == RequestURL(storedKey.value) && sent.value.httpMethod == "POST" &&
              sent.value.headers == [("Content-Type", "application/json")] &&
              sent.value.body == Some(RequestBody(Prompt(text, sourceLang, targetLang)))
    ensures sent.Some? ==> result == InterpretReply(send(sent.value))
  {
    var apiKey := storedKey.GetOr("");
    if apiKey == "" {
      return Failure(NoAPIKey), None;
    }
    var request := MakeRequest(text, sourceLang, targetLang, apiKey, parsesAsURL, serializes);
    if request.None? {
      return Failure(InvalidURL), None;
    }
    result := InterpretReply(send(request.value));
    sent := request;
  }
}
