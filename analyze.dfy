/** The `POST /api/analyze` route of server.ts: it rejects a falsy
    `documentsText`, runs the text through an encrypt-then-decrypt step,
    embeds it in a fixed prompt, posts the prompt to the Ollama generate
    endpoint, cuts the span from the first `{` to the last `}` out of the
    reply, parses it and returns the parsed value; every failure after the
    guard becomes one fixed 500 response.

    The cipher, the HTTP client and `JSON.parse` are collaborators this
    model does not interpret: they are the fields of `Collaborators`. */
module AnalyzeRoute {
  import opened Types
  import opened JsString

  /** A JSON value as `express.json` and `JSON.parse` produce it. */
  datatype Json =
    | JNull
    | JBool(b: bool)
    | JNum(n: real)
    | JStr(s: string)
    | JArray(items: seq<Json>)
    | JObject(fields: seq<(string, Json)>)

  /** JavaScript falsiness of the `documentsText` field; `None` is a field
      that is absent from the request body (undefined). Only an absent field,
      `null`, `false`, `0` and `""` are falsy; every array and object,
      even an empty one, is truthy. */
  predicate Falsy(v: Option<Json>)
    ensures v.None? || v == Some(JNull) ==> Falsy(v)
    ensures v.Some? && v.value.JBool? ==> (Falsy(v) <==> !v.value.b)
    ensures v.Some? && v.value.JStr? ==> (Falsy(v) <==> v.value.s == "")
    ensures v.Some? && v.value.JNum? ==> (Falsy(v) <==> v.value.n == 0.0)
    ensures v.Some? && (v.value.JArray? || v.value.JObject?) ==> !Falsy(v)
    ensures Falsy(v) ==> v.None? || v.value.JNull? || v.value.JBool? || v.value.JNum? || v.value.JStr?
  {
    match v
    case None => true
    case Some(JNull) => true
    case Some(JBool(b)) => !b
    case Some(JNum(n)) => n == 0.0
    case Some(JStr(s)) => s == ""
    case Some(_) => false
  }

  const NoTextMessage := "No documents text provided"
  const FailureMessage := "Failed to analyze documents securely.LLama model overload"
  const DefaultOllamaUrl := "http://localhost:11434/api/generate"
  const ModelName := "llama3"

  /** The part of the prompt before the documents' text. */
  const PromptHead :=
    "\nYou are a professional property legal verification AI.\n\n"
    + "Analyze the following property documents and generate a structured JSON verification report.\n\n"
    + "Documents Content:\n"

  /** The part of the prompt after the documents' text: the report schema. */
  const PromptTail :=
    "\n\nReturn ONLY valid JSON in this format:\n\n"
    + "{\n"
    + "  \"propertySummary\": \"string\",\n"
    + "  \"ownershipTimeline\": [\n"
    + "    {\n"
    + "      \"year\": \"string\",\n"
    + "      \"event\": \"string\",\n"
    + "      \"party\": \"string\",\n"
    + "      \"details\": \"string\"\n"
    + "    }\n"
    + "  ],\n"
    + "  \"risks\": [\n"
    + "    {\n"
    + "      \"type\": \"Legal | Financial | Structural | Ownership\",\n"
    + "      \"severity\": \"Low | Medium | High\",\n"
    + "      \"description\": \"string\",\n"
    + "      \"recommendation\": \"string\"\n"
    + "    }\n"
    + "  ],\n"
    + "  \"riskScore\": number,\n"
    + "  \"categoryScores\": {\n"
    + "    \"Legal\": number,\n"
    + "    \"Financial\": number,\n"
    + "    \"Structural\": number,\n"
    + "    \"Ownership\": number\n"
    + "  },\n"
    + "  \"legalStatus\": \"string\",\n"
    + "  \"surveyDetails\": \"string\"\n"
    + "}\n"

  datatype HttpResponse = HttpResponse(status: nat, body: Json)

  /** The body `{ error: msg }`. */
  function ErrorBody(msg: string): Json
  {
    JObject([("error", JStr(msg))])
  }

  /** The JSON body posted to the model: `{ model, prompt, stream }`, sent to `url`. */
  datatype LlmRequest = LlmRequest(url: string, model: string, prompt: string, stream: bool)

  /** What the HTTP call yields: a failure (network error or error status),
      or a reply whose `response` field is a string (`Some`) or is not. */
  datatype LlmReply = UpstreamFailure | LlmReply(response: Option<string>)

  /** The route's environment and the steps it delegates.
      `ollamaUrl` is `process.env.OLLAMA_URL`; `cryptoSucceeds` says whether
      encrypting the text and decrypting the payload went through (when it
      does, the decrypted text is the text received); `llm` is the HTTP call;
      `parse` is `JSON.parse`, `None` where it throws. */
  datatype Collaborators = Collaborators(
    ollamaUrl: Option<string>,
    cryptoSucceeds: bool,
    llm: LlmRequest -> LlmReply,
    parse: string -> Option<Json>)

  /** What one request does: the response it sends, the request it posted
      to the model if it got that far, and whether it called `encrypt`. */
  datatype Outcome = Outcome(response: HttpResponse, sent: Option<LlmRequest>, encryptCalled: bool)

  /** The prompt: the documents' text embedded verbatim between a fixed head
      and a fixed tail. */
  function Prompt(text: string): (p: string)
    ensures |p| == |PromptHead| + |text| + |PromptTail|
    ensures p[..|PromptHead|] == PromptHead
    ensures p[|PromptHead|..|PromptHead| + |text|] == text
    ensures p[|PromptHead| + |text|..] == PromptTail
  {
    PromptHead + text + PromptTail
  }

  /** Reads the documents' text back out of a prompt, if it is one. */
  function PromptText(p: string): Option<string>
  {
    if |p| >= |PromptHead| + |PromptTail|
       && p[..|PromptHead|] == PromptHead
       && p[|p| - |PromptTail|..] == PromptTail
    then Some(p[|PromptHead|..|p| - |PromptTail|])
    else None
  }

  /** The text can be recovered from the prompt, so no two texts share one. */
  lemma PromptRoundTrip(text: string)
    ensures PromptText(Prompt(text)) == Some(text)
  {
    var p := Prompt(text);
    assert |p| - |PromptTail| == |PromptHead| + |text|;
  }

  /** `process.env.OLLAMA_URL || DefaultOllamaUrl`: an unset or empty
      variable falls back to the local default. */
  function OllamaUrl(env: Option<string>): (url: string)
    ensures env == None ==> url == DefaultOllamaUrl
    ensures env == Some("") ==> url == DefaultOllamaUrl
    ensures env.Some? && env.value != "" ==> url == env.value
  {
    match env
    case Some(u) => if u != "" then u else DefaultOllamaUrl
    case None => DefaultOllamaUrl
  }

  /** The request posted to the model for the given text. */
  function BuildRequest(text: string, env: Option<string>): (req: LlmRequest)
    ensures req.url == OllamaUrl(env)
    ensures req.model == "llama3" && !req.stream
    ensures PromptText(req.prompt) == Some(text)
  {
    PromptRoundTrip(text);
    LlmRequest(OllamaUrl(env), ModelName, Prompt(text), false)
  }

  /** `rawText.substring(rawText.indexOf("{"), rawText.lastIndexOf("}") + 1)`,
      with each of the cases the clamping and swapping of `substring` gives. */
  function JsonSpan(raw: string): (span: string)
    ensures '{' !in raw && '}' !in raw ==> span == ""
    ensures '{' in raw && '}' !in raw ==> span == raw[..IndexOf(raw, '{')]
    ensures '{' !in raw && '}' in raw ==> span == raw[..LastIndexOf(raw, '}') + 1]
    ensures '{' in raw && '}' in raw && IndexOf(raw, '{') < LastIndexOf(raw, '}') ==>
              span == raw[IndexOf(raw, '{')..LastIndexOf(raw, '}') + 1]
    ensures '{' in raw && '}' in raw && LastIndexOf(raw, '}') < IndexOf(raw, '{') ==>
              span == raw[LastIndexOf(raw, '}') + 1..IndexOf(raw, '{')]
  {
    var jsonStart := IndexOf(raw, '{');
    var jsonEnd := LastIndexOf(raw, '}');
    Substring(raw, jsonStart, jsonEnd + 1)
  }

  /** Whenever the reply splits into a part with no `{`, a span that opens
      with `{` and closes with `}`, and a part with no `}`, that span is the
      one extracted, whatever braces it holds inside. */
  lemma JsonSpanFirstToLast(raw: string, pre: string, body: string, post: string)
    requires raw == pre + body + post
    requires '{' !in pre && '}' !in post
    requires |body| >= 2 && body[0] == '{' && body[|body| - 1] == '}'
    ensures JsonSpan(raw) == body
  {
    var i := |pre|;
    var j := |pre| + |body| - 1;
    assert raw[i] == '{' && raw[..i] == pre;
    assert raw[j] == '}' && raw[j + 1..] == post;
    IndexOfIsFirst(raw, '{', i);
    LastIndexOfIsLast(raw, '}', j);
    assert raw[i..j + 1] == body;
  }

  /** Conversely, when a `{` comes before the last `}`, the reply is what
      precedes the extracted span, the span, and what follows it: nothing
      before it holds a `{`, nothing after it a `}`. */
  lemma JsonSpanDecomposes(raw: string)
    requires '{' in raw && '}' in raw && IndexOf(raw, '{') < LastIndexOf(raw, '}')
    ensures var i, j := IndexOf(raw, '{'), LastIndexOf(raw, '}');
            && raw == raw[..i] + JsonSpan(raw) + raw[j + 1..]
            && '{' !in raw[..i] && '}' !in raw[j + 1..]
            && JsonSpan(raw)[0] == '{' && JsonSpan(raw)[|JsonSpan(raw)| - 1] == '}'
  {
    var i, j := IndexOf(raw, '{'), LastIndexOf(raw, '}');
    SliceSplit(raw, i, j + 1);
    SliceEnds(raw, i, j + 1);
  }

  /** A string is the concatenation of its three slices at i and j. */
  lemma SliceSplit(s: string, i: nat, j: nat)
    requires i <= j <= |s|
    ensures s == s[..i] + s[i..j] + s[j..]
  {
    assert s[..i] + s[i..j] == s[..j];
  }

  /** The first and last characters of a non-empty slice. */
  lemma SliceEnds(s: string, i: nat, j: nat)
    requires i < j <= |s|
    ensures s[i..j][0] == s[i] && s[i..j][j - i - 1] == s[j - 1]
  {
  }

  /** A reply holding two objects separated by text: both are taken
      together, from the first `{` to the last `}`. */
  lemma JsonSpanTakesBothObjects()
    ensures JsonSpan("noise { \"a\":1 } trailing { \"b\":2 } more")
            == "{ \"a\":1 } trailing { \"b\":2 }"
  {
    var pre, body, post := "noise ", "{ \"a\":1 } trailing { \"b\":2 }", " more";
    assert pre + body + post == "noise { \"a\":1 } trailing { \"b\":2 } more";
    JsonSpanFirstToLast(pre + body + post, pre, body, post);
  }

  /** The route's behaviour, as a function of the body field and the
      collaborators. Its steps run in order: `encrypt` runs exactly when the
      guard passes, the model is called only after `encrypt`, and a 200 is
      sent only after the model has been called. */
  function Analyze(documentsText: Option<Json>, c: Collaborators): (o: Outcome)
    ensures o.encryptCalled <==> !Falsy(documentsText)
    ensures o.sent.Some? ==> o.encryptCalled
    ensures o.response.status == 200 ==> o.sent.Some?
  {
    if Falsy(documentsText) then
      Outcome(HttpResponse(400, ErrorBody(NoTextMessage)), None, false)
    else if !documentsText.value.JStr? || !c.cryptoSucceeds then
      // encrypt throws on a value that is not a string, or the cipher failed
      Outcome(HttpResponse(500, ErrorBody(FailureMessage)), None, true)
    else
      var req := BuildRequest(documentsText.value.s, c.ollamaUrl);
      var reply := c.llm(req);
      if reply.UpstreamFailure? || reply.response.None? then
        Outcome(HttpResponse(500, ErrorBody(FailureMessage)), Some(req), true)
      else match c.parse(JsonSpan(reply.response.value))
        case None => Outcome(HttpResponse(500, ErrorBody(FailureMessage)), Some(req), true)
        case Some(v) => Outcome(HttpResponse(200, v), Some(req), true)
  }

  /** The handler as written: an early return, then a try block whose every
      failure lands in one catch. */
  method HandleAnalyze(body: Option<Json>, c: Collaborators) returns (o: Outcome)
    ensures o == Analyze(body, c)
  {
    var documentsText := body;
    if Falsy(documentsText) {
      return Outcome(HttpResponse(400, ErrorBody(NoTextMessage)), None, false);
    }
    var failed := false;
    var sent: Option<LlmRequest> := None;
    var response := HttpResponse(500, ErrorBody(FailureMessage));
    // try {
    if !documentsText.value.JStr? || !c.cryptoSucceeds {
      failed := true;
    } else {
      var decryptedText := documentsText.value.s;
      var req := BuildRequest(decryptedText, c.ollamaUrl);
      sent := Some(req);
      var reply := c.llm(req);
      if reply.UpstreamFailure? || reply.response.None? {
        failed := true;
      } else {
        var rawText := reply.response.value;
        var jsonStart := IndexOf(rawText, '{');
        var jsonEnd := LastIndexOf(rawText, '}');
        var cleanJson := Substring(rawText, jsonStart, jsonEnd + 1);
        var result := c.parse(cleanJson);
        if result.None? {
          failed := true;
        } else {
          documentsText := None;
          response := HttpResponse(200, result.value);
        }
      }
    }
    // } catch {
    if failed {
      response := HttpResponse(500, ErrorBody(FailureMessage));
    }
    o := Outcome(response, sent, true);
  }

  /** A 400 is sent exactly when the field is falsy, with the fixed body,
      and then neither `encrypt` nor the model is called. */
  lemma BadRequestExactlyWhenFalsy(documentsText: Option<Json>, c: Collaborators)
    ensures var o := Analyze(documentsText, c);
            (o.response.status == 400 <==> Falsy(documentsText))
            && (Falsy(documentsText) ==>
                  o.response.body == ErrorBody(NoTextMessage) && o.sent == None && !o.encryptCalled)
  {
  }

  /** Every response is a 200, the fixed 400 or the fixed 500; no failure
      response carries anything of the model's reply. */
  lemma FailuresCollapse(documentsText: Option<Json>, c: Collaborators)
    ensures var o := Analyze(documentsText, c);
            || o.response.status == 200
            || o.response == HttpResponse(400, ErrorBody(NoTextMessage))
            || o.response == HttpResponse(500, ErrorBody(FailureMessage))
  {
  }

  /** A 200 happens exactly when the text is a non-empty string, the cipher
      round trip succeeds, the model replies with a string and the span
      parses; its body is then the parsed value, unchanged. */
  lemma SuccessReturnsParsed(documentsText: Option<Json>, c: Collaborators)
    ensures var o := Analyze(documentsText, c);
            o.response.status == 200 <==>
              && documentsText.Some? && documentsText.value.JStr? && documentsText.value.s != ""
              && c.cryptoSucceeds
              && c.llm(BuildRequest(documentsText.value.s, c.ollamaUrl)).LlmReply?
              && c.llm(BuildRequest(documentsText.value.s, c.ollamaUrl)).response.Some?
              && c.parse(JsonSpan(c.llm(BuildRequest(documentsText.value.s, c.ollamaUrl)).response.value)).Some?
    ensures var o := Analyze(documentsText, c);
            o.response.status == 200 ==>
              Some(o.response.body)
              == c.parse(JsonSpan(c.llm(BuildRequest(documentsText.value.s, c.ollamaUrl)).response.value))
  {
  }

  /** The model is called at most once, exactly when the guard passes with a
      string and the cipher succeeds, with the request built from that text. */
  lemma RequestSentOnlyForText(documentsText: Option<Json>, c: Collaborators)
    ensures var o := Analyze(documentsText, c);
            (o.sent.Some? <==> !Falsy(documentsText) && documentsText.value.JStr? && c.cryptoSucceeds)
            && (o.sent.Some? ==>
                  && o.sent.value == BuildRequest(documentsText.value.s, c.ollamaUrl)
                  && PromptText(o.sent.value.prompt) == Some(documentsText.value.s))
  {
  }

  /** A reply with no braces at all leaves an empty span, which `JSON.parse`
      rejects, so the route answers with the fixed 500. */
  lemma NoBracesFails(text: string, raw: string, c: Collaborators)
    requires text != "" && c.cryptoSucceeds
    requires c.llm(BuildRequest(text, c.ollamaUrl)) == LlmReply(Some(raw))
    requires '{' !in raw && '}' !in raw
    requires c.parse("") == None
    ensures Analyze(Some(JStr(text)), c).response == HttpResponse(500, ErrorBody(FailureMessage))
  {
  }
}
