# PropVerify AI — a Dafny model of its session logic and analysis route

PropVerify AI is a browser tool. A user uploads property documents such as deeds and surveys. The front end reads their text and sends it to one backend route, `POST /api/analyze`. That route embeds the text in a fixed prompt and posts it to a local Ollama model. It then cuts the JSON object out of the model's reply and returns the result, which the front end renders as a report with a risk gauge and a category radar chart.

This project models the parts of that system that are logic rather than rendering or library calls:

- `session.dfy` (module `Session`, from `src/App.tsx`). The upload and verification session is a class with the four pieces of state the page keeps: `documents`, `isProcessing`, `result` and `error`. Its methods are adding files, a file read completing, starting the verification, and the reset. The list transforms they use are functions: building the pending documents, the name-keyed completion, and the filter-and-join of contents. File reads finish in any order. The model expresses them as sequences of completion events and proves that the last successful completion for a name wins, whatever the order.
- `analyze.dfy` (module `AnalyzeRoute`, from `server.ts`). This module holds the route's behaviour as a function, `Analyze`, and the handler as written, `HandleAnalyze`: an early return followed by a try block with a single catch. The handler is proved equal to the function. The guard, the prompt template, the request to the model, the JSON span extraction and the error collapse are each stated and proved.
- `jsstring.dfy` (module `JsString`). This module gives the JavaScript `indexOf`, `lastIndexOf` and `substring` semantics that the extraction relies on, including the way `substring` clamps and swaps its bounds. Positions count characters, not UTF-16 code units.
- `gauge.dfy` (module `RiskScoreGauge`) and `chart.dfy` (module `RiskBreakdownChart`). These hold the gauge's colour and label bands and the radar chart's data array.
- `types.dfy` (module `Types`). This module holds the record shapes of `src/types.ts`.

The cipher, the HTTP client and `JSON.parse` are not interpreted. They are parameters of the route (`Collaborators`). The analysis client's answer and the random document identifiers are parameters of the session methods.

Two behaviours of the code are easy to misread:

- The verify button's `disabled` condition (`src/App.tsx:203`) is false whenever the list is non-empty and no analysis is in flight. It does not wait until some document has extracted text. The button is shown only while there is no report, because the upload view renders only while `result` is null (`src/App.tsx:150`).
- The extractor does not fail merely because a brace is missing. `substring` still produces a span, for example the prefix before the `{`. The request fails only when `JSON.parse` rejects that span.

## Model

| member | source | states |
|---|---|---|
| `JsString.IndexOf` | server.ts:94 | the result is -1 exactly when the character is absent; otherwise it is a position holding it with none before it |
| `JsString.LastIndexOf` | server.ts:95 | the result is -1 exactly when the character is absent; otherwise it is a position holding it with none after it |
| `JsString.IndexOfIsFirst` | server.ts:94 | an occurrence with no earlier occurrence is the one `indexOf` returns |
| `JsString.LastIndexOfIsLast` | server.ts:95 | an occurrence with no later occurrence is the one `lastIndexOf` returns |
| `JsString.Clamp` | server.ts:96 | a bound is clamped into [0, length]: a negative bound becomes 0, a bound past the end becomes the length, and one already inside is left alone |
| `JsString.Substring` | server.ts:96 | `substring` returns the slice between the clamped smaller bound and the clamped larger bound |
| `JsString.SubstringSymmetric` | server.ts:96 | swapping the two bounds never changes the result |
| `AnalyzeRoute.Prompt` | server.ts:42-80 | the prompt is the fixed head, the text verbatim, then the fixed schema tail, at fixed positions |
| `AnalyzeRoute.PromptRoundTrip` | server.ts:42-80 | the documents' text is recovered exactly from the prompt |
| `AnalyzeRoute.OllamaUrl` | server.ts:83 | an unset or empty `OLLAMA_URL` falls back to `http://localhost:11434/api/generate`; otherwise its value is used |
| `AnalyzeRoute.BuildRequest` | server.ts:82-89 | the request goes to that URL with model `llama3`, `stream: false`, and a prompt holding exactly the text |
| `AnalyzeRoute.JsonSpan` | server.ts:94-96 | the extracted span in every case: empty with no braces; the prefix before `{` with no `}`; up to the last `}` with no `{`; first `{` through last `}` when ordered; the text between them when `}` comes first |
| `AnalyzeRoute.JsonSpanFirstToLast` | server.ts:94-96 | any split into a `{`-free prefix, a `{`…`}` span and a `}`-free suffix picks exactly that span, inner braces included |
| `AnalyzeRoute.JsonSpanDecomposes` | server.ts:94-96 | conversely, when a `{` precedes the last `}`, the reply is a `{`-free prefix, a span opening with `{` and closing with `}`, and a `}`-free suffix |
| `AnalyzeRoute.JsonSpanTakesBothObjects` | server.ts:94-96 | on `noise { "a":1 } trailing { "b":2 } more`, the span covers both objects and the text between them |
| `AnalyzeRoute.Falsy` | server.ts:27 | an absent field, `null`, `false`, `0` and `""` are falsy; a string or number is falsy exactly when empty or zero; every array and object, even an empty one, is truthy |
| `AnalyzeRoute.Analyze` | server.ts:24-111 | the route's steps run in order: `encrypt` runs exactly when the guard passes, the model is called only after `encrypt`, and a 200 is sent only after the model was called |
| `AnalyzeRoute.HandleAnalyze` | server.ts:24-111 | the handler with its early return and its try/catch gives exactly the route's outcome: the response, the request sent to the model, and whether `encrypt` ran |
| `AnalyzeRoute.BadRequestExactlyWhenFalsy` | server.ts:27-29 | status 400 occurs exactly when `documentsText` is falsy; the body is then `{error: "No documents text provided"}`, and neither `encrypt` nor the model is called |
| `AnalyzeRoute.FailuresCollapse` | server.ts:105-109 | every response is a 200, the fixed 400 or the fixed 500 `{error: "Failed to analyze documents securely.LLama model overload"}`; no failure response carries upstream text |
| `AnalyzeRoute.SuccessReturnsParsed` | server.ts:91-103 | status 200 occurs exactly when the text is a non-empty string, the cipher round trip succeeds, the reply's `response` is a string and its span parses; the body is then the parsed value, unchanged |
| `AnalyzeRoute.RequestSentOnlyForText` | server.ts:31-89 | the model is called exactly when a string passes the guard and the cipher succeeds, and the request is built from that text |
| `AnalyzeRoute.NoBracesFails` | server.ts:94-109 | a reply with no braces leaves an empty span, which `JSON.parse` rejects, so the answer is the fixed 500 |
| `RiskScoreGauge.Band` | src/components/RiskScoreGauge.tsx:9-19 | scores fall into three bands, counted by the thresholds 30 and 70 |
| `RiskScoreGauge.GetColor` | src/components/RiskScoreGauge.tsx:9-13 | the colour is the colour of the score's band |
| `RiskScoreGauge.GetLabel` | src/components/RiskScoreGauge.tsx:15-19 | the label is the label of the score's band |
| `RiskScoreGauge.BandBoundaries` | src/components/RiskScoreGauge.tsx:9-19 | below 30 gives `#10b981`/Safe; from 30 to below 70 gives `#f59e0b`/Caution; 70 and above gives `#ef4444`/High Risk |
| `RiskScoreGauge.BandMonotone` | src/components/RiskScoreGauge.tsx:9-19 | a higher score never falls in a lower band |
| `RiskScoreGauge.ColorAgreesWithLabel` | src/components/RiskScoreGauge.tsx:9-19 | two scores share a colour exactly when they share a label |
| `RiskScoreGauge.Gauge` | src/components/RiskScoreGauge.tsx:42-59 | the arc stroke and the label text use the same colour, that of the score's band |
| `RiskBreakdownChart.ChartData` | src/components/RiskBreakdownChart.tsx:13-19 | exactly four entries, Legal, Financial, Structural, Ownership in that order, each with its category's score unmodified and `fullMark` 100 |
| `RiskBreakdownChart.ChartRoundTrip` | src/components/RiskBreakdownChart.tsx:13-19 | the scores can be read back from the chart data, so the mapping loses nothing |
| `RiskBreakdownChart.EveryCategoryOnce` | src/components/RiskBreakdownChart.tsx:13-19 | every category is on exactly one spoke, with its own score |
| `Session.NewDocs` | src/App.tsx:27-33 | one document per file in file order, copying name, type and size, with status pending and no content |
| `Session.MarkCompleted` | src/App.tsx:44-48 | a completion keeps the list's length and order; exactly the documents with the file's name get the text and status completed; all others are unchanged |
| `Session.ApplyCompletion` | src/App.tsx:40-48 | a read whose encryption failed leaves the list unchanged; otherwise the list keeps its length and exactly the documents named like the file are completed with its text and ciphertext |
| `Session.ApplyCompletions` | src/App.tsx:38-51 | any sequence of completions keeps every document's position, id and name |
| `Session.CompletionsLastWriteWins` | src/App.tsx:38-51 | after completions in any order, each document carries the text of the last successful completion for its name, or is unchanged when there was none |
| `Session.CompletionOrderIrrelevant` | src/App.tsx:38-51 | two arrival orders that agree on the last completion of every name give the same list |
| `Session.SecondCompletionOverwrites` | src/App.tsx:44-48 | a later completion for a name overwrites an earlier one |
| `Session.NewDocsWellFormed` | src/App.tsx:27-35 | appending new documents keeps every document either pending without content or completed with content |
| `Session.CompletionWellFormed` | src/App.tsx:40-48 | a completion keeps that invariant |
| `Session.ReadableContents` | src/App.tsx:61 | the filtered contents contain only non-empty strings |
| `Session.ReadableContentsSnoc` | src/App.tsx:61 | one more document at the end adds its content after the others exactly when it has non-empty content, and adds nothing otherwise |
| `Session.Join` | src/App.tsx:61 | joining no parts gives the empty string; joining non-empty parts gives a string at least as long as the first part, so never empty |
| `Session.AllText` | src/App.tsx:61-62 | the joined text is empty exactly when no document has non-empty content |
| `Session.AllTextSkipsUnreadable` | src/App.tsx:61 | a document without content adds neither text nor separator, wherever it is in the list |
| `Session.AllTextAppendReadable` | src/App.tsx:61 | a document with content adds that content after the text so far, with a `\n\n` separator unless it is the first |
| `Session.AllTextOfTwoDocuments` | src/App.tsx:61 | `Deed 1995` and `Survey 2020` are joined as `Deed 1995\n\nSurvey 2020` |
| `Session.ReadableOnlyWhenCompleted` | src/App.tsx:44-61 | on a well-formed list every document with content is completed, so a non-empty text to send means some read has completed |
| `Session.ErrorText` | src/App.tsx:67 | the stored error is the failure's message when it is non-empty and `An error occurred during verification.` when it is empty; it is never empty |
| `Session.Session.constructor` | src/App.tsx:20-23 | a fresh session has no documents, no result, no error and is not processing |
| `Session.Session.CanVerify` | src/App.tsx:203 | the verify button's `disabled` condition is false exactly when the list is non-empty and no analysis is in flight |
| `Session.Session.AddFiles` | src/App.tsx:26-52 | the new pending documents go after the existing ones; one read is started per file, in file order; the other state is unchanged |
| `Session.Session.CompleteRead` | src/App.tsx:40-49 | a completed read updates the list by name, or leaves it alone when encryption failed; the other state is unchanged |
| `Session.Session.StartVerification` | src/App.tsx:54-71 | with an empty list, nothing changes. Text is sent only when some read has completed. Otherwise: empty text sends nothing and sets the no-content error; non-empty text is sent; success stores the report and leaves no error; failure keeps the old report and stores the message; the session ends not processing, so the button's `disabled` condition (src/App.tsx:203) is false again. After a success the button is not shown, because the upload view renders only while `result` is null (src/App.tsx:150) |
| `Session.Session.Reset` | src/App.tsx:73-78 | documents are emptied, result and error cleared, processing false, so the verify button's `disabled` condition (src/App.tsx:203) holds |

## Left out

- The AES-GCM helpers `src/services/crypto.ts` and `src/encryption.ts` are not modelled. Their correctness rests on Web Crypto, Node `crypto` and randomness. In the route, encrypt-then-decrypt is a step that either fails or returns its input (`Collaborators.cryptoSucceeds`). In the source it is not the identity on text holding a lone surrogate: `cipher.update(text, "utf8")` (src/encryption.ts:15) and `toString("utf8")` (src/encryption.ts:46) turn it into U+FFFD, so the prompt would differ from the `documentsText` received, whereas `Analyze` builds the prompt from that text itself. Such text cannot be represented in the model (see the `JsString.IndexOf` line). The browser-side ciphertext is opaque bytes carried by a completion event, and `None` stands for a rejected `encryptData`.
- `JSON.parse`, the axios call and `fetch` are uninterpreted. They appear as `Collaborators.parse`, `Collaborators.llm` and the `analyze` parameter of `StartVerification`.
- The analysis client's own error mapping (`src/services/gemini.ts`) is not modelled. Its outcome is an arbitrary report or failure message. The report's shape is trusted: the client stores whatever JSON the route returned as a `VerificationResult`, so a parsed `null` would leave `result` null in the source, while the model always stores `Some(report)`.
- `FileReader` asynchrony and React's batching are not modelled. Completions are events applied one at a time. A read that never finishes is an event that never arrives.
- `Session.Session.StartVerification` is atomic: the state while an analysis is in flight (`isProcessing` true) is not a separate step. The dropzone stays active during the analysis (src/App.tsx:165 renders it whenever there is no result), so in the source files can be added and reads can complete during the await at src/App.tsx:64; the atomic method hides that interleaving. Overlapping verifications are not modelled.
- The document ids come from `Math.random` in the source. Here they are the `ids` parameter of `AddFiles`.
- `JsString.IndexOf`, `JsString.LastIndexOf`: strings are modelled as sequences of Unicode scalar values, not UTF-16 code units. So the positions these return differ from JavaScript's when a character above U+FFFF comes first, and a lone surrogate such as `\uD800` cannot be represented, neither in a reply nor in the request's `documentsText`. The span `JsonSpan` extracts is the same string either way.
- Scores and JSON numbers are reals. NaN and infinities are not modelled. In the source a NaN score would fall through to High Risk.
- Which view the page renders is not modelled. In the source, `AddFiles` and `StartVerification` are reachable only from the upload view, shown while `result` is null (src/App.tsx:150-165), and `Reset` only from the button shown while `result` is set (src/App.tsx:99). The model's methods can be called in every state, including states where the page does not offer them.
- Rendering is left out: the JSX, the animations, the security-info toggle, the gauge's floating-point arc geometry, the dropzone, the timeline and the risk card lookup tables.
- The Express and Vite setup, static serving, the port, `dotenv` and the `console.error` logging are left out.
- `documentsText = null` after a successful parse is a local reassignment with no observable effect. The handler performs it, but nothing depends on it.
