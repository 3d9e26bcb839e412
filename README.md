# Matchday Reality Engine: analysis function and result view

This project is a Dafny model of the two pieces of logic in the Matchday Reality Engine
repository:

- **`netlify/functions/analyze.ts`** is the serverless function that passes a user's match
  data to Google Gemini. The model covers:
  - how it reads the input text from the request: the query string, a JSON body, a
    form body or plain text;
  - the ordered fallback over ten (API version, model) candidates;
  - how text and error messages are taken out of a Gemini reply;
  - the order of checks in `handler` and the status and body of each response.
- **`src/components/AnalysisDisplay.tsx`** is the React component that shows an analysis.
  The model covers:
  - the `canRun` threshold;
  - the state updates of `run` and `clearAll`;
  - the lines that "Copiar Resultado" assembles and puts on the clipboard;
  - the rule for the result cards: the first two results, with a default label by
    position.

Files:

| file | module | contents |
|---|---|---|
| `wrappers.dfy` | `Wrappers` | `Option` and `Result` |
| `js_text.dfy` | `JsText` | the JavaScript string operations used: `trim`, `includes`, ASCII `toLowerCase`, `join`, `String(number)`, UTF-16 `length` |
| `json_value.dfy` | `JsonValue` | a JSON value datatype, JavaScript truthiness, `\|\|`, `??`, optional chaining, `String(v)` |
| `analyze_request.dfy` | `AnalyzeRequest` | the event, `getHeader`, `decodeBody`, `pickTextFromJson`, the form and query-string aliases |
| `analyze_generate.dfy` | `AnalyzeGenerate` | the candidate list, the prompt, `callGenerateContent` (everything except `fetch`), and `generateWithFallback`: a reference function plus the imperative loop proved against it |
| `analyze_handler.dfy` | `AnalyzeHandler` | the `json()` envelope, the payloads, the error mapping of the outer `catch`, POST decoding, and `handler` |
| `analysis_display.dfy` | `Display` | the copy-text specification and the `push` loops, `canRun`, the card rule, and the component state as the class `AnalysisDisplay` |

How things outside the code are modelled:

- **The network** is a function `net: GenerateRequest -> Reply`. A reply is an HTTP status
  with a body (`None` when the body is not valid JSON), or a rejected `fetch` with its
  message. `Outcomes` gives what each of the ten candidates would produce under `net`.
  `GenerateWithFallback` returns its result together with the requests it actually made,
  and the proofs show that those are always a prefix of the ten requests.
- **Library calls** are fields of a `Runtime` value: `JSON.parse` (which either succeeds or
  fails with the SyntaxError's message), base64 decoding and `URLSearchParams`.
  **Environment variables** are an `Env` value.
- **Thrown errors** are `Thrown` values: an optional status, a message, and the optional
  version, model and reply data that only an HTTP error carries. `PlainError(message)` is
  an error with only a message: a rejected `fetch`, a SyntaxError from `JSON.parse`, or a
  TypeError raised by JavaScript itself.
- **`String(v)`** is `ToJsString`, which can fail. An object with its own `toString`
  member (one that is not callable, as every member parsed from JSON is) makes `String`,
  `new Error` and `join` throw a TypeError. Arrays print their items joined by commas,
  with null items as "".
- **The component's cache** (`localStorage`) is the field `cache`.

In a few places the code does not do what such an endpoint usually does. The model
follows the code each time:

- No method is rejected. Anything other than `OPTIONS` or `GET` takes the POST path, so
  there is no 405.
- A malformed JSON body under `application/json` is not answered with 400. `JSON.parse`
  throws, and the outer `catch` answers 500 with `used = {}` (`UnlocatedErrorIs500`).
- The query string is read under `text`, `inputText` and `input` only. A `prompt`
  parameter is ignored (`QueryIgnoresPrompt`), although JSON and form bodies accept it.
- `pickTextFromJson` uses `??`, so an empty `text` hides a non-empty `input`. When an
  API key is set, the request then gets a 400 (`EmptyTextHidesInput`); without a key it
  gets 500 first.
- The key is `GEMINI_API_KEY`, or `GOOGLE_API_KEY` when that is empty (`ResolveApiKey`).
  When both are missing, a POST whose body decodes gets 500 before its input is checked,
  so an empty body gets 500 rather than 400. A JSON body that does not parse gets 500
  from the outer `catch` before the key is looked at.
- Only HTTP errors carry `version`, `model` and `data`. A rejected `fetch` or a
  `TypeError` from a malformed reply reaches the client with status 500, an empty `used`
  object and `details: null`.
- A JSON body whose picked text is an object with a `toString` member, such as
  `{"text": {"toString": 1}}`, makes `String` throw: the request gets 500 and Gemini is
  not called (`UnprintableJsonTextFails`). Under an unknown content type the same body
  falls back to the raw body text. An HTTP error whose `error.message` is such an object
  makes `new Error` throw a TypeError with no status, so even a 401 does not stop the
  loop (`UnprintableMessageMovesOn`).
- `"Falhou em todos os modelos/versões."` is never thrown. The candidate list is never
  empty, so `lastErr` is always set by the end (`ThrowsLastCallsError`).

## Model

| member | source | states |
|---|---|---|
| `JsText.Trim` | netlify/functions/analyze.ts:172 | `String.prototype.trim`: the result is a slice of the input with only whitespace cut off on either side, and has no JavaScript whitespace at either end; trimmed input is unchanged; the result is empty exactly when the input is all whitespace |
| `JsText.TrimStart` | netlify/functions/analyze.ts:172 | the result is a suffix of the input that starts with a non-whitespace character, and everything dropped is whitespace |
| `JsText.TrimEnd` | netlify/functions/analyze.ts:172 | the result is a prefix of the input that ends with a non-whitespace character, and everything dropped is whitespace |
| `JsText.TrimIdempotent` | netlify/functions/analyze.ts:172 | trimming twice is trimming once |
| `JsText.Includes` | netlify/functions/analyze.ts:195-200 | `includes` holds exactly when the needle occurs at some position of the haystack |
| `JsText.ToLower` | netlify/functions/analyze.ts:22 | `toLowerCase` keeps the length and maps each character; only `A`–`Z` change |
| `JsText.Utf16Length` | src/components/AnalysisDisplay.tsx:55 | `length` counts UTF-16 code units: between one and two per character, and exactly one per character when all are in the Basic Multilingual Plane |
| `JsText.NatToString` | netlify/functions/analyze.ts:109 | the decimal digits of the status as `HTTP ${res.status}` prints them: non-empty, digits only, no leading zero, and the digits read back as the number |
| `JsText.IntToString` | netlify/functions/analyze.ts:109 | `String` of an integer: a leading minus exactly for a negative number, then decimal digits whose value is the number's magnitude; no whitespace at either end |
| `JsText.Join` | src/components/AnalysisDisplay.tsx:86 | `join` of no parts is ""; otherwise it begins with the first part and its length is the parts' lengths plus one separator between each two |
| `JsText.JoinAppend` | src/components/AnalysisDisplay.tsx:86 | the separator sits between consecutive parts: joining two non-empty lists one after the other is joining each with one separator between them |
| `JsonValue.Or` | netlify/functions/analyze.ts:107-109 | `a \|\| b`: `a` when it is present and truthy, otherwise `b` |
| `JsonValue.Member` | netlify/functions/analyze.ts:119 | `v?.key` is present exactly when `v` is an object that has `key`, and is then that member |
| `JsonValue.Index0` | netlify/functions/analyze.ts:119-120 | `v?.[0]` of an array is its first item, and absent for an empty array; of undefined or null it is absent |
| `JsonValue.ToJsString` | netlify/functions/analyze.ts:197 | `String(v)` fails, with the TypeError message, exactly when `v` is an object with its own `toString` member or an array holding such a value; a string gives its own text; any other object gives "[object Object]"; null gives "null", a boolean "true" or "false", a number its decimal digits, and a printable array its items' strings joined by commas; of the falsy values other than null, exactly the empty string gives "" |
| `JsonValue.ItemStrings` | netlify/functions/analyze.ts:119 | the items of an array made strings for `join`: fails exactly when some item from the given position on cannot be made a string, and otherwise gives one string per item |
| `AnalyzeRequest.ResolveApiKey` | netlify/functions/analyze.ts:164-167 | the key is `GEMINI_API_KEY` when that is non-empty, otherwise `GOOGLE_API_KEY`; it is empty exactly when both are |
| `AnalyzeRequest.FindHeader` | netlify/functions/analyze.ts:22 | `Object.keys(headers).find(...)`: the index of the first name equal to the wanted one ignoring ASCII case, and no earlier name matches; none when no name matches |
| `AnalyzeRequest.GetHeader` | netlify/functions/analyze.ts:20-24 | "" when no header name matches ignoring case; otherwise the value of the first match, unless that key is itself "" |
| `AnalyzeRequest.DecodeBody` | netlify/functions/analyze.ts:26-33 | a missing or empty body is ""; otherwise the body as it is, or base64-decoded when `isBase64Encoded` |
| `AnalyzeRequest.FirstDefined` | netlify/functions/analyze.ts:38-46 | a `??` chain over keys never yields null or undefined |
| `AnalyzeRequest.FirstDefinedIsFirst` | netlify/functions/analyze.ts:38-46 | the `??` chain yields the value of the first key that is present and not null |
| `AnalyzeRequest.FirstDefinedNone` | netlify/functions/analyze.ts:45 | with no such key, the chain yields "" |
| `AnalyzeRequest.PickTextFromJson` | netlify/functions/analyze.ts:35-47 | a non-object gives ""; the result is never null |
| `AnalyzeRequest.PickTextFirstAlias` | netlify/functions/analyze.ts:38-46 | for an object, the first of `text`, `inputText`, `input`, `prompt`, `content`, `data` that is neither missing nor null wins, whatever its value |
| `AnalyzeRequest.PickTextNoAlias` | netlify/functions/analyze.ts:45 | an object with none of the aliases gives "" |
| `AnalyzeRequest.JsonBodyText` | netlify/functions/analyze.ts:197 | the text from a parsed JSON body: a picked string is trimmed; a falsy pick gives ""; any other truthy pick that can be made a string gives `String()` of it, trimmed; it fails with the TypeError exactly when the pick cannot be made a string; a success is always trimmed |
| `AnalyzeRequest.NonStringTextIsPrinted` | netlify/functions/analyze.ts:197 | a non-zero number under `text` is sent in decimal, and a plain object as "[object Object]" |
| `AnalyzeRequest.JsonBodyPicksAlias` | netlify/functions/analyze.ts:35-47 | when alias k is the first defined one and is the string t, the body's text is t trimmed; so `{"input": " x "}` yields "x" |
| `AnalyzeRequest.EmptyTextHidesInput` | netlify/functions/analyze.ts:39-41 | an empty `text` hides every later alias, so the body yields the empty text |
| `AnalyzeRequest.FirstNonEmpty` | netlify/functions/analyze.ts:202-208 | an `\|\|` chain over strings is "" exactly when every value is "", and otherwise gives one of the values |
| `AnalyzeRequest.FirstNonEmptyIsFirst` | netlify/functions/analyze.ts:202-208 | an `\|\|` chain yields its first non-empty value |
| `AnalyzeRequest.FormGet` | netlify/functions/analyze.ts:203-206 | `params.get(name)` is the value of the first pair with exactly that name, and absent when no pair has it |
| `AnalyzeRequest.FormText` | netlify/functions/analyze.ts:202-208 | the form text is "" exactly when `text`, `inputText`, `input` and `prompt` are all missing or empty |
| `AnalyzeRequest.FormTextIsFirst` | netlify/functions/analyze.ts:202-208 | the form text is the value of the first of `text`, `inputText`, `input`, `prompt` that is non-empty |
| `AnalyzeRequest.QueryText` | netlify/functions/analyze.ts:172 | the GET text is "" or the value of one of `text`, `inputText`, `input` |
| `AnalyzeRequest.QueryTextOrder` | netlify/functions/analyze.ts:172 | the query text is `text` when non-empty, else `inputText` when non-empty, else `input`; it is "" exactly when all three aliases are empty or missing |
| `AnalyzeRequest.QueryIgnoresPrompt` | netlify/functions/analyze.ts:172 | any `prompt` query parameter leaves the GET input unchanged |
| `AnalyzeGenerate.Pairs` | netlify/functions/analyze.ts:131-132 | one entry per pair of a version and a model |
| `AnalyzeGenerate.PairsAt` | netlify/functions/analyze.ts:131-132 | versions outer, models inner: entry i · models + j pairs version i with model j |
| `AnalyzeGenerate.Candidates` | netlify/functions/analyze.ts:63-70 | ten candidates |
| `AnalyzeGenerate.CandidatesInOrder` | netlify/functions/analyze.ts:63-70 | the exact list: `v1` with the five models in order, then `v1beta` with the same five |
| `AnalyzeGenerate.CandidateAt` | netlify/functions/analyze.ts:131-132 | position 5·vi + mi holds version vi with model mi |
| `AnalyzeGenerate.BuildPrompt` | netlify/functions/analyze.ts:127 | the prompt is trimmed and no longer than the instructions, the data marker and the input together |
| `AnalyzeGenerate.PromptEmbedsInput` | netlify/functions/analyze.ts:127 | for the trimmed, non-empty text the handler passes, the prompt is the instructions, the data marker and the text verbatim |
| `AnalyzeGenerate.ErrorMessage` | netlify/functions/analyze.ts:106-110 | a non-empty `error.message` string wins, then a non-empty top-level `message`, then `HTTP <status>`. Whichever value the chain picks, truthy but not a string included (a number, an object), the message is `String()` of it. `new Error` throws the TypeError exactly when the value the chain picks cannot be made a string: a truthy unprintable `error.message`, or, when `error.message` is falsy, an unprintable top-level `message` |
| `AnalyzeGenerate.PartsOfPath` | netlify/functions/analyze.ts:119-120 | `PartsOf`, the optional chain that finds `parts`: `parts` is found only in the `content` of the first entry of an object's `candidates`; with no `candidates`, or an empty list of them, there are no parts |
| `AnalyzeGenerate.PartValue` | netlify/functions/analyze.ts:119 | `p?.text \|\| ""`: the part's own `text` when that is truthy, otherwise "" |
| `AnalyzeGenerate.JoinPartTexts` | netlify/functions/analyze.ts:119 | `map(p => p?.text \|\| "").join("")` fails exactly when some mapped value cannot be made a string, and then with the TypeError |
| `AnalyzeGenerate.ChosenText` | netlify/functions/analyze.ts:118-121 | no `parts` gives ""; for an array, the joined texts when they are non-empty; the choice fails exactly when the join does |
| `AnalyzeGenerate.ExtractText` | netlify/functions/analyze.ts:118-123 | no `parts` gives ""; a `parts` that is not an array throws the `map` TypeError. For an array, the extraction fails exactly when the join does; a join that gives "" gives "", so the empty-output default applies; a non-empty join gives that text trimmed. Every failure is one of the two TypeErrors and every success is trimmed |
| `AnalyzeGenerate.CallGenerateContent` | netlify/functions/analyze.ts:103-123 | a success is trimmed text. A non-2xx reply throws its status, its message as `ErrorMessage` gives it, the version, the model and the body (`{}` when it is not JSON), or the TypeError when the message cannot be made a string. A 2xx reply (`IsOk`, `res.ok` at line 105) gives `ExtractText` of the body, or throws its TypeError without a status. A rejected fetch throws only its message |
| `AnalyzeGenerate.NoPartsGivesEmptyText` | netlify/functions/analyze.ts:118-123 | a 2xx reply without `parts` gives the empty text |
| `AnalyzeGenerate.UnprintableMessageMovesOn` | netlify/functions/analyze.ts:105-150 | a 401 whose `error.message` is `{"toString": 0}` throws a TypeError with no status, which does not end the loop |
| `AnalyzeGenerate.TopLevelMessageMovesOn` | netlify/functions/analyze.ts:105-150 | a 401 with no `error` and a top-level `message` of `{"toString": 0}` also throws a TypeError with no status, which does not end the loop |
| `AnalyzeGenerate.JoinTextParts` | netlify/functions/analyze.ts:119 | `map(p => p?.text \|\| "").join("")` over text parts is their concatenation |
| `AnalyzeGenerate.GeminiReplyParts` | netlify/functions/analyze.ts:119 | the usual reply shape has `candidates[0].content.parts` equal to its text parts |
| `AnalyzeGenerate.ChosenFromTextParts` | netlify/functions/analyze.ts:119-121 | over text parts the chosen text is their concatenation, also when the second alternative is taken |
| `AnalyzeGenerate.ExtractsConcatenatedParts` | netlify/functions/analyze.ts:118-123 | a reply with text parts yields their concatenation, trimmed |
| `AnalyzeGenerate.FirstStop` | netlify/functions/analyze.ts:131-153 | the index of the first outcome that ends the loop, or the list's length; no earlier outcome ends it. An outcome ends the loop (`Stops`) when it is an answer or an error whose status is 401 or 403 (`IsAuthFailure`, line 147) |
| `AnalyzeGenerate.Settle` | netlify/functions/analyze.ts:135-148 | a non-empty answer is returned as it is with no note; an empty one gives a non-empty text; `used` names the candidate; an error is thrown as it is |
| `AnalyzeGenerate.FallbackResult` | netlify/functions/analyze.ts:131-155 | a result is always a non-empty text from the first outcome that ends the loop, and `used` names that candidate |
| `AnalyzeGenerate.CallCount` | netlify/functions/analyze.ts:131-153 | between one and all ten calls; the last call made is the one that ended the loop unless every candidate was tried, and no earlier call ended it |
| `AnalyzeGenerate.FirstAnswerWins` | netlify/functions/analyze.ts:134-141 | when candidate k is the first to answer with non-empty text, the result is that text with `used` = candidate k, after exactly k + 1 calls |
| `AnalyzeGenerate.EmptyAnswerGivesDefault` | netlify/functions/analyze.ts:135-140 | an empty answer at k ends the loop with the fixed "Dados insuficientes." text, `used` = candidate k with note `empty_output_fallback`, after k + 1 calls |
| `AnalyzeGenerate.AuthFailureAborts` | netlify/functions/analyze.ts:147-149 | a 401 or 403 at k is thrown as it is, after k + 1 calls |
| `AnalyzeGenerate.AllFailRethrowsLast` | netlify/functions/analyze.ts:142-155 | when every candidate fails without 401/403, all are called and the last error is thrown |
| `AnalyzeGenerate.ThrowsLastCallsError` | netlify/functions/analyze.ts:155 | at least one call is always made; a thrown error is always the last call's own error, so the generic error never occurs |
| `AnalyzeGenerate.Requests` | netlify/functions/analyze.ts:131-134 | ten requests, one per candidate in the candidates' order, each with the same key, prompt and output limit |
| `AnalyzeGenerate.RequestAt` | netlify/functions/analyze.ts:131-134 | the request at position 5·vi + mi asks version vi for model mi |
| `AnalyzeGenerate.Outcomes` | netlify/functions/analyze.ts:131-134 | one outcome per candidate |
| `AnalyzeGenerate.GenerateWithFallback` | netlify/functions/analyze.ts:126-156 | the loop's result equals the reference result over the candidates' outcomes, and the requests it makes are the first `CallCount` of the ten, in order |
| `AnalyzeGenerate.TryCandidates` | netlify/functions/analyze.ts:129-155 | the outer loop over the versions with `lastErr`: it stops when the inner loop returns or throws, and otherwise throws the last error; the result is the reference result and the calls are exactly the ones it counts |
| `AnalyzeGenerate.TryModels` | netlify/functions/analyze.ts:132-152 | the inner loop over the five models of one version, after earlier calls that all failed without 401/403: a return or a throw gives the reference result with the counted calls; otherwise all five calls failed without 401/403 and `lastErr` is the last error |
| `AnalyzeGenerate.StopsAtCandidate` | netlify/functions/analyze.ts:134-149 | when (version vi, model mi) is the first outcome that ends the loop, the result is settled on that candidate after 5·vi + mi + 1 calls |
| `AnalyzeHandler.JsonResponse` | netlify/functions/analyze.ts:9-18 | `json()`: the given status and body, with the three CORS headers followed by the JSON content type |
| `AnalyzeHandler.HealthPayload` | netlify/functions/analyze.ts:175-179 | the health object has exactly `ok` = true, `hasKey` and the fixed `hint` |
| `AnalyzeHandler.UsedJson` | netlify/functions/analyze.ts:136-141 | `used` has `version` and `model`, plus `note` exactly when there is one |
| `AnalyzeHandler.SuccessPayload` | netlify/functions/analyze.ts:185 | a success body has exactly `text` and `used` |
| `AnalyzeHandler.ErrorStatus` | netlify/functions/analyze.ts:226 | the error's status when it has one and it is not 0, otherwise 500 |
| `AnalyzeHandler.Details` | netlify/functions/analyze.ts:231 | `details` is `data.error` when that is truthy, else `data` when that is truthy, else null |
| `AnalyzeHandler.ErrorPayload` | netlify/functions/analyze.ts:227-232 | exactly the keys `error`, `message`, `used`, `details`; `error` is "Gemini error"; `message` is never empty and is the error's own message when that is non-empty; `used` holds `version` and `model` exactly when the error carries them, and then with the error's values |
| `AnalyzeHandler.ErrorResponse` | netlify/functions/analyze.ts:224-233 | the catch branch answers with `ErrorStatus` and `ErrorPayload` under the CORS and JSON headers |
| `AnalyzeHandler.ResultResponse` | netlify/functions/analyze.ts:184-233 | a generated answer gives 200 with `text` and `used`; a thrown error gives the error response |
| `AnalyzeHandler.ParseBody` | netlify/functions/analyze.ts:196 | `JSON.parse(bodyStr \|\| "{}")`: an empty body parses to the empty object, any other body as the parser says |
| `AnalyzeHandler.PostInput` | netlify/functions/analyze.ts:195-217 | the POST input is trimmed. It fails exactly when the content type includes `application/json` and the body either does not parse (with the parser's error) or picks a value that cannot be made a string (with the TypeError); otherwise JSON gives the picked text. Without JSON, `text/plain` gives the trimmed body, whatever else the type includes; then the form type gives the trimmed form text |
| `AnalyzeHandler.PlainTextBeforeForm` | netlify/functions/analyze.ts:198-200 | a content type that begins with `text/plain` and also names the form type, without JSON, is read as plain text: the whole body, trimmed |
| `AnalyzeHandler.FormBodyText` | netlify/functions/analyze.ts:200-208 | a form body yields the first non-empty of `text`, `inputText`, `input`, `prompt`, trimmed |
| `AnalyzeHandler.UnprintableJsonTextFails` | netlify/functions/analyze.ts:195-226 | the JSON body `{"text": {"toString": 1}}` fails with the TypeError, which is answered with 500 |
| `AnalyzeHandler.JsonContentTypeWins` | netlify/functions/analyze.ts:195 | any content type that includes `application/json` decodes like `application/json` itself, whatever else it includes |
| `AnalyzeHandler.UnknownTypeFallsBackToText` | netlify/functions/analyze.ts:209-216 | an unrecognised content type never fails: a body that does not parse, or whose pick cannot be made a string, gives the trimmed body; otherwise the picked text |
| `AnalyzeHandler.EmptyBodyHasNoText` | netlify/functions/analyze.ts:195-216 | outside the form branch, an empty body decodes to no text |
| `AnalyzeHandler.Handle` | netlify/functions/analyze.ts:158-234 | every response carries the CORS headers. OPTIONS gives 204 with an empty body and no call. GET: no text gives the 200 health object, no key gives 500, otherwise the generation result. Any other method: a JSON-typed body that fails to parse, or whose picked value cannot be made a string, gives 500, then a missing key gives 500, then empty input gives 400, otherwise the generation result; no call is made before those checks pass |
| `AnalyzeHandler.FirstAuthFailureReachesClient` | netlify/functions/analyze.ts:147-226 | a 401/403 from the first candidate reaches the client with that status after a single call |
| `AnalyzeHandler.HttpErrorResponse` | netlify/functions/analyze.ts:105-231 | an HTTP error reply whose message can be made a string is answered with Gemini's own status; `used` names the failing version and model; `details` is taken from the reply body |
| `AnalyzeHandler.UnlocatedErrorIs500` | netlify/functions/analyze.ts:224-232 | an error with only a message (a rejected fetch, a SyntaxError, a TypeError) is answered with 500, an empty `used` and `details: null` |
| `Display.CanRun` | src/components/AnalysisDisplay.tsx:55 | a trimmed input of at least 15 characters can run; one that can run has at least 8 characters, since a character is at most two UTF-16 units |
| `Display.CanRunOnTrimmed` | src/components/AnalysisDisplay.tsx:55 | surrounding whitespace never changes `canRun`; whitespace-only input cannot run; within the Basic Multilingual Plane `canRun` holds exactly when the trimmed input has at least 15 characters |
| `Display.Bullets` | src/components/AnalysisDisplay.tsx:78 | one bullet line per factor, in order |
| `Display.ResultLines` | src/components/AnalysisDisplay.tsx:81-85 | three lines per result, in order: `score — label`, `why`, "" |
| `Display.CopyLines` | src/components/AnalysisDisplay.tsx:73-85 | 6 + factors + 3 · results lines, beginning with the tactical header, the tactical text, "" and the factors header |
| `Display.CopyText` | src/components/AnalysisDisplay.tsx:86 | the clipboard text has no whitespace at either end and is no longer than the joined lines |
| `Display.CopyLinesHead` | src/components/AnalysisDisplay.tsx:73-80 | the copied lines are the tactical header, the tactical text, "", the factors header, the bullets, "", the results header and the result lines; 6 + factors + 3 · results lines in all |
| `Display.CopyLinesBullets` | src/components/AnalysisDisplay.tsx:78 | line 4 + i is the bullet of factor i |
| `Display.CopyLinesResult` | src/components/AnalysisDisplay.tsx:81-85 | lines 6 + factors + 3j onwards are result j's three lines |
| `Display.CopyTextBegins` | src/components/AnalysisDisplay.tsx:74-86 | the clipboard text begins with the tactical header, the tactical text, a blank line and the factors header, unchanged by the trim, and has no whitespace at either end |
| `Display.OrPlaceholder` | src/components/AnalysisDisplay.tsx:202-207 | a shown field is never empty: a given value is shown as it is, and an empty one as the placeholder dash |
| `Display.LabelAt` | src/components/AnalysisDisplay.tsx:204 | a label is never empty: a given label is kept; a missing one is the base-scenario label at position 0 and the alternative-scenario label after |
| `Display.Cards` | src/components/AnalysisDisplay.tsx:200-208 | a card for each of the first two results at most; no shown field is empty; a given score, label or reason is shown as it is; an empty score or reason is shown as the placeholder dash; a missing label is the base-scenario label on the first card and the alternative-scenario label on the second |
| `Display.LaterResultsHidden` | src/components/AnalysisDisplay.tsx:200 | results after the second do not change what is shown |
| `Display.AnalysisDisplay.constructor` | src/components/AnalysisDisplay.tsx:41-53 | the initial state together with the mount effect: empty input and error, not loading, and the cached analysis shown |
| `Display.AnalysisDisplay.SetInput` | src/components/AnalysisDisplay.tsx:123 | typing replaces the input and nothing else |
| `Display.AnalysisDisplay.Run` | src/components/AnalysisDisplay.tsx:57-69 | not loading afterwards. Success shows the response and caches it, with no error. Failure keeps the analysis and the cache, and sets the error to the thrown message, or to "Erro ao analisar" when the message is empty |
| `Display.AnalysisDisplay.ClearAll` | src/components/AnalysisDisplay.tsx:94-99 | the input, the analysis, the error and the cache are cleared; `loading` is unchanged; the cleared input no longer passes `canRun` |
| `Display.AnalysisDisplay.CopyResultText` | src/components/AnalysisDisplay.tsx:71-87 | nothing is copied without an analysis; otherwise the copied text is the specified one |
| `Display.CollectLines` | src/components/AnalysisDisplay.tsx:73-85 | the `push` sequence builds exactly the specified lines |
| `Display.PushBullets` | src/components/AnalysisDisplay.tsx:78 | the factor loop appends the bullets to the lines collected so far |
| `Display.PushResults` | src/components/AnalysisDisplay.tsx:81-85 | the results loop appends each result's three lines to the lines collected so far |
| `Display.ClearThenCopy` | src/components/AnalysisDisplay.tsx:71-99 | after `clearAll`, there is nothing to copy, nothing shown and nothing cached |

## Left out

- `fetch`, and `analyzeToday` in `src/services/api.ts`: network I/O. They are modelled as the function `net` (`Reply`) and the function `api` given to `Run`.
- The URL with `encodeURIComponent`, the request body's JSON form and `temperature: 0.6`. The request is modelled as its version, model, key, prompt and `maxOutputTokens` (400).
- `JSON.parse`, `Buffer` base64 decoding and `URLSearchParams` are abstract functions of `Runtime`.
- `JSON.stringify` of the response: the body is modelled as the JSON value. Key order and the serialised text are not modelled; fields that are `undefined` are left out, as `JSON.stringify` does.
- `process.env` is modelled as the `Env` value; an unset variable is "".
- Async sequencing: the calls are modelled as strictly sequential, which they are.
- JSON numbers are integers in the model. A fractional or non-finite `err.status` cannot occur.
- `toLowerCase` is modelled on ASCII letters only; header names are ASCII.
- `Object.keys` order is the order of the header list.
- The exact message of a `TypeError` thrown by JavaScript is engine-specific. The model keeps a fixed message for each kind, worded as V8 words it.
- `JsonValue.ToJsString`: a number of 10^21 or more prints in exponent form in JavaScript (`1e+21`); the model prints every integer in full decimal.
- `JsonValue.ToJsString`: an object whose `toString` member is a function cannot come from JSON and is not modelled; a `toString` member makes the conversion fail, whatever its value.
- `Display.Analysis` models a missing `tactical`, `factors` or `realisticResults` as "" or []. That is how `\|\| ''` and `\|\| []` read them. A result whose `score`, `label` or `why` is missing is printed by the template literal as `undefined`; the model treats such a field as "".
- `Display.AnalysisDisplay.constructor`: a cached entry that does not parse is modelled as no cached analysis.
- `Display.AnalysisDisplay.Run`: the intermediate `loading = true` state, while the call is pending, is not observable in a model with a synchronous `api`.
- The React rendering, styles, `Card` and `Badge` components, the tactical and factor panels, `copyJSON`, the clipboard and `useMemo`. The copied text is returned instead of being written to the clipboard.
- `src/App.tsx` is not part of this model (composition only).
