/** Generation in netlify/functions/analyze.ts: the candidate list, the prompt,
    `callGenerateContent` with the network call taken out, and the fallback loop
    `generateWithFallback`, proved against a reference definition of when it stops. */
module AnalyzeGenerate {
  import opened Wrappers
  import opened JsText
  import opened JsonValue

  const PreferredVersions: seq<string> := ["v1", "v1beta"]
  const PreferredModels: seq<string> :=
    ["gemini-1.5-flash", "gemini-1.5-flash-latest", "gemini-1.5-pro", "gemini-1.0-pro", "gemini-pro"]

  /** An (API version, model) pair the loop tries. */
  datatype Candidate = Candidate(version: string, model: string)

  function WithVersion(version: string, models: seq<string>): seq<Candidate> {
    seq(|models|, j requires 0 <= j < |models| => Candidate(version, models[j]))
  }

  /** Every version with every model, versions outer and models inner. */
  function Pairs(versions: seq<string>, models: seq<string>): (r: seq<Candidate>)
    ensures |r| == |versions| * |models|
  {
    if versions == [] then [] else WithVersion(versions[0], models) + Pairs(versions[1..], models)
  }

  /** Entry i * |models| + j pairs version i with model j. */
  lemma {:induction false} PairsAt(versions: seq<string>, models: seq<string>, i: nat, j: nat)
    requires i < |versions| && j < |models|
    ensures i * |models| + j < |Pairs(versions, models)|
    ensures Pairs(versions, models)[i * |models| + j] == Candidate(versions[i], models[j])
  {
    var w := WithVersion(versions[0], models);
    assert Pairs(versions, models) == w + Pairs(versions[1..], models);
    if i > 0 {
      PairsAt(versions[1..], models, i - 1, j);
      assert i * |models| + j == |w| + ((i - 1) * |models| + j);
    }
  }

  /** The order `generateWithFallback` tries candidates in. */
  function Candidates(): (r: seq<Candidate>)
    ensures |r| == 10
  {
    Pairs(PreferredVersions, PreferredModels)
  }

  lemma CandidatesInOrder()
    ensures Candidates() == [
      Candidate("v1", "gemini-1.5-flash"), Candidate("v1", "gemini-1.5-flash-latest"),
      Candidate("v1", "gemini-1.5-pro"), Candidate("v1", "gemini-1.0-pro"), Candidate("v1", "gemini-pro"),
      Candidate("v1beta", "gemini-1.5-flash"), Candidate("v1beta", "gemini-1.5-flash-latest"),
      Candidate("v1beta", "gemini-1.5-pro"), Candidate("v1beta", "gemini-1.0-pro"), Candidate("v1beta", "gemini-pro")]
  {
    assert PreferredVersions[1..] == ["v1beta"];
    assert PreferredVersions[1..][1..] == [];
  }

  /** Position 5 * vi + mi of the list is version vi with model mi. */
  lemma CandidateAt(vi: nat, mi: nat)
    requires vi < |PreferredVersions| && mi < |PreferredModels|
    ensures |Candidates()| == 10
    ensures Candidates()[5 * vi + mi] == Candidate(PreferredVersions[vi], PreferredModels[mi])
  {
    PairsAt(PreferredVersions, PreferredModels, vi, mi);
  }

  /** SYSTEM_PROMPT, already trimmed: one piece per line of the template. */
  const SystemPrompt: string :=
    "És o \"Matchday Reality Engine\", "
    + "um analista de futebol.\n"
    + "Com base no texto fornecido (stats, forma, tendências), devolve:\n\n"
    + "1) \"Cenário tático do dia:\" (1–2 linhas)\n"
    + "2) \"Resultados mais realistas:\" (máximo 2 placares, formato 1-0)\n\n"
    + "Regras:\n"
    + "- Não inventes estatísticas.\n"
    + "- Se os dados forem fracos/confusos, escolhe 2 placares conservadores e diz \"Dados insuficientes\" antes.\n"
    + "- Responde sempre em PT-PT, simples e direto."

  const DataMarker: string := "\n\nDADOS (colar do utilizador):\n"

  /** The prompt sent to every candidate: the instructions, then the user's text. */
  function BuildPrompt(inputText: string): (r: string)
    ensures IsTrimmed(r) && |r| <= |SystemPrompt| + |DataMarker| + |inputText|
  {
    Trim(SystemPrompt + DataMarker + inputText)
  }

  /** The user's text is appended verbatim: no escaping, nothing cut. */
  lemma PromptEmbedsInput(inputText: string)
    requires inputText != [] && IsTrimmed(inputText)
    ensures BuildPrompt(inputText) == SystemPrompt + DataMarker + inputText
  {
    SystemPromptStarts();
    var head := SystemPrompt + DataMarker;
    assert head[0] == SystemPrompt[0];
    TrimmedConcat(head, inputText);
  }

  /** The instructions begin with a letter. */
  lemma SystemPromptStarts()
    ensures SystemPrompt != [] && !IsJsWhitespace(SystemPrompt[0])
  {
    assert SystemPrompt[0] == 'É';
  }

  /** A text that starts with non-whitespace, followed by a trimmed non-empty text, is trimmed. */
  lemma TrimmedConcat(head: string, tail: string)
    requires head != [] && !IsJsWhitespace(head[0])
    requires tail != [] && IsTrimmed(tail)
    ensures Trim(head + tail) == head + tail
  {
    var s := head + tail;
    assert s[0] == head[0];
    assert s[|s| - 1] == tail[|tail| - 1];
  }

  const MaxOutputTokens: nat := 400

  /** What one call to the generateContent endpoint carries. */
  datatype GenerateRequest = GenerateRequest(
    apiKey: string, version: string, model: string, prompt: string, maxOutputTokens: nat)

  /** What the network gives back for one request: an HTTP status with the body as
      `res.json()` parsed it (`None` when that failed), or the rejection of `fetch`. */
  datatype Reply = HttpReply(status: int, body: Option<Json>) | FetchFailed(message: string)

  /** A thrown error with the properties the handler reads: `status`, `message`,
      `version`, `model` and `data`; an absent property is `None`. */
  datatype Thrown = Thrown(
    status: Option<int>, message: string, version: Option<string>, model: Option<string>, data: Option<Json>)

  /** `res.ok`. */
  predicate IsOk(status: int) {
    200 <= status <= 299
  }

  /** An error with a message and none of the other properties: a SyntaxError, a
      TypeError, or the rejection of `fetch`. */
  function PlainError(message: string): Thrown {
    Thrown(None, message, None, None, None)
  }

  /** `data?.error?.message || data?.message || \`HTTP ${res.status}\``, made a string by
      `new Error`; `Failure` is the TypeError of a message that cannot be made one. */
  function ErrorMessage(data: Json, status: int): (r: Result<string, string>)
    ensures var em := Member(Member(Some(data), "error"), "message");
            em.Some? && em.value.JStr? && em.value.s != "" ==> r == Success(em.value.s)
    ensures var em := Member(Member(Some(data), "error"), "message");
            var m := Member(Some(data), "message");
            !(em.Some? && Truthy(em.value)) && m.Some? && m.value.JStr? && m.value.s != "" ==> r == Success(m.value.s)
    ensures var em := Member(Member(Some(data), "error"), "message");
            var m := Member(Some(data), "message");
            !(em.Some? && Truthy(em.value)) && !(m.Some? && Truthy(m.value)) ==> r == Success("HTTP " + IntToString(status))
    ensures var em := Member(Member(Some(data), "error"), "message");
            em.Some? && Unprintable(em.value) ==> r == Failure(NoPrimitiveMessage)
    ensures var em := Member(Member(Some(data), "error"), "message");
            var m := Member(Some(data), "message");
            r.Failure? <==> (em.Some? && Unprintable(em.value))
                            || (!(em.Some? && Truthy(em.value)) && m.Some? && Unprintable(m.value))
    ensures r.Failure? ==> r.error == NoPrimitiveMessage
    ensures var em := Member(Member(Some(data), "error"), "message");
            em.Some? && Truthy(em.value) ==> r == ToJsString(em.value)
    ensures var em := Member(Member(Some(data), "error"), "message");
            var m := Member(Some(data), "message");
            !(em.Some? && Truthy(em.value)) && m.Some? && Truthy(m.value) ==> r == ToJsString(m.value)
  {
    ToJsString(Or(Member(Member(Some(data), "error"), "message"),
                  Or(Member(Some(data), "message"), JStr("HTTP " + IntToString(status)))))
  }

  /** `data?.candidates?.[0]?.content?.parts`. */
  function PartsOf(data: Json): Option<Json> {
    Member(Member(Index0(Member(Some(data), "candidates")), "content"), "parts")
  }

  /** `parts` is found only under an object's `candidates`, in the `content` of its first
      entry; with no candidates there are no parts. */
  lemma PartsOfPath(data: Json)
    ensures var r := PartsOf(data);
            r.Some? ==>
              data.JObj? && "candidates" in data.fields
              && Member(Index0(Some(data.fields["candidates"])), "content").Some?
              && r == Member(Member(Index0(Some(data.fields["candidates"])), "content"), "parts")
    ensures !data.JObj? || "candidates" !in data.fields ==> PartsOf(data).None?
    ensures data.JObj? && "candidates" in data.fields && data.fields["candidates"].JArr?
              && data.fields["candidates"].items == []
            ==> PartsOf(data).None?
  {
  }

  /** `p?.text || ""`: what `map` makes of one part. */
  function PartValue(p: Json): (r: Json)
    ensures p.JObj? && "text" in p.fields && Truthy(p.fields["text"]) ==> r == p.fields["text"]
    ensures !(p.JObj? && "text" in p.fields && Truthy(p.fields["text"])) ==> r == JStr("")
  {
    Or(Member(Some(p), "text"), JStr(""))
  }

  /** `parts.map((p) => p?.text || "").join("")`; `join` makes each value a string. */
  function JoinPartTexts(parts: seq<Json>): (r: Result<string, string>)
    ensures r.Failure? <==> exists i :: 0 <= i < |parts| && Unprintable(PartValue(parts[i]))
    ensures r.Failure? ==> r.error == NoPrimitiveMessage
  {
    if parts == [] then Success("")
    else
      match ToJsString(PartValue(parts[0]))
      case Failure(message) => Failure(message)
      case Success(head) =>
        var rest := JoinPartTexts(parts[1..]);
        assert forall i :: 1 <= i < |parts| ==> parts[i] == parts[1..][i - 1];
        match rest
        case Failure(message) => Failure(message)
        case Success(tail) => Success(head + tail)
  }

  /** When the mapped texts join to "", the first part's value also prints as "". */
  lemma EmptyJoinFirstPart(parts: Option<Json>)
    ensures parts.Some? && parts.value.JArr? && JoinPartTexts(parts.value.items) == Success("")
              && parts.value.items != []
            ==> ToJsString(PartValue(parts.value.items[0])) == Success("")
  {
  }

  /** The message of the TypeError thrown when `parts` is present but has no `map`. */
  const NotAFunctionMessage: string := "data?.candidates?.[0]?.content?.parts?.map is not a function"

  /** `parts?.map((p) => p?.text || "").join("") || parts?.[0]?.text || ""`, for a
      `parts` on which the `map` call does not throw: the joined texts when they are
      non-empty, else the first part's `text`, else "". */
  function ChosenText(parts: Option<Json>): (r: Result<Json, string>)
    requires Nullish(parts) || parts.value.JArr?
    ensures Nullish(parts) ==> r == Success(JStr(""))
    ensures parts.Some? && parts.value.JArr? && JoinPartTexts(parts.value.items).Success?
            && JoinPartTexts(parts.value.items).value != ""
            ==> r == Success(JStr(JoinPartTexts(parts.value.items).value))
    ensures parts.Some? && parts.value.JArr? ==> (r.Failure? <==> JoinPartTexts(parts.value.items).Failure?)
  {
    if parts.Some? && parts.value.JArr? then
      match JoinPartTexts(parts.value.items)
      case Failure(message) => Failure(message)
      case Success(joined) => Success(Or(Some(JStr(joined)), Or(Member(Index0(parts), "text"), JStr(""))))
    else Success(JStr(""))
  }

  /** The text extraction of a successful reply: the chosen text, made a string and
      trimmed. A `parts` that is neither nullish nor an array makes the `map` call throw;
      a value that cannot be made a string makes `join` or `String` throw. */
  function ExtractText(data: Json): (r: Result<string, string>)
    ensures Nullish(PartsOf(data)) ==> r == Success("")
    ensures !Nullish(PartsOf(data)) && !PartsOf(data).value.JArr? ==> r == Failure(NotAFunctionMessage)
    ensures r.Success? ==> IsTrimmed(r.value)
    ensures r.Failure? ==> r.error == NotAFunctionMessage || r.error == NoPrimitiveMessage
    ensures PartsOf(data).Some? && PartsOf(data).value.JArr? && JoinPartTexts(PartsOf(data).value.items).Success?
            && JoinPartTexts(PartsOf(data).value.items).value != ""
            ==> r == Success(Trim(JoinPartTexts(PartsOf(data).value.items).value))
    ensures PartsOf(data).Some? && PartsOf(data).value.JArr? ==>
              (r.Failure? <==> JoinPartTexts(PartsOf(data).value.items).Failure?)
    ensures PartsOf(data).Some? && PartsOf(data).value.JArr? && JoinPartTexts(PartsOf(data).value.items) == Success("")
            ==> r == Success("")
  {
    var parts := PartsOf(data);
    EmptyJoinFirstPart(parts);
    if !Nullish(parts) && !parts.value.JArr? then Failure(NotAFunctionMessage)
    else
      match ChosenText(parts)
      case Failure(message) => Failure(message)
      case Success(chosen) =>
        match ToJsString(Or(Some(chosen), JStr("")))
        case Failure(message) => Failure(message)
        case Success(text) => Success(Trim(text))
  }

  /** `callGenerateContent` once the reply is known: a trimmed text, or the error it throws.
      A non-2xx reply throws its status, its message, the candidate and the parsed body
      (`{}` when the body was not JSON), unless the message itself cannot be made a
      string; then `new Error` throws a TypeError with no status instead. */
  function CallGenerateContent(reply: Reply, version: string, model: string): (r: Result<string, Thrown>)
    ensures r.Success? ==> IsTrimmed(r.value)
    ensures reply.HttpReply? && !IsOk(reply.status) ==>
              var data := reply.body.GetOr(JObj(map[]));
              match ErrorMessage(data, reply.status)
              case Success(message) =>
                r == Failure(Thrown(Some(reply.status), message, Some(version), Some(model), Some(data)))
              case Failure(message) => r == Failure(PlainError(message))
    ensures reply.HttpReply? && IsOk(reply.status) ==>
              var data := reply.body.GetOr(JObj(map[]));
              match ExtractText(data)
              case Success(text) => r == Success(text)
              case Failure(message) => r == Failure(PlainError(message))
    ensures reply.FetchFailed? ==> r == Failure(PlainError(reply.message))
  {
    match reply
    case FetchFailed(message) => Failure(PlainError(message))
    case HttpReply(status, body) =>
      var data := body.GetOr(JObj(map[]));
      if !IsOk(status) then
        match ErrorMessage(data, status)
        case Success(message) => Failure(Thrown(Some(status), message, Some(version), Some(model), Some(data)))
        case Failure(message) => Failure(PlainError(message))
      else
        match ExtractText(data)
        case Success(text) => Success(text)
        case Failure(message) => Failure(PlainError(message))
  }

  /** A 2xx reply without candidates or parts gives the empty text. */
  lemma NoPartsGivesEmptyText(data: Json, version: string, model: string)
    requires Nullish(PartsOf(data))
    ensures CallGenerateContent(HttpReply(200, Some(data)), version, model) == Success("")
  {
  }

  /** A 401 whose `error.message` has its own `toString` never reaches the status check:
      `new Error` throws a TypeError first, so the loop moves on to the next candidate. */
  lemma UnprintableMessageMovesOn(version: string, model: string)
    ensures var data := JObj(map["error" := JObj(map["message" := JObj(map["toString" := JNum(0)])])]);
            var o := CallGenerateContent(HttpReply(401, Some(data)), version, model);
            o == Failure(PlainError(NoPrimitiveMessage)) && !Stops(o)
  {
    var msg := JObj(map["toString" := JNum(0)]);
    var data := JObj(map["error" := JObj(map["message" := msg])]);
    assert Member(Member(Some(data), "error"), "message") == Some(msg);
    assert Unprintable(msg);
  }

  /** The same holds for a top-level `message` that cannot be made a string when there is
      no `error` member: `new Error` throws before any status is attached. */
  lemma TopLevelMessageMovesOn(version: string, model: string)
    ensures var data := JObj(map["message" := JObj(map["toString" := JNum(0)])]);
            var o := CallGenerateContent(HttpReply(401, Some(data)), version, model);
            o == Failure(PlainError(NoPrimitiveMessage)) && !Stops(o)
  {
    var msg := JObj(map["toString" := JNum(0)]);
    var data := JObj(map["message" := msg]);
    assert Member(Member(Some(data), "error"), "message") == None;
    assert Member(Some(data), "message") == Some(msg);
    assert Unprintable(msg);
  }

  /** A part `{ "text": t }`, one per string. */
  function TextParts(texts: seq<string>): seq<Json> {
    if texts == [] then [] else [JObj(map["text" := JStr(texts[0])])] + TextParts(texts[1..])
  }

  function Concat(texts: seq<string>): string {
    if texts == [] then "" else texts[0] + Concat(texts[1..])
  }

  /** The usual success body: one candidate whose content has text parts. */
  function GeminiReply(texts: seq<string>): Json {
    JObj(map["candidates" := JArr([JObj(map["content" := JObj(map["parts" := JArr(TextParts(texts))])])])])
  }

  lemma {:induction false} JoinTextParts(texts: seq<string>)
    ensures JoinPartTexts(TextParts(texts)) == Success(Concat(texts))
  {
    if texts != [] {
      var p := JObj(map["text" := JStr(texts[0])]);
      assert TextParts(texts)[0] == p && TextParts(texts)[1..] == TextParts(texts[1..]);
      assert Member(Some(p), "text") == Some(JStr(texts[0]));
      assert ToJsString(PartValue(p)) == Success(texts[0]);
      JoinTextParts(texts[1..]);
    }
  }

  lemma GeminiReplyParts(texts: seq<string>)
    ensures PartsOf(GeminiReply(texts)) == Some(JArr(TextParts(texts)))
  {
    var content := JObj(map["parts" := JArr(TextParts(texts))]);
    var first := JObj(map["content" := content]);
    assert Member(Some(GeminiReply(texts)), "candidates") == Some(JArr([first]));
    assert Index0(Some(JArr([first]))) == Some(first);
    assert Member(Some(first), "content") == Some(content);
  }

  /** Over text parts, the chosen text is their concatenation, also when that is empty. */
  lemma ChosenFromTextParts(texts: seq<string>)
    ensures ChosenText(Some(JArr(TextParts(texts)))) == Success(JStr(Concat(texts)))
  {
    JoinTextParts(texts);
    if Concat(texts) == "" && texts != [] {
      assert TextParts(texts)[0] == JObj(map["text" := JStr(texts[0])]);
      assert texts[0] == "";
    }
  }

  /** A reply with text parts yields their concatenation, trimmed. */
  lemma ExtractsConcatenatedParts(texts: seq<string>)
    ensures ExtractText(GeminiReply(texts)) == Success(Trim(Concat(texts)))
  {
    GeminiReplyParts(texts);
    ChosenFromTextParts(texts);
    var c := Concat(texts);
    assert Or(Some(JStr(c)), JStr("")) == JStr(c);
    assert ToJsString(JStr(c)) == Success(c);
  }

  /** What the function returns on success: the text and the candidate it came from,
      with `note` set when the empty-output default was substituted. */
  datatype Used = Used(version: string, model: string, note: Option<string>)
  datatype Generated = Generated(text: string, used: Used)

  const EmptyOutputDefault: string :=
    "Dados insuficientes.\n\nCenário tático do dia:\nJogo equilibrado, ritmo médio.\n\nResultados mais realistas:\n1-0\n0-0"
  const EmptyOutputNote: string := "empty_output_fallback"

  /** `new Error("Falhou em todos os modelos/versões.")`. */
  const GenericFailure: Thrown := PlainError("Falhou em todos os modelos/versões.")

  /** A 401 or 403: a key that will fail on every candidate. */
  predicate IsAuthFailure(e: Thrown) {
    e.status == Some(401) || e.status == Some(403)
  }

  /** The loop ends at this outcome: any answer, or an authentication failure. */
  predicate Stops(o: Result<string, Thrown>) {
    o.Success? || IsAuthFailure(o.error)
  }

  /** Index of the first outcome that ends the loop, or |outs| if none does. */
  function FirstStop(outs: seq<Result<string, Thrown>>): (k: nat)
    ensures k <= |outs|
    ensures k < |outs| ==> Stops(outs[k])
    ensures forall j :: 0 <= j < k ==> !Stops(outs[j])
  {
    if outs == [] then 0
    else if Stops(outs[0]) then 0
    else
      var k := FirstStop(outs[1..]);
      assert forall j :: 1 <= j < k + 1 ==> outs[j] == outs[1..][j - 1];
      k + 1
  }

  /** The first stopping outcome is the one FirstStop finds. */
  lemma StopsFirstAt(outs: seq<Result<string, Thrown>>, k: nat)
    requires k <= |outs|
    requires k < |outs| ==> Stops(outs[k])
    requires forall j :: 0 <= j < k ==> !Stops(outs[j])
    ensures FirstStop(outs) == k
  {
  }

  /** The value returned or thrown at the outcome that ends the loop. */
  function Settle(o: Result<string, Thrown>, c: Candidate): (r: Result<Generated, Thrown>)
    requires Stops(o)
    ensures r.Success? <==> o.Success?
    ensures r.Success? ==> r.value.text != "" && r.value.used.version == c.version && r.value.used.model == c.model
    ensures o.Success? && o.value != "" ==> r.value.text == o.value && r.value.used.note.None?
    ensures r.Failure? ==> r.error == o.error
  {
    match o
    case Success(text) =>
      if text == "" then Success(Generated(EmptyOutputDefault, Used(c.version, c.model, Some(EmptyOutputNote))))
      else Success(Generated(text, Used(c.version, c.model, None)))
    case Failure(e) => Failure(e)
  }

  /** Reference definition of the loop's result when candidate i answers outs[i]. */
  function FallbackResult(cands: seq<Candidate>, outs: seq<Result<string, Thrown>>): (r: Result<Generated, Thrown>)
    requires |cands| == |outs|
    ensures r.Success? ==>
              var k := FirstStop(outs);
              k < |outs| && outs[k].Success? && r.value.text != ""
              && r.value.used.version == cands[k].version && r.value.used.model == cands[k].model
  {
    var k := FirstStop(outs);
    if k < |outs| then Settle(outs[k], cands[k])
    else if outs == [] then Failure(GenericFailure)
    else Failure(outs[|outs| - 1].error)
  }

  /** How many calls the loop makes. */
  function CallCount(outs: seq<Result<string, Thrown>>): (r: nat)
    ensures r <= |outs| && (outs != [] ==> r >= 1)
    ensures r < |outs| ==> Stops(outs[r - 1])
    ensures forall j :: 0 <= j < r - 1 ==> !Stops(outs[j])
  {
    var k := FirstStop(outs);
    if k < |outs| then k + 1 else |outs|
  }

  /** If candidate k is the first to answer with text, that text is returned, tagged with
      candidate k, after exactly k + 1 calls. */
  lemma FirstAnswerWins(cands: seq<Candidate>, outs: seq<Result<string, Thrown>>, k: nat)
    requires |cands| == |outs| && k < |outs|
    requires outs[k].Success? && outs[k].value != ""
    requires forall j :: 0 <= j < k ==> outs[j].Failure? && !IsAuthFailure(outs[j].error)
    ensures FallbackResult(cands, outs) == Success(Generated(outs[k].value, Used(cands[k].version, cands[k].model, None)))
    ensures CallCount(outs) == k + 1
  {
  }

  /** An empty answer ends the loop with the fixed default, tagged with that candidate. */
  lemma EmptyAnswerGivesDefault(cands: seq<Candidate>, outs: seq<Result<string, Thrown>>, k: nat)
    requires |cands| == |outs| && k < |outs|
    requires outs[k] == Success("")
    requires forall j :: 0 <= j < k ==> outs[j].Failure? && !IsAuthFailure(outs[j].error)
    ensures FallbackResult(cands, outs)
            == Success(Generated(EmptyOutputDefault, Used(cands[k].version, cands[k].model, Some(EmptyOutputNote))))
    ensures CallCount(outs) == k + 1
  {
  }

  /** A 401 or 403 ends the loop with that very error; no later candidate is called. */
  lemma AuthFailureAborts(cands: seq<Candidate>, outs: seq<Result<string, Thrown>>, k: nat)
    requires |cands| == |outs| && k < |outs|
    requires outs[k].Failure? && IsAuthFailure(outs[k].error)
    requires forall j :: 0 <= j < k ==> outs[j].Failure? && !IsAuthFailure(outs[j].error)
    ensures FallbackResult(cands, outs) == Failure(outs[k].error)
    ensures CallCount(outs) == k + 1
  {
  }

  /** When every candidate fails otherwise, all are called and the last error is thrown. */
  lemma AllFailRethrowsLast(cands: seq<Candidate>, outs: seq<Result<string, Thrown>>)
    requires |cands| == |outs| && |outs| > 0
    requires forall j :: 0 <= j < |outs| ==> outs[j].Failure? && !IsAuthFailure(outs[j].error)
    ensures FallbackResult(cands, outs) == Failure(outs[|outs| - 1].error)
    ensures CallCount(outs) == |outs|
  {
  }

  /** Over a non-empty list, whatever the loop throws is the error of its last call: the
      generic "Falhou em todos os modelos/versões." is never reached. */
  lemma ThrowsLastCallsError(cands: seq<Candidate>, outs: seq<Result<string, Thrown>>)
    requires |cands| == |outs| && |outs| > 0
    ensures 1 <= CallCount(outs) <= |outs|
    ensures FallbackResult(cands, outs).Failure? ==>
              outs[CallCount(outs) - 1] == Failure(FallbackResult(cands, outs).error)
    ensures FallbackResult(cands, outs).Success? ==> outs[CallCount(outs) - 1].Success?
  {
  }

  /** The requests the loop can make, in order. */
  function Requests(apiKey: string, prompt: string): (r: seq<GenerateRequest>)
    ensures |r| == |Candidates()| == 10
    ensures forall k :: 0 <= k < |r| ==>
              r[k].apiKey == apiKey && r[k].prompt == prompt && r[k].maxOutputTokens == MaxOutputTokens
              && Candidate(r[k].version, r[k].model) == Candidates()[k]
  {
    var cands := Candidates();
    seq(|cands|, k requires 0 <= k < |cands| =>
      GenerateRequest(apiKey, cands[k].version, cands[k].model, prompt, MaxOutputTokens))
  }

  /** The outcome of one request: `callGenerateContent` on the reply `net` gives it. */
  function Attempt(net: GenerateRequest -> Reply, req: GenerateRequest): Result<string, Thrown> {
    CallGenerateContent(net(req), req.version, req.model)
  }

  /** The outcome each candidate would produce under the network `net`, in order. */
  function Outcomes(apiKey: string, prompt: string, net: GenerateRequest -> Reply): (r: seq<Result<string, Thrown>>)
    ensures |r| == 10
  {
    var reqs := Requests(apiKey, prompt);
    seq(|reqs|, k requires 0 <= k < |reqs| => Attempt(net, reqs[k]))
  }

  lemma PrefixSnoc<T>(xs: seq<T>, k: nat)
    requires k < |xs|
    ensures xs[..k + 1] == xs[..k] + [xs[k]]
  {
  }

  /** The request of version vi with model mi. */
  lemma RequestAt(apiKey: string, prompt: string, vi: nat, mi: nat)
    requires vi < |PreferredVersions| && mi < |PreferredModels|
    ensures |Requests(apiKey, prompt)| == 10
    ensures Candidates()[5 * vi + mi] == Candidate(PreferredVersions[vi], PreferredModels[mi])
    ensures Requests(apiKey, prompt)[5 * vi + mi]
            == GenerateRequest(apiKey, PreferredVersions[vi], PreferredModels[mi], prompt, MaxOutputTokens)
  {
    CandidateAt(vi, mi);
  }

  /** The loop's result when outcome k is the first to stop it. */
  lemma SettlesAt(cands: seq<Candidate>, outs: seq<Result<string, Thrown>>, k: nat)
    requires |cands| == |outs| && k < |outs|
    requires Stops(outs[k])
    requires forall j :: 0 <= j < k ==> outs[j].Failure? && !IsAuthFailure(outs[j].error)
    ensures FallbackResult(cands, outs) == Settle(outs[k], cands[k])
    ensures CallCount(outs) == k + 1
  {
    StopsFirstAt(outs, k);
  }

  /** `generateWithFallback(apiKey, inputText)`, with the network as `net`. Besides the
      result it returns the requests made, in order: always a prefix of `Requests`. */
  method GenerateWithFallback(apiKey: string, inputText: string, net: GenerateRequest -> Reply)
    returns (r: Result<Generated, Thrown>, calls: seq<GenerateRequest>)
    ensures var outs := Outcomes(apiKey, BuildPrompt(inputText), net);
            r == FallbackResult(Candidates(), outs)
            && calls == Requests(apiKey, BuildPrompt(inputText))[..CallCount(outs)]
  {
    var prompt := BuildPrompt(inputText);
    r, calls := TryCandidates(apiKey, prompt, req => Attempt(net, req), Outcomes(apiKey, prompt, net));
  }

  /** The two nested loops of `generateWithFallback`, over versions and then models, once
      the prompt is built. `attempt` makes one call; `outs` are the outcomes it would
      give the ten requests, in order. */
  method TryCandidates(apiKey: string, prompt: string, attempt: GenerateRequest -> Result<string, Thrown>,
                       ghost outs: seq<Result<string, Thrown>>)
    returns (r: Result<Generated, Thrown>, calls: seq<GenerateRequest>)
    requires |outs| == |Requests(apiKey, prompt)|
    requires forall k {:trigger Requests(apiKey, prompt)[k]} :: 0 <= k < |outs| ==> outs[k] == attempt(Requests(apiKey, prompt)[k])
    ensures r == FallbackResult(Candidates(), outs) && calls == Requests(apiKey, prompt)[..CallCount(outs)]
  {
    ghost var reqs := Requests(apiKey, prompt);
    var lastErr: Option<Thrown> := None;
    calls := [];
    for vi := 0 to |PreferredVersions|
      invariant |calls| == 5 * vi && calls == reqs[..|calls|]
      invariant forall j :: 0 <= j < |calls| ==> outs[j].Failure? && !IsAuthFailure(outs[j].error)
      invariant lastErr.Some? <==> |calls| > 0
      invariant |calls| > 0 ==> lastErr.value == outs[|calls| - 1].error
    {
      var done;
      done, r, calls, lastErr := TryModels(apiKey, prompt, attempt, outs, vi, calls, lastErr);
      if done {
        return;
      }
    }
    assert calls == reqs;
    AllFailRethrowsLast(Candidates(), outs);
    r := Failure(if lastErr.Some? then lastErr.value else GenericFailure);
  }

  /** The loop ends at version `vi`, model `mi` when that outcome is the first to stop it. */
  lemma StopsAtCandidate(outs: seq<Result<string, Thrown>>, vi: nat, mi: nat)
    requires vi < |PreferredVersions| && mi < |PreferredModels| && |outs| == |Candidates()|
    requires Stops(outs[5 * vi + mi])
    requires forall j :: 0 <= j < 5 * vi + mi ==> outs[j].Failure? && !IsAuthFailure(outs[j].error)
    ensures FallbackResult(Candidates(), outs) == Settle(outs[5 * vi + mi], Candidate(PreferredVersions[vi], PreferredModels[mi]))
    ensures CallCount(outs) == 5 * vi + mi + 1
  {
    CandidateAt(vi, mi);
    SettlesAt(Candidates(), outs, 5 * vi + mi);
  }

  /** The inner loop of `generateWithFallback`: the five models under version `vi`, after
      the calls of the earlier versions have all failed without a 401 or 403. `done` is
      an early `return` or `throw`; otherwise every call failed and the loop goes on. */
  method TryModels(apiKey: string, prompt: string, attempt: GenerateRequest -> Result<string, Thrown>,
                   ghost outs: seq<Result<string, Thrown>>, vi: nat,
                   calls0: seq<GenerateRequest>, lastErr0: Option<Thrown>)
    returns (done: bool, r: Result<Generated, Thrown>, calls: seq<GenerateRequest>, lastErr: Option<Thrown>)
    requires vi < |PreferredVersions| && |outs| == |Requests(apiKey, prompt)|
    requires forall k {:trigger Requests(apiKey, prompt)[k]} :: 0 <= k < |outs| ==> outs[k] == attempt(Requests(apiKey, prompt)[k])
    requires |calls0| == 5 * vi && calls0 == Requests(apiKey, prompt)[..|calls0|]
    requires forall j :: 0 <= j < |calls0| ==> outs[j].Failure? && !IsAuthFailure(outs[j].error)
    requires lastErr0.Some? <==> |calls0| > 0
    requires |calls0| > 0 ==> lastErr0.value == outs[|calls0| - 1].error
    ensures done ==> r == FallbackResult(Candidates(), outs) && calls == Requests(apiKey, prompt)[..CallCount(outs)]
    ensures !done ==> |calls| == 5 * (vi + 1) && calls == Requests(apiKey, prompt)[..|calls|]
    ensures !done ==> forall j :: 0 <= j < |calls| ==> outs[j].Failure? && !IsAuthFailure(outs[j].error)
    ensures !done ==> lastErr.Some? && lastErr.value == outs[|calls| - 1].error
  {
    ghost var reqs := Requests(apiKey, prompt);
    var version := PreferredVersions[vi];
    done, calls, lastErr := false, calls0, lastErr0;
    for mi := 0 to |PreferredModels|
      invariant |calls| == 5 * vi + mi && calls == reqs[..|calls|]
      invariant forall j :: 0 <= j < |calls| ==> outs[j].Failure? && !IsAuthFailure(outs[j].error)
      invariant lastErr.Some? <==> |calls| > 0
      invariant |calls| > 0 ==> lastErr.value == outs[|calls| - 1].error
    {
      var model := PreferredModels[mi];
      RequestAt(apiKey, prompt, vi, mi);
      var req := GenerateRequest(apiKey, version, model, prompt, MaxOutputTokens);
      var out := attempt(req);
      assert out == outs[5 * vi + mi];
      PrefixSnoc(reqs, |calls|);
      calls := calls + [req];
      match out {
        case Success(text) =>
          if text == "" {
            r := Success(Generated(EmptyOutputDefault, Used(version, model, Some(EmptyOutputNote))));
          } else {
            r := Success(Generated(text, Used(version, model, None)));
          }
          assert r == Settle(out, Candidate(version, model));
          StopsAtCandidate(outs, vi, mi);
          done := true;
          return;
        case Failure(e) =>
          lastErr := Some(e);
          if e.status == Some(401) || e.status == Some(403) {
            r := Failure(e);
            assert r == Settle(out, Candidate(version, model));
            StopsAtCandidate(outs, vi, mi);
            done := true;
            return;
          }
          assert outs[|calls| - 1] == Failure(e) && !IsAuthFailure(e);
      }
    }
    r := Failure(lastErr.value);
  }
}
