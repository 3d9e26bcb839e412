/** The Netlify handler in netlify/functions/analyze.ts: method dispatch, reading the
    input of a POST by content type, the key check, and the responses it builds, among
    them the error response its outer `catch` produces. */
module AnalyzeHandler {
  import opened Wrappers
  import opened JsText
  import opened JsonValue
  import opened AnalyzeRequest
  import opened AnalyzeGenerate

  /** CORS_HEADERS, in declaration order. */
  const CorsHeaders: Fields := [
    ("Access-Control-Allow-Origin", "*"),
    ("Access-Control-Allow-Headers", "Content-Type"),
    ("Access-Control-Allow-Methods", "GET,POST,OPTIONS")]

  const JsonContentType: string := "application/json; charset=utf-8"

  /** A response body: the literal text of the preflight answer, or the value that
      `JSON.stringify` serialises. */
  datatype Body = Text(text: string) | Payload(value: Json)

  datatype Response = Response(statusCode: int, headers: Fields, body: Body)

  /** `json(statusCode, body)`: the CORS headers, then the JSON content type. */
  function JsonResponse(statusCode: int, payload: Json): (r: Response)
    ensures r.statusCode == statusCode && r.body == Payload(payload)
    ensures |r.headers| == 4 && r.headers[..3] == CorsHeaders
    ensures r.headers[3] == ("Content-Type", JsonContentType)
  {
    Response(statusCode, CorsHeaders + [("Content-Type", JsonContentType)], Payload(payload))
  }

  const HealthHint: string := "Testa assim: /api/analyze?text=ola"

  /** `{ ok: true, hasKey: Boolean(apiKey), hint }`. */
  function HealthPayload(hasKey: bool): (r: Json)
    ensures r.JObj? && r.fields.Keys == {"ok", "hasKey", "hint"}
    ensures r.fields["ok"] == JBool(true) && r.fields["hasKey"] == JBool(hasKey) && r.fields["hint"] == JStr(HealthHint)
  {
    JObj(map["ok" := JBool(true), "hasKey" := JBool(hasKey), "hint" := JStr(HealthHint)])
  }

  const MissingKeyPayload: Json := JObj(map["error" := JStr("Missing GEMINI_API_KEY")])
  const NoInputPayload: Json := JObj(map["error" := JStr("No input text provided")])

  /** `result.used`: `note` is present only when the default text was substituted. */
  function UsedJson(u: Used): (r: Json)
    ensures r.JObj? && r.fields.Keys == {"version", "model"} + (if u.note.Some? then {"note"} else {})
    ensures r.fields["version"] == JStr(u.version) && r.fields["model"] == JStr(u.model)
    ensures u.note.Some? ==> r.fields["note"] == JStr(u.note.value)
  {
    var base := map["version" := JStr(u.version), "model" := JStr(u.model)];
    JObj(if u.note.Some? then base["note" := JStr(u.note.value)] else base)
  }

  /** `{ text: result.text, used: result.used }`. */
  function SuccessPayload(g: Generated): (r: Json)
    ensures r.JObj? && r.fields.Keys == {"text", "used"}
    ensures r.fields["text"] == JStr(g.text) && r.fields["used"] == UsedJson(g.used)
  {
    JObj(map["text" := JStr(g.text), "used" := UsedJson(g.used)])
  }

  /** `err?.status && Number.isFinite(err.status) ? err.status : 500`. */
  function ErrorStatus(e: Thrown): (r: int)
    ensures e.status.Some? && e.status.value != 0 ==> r == e.status.value
    ensures e.status.None? || e.status == Some(0) ==> r == 500
  {
    if e.status.Some? && e.status.value != 0 then e.status.value else 500
  }

  /** A property `JSON.stringify` keeps only when it is not `undefined`. */
  function OptionalField(fields: map<string, Json>, key: string, v: Option<string>): map<string, Json> {
    if v.Some? then fields[key := JStr(v.value)] else fields
  }

  /** `err?.data?.error || err?.data || null`. */
  function Details(data: Option<Json>): (r: Json)
    ensures data.None? || !Truthy(data.value) ==> r == JNull
    ensures data.Some? && data.value.JObj? && "error" in data.value.fields && Truthy(data.value.fields["error"])
            ==> r == data.value.fields["error"]
    ensures data.Some? && Truthy(data.value)
            && !(data.value.JObj? && "error" in data.value.fields && Truthy(data.value.fields["error"]))
            ==> r == data.value
  {
    Or(Member(data, "error"), Or(data, JNull))
  }

  /** The body the outer `catch` sends: a fixed `error`, the message (never empty), the
      version and model when the error carries them, and the details. */
  function ErrorPayload(e: Thrown): (r: Json)
    ensures r.JObj? && r.fields.Keys == {"error", "message", "used", "details"}
    ensures r.fields["error"] == JStr("Gemini error")
    ensures r.fields["message"].JStr? && r.fields["message"].s != ""
    ensures e.message != "" ==> r.fields["message"] == JStr(e.message)
    ensures r.fields["used"].JObj?
    ensures ("version" in r.fields["used"].fields <==> e.version.Some?)
            && ("model" in r.fields["used"].fields <==> e.model.Some?)
    ensures e.version.Some? ==> r.fields["used"].fields["version"] == JStr(e.version.value)
    ensures e.model.Some? ==> r.fields["used"].fields["model"] == JStr(e.model.value)
    ensures r.fields["details"] == Details(e.data)
  {
    var used := OptionalField(OptionalField(map[], "version", e.version), "model", e.model);
    JObj(map["error" := JStr("Gemini error"),
             "message" := JStr(if e.message != "" then e.message else "Unknown error"),
             "used" := JObj(used),
             "details" := Details(e.data)])
  }

  function ErrorResponse(e: Thrown): (r: Response)
    ensures r.statusCode == ErrorStatus(e) && r.body == Payload(ErrorPayload(e))
    ensures |r.headers| == 4 && r.headers[..3] == CorsHeaders
  {
    JsonResponse(ErrorStatus(e), ErrorPayload(e))
  }

  /** What the handler sends for the outcome of `generateWithFallback`. */
  function ResultResponse(res: Result<Generated, Thrown>): (r: Response)
    ensures res.Success? ==> r.statusCode == 200 && r.body == Payload(SuccessPayload(res.value))
    ensures res.Failure? ==> r == ErrorResponse(res.error)
    ensures |r.headers| == 4 && r.headers[..3] == CorsHeaders
  {
    match res
    case Success(g) => JsonResponse(200, SuccessPayload(g))
    case Failure(e) => ErrorResponse(e)
  }

  /** `JSON.parse(bodyStr || "{}")`; the text "{}" parses to the empty object. */
  function ParseBody(rt: Runtime, bodyStr: string): (r: Result<Json, string>)
    ensures bodyStr == "" ==> r == Success(JObj(map[]))
    ensures bodyStr != "" ==> r == rt.parseJson(bodyStr)
  {
    if bodyStr == "" then Success(JObj(map[])) else rt.parseJson(bodyStr)
  }

  /** The input text a POST carries, read as its content type says. `Failure` is what a
      body sent as JSON throws (the SyntaxError of a malformed body, or the TypeError of
      a picked value `String` cannot convert), which only the outer `catch` handles. */
  function PostInput(contentType: string, bodyStr: string, rt: Runtime): (r: Result<string, Thrown>)
    ensures r.Success? ==> IsTrimmed(r.value)
    ensures r.Failure? <==>
              Includes(contentType, "application/json")
              && (ParseBody(rt, bodyStr).Failure? || JsonBodyText(ParseBody(rt, bodyStr).value).Failure?)
    ensures Includes(contentType, "application/json") && ParseBody(rt, bodyStr).Failure? ==>
              r == Failure(PlainError(ParseBody(rt, bodyStr).error))
    ensures Includes(contentType, "application/json") && ParseBody(rt, bodyStr).Success? ==>
              match JsonBodyText(ParseBody(rt, bodyStr).value)
              case Success(text) => r == Success(text)
              case Failure(message) => r == Failure(PlainError(message))
    ensures !Includes(contentType, "application/json") && Includes(contentType, "text/plain") ==>
              r == Success(Trim(bodyStr))
    ensures !Includes(contentType, "application/json") && !Includes(contentType, "text/plain")
            && Includes(contentType, "application/x-www-form-urlencoded") ==>
              r == Success(Trim(FormText(rt.parseForm(bodyStr))))
  {
    if Includes(contentType, "application/json") then
      match ParseBody(rt, bodyStr)
      case Success(parsed) =>
        (match JsonBodyText(parsed)
         case Success(text) => Success(text)
         case Failure(message) => Failure(PlainError(message)))
      case Failure(message) => Failure(PlainError(message))
    else if Includes(contentType, "text/plain") then
      Success(Trim(bodyStr))
    else if Includes(contentType, "application/x-www-form-urlencoded") then
      Success(Trim(FormText(rt.parseForm(bodyStr))))
    else
      match ParseBody(rt, bodyStr)
      case Success(parsed) =>
        (match JsonBodyText(parsed)
         case Success(text) => Success(text)
         case Failure(_) => Success(Trim(bodyStr)))
      case Failure(_) => Success(Trim(bodyStr))
  }

  /** `text/plain` is checked before the form type: a header that begins with `text/plain`
      and also names the form type, such as
      `text/plain; application/x-www-form-urlencoded`, is read as plain text, the whole
      body trimmed. */
  lemma PlainTextBeforeForm(rest: string, bodyStr: string, rt: Runtime)
    requires Includes(rest, "application/x-www-form-urlencoded")
    requires !Includes("text/plain" + rest, "application/json")
    ensures PostInput("text/plain" + rest, bodyStr, rt) == Success(Trim(bodyStr))
  {
    IncludesParts("text/plain", rest);
  }

  /** A form body's text: the first non-empty of `text`, `inputText`, `input`, `prompt`,
      trimmed. */
  lemma FormBodyText(contentType: string, bodyStr: string, rt: Runtime, k: nat)
    requires !Includes(contentType, "application/json") && !Includes(contentType, "text/plain")
    requires Includes(contentType, "application/x-www-form-urlencoded")
    requires k < |FormAliases| && FormGet(rt.parseForm(bodyStr), FormAliases[k]).GetOr("") != ""
    requires forall j :: 0 <= j < k ==> FormGet(rt.parseForm(bodyStr), FormAliases[j]).GetOr("") == ""
    ensures PostInput(contentType, bodyStr, rt) == Success(Trim(FormGet(rt.parseForm(bodyStr), FormAliases[k]).value))
  {
    FormTextIsFirst(rt.parseForm(bodyStr), k);
  }

  /** The text of `{"text": {"toString": 1}}` cannot be made a string: under
      `application/json` the TypeError reaches the outer `catch` (500, no call made). */
  lemma UnprintableJsonTextFails(bodyStr: string, rt: Runtime)
    requires bodyStr != "" && rt.parseJson(bodyStr) == Success(JObj(map["text" := JObj(map["toString" := JNum(1)])]))
    ensures PostInput("application/json", bodyStr, rt) == Failure(PlainError(NoPrimitiveMessage))
    ensures ErrorResponse(PlainError(NoPrimitiveMessage)).statusCode == 500
  {
    IncludesAt("application/json", "application/json", 0);
    var fields := map["text" := JObj(map["toString" := JNum(1)])];
    PickTextFirstAlias(fields, 0);
  }

  /** A JSON content type wins over any other type named in the same header. */
  lemma JsonContentTypeWins(contentType: string, bodyStr: string, rt: Runtime)
    requires Includes(contentType, "application/json")
    ensures PostInput(contentType, bodyStr, rt) == PostInput("application/json", bodyStr, rt)
  {
    IncludesAt("application/json", "application/json", 0);
  }

  /** An unknown content type is tried as JSON and falls back to the raw body: it never
      makes the handler fail, and a body that is not JSON is taken as plain text. */
  lemma UnknownTypeFallsBackToText(contentType: string, bodyStr: string, rt: Runtime)
    requires !Includes(contentType, "application/json") && !Includes(contentType, "text/plain")
    requires !Includes(contentType, "application/x-www-form-urlencoded")
    ensures PostInput(contentType, bodyStr, rt).Success?
    ensures ParseBody(rt, bodyStr).Failure? ==> PostInput(contentType, bodyStr, rt) == Success(Trim(bodyStr))
    ensures ParseBody(rt, bodyStr).Success? && JsonBodyText(ParseBody(rt, bodyStr).value).Success? ==>
              PostInput(contentType, bodyStr, rt) == Success(JsonBodyText(ParseBody(rt, bodyStr).value).value)
    ensures ParseBody(rt, bodyStr).Success? && JsonBodyText(ParseBody(rt, bodyStr).value).Failure? ==>
              PostInput(contentType, bodyStr, rt) == Success(Trim(bodyStr))
  {
  }

  /** An empty body is never a parse error: as JSON it is `{}`, which has no text. */
  lemma EmptyBodyHasNoText(contentType: string, rt: Runtime)
    requires !Includes(contentType, "application/x-www-form-urlencoded") || Includes(contentType, "application/json")
             || Includes(contentType, "text/plain")
    ensures PostInput(contentType, "", rt) == Success("")
  {
    PickTextNoAlias(map[]);
  }

  /** The outcome of generating for `text`: the response and the requests made. */
  predicate Answered(resp: Response, calls: seq<GenerateRequest>, apiKey: string, text: string,
                     net: GenerateRequest -> Reply)
  {
    var outs := Outcomes(apiKey, BuildPrompt(text), net);
    resp == ResultResponse(FallbackResult(Candidates(), outs))
    && calls == Requests(apiKey, BuildPrompt(text))[..CallCount(outs)]
  }

  /** `handler(event)` with the environment, the runtime's parsers and the network as
      parameters. Besides the response it returns the Gemini requests made, in order. */
  method Handle(event: Event, env: Env, rt: Runtime, net: GenerateRequest -> Reply)
    returns (resp: Response, calls: seq<GenerateRequest>)
    ensures |resp.headers| >= 3 && resp.headers[..3] == CorsHeaders
    ensures event.httpMethod == "OPTIONS" ==> resp == Response(204, CorsHeaders, Text("")) && calls == []
    ensures var text := Trim(QueryText(event.queryStringParameters));
            var apiKey := ResolveApiKey(env);
            event.httpMethod == "GET" ==>
              (text == "" ==> resp == JsonResponse(200, HealthPayload(apiKey != "")) && calls == [])
              && (text != "" && apiKey == "" ==> resp == JsonResponse(500, MissingKeyPayload) && calls == [])
              && (text != "" && apiKey != "" ==> Answered(resp, calls, apiKey, text, net))
    ensures var input := PostInput(GetHeader(event.headers, "content-type"), DecodeBody(event, rt), rt);
            var apiKey := ResolveApiKey(env);
            event.httpMethod != "OPTIONS" && event.httpMethod != "GET" ==>
              (input.Failure? ==> resp == ErrorResponse(input.error) && resp.statusCode == 500 && calls == [])
              && (input.Success? && apiKey == "" ==> resp == JsonResponse(500, MissingKeyPayload) && calls == [])
              && (input.Success? && apiKey != "" && input.value == "" ==>
                    resp == JsonResponse(400, NoInputPayload) && calls == [])
              && (input.Success? && apiKey != "" && input.value != "" ==> Answered(resp, calls, apiKey, input.value, net))
  {
    calls := [];
    if event.httpMethod == "OPTIONS" {
      resp := Response(204, CorsHeaders, Text(""));
      return;
    }
    var apiKey := ResolveApiKey(env);
    if event.httpMethod == "GET" {
      var text := Trim(QueryText(event.queryStringParameters));
      if text == "" {
        resp := JsonResponse(200, HealthPayload(apiKey != ""));
        return;
      }
      if apiKey == "" {
        resp := JsonResponse(500, MissingKeyPayload);
        return;
      }
      var result;
      result, calls := GenerateWithFallback(apiKey, text, net);
      resp := ResultResponse(result);
      return;
    }
    var contentType := GetHeader(event.headers, "content-type");
    var bodyStr := DecodeBody(event, rt);
    var input := PostInput(contentType, bodyStr, rt);
    if input.Failure? {
      resp := ErrorResponse(input.error);
      return;
    }
    if apiKey == "" {
      resp := JsonResponse(500, MissingKeyPayload);
      return;
    }
    if input.value == "" {
      resp := JsonResponse(400, NoInputPayload);
      return;
    }
    var result;
    result, calls := GenerateWithFallback(apiKey, input.value, net);
    resp := ResultResponse(result);
  }

  /** A 401 or 403 from the first candidate reaches the client with that status after a
      single request. */
  lemma FirstAuthFailureReachesClient(apiKey: string, prompt: string, net: GenerateRequest -> Reply)
    requires Outcomes(apiKey, prompt, net)[0].Failure? && IsAuthFailure(Outcomes(apiKey, prompt, net)[0].error)
    ensures var outs := Outcomes(apiKey, prompt, net);
            ResultResponse(FallbackResult(Candidates(), outs)).statusCode == outs[0].error.status.value
            && CallCount(outs) == 1
  {
    AuthFailureAborts(Candidates(), Outcomes(apiKey, prompt, net), 0);
  }

  /** An HTTP error from Gemini whose message can be made a string is answered with
      Gemini's own status, names the candidate that failed and reports the reply's
      `error` member (or the reply itself when it has none) as details. */
  lemma HttpErrorResponse(status: int, body: Option<Json>, version: string, model: string)
    requires !IsOk(status) && status != 0
    requires ErrorMessage(body.GetOr(JObj(map[])), status).Success?
    ensures var e := CallGenerateContent(HttpReply(status, body), version, model).error;
            var p := ErrorPayload(e);
            ErrorResponse(e).statusCode == status
            && p.fields["used"] == JObj(map["version" := JStr(version), "model" := JStr(model)])
            && p.fields["details"] == Details(Some(body.GetOr(JObj(map[]))))
  {
    var e := CallGenerateContent(HttpReply(status, body), version, model).error;
    assert OptionalField(OptionalField(map[], "version", e.version), "model", e.model)
        == map["version" := JStr(version), "model" := JStr(model)];
  }

  /** A network failure, a malformed JSON body or a TypeError carries no status: it gives
      500, an empty `used` and null details. */
  lemma UnlocatedErrorIs500(message: string)
    ensures ErrorResponse(PlainError(message)).statusCode == 500
    ensures ErrorPayload(PlainError(message)).fields["used"] == JObj(map[])
    ensures ErrorPayload(PlainError(message)).fields["details"] == JNull
  {
  }
}
