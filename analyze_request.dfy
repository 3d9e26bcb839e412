/** Request decoding in netlify/functions/analyze.ts: the event the function receives,
    header lookup, body decoding and the alias rules that pick the input text out of
    a JSON body, a form body or a query string. */
module AnalyzeRequest {
  import opened Wrappers
  import opened JsText
  import opened JsonValue

  /** Header or form fields as (name, value) pairs, in the order `Object.keys` or
      `URLSearchParams` lists them. */
  type Fields = seq<(string, string)>

  /** The parts of a Netlify function event the handler reads. A missing body is `None`;
      missing query parameters are the empty map. */
  datatype Event = Event(
    httpMethod: string,
    headers: Fields,
    body: Option<string>,
    isBase64Encoded: bool,
    queryStringParameters: map<string, string>)

  /** The library calls the handler makes, which the model takes as given:
      `JSON.parse` (failing with the SyntaxError's message), base64 decoding by
      `Buffer`, and the pairs `new URLSearchParams(body)` holds. */
  datatype Runtime = Runtime(
    parseJson: string -> Result<Json, string>,
    decodeBase64: string -> string,
    parseForm: string -> Fields)

  /** The two environment variables the key is read from; an unset variable is "". */
  datatype Env = Env(geminiApiKey: string, googleApiKey: string)

  /** `GEMINI_API_KEY || GOOGLE_API_KEY || ""`. */
  function ResolveApiKey(env: Env): (r: string)
    ensures env.geminiApiKey != "" ==> r == env.geminiApiKey
    ensures env.geminiApiKey == "" ==> r == env.googleApiKey
    ensures r == "" <==> env.geminiApiKey == "" && env.googleApiKey == ""
  {
    if env.geminiApiKey != "" then env.geminiApiKey else env.googleApiKey
  }

  /** Index of the first header whose name equals `name` ignoring ASCII case. */
  function FindHeader(headers: Fields, name: string): (r: Option<nat>)
    ensures r.Some? ==> r.value < |headers| && ToLower(headers[r.value].0) == ToLower(name)
    ensures r.Some? ==> forall j :: 0 <= j < r.value ==> ToLower(headers[j].0) != ToLower(name)
    ensures r.None? ==> forall j :: 0 <= j < |headers| ==> ToLower(headers[j].0) != ToLower(name)
  {
    if headers == [] then None
    else if ToLower(headers[0].0) == ToLower(name) then Some(0)
    else match FindHeader(headers[1..], name)
      case None => None
      case Some(i) => Some(i + 1)
  }

  /** `getHeader(event, name)`: the value of the first header whose name matches
      without regard to case; "" when none matches, and also when the matching
      name is itself "" (the found key is falsy). */
  function GetHeader(headers: Fields, name: string): (r: string)
    ensures (forall j :: 0 <= j < |headers| ==> ToLower(headers[j].0) != ToLower(name)) ==> r == ""
    ensures forall i :: 0 <= i < |headers| && ToLower(headers[i].0) == ToLower(name) && headers[i].0 != ""
                        && (forall j :: 0 <= j < i ==> ToLower(headers[j].0) != ToLower(name))
                        ==> r == headers[i].1
  {
    match FindHeader(headers, name)
    case Some(i) => if headers[i].0 != "" then headers[i].1 else ""
    case None => ""
  }

  /** `decodeBody(event)`: a missing or empty body is "", a base64 body is decoded. */
  function DecodeBody(event: Event, rt: Runtime): (r: string)
    ensures event.body.None? || event.body == Some("") ==> r == ""
    ensures event.body.Some? && event.body.value != "" ==>
              r == if event.isBase64Encoded then rt.decodeBase64(event.body.value) else event.body.value
  {
    var raw := event.body.GetOr("");
    if raw == "" then ""
    else if event.isBase64Encoded then rt.decodeBase64(raw)
    else raw
  }

  /** The names `pickTextFromJson` accepts, in priority order. */
  const JsonAliases: seq<string> := ["text", "inputText", "input", "prompt", "content", "data"]

  /** The names the form branch accepts, in priority order. */
  const FormAliases: seq<string> := ["text", "inputText", "input", "prompt"]

  /** The names the GET branch accepts, in priority order (no "prompt"). */
  const QueryAliases: seq<string> := ["text", "inputText", "input"]

  /** `obj[key]` is neither `undefined` nor `null`. */
  predicate Defined(fields: map<string, Json>, key: string) {
    key in fields && !fields[key].JNull?
  }

  /** `obj[keys[0]] ?? obj[keys[1]] ?? … ?? ""`. */
  function FirstDefined(fields: map<string, Json>, keys: seq<string>): (r: Json)
    ensures !r.JNull?
  {
    if keys == [] then JStr("")
    else if Defined(fields, keys[0]) then fields[keys[0]]
    else FirstDefined(fields, keys[1..])
  }

  lemma {:induction false} FirstDefinedIsFirst(fields: map<string, Json>, keys: seq<string>, k: nat)
    requires k < |keys| && Defined(fields, keys[k])
    requires forall j :: 0 <= j < k ==> !Defined(fields, keys[j])
    ensures FirstDefined(fields, keys) == fields[keys[k]]
  {
    if k > 0 {
      assert !Defined(fields, keys[0]);
      assert forall j :: 0 <= j < k - 1 ==> keys[1..][j] == keys[j + 1];
      FirstDefinedIsFirst(fields, keys[1..], k - 1);
    }
  }

  lemma {:induction false} FirstDefinedNone(fields: map<string, Json>, keys: seq<string>)
    requires forall j :: 0 <= j < |keys| ==> !Defined(fields, keys[j])
    ensures FirstDefined(fields, keys) == JStr("")
  {
    if keys != [] {
      assert forall j :: 0 <= j < |keys| - 1 ==> keys[1..][j] == keys[j + 1];
      FirstDefinedNone(fields, keys[1..]);
    }
  }

  /** `pickTextFromJson(obj)`. Values that are not objects give ""; so does an array,
      which passes the `typeof` test but has none of the alias properties. */
  function PickTextFromJson(obj: Json): (r: Json)
    ensures !obj.JObj? ==> r == JStr("")
    ensures !r.JNull?
  {
    match obj
    case JObj(fields) => FirstDefined(fields, JsonAliases)
    case _ => JStr("")
  }

  /** The first alias present with a value other than `null` wins, whatever that value is. */
  lemma PickTextFirstAlias(fields: map<string, Json>, k: nat)
    requires k < |JsonAliases| && Defined(fields, JsonAliases[k])
    requires forall j :: 0 <= j < k ==> !Defined(fields, JsonAliases[j])
    ensures PickTextFromJson(JObj(fields)) == fields[JsonAliases[k]]
  {
    FirstDefinedIsFirst(fields, JsonAliases, k);
  }

  lemma PickTextNoAlias(fields: map<string, Json>)
    requires forall j :: 0 <= j < |JsonAliases| ==> !Defined(fields, JsonAliases[j])
    ensures PickTextFromJson(JObj(fields)) == JStr("")
  {
    FirstDefinedNone(fields, JsonAliases);
  }

  /** `String(pickTextFromJson(parsed) || "").trim()`; `Failure` is the TypeError of a
      picked value that cannot be made a string. */
  function JsonBodyText(parsed: Json): (r: Result<string, string>)
    ensures r.Success? ==> IsTrimmed(r.value)
    ensures r.Failure? <==> Unprintable(PickTextFromJson(parsed))
    ensures r.Failure? ==> r.error == NoPrimitiveMessage
    ensures PickTextFromJson(parsed).JStr? ==> r == Success(Trim(PickTextFromJson(parsed).s))
    ensures !Truthy(PickTextFromJson(parsed)) ==> r == Success("")
    ensures var p := PickTextFromJson(parsed);
            Truthy(p) && !Unprintable(p) ==> r == Success(Trim(ToJsString(p).value))
  {
    match ToJsString(Or(Some(PickTextFromJson(parsed)), JStr("")))
    case Success(text) => Success(Trim(text))
    case Failure(message) => Failure(message)
  }

  /** The text of a JSON body is its first defined alias, trimmed, when that is a string. */
  lemma JsonBodyPicksAlias(fields: map<string, Json>, k: nat, text: string)
    requires k < |JsonAliases| && Defined(fields, JsonAliases[k]) && fields[JsonAliases[k]] == JStr(text)
    requires forall j :: 0 <= j < k ==> !Defined(fields, JsonAliases[j])
    ensures JsonBodyText(JObj(fields)) == Success(Trim(text))
  {
    PickTextFirstAlias(fields, k);
  }

  /** `??` only skips `null` and `undefined`: an empty "text" hides a non-empty "input",
      so such a body decodes to no text at all. */
  lemma EmptyTextHidesInput(fields: map<string, Json>)
    requires "text" in fields && fields["text"] == JStr("")
    ensures JsonBodyText(JObj(fields)) == Success("")
  {
    PickTextFirstAlias(fields, 0);
  }

  /** A picked number or plain object is sent as `String()` writes it: a non-zero
      number in decimal, an object as "[object Object]". */
  lemma NonStringTextIsPrinted(fields: map<string, Json>)
    requires "text" in fields
    ensures fields["text"].JNum? && fields["text"].n != 0 ==>
              JsonBodyText(JObj(fields)) == Success(IntToString(fields["text"].n))
    ensures fields["text"].JObj? && "toString" !in fields["text"].fields ==>
              JsonBodyText(JObj(fields)) == Success("[object Object]")
  {
    if !fields["text"].JNull? {
      PickTextFirstAlias(fields, 0);
      assert IsTrimmed("[object Object]");
    }
  }

  /** `a || b || … || ""` over strings. */
  function FirstNonEmpty(values: seq<string>): (r: string)
    ensures r == "" <==> forall i :: 0 <= i < |values| ==> values[i] == ""
    ensures r == "" || r in values
  {
    if values == [] then ""
    else if values[0] != "" then values[0]
    else FirstNonEmpty(values[1..])
  }

  lemma {:induction false} FirstNonEmptyIsFirst(values: seq<string>, k: nat)
    requires k < |values| && values[k] != ""
    requires forall j :: 0 <= j < k ==> values[j] == ""
    ensures FirstNonEmpty(values) == values[k]
  {
    if k > 0 {
      assert values[0] == "";
      assert forall j :: 0 <= j < k - 1 ==> values[1..][j] == values[j + 1];
      FirstNonEmptyIsFirst(values[1..], k - 1);
    }
  }

  /** `params.get(name)`: the value of the FIRST pair with that exact name. */
  function FormGet(pairs: Fields, name: string): (r: Option<string>)
    ensures r.None? <==> forall j :: 0 <= j < |pairs| ==> pairs[j].0 != name
    ensures forall i :: 0 <= i < |pairs| && pairs[i].0 == name && (forall j :: 0 <= j < i ==> pairs[j].0 != name)
                        ==> r == Some(pairs[i].1)
  {
    if pairs == [] then None
    else if pairs[0].0 == name then Some(pairs[0].1)
    else
      var r := FormGet(pairs[1..], name);
      assert forall i :: 1 <= i < |pairs| ==> pairs[i] == pairs[1..][i - 1];
      r
  }

  /** `params.get("text") || params.get("inputText") || params.get("input") || params.get("prompt") || ""`. */
  function FormText(pairs: Fields): (r: string)
    ensures r == "" <==> forall i :: 0 <= i < |FormAliases| ==> FormGet(pairs, FormAliases[i]).GetOr("") == ""
  {
    var values := seq(|FormAliases|, i requires 0 <= i < |FormAliases| => FormGet(pairs, FormAliases[i]).GetOr(""));
    assert forall i :: 0 <= i < |FormAliases| ==> values[i] == FormGet(pairs, FormAliases[i]).GetOr("");
    FirstNonEmpty(values)
  }

  /** A form body's text is the value of the first of `text`, `inputText`, `input`,
      `prompt` whose first occurrence is non-empty. */
  lemma FormTextIsFirst(pairs: Fields, k: nat)
    requires k < |FormAliases| && FormGet(pairs, FormAliases[k]).GetOr("") != ""
    requires forall j :: 0 <= j < k ==> FormGet(pairs, FormAliases[j]).GetOr("") == ""
    ensures FormText(pairs) == FormGet(pairs, FormAliases[k]).value
  {
    var values := seq(|FormAliases|, i requires 0 <= i < |FormAliases| => FormGet(pairs, FormAliases[i]).GetOr(""));
    FirstNonEmptyIsFirst(values, k);
  }

  /** `qs.text || qs.inputText || qs.input || ""`. */
  function QueryText(qs: map<string, string>): (r: string)
    ensures r == "" || exists i :: 0 <= i < |QueryAliases| && QueryAliases[i] in qs && r == qs[QueryAliases[i]]
  {
    FirstNonEmpty(seq(|QueryAliases|, i requires 0 <= i < |QueryAliases| =>
      if QueryAliases[i] in qs then qs[QueryAliases[i]] else ""))
  }

  /** The query parameters are read under `text`, `inputText` and `input`, in that order. */
  lemma QueryTextOrder(qs: map<string, string>)
    ensures "text" in qs && qs["text"] != "" ==> QueryText(qs) == qs["text"]
    ensures ("text" !in qs || qs["text"] == "") && "inputText" in qs && qs["inputText"] != "" ==> QueryText(qs) == qs["inputText"]
    ensures ("text" !in qs || qs["text"] == "") && ("inputText" !in qs || qs["inputText"] == "") && "input" in qs
            ==> QueryText(qs) == qs["input"]
    ensures QueryText(qs) == "" <==>
              forall i :: 0 <= i < |QueryAliases| && QueryAliases[i] in qs ==> qs[QueryAliases[i]] == ""
  {
    var vals := seq(|QueryAliases|, i requires 0 <= i < |QueryAliases| =>
      if QueryAliases[i] in qs then qs[QueryAliases[i]] else "");
    assert QueryText(qs) == FirstNonEmpty(vals);
    assert vals[0] == (if "text" in qs then qs["text"] else "");
    assert vals[1] == (if "inputText" in qs then qs["inputText"] else "");
    assert vals[2] == (if "input" in qs then qs["input"] else "");
    assert forall i :: 0 <= i < |QueryAliases| ==>
      (vals[i] == "" <==> !(QueryAliases[i] in qs && qs[QueryAliases[i]] != ""));
    if "text" in qs && qs["text"] != "" {
      FirstNonEmptyIsFirst(vals, 0);
    } else if "inputText" in qs && qs["inputText"] != "" {
      FirstNonEmptyIsFirst(vals, 1);
    } else if "input" in qs && qs["input"] != "" {
      FirstNonEmptyIsFirst(vals, 2);
    }
  }

  /** Unlike a JSON or form body, a query string's `prompt` is never read. */
  lemma QueryIgnoresPrompt(qs: map<string, string>, v: string)
    ensures QueryText(qs["prompt" := v]) == QueryText(qs)
  {
    var qs' := qs["prompt" := v];
    assert forall i :: 0 <= i < |QueryAliases| ==> QueryAliases[i] != "prompt";
    assert seq(|QueryAliases|, i requires 0 <= i < |QueryAliases| => if QueryAliases[i] in qs' then qs'[QueryAliases[i]] else "")
        == seq(|QueryAliases|, i requires 0 <= i < |QueryAliases| => if QueryAliases[i] in qs then qs[QueryAliases[i]] else "");
  }
}
