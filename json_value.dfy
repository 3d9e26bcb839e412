/** JSON values as `JSON.parse` produces them, JavaScript's `undefined` as `None`,
    and the few JavaScript operators the core applies to them: truthiness and `||`,
    optional chaining (`v?.key`, `v?.[0]`) and `String(v)`. */
module JsonValue {
  import opened Wrappers
  import opened JsText

  /** A JSON value. Numbers are integral here; objects are maps because `JSON.parse`
      keeps the last of duplicated keys and the core only looks keys up. */
  datatype Json =
    | JNull
    | JBool(b: bool)
    | JNum(n: int)
    | JStr(s: string)
    | JArr(items: seq<Json>)
    | JObj(fields: map<string, Json>)

  /** JavaScript truthiness: `null`, `false`, `0` and `""` are falsy, everything else truthy. */
  predicate Truthy(v: Json) {
    match v
    case JNull => false
    case JBool(b) => b
    case JNum(n) => n != 0
    case JStr(s) => s != ""
    case JArr(_) => true
    case JObj(_) => true
  }

  /** `a || b` where `a` may be `undefined`. */
  function Or(a: Option<Json>, b: Json): (r: Json)
    ensures a.Some? && Truthy(a.value) ==> r == a.value
    ensures !(a.Some? && Truthy(a.value)) ==> r == b
  {
    if a.Some? && Truthy(a.value) then a.value else b
  }

  /** `undefined` or `null`: what `??` and `?.` skip. */
  predicate Nullish(v: Option<Json>) {
    v.None? || v.value.JNull?
  }

  /** `v?.key` for a key that is neither a property of strings or arrays nor one that
      every object inherits from `Object.prototype` (such as `constructor` or
      `toString`): only an object that holds the key gives a value. */
  function Member(v: Option<Json>, key: string): (r: Option<Json>)
    ensures r.Some? <==> v.Some? && v.value.JObj? && key in v.value.fields
    ensures r.Some? ==> r.value == v.value.fields[key]
  {
    match v
    case Some(JObj(fields)) => if key in fields then Some(fields[key]) else None
    case _ => None
  }

  /** `v?.[0]`: the first item of an array, the first character of a string, the
      member "0" of an object. */
  function Index0(v: Option<Json>): (r: Option<Json>)
    ensures v.Some? && v.value.JArr? ==>
              (r.Some? <==> |v.value.items| > 0) && (r.Some? ==> r.value == v.value.items[0])
    ensures v.None? || v.value.JNull? ==> r.None?
  {
    match v
    case Some(JArr(items)) => if |items| > 0 then Some(items[0]) else None
    case Some(JStr(s)) => if |s| > 0 then Some(JStr([s[0]])) else None
    case Some(JObj(fields)) => if "0" in fields then Some(fields["0"]) else None
    case _ => None
  }

  /** The message of the TypeError `String(v)` throws when no conversion to a primitive
      exists (the wording of V8). */
  const NoPrimitiveMessage: string := "Cannot convert object to primitive value"

  /** A value `String()` cannot convert: an object with its own `toString` member, which
      `JSON.parse` can only make a non-callable one, so that the inherited `valueOf`
      returning the object itself is all that is left; or an array holding such a value,
      since `String` of an array converts each item. */
  predicate Unprintable(v: Json) {
    match v
    case JObj(fields) => "toString" in fields
    case JArr(items) => exists i :: 0 <= i < |items| && Unprintable(items[i])
    case _ => false
  }

  /** `String(v)`: arrays join their items with commas, writing `null` items as nothing;
      an object is "[object Object]" unless it has its own `toString`, and then the
      conversion throws a TypeError. */
  function ToJsString(v: Json): (r: Result<string, string>)
    decreases v, 1
    ensures r.Failure? <==> Unprintable(v)
    ensures r.Failure? ==> r.error == NoPrimitiveMessage
    ensures v.JStr? ==> r == Success(v.s)
    ensures v.JObj? && !Unprintable(v) ==> r == Success("[object Object]")
    ensures !Truthy(v) && !v.JNull? ==> r.Success? && (r.value == "" <==> v.JStr?)
    ensures v.JNull? ==> r == Success("null")
    ensures v.JBool? ==> r == Success(if v.b then "true" else "false")
    ensures v.JNum? ==> r == Success(IntToString(v.n))
    ensures v.JArr? && !Unprintable(v) ==> r == Success(Join(ItemStrings(v, 0).value, ","))
  {
    match v
    case JNull => Success("null")
    case JBool(b) => Success(if b then "true" else "false")
    case JNum(n) => Success(IntToString(n))
    case JStr(s) => Success(s)
    case JArr(items) =>
      (match ItemStrings(v, 0)
       case Success(parts) => Success(Join(parts, ","))
       case Failure(message) => Failure(message))
    case JObj(fields) => if "toString" in fields then Failure(NoPrimitiveMessage) else Success("[object Object]")
  }

  /** The items of the array `arr` from index `k` on, each as `join` writes it. */
  function ItemStrings(arr: Json, k: nat): (r: Result<seq<string>, string>)
    requires arr.JArr? && k <= |arr.items|
    decreases arr, 0, |arr.items| - k
    ensures r.Failure? <==> exists i :: k <= i < |arr.items| && Unprintable(arr.items[i])
    ensures r.Failure? ==> r.error == NoPrimitiveMessage
    ensures r.Success? ==> |r.value| == |arr.items| - k
  {
    if k == |arr.items| then Success([])
    else
      var head := if arr.items[k].JNull? then Success("") else ToJsString(arr.items[k]);
      match head
      case Failure(message) => Failure(message)
      case Success(h) =>
        match ItemStrings(arr, k + 1)
        case Failure(message) => Failure(message)
        case Success(rest) => Success([h] + rest)
  }
}
