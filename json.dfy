/** JSON values as `JSON.parse` and `json.loads` produce them, and the few
    ways the code looks at them: JavaScript and Python truthiness, property
    lookup, and JavaScript's conversion to text inside a template literal.
    Reading JSON text is a library call and is not modelled: a field holding
    JSON text is given as the outcome of parsing it. Numbers are integers. */
module Json {
  import opened Common

  datatype Json =
    | JNull
    | JBool(b: bool)
    | JNumber(n: int)
    | JString(s: string)
    | JArray(items: seq<Json>)
    | JObject(members: seq<(string, Json)>)

  /** What parsing a JSON text gave: a syntax error, or a value. */
  datatype JsonParse = Malformed | Parsed(value: Json)

  /** `safeJsonParse(str, defaultValue)` in server.js: the parsed value, or
      the default when parsing throws. */
  function SafeJsonParse(p: JsonParse, default: Json): (r: Json)
    ensures p.Parsed? ==> r == p.value
    ensures p.Malformed? ==> r == default
    ensures r == default <==> p.Malformed? || p.value == default
  {
    match p
    case Malformed => default
    case Parsed(v) => v
  }

  /** Python's `bool(x)` on a loaded value. */
  predicate PyTruthy(j: Json) {
    match j
    case JNull => false
    case JBool(b) => b
    case JNumber(n) => n != 0
    case JString(s) => s != ""
    case JArray(items) => items != []
    case JObject(members) => members != []
  }

  /** JavaScript truthiness of a parsed value (arrays and objects are always
      truthy). */
  predicate JsTruthy(j: Json) {
    match j
    case JNull => false
    case JBool(b) => b
    case JNumber(n) => n != 0
    case JString(s) => s != ""
    case JArray(_) => true
    case JObject(_) => true
  }

  /** The last member named `key`; `JSON.parse` keeps the last duplicate. */
  function LookupMember(members: seq<(string, Json)>, key: string): (r: Option<Json>)
    ensures r.None? <==> forall i :: 0 <= i < |members| ==> members[i].0 != key
    ensures r.Some? ==> exists i :: 0 <= i < |members| && members[i] == (key, r.value) &&
                                    forall j :: i < j < |members| ==> members[j].0 != key
  {
    if members == [] then None
    else if members[|members| - 1].0 == key then Some(members[|members| - 1].1)
    else LookupMember(members[..|members| - 1], key)
  }

  /** The position of the last member named `key`. */
  function LastKeyIndex(members: seq<(string, Json)>, key: string): (r: Option<nat>)
    ensures r.None? <==> forall i :: 0 <= i < |members| ==> members[i].0 != key
    ensures r.Some? ==> r.value < |members| && members[r.value].0 == key &&
                        forall j :: r.value < j < |members| ==> members[j].0 != key
  {
    if members == [] then None
    else if members[|members| - 1].0 == key then Some(|members| - 1)
    else LastKeyIndex(members[..|members| - 1], key)
  }

  /** `value.key` on a non-null value: `None` stands for `undefined`. */
  function Property(j: Json, key: string): Option<Json> {
    if j.JObject? then LookupMember(j.members, key) else None
  }

  function IntText(n: int): string {
    if n < 0 then "-" + NatToString(-n) else NatToString(n)
  }

  function Join(parts: seq<string>, sep: string): string {
    if parts == [] then ""
    else if |parts| == 1 then parts[0]
    else parts[0] + sep + Join(parts[1..], sep)
  }

  /** `String(value)`, as `${value}` converts it: arrays join their elements
      with commas, writing null as nothing; objects become `[object Object]`. */
  function JsText(j: Json): string
    decreases j
  {
    match j
    case JNull => "null"
    case JBool(b) => if b then "true" else "false"
    case JNumber(n) => IntText(n)
    case JString(s) => s
    case JArray(items) =>
      Join(seq(|items|, i requires 0 <= i < |items| =>
                 if items[i].JNull? then "" else JsText(items[i])), ",")
    case JObject(_) => "[object Object]"
  }

  /** `${value.key || fallback}` inside a template literal, on a non-null
      parsed value: the property converted with `String`. */
  function TextOr(j: Json, key: string, fallback: string): (t: string)
    ensures Property(j, key).None? || !JsTruthy(Property(j, key).value) ==> t == fallback
    ensures var p := Property(j, key);
            p.Some? && p.value.JString? && p.value.s != "" ==> t == p.value.s
  {
    match Property(j, key)
    case None => fallback
    case Some(v) => if JsTruthy(v) then JsText(v) else fallback
  }
}
