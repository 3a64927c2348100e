/**
 * JSON values as `serde_json::Value` holds them, with the accessors the
 * commands use (`get`, `as_str`, `as_i64`, `as_array`) and `json_str` of
 * src/json_util.rs.
 */
module Json {
  import opened Wrappers
  import opened Strings

  /** A JSON value. Numbers are integers; floating-point numbers are not modelled. */
  datatype Json =
    | JNull
    | JBool(b: bool)
    | JNum(n: int)
    | JStr(s: string)
    | JArr(items: seq<Json>)
    | JObj(fields: map<string, Json>)

  /** `v.get(key)`: the field of an object, `None` for a missing key or a non-object. */
  function Get(v: Json, key: string): (r: Option<Json>)
    ensures r.Some? <==> v.JObj? && key in v.fields
    ensures r.Some? ==> r.value == v.fields[key]
  {
    if v.JObj? && key in v.fields then Some(v.fields[key]) else None
  }

  /** `v.get(k1).and_then(|x| x.get(k2))` */
  function GetPath(v: Json, path: seq<string>): Option<Json>
    decreases |path|
  {
    if path == [] then Some(v)
    else match Get(v, path[0])
      case None => None
      case Some(w) => GetPath(w, path[1..])
  }

  /** `v.as_str()` */
  function AsStr(v: Json): Option<string> {
    if v.JStr? then Some(v.s) else None
  }

  /** `v.as_array()` */
  function AsArray(v: Json): Option<seq<Json>> {
    if v.JArr? then Some(v.items) else None
  }

  const I64_MIN: int := -0x8000_0000_0000_0000
  const I64_MAX: int := 0x7FFF_FFFF_FFFF_FFFF

  /** `v.as_i64()`: an integer that fits in 64 signed bits. */
  function AsI64(v: Json): Option<int> {
    if v.JNum? && I64_MIN <= v.n <= I64_MAX then Some(v.n) else None
  }

  /** `v.get(key).and_then(|x| x.as_str())` */
  function GetStr(v: Json, key: string): Option<string> {
    match Get(v, key)
    case Some(JStr(s)) => Some(s)
    case _ => None
  }

  /** The `serde_json` calls the commands make on body text: `parse` is
      `from_str::<Value>` (`None` when the text is not JSON), `pretty` is
      `to_string_pretty` and `compact` is `to_string`. */
  datatype Serde = Serde(parse: string -> Option<Json>, pretty: Json -> string, compact: Json -> string)

  /** Text that parses as JSON, written out again by `render`; any other text
      as it is (the error arm of the commands' `match serde_json::from_str`). */
  function Reformat(s: string, parse: string -> Option<Json>, render: Json -> string): (r: string)
    ensures parse(s).None? ==> r == s
    ensures parse(s).Some? ==> r == render(parse(s).value)
  {
    match parse(s)
    case Some(v) => render(v)
    case None => s
  }

  /** `json_str(v, key)`: the field rendered as text, `""` when missing or not a scalar. */
  function JsonStr(v: Json, key: string): (r: string)
    ensures match Get(v, key)
      case Some(JStr(s)) => r == s
      case Some(JNum(n)) => ParseIntText(r) == Some(n) && CanonicalIntText(r)
      case Some(JBool(b)) => r == (if b then "true" else "false")
      case _ => r == ""
  {
    match Get(v, key)
    case Some(JStr(s)) => s
    case Some(JNum(n)) =>
      IntToStringRoundTrip(n);
      IntToStringCanonical(n);
      IntToString(n)
    case Some(JBool(b)) => if b then "true" else "false"
    case _ => ""
  }
}
