/**
 * The JSON values that the pipeline reads and writes: the `dict`s and `list`s
 * that `to_dict`/`from_dict` exchange and that the language model's replies
 * are parsed into. JSON text itself is not modelled.
 */
module Json {
  import opened Wrappers

  datatype Json =
    | JNull
    | JBool(b: bool)
    | JInt(i: int)
    | JNum(r: real)
    | JStr(s: string)
    | JArray(items: seq<Json>)
    | JObject(fields: map<string, Json>)

  /** Python's `bool(v)`: `None`, `False`, zero, and empty strings, lists and dicts are false. */
  predicate Truthy(v: Json) {
    match v
    case JNull => false
    case JBool(b) => b
    case JInt(i) => i != 0
    case JNum(r) => r != 0.0
    case JStr(s) => s != ""
    case JArray(items) => items != []
    case JObject(fields) => fields != map[]
  }

  /** `key in d` for a value that is a dict; false for every other value. */
  predicate HasKey(v: Json, key: string) {
    v.JObject? && key in v.fields
  }

  /**
   * `d.get(key, default)` where the model expects a string: the stored string
   * when the key holds one, the default otherwise.
   */
  function GetString(fields: map<string, Json>, key: string, default: string): (r: string)
    ensures key in fields && fields[key].JStr? ==> r == fields[key].s
    ensures key !in fields ==> r == default
  {
    if key in fields && fields[key].JStr? then fields[key].s else default
  }

  /** `d.get(key, default)` where the model expects an integer. */
  function GetInt(fields: map<string, Json>, key: string, default: int): (r: int)
    ensures key in fields && fields[key].JInt? ==> r == fields[key].i
    ensures key !in fields ==> r == default
  {
    if key in fields && fields[key].JInt? then fields[key].i else default
  }

  /** `d.get(key, default)` where the model expects a boolean. */
  function GetBool(fields: map<string, Json>, key: string, default: bool): (r: bool)
    ensures key in fields && fields[key].JBool? ==> r == fields[key].b
    ensures key !in fields ==> r == default
  {
    if key in fields && fields[key].JBool? then fields[key].b else default
  }

  /** A JSON string list, as the pipeline hands formatted search results to a prompt. */
  function StringList(xs: seq<string>): (r: Json)
    ensures r.JArray? && |r.items| == |xs|
    ensures forall k :: 0 <= k < |xs| ==> r.items[k] == JStr(xs[k])
  {
    JArray(seq(|xs|, k requires 0 <= k < |xs| => JStr(xs[k])))
  }
}
