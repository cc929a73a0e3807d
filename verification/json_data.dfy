/** JSON values as Python's `json.loads` produces them, and the few Python
    operations the server applies to them: `dict.get`, `type(v).__name__` and
    `str(v)`. */
module JsonData {
  import opened Outcomes
  import opened Text

  /** A decoded JSON value. `JNull` is Python's `None`; an object is a dict, in
      which a key repeated in the text keeps its last value, as `json.loads`
      decides. */
  datatype Json =
    | JNull
    | JBool(b: bool)
    | JInt(i: int)
    | JFloat(f: real)
    | JString(s: string)
    | JArray(items: seq<Json>)
    | JObject(fields: map<string, Json>)

  /** Python's `type(v).__name__` for each kind of decoded value. */
  function TypeName(v: Json): string {
    match v
    case JNull => "NoneType"
    case JBool(_) => "bool"
    case JInt(_) => "int"
    case JFloat(_) => "float"
    case JString(_) => "str"
    case JArray(_) => "list"
    case JObject(_) => "dict"
  }

  /** The text of the AttributeError raised by `v.get(...)` when `v` is not a dict. */
  function NoGetMessage(v: Json): string {
    "'" + TypeName(v) + "' object has no attribute 'get'"
  }

  /** `d.get(key, default)` on an object's fields. */
  function Lookup(fields: map<string, Json>, key: string, default: Json): Json {
    if key in fields then fields[key] else default
  }

  /** `v.get(key, default)` on any decoded value: a dict answers with the value
      stored under `key`, or `default` when the key is absent; every other
      value raises AttributeError. */
  function Get(v: Json, key: string, default: Json): (r: Result<Json>)
    ensures r.Success? <==> v.JObject?
    ensures r.Failure? ==> r.message == NoGetMessage(v)
  {
    match v
    case JObject(fields) => Success(Lookup(fields, key, default))
    case _ => Failure(NoGetMessage(v))
  }

  /** Python's `str(v)`, which an f-string applies to an interpolated value.
      Strings, `None`, booleans and integers are spelled out; the `repr` of
      floats, lists and dicts is left to `repr`. */
  function PyStr(v: Json, repr: Json -> string): string {
    match v
    case JNull => "None"
    case JBool(b) => if b then "True" else "False"
    case JInt(i) => IntToString(i)
    case JString(s) => s
    case _ => repr(v)
  }
}
