/** JSON values as the server sees them after `json.loads`, and the handful of library and
    interpreter behaviours the server relies on but does not define. */
module Json {
  import opened Wrappers
  import opened OrderedDict
  import Text

  /** A decoded JSON document. Objects are insertion-ordered dicts with string keys. */
  datatype Json =
    | JNull
    | JBool(b: bool)
    | JInt(i: int)
    | JFloat(x: real)
    | JStr(s: string)
    | JArr(items: seq<Json>)
    | JObj(obj: Dict<string, Json>)

  /** A dict display `{k1: v1, k2: v2, ...}` whose keys are pairwise distinct. */
  function Object(fields: seq<(string, Json)>): (j: Json)
    ensures j.JObj? && j.obj.Keys() == Names(fields)
  {
    JObj(Dict(fields))
  }

  /** Python can use the value as a dict key (`in`, `[]`): lists and dicts cannot. */
  predicate Hashable(j: Json) {
    !j.JArr? && !j.JObj?
  }

  /** The exceptions the interpreter raises on malformed requests. */
  datatype Fault =
    | NoGetMethod(receiver: Json)   // `x.get(...)` where `x` is not a dict
    | Unhashable(key: Json)         // `key in d` where `key` is a list or a dict
    | NotMapping(arguments: Json)   // `f(**x)` where `x` is not a dict

  /** The library functions the server calls but does not define. */
  datatype Runtime = Runtime(
    loads: string -> Result<Json, string>,         // `json.loads`; a failure carries `str(e)`
    dumps: Json -> string,                         // `json.dumps`
    repr: Json -> string,                          // `str(v)` for a value that is not a string
    explain: Fault -> string,                      // `str(e)` for an interpreter fault
    decode: seq<Text.byte> -> Result<string, string>)  // `bytes.decode()`; a failure carries `str(e)`

  /** What an f-string `{v}` inserts: a string itself, anything else through `str`. */
  function Show(rt: Runtime, j: Json): (s: string)
    ensures j.JStr? ==> s == j.s
  {
    if j.JStr? then j.s else rt.repr(j)
  }

  /** `d.get(key, default)` on a value known to be a dict. */
  function GetOr(d: Dict<string, Json>, key: string, default: Json): (j: Json)
    ensures d.HasKey(key) ==> Some(j) == d.Get(key)
    ensures !d.HasKey(key) ==> j == default
  {
    d.Get(key).GetOr(default)
  }
}
