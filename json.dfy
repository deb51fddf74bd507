/** The loosely-typed JSON values that the search API returns, and the Python
    dictionary operations the scraper applies to them. */
module Json {
  import opened PyText

  /** A decoded JSON value. `Num` is a non-integral number, kept as its text: the
      scraper does no arithmetic on numbers. */
  datatype Json =
    | Null
    | Int(i: int)
    | Num(text: string)
    | Str(s: string)
    | List(items: seq<Json>)
    | Obj(fields: map<string, Json>)

  /** A decoded JSON object, i.e. a Python `dict` with string keys. */
  type Dict = map<string, Json>

  /** `d.get(k)`: the value under `k`, or `None` when the key is absent. */
  function Get(d: Dict, k: string): Json
  {
    if k in d then d[k] else Null
  }

  /** `d.get(k, default)`. */
  function GetOr(d: Dict, k: string, default: Json): Json
  {
    if k in d then d[k] else default
  }

  /** Text Python's `str()` gives for a list or a dict; its exact contents are not modelled. */
  const ContainerText: string := "<container>"

  /** Python's `str(v)` on a decoded JSON value. It never fails. A non-integral number
      gives its JSON text, which may differ from Python's rendering of the float. */
  function PyStr(v: Json): (s: string)
    ensures v.Str? ==> s == v.s
    ensures v.Int? ==> TextToInt(s) == v.i
    ensures v.Null? ==> s == "None"
  {
    match v
    case Null => "None"
    case Int(i) => IntTextRoundTrip(i); IntToText(i)
    case Num(text) => text
    case Str(s) => s
    case List(_) => ContainerText
    case Obj(_) => ContainerText
  }
}
