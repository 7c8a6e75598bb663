/** JSON values as Python's `json` module produces and consumes them. The text
    form is not modelled: serialising, parsing and Python's `str()` of a parsed
    value are the three functions of a `Codec`, passed in by the caller. */
module Json {
  import opened Wrappers
  import opened Text

  datatype Json =
    | JNull
    | JBool(b: bool)
    | JInt(i: int)
    | JFloat(f: real)
    | JStr(s: string)
    | JList(items: seq<Json>)
    | JObj(fields: map<string, Json>)

  /** `loads` is `json.loads` (None where it raises), `dumps` is `json.dumps`
      and `repr` is `str()` of a parsed list, dict or float. */
  datatype Codec = Codec(loads: string -> Option<Json>, dumps: Json -> string, repr: Json -> string)

  /** `obj.get(key, default)` on a parsed object. */
  function GetField(fields: map<string, Json>, key: string, default: Json): (r: Json)
    ensures key in fields ==> r == fields[key]
    ensures key !in fields ==> r == default
  {
    if key in fields then fields[key] else default
  }

  /** What an f-string prints for a parsed value: a string as itself, the other
      scalars as Python writes them, containers and floats through `repr`. */
  function Display(codec: Codec, j: Json): (r: string)
    ensures j.JStr? ==> r == j.s
    ensures j.JNull? ==> r == "None"
  {
    match j
    case JStr(s) => s
    case JNull => "None"
    case JBool(b) => if b then "True" else "False"
    case JInt(i) => IntToString(i)
    case _ => codec.repr(j)
  }
}
