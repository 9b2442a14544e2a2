/** JSON values as the tool protocol sees them. */
module Json {
  import opened Options

  datatype Json =
    | Null
    | Bool(b: bool)
    | Int(i: int)
    | Str(s: string)
    | List(items: seq<Json>)
    | Obj(fields: map<string, Json>)

  /** `dict.get` */
  function Get(o: map<string, Json>, key: string): Json { if key in o then o[key] else Null }

  /** The parser, the printer (which refuses some values) and the UTF-8 length of a text. */
  datatype Codec = Codec(loads: string -> Option<Json>, dumps: Json -> Option<string>, bytes: string -> nat)
}
