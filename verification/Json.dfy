/** Decoded JSON values and an assumed-faithful text form for them. */
module Json {
  import opened Text

  /** A value decoded by encoding/json: whole numbers are Num, all other numbers keep their text. */
  datatype Json =
    | Null
    | Bool(flag: bool)
    | Num(n: int)
    | Frac(text: string)
    | Str(s: string)
    | Arr(items: seq<Json>)
    | Obj(fields: Object)

  type Object = map<string, Json>

  /** json.Marshal and json.Unmarshal over texts of type W. */
  datatype Codec<!W> = Codec(encode: Json -> W, decode: W -> Option<Json>)

  ghost predicate Faithful<W>(codec: Codec<W>) {
    forall j: Json :: codec.decode(codec.encode(j)) == Some(j)
  }

  /** m[key] on a Go map: a missing key reads as nil, which is also what null decodes to. */
  function Get(m: Object, key: string): Json {
    if key in m then m[key] else Null
  }

  /** The value.(map[string]any) assertion. */
  function AsObject(j: Json): Option<Object> {
    if j.Obj? then Some(j.fields) else None
  }

  /** The value.(string) assertion, "" when it fails. */
  function AsText(j: Json): string {
    if j.Str? then j.s else ""
  }
}
