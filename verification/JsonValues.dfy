/** Parsed JSON. */
module JsonValues {
  import opened Seqs

  datatype Json =
    | Null
    | Bool(b: bool)
    | Num(n: int)
    | Str(s: string)
    | Arr(items: seq<Json>)
    | Obj(fields: map<string, Json>)

  type Fields = map<string, Json>

  function At(m: Fields, k: string): Option<Json> {
    if k in m then Some(m[k]) else None
  }
}
