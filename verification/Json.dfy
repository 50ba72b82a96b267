/** JSON documents as the service sees them after decoding into untyped maps and slices. */
module Json {

  datatype Json =
    | Null
    | Bool(b: bool)
    | Num(n: real)
    | Str(s: string)
    | Arr(a: seq<Json>)
    | Obj(m: map<string, Json>)
}
