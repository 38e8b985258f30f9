/** Decoded JSON values: what the executor's payload, result and callback dictionaries hold. */
module Json {

  datatype Option<+T> = None | Some(value: T)

  datatype Value =
    | Null
    | Bool(b: bool)
    | Num(n: int)
    | Str(s: string)
    | List(items: seq<Value>)
    | Dict(fields: Fields)

  type Fields = map<string, Value>
}
