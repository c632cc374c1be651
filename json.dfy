/**
 * The values a response can carry for JSON encoding (Go's `any` holding a
 * struct, map, slice, string, number, bool or nil). The encoder itself is a
 * parameter of the writing operations: this model says what is encoded and
 * where the bytes go, not how JSON text is spelled.
 */
module Json {

  datatype Value =
    | Null
    | Bool(b: bool)
    | Number(n: int)
    | String(s: string)
    | Array(items: seq<Value>)
    | Object(members: seq<(string, Value)>)
}
