/**
 * The JavaScript values that flow through the retrieval pipelines: query
 * results, serialised context and documents are all built from these.
 */
module JsonValues {

  /** A JavaScript value as far as `JSON.stringify` and `Array.isArray` can tell them apart. */
  datatype Value =
    | Undefined
    | Null
    | Bool(b: bool)
    | Number(n: int)
    | Str(s: string)
    | Array(items: seq<Value>)
    | Record(fields: map<string, Value>)

  /**
   * JSON serialisation (`JSON.stringify`). Its exact output is library code
   * and is not modelled: every pipeline receives it as a parameter of this type.
   */
  type Serializer = Value -> string
}
