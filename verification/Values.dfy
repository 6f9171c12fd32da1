/** The JSON-like values resolvers turn into entries. */
module Values {
  /** A Scalar carries its text as printed with %v. Other is a type the resolvers
      do not support, Opaque a list or map in a representation they do not. */
  datatype Value =
    | Scalar(text: string)
    | Null
    | Other
    | Opaque
    | List(items: seq<Value>)
    | Map(entries: map<string, Value>)
}
