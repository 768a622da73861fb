/** The Go values that configurations, endpoint environments and expression results are made of. */
module Values {
  import opened Base

  datatype Value =
    | Nil
    | Str(text: Bytes)
    | Scalar(id: int)                          // a number, a boolean or any other atom
    | Strings(strings: seq<Bytes>)             // []string
    | List(items: seq<Value>)                  // []any
    | Map(entries: map<Bytes, Value>)          // map[string]any
    | StringMap(labels: map<Bytes, Bytes>)     // map[string]string
    | Env(env: map<Bytes, Value>)              // observer.EndpointEnv

  /** An endpoint's environment, and the properties routing rules match on. */
  type Properties = map<Bytes, Value>
}
