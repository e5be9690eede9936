/** In-memory JSON trees, as the converter receives and returns them.
    Objects are maps: key order carries no meaning for the converter's
    results, and a key occurs at most once. */
module Json {

  datatype Option<+T> = None | Some(value: T)

  datatype Value =
    | Str(str: string)
    | Arr(elems: seq<Value>)
    | Obj(fields: map<string, Value>)

  /** The empty object `{}`. */
  const Empty: Value := Obj(map[])

  /** True if `v` is an object that has the key `k`. */
  predicate Has(v: Value, k: string) {
    v.Obj? && k in v.fields
  }
}
