/** The values a datastore entity holds in its fields: text, or an integer
  * (`maxrawfilemtimearchived`). */
module Values {
  datatype Value = Str(text: string) | Int(number: int)

  /** Python's `not v`: the empty string and zero are false. */
  predicate Falsy(v: Value) {
    match v
    case Str(s) => s == []
    case Int(n) => n == 0
  }
}
