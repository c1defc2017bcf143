/** Small shared helpers: optional values (a nullable column, an absent request field, a query
    that found no row), JavaScript's truthiness test, and the integer minimum `.limit` needs. */
module Wrappers {

  datatype Option<T> = None | Some(value: T)

  /** JavaScript's truthiness test on an optional string (`if (!bearer)`, `query.q || ''`):
      a missing value and the empty string are both treated as absent. */
  predicate Truthy(o: Option<string>) {
    o.Some? && o.value != ""
  }

  function Min(a: int, b: int): int {
    if a <= b then a else b
  }
}
