/** Optional values as the server's JavaScript sees them.

    `Option` is the usual present/absent wrapper. `Nullable` keeps apart the
    two "missing" values JavaScript has, `undefined` and `null`, because the
    request handlers test for them separately (`=== null` and `=== undefined`
    are different checks, and `?.` turns a `null` parent into `undefined`). */
module Values {

  datatype Option<+T> = None | Some(value: T) {

    /** The wrapped value, or `default` when absent. */
    function GetOr(default: T): T {
      match this
      case Some(v) => v
      case None => default
    }
  }

  datatype Nullable<+T> = Undefined | Null | Val(value: T) {

    /** True for `undefined` and `null`, the two values `??` and `?.` skip. */
    predicate IsNullish() {
      !Val?
    }
  }

  /** A string is truthy in JavaScript exactly when it is not empty. */
  predicate Truthy(s: string) {
    s != ""
  }
}
