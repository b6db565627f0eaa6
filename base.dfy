/**
 * Value types shared by the whole model: Go's "value or nil" and "(value, error)" returns,
 * the JSON values that the service's interface{} payloads are encoded as, and Go's int64.
 */
module Base {

  /** A Go pointer, interface or error that may be nil (None). */
  datatype Option<+T> = None | Some(value: T)

  /** A Go "(value, err)" return: Ok when err is nil, Err otherwise. */
  datatype Result<+T, +E> = Ok(value: T) | Err(error: E)

  /**
   * A JSON value. Null stands for Go's untyped nil held in an interface{}; numbers are
   * modelled as integers (the floating-point side of encoding/json is not part of this model).
   */
  datatype Json =
    | Null
    | Bool(b: bool)
    | Number(n: int)
    | Str(s: string)
    | Array(items: seq<Json>)
    | Object(fields: map<string, Json>)

  /** Go's int64. */
  type Int64 = x: int | -0x8000_0000_0000_0000 <= x < 0x8000_0000_0000_0000
}
