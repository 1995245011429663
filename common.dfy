/** Small datatypes shared by every module of the model. */
module Common {

  /** Python's `None`-or-value. */
  datatype Option<+T> = None | Some(value: T)

  /** A Python exception as the model sees it: its class name and its message. */
  datatype Exc = Exc(kind: string, message: string)

  /** The result of a Python call: the value it returned, or the exception it raised. */
  datatype Outcome<+T> = Returned(value: T) | Raised(exc: Exc)

  /** One byte of a `bytes` object. */
  type byte = x: int | 0 <= x < 256

  /** A keyword-argument dictionary; the argument values stay abstract. */
  type Kwargs<A> = map<string, A>
}
