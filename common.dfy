/** Values shared by every part of the model: optional values, results carrying
    an error, the error values the Go code returns, and bytes. */
module Common {

  datatype Option<+T> = None | Some(value: T)

  /** A Go `(value, error)` pair where exactly one side is meaningful. */
  datatype Result<+T> = Ok(value: T) | Err(error: Error)

  /** A byte as Go's `byte`/`uint8`. */
  type Byte = x: int | 0 <= x < 256
  type Bytes = seq<Byte>

  /** The errors the modelled code can produce. Errors raised by code outside
      the model (the OS, JSON, HTTP) are kept as opaque values. */
  datatype Error =
    | UnknownItemType                        // core.ErrUnknownItemType
    | UnknownMimeType                        // core.ErrUnknownMimeType
    | DuplicateItem(hash: string)            // core.ErrDuplicateItem
    | NotExist(path: string)                 // *os.PathError wrapping ENOENT
    | PermissionDenied(path: string)         // *os.PathError for a refused create/remove
    | Eof                                    // io.EOF
    | UnexpectedEof                          // io.ErrUnexpectedEOF
    | ReadFailed(reason: string)             // any other read error of a stream
    | DecodeFailed(what: string)             // a JSON or image decoder error
    | IndexFailed(reason: string)            // an error returned by the search index
    | Message(text: string)                  // fmt.Errorf(...)
    | Api(code: int, err: string, msg: string) // *core.ApiError
    | TypeError(text: string)                // a JavaScript TypeError
    | Thrown(text: string)                   // a JavaScript `new Error(...)`
    | Panic(reason: string)                  // a Go runtime panic

  /** A JavaScript string key that stands for `undefined` coerced to a property name. */
  const UndefinedKey: string := "undefined"

  predicate IsNotExist(e: Error) {
    e.NotExist?
  }

  /** Bytes read as a Go `string(b)`: one character per byte. */
  function BytesToString(b: Bytes): (s: string)
    ensures |s| == |b|
    ensures forall i :: 0 <= i < |b| ==> s[i] as int == b[i]
  {
    seq(|b|, i requires 0 <= i < |b| => b[i] as char)
  }

  predicate NoDuplicates<T(==)>(s: seq<T>) {
    forall i, j :: 0 <= i < j < |s| ==> s[i] != s[j]
  }
}
