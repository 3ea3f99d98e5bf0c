/** Small value types shared by the components: the failure-compatible
    wrappers, bytes, and the browser's File as a value. */
module Web {

  /** A value that may be missing: JavaScript's `null` or `undefined`. */
  datatype Option<+T> = None | Some(value: T)

  /** The outcome of a call that may throw. */
  datatype Result<+T, +E> = Success(value: T) | Failure(error: E)

  /** One element of a `Uint8Array`. */
  newtype byte = x: int | 0 <= x < 256

  /** A browser `File`: its name, its declared MIME type and its bytes. */
  datatype File = File(name: string, mimeType: string, content: seq<byte>)
}
