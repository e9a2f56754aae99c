/** Small shared vocabulary: Python's `None`-or-value, raw bytes, and the
    reasons an exception can escape one of the modelled calls. */
module Base {

  /** A Python value that may be `None`. */
  datatype Option<+T> = None | Some(value: T)

  newtype byte = b: int | 0 <= b < 256

  /** File contents as stored in GridFS. Their meaning (video, mp3) is opaque here. */
  type Bytes = seq<byte>

  /** Why an exception escaped a call. Each variant names the Python statement that raises it. */
  datatype Failure =
    | BadPayload        // json.loads fails, or a key of the message is missing
    | InvalidId         // ObjectId(...) rejects a string that is not 24 hexadecimal digits
    | NoSuchFile        // GridFS get of an id that is not stored
    | ExtractFailed     // RuntimeError "Failed to extract audio"
    | WriteFailed       // write_audiofile raises; the `finally` then removes the already
                        // removed video temp file, and that FileNotFoundError escapes
    | StoreFailed       // GridFS put raises and nothing catches it
    | DeleteFailed      // the compensating GridFS delete raises
    | MissingUsername   // access["username"] raises KeyError

  /** Python truthiness of a value that is either `None` or a string. */
  predicate Truthy(v: Option<string>)
  {
    v.Some? && v.value != ""
  }
}
