/** Shared vocabulary of the model: bytes, optional values, and the
    conditions under which the client's code throws. */
module Support {

  /** One octet of a frame, as a `Uint8Array` element or a `DataView.setUint8` operand. */
  newtype byte = b: int | 0 <= b < 256

  datatype Option<+T> = None | Some(value: T)

  /** The result of an operation that can throw in the client's code. */
  datatype Result<+T> = Ok(value: T) | Err(fault: Fault)

  datatype Fault =
    /** `_readVarint` met a sixth continuation group. */
    | MalformedVarint
    /** `DataView.getFloat64` was asked for bytes past the end of the frame. */
    | OutOfRange
    /** `serialize` met a record field it cannot encode. */
    | Unserializable
    /** `serialize` evaluated an expression naming undeclared variables. */
    | ReferenceError
    /** A length prefix that reads back as a negative number (rejected by the corrected decoder). */
    | NegativeLength
    /** The frame ended inside a record (rejected by the corrected decoder). */
    | UnterminatedRecord
    /** A catalogue deserializer read a property of `undefined`. */
    | PropertyOfUndefined
}
