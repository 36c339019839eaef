/** Values shared by every part of the model: optional values, byte strings and the replicated
    log entry (the protobuf messages `Log` and `Cmd`). */
module Types {
  datatype Option<+T> = None | Some(value: T)

  datatype Result<+T> = Ok(value: T) | Err

  const TWO_16 := 0x1_0000
  const TWO_32 := 0x1_0000_0000
  const TWO_64 := 0x1_0000_0000_0000_0000

  type Byte = x: int | 0 <= x < 256

  /** Go strings and byte slices alike. */
  type Bytes = seq<Byte>

  /** The operation name of a put. */
  const PUT: Bytes := ['P' as int, 'U' as int, 'T' as int]

  datatype Cmd = Cmd(op: Bytes, key: Bytes, value: Bytes, requestId: nat)

  /** `data` is a protobuf pointer and may be nil. */
  datatype Log = Log(term: int, id: int, data: Option<Cmd>)
}
