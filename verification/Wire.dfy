/** Messages and scalar types shared by every component of the model. */
module Wire {
  datatype Option<+T> = None | Some(value: T)

  type Id = string
  type Session = string
  type Bytes = seq<bv8>

  const UINT32_SIZE: nat := 0x1_0000_0000

  /** Values of the wire's `uint32` fields. */
  type Uint32 = n: nat | n < UINT32_SIZE

  /** Go's `uint32(n)` conversion: keeps the low 32 bits. */
  function ToUint32(n: nat): Uint32 {
    n % UINT32_SIZE
  }

  /** Chunk framing: `num` is the wire's `seq` field. */
  datatype Chunk = Chunk(num: Uint32, total: Uint32, final: bool)

  /** One `tool_call_result` message of the Permissions stream. */
  datatype ToolResult = ToolResult(
    requestId: Id, outcome: string, callError: string, chunk: Option<Chunk>, outputs: Bytes)

  /** One `ExecuteResult` message of an Execute stream. */
  datatype ExecuteResult = ExecuteResult(
    outcome: string, comment: string, chunk: Option<Chunk>, outputs: Bytes)
}
