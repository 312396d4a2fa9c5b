/**
 RESERVE(6) (SPC-2 section 7.21): a six-byte CDB that carries only its
 opcode; no data moves in either direction.
 */
module Reserve6 {
  import opened ScsiBase
  import opened ScsiRequest

  const Reserve6Opcode: byte := 0x16

  /** SCSIReserve6(): a six-byte CDB holding the opcode, no buffers, direction NONE. */
  function NewReserve6(): (r: Request)
    ensures r.Valid() && r.cdb == [Reserve6Opcode, 0, 0, 0, 0, 0]
    ensures r.inBuffer == None && r.outBuffer == None
    ensures r.xferDir == XferNone && ExpectedTransferLength(r) == 0
    ensures r.datain == None && !r.executed
  {
    SetCdbByte(NewRequestOfSize(6).value, 0, Reserve6Opcode).value
  }
}
