/**
 RELEASE(6) (SPC-2 section 7.19): a six-byte CDB that carries only its
 opcode; no data moves in either direction.
 */
module Release6 {
  import opened ScsiBase
  import opened ScsiRequest
  import Reserve6

  const Release6Opcode: byte := 0x17

  /** SCSIRelease6(): a six-byte CDB holding the opcode, no buffers, direction NONE. */
  function NewRelease6(): (r: Request)
    ensures r.Valid() && r.cdb == [Release6Opcode, 0, 0, 0, 0, 0]
    ensures r.inBuffer == None && r.outBuffer == None
    ensures r.xferDir == XferNone && ExpectedTransferLength(r) == 0
    ensures r.datain == None && !r.executed
  {
    SetCdbByte(NewRequestOfSize(6).value, 0, Release6Opcode).value
  }

  /** RELEASE(6) is RESERVE(6) with the other opcode: the two differ in CDB byte 0 and nowhere else. */
  lemma ReleaseIsReserveWithOtherOpcode()
    ensures NewRelease6() == Reserve6.NewReserve6().(cdb := Reserve6.NewReserve6().cdb[0 := Release6Opcode])
    ensures NewRelease6().cdb[0] != Reserve6.NewReserve6().cdb[0]
  {
  }
}
