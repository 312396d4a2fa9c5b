/**
 TEST UNIT READY (SPC-3 section 6.33): the all-zero six-byte CDB; no data
 moves in either direction.
 */
module TestUnitReady {
  import opened ScsiBase
  import opened ScsiRequest

  const TestUnitReadyOpcode: byte := 0x00

  /** SCSITestUnitReady(): the default request, opcode 00h, direction NONE. */
  function NewTestUnitReady(): (r: Request)
    ensures r.Valid() && r.cdb == [0, 0, 0, 0, 0, 0]
    ensures r.inBuffer == None && r.outBuffer == None
    ensures r.xferDir == XferNone && ExpectedTransferLength(r) == 0
    ensures r.datain == None && !r.executed
  {
    SetXferDir(SetCdbByte(NewRequest(), 0, TestUnitReadyOpcode).value, XferNone)
  }

  /** Both of the constructor's writes restate the defaults: the command is the bare default request. */
  lemma TestUnitReadyIsDefaultRequest()
    ensures NewTestUnitReady() == NewRequest()
  {
    assert NewRequest().cdb[0 := TestUnitReadyOpcode] == NewRequest().cdb;
  }
}
