/**
 READ(10) (SBC-3 section 5.8): a ten-byte CDB with the LOGICAL BLOCK ADDRESS
 big-endian in bytes 2..5 and the TRANSFER LENGTH, in blocks, big-endian in
 bytes 7..8. The command remembers the address it last set.
 */
module Read10 {
  import opened ScsiBase
  import opened FieldCodec
  import opened ScsiRequest

  const Read10Opcode: byte := 0x28
  const Read10CdbSize: nat := 10

  /** SCSIRead10: the request and the logical block address it last set (mLBA). */
  datatype Read10 = Read10(req: Request, lba: u32)
  {
    predicate Valid()
    {
      req.Valid() && |req.cdb| == Read10CdbSize
    }

    /** The recorded address is the one the CDB carries. */
    predicate Consistent()
    {
      Valid() && CdbLba(req.cdb) == lba
    }
  }

  /** The LOGICAL BLOCK ADDRESS field as a device reads it. */
  function CdbLba(cdb: seq<byte>): nat
    requires |cdb| >= 6
  {
    FromBigEndian(cdb[2..6])
  }

  /** The TRANSFER LENGTH field (in logical blocks) as a device reads it. */
  function CdbTransferLength(cdb: seq<byte>): nat
    requires |cdb| >= 9
  {
    cdb[7] as int * 0x100 + cdb[8]
  }

  /** The CDB the READ(10) constructor writes: opcode, address 0, the length cut to 16 bits. */
  function Read10Cdb(transferLength: u32): seq<byte>
  {
    [Read10Opcode, 0, 0, 0, 0, 0, 0, Trunc16(transferLength) / 0x100, Trunc16(transferLength) % 0x100, 0]
  }

  /** The constructor's CDB carries address 0 and the transfer length modulo 2^16. */
  lemma Read10CdbFields(transferLength: u32)
    ensures CdbLba(Read10Cdb(transferLength)) == 0
    ensures CdbTransferLength(Read10Cdb(transferLength)) == transferLength % 0x1_0000
  {
    FromBigEndian4(Read10Cdb(transferLength)[2..6]);
  }

  /** The constructor's CDB writes, applied to a fresh ten-byte request. */
  function Read10Request(transferLength: u32): (req: Request)
    ensures req.Valid() && req.cdb == Read10Cdb(transferLength)
    ensures req == NewRequestOfSize(Read10CdbSize).value.(cdb := req.cdb)
  {
    var base := NewRequestOfSize(Read10CdbSize).value;
    var withOpcode := SetCdbByte(base, 0, Read10Opcode).value;
    var withLba := SetCdbLong(withOpcode, 2, 0).value;
    assert withLba.cdb == [Read10Opcode, 0, 0, 0, 0, 0, 0, 0, 0, 0];
    SetCdbShort(withLba, 7, Trunc16(transferLength)).value
  }

  /**
   SCSIRead10(transferLength, buffer): the opcode, address 0, the transfer
   length cut to 16 bits, and an inbound buffer -- a fresh zero-filled one
   when none is supplied, the caller's otherwise -- whose declared size is
   `transferLength` bytes; direction READ.
   */
  function NewRead10(transferLength: u32, buffer: Option<seq<byte>>): (r: Read10)
    requires buffer.Some? ==> transferLength <= |buffer.value|
    ensures r.Consistent() && r.lba == 0
    ensures r.req.cdb[0] == Read10Opcode
    ensures CdbTransferLength(r.req.cdb) == transferLength % 0x1_0000
    ensures r.req.cdb[1] == 0 && r.req.cdb[6] == 0 && r.req.cdb[9] == 0
    ensures buffer.None? ==> r.req.inBuffer == Some(Zeros(transferLength))
    ensures buffer.Some? ==> r.req.inBuffer == buffer
    ensures r.req.inBufferSize == transferLength
    ensures r.req.outBuffer == None && r.req.xferDir == XferRead
    ensures r.req.datain == None && !r.req.executed
  {
    var req := Read10Request(transferLength);
    Read10CdbFields(transferLength);
    var withBuffer := if buffer.None? then CreateInBuffer(req, transferLength)
                      else SetInBuffer(req, buffer, transferLength);
    Read10(SetXferDir(withBuffer, XferRead), 0)
  }

  /** SetLBA: records the address and writes it to bytes 2..5; nothing else changes. */
  function SetLba(r: Read10, lba: u32): (s: Read10)
    requires r.Valid()
    ensures s.Consistent() && s.lba == lba
    ensures OnlyCdbChanged(r.req, s.req)
    ensures UnchangedOutside(r.req.cdb, s.req.cdb, 2, 6)
  {
    var req := SetCdbLong(r.req, 2, lba).value;
    BigEndian32Decode(lba);
    Read10(req, lba)
  }

  /** Setting the address twice is setting it once, to the second value. */
  lemma SetLbaLastWins(r: Read10, first: u32, second: u32)
    requires r.Valid()
    ensures SetLba(SetLba(r, first), second) == SetLba(r, second)
  {
    var a := SetLba(SetLba(r, first), second).req.cdb;
    var b := SetLba(r, second).req.cdb;
    assert a[2..6] == b[2..6];
    assert forall i :: 0 <= i < |a| ==> a[i] == b[i] by {
      forall i | 0 <= i < |a|
        ensures a[i] == b[i]
      {
        if 2 <= i < 6 {
          assert a[i] == a[2..6][i - 2];
        }
      }
    }
  }

  /** Setting the address leaves the transfer length and the buffer alone. */
  lemma SetLbaKeepsTransfer(r: Read10, lba: u32)
    requires r.Valid()
    ensures CdbTransferLength(SetLba(r, lba).req.cdb) == CdbTransferLength(r.req.cdb)
    ensures SetLba(r, lba).req.inBuffer == r.req.inBuffer
    ensures SetLba(r, lba).req.inBufferSize == r.req.inBufferSize
  {
  }
}
