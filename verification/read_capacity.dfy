/**
 READ CAPACITY(10) and READ CAPACITY(16) (SBC-3 sections 5.12 and 5.13).
 The ten-byte form takes a 32-bit LOGICAL BLOCK ADDRESS in bytes 2..5 and
 returns eight bytes: the RETURNED LOGICAL BLOCK ADDRESS and the LOGICAL
 BLOCK LENGTH IN BYTES, both big-endian. The sixteen-byte form is SERVICE
 ACTION IN(16) with service action 10h, a 64-bit address in bytes 2..9 and
 a 32-bit ALLOCATION LENGTH in bytes 10..13.
 */
module ReadCapacity {
  import opened ScsiBase
  import opened FieldCodec
  import opened ScsiRequest

  const ReadCapacity10Opcode: byte := 0x25
  const ReadCapacity10CdbSize: nat := 10
  const ReadCapacity10DataLength: nat := 8

  const ServiceActionIn16Opcode: byte := 0x9E
  const ReadCapacity16ServiceAction: byte := 0x10
  const ReadCapacity16CdbSize: nat := 16
  const ReadCapacity16DataLength: nat := 16

  // ---------------------------------------------------------------------------
  // READ CAPACITY(10)

  /** SCSIReadCapacity10(): an 8-byte response buffer, the opcode, direction READ. */
  function NewReadCapacity10(): (r: Request)
    ensures r.Valid() && |r.cdb| == ReadCapacity10CdbSize
    ensures r.cdb[0] == ReadCapacity10Opcode
    ensures forall i :: 1 <= i < ReadCapacity10CdbSize ==> r.cdb[i] == 0
    ensures r.inBuffer == Some(Zeros(ReadCapacity10DataLength)) && r.inBufferSize == ReadCapacity10DataLength
    ensures r.outBuffer == None && r.xferDir == XferRead
    ensures r.datain == None && !r.executed
  {
    var base := CreateInBuffer(NewRequestOfSize(ReadCapacity10CdbSize).value, ReadCapacity10DataLength);
    SetXferDir(SetCdbByte(base, 0, ReadCapacity10Opcode).value, XferRead)
  }

  /** SetLBA: the 32-bit address in bytes 2..5; nothing else changes. */
  function SetLba10(r: Request, lba: u32): (s: Request)
    requires r.Valid() && |r.cdb| == ReadCapacity10CdbSize
    ensures s.Valid() && |s.cdb| == ReadCapacity10CdbSize && FromBigEndian(s.cdb[2..6]) == lba
    ensures OnlyCdbChanged(r, s)
    ensures UnchangedOutside(r.cdb, s.cdb, 2, 6)
  {
    BigEndian32Decode(lba);
    SetCdbLong(r, 2, lba).value
  }

  /** GetCapacity: the RETURNED LOGICAL BLOCK ADDRESS, bytes 0..3 of the response. */
  function Capacity(r: Request): (c: Result<u32>)
    ensures r.datain.None? ==> c == Err(Uninitialized)
    ensures r.datain.Some? && r.InBufferTransferSize() < 4 ==> c == Err(OverRead)
    ensures c.Ok? <==> r.InBufferTransferSize() >= 4
    ensures c.Ok? ==> c.value == FromBigEndian(r.datain.value[0..4])
  {
    GetLong(r.datain, 0)
  }

  /** GetLogicalBlockLen: the LOGICAL BLOCK LENGTH IN BYTES, bytes 4..7 of the response. */
  function LogicalBlockLength(r: Request): (l: Result<u32>)
    ensures r.datain.None? ==> l == Err(Uninitialized)
    ensures r.datain.Some? && r.InBufferTransferSize() < 8 ==> l == Err(OverRead)
    ensures l.Ok? <==> r.InBufferTransferSize() >= 8
    ensures l.Ok? ==> l.value == FromBigEndian(r.datain.value[4..8])
  {
    GetLong(r.datain, 4)
  }

  /** The READ CAPACITY(10) parameter data a device returns (SBC-3 table 40). */
  function Capacity10Data(lastLba: u32, blockLength: u32): (d: seq<byte>)
    ensures |d| == ReadCapacity10DataLength
  {
    ToBigEndian(lastLba, 4) + ToBigEndian(blockLength, 4)
  }

  /** Both getters recover what the device encoded. */
  lemma Capacity10RoundTrip(r: Request, lastLba: u32, blockLength: u32)
    requires r.datain == Some(Capacity10Data(lastLba, blockLength))
    ensures Capacity(r) == Ok(lastLba)
    ensures LogicalBlockLength(r) == Ok(blockLength)
  {
    var d := Capacity10Data(lastLba, blockLength);
    assert d[0..4] == ToBigEndian(lastLba, 4);
    assert d[4..8] == ToBigEndian(blockLength, 4);
    BigEndian32RoundTrip(lastLba);
    BigEndian32RoundTrip(blockLength);
  }

  // ---------------------------------------------------------------------------
  // READ CAPACITY(16)

  /**
   SCSIReadCapacity16(): a 16-byte response buffer, opcode 9Eh and service
   action 10h. The constructor sets no transfer direction, so the request
   keeps the NONE its base gave it.
   */
  function NewReadCapacity16(): (r: Request)
    ensures r.Valid() && |r.cdb| == ReadCapacity16CdbSize
    ensures r.cdb[0] == ServiceActionIn16Opcode && r.cdb[1] == ReadCapacity16ServiceAction
    ensures forall i :: 2 <= i < ReadCapacity16CdbSize ==> r.cdb[i] == 0
    ensures r.inBuffer == Some(Zeros(ReadCapacity16DataLength)) && r.inBufferSize == ReadCapacity16DataLength
    ensures r.outBuffer == None && r.xferDir == XferNone
    ensures r.datain == None && !r.executed
  {
    var base := CreateInBuffer(NewRequestOfSize(ReadCapacity16CdbSize).value, ReadCapacity16DataLength);
    var withOpcode := SetCdbByte(base, 0, ServiceActionIn16Opcode).value;
    SetCdbByte(withOpcode, 1, ReadCapacity16ServiceAction).value
  }

  /**
   The transport hands a NONE-direction request no data buffer and expects
   no transfer: READ CAPACITY(16) as constructed has a response buffer
   that the transport never fills.
   */
  lemma ReadCapacity16ExpectsNoData()
    ensures NewReadCapacity16().inBufferSize == ReadCapacity16DataLength
    ensures ExpectedTransferLength(NewReadCapacity16()) == 0
  {
  }

  /** READ CAPACITY(16) with direction READ, as READ CAPACITY(10) sets it. */
  function NewReadCapacity16Corrected(): (r: Request)
    ensures r.Valid() && r.xferDir == XferRead
    ensures ExpectedTransferLength(r) == ReadCapacity16DataLength
    ensures r == NewReadCapacity16().(xferDir := XferRead)
  {
    SetXferDir(NewReadCapacity16(), XferRead)
  }

  /** SetLBA: the 64-bit address in bytes 2..9; nothing else changes. */
  function SetLba16(r: Request, lba: u64): (s: Request)
    requires r.Valid() && |r.cdb| == ReadCapacity16CdbSize
    ensures s.Valid() && |s.cdb| == ReadCapacity16CdbSize && FromBigEndian(s.cdb[2..10]) == lba
    ensures OnlyCdbChanged(r, s)
    ensures UnchangedOutside(r.cdb, s.cdb, 2, 10)
  {
    SetCdbLongLong(r, 2, lba).value
  }

  /** SetAllocationLen: the 32-bit allocation length in bytes 10..13; nothing else changes. */
  function SetAllocationLength16(r: Request, length: u32): (s: Request)
    requires r.Valid() && |r.cdb| == ReadCapacity16CdbSize
    ensures s.Valid() && |s.cdb| == ReadCapacity16CdbSize && FromBigEndian(s.cdb[10..14]) == length
    ensures OnlyCdbChanged(r, s)
    ensures UnchangedOutside(r.cdb, s.cdb, 10, 14)
  {
    BigEndian32Decode(length);
    SetCdbLong(r, 10, length).value
  }

  /** The address and the allocation length occupy disjoint bytes: setting one keeps the other. */
  lemma {:induction false} Capacity16FieldsIndependent(r: Request, lba: u64, length: u32)
    requires r.Valid() && |r.cdb| == ReadCapacity16CdbSize
    ensures FromBigEndian(SetAllocationLength16(SetLba16(r, lba), length).cdb[2..10]) == lba
    ensures FromBigEndian(SetLba16(SetAllocationLength16(r, length), lba).cdb[10..14]) == length
    ensures SetAllocationLength16(SetLba16(r, lba), length) == SetLba16(SetAllocationLength16(r, length), lba)
  {
    var withLba := SetLba16(r, lba);
    var a := SetAllocationLength16(withLba, length);
    assert a.cdb[2..10] == withLba.cdb[2..10];
    var withLength := SetAllocationLength16(r, length);
    var b := SetLba16(withLength, lba);
    assert b.cdb[10..14] == withLength.cdb[10..14];
    assert forall i :: 0 <= i < |a.cdb| ==> a.cdb[i] == b.cdb[i] by {
      forall i | 0 <= i < |a.cdb|
        ensures a.cdb[i] == b.cdb[i]
      {
        if 2 <= i < 10 {
          assert a.cdb[i] == withLba.cdb[i];
          assert b.cdb[i] == b.cdb[2..10][i - 2];
          SetLba16Bytes(r, withLength, lba, i);
        } else if 10 <= i < 14 {
          assert a.cdb[i] == a.cdb[10..14][i - 10];
          assert withLength.cdb[i] == withLength.cdb[10..14][i - 10];
          SetAllocationLength16Bytes(r, withLba, length, i);
        }
      }
    }
    assert a.cdb == b.cdb;
  }

  /** The bytes SetLBA writes depend only on the address, not on the request. */
  lemma SetLba16Bytes(r1: Request, r2: Request, lba: u64, i: nat)
    requires r1.Valid() && |r1.cdb| == ReadCapacity16CdbSize
    requires r2.Valid() && |r2.cdb| == ReadCapacity16CdbSize
    requires 2 <= i < 10
    ensures SetLba16(r1, lba).cdb[i] == SetLba16(r2, lba).cdb[i]
  {
    var a := SetLba16(r1, lba).cdb[2..10];
    var b := SetLba16(r2, lba).cdb[2..10];
    assert FromBigEndian(a) == FromBigEndian(b);
    BigEndianOfValue(a);
    BigEndianOfValue(b);
    assert a == b;
    assert SetLba16(r1, lba).cdb[i] == a[i - 2];
    assert SetLba16(r2, lba).cdb[i] == b[i - 2];
  }

  /** The bytes SetAllocationLen writes depend only on the length, not on the request. */
  lemma SetAllocationLength16Bytes(r1: Request, r2: Request, length: u32, i: nat)
    requires r1.Valid() && |r1.cdb| == ReadCapacity16CdbSize
    requires r2.Valid() && |r2.cdb| == ReadCapacity16CdbSize
    requires 10 <= i < 14
    ensures SetAllocationLength16(r1, length).cdb[i] == SetAllocationLength16(r2, length).cdb[i]
  {
    var a := SetAllocationLength16(r1, length).cdb[10..14];
    var b := SetAllocationLength16(r2, length).cdb[10..14];
    assert a == b;
    assert SetAllocationLength16(r1, length).cdb[i] == a[i - 10];
    assert SetAllocationLength16(r2, length).cdb[i] == b[i - 10];
  }
}
