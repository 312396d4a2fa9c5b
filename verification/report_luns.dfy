/**
 REPORT LUNS (SPC-3 section 6.21): a twelve-byte CDB asking for every
 logical unit (SELECT REPORT 02h), and the decoding of the returned LUN
 list -- an 8-byte header whose first four bytes are the LUN LIST LENGTH,
 then one 8-byte entry per logical unit whose first two bytes are the LUN.
 */
module ReportLuns {
  import opened ScsiBase
  import opened FieldCodec
  import opened ScsiRequest

  const ReportLunsOpcode: byte := 0xA0
  const ReportLunsCdbSize: nat := 12

  /** SELECT REPORT 02h: every logical unit the target can address. */
  const SelectReportAll: byte := 0x02

  /** Room for the 8-byte header and five 8-byte entries. */
  const DefaultAllocationLength: u32 := 48

  const LunEntrySize: nat := 8

  /**
   SCSIReportLuns(allocationLength): the opcode and SELECT REPORT, the
   allocation length cut to 16 bits and written at bytes 6..7, a zero-filled
   inbound buffer of the full allocation length, direction READ.
   */
  function NewReportLuns(allocationLength: u32): (r: Request)
    ensures r.Valid() && |r.cdb| == ReportLunsCdbSize
    ensures r.cdb[0] == ReportLunsOpcode && r.cdb[2] == SelectReportAll
    ensures r.cdb[6] as int * 0x100 + r.cdb[7] == allocationLength % 0x1_0000
    ensures forall i :: 0 <= i < ReportLunsCdbSize && i !in {0, 2, 6, 7} ==> r.cdb[i] == 0
    ensures r.inBuffer == Some(Zeros(allocationLength)) && r.inBufferSize == allocationLength
    ensures r.outBuffer == None && r.outBufferSize == 0
    ensures r.xferDir == XferRead && r.datain == None && !r.executed
  {
    var base := NewRequestOfSize(ReportLunsCdbSize).value;
    var withOpcode := SetCdbByte(base, 0, ReportLunsOpcode).value;
    var withSelect := SetCdbByte(withOpcode, 2, SelectReportAll).value;
    var withLength := SetCdbShort(withSelect, 6, Trunc16(allocationLength)).value;
    SetXferDir(CreateInBuffer(withLength, allocationLength), XferRead)
  }

  /**
   The ALLOCATION LENGTH field of the REPORT LUNS CDB is four bytes, 6..9.
   Because only bytes 6..7 are written, a device reads the requested length
   multiplied by 65536 (after the cut to 16 bits).
   */
  lemma AllocationLengthAsSeenByDevice(allocationLength: u32)
    ensures FromBigEndian(NewReportLuns(allocationLength).cdb[6..10]) == (allocationLength % 0x1_0000) * 0x1_0000
  {
    var c := NewReportLuns(allocationLength).cdb;
    FromBigEndian4(c[6..10]);
    assert c[8] == 0 && c[9] == 0;
  }

  /** The default request asks for 48 bytes but a device reads 3145728. */
  lemma DefaultRequestAsksForMore()
    ensures NewReportLuns(DefaultAllocationLength).inBufferSize == 48
    ensures FromBigEndian(NewReportLuns(DefaultAllocationLength).cdb[6..10]) == 48 * 0x1_0000
  {
    AllocationLengthAsSeenByDevice(DefaultAllocationLength);
  }

  /**
   The constructor as SPC-3 lays the CDB out: the full 32-bit allocation
   length in bytes 6..9, everything else as in NewReportLuns.
   */
  function NewReportLunsCorrected(allocationLength: u32): (r: Request)
    ensures r.Valid() && |r.cdb| == ReportLunsCdbSize
    ensures FromBigEndian(r.cdb[6..10]) == allocationLength
    ensures r.cdb[0] == ReportLunsOpcode && r.cdb[2] == SelectReportAll
    ensures forall i :: 0 <= i < ReportLunsCdbSize && i !in {0, 2, 6, 7, 8, 9} ==> r.cdb[i] == 0
    ensures r.inBuffer == Some(Zeros(allocationLength)) && r.inBufferSize == allocationLength
    ensures r.outBuffer == None && r.xferDir == XferRead && r.datain == None && !r.executed
  {
    var asWritten := NewReportLuns(allocationLength);
    var r := SetCdbLong(asWritten, 6, allocationLength).value;
    BigEndian32Decode(allocationLength);
    r
  }

  // ---------------------------------------------------------------------------
  // Response decoding

  /** GetLunCount: the LUN LIST LENGTH in bytes 0..3, in whole 8-byte entries. */
  function LunCount(r: Request): (c: Result<u32>)
    ensures r.datain.None? ==> c == Err(Uninitialized)
    ensures r.datain.Some? && r.InBufferTransferSize() < 4 ==> c == Err(OverRead)
    ensures c.Ok? <==> r.InBufferTransferSize() >= 4
    ensures c.Ok? ==> c.value * 8 <= FromBigEndian(r.datain.value[0..4]) < c.value * 8 + 8
  {
    var length :- GetLong(r.datain, 0);
    Ok(length / LunEntrySize)
  }

  /** The offset of entry `n`, computed in unsigned 32-bit arithmetic as the source does. */
  function LunOffset(n: u32): u32
  {
    Trunc32(LunEntrySize * (n + 1))
  }

  /**
   GetLun: the two bytes at the start of entry `n` (offset 8*(n+1)). For an
   index whose offset does not wrap around, the read succeeds exactly when
   those bytes arrived.
   */
  function GetLun(r: Request, n: u32): (l: Result<u16>)
    ensures r.datain.None? ==> l == Err(Uninitialized)
    ensures n < 0x1FFF_FFFF ==> (l.Ok? <==> r.InBufferTransferSize() >= 8 * (n + 1) + 2)
    ensures n < 0x1FFF_FFFF && l.Ok? ==>
              l.value == r.datain.value[8 * (n + 1)] as int * 0x100 + r.datain.value[8 * (n + 1) + 1]
  {
    GetShort(r.datain, LunOffset(n))
  }

  /** The last index before 2^32 / 8 wraps around to offset 0, the LUN LIST LENGTH. */
  lemma LunIndexWraps(r: Request)
    ensures GetLun(r, 0x1FFF_FFFF) == GetShort(r.datain, 0)
  {
    assert LunOffset(0x1FFF_FFFF) == 0;
  }

  // ---------------------------------------------------------------------------
  // The parameter list a device returns, as a partner for the decoders

  /** One 8-byte single-level LUN entry: the LUN in bytes 0..1, the rest zero. */
  function LunEntry(lun: u16): (e: seq<byte>)
    ensures |e| == LunEntrySize
  {
    [lun / 0x100, lun % 0x100, 0, 0, 0, 0, 0, 0]
  }

  function LunEntries(luns: seq<u16>): (d: seq<byte>)
    ensures |d| == LunEntrySize * |luns|
  {
    if |luns| == 0 then [] else LunEntries(luns[..|luns| - 1]) + LunEntry(luns[|luns| - 1])
  }

  /** The REPORT LUNS parameter data for a list of LUNs (SPC-3 table 151). */
  function LunListData(luns: seq<u16>): (d: seq<byte>)
    ensures |d| == 8 + LunEntrySize * |luns|
  {
    ToBigEndian(LunEntrySize * |luns|, 4) + [0, 0, 0, 0] + LunEntries(luns)
  }

  /** Entry `k` of an encoded list starts at 8*k and carries luns[k]. */
  lemma {:induction false} LunEntriesAt(luns: seq<u16>, k: nat)
    requires k < |luns|
    ensures LunEntries(luns)[LunEntrySize * k..LunEntrySize * k + 2] == [luns[k] / 0x100, luns[k] % 0x100]
    decreases |luns|
  {
    var init := luns[..|luns| - 1];
    assert LunEntries(luns) == LunEntries(init) + LunEntry(luns[|luns| - 1]);
    if k < |luns| - 1 {
      LunEntriesAt(init, k);
      assert init[k] == luns[k];
    }
  }

  /** The header of an encoded list holds its length in bytes. */
  lemma LunListHeader(luns: seq<u16>)
    requires |luns| < 0x1FFF_FFFF
    ensures FromBigEndian(LunListData(luns)[0..4]) == LunEntrySize * |luns|
  {
    assert LunListData(luns)[0..4] == ToBigEndian(LunEntrySize * |luns|, 4);
    BigEndian32RoundTrip(LunEntrySize * |luns|);
  }

  /** Entry `k` of an encoded list sits at offset 8*(k+1), after the header. */
  lemma LunListEntry(luns: seq<u16>, k: nat)
    requires k < |luns|
    ensures LunListData(luns)[LunEntrySize * (k + 1)] == luns[k] / 0x100
    ensures LunListData(luns)[LunEntrySize * (k + 1) + 1] == luns[k] % 0x100
  {
    var d := LunListData(luns);
    LunEntriesAt(luns, k);
    var o := LunEntrySize * (k + 1);
    assert d[o..o + 2] == LunEntries(luns)[LunEntrySize * k..LunEntrySize * k + 2];
  }

  /** Decoding a complete response recovers the number of LUNs and each LUN. */
  lemma LunListRoundTrip(r: Request, luns: seq<u16>, k: nat)
    requires |luns| < 0x1FFF_FFFF
    requires r.datain == Some(LunListData(luns))
    requires k < |luns|
    ensures LunCount(r) == Ok(|luns|)
    ensures GetLun(r, k) == Ok(luns[k])
  {
    LunListHeader(luns);
    LunListEntry(luns, k);
  }

  /**
   When the list is longer than the allocation length, the count still
   reports every LUN the device has, but entries past the transferred data
   are over-reads: the caller must reissue with a larger allocation length.
   */
  lemma CountCanExceedTransferredEntries(r: Request, luns: seq<u16>)
    requires 5 < |luns| < 0x1FFF_FFFF
    requires r.datain == Some(LunListData(luns)[..DefaultAllocationLength])
    ensures LunCount(r) == Ok(|luns|)
    ensures GetLun(r, 4).Ok? && GetLun(r, 4).value == luns[4]
    ensures GetLun(r, 5) == Err(OverRead)
  {
    var d := LunListData(luns);
    assert r.datain.value[0..4] == d[0..4];
    LunListHeader(luns);
    LunListEntry(luns, 4);
    assert r.datain.value[40] == d[40] && r.datain.value[41] == d[41];
  }
}
