/**
 INQUIRY (SPC-3 section 6.4): the standard inquiry data, and the Supported
 VPD Pages and Unit Serial Number VPD pages (SPC-3 sections 7.6.10 and
 7.6.11). Every request here has the six-byte INQUIRY CDB: opcode, EVPD in
 byte 1, page code in byte 2, allocation length big-endian in bytes 3..4.
 */
module Inquiry {
  import opened ScsiBase
  import opened FieldCodec
  import opened ScsiRequest

  const InquiryOpcode: byte := 0x12
  const StandardInquiryLength: nat := 36

  const SupportedVpdPageCode: byte := 0x00
  const UnitSerialPageCode: byte := 0x80
  const DeviceIdPageCode: byte := 0x83

  /** The number of page codes a Supported VPD Pages request makes room for. */
  const SupportedVpdPageCount: nat := 32

  const DefaultSerialSize: u32 := 16

  /** SCSIInquiry: a request plus the EVPD flag it last set. */
  datatype Inquiry = Inquiry(req: Request, evpd: bool)
  {
    predicate Valid()
    {
      req.Valid() && |req.cdb| == DefaultCdbSize
    }
  }

  /** The INQUIRY CDB for a page code, EVPD bit and allocation length. */
  function InquiryCdb(evpdBit: byte, pageCode: byte, allocationLength: nat): seq<byte>
  {
    [InquiryOpcode, evpdBit, pageCode, Trunc16(allocationLength) / 0x100, Trunc16(allocationLength) % 0x100, 0]
  }

  /** An allocation length below 256 sits in CDB byte 4 alone, byte 3 staying zero. */
  lemma ShortAllocationLength(evpdBit: byte, pageCode: byte, allocationLength: byte)
    ensures InquiryCdb(evpdBit, pageCode, allocationLength) == [InquiryOpcode, evpdBit, pageCode, 0, allocationLength, 0]
  {
  }

  /** Writing the EVPD bit and then the page code into the plain CDB gives the page's CDB. */
  lemma InquiryCdbPage(evpdBit: byte, pageCode: byte, allocationLength: nat)
    ensures InquiryCdb(0, 0, allocationLength)[1 := evpdBit][2 := pageCode] == InquiryCdb(evpdBit, pageCode, allocationLength)
  {
  }

  /**
   SCSIInquiry(allocationLength): a zero-filled inbound buffer of that size,
   the opcode, the size (truncated to 16 bits) in CDB bytes 3..4, direction READ.
   */
  function NewInquiry(allocationLength: u32): (q: Inquiry)
    ensures q.Valid() && !q.evpd
    ensures q.req.cdb == InquiryCdb(0, 0, allocationLength)
    ensures q.req.inBuffer == Some(Zeros(allocationLength)) && q.req.inBufferSize == allocationLength
    ensures q.req.outBuffer == None && q.req.outBufferSize == 0
    ensures q.req.xferDir == XferRead
    ensures q.req.datain == None && !q.req.executed
  {
    var base := CreateInBuffer(NewRequest(), allocationLength);
    var withOpcode := SetCdbByte(base, 0, InquiryOpcode).value;
    var withLength := SetCdbShort(withOpcode, 3, Trunc16(base.inBufferSize)).value;
    Inquiry(SetXferDir(withLength, XferRead), false)
  }

  /** SCSIInquiry(): the standard 36-byte request. */
  function NewStandardInquiry(): (q: Inquiry)
    ensures q.Valid() && !q.evpd
    ensures q.req.cdb == [InquiryOpcode, 0, 0, 0, 36, 0]
    ensures q.req.inBuffer == Some(Zeros(36)) && q.req.inBufferSize == 36
    ensures q.req.outBuffer == None && q.req.xferDir == XferRead
  {
    NewInquiry(StandardInquiryLength)
  }

  /** SetEVPD: setting the flag also writes 1 to CDB byte 1; clearing it leaves the CDB alone. */
  function SetEvpd(q: Inquiry, evpd: bool): (r: Inquiry)
    requires q.Valid()
    ensures r.Valid() && r.evpd == evpd
    ensures evpd ==> r.req == q.req.(cdb := q.req.cdb[1 := 1])
    ensures !evpd ==> r.req == q.req
  {
    if evpd then Inquiry(SetCdbByte(q.req, 1, 1).value, true)
    else q.(evpd := false)
  }

  /** What the VPD page constructors share: EVPD set, and the page code written to CDB byte 2. */
  function NewVpdInquiry(pageCode: byte, allocationLength: u32): (q: Inquiry)
    ensures q.Valid() && q.evpd
    ensures q.req.cdb == InquiryCdb(1, pageCode, allocationLength)
    ensures q.req.inBuffer == Some(Zeros(allocationLength)) && q.req.inBufferSize == allocationLength
    ensures q.req.outBuffer == None && q.req.xferDir == XferRead
    ensures q.req.datain == None && !q.req.executed
  {
    var q := SetEvpd(NewInquiry(allocationLength), true);
    InquiryCdbPage(1, pageCode, allocationLength);
    q.(req := SetCdbByte(q.req, 2, pageCode).value)
  }

  /** Clearing EVPD after setting it does not clear the CDB bit. */
  lemma EvpdBitIsSticky(q: Inquiry)
    requires q.Valid()
    ensures SetEvpd(SetEvpd(q, true), false).req.cdb[1] == 1
    ensures !SetEvpd(SetEvpd(q, true), false).evpd
  {
  }

  // ---------------------------------------------------------------------------
  // Standard inquiry data

  /** Peripheral qualifier: bits 5..7 of byte 0. */
  function PeripheralQualifier(q: Inquiry): (r: Result<byte>)
    ensures q.req.datain.None? ==> r == Err(Uninitialized)
    ensures r.Ok? <==> q.req.InBufferTransferSize() >= 1
    ensures r.Ok? ==> r.value == q.req.datain.value[0] / 32
  {
    var r := GetBitArray(q.req.datain, 0, 5, 3);
    if r.Ok? then
      GetBitArrayValue(q.req.datain.value, 0, 5, 3);
      TopThreeBits(q.req.datain.value[0]);
      r
    else r
  }

  /** Peripheral device type: bits 0..4 of byte 0. */
  function PeripheralType(q: Inquiry): (r: Result<byte>)
    ensures q.req.datain.None? ==> r == Err(Uninitialized)
    ensures r.Ok? <==> q.req.InBufferTransferSize() >= 1
    ensures r.Ok? ==> r.value == q.req.datain.value[0] % 32
  {
    var r := GetBitArray(q.req.datain, 0, 0, 5);
    if r.Ok? then
      GetBitArrayValue(q.req.datain.value, 0, 0, 5);
      LowFiveBits(q.req.datain.value[0]);
      r
    else r
  }

  /** RMB: bit 7 of byte 1. */
  function Rmb(q: Inquiry): (r: Result<bool>)
    ensures q.req.datain.None? ==> r == Err(Uninitialized)
    ensures r.Ok? <==> q.req.InBufferTransferSize() >= 2
    ensures r.Ok? ==> (r.value <==> q.req.datain.value[1] >= 128)
  {
    var r := GetBool(q.req.datain, 1, 7);
    if r.Ok? then
      TopBit(q.req.datain.value[1]);
      r
    else r
  }

  /** Version: byte 2. */
  function Version(q: Inquiry): (r: Result<byte>)
    ensures q.req.datain.None? ==> r == Err(Uninitialized)
    ensures r.Ok? <==> q.req.InBufferTransferSize() >= 3
    ensures r.Ok? ==> r.value == q.req.datain.value[2]
  {
    GetByte(q.req.datain, 2)
  }

  /** The qualifier and the device type partition byte 0 between them. */
  lemma PeripheralFieldsCoverByteZero(q: Inquiry)
    requires q.req.InBufferTransferSize() >= 1
    ensures PeripheralQualifier(q).value * 32 + PeripheralType(q).value == q.req.datain.value[0]
  {
  }

  /**
   GetT10VendorID: refused on an EVPD request (checked first), refused when
   fewer than 16 bytes arrived, otherwise bytes 8..15.
   */
  function T10VendorId(q: Inquiry): (r: Result<seq<byte>>)
    ensures q.evpd ==> r == Err(NotSupported)
    ensures !q.evpd && q.req.InBufferTransferSize() < 16 ==> r == Err(InsufficientData)
    ensures r.Ok? <==> !q.evpd && q.req.InBufferTransferSize() >= 16
    ensures r.Ok? ==> r.value == q.req.datain.value[8..16]
  {
    if q.evpd then Err(NotSupported)
    else if q.req.InBufferTransferSize() < 16 then Err(InsufficientData)
    else GetString(q.req.datain, 8, 8)
  }

  /** GetProductID: refused on an EVPD request, otherwise bytes 16..31 subject only to the over-read check. */
  function ProductId(q: Inquiry): (r: Result<seq<byte>>)
    ensures q.evpd ==> r == Err(NotSupported)
    ensures !q.evpd && q.req.datain.None? ==> r == Err(Uninitialized)
    ensures !q.evpd && q.req.datain.Some? && q.req.InBufferTransferSize() < 32 ==> r == Err(OverRead)
    ensures r.Ok? <==> !q.evpd && q.req.InBufferTransferSize() >= 32
    ensures r.Ok? ==> r.value == q.req.datain.value[16..32]
  {
    if q.evpd then Err(NotSupported)
    else GetString(q.req.datain, 16, 16)
  }

  /** GetProductRev: refused on an EVPD request, otherwise bytes 32..35 subject only to the over-read check. */
  function ProductRev(q: Inquiry): (r: Result<seq<byte>>)
    ensures q.evpd ==> r == Err(NotSupported)
    ensures !q.evpd && q.req.datain.None? ==> r == Err(Uninitialized)
    ensures !q.evpd && q.req.datain.Some? && q.req.InBufferTransferSize() < 36 ==> r == Err(OverRead)
    ensures r.Ok? <==> !q.evpd && q.req.InBufferTransferSize() >= 36
    ensures r.Ok? ==> r.value == q.req.datain.value[32..36]
  {
    if q.evpd then Err(NotSupported)
    else GetString(q.req.datain, 32, 4)
  }

  /** The standard inquiry data a device would return for these fields (SPC-3 table 82). */
  function StandardData(qualifier: nat, deviceType: nat, rmb: bool, version: byte,
                        vendor: seq<byte>, product: seq<byte>, revision: seq<byte>): (d: seq<byte>)
    requires qualifier < 8 && deviceType < 32
    requires |vendor| == 8 && |product| == 16 && |revision| == 4
    ensures |d| == StandardInquiryLength
  {
    [qualifier * 32 + deviceType, if rmb then 0x80 else 0, version, 0, 31, 0, 0, 0]
      + vendor + product + revision
  }

  /** Every standard-data getter recovers the field that was encoded. */
  lemma StandardDataRoundTrip(q: Inquiry, qualifier: nat, deviceType: nat, rmb: bool, version: byte,
                              vendor: seq<byte>, product: seq<byte>, revision: seq<byte>)
    requires qualifier < 8 && deviceType < 32
    requires |vendor| == 8 && |product| == 16 && |revision| == 4
    requires !q.evpd
    requires q.req.datain == Some(StandardData(qualifier, deviceType, rmb, version, vendor, product, revision))
    ensures PeripheralQualifier(q) == Ok(qualifier)
    ensures PeripheralType(q) == Ok(deviceType)
    ensures Rmb(q) == Ok(rmb)
    ensures Version(q) == Ok(version)
    ensures T10VendorId(q) == Ok(vendor)
    ensures ProductId(q) == Ok(product)
    ensures ProductRev(q) == Ok(revision)
  {
    var d := q.req.datain.value;
    assert d[8..16] == vendor;
    assert d[16..32] == product;
    assert d[32..36] == revision;
  }

  // ---------------------------------------------------------------------------
  // Supported VPD Pages (page 0x00)

  /** SCSIInquirySupportedVPDPages: room for 32 page codes after the 4-byte header. */
  datatype SupportedVpdPages = SupportedVpdPages(inq: Inquiry, pageCount: u32)

  function NewSupportedVpdPages(): (p: SupportedVpdPages)
    ensures p.inq.Valid() && p.inq.evpd && p.pageCount == SupportedVpdPageCount
    ensures p.inq.req.cdb == InquiryCdb(1, SupportedVpdPageCode, 36)
    ensures p.inq.req.inBuffer == Some(Zeros(36)) && p.inq.req.inBufferSize == 36
    ensures p.inq.req.outBuffer == None && p.inq.req.xferDir == XferRead && p.inq.req.datain == None
  {
    SupportedVpdPages(NewVpdInquiry(SupportedVpdPageCode, 4 + SupportedVpdPageCount), SupportedVpdPageCount)
  }

  /**
   How many page codes HasPage scans: the PAGE LENGTH byte on an underflow
   residual, otherwise the page count less the residual in unsigned 32-bit
   arithmetic, whatever kind the residual is.
   */
  function EffectivePageCount(p: SupportedVpdPages): (r: Result<nat>)
    ensures p.inq.req.residualType == Underflow && p.inq.req.datain.None? ==> r == Err(Uninitialized)
    ensures p.inq.req.residualType == Underflow && p.inq.req.datain.Some? && p.inq.req.InBufferTransferSize() < 4 ==>
              r == Err(OverRead)
    ensures p.inq.req.residualType == Underflow && p.inq.req.InBufferTransferSize() >= 4 ==>
              r == Ok(p.inq.req.datain.value[3])
    ensures p.inq.req.residualType != Underflow && p.inq.req.residual <= p.pageCount ==>
              r == Ok(p.pageCount - p.inq.req.residual)
    ensures p.inq.req.residualType != Underflow && p.inq.req.residual > p.pageCount ==>
              r == Ok(0x1_0000_0000 + p.pageCount - p.inq.req.residual)
  {
    if p.inq.req.residualType == Underflow then
      var n :- GetByte(p.inq.req.datain, 3);
      Ok(n)
    else Ok((p.pageCount - p.inq.req.residual) % 0x1_0000_0000)
  }

  /**
   The reference for the scan: true when `page` is among the first `count`
   page codes that are readable; otherwise false when all `count` were
   readable, and the over-read (or missing-buffer) error when they were not.
   */
  function ScanResult(datain: Option<seq<byte>>, count: nat, page: byte): Result<bool>
  {
    var avail := if TransferSize(datain) >= 4 then TransferSize(datain) - 4 else 0;
    var scanned := if count <= avail then count else avail;
    if exists k :: 4 <= k < 4 + scanned && datain.value[k] == page then Ok(true)
    else if count <= avail then Ok(false)
    else if datain.None? then Err(Uninitialized)
    else Err(OverRead)
  }

  /** HasPage: the linear scan over the page codes after the header. */
  method HasPage(p: SupportedVpdPages, page: byte) returns (r: Result<bool>)
    ensures EffectivePageCount(p).Err? ==> r == Err(EffectivePageCount(p).error)
    ensures EffectivePageCount(p).Ok? ==> r == ScanResult(p.inq.req.datain, EffectivePageCount(p).value, page)
  {
    var count :- EffectivePageCount(p);
    var datain := p.inq.req.datain;
    var i := 0;
    while i < count
      invariant 0 <= i <= count
      invariant i > 0 ==> 4 + i <= TransferSize(datain)
      invariant forall k :: 4 <= k < 4 + i ==> datain.value[k] != page
    {
      var b := GetByte(datain, 4 + i);
      if b.Err? {
        assert 4 + i >= TransferSize(datain);
        return Err(b.error);
      }
      if b.value == page {
        assert datain.value[4 + i] == page;
        return Ok(true);
      }
      i := i + 1;
    }
    return Ok(false);
  }

  /** With no residual and a full response, HasPage answers exactly "is `page` listed?". */
  lemma HasPageWithFullResponse(p: SupportedVpdPages, page: byte)
    requires p.pageCount == SupportedVpdPageCount
    requires p.inq.req.residualType == NoResidual && p.inq.req.residual == 0
    requires p.inq.req.InBufferTransferSize() == 4 + SupportedVpdPageCount
    ensures EffectivePageCount(p) == Ok(SupportedVpdPageCount)
    ensures ScanResult(p.inq.req.datain, SupportedVpdPageCount, page).Ok?
    ensures ScanResult(p.inq.req.datain, SupportedVpdPageCount, page).value
        <==> page in p.inq.req.datain.value[4..]
  {
    var d := p.inq.req.datain.value;
    if page in d[4..] {
      var k :| 0 <= k < |d[4..]| && d[4..][k] == page;
      assert d[4 + k] == page;
    }
    if exists k :: 4 <= k < 4 + SupportedVpdPageCount && d[k] == page {
      var k :| 4 <= k < 4 + SupportedVpdPageCount && d[k] == page;
      assert d[4..][k - 4] == page;
    }
  }

  /**
   An OVERFLOW residual (the device had more to send) still shortens the
   scan: a page listed in the last slot is reported absent.
   */
  lemma OverflowResidualHidesPage(p: SupportedVpdPages)
    requires p.pageCount == SupportedVpdPageCount
    requires p.inq.req.residualType == Overflow && p.inq.req.residual == 1
    requires p.inq.req.datain == Some([0, 0, 0, 32] + seq(31, i => 0) + [0x83])
    ensures p.inq.req.datain.value[4 + 31] == 0x83
    ensures ScanResult(p.inq.req.datain, EffectivePageCount(p).value, 0x83) == Ok(false)
  {
    var d := p.inq.req.datain.value;
    assert forall k :: 4 <= k < 35 ==> d[k] == 0;
  }

  // ---------------------------------------------------------------------------
  // Unit Serial Number (page 0x80)

  datatype UnitSerialPage = UnitSerialPage(inq: Inquiry)

  /**
   SCSIInquiryUnitSerialNumVPDPage(size): room for the 4-byte header and
   `size` serial bytes, the sum taken as a 32-bit unsigned int.
   */
  function NewUnitSerialPage(size: u32): (p: UnitSerialPage)
    ensures p.inq.Valid() && p.inq.evpd
    ensures p.inq.req.cdb == InquiryCdb(1, UnitSerialPageCode, Trunc32(4 + size))
    ensures p.inq.req.inBuffer == Some(Zeros(Trunc32(4 + size)))
    ensures p.inq.req.inBufferSize == Trunc32(4 + size)
    ensures size < 0xFFFF_FFFC ==> p.inq.req.inBufferSize == 4 + size
    ensures p.inq.req.outBuffer == None && p.inq.req.xferDir == XferRead && p.inq.req.datain == None
  {
    UnitSerialPage(NewVpdInquiry(UnitSerialPageCode, Trunc32(4 + size)))
  }

  /** A size within four of 2^32 wraps: the page gets an empty buffer and asks for nothing. */
  lemma HugeUnitSerialSizeWraps()
    ensures NewUnitSerialPage(0xFFFF_FFFC).inq.req.inBufferSize == 0
    ensures NewUnitSerialPage(0xFFFF_FFFC).inq.req.inBuffer == Some([])
    ensures NewUnitSerialPage(0xFFFF_FFFC).inq.req.cdb == [InquiryOpcode, 1, UnitSerialPageCode, 0, 0, 0]
  {
    assert Trunc32(4 + 0xFFFF_FFFC) == 0;
    assert Trunc16(0) == 0;
  }

  /** The default page request asks for 20 bytes: the page header and a 16-byte serial number. */
  lemma DefaultUnitSerialPageRequest()
    ensures NewUnitSerialPage(DefaultSerialSize).inq.req.cdb == [InquiryOpcode, 1, UnitSerialPageCode, 0, 20, 0]
    ensures NewUnitSerialPage(DefaultSerialSize).inq.req.inBufferSize == 20
  {
    var p := NewUnitSerialPage(DefaultSerialSize);
    assert p.inq.req.inBufferSize == 20;
    ShortAllocationLength(1, UnitSerialPageCode, 20);
  }

  /** GetUnitSerialNum: exactly PAGE LENGTH (byte 3) bytes from offset 4. */
  function UnitSerialNumber(p: UnitSerialPage): (r: Result<seq<byte>>)
    ensures p.inq.req.datain.None? ==> r == Err(Uninitialized)
    ensures r.Ok? <==> p.inq.req.InBufferTransferSize() >= 4
                       && p.inq.req.InBufferTransferSize() >= 4 + p.inq.req.datain.value[3] as int
    ensures r.Ok? ==> |r.value| == p.inq.req.datain.value[3]
    ensures r.Ok? ==> r.value == p.inq.req.datain.value[4..4 + p.inq.req.datain.value[3]]
  {
    var serialLength :- GetByte(p.inq.req.datain, 3);
    GetString(p.inq.req.datain, 4, serialLength)
  }

  /** The Unit Serial Number page a device returns for `serial`. */
  function SerialPage(serial: seq<byte>): seq<byte>
    requires |serial| < 0x100
  {
    [0, UnitSerialPageCode, 0, |serial|] + serial
  }

  /** The serial number is recovered from its page, whatever bytes follow it. */
  lemma UnitSerialRoundTrip(p: UnitSerialPage, serial: seq<byte>, trailing: seq<byte>)
    requires |serial| < 0x100
    requires p.inq.req.datain == Some(SerialPage(serial) + trailing)
    ensures UnitSerialNumber(p) == Ok(serial)
  {
    assert p.inq.req.datain.value[4..4 + |serial|] == serial;
  }
}
