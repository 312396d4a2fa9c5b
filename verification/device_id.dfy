/**
 The Device Identification VPD page (page 0x83, SPC-3 section 7.6.3): the
 request, the one-time walk over its variable-length identification
 descriptors, and the SCSIDeviceID accessors that decode one descriptor.

 A descriptor at offset `o` has a four-byte header: byte o holds the
 protocol identifier (bits 4..7) and code set (bits 0..3); byte o+1 holds
 PIV (bit 7), association (bits 4..5) and identifier type (bits 0..3);
 byte o+3 is the identifier length, and the identifier follows at o+4.
 */
module DeviceIdVpd {
  import opened ScsiBase
  import opened FieldCodec
  import opened ScsiRequest
  import opened Inquiry

  const DefaultDeviceIdSize: u32 := 251

  /** The fixed header in front of every descriptor, and in front of the page. */
  const HeaderLength: nat := 4

  /**
   The default page request asks for 255 bytes, the page header and 251
   descriptor bytes, an allocation length that fits the CDB uncut.
   */
  lemma DefaultDeviceIdPageRequest()
    ensures NewDeviceIdPage(DefaultDeviceIdSize).inq.req.cdb == [InquiryOpcode, 1, DeviceIdPageCode, 0, 255, 0]
    ensures NewDeviceIdPage(DefaultDeviceIdSize).inq.req.inBufferSize == 255
  {
    var p := NewDeviceIdPage(DefaultDeviceIdSize);
    assert p.inq.req.inBufferSize == 255;
    ShortAllocationLength(1, DeviceIdPageCode, 255);
  }

  /**
   SCSIInquiryDeviceIdVPDPage: the request, whether the descriptors have
   been parsed, and the offsets of the descriptors recorded so far.
   */
  datatype DeviceIdPage = DeviceIdPage(inq: Inquiry, parsed: bool, descriptors: seq<nat>)

  /**
   SCSIInquiryDeviceIdVPDPage(size): room for the page header and `size`
   descriptor bytes, the sum taken as a 32-bit unsigned int.
   */
  function NewDeviceIdPage(size: u32): (p: DeviceIdPage)
    ensures p.inq.Valid() && p.inq.evpd
    ensures !p.parsed && p.descriptors == []
    ensures p.inq.req.cdb == InquiryCdb(1, DeviceIdPageCode, Trunc32(HeaderLength + size))
    ensures p.inq.req.inBuffer == Some(Zeros(Trunc32(HeaderLength + size)))
    ensures p.inq.req.inBufferSize == Trunc32(HeaderLength + size)
    ensures size < 0xFFFF_FFFC ==> p.inq.req.inBufferSize == HeaderLength + size
    ensures p.inq.req.outBuffer == None && p.inq.req.xferDir == XferRead && p.inq.req.datain == None
  {
    DeviceIdPage(NewVpdInquiry(DeviceIdPageCode, Trunc32(HeaderLength + size)), false, [])
  }

  /** A size within four of 2^32 wraps: the page gets an empty buffer and asks for nothing. */
  lemma HugeDeviceIdSizeWraps()
    ensures NewDeviceIdPage(0xFFFF_FFFC).inq.req.inBufferSize == 0
    ensures NewDeviceIdPage(0xFFFF_FFFC).inq.req.inBuffer == Some([])
    ensures NewDeviceIdPage(0xFFFF_FFFC).inq.req.cdb == [InquiryOpcode, 1, DeviceIdPageCode, 0, 0, 0]
  {
    assert Trunc32(HeaderLength + 0xFFFF_FFFC) == 0;
    assert Trunc16(0) == 0;
  }

  // ---------------------------------------------------------------------------
  // The descriptor walk

  /** The offset just past the descriptor at `o`: its header plus IDENTIFIER LENGTH. */
  function NextDescriptor(data: seq<byte>, o: nat): nat
    requires o + 3 < |data|
  {
    o + data[o + 3] + HeaderLength
  }

  /** The descriptors found by one walk, and the read error that cut it short, if any. */
  datatype Walk = Walk(offsets: seq<nat>, failure: Option<Error>)

  ghost predicate StrictlyIncreasing(s: seq<nat>)
  {
    forall i, j :: 0 <= i < j < |s| ==> s[i] < s[j]
  }

  /** Every recorded descriptor's header could be read. */
  ghost predicate HeadersRead(data: seq<byte>, offsets: seq<nat>)
  {
    forall k :: 0 <= k < |offsets| ==> offsets[k] + 3 < |data|
  }

  /**
   `offsets` is a chain of descriptors below `limit` that starts at `start`,
   each one beginning where the one before it ends.
   */
  ghost predicate Chained(data: seq<byte>, start: nat, limit: nat, offsets: seq<nat>)
  {
    && HeadersRead(data, offsets)
    && (forall k :: 0 <= k < |offsets| ==> offsets[k] < limit)
    && (|offsets| > 0 ==> offsets[0] == start)
    && (forall k :: 0 <= k < |offsets| - 1 ==> offsets[k + 1] == NextDescriptor(data, offsets[k]))
  }

  /** Where a chain stops: just past its last descriptor, or at `start` if it is empty. */
  ghost function ChainEnd(data: seq<byte>, start: nat, offsets: seq<nat>): nat
    requires HeadersRead(data, offsets)
  {
    if |offsets| == 0 then start else NextDescriptor(data, offsets[|offsets| - 1])
  }

  /**
   The loop of GetDescriptorCount from `offset` while `offset < limit`: read
   the identifier length (which may fail), record the descriptor, advance
   past it. Each step advances by at least the header length, so the walk
   ends, and the recorded offsets strictly increase.
   */
  function WalkDescriptors(datain: Option<seq<byte>>, offset: nat, limit: nat): (w: Walk)
    ensures StrictlyIncreasing(w.offsets)
    ensures forall k :: 0 <= k < |w.offsets| ==> offset <= w.offsets[k] < limit
    ensures datain.None? ==> w.offsets == []
    ensures datain.None? ==> (w.failure.None? <==> offset >= limit)
    ensures datain.None? && w.failure.Some? ==> w.failure.value == Uninitialized
    decreases if offset < limit then limit - offset else 0
  {
    if offset >= limit then Walk([], None)
    else
      match GetByte(datain, offset + 3)
      case Err(e) => Walk([], Some(e))
      case Ok(idLength) =>
        var rest := WalkDescriptors(datain, offset + idLength + HeaderLength, limit);
        Walk([offset] + rest.offsets, rest.failure)
  }

  /** Prepending a descriptor to a chain that starts where it ends. */
  lemma ChainCons(data: seq<byte>, offset: nat, limit: nat, rest: seq<nat>)
    requires offset + 3 < |data| && offset < limit
    requires Chained(data, NextDescriptor(data, offset), limit, rest)
    ensures Chained(data, offset, limit, [offset] + rest)
    ensures ChainEnd(data, offset, [offset] + rest) == ChainEnd(data, NextDescriptor(data, offset), rest)
  {
    var s := [offset] + rest;
    assert forall k :: 1 <= k < |s| ==> s[k] == rest[k - 1];
  }

  /**
   Over transferred data the walk is a chain from `offset` below `limit`; it
   ends normally exactly when the chain reaches `limit`, and otherwise fails
   with an over-read on the header of the descriptor where the chain stops.
   */
  lemma {:induction false} WalkIsChain(data: seq<byte>, offset: nat, limit: nat)
    ensures var w := WalkDescriptors(Some(data), offset, limit);
      && Chained(data, offset, limit, w.offsets)
      && (w.failure.None? ==> ChainEnd(data, offset, w.offsets) >= limit)
      && (w.failure.Some? ==>
            && w.failure.value == OverRead
            && ChainEnd(data, offset, w.offsets) < limit
            && ChainEnd(data, offset, w.offsets) + 3 >= |data|)
    decreases if offset < limit then limit - offset else 0
  {
    if offset < limit && offset + 3 < |data| {
      var next := NextDescriptor(data, offset);
      WalkIsChain(data, next, limit);
      ChainCons(data, offset, limit, WalkDescriptors(Some(data), next, limit).offsets);
    }
  }

  /** The result of GetDescriptorCount: the page with its cache, and the count or the error. */
  datatype Counted = Counted(page: DeviceIdPage, count: Result<nat>)

  /**
   GetDescriptorCount: on the first successful call, read PAGE LENGTH
   (bytes 2..3) and walk the descriptors from offset 4 up to PAGE LENGTH + 4,
   appending each to the list; later calls answer from the list. A read
   error aborts the walk but keeps the descriptors appended before it.
   */
  function GetDescriptorCount(p: DeviceIdPage): (c: Counted)
    ensures c.page.inq == p.inq
    ensures p.parsed ==> c == Counted(p, Ok(|p.descriptors|))
    ensures c.count.Ok? ==> c.page.parsed && c.count.value == |c.page.descriptors|
    ensures !p.parsed ==> (c.count.Ok? <==> c.page.parsed)
    ensures |p.descriptors| <= |c.page.descriptors| && c.page.descriptors[..|p.descriptors|] == p.descriptors
    ensures !p.parsed && p.inq.req.InBufferTransferSize() < 4 ==> c.page == p && c.count.Err?
    ensures !p.parsed && p.inq.req.datain.None? ==> c.count == Err(Uninitialized)
    ensures !p.parsed && p.inq.req.datain.Some? ==> (c.count.Err? ==> c.count.error == OverRead)
    ensures !p.parsed && p.inq.req.InBufferTransferSize() >= 4 ==>
      var data := p.inq.req.datain.value;
      var found := c.page.descriptors[|p.descriptors|..];
      var limit := (data[2] as int) * 0x100 + data[3] + HeaderLength;
      && Chained(data, HeaderLength, limit, found)
      && (c.count.Ok? <==> ChainEnd(data, HeaderLength, found) >= limit)
  {
    if p.parsed then Counted(p, Ok(|p.descriptors|))
    else
      match GetShort(p.inq.req.datain, 2)
      case Err(e) => Counted(p, Err(e))
      case Ok(pageLength) =>
        var w := WalkDescriptors(p.inq.req.datain, HeaderLength, pageLength + HeaderLength);
        WalkIsChain(p.inq.req.datain.value, HeaderLength, pageLength + HeaderLength);
        var descriptors := p.descriptors + w.offsets;
        assert descriptors[|p.descriptors|..] == w.offsets;
        if w.failure.Some? then Counted(p.(descriptors := descriptors), Err(w.failure.value))
        else Counted(p.(parsed := true, descriptors := descriptors), Ok(|descriptors|))
  }

  /** Parsing happens once: after a successful count, asking again changes nothing. */
  lemma ParseOnce(p: DeviceIdPage)
    requires GetDescriptorCount(p).count.Ok?
    ensures GetDescriptorCount(GetDescriptorCount(p).page) == GetDescriptorCount(p)
  {
  }

  /** An aborted parse is not cached: a second call walks again and appends again. */
  lemma FailedParseAppendsAgain(p: DeviceIdPage)
    requires !p.parsed && p.inq.req.InBufferTransferSize() >= 4
    requires GetDescriptorCount(p).count.Err?
    ensures var again := GetDescriptorCount(GetDescriptorCount(p).page);
      && again.count.Err?
      && |again.page.descriptors| == |p.descriptors| + 2 * (|GetDescriptorCount(p).page.descriptors| - |p.descriptors|)
  {
  }

  /** A descriptor: the page's transferred data and the offset of the descriptor in it. */
  datatype DeviceId = DeviceId(datain: Option<seq<byte>>, offset: nat)

  /** GetDescriptor: the n-th recorded descriptor, out of range past the end of the list. */
  function GetDescriptor(p: DeviceIdPage, n: nat): (r: Result<DeviceId>)
    ensures r.Ok? <==> n < |p.descriptors|
    ensures r.Err? ==> r.error == OutOfRange
    ensures r.Ok? ==> r.value.offset == p.descriptors[n] && r.value.datain == p.inq.req.datain
  {
    if n < |p.descriptors| then Ok(DeviceId(p.inq.req.datain, p.descriptors[n]))
    else Err(OutOfRange)
  }

  // ---------------------------------------------------------------------------
  // SCSIDeviceID: decoding one descriptor

  datatype CodeSet = CodeSetReserved | CodeSetBinary | CodeSetAscii | CodeSetUtf8

  /** The enumerant values of SCSIDeviceID::CodeSet. */
  function CodeSetCode(c: CodeSet): nat
  {
    match c
    case CodeSetReserved => 0
    case CodeSetBinary => 1
    case CodeSetAscii => 2
    case CodeSetUtf8 => 3
  }

  datatype IdentifierType =
    | VendorSpecific | T10VendorIdBased | Eui64 | Naa | RelativeTargetPortId
    | TargetPortGroup | LogicalUnitGroup | Md5LogicalUnitId | ScsiNameString | IdentifierReserved

  /** The enumerant values of SCSIDeviceID::IdentifierType. */
  function IdentifierTypeCode(t: IdentifierType): nat
  {
    match t
    case VendorSpecific => 0
    case T10VendorIdBased => 1
    case Eui64 => 2
    case Naa => 3
    case RelativeTargetPortId => 4
    case TargetPortGroup => 5
    case LogicalUnitGroup => 6
    case Md5LogicalUnitId => 7
    case ScsiNameString => 8
    case IdentifierReserved => 9
  }

  datatype Association = AssociationLun | AssociationTargetPort | AssociationTargetDevice | AssociationReserved

  /** The enumerant values of SCSIDeviceID::Association. */
  function AssociationCode(a: Association): nat
  {
    match a
    case AssociationLun => 0
    case AssociationTargetPort => 1
    case AssociationTargetDevice => 2
    case AssociationReserved => 3
  }

  /** GetCodeSet: the low nibble of byte o; values 1..3 are kept, every other value reads as reserved. */
  function GetCodeSet(d: DeviceId): (r: Result<CodeSet>)
    ensures d.datain.None? ==> r == Err(Uninitialized)
    ensures r.Ok? <==> d.offset < TransferSize(d.datain)
    ensures r.Ok? ==> var n := d.datain.value[d.offset] % 16;
      CodeSetCode(r.value) == if 1 <= n <= 3 then n else 0
  {
    var nibble :- GetBitArray(d.datain, d.offset, 0, 4);
    GetBitArrayValue(d.datain.value, d.offset, 0, 4);
    LowNibble(d.datain.value[d.offset]);
    Ok(if nibble == 1 then CodeSetBinary
       else if nibble == 2 then CodeSetAscii
       else if nibble == 3 then CodeSetUtf8
       else CodeSetReserved)
  }

  /** The fixed-width display names of GetCodeSetFString. */
  function CodeSetName(c: CodeSet): (s: string)
    ensures |s| == 8
  {
    match c
    case CodeSetBinary => "Binary  "
    case CodeSetAscii => "ASCII   "
    case CodeSetUtf8 => "UTF-8   "
    case CodeSetReserved => "Reserved"
  }

  /** Distinct code sets have distinct names. */
  lemma CodeSetNamesDistinct(a: CodeSet, b: CodeSet)
    ensures CodeSetName(a) == CodeSetName(b) <==> a == b
  {
  }

  /** GetCodeSetFString. */
  function GetCodeSetString(d: DeviceId): (r: Result<string>)
    ensures r.Ok? <==> GetCodeSet(d).Ok?
    ensures r.Err? ==> r.error == GetCodeSet(d).error
    ensures r.Ok? ==> r.value == CodeSetName(GetCodeSet(d).value)
  {
    var c :- GetCodeSet(d);
    Ok(CodeSetName(c))
  }

  /** GetPIV: bit 7 of byte o+1. */
  function GetPiv(d: DeviceId): (r: Result<bool>)
    ensures d.datain.None? ==> r == Err(Uninitialized)
    ensures r.Ok? <==> d.offset + 1 < TransferSize(d.datain)
    ensures r.Ok? ==> (r.value <==> d.datain.value[d.offset + 1] >= 128)
  {
    var piv :- GetBool(d.datain, d.offset + 1, 7);
    TopBit(d.datain.value[d.offset + 1]);
    Ok(piv)
  }

  /** GetProtocolIDFString: always "Reserved", but only once PIV has been read successfully. */
  function GetProtocolIdString(d: DeviceId): (r: Result<string>)
    ensures r.Ok? <==> GetPiv(d).Ok?
    ensures r.Err? ==> r.error == GetPiv(d).error
    ensures r.Ok? ==> r.value == "Reserved"
  {
    var _ :- GetPiv(d);
    Ok("Reserved")
  }

  /** The identifier type a nibble value denotes: 0..8 as themselves, every other value reserved. */
  function IdentifierTypeOfCode(n: nat): (t: IdentifierType)
    ensures IdentifierTypeCode(t) == if n <= 8 then n else 9
  {
    if n == 0 then VendorSpecific
    else if n == 1 then T10VendorIdBased
    else if n == 2 then Eui64
    else if n == 3 then Naa
    else if n == 4 then RelativeTargetPortId
    else if n == 5 then TargetPortGroup
    else if n == 6 then LogicalUnitGroup
    else if n == 7 then Md5LogicalUnitId
    else if n == 8 then ScsiNameString
    else IdentifierReserved
  }

  /** GetIDType: the low nibble of byte o+1; values 0..8 are kept, every other value reads as reserved. */
  function GetIdType(d: DeviceId): (r: Result<IdentifierType>)
    ensures d.datain.None? ==> r == Err(Uninitialized)
    ensures r.Ok? <==> d.offset + 1 < TransferSize(d.datain)
    ensures r.Ok? ==> var n := d.datain.value[d.offset + 1] % 16;
      IdentifierTypeCode(r.value) == if n <= 8 then n else 9
  {
    var nibble :- GetBitArray(d.datain, d.offset + 1, 0, 4);
    GetBitArrayValue(d.datain.value, d.offset + 1, 0, 4);
    LowNibble(d.datain.value[d.offset + 1]);
    Ok(IdentifierTypeOfCode(nibble))
  }

  /** The 31-character display names of GetIDTypeFString. */
  function IdentifierTypeName(t: IdentifierType): (s: string)
    ensures |s| == 31
  {
    match t
    case VendorSpecific       => "Vendor specific                "
    case T10VendorIdBased     => "T10 vendor ID based            "
    case Eui64                => "EUI-64 based                   "
    case Naa                  => "NAA                            "
    case RelativeTargetPortId => "Relative target port identifier"
    case TargetPortGroup      => "Target port group              "
    case LogicalUnitGroup     => "Logical unit group             "
    case Md5LogicalUnitId     => "MD5 logical unit identifier    "
    case ScsiNameString       => "SCSI name string               "
    case IdentifierReserved   => "Reserved                       "
  }

  /** GetIDTypeFString. */
  function GetIdTypeString(d: DeviceId): (r: Result<string>)
    ensures r.Ok? <==> GetIdType(d).Ok?
    ensures r.Err? ==> r.error == GetIdType(d).error
    ensures r.Ok? ==> r.value == IdentifierTypeName(GetIdType(d).value)
  {
    var t :- GetIdType(d);
    Ok(IdentifierTypeName(t))
  }

  /** GetAssociation: bits 4..5 of byte o+1. */
  function GetAssociation(d: DeviceId): (r: Result<Association>)
    ensures d.datain.None? ==> r == Err(Uninitialized)
    ensures r.Ok? <==> d.offset + 1 < TransferSize(d.datain)
    ensures r.Ok? ==> AssociationCode(r.value) == (d.datain.value[d.offset + 1] / 16) % 4
  {
    var bits :- GetBitArray(d.datain, d.offset + 1, 4, 2);
    GetBitArrayValue(d.datain.value, d.offset + 1, 4, 2);
    BitsFourFive(d.datain.value[d.offset + 1]);
    Ok(if bits == 0 then AssociationLun
       else if bits == 1 then AssociationTargetPort
       else if bits == 2 then AssociationTargetDevice
       else AssociationReserved)
  }

  /** GetIDLength: byte o+3. */
  function GetIdLength(d: DeviceId): (r: Result<byte>)
    ensures d.datain.None? ==> r == Err(Uninitialized)
    ensures r.Ok? <==> d.offset + 3 < TransferSize(d.datain)
    ensures r.Ok? ==> r.value == d.datain.value[d.offset + 3]
  {
    GetByte(d.datain, d.offset + 3)
  }

  /** GetID: IDENTIFIER LENGTH bytes from o+4. */
  function GetId(d: DeviceId): (r: Result<seq<byte>>)
    ensures d.datain.None? ==> r == Err(Uninitialized)
    ensures r.Ok? <==> d.offset + 3 < TransferSize(d.datain)
                       && d.offset + 4 + d.datain.value[d.offset + 3] <= TransferSize(d.datain)
    ensures r.Err? && d.datain.Some? ==> r.error == OverRead
    ensures r.Ok? ==> r.value == d.datain.value[d.offset + 4..d.offset + 4 + d.datain.value[d.offset + 3]]
  {
    var idLength :- GetIdLength(d);
    GetString(d.datain, d.offset + 4, idLength)
  }

  /** `printf("%02X")` digits. */
  const HexDigits: string := "0123456789ABCDEF"

  function HexByte(b: byte): (s: string)
    ensures |s| == 2
  {
    [HexDigits[b / 16], HexDigits[b % 16]]
  }

  /** Two upper-case hexadecimal digits per byte, in order. */
  function HexString(bytes: seq<byte>): (s: string)
    ensures |s| == 2 * |bytes|
  {
    if |bytes| == 0 then [] else HexString(bytes[..|bytes| - 1]) + HexByte(bytes[|bytes| - 1])
  }

  /** The value of one upper-case hexadecimal digit. */
  function HexValue(c: char): nat
  {
    if '0' <= c <= '9' then c as int - '0' as int
    else if 'A' <= c <= 'F' then c as int - 'A' as int + 10
    else 0
  }

  /** Reads a string of digit pairs back into bytes. */
  function ParseHex(s: string): seq<byte>
  {
    if |s| < 2 then []
    else
      var hi := HexValue(s[|s| - 2]);
      var lo := HexValue(s[|s| - 1]);
      ParseHex(s[..|s| - 2]) + [if hi < 16 && lo < 16 then hi * 16 + lo else 0]
  }

  lemma HexDigitValue(n: nat)
    requires n < 16
    ensures HexValue(HexDigits[n]) == n
  {
  }

  /** Parsing one more digit pair yields one more byte. */
  lemma ParseHexAppend(s: string, b: byte)
    ensures ParseHex(s + HexByte(b)) == ParseHex(s) + [b]
  {
    var t := s + HexByte(b);
    assert t[..|t| - 2] == s;
    var hi := b / 16;
    var lo := b % 16;
    assert t[|t| - 2] == HexDigits[hi] && t[|t| - 1] == HexDigits[lo];
    HexDigitValue(hi);
    HexDigitValue(lo);
    assert hi * 16 + lo == b;
  }

  /** Extending a slice by one byte extends its hexadecimal form by one digit pair. */
  lemma HexStringSnoc(data: seq<byte>, from: nat, to: nat)
    requires from <= to < |data|
    ensures HexString(data[from..to + 1]) == HexString(data[from..to]) + HexByte(data[to])
  {
    var bytes := data[from..to + 1];
    assert bytes[..|bytes| - 1] == data[from..to];
  }

  /** Parsing the hexadecimal form of one more byte yields that byte after the others. */
  lemma HexStep(bytes: seq<byte>)
    requires |bytes| > 0
    ensures ParseHex(HexString(bytes)) == ParseHex(HexString(bytes[..|bytes| - 1])) + [bytes[|bytes| - 1]]
  {
    ParseHexAppend(HexString(bytes[..|bytes| - 1]), bytes[|bytes| - 1]);
  }

  /** The hexadecimal form of an identifier determines the identifier. */
  lemma {:induction false} HexRoundTrip(bytes: seq<byte>)
    ensures ParseHex(HexString(bytes)) == bytes
    decreases |bytes|
  {
    if |bytes| > 0 {
      var init := bytes[..|bytes| - 1];
      HexStep(bytes);
      HexRoundTrip(init);
      LastSplit(bytes);
    }
  }

  /** A non-empty sequence is its prefix followed by its last element. */
  lemma LastSplit<T>(s: seq<T>)
    requires |s| > 0
    ensures s == s[..|s| - 1] + [s[|s| - 1]]
  {
  }

  /**
   GetHexID: the identifier as hexadecimal, one `%02X` pair per byte, read
   byte by byte after IDENTIFIER LENGTH.
   */
  method GetHexId(d: DeviceId) returns (r: Result<string>)
    ensures r.Ok? <==> GetId(d).Ok?
    ensures r.Err? ==> r.error == GetId(d).error
    ensures r.Ok? ==> r.value == HexString(GetId(d).value)
  {
    var idLength :- GetIdLength(d);
    var id: string := [];
    var i := 0;
    while i < idLength
      invariant 0 <= i <= idLength
      invariant d.offset + 4 + i <= TransferSize(d.datain)
      invariant id == HexString(d.datain.value[d.offset + 4..d.offset + 4 + i])
    {
      var b :- GetByte(d.datain, d.offset + 4 + i);
      HexStringSnoc(d.datain.value, d.offset + 4, d.offset + 4 + i);
      id := id + HexByte(b);
      i := i + 1;
    }
    return Ok(id);
  }

  /** Where GetIDShort reads: `mOffset + 4 + offset`, summed as an `unsigned int`. */
  function IdShortOffset(d: DeviceId, offset: u32): u32
  {
    Trunc32(d.offset + HeaderLength + offset)
  }

  /**
   GetIDShort: the big-endian short at o+4+offset (wrapping at 2^32),
   returned through a `uint8_t`, so only its low-order byte, the second
   one, survives.
   */
  function GetIdShort(d: DeviceId, offset: u32): (r: Result<byte>)
    ensures d.datain.None? ==> r == Err(Uninitialized)
    ensures d.datain.Some? && IdShortOffset(d, offset) + 2 > |d.datain.value| ==> r == Err(OverRead)
    ensures r.Ok? <==> IdShortOffset(d, offset) + 2 <= TransferSize(d.datain)
    ensures r.Ok? ==> r.value == d.datain.value[IdShortOffset(d, offset) + 1]
    ensures d.offset + HeaderLength + offset < 0x1_0000_0000 ==>
              (r.Ok? <==> d.offset + HeaderLength + offset + 2 <= TransferSize(d.datain))
    ensures d.offset + HeaderLength + offset < 0x1_0000_0000 && r.Ok? ==>
              r.value == d.datain.value[d.offset + HeaderLength + offset + 1]
  {
    var v :- GetShort(d.datain, IdShortOffset(d, offset));
    Ok(Trunc8(v))
  }

  /**
   An offset that carries `mOffset + 4 + offset` past 2^32 wraps around to
   the start of the page: from descriptor offset 4, offset FFFFFFF8h reads
   bytes 0..1.
   */
  lemma IdShortOffsetWraps(data: seq<byte>)
    requires |data| >= 2
    ensures GetIdShort(DeviceId(Some(data), 4), 0xFFFF_FFF8) == Ok(data[1])
  {
    assert IdShortOffset(DeviceId(Some(data), 4), 0xFFFF_FFF8) == 0;
  }

  /**
   GetIDShort on an encoded descriptor: the identifier bytes k..k+1 arrived,
   and the low-order byte returned is identifier byte k+1.
   */
  lemma IdShortOfDesignator(data: seq<byte>, o: nat, d: Designator, k: u32)
    requires d.Valid() && |data| < 0x1_0000_0000
    requires o + HeaderLength + |d.id| <= |data|
    requires data[o..o + HeaderLength + |d.id|] == EncodeDesignator(d)
    requires k + 2 <= |d.id|
    ensures GetIdShort(DeviceId(Some(data), o), k) == Ok(d.id[k + 1])
  {
    EncodedBytes(data, o, d);
    assert data[o + 4..o + 4 + |d.id|][k + 1] == data[o + 4 + k + 1];
  }

  // ---------------------------------------------------------------------------
  // The page a device returns, and what the accessors recover from it

  /** The fields of one identification descriptor. */
  datatype Designator = Designator(protocolId: nat, codeSet: nat, piv: bool, association: nat,
                                   idType: nat, id: seq<byte>)
  {
    predicate Valid()
    {
      protocolId < 16 && codeSet < 16 && association < 4 && idType < 16 && |id| < 0x100
    }
  }

  predicate AllValid(ds: seq<Designator>)
  {
    forall k :: 0 <= k < |ds| ==> ds[k].Valid()
  }

  /** One descriptor as it appears on the wire. */
  function EncodeDesignator(d: Designator): (e: seq<byte>)
    requires d.Valid()
    ensures |e| == HeaderLength + |d.id|
  {
    [d.protocolId * 16 + d.codeSet, (if d.piv then 0x80 else 0) + d.association * 16 + d.idType, 0, |d.id|]
      + d.id
  }

  function EncodeDesignators(ds: seq<Designator>): seq<byte>
    requires AllValid(ds)
  {
    if |ds| == 0 then [] else EncodeDesignator(ds[0]) + EncodeDesignators(ds[1..])
  }

  /** Where each descriptor of `ds` starts when the first one starts at `start`. */
  function DesignatorOffsets(ds: seq<Designator>, start: nat): (offs: seq<nat>)
    ensures |offs| == |ds|
  {
    if |ds| == 0 then [] else [start] + DesignatorOffsets(ds[1..], start + HeaderLength + |ds[0].id|)
  }

  /** The whole page: peripheral byte, page code, PAGE LENGTH, descriptors. */
  function DeviceIdResponse(peripheral: byte, ds: seq<Designator>): seq<byte>
    requires AllValid(ds) && |EncodeDesignators(ds)| < 0x1_0000
  {
    var body := EncodeDesignators(ds);
    [peripheral, DeviceIdPageCode, |body| / 0x100, |body| % 0x100] + body
  }

  /** The walk over encoded descriptors finds each one where it was placed, and ends cleanly. */
  lemma {:induction false} WalkOfEncoding(prefix: seq<byte>, ds: seq<Designator>, suffix: seq<byte>)
    requires AllValid(ds)
    ensures WalkDescriptors(Some(prefix + EncodeDesignators(ds) + suffix), |prefix|, |prefix| + |EncodeDesignators(ds)|)
         == Walk(DesignatorOffsets(ds, |prefix|), None)
    decreases |ds|
  {
    if |ds| > 0 {
      var head := EncodeDesignator(ds[0]);
      var data := prefix + EncodeDesignators(ds) + suffix;
      var prefix' := prefix + head;
      assert data == prefix' + EncodeDesignators(ds[1..]) + suffix;
      assert data[|prefix| + 3] == |ds[0].id|;
      assert AllValid(ds[1..]);
      WalkOfEncoding(prefix', ds[1..], suffix);
    }
  }

  /** Peeling the first descriptor off an encoded list moves it into the prefix. */
  lemma EncodeDesignatorsCons(prefix: seq<byte>, ds: seq<Designator>, suffix: seq<byte>)
    requires AllValid(ds) && |ds| > 0
    ensures AllValid(ds[1..])
    ensures prefix + EncodeDesignators(ds) + suffix == (prefix + EncodeDesignator(ds[0])) + EncodeDesignators(ds[1..]) + suffix
  {
    assert AllValid(ds[1..]) by {
      forall k | 0 <= k < |ds| - 1
        ensures ds[1..][k].Valid()
      {
        assert ds[1..][k] == ds[k + 1];
      }
    }
    var head := EncodeDesignator(ds[0]);
    var tail := EncodeDesignators(ds[1..]);
    assert EncodeDesignators(ds) == head + tail;
    SeqAssoc(prefix, head, tail, suffix);
  }

  /** Regrouping a concatenation of four sequences. */
  lemma SeqAssoc<T>(a: seq<T>, b: seq<T>, c: seq<T>, d: seq<T>)
    ensures a + (b + c) + d == (a + b) + c + d
  {
  }

  /** The first encoded descriptor sits right after the prefix. */
  lemma EncodedFirst(data: seq<byte>, prefix: seq<byte>, ds: seq<Designator>, suffix: seq<byte>)
    requires AllValid(ds) && |ds| > 0
    requires data == prefix + EncodeDesignators(ds) + suffix
    ensures |prefix| + HeaderLength + |ds[0].id| <= |data|
    ensures data[|prefix|..|prefix| + HeaderLength + |ds[0].id|] == EncodeDesignator(ds[0])
  {
    EncodeDesignatorsCons(prefix, ds, suffix);
    var head := EncodeDesignator(ds[0]);
    assert data[|prefix|..|prefix| + |head|] == head;
  }

  /** The k-th encoded descriptor sits at the k-th offset. */
  lemma {:induction false} EncodedAt(data: seq<byte>, prefix: seq<byte>, ds: seq<Designator>, suffix: seq<byte>, k: nat)
    requires AllValid(ds) && k < |ds|
    requires data == prefix + EncodeDesignators(ds) + suffix
    ensures DesignatorOffsets(ds, |prefix|)[k] + HeaderLength + |ds[k].id| <= |data|
    ensures data[DesignatorOffsets(ds, |prefix|)[k]..DesignatorOffsets(ds, |prefix|)[k] + HeaderLength + |ds[k].id|]
         == EncodeDesignator(ds[k])
    decreases k
  {
    if k == 0 {
      EncodedFirst(data, prefix, ds, suffix);
    } else {
      EncodeDesignatorsCons(prefix, ds, suffix);
      EncodedAt(data, prefix + EncodeDesignator(ds[0]), ds[1..], suffix, k - 1);
    }
  }

  /** The second header byte packs PIV, ASSOCIATION and IDENTIFIER TYPE without overlap. */
  lemma SecondHeaderByte(piv: bool, association: nat, idType: nat)
    requires association < 4 && idType < 16
    ensures var b := (if piv then 0x80 else 0) + association * 16 + idType;
      b % 16 == idType && (b / 16) % 4 == association && (b >= 128 <==> piv)
  {
    var q := (if piv then 8 else 0) + association;
    assert (if piv then 0x80 else 0) + association * 16 + idType == q * 16 + idType;
  }

  /** The first header byte keeps CODE SET in its low nibble. */
  lemma FirstHeaderByte(protocolId: nat, codeSet: nat)
    requires codeSet < 16
    ensures (protocolId * 16 + codeSet) % 16 == codeSet
  {
  }

  /** The header bytes and the identifier of an encoded descriptor, located in `data`. */
  lemma EncodedBytes(data: seq<byte>, o: nat, d: Designator)
    requires d.Valid()
    requires o + HeaderLength + |d.id| <= |data|
    requires data[o..o + HeaderLength + |d.id|] == EncodeDesignator(d)
    ensures data[o] == d.protocolId * 16 + d.codeSet
    ensures data[o + 1] == (if d.piv then 0x80 else 0) + d.association * 16 + d.idType
    ensures data[o + 3] == |d.id|
    ensures data[o + 4..o + 4 + |d.id|] == d.id
  {
    var e := EncodeDesignator(d);
    assert data[o] == e[0] && data[o + 1] == e[1] && data[o + 3] == e[3];
    assert data[o + 4..o + 4 + |d.id|] == e[4..];
  }

  /** GetID recovers the identifier of a descriptor from its encoding. */
  lemma DecodeIdentifier(data: seq<byte>, o: nat, d: Designator)
    requires d.Valid()
    requires o + HeaderLength + |d.id| <= |data|
    requires data[o..o + HeaderLength + |d.id|] == EncodeDesignator(d)
    ensures GetIdLength(DeviceId(Some(data), o)) == Ok(|d.id|)
    ensures GetId(DeviceId(Some(data), o)) == Ok(d.id)
  {
    EncodedBytes(data, o, d);
  }

  /** The accessors recover every field of a descriptor from its encoding. */
  lemma DecodeDesignator(data: seq<byte>, o: nat, d: Designator)
    requires d.Valid()
    requires o + HeaderLength + |d.id| <= |data|
    requires data[o..o + HeaderLength + |d.id|] == EncodeDesignator(d)
    ensures GetIdLength(DeviceId(Some(data), o)) == Ok(|d.id|)
    ensures GetId(DeviceId(Some(data), o)) == Ok(d.id)
    ensures GetPiv(DeviceId(Some(data), o)) == Ok(d.piv)
    ensures AssociationCode(GetAssociation(DeviceId(Some(data), o)).value) == d.association
    ensures IdentifierTypeCode(GetIdType(DeviceId(Some(data), o)).value) == if d.idType <= 8 then d.idType else 9
    ensures CodeSetCode(GetCodeSet(DeviceId(Some(data), o)).value) == if 1 <= d.codeSet <= 3 then d.codeSet else 0
  {
    DecodeIdentifier(data, o, d);
    EncodedBytes(data, o, d);
    SecondHeaderByte(d.piv, d.association, d.idType);
    FirstHeaderByte(d.protocolId, d.codeSet);
  }

  /** A walk that reaches PAGE LENGTH + 4 without a read error is recorded and the page is parsed. */
  lemma CountOfCleanWalk(p: DeviceIdPage, pageLength: nat, offsets: seq<nat>)
    requires !p.parsed && p.descriptors == [] && GetShort(p.inq.req.datain, 2) == Ok(pageLength)
    requires WalkDescriptors(p.inq.req.datain, HeaderLength, pageLength + HeaderLength) == Walk(offsets, None)
    ensures GetDescriptorCount(p).count == Ok(|offsets|)
    ensures GetDescriptorCount(p).page.descriptors == offsets
  {
    assert [] + offsets == offsets;
  }

  /** PAGE LENGTH of a response is the length of its descriptor list. */
  lemma PageLengthOfResponse(peripheral: byte, ds: seq<Designator>)
    requires AllValid(ds) && |EncodeDesignators(ds)| < 0x1_0000
    ensures GetShort(Some(DeviceIdResponse(peripheral, ds)), 2) == Ok(|EncodeDesignators(ds)|)
  {
    var data := DeviceIdResponse(peripheral, ds);
    var n := |EncodeDesignators(ds)|;
    assert data[2] == n / 0x100 && data[3] == n % 0x100;
  }

  /** The walk over a response, from the first descriptor to PAGE LENGTH + 4, finds every descriptor. */
  lemma WalkOfResponse(peripheral: byte, ds: seq<Designator>)
    requires AllValid(ds) && |EncodeDesignators(ds)| < 0x1_0000
    ensures WalkDescriptors(Some(DeviceIdResponse(peripheral, ds)), HeaderLength, |EncodeDesignators(ds)| + HeaderLength)
         == Walk(DesignatorOffsets(ds, HeaderLength), None)
  {
    var body := EncodeDesignators(ds);
    var header: seq<byte> := [peripheral, DeviceIdPageCode, |body| / 0x100, |body| % 0x100];
    assert DeviceIdResponse(peripheral, ds) == header + body + [];
    WalkOfEncoding(header, ds, []);
  }

  /** For a fresh page whose response lists `ds`, the walk records exactly their offsets. */
  lemma DescriptorCountOfResponse(p: DeviceIdPage, peripheral: byte, ds: seq<Designator>)
    requires AllValid(ds) && |EncodeDesignators(ds)| < 0x1_0000
    requires !p.parsed && p.descriptors == []
    requires p.inq.req.datain == Some(DeviceIdResponse(peripheral, ds))
    ensures GetDescriptorCount(p).count == Ok(|ds|)
    ensures GetDescriptorCount(p).page.descriptors == DesignatorOffsets(ds, HeaderLength)
  {
    PageLengthOfResponse(peripheral, ds);
    WalkOfResponse(peripheral, ds);
    CountOfCleanWalk(p, |EncodeDesignators(ds)|, DesignatorOffsets(ds, HeaderLength));
  }

  /** The n-th descriptor of a response yields the n-th identifier. */
  lemma IdentifierInResponse(data: seq<byte>, header: seq<byte>, ds: seq<Designator>, n: nat)
    requires AllValid(ds) && n < |ds| && |header| == HeaderLength
    requires data == header + EncodeDesignators(ds) + []
    ensures GetId(DeviceId(Some(data), DesignatorOffsets(ds, HeaderLength)[n])) == Ok(ds[n].id)
  {
    var o := DesignatorOffsets(ds, HeaderLength)[n];
    EncodedAt(data, header, ds, [], n);
    DecodeIdentifier(data, o, ds[n]);
  }

  /** On a page that recorded the offsets of a response's descriptors, the n-th one yields the n-th identifier. */
  lemma NthDescriptorOfResponse(page: DeviceIdPage, peripheral: byte, ds: seq<Designator>, n: nat)
    requires AllValid(ds) && |EncodeDesignators(ds)| < 0x1_0000 && n < |ds|
    requires page.descriptors == DesignatorOffsets(ds, HeaderLength)
    requires page.inq.req.datain == Some(DeviceIdResponse(peripheral, ds))
    ensures GetDescriptor(page, n).Ok? && GetId(GetDescriptor(page, n).value) == Ok(ds[n].id)
  {
    var body := EncodeDesignators(ds);
    var header: seq<byte> := [peripheral, DeviceIdPageCode, |body| / 0x100, |body| % 0x100];
    var data := DeviceIdResponse(peripheral, ds);
    assert data == header + body + [];
    IdentifierInResponse(data, header, ds, n);
  }

  /**
   For a fresh page whose response lists `ds`, the count is |ds|, and the
   n-th descriptor yields the n-th identifier.
   */
  lemma DeviceIdPageRoundTrip(p: DeviceIdPage, peripheral: byte, ds: seq<Designator>)
    requires AllValid(ds) && |EncodeDesignators(ds)| < 0x1_0000
    requires !p.parsed && p.descriptors == []
    requires p.inq.req.datain == Some(DeviceIdResponse(peripheral, ds))
    ensures GetDescriptorCount(p).count == Ok(|ds|)
    ensures forall n :: 0 <= n < |ds| ==>
      GetDescriptor(GetDescriptorCount(p).page, n).Ok? &&
      GetId(GetDescriptor(GetDescriptorCount(p).page, n).value) == Ok(ds[n].id)
  {
    DescriptorCountOfResponse(p, peripheral, ds);
    var page := GetDescriptorCount(p).page;
    forall n | 0 <= n < |ds|
      ensures GetDescriptor(page, n).Ok? && GetId(GetDescriptor(page, n).value) == Ok(ds[n].id)
    {
      NthDescriptorOfResponse(page, peripheral, ds, n);
    }
  }
}
