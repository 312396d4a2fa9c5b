/**
 PERSISTENT RESERVE OUT (SPC-3 section 6.12): a ten-byte CDB with the
 service action in byte 1, SCOPE and TYPE in byte 2 and the parameter list
 length in bytes 7..8, and an outbound parameter list in one of two
 layouts. The basic list (SPC-3 table 165) holds the reservation key in
 bytes 0..7, the service action reservation key in bytes 8..15, the flags
 SPEC_I_PT (bit 3), ALL_TG_PT (bit 2) and APTPL (bit 0) in byte 20, and any
 transport IDs from byte 24. The REGISTER AND MOVE list (SPC-3 table 170)
 holds the two keys, UNREG (bit 1) and APTPL (bit 0) in byte 17, the
 relative target port identifier in bytes 18..19, the transport ID length
 in bytes 20..23 and the transport ID from byte 24.
 */
module PersistentReserveOut {
  import opened ScsiBase
  import opened FieldCodec
  import opened ScsiRequest

  const PrOutOpcode: byte := 0x5F
  const PrOutCdbSize: nat := 10
  const DefaultParameterListLength: u32 := 24

  /** The fixed part of either parameter list layout. */
  const ListHeaderLength: nat := 24
  const KeyLength: nat := 8

  /** The PERSISTENT RESERVE OUT service actions, in code order 00h..08h. */
  datatype ServiceAction =
    | Register
    | Reserve
    | Release
    | Clear
    | Preempt
    | PreemptAndAbort
    | RegisterAndIgnoreExistingKey
    | RegisterAndMove
    | ReadFullStatus

  function ServiceActionCode(a: ServiceAction): byte
  {
    match a
    case Register => 0x00
    case Reserve => 0x01
    case Release => 0x02
    case Clear => 0x03
    case Preempt => 0x04
    case PreemptAndAbort => 0x05
    case RegisterAndIgnoreExistingKey => 0x06
    case RegisterAndMove => 0x07
    case ReadFullStatus => 0x08
  }

  /** The service action a code names, if any. */
  function ServiceActionOfCode(code: byte): (a: Option<ServiceAction>)
    ensures a.Some? <==> code <= 8
    ensures a.Some? ==> ServiceActionCode(a.value) == code
  {
    if code == 0 then Some(Register)
    else if code == 1 then Some(Reserve)
    else if code == 2 then Some(Release)
    else if code == 3 then Some(Clear)
    else if code == 4 then Some(Preempt)
    else if code == 5 then Some(PreemptAndAbort)
    else if code == 6 then Some(RegisterAndIgnoreExistingKey)
    else if code == 7 then Some(RegisterAndMove)
    else if code == 8 then Some(ReadFullStatus)
    else None
  }

  /** Every service action has its own code. */
  lemma ServiceActionCodeRoundTrip(a: ServiceAction)
    ensures ServiceActionOfCode(ServiceActionCode(a)) == Some(a)
  {
  }

  /** Which parameter list layout the request carries (the class it was built as). */
  datatype ListFormat = BasicList | RegisterAndMoveList

  /** SCSIPersistentReserveOut and its REGISTER AND MOVE subclass. */
  datatype PrOut = PrOut(req: Request, action: ServiceAction, format: ListFormat)
  {
    predicate Valid()
    {
      req.Valid() && |req.cdb| == PrOutCdbSize && req.outBuffer.Some?
    }

    /** The outbound parameter list. */
    function List(): seq<byte>
      requires Valid()
    {
      req.outBuffer.value
    }
  }

  /** `q` is `p` with at most its parameter list contents changed. */
  ghost predicate OnlyListChanged(p: PrOut, q: PrOut)
    requires p.Valid()
  {
    q.Valid() && q.action == p.action && q.format == p.format && OnlyOutBufferChanged(p.req, q.req)
  }

  /**
   SCSIPersistentReserveOut(action, allocationLength): opcode, service
   action, the length cut to 16 bits in bytes 7..8, a zero-filled outbound
   parameter list of the full length, direction WRITE.
   */
  function NewPrOut(action: ServiceAction, parameterListLength: u32): (p: PrOut)
    ensures p.Valid() && p.action == action && p.format == BasicList
    ensures p.req.cdb[0] == PrOutOpcode && p.req.cdb[1] == ServiceActionCode(action)
    ensures p.req.cdb[7] as int * 0x100 + p.req.cdb[8] == parameterListLength % 0x1_0000
    ensures forall i :: 2 <= i < 7 ==> p.req.cdb[i] == 0
    ensures p.req.cdb[9] == 0
    ensures p.List() == Zeros(parameterListLength) && p.req.outBufferSize == parameterListLength
    ensures p.req.inBuffer == None && p.req.xferDir == XferWrite
    ensures p.req.datain == None && !p.req.executed
  {
    var base := NewRequestOfSize(PrOutCdbSize).value;
    var withOpcode := SetCdbByte(base, 0, PrOutOpcode).value;
    var withAction := SetCdbByte(withOpcode, 1, ServiceActionCode(action)).value;
    var withLength := SetCdbShort(withAction, 7, Trunc16(parameterListLength)).value;
    PrOut(SetXferDir(CreateOutBuffer(withLength, parameterListLength), XferWrite), action, BasicList)
  }

  /**
   SetReservationType: the type code into the TYPE nibble of CDB byte 2,
   keeping SCOPE; a code wider than four bits is an InvalidValue.
   */
  function SetReservationType(p: PrOut, typeCode: byte): (r: Result<PrOut>)
    requires p.Valid()
    ensures r.Ok? <==> typeCode < 16
    ensures r.Err? ==> r.error == InvalidValue
    ensures r.Ok? ==> r.value.Valid() && r.value == p.(req := r.value.req) && OnlyCdbChanged(p.req, r.value.req)
    ensures r.Ok? ==> r.value.req.cdb == p.req.cdb[2 := r.value.req.cdb[2]]
    ensures r.Ok? ==> r.value.req.cdb[2] % 16 == typeCode && r.value.req.cdb[2] / 16 == p.req.cdb[2] / 16
  {
    FitsIffBelowPow2(typeCode, 4);
    var req :- SetCdbBitArray(p.req, 2, 0, 4, typeCode);
    SetBufferBitArrayValue(p.req.cdb, 2, 0, 4, typeCode);
    LowNibbleMerge(p.req.cdb[2], typeCode);
    Ok(p.(req := req))
  }

  /** The shared body of the two key setters: exactly eight bytes at `offset`. */
  function WriteKey(p: PrOut, offset: nat, key: seq<byte>): (r: Result<PrOut>)
    requires p.Valid()
    ensures |key| != KeyLength ==> r == Err(InvalidValue)
    ensures |key| == KeyLength && p.req.outBufferSize < offset + KeyLength ==> r == Err(OverFlow)
    ensures r.Ok? <==> |key| == KeyLength && offset + KeyLength <= p.req.outBufferSize
    ensures r.Ok? ==> OnlyListChanged(p, r.value)
    ensures r.Ok? ==> UnchangedOutside(p.List(), r.value.List(), offset, offset + KeyLength)
    ensures r.Ok? ==> r.value.List()[offset..offset + KeyLength] == key
  {
    if |key| != KeyLength then Err(InvalidValue)
    else
      var req :- SetOutBufferString(p.req, offset, key);
      Ok(p.(req := req))
  }

  /** SetReservationKey: eight bytes at offset 0; any other length is an InvalidValue. */
  function SetReservationKey(p: PrOut, key: seq<byte>): (r: Result<PrOut>)
    requires p.Valid()
    ensures |key| != KeyLength ==> r == Err(InvalidValue)
    ensures |key| == KeyLength && p.req.outBufferSize < KeyLength ==> r == Err(OverFlow)
    ensures r.Ok? <==> |key| == KeyLength && KeyLength <= p.req.outBufferSize
    ensures r.Ok? ==> OnlyListChanged(p, r.value)
    ensures r.Ok? ==> UnchangedOutside(p.List(), r.value.List(), 0, KeyLength)
    ensures r.Ok? ==> r.value.List()[0..KeyLength] == key
  {
    WriteKey(p, 0, key)
  }

  /** SetServiceActionReservationKey: eight bytes at offset 8; any other length is an InvalidValue. */
  function SetServiceActionReservationKey(p: PrOut, key: seq<byte>): (r: Result<PrOut>)
    requires p.Valid()
    ensures |key| != KeyLength ==> r == Err(InvalidValue)
    ensures |key| == KeyLength && p.req.outBufferSize < 2 * KeyLength ==> r == Err(OverFlow)
    ensures r.Ok? <==> |key| == KeyLength && 2 * KeyLength <= p.req.outBufferSize
    ensures r.Ok? ==> OnlyListChanged(p, r.value)
    ensures r.Ok? ==> UnchangedOutside(p.List(), r.value.List(), KeyLength, 2 * KeyLength)
    ensures r.Ok? ==> r.value.List()[KeyLength..2 * KeyLength] == key
  {
    WriteKey(p, KeyLength, key)
  }

  /** The byte that holds APTPL: 20 in the basic list, 17 in the REGISTER AND MOVE list. */
  function AptplByte(format: ListFormat): nat
  {
    if format == BasicList then 20 else 17
  }

  /** The shared body of the flag setters: one bit of one byte of the list. */
  function WriteFlag(p: PrOut, byteOffset: nat, bit: nat, v: bool): (r: Result<PrOut>)
    requires p.Valid() && bit < 8
    ensures r.Ok? <==> byteOffset < p.req.outBufferSize
    ensures r.Err? ==> r.error == OverFlow
    ensures r.Ok? ==> OnlyListChanged(p, r.value)
    ensures r.Ok? ==> UnchangedOutside(p.List(), r.value.List(), byteOffset, byteOffset + 1)
    ensures r.Ok? ==> Bit(r.value.List()[byteOffset] as bv8, bit as bv8) == v
    ensures r.Ok? ==> BitsKept(p.List()[byteOffset] as bv8, r.value.List()[byteOffset] as bv8, bit as bv8)
  {
    var req :- SetOutBufferBool(p.req, byteOffset, bit, v);
    Ok(p.(req := req))
  }

  /** SetAPTPL: bit 0 of byte 20 (basic list) or of byte 17 (REGISTER AND MOVE list). */
  function SetAptpl(p: PrOut, aptpl: bool): (r: Result<PrOut>)
    requires p.Valid()
    ensures r.Ok? <==> AptplByte(p.format) < p.req.outBufferSize
    ensures r.Err? ==> r.error == OverFlow
    ensures r.Ok? ==> OnlyListChanged(p, r.value)
    ensures r.Ok? ==> UnchangedOutside(p.List(), r.value.List(), AptplByte(p.format), AptplByte(p.format) + 1)
    ensures r.Ok? ==> Bit(r.value.List()[AptplByte(p.format)] as bv8, 0) == aptpl
    ensures r.Ok? ==> BitsKept(p.List()[AptplByte(p.format)] as bv8, r.value.List()[AptplByte(p.format)] as bv8, 0)
  {
    WriteFlag(p, AptplByte(p.format), 0, aptpl)
  }

  /** SetAllTgPt: bit 2 of byte 20; not supported by the REGISTER AND MOVE list. */
  function SetAllTgPt(p: PrOut, allTgPt: bool): (r: Result<PrOut>)
    requires p.Valid()
    ensures p.format == RegisterAndMoveList ==> r == Err(NotSupported)
    ensures p.format == BasicList && p.req.outBufferSize <= 20 ==> r == Err(OverFlow)
    ensures r.Ok? <==> p.format == BasicList && 20 < p.req.outBufferSize
    ensures r.Ok? ==> OnlyListChanged(p, r.value)
    ensures r.Ok? ==> UnchangedOutside(p.List(), r.value.List(), 20, 21)
    ensures r.Ok? ==> Bit(r.value.List()[20] as bv8, 2) == allTgPt
    ensures r.Ok? ==> BitsKept(p.List()[20] as bv8, r.value.List()[20] as bv8, 2)
  {
    if p.format == RegisterAndMoveList then Err(NotSupported)
    else WriteFlag(p, 20, 2, allTgPt)
  }

  /** SetUNREG (REGISTER AND MOVE only): bit 1 of byte 17. */
  function SetUnreg(p: PrOut, unreg: bool): (r: Result<PrOut>)
    requires p.Valid() && p.format == RegisterAndMoveList
    ensures r.Ok? <==> 17 < p.req.outBufferSize
    ensures r.Err? ==> r.error == OverFlow
    ensures r.Ok? ==> OnlyListChanged(p, r.value)
    ensures r.Ok? ==> UnchangedOutside(p.List(), r.value.List(), 17, 18)
    ensures r.Ok? ==> Bit(r.value.List()[17] as bv8, 1) == unreg
    ensures r.Ok? ==> BitsKept(p.List()[17] as bv8, r.value.List()[17] as bv8, 1)
  {
    WriteFlag(p, 17, 1, unreg)
  }

  /** SetRelativeTargetPortId (REGISTER AND MOVE only): bytes 18..19, big-endian. */
  function SetRelativeTargetPortId(p: PrOut, id: u16): (r: Result<PrOut>)
    requires p.Valid() && p.format == RegisterAndMoveList
    ensures r.Ok? <==> 20 <= p.req.outBufferSize
    ensures r.Err? ==> r.error == OverFlow
    ensures r.Ok? ==> OnlyListChanged(p, r.value)
    ensures r.Ok? ==> UnchangedOutside(p.List(), r.value.List(), 18, 20)
    ensures r.Ok? ==> r.value.List()[18] as int * 0x100 + r.value.List()[19] == id
  {
    var req :- SetOutBufferShort(p.req, 18, id);
    Ok(p.(req := req))
  }

  /** The first 24 bytes of `list` with bit `bit` of byte 20 set. */
  function FlaggedHeader(list: seq<byte>, bit: nat): (h: seq<byte>)
    requires |list| >= ListHeaderLength && bit < 8
    ensures |h| == ListHeaderLength
    ensures forall i :: 0 <= i < ListHeaderLength && i != 20 ==> h[i] == list[i]
    ensures Bit(h[20] as bv8, bit as bv8)
    ensures BitsKept(list[20] as bv8, h[20] as bv8, bit as bv8)
  {
    MergeFlag(list[20], bit as bv8, true);
    list[..ListHeaderLength][20 := MergeBits(list[20], bit as bv8, 1, 1)]
  }

  /**
   The first half of SetTransportIdList: a fresh list of 24 + |ids| bytes,
   the CDB's length field set to that size (cut to 16 bits), the old
   header copied to the front and the IDs after it.
   */
  function GrowList(req: Request, header: seq<byte>, ids: seq<byte>): (r: Request)
    requires req.Valid() && |req.cdb| == PrOutCdbSize && |header| == ListHeaderLength
    ensures r.Valid() && r.outBuffer == Some(header + ids) && r.outBufferSize == ListHeaderLength + |ids|
    ensures r == req.(cdb := r.cdb, outBuffer := r.outBuffer, outBufferSize := r.outBufferSize)
    ensures r.cdb == req.cdb[7 := Trunc16(|ids| + ListHeaderLength) / 0x100]
                            [8 := Trunc16(|ids| + ListHeaderLength) % 0x100]
  {
    var enlarged := CreateOutBuffer(req, |ids| + ListHeaderLength);
    var withLength := SetCdbShort(enlarged, 7, Trunc16(|ids| + ListHeaderLength)).value;
    withLength.(outBuffer := Some(header + ids))
  }

  /**
   The 24 header bytes a correct copy takes from an old list of any size:
   the old bytes as far as they go, zeros after (the fresh buffer is zeroed).
   */
  function PaddedHeader(list: seq<byte>): (h: seq<byte>)
    ensures |h| == ListHeaderLength
    ensures |list| >= ListHeaderLength ==> h == list[..ListHeaderLength]
    ensures forall i :: 0 <= i < |list| && i < ListHeaderLength ==> h[i] == list[i]
    ensures forall i :: |list| <= i < ListHeaderLength ==> h[i] == 0
  {
    if |list| >= ListHeaderLength then list[..ListHeaderLength]
    else list + Zeros(ListHeaderLength - |list|)
  }

  /**
   The common success path of SetTransportIdList: the parameter list grows
   to 24 + |ids| bytes holding `header` then the IDs, the CDB's length
   field follows (cut to 16 bits), and bit `specIPtBit` of byte 20 is set.
   */
  function AttachIds(p: PrOut, header: seq<byte>, ids: seq<byte>, specIPtBit: nat): (r: PrOut)
    requires p.Valid() && p.format == BasicList && |header| == ListHeaderLength && specIPtBit < 8
    ensures r.Valid() && r.action == p.action && r.format == p.format
    ensures r.req == p.req.(cdb := r.req.cdb, outBuffer := r.req.outBuffer, outBufferSize := r.req.outBufferSize)
    ensures r.req.cdb == p.req.cdb[7 := Trunc16(|ids| + ListHeaderLength) / 0x100]
                                  [8 := Trunc16(|ids| + ListHeaderLength) % 0x100]
    ensures r.req.outBufferSize == ListHeaderLength + |ids| && |r.List()| == ListHeaderLength + |ids|
    ensures r.List() == FlaggedHeader(header, specIPtBit) + ids
  {
    var copied := GrowList(p.req, header, ids);
    var flagged := SetOutBufferBool(copied, 20, specIPtBit, true).value;
    p.(req := flagged)
  }

  /**
   SetTransportIdList as the source writes it. The REGISTER AND MOVE list
   refuses it; an absent or empty list is an InvalidValue. The new list is
   allocated with `length + 24` bytes in unsigned 32-bit arithmetic, and 24
   bytes are copied from the old list whatever its size: a wrapped sum or
   an old list shorter than 24 bytes is a copy outside an allocation,
   reported as HeapOverrun. Otherwise the old header is kept, the IDs
   follow it, and SPEC_I_PT is set at bit 4 of byte 20.
   */
  function SetTransportIdList(p: PrOut, ids: Option<seq<byte>>, length: u32): (r: Result<PrOut>)
    requires p.Valid()
    requires p.format == BasicList && ids.Some? ==> length <= |ids.value|
    ensures p.format == RegisterAndMoveList ==> r == Err(NotSupported)
    ensures p.format == BasicList && (ids.None? || length == 0) ==> r == Err(InvalidValue)
    ensures p.format == BasicList && ids.Some? && length > 0 && |p.List()| < ListHeaderLength ==> r == Err(HeapOverrun)
    ensures p.format == BasicList && ids.Some? && length > 0 && length + ListHeaderLength >= 0x1_0000_0000 ==>
              r == Err(HeapOverrun)
    ensures r.Ok? <==> p.format == BasicList && ids.Some? && length > 0 &&
                       |p.List()| >= ListHeaderLength && length + ListHeaderLength < 0x1_0000_0000
    ensures r.Ok? ==> r.value.Valid() && r.value.req.outBufferSize == ListHeaderLength + length
    ensures r.Ok? ==> r.value.req.cdb[7] as int * 0x100 + r.value.req.cdb[8] == (ListHeaderLength + length) % 0x1_0000
    ensures r.Ok? ==> r.value.List() == FlaggedHeader(p.List(), 4) + ids.value[..length]
  {
    if p.format == RegisterAndMoveList then Err(NotSupported)
    else if ids.None? || length == 0 then Err(InvalidValue)
    else
      var newSize := Trunc32(length + ListHeaderLength);
      if newSize < length + ListHeaderLength || |p.List()| < ListHeaderLength then Err(HeapOverrun)
      else
        var header := p.List()[..ListHeaderLength];
        assert FlaggedHeader(header, 4) == FlaggedHeader(p.List(), 4);
        Ok(AttachIds(p, header, ids.value[..length], 4))
  }

  /**
   SetTransportIdList as SPC-3 table 165 and the allocation sizes require:
   SPEC_I_PT at bit 3 of byte 20, at most the old list's bytes copied into
   the header (zeros after them), and a length whose sum with the header
   does not fit 32 bits refused as an InvalidValue.
   */
  function SetTransportIdListCorrected(p: PrOut, ids: Option<seq<byte>>, length: u32): (r: Result<PrOut>)
    requires p.Valid()
    requires p.format == BasicList && ids.Some? ==> length <= |ids.value|
    ensures p.format == RegisterAndMoveList ==> r == Err(NotSupported)
    ensures p.format == BasicList && (ids.None? || length == 0) ==> r == Err(InvalidValue)
    ensures p.format == BasicList && length + ListHeaderLength >= 0x1_0000_0000 ==> r == Err(InvalidValue)
    ensures r.Ok? <==> p.format == BasicList && ids.Some? && length > 0 && length + ListHeaderLength < 0x1_0000_0000
    ensures r.Ok? ==> r.value.Valid() && r.value.req.outBufferSize == ListHeaderLength + length
    ensures r.Ok? ==> r.value.List() == FlaggedHeader(PaddedHeader(p.List()), 3) + ids.value[..length]
    ensures r.Ok? ==> DecodeBasicList(r.value.List()) ==
                      Some(DecodeBasicList(PaddedHeader(p.List())).value.(specIPt := true,
                                                                          transportIds := ids.value[..length]))
    ensures r.Ok? && |p.List()| >= ListHeaderLength ==>
              DecodeBasicList(r.value.List()) ==
              Some(DecodeBasicList(p.List()).value.(specIPt := true, transportIds := ids.value[..length]))
  {
    if p.format == RegisterAndMoveList then Err(NotSupported)
    else if ids.None? || length == 0 || length + ListHeaderLength >= 0x1_0000_0000 then Err(InvalidValue)
    else
      var header := PaddedHeader(p.List());
      var attached := ids.value[..length];
      BasicListAnnouncesIds(header, attached);
      assert |p.List()| >= ListHeaderLength ==>
               DecodeBasicList(FlaggedHeader(header, 3) + attached) ==
               Some(DecodeBasicList(p.List()).value.(specIPt := true, transportIds := attached)) by {
        if |p.List()| >= ListHeaderLength {
          assert FlaggedHeader(header, 3) == FlaggedHeader(p.List(), 3);
          BasicListAnnouncesIds(p.List(), attached);
        }
      }
      Ok(AttachIds(p, header, attached, 3))
  }

  /**
   The REGISTER AND MOVE list contents: the transport ID length in bytes
   20..23 and the transport ID from byte 24, written into a zeroed list.
   */
  function WriteMoveList(base: Request, transportId: seq<byte>): (r: Request)
    requires base.Valid() && base.outBuffer == Some(Zeros(ListHeaderLength + |transportId|))
    requires base.outBufferSize == ListHeaderLength + |transportId| && |transportId| < 0x1_0000_0000
    ensures r.Valid() && OnlyOutBufferChanged(base, r)
    ensures r.outBuffer == Some(Zeros(20) + ToBigEndian(|transportId|, 4) + transportId)
  {
    var withLength := SetOutBufferLong(base, 20, |transportId|).value;
    var withId := SetOutBufferString(withLength, ListHeaderLength, transportId).value;
    BigEndian32(|transportId|);
    var l := withId.outBuffer.value;
    assert l[..20] == Zeros(20) by {
      assert forall i :: 0 <= i < 20 ==> l[i] == withLength.outBuffer.value[i] == 0;
    }
    assert l[20..24] == withLength.outBuffer.value[20..24];
    assert l[ListHeaderLength..] == l[ListHeaderLength..ListHeaderLength + |transportId|];
    assert l == l[..20] + l[20..24] + l[ListHeaderLength..];
    withId
  }

  /**
   SCSIPersistentReserveOutRegisterAndMove(transportId): a REGISTER AND
   MOVE request whose list has room for the 24-byte header and the
   transport ID (the sum in unsigned 32-bit arithmetic), rejecting a
   transport ID shorter than 24 bytes or not a multiple of 4 (its length
   taken in 32 bits); the transport ID length goes to bytes 20..23 and the
   transport ID after. A transport ID so long that the sum wraps leaves the
   list too small for it, and the write reports an overflow.
   */
  function NewRegisterAndMove(transportId: seq<byte>): (r: Result<PrOut>)
    ensures (|transportId| < 24 || |transportId| % 4 != 0) && |transportId| < 0x1_0000_0000 ==>
              r == Err(InvalidValue)
    ensures r.Ok? <==> 24 <= |transportId| && |transportId| % 4 == 0 && |transportId| + ListHeaderLength < 0x1_0000_0000
    ensures r.Ok? ==> r.value.Valid() && r.value.action == RegisterAndMove && r.value.format == RegisterAndMoveList
    ensures r.Ok? ==> r.value.req.outBufferSize == ListHeaderLength + |transportId|
    ensures r.Ok? ==> r.value.List() == Zeros(20) + ToBigEndian(|transportId|, 4) + transportId
    ensures r.Ok? ==> r.value.req.cdb[0] == PrOutOpcode && r.value.req.cdb[1] == ServiceActionCode(RegisterAndMove)
    ensures r.Ok? ==> r.value.req.cdb[7] as int * 0x100 + r.value.req.cdb[8]
                      == (ListHeaderLength + |transportId|) % 0x1_0000
    ensures r.Ok? ==> r.value.req.xferDir == XferWrite && r.value.req.inBuffer == None
  {
    var base := NewPrOut(RegisterAndMove, Trunc32(ListHeaderLength + |transportId|));
    var idLength := Trunc32(|transportId|);
    if idLength < 24 || idLength % 4 != 0 then Err(InvalidValue)
    else if base.req.outBufferSize < ListHeaderLength + |transportId| then Err(OverFlow)
    else Ok(PrOut(WriteMoveList(base.req, transportId), RegisterAndMove, RegisterAndMoveList))
  }

  // ---------------------------------------------------------------------------
  // The parameter lists as a device reads them, as partners for the setters

  /** The fields of a basic parameter list (SPC-3 table 165). */
  datatype BasicParameters = BasicParameters(
    key: seq<byte>,
    serviceActionKey: seq<byte>,
    specIPt: bool,
    allTgPt: bool,
    aptpl: bool,
    transportIds: seq<byte>)

  function DecodeBasicList(list: seq<byte>): (b: Option<BasicParameters>)
    ensures b.Some? <==> |list| >= ListHeaderLength
  {
    if |list| < ListHeaderLength then None
    else Some(BasicParameters(list[0..8], list[8..16], Bit(list[20] as bv8, 3), Bit(list[20] as bv8, 2),
                              Bit(list[20] as bv8, 0), list[ListHeaderLength..]))
  }

  /** The fields of a REGISTER AND MOVE parameter list (SPC-3 table 170). */
  datatype MoveParameters = MoveParameters(
    key: seq<byte>,
    serviceActionKey: seq<byte>,
    unreg: bool,
    aptpl: bool,
    relativeTargetPortId: nat,
    transportIdLength: nat,
    transportId: seq<byte>)

  function DecodeMoveList(list: seq<byte>): (m: Option<MoveParameters>)
    ensures m.Some? <==> |list| >= ListHeaderLength
  {
    if |list| < ListHeaderLength then None
    else Some(MoveParameters(list[0..8], list[8..16], Bit(list[17] as bv8, 1), Bit(list[17] as bv8, 0),
                             list[18] as int * 0x100 + list[19], FromBigEndian(list[20..24]),
                             list[ListHeaderLength..]))
  }

  /** Two lists that agree outside [lo, hi) agree on any slice clear of it. */
  lemma SameExcept(a: seq<byte>, b: seq<byte>, lo: nat, hi: nat, from: nat, to: nat)
    requires UnchangedOutside(a, b, lo, hi)
    requires from <= to <= |a| && (to <= lo || hi <= from)
    ensures a[from..to] == b[from..to]
    ensures to == |a| ==> a[from..] == b[from..]
  {
    assert forall k :: 0 <= k < to - from ==> a[from..to][k] == b[from..to][k];
  }

  /** Lists that differ only in bytes 0..15 differ, as basic lists, only in the keys. */
  lemma BasicListKeysOnly(a: seq<byte>, b: seq<byte>)
    requires |a| >= ListHeaderLength && UnchangedOutside(a, b, 0, 16)
    ensures DecodeBasicList(b) == Some(DecodeBasicList(a).value.(key := b[0..8], serviceActionKey := b[8..16]))
  {
    assert a[20] == b[20];
    SameExcept(a, b, 0, 16, ListHeaderLength, |a|);
  }

  /** Lists that differ only in byte 20 differ, as basic lists, only in the flags. */
  lemma BasicListFlagsOnly(a: seq<byte>, b: seq<byte>)
    requires |a| >= ListHeaderLength && UnchangedOutside(a, b, 20, 21)
    ensures DecodeBasicList(b) == Some(DecodeBasicList(a).value.(specIPt := Bit(b[20] as bv8, 3),
                                       allTgPt := Bit(b[20] as bv8, 2), aptpl := Bit(b[20] as bv8, 0)))
  {
    SameExcept(a, b, 20, 21, 0, 8);
    SameExcept(a, b, 20, 21, 8, 16);
    SameExcept(a, b, 20, 21, ListHeaderLength, |a|);
  }

  /** Lists that differ only in byte 17 differ, as REGISTER AND MOVE lists, only in the flags. */
  lemma MoveListFlagsOnly(a: seq<byte>, b: seq<byte>)
    requires |a| >= ListHeaderLength && UnchangedOutside(a, b, 17, 18)
    ensures DecodeMoveList(b) == Some(DecodeMoveList(a).value.(unreg := Bit(b[17] as bv8, 1),
                                      aptpl := Bit(b[17] as bv8, 0)))
  {
    SameExcept(a, b, 17, 18, 0, 8);
    SameExcept(a, b, 17, 18, 8, 16);
    SameExcept(a, b, 17, 18, 20, 24);
    SameExcept(a, b, 17, 18, ListHeaderLength, |a|);
    assert a[18] == b[18] && a[19] == b[19];
  }

  /** The reservation-key setter changes the key of a basic list and nothing else. */
  lemma {:induction false} BasicListAfterKey(p: PrOut, key: seq<byte>)
    requires p.Valid() && |p.List()| >= ListHeaderLength
    requires SetReservationKey(p, key).Ok?
    ensures DecodeBasicList(SetReservationKey(p, key).value.List()) ==
            Some(DecodeBasicList(p.List()).value.(key := key))
  {
    var a := p.List();
    var b := SetReservationKey(p, key).value.List();
    BasicListKeysOnly(a, b);
    SameExcept(a, b, 0, 8, 8, 16);
  }

  /** The service-action-key setter changes that key of a basic list and nothing else. */
  lemma {:induction false} BasicListAfterServiceActionKey(p: PrOut, key: seq<byte>)
    requires p.Valid() && |p.List()| >= ListHeaderLength
    requires SetServiceActionReservationKey(p, key).Ok?
    ensures DecodeBasicList(SetServiceActionReservationKey(p, key).value.List()) ==
            Some(DecodeBasicList(p.List()).value.(serviceActionKey := key))
  {
    var a := p.List();
    var b := SetServiceActionReservationKey(p, key).value.List();
    BasicListKeysOnly(a, b);
    SameExcept(a, b, 8, 16, 0, 8);
  }

  /** On a basic list, SetAPTPL changes the APTPL flag and nothing else. */
  lemma {:induction false} BasicListAfterAptpl(p: PrOut, aptpl: bool)
    requires p.Valid() && p.format == BasicList && |p.List()| >= ListHeaderLength
    requires SetAptpl(p, aptpl).Ok?
    ensures DecodeBasicList(SetAptpl(p, aptpl).value.List()) ==
            Some(DecodeBasicList(p.List()).value.(aptpl := aptpl))
  {
    assert AptplByte(p.format) == 20;
    var a := p.List();
    var b := SetAptpl(p, aptpl).value.List();
    BasicListFlagsOnly(a, b);
    assert Bit(b[20] as bv8, 3) == Bit(a[20] as bv8, 3);
    assert Bit(b[20] as bv8, 2) == Bit(a[20] as bv8, 2);
  }

  /** SetAllTgPt changes the ALL_TG_PT flag and nothing else. */
  lemma {:induction false} BasicListAfterAllTgPt(p: PrOut, allTgPt: bool)
    requires p.Valid() && |p.List()| >= ListHeaderLength
    requires SetAllTgPt(p, allTgPt).Ok?
    ensures DecodeBasicList(SetAllTgPt(p, allTgPt).value.List()) ==
            Some(DecodeBasicList(p.List()).value.(allTgPt := allTgPt))
  {
    var a := p.List();
    var b := SetAllTgPt(p, allTgPt).value.List();
    BasicListFlagsOnly(a, b);
    assert Bit(b[20] as bv8, 3) == Bit(a[20] as bv8, 3);
    assert Bit(b[20] as bv8, 0) == Bit(a[20] as bv8, 0);
  }

  /** A default-sized list as the constructor leaves it: zero keys, every flag clear, no transport IDs. */
  lemma FreshBasicListDecodes(action: ServiceAction)
    ensures DecodeBasicList(NewPrOut(action, DefaultParameterListLength).List()) ==
            Some(BasicParameters(Zeros(8), Zeros(8), false, false, false, []))
  {
    var l := NewPrOut(action, DefaultParameterListLength).List();
    assert l == Zeros(ListHeaderLength);
    ZeroBasicListDecodes(l);
  }

  /** Twenty-four zero bytes decode to zero keys, every flag clear and no transport IDs. */
  lemma ZeroBasicListDecodes(l: seq<byte>)
    requires l == Zeros(ListHeaderLength)
    ensures DecodeBasicList(l) == Some(BasicParameters(Zeros(8), Zeros(8), false, false, false, []))
  {
    assert l[0..8] == Zeros(8) && l[8..16] == Zeros(8);
    assert l[20] == 0 && l[ListHeaderLength..] == [];
    assert !Bit(0, 3) && !Bit(0, 2) && !Bit(0, 0);
  }

  /** A basic request filled in the usual order: both keys, then the flags. */
  function BuildBasicList(action: ServiceAction, key: seq<byte>, saKey: seq<byte>, allTgPt: bool, aptpl: bool)
    : Result<PrOut>
  {
    var p0 := NewPrOut(action, DefaultParameterListLength);
    var p1 :- SetReservationKey(p0, key);
    var p2 :- SetServiceActionReservationKey(p1, saKey);
    var p3 :- SetAllTgPt(p2, allTgPt);
    SetAptpl(p3, aptpl)
  }

  /** Every value the setters write into a default-sized basic list reads back as written. */
  lemma {:induction false} BasicListRoundTrip(action: ServiceAction, key: seq<byte>, saKey: seq<byte>,
                                              allTgPt: bool, aptpl: bool)
    requires |key| == KeyLength && |saKey| == KeyLength
    ensures BuildBasicList(action, key, saKey, allTgPt, aptpl).Ok?
    ensures DecodeBasicList(BuildBasicList(action, key, saKey, allTgPt, aptpl).value.List()) ==
            Some(BasicParameters(key, saKey, false, allTgPt, aptpl, []))
  {
    var p0 := NewPrOut(action, DefaultParameterListLength);
    FreshBasicListDecodes(action);
    var p1 := SetReservationKey(p0, key).value;
    BasicListAfterKey(p0, key);
    var p2 := SetServiceActionReservationKey(p1, saKey).value;
    BasicListAfterServiceActionKey(p1, saKey);
    var p3 := SetAllTgPt(p2, allTgPt).value;
    BasicListAfterAllTgPt(p2, allTgPt);
    BasicListAfterAptpl(p3, aptpl);
  }

  /** Outside byte 20, a flagged header followed by the IDs carries the keys of `a` and then the IDs. */
  lemma FlaggedListSlices(a: seq<byte>, ids: seq<byte>, bit: nat)
    requires |a| >= ListHeaderLength && bit < 8
    ensures var b := FlaggedHeader(a, bit) + ids;
      && |b| >= ListHeaderLength
      && b[0..8] == a[0..8] && b[8..16] == a[8..16]
      && b[20] == FlaggedHeader(a, bit)[20]
      && b[ListHeaderLength..] == ids
  {
    var h := FlaggedHeader(a, bit);
    var b := h + ids;
    assert b[ListHeaderLength..] == ids;
    assert a[0..8] == b[0..8];
    assert a[8..16] == b[8..16];
  }

  /** The flag bits of byte 20 that a device reads, after setting bit 3 or bit 4. */
  lemma FlaggedByteBits(before: bv8, after: bv8, bit: bv8)
    requires bit == 3 || bit == 4
    requires Bit(after, bit) && BitsKept(before, after, bit)
    ensures Bit(after, 2) == Bit(before, 2) && Bit(after, 0) == Bit(before, 0)
    ensures bit == 3 ==> Bit(after, 3)
    ensures bit == 4 ==> Bit(after, 3) == Bit(before, 3)
  {
    assert Bit(after, 2) == Bit(before, 2);
    assert Bit(after, 0) == Bit(before, 0);
    if bit == 4 {
      assert Bit(after, 3) == Bit(before, 3);
    }
  }

  /** Replacing the transport IDs with SPEC_I_PT at bit 3, as SPC-3 places it, announces them. */
  lemma BasicListAnnouncesIds(a: seq<byte>, ids: seq<byte>)
    requires |a| >= ListHeaderLength
    ensures DecodeBasicList(FlaggedHeader(a, 3) + ids) ==
            Some(DecodeBasicList(a).value.(specIPt := true, transportIds := ids))
  {
    FlaggedListSlices(a, ids, 3);
    FlaggedByteBits(a[20] as bv8, FlaggedHeader(a, 3)[20] as bv8, 3);
  }

  /** Replacing the transport IDs with bit 4 set, as written, leaves the decoded SPEC_I_PT as it was. */
  lemma BasicListKeepsSpecIPt(a: seq<byte>, ids: seq<byte>)
    requires |a| >= ListHeaderLength
    ensures DecodeBasicList(FlaggedHeader(a, 4) + ids) ==
            Some(DecodeBasicList(a).value.(transportIds := ids))
  {
    FlaggedListSlices(a, ids, 4);
    FlaggedByteBits(a[20] as bv8, FlaggedHeader(a, 4)[20] as bv8, 4);
  }

  /**
   As written, attaching a transport ID list does not announce it: on a
   list whose SPEC_I_PT bit was clear, a device still reads SPEC_I_PT as 0.
   */
  lemma TransportIdsNotAnnounced(p: PrOut, ids: seq<byte>)
    requires p.Valid() && p.format == BasicList && |p.List()| >= ListHeaderLength
    requires 0 < |ids| && |ids| + ListHeaderLength < 0x1_0000_0000
    requires !DecodeBasicList(p.List()).value.specIPt
    ensures SetTransportIdList(p, Some(ids), |ids|).Ok?
    ensures DecodeBasicList(SetTransportIdList(p, Some(ids), |ids|).value.List()).value.transportIds == ids
    ensures !DecodeBasicList(SetTransportIdList(p, Some(ids), |ids|).value.List()).value.specIPt
  {
    assert ids[..|ids|] == ids;
    BasicListKeepsSpecIPt(p.List(), ids);
  }

  /**
   As written, attaching transport IDs to a request built with a parameter
   list shorter than 24 bytes copies 24 bytes out of the shorter old list.
   The corrected version copies what there is and reads the rest as zeros.
   */
  lemma ShortListOverReads(action: ServiceAction, listLength: u32, ids: seq<byte>)
    requires listLength < ListHeaderLength as u32
    requires 0 < |ids| && |ids| + ListHeaderLength < 0x1_0000_0000
    ensures SetTransportIdList(NewPrOut(action, listLength), Some(ids), |ids|) == Err(HeapOverrun)
    ensures SetTransportIdListCorrected(NewPrOut(action, listLength), Some(ids), |ids|).Ok?
    ensures DecodeBasicList(SetTransportIdListCorrected(NewPrOut(action, listLength), Some(ids), |ids|).value.List())
            == Some(BasicParameters(Zeros(8), Zeros(8), true, false, false, ids))
  {
    var p := NewPrOut(action, listLength);
    var h := PaddedHeader(p.List());
    assert h == Zeros(ListHeaderLength);
    ZeroBasicListDecodes(h);
    assert ids[..|ids|] == ids;
  }

  /** On a REGISTER AND MOVE list, SetUNREG changes UNREG and nothing else. */
  lemma {:induction false} MoveListAfterUnreg(p: PrOut, unreg: bool)
    requires p.Valid() && p.format == RegisterAndMoveList && p.req.outBufferSize >= ListHeaderLength
    ensures SetUnreg(p, unreg).Ok?
    ensures DecodeMoveList(SetUnreg(p, unreg).value.List()) ==
            Some(DecodeMoveList(p.List()).value.(unreg := unreg))
  {
    var a := p.List();
    var b := SetUnreg(p, unreg).value.List();
    MoveListFlagsOnly(a, b);
    assert Bit(b[17] as bv8, 0) == Bit(a[17] as bv8, 0);
  }

  /** On a REGISTER AND MOVE list, SetAPTPL changes APTPL (byte 17) and nothing else. */
  lemma {:induction false} MoveListAfterAptpl(p: PrOut, aptpl: bool)
    requires p.Valid() && p.format == RegisterAndMoveList && p.req.outBufferSize >= ListHeaderLength
    ensures SetAptpl(p, aptpl).Ok?
    ensures DecodeMoveList(SetAptpl(p, aptpl).value.List()) ==
            Some(DecodeMoveList(p.List()).value.(aptpl := aptpl))
  {
    var a := p.List();
    var b := SetAptpl(p, aptpl).value.List();
    MoveListFlagsOnly(a, b);
    assert Bit(b[17] as bv8, 1) == Bit(a[17] as bv8, 1);
  }

  /** SetRelativeTargetPortId changes the relative target port identifier and nothing else. */
  lemma {:induction false} MoveListAfterPortId(p: PrOut, id: u16)
    requires p.Valid() && p.format == RegisterAndMoveList && p.req.outBufferSize >= ListHeaderLength
    ensures SetRelativeTargetPortId(p, id).Ok?
    ensures DecodeMoveList(SetRelativeTargetPortId(p, id).value.List()) ==
            Some(DecodeMoveList(p.List()).value.(relativeTargetPortId := id))
  {
    var a := p.List();
    var b := SetRelativeTargetPortId(p, id).value.List();
    SameExcept(a, b, 18, 20, 0, 8);
    SameExcept(a, b, 18, 20, 8, 16);
    SameExcept(a, b, 18, 20, 20, 24);
    SameExcept(a, b, 18, 20, ListHeaderLength, |a|);
    assert a[17] == b[17];
  }

  /** The bytes of the SPC-3 REGISTER AND MOVE layout of a transport ID, with zero keys and flags. */
  lemma MoveListLayoutBytes(transportId: seq<byte>, l: seq<byte>)
    requires |transportId| < 0x1_0000_0000
    requires l == Zeros(20) + ToBigEndian(|transportId|, 4) + transportId
    ensures |l| >= ListHeaderLength
    ensures l[0..8] == Zeros(8) && l[8..16] == Zeros(8)
    ensures l[17] == 0 && l[18] == 0 && l[19] == 0
    ensures FromBigEndian(l[20..24]) == |transportId|
    ensures l[ListHeaderLength..] == transportId
  {
    var z := Zeros(20);
    var length := ToBigEndian(|transportId|, 4);
    assert forall i :: 0 <= i < 20 ==> l[i] == z[i];
    assert l[0..8] == Zeros(8);
    assert l[8..16] == Zeros(8);
    assert l[20..24] == length;
    BigEndian32RoundTrip(|transportId|);
  }

  /** The SPC-3 REGISTER AND MOVE layout of a transport ID, with zero keys and flags, decodes field by field. */
  lemma MoveListLayoutDecodes(transportId: seq<byte>)
    requires |transportId| < 0x1_0000_0000
    ensures DecodeMoveList(Zeros(20) + ToBigEndian(|transportId|, 4) + transportId) ==
            Some(MoveParameters(Zeros(8), Zeros(8), false, false, 0, |transportId|, transportId))
  {
    var l := Zeros(20) + ToBigEndian(|transportId|, 4) + transportId;
    MoveListLayoutBytes(transportId, l);
    ZeroMoveHeaderDecodes(l, transportId);
  }

  /** A list with zero keys, flags and port identifier decodes to those zeros, its length field and the rest. */
  lemma ZeroMoveHeaderDecodes(l: seq<byte>, transportId: seq<byte>)
    requires |l| >= ListHeaderLength
    requires l[0..8] == Zeros(8) && l[8..16] == Zeros(8)
    requires l[17] == 0 && l[18] == 0 && l[19] == 0
    requires FromBigEndian(l[20..24]) == |transportId| && l[ListHeaderLength..] == transportId
    ensures DecodeMoveList(l) == Some(MoveParameters(Zeros(8), Zeros(8), false, false, 0, |transportId|, transportId))
  {
    assert !Bit(0, 1) && !Bit(0, 0);
  }

  /** A freshly built REGISTER AND MOVE list reads back as its transport ID, its length and zeros. */
  lemma NewMoveListDecodes(transportId: seq<byte>)
    requires NewRegisterAndMove(transportId).Ok?
    ensures DecodeMoveList(NewRegisterAndMove(transportId).value.List()) ==
            Some(MoveParameters(Zeros(8), Zeros(8), false, false, 0, |transportId|, transportId))
  {
    MoveListLayoutDecodes(transportId);
  }
}
