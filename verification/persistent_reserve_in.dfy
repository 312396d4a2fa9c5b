/**
 PERSISTENT RESERVE IN (SPC-3 section 6.11): a ten-byte CDB with the
 service action in byte 1 and the allocation length in bytes 7..8, and the
 decoding of the READ KEYS and READ RESERVATION parameter data. Both begin
 with the PRgeneration (bytes 0..3) and the ADDITIONAL LENGTH (bytes 4..7).
 */
module PersistentReserveIn {
  import opened ScsiBase
  import opened FieldCodec
  import opened ScsiRequest

  const PrInOpcode: byte := 0x5E
  const PrInCdbSize: nat := 10
  const DefaultAllocationLength: u32 := 255
  const KeyLength: nat := 8

  /** The PERSISTENT RESERVE IN service actions the command names. */
  datatype ServiceAction = ReadKeys | ReadReservation | ReportCapabilities | ReadFullStatus

  function ServiceActionCode(a: ServiceAction): byte
  {
    match a
    case ReadKeys => 0x00
    case ReadReservation => 0x01
    case ReportCapabilities => 0x02
    case ReadFullStatus => 0x03
  }

  /** The persistent reservation types of SPC-3 table 168, as libiscsi numbers them. */
  datatype ReservationType =
    | WriteExclusive
    | ExclusiveAccess
    | WriteExclusiveRegistrantsOnly
    | ExclusiveAccessRegistrantsOnly
    | WriteExclusiveAllRegistrants
    | ExclusiveAccessAllRegistrants

  function ReservationTypeCode(t: ReservationType): byte
  {
    match t
    case WriteExclusive => 1
    case ExclusiveAccess => 3
    case WriteExclusiveRegistrantsOnly => 5
    case ExclusiveAccessRegistrantsOnly => 6
    case WriteExclusiveAllRegistrants => 7
    case ExclusiveAccessAllRegistrants => 8
  }

  /** The inverse of ReservationTypeCode on the six defined codes. */
  function ReservationTypeOfCode(code: byte): (t: Option<ReservationType>)
    ensures t.Some? <==> code in {1, 3, 5, 6, 7, 8}
    ensures t.Some? ==> ReservationTypeCode(t.value) == code
  {
    if code == 1 then Some(WriteExclusive)
    else if code == 3 then Some(ExclusiveAccess)
    else if code == 5 then Some(WriteExclusiveRegistrantsOnly)
    else if code == 6 then Some(ExclusiveAccessRegistrantsOnly)
    else if code == 7 then Some(WriteExclusiveAllRegistrants)
    else if code == 8 then Some(ExclusiveAccessAllRegistrants)
    else None
  }

  /** Every type has its own code, and the code names it back. */
  lemma ReservationTypeCodeRoundTrip(t: ReservationType)
    ensures ReservationTypeOfCode(ReservationTypeCode(t)) == Some(t)
  {
  }

  /** SCSIPersistentReserveIn and its READ KEYS / READ RESERVATION subclasses. */
  datatype PrIn = PrIn(req: Request, action: ServiceAction)

  /**
   SCSIPersistentReserveIn(action, allocationLength): opcode, service action,
   the allocation length cut to 16 bits in bytes 7..8, a zero-filled inbound
   buffer of the full allocation length, direction READ.
   */
  function NewPrIn(action: ServiceAction, allocationLength: u32): (p: PrIn)
    ensures p.req.Valid() && |p.req.cdb| == PrInCdbSize && p.action == action
    ensures p.req.cdb[0] == PrInOpcode && p.req.cdb[1] == ServiceActionCode(action)
    ensures p.req.cdb[7] as int * 0x100 + p.req.cdb[8] == allocationLength % 0x1_0000
    ensures forall i :: 2 <= i < 7 ==> p.req.cdb[i] == 0
    ensures p.req.cdb[9] == 0
    ensures p.req.inBuffer == Some(Zeros(allocationLength)) && p.req.inBufferSize == allocationLength
    ensures p.req.outBuffer == None && p.req.xferDir == XferRead
    ensures p.req.datain == None && !p.req.executed
  {
    var base := NewRequestOfSize(PrInCdbSize).value;
    var withOpcode := SetCdbByte(base, 0, PrInOpcode).value;
    var withAction := SetCdbByte(withOpcode, 1, ServiceActionCode(action)).value;
    var withLength := SetCdbShort(withAction, 7, Trunc16(allocationLength)).value;
    PrIn(SetXferDir(CreateInBuffer(withLength, allocationLength), XferRead), action)
  }

  /** SCSIPersistentReserveInReadKeys(allocationLength). */
  function NewReadKeys(allocationLength: u32): (p: PrIn)
    ensures p == NewPrIn(ReadKeys, allocationLength)
    ensures p.action == ReadKeys && p.req.cdb[1] == 0x00
  {
    NewPrIn(ReadKeys, allocationLength)
  }

  /** SCSIPersistentReserveInReadReservation(allocationLength). */
  function NewReadReservation(allocationLength: u32): (p: PrIn)
    ensures p == NewPrIn(ReadReservation, allocationLength)
    ensures p.action == ReadReservation && p.req.cdb[1] == 0x01
  {
    NewPrIn(ReadReservation, allocationLength)
  }

  // ---------------------------------------------------------------------------
  // Decoding

  /** The ADDITIONAL LENGTH field of a response that carries it. */
  function AdditionalLength(datain: seq<byte>): nat
    requires |datain| >= 8
  {
    FromBigEndian(datain[4..8])
  }

  /** GetPRGeneration: bytes 0..3. */
  function Generation(p: PrIn): (g: Result<u32>)
    ensures p.req.datain.None? ==> g == Err(Uninitialized)
    ensures p.req.datain.Some? && p.req.InBufferTransferSize() < 4 ==> g == Err(OverRead)
    ensures g.Ok? <==> p.req.InBufferTransferSize() >= 4
    ensures g.Ok? ==> g.value == FromBigEndian(p.req.datain.value[0..4])
  {
    GetLong(p.req.datain, 0)
  }

  /**
   GetKeyCount: (ADDITIONAL LENGTH + 1) / 8 in unsigned 32-bit arithmetic.
   A length that is a whole number of keys gives that number; the largest
   length wraps to a count of zero.
   */
  function KeyCount(p: PrIn): (c: Result<u32>)
    ensures p.req.datain.None? ==> c == Err(Uninitialized)
    ensures p.req.datain.Some? && p.req.InBufferTransferSize() < 8 ==> c == Err(OverRead)
    ensures c.Ok? <==> p.req.InBufferTransferSize() >= 8
    ensures c.Ok? && AdditionalLength(p.req.datain.value) % 8 == 0 ==>
              c.value == AdditionalLength(p.req.datain.value) / 8
    ensures c.Ok? && AdditionalLength(p.req.datain.value) < 0xFFFF_FFFF ==>
              c.value * 8 <= AdditionalLength(p.req.datain.value) + 1 < c.value * 8 + 8
    ensures c.Ok? && AdditionalLength(p.req.datain.value) == 0xFFFF_FFFF ==> c.value == 0
  {
    var length :- GetLong(p.req.datain, 4);
    Ok(Trunc32(length + 1) / KeyLength)
  }

  /** The offset of key `i`, computed in unsigned 32-bit arithmetic as the source does. */
  function KeyOffset(i: u32): u32
  {
    Trunc32((i + 1) * KeyLength)
  }

  /** GetKey: the eight bytes of key `i`, at offset 8*(i+1). */
  function GetKey(p: PrIn, i: u32): (k: Result<seq<byte>>)
    ensures p.req.datain.None? ==> k == Err(Uninitialized)
    ensures i < 0x1FFF_FFFF && p.req.datain.Some? ==> (k.Ok? <==> p.req.InBufferTransferSize() >= 8 * (i + 1) + 8)
    ensures i < 0x1FFF_FFFF && k.Ok? ==> k.value == p.req.datain.value[8 * (i + 1)..8 * (i + 1) + 8]
  {
    GetString(p.req.datain, KeyOffset(i), KeyLength)
  }

  /** The index whose offset wraps reads the header: PRgeneration and ADDITIONAL LENGTH. */
  lemma KeyIndexWraps(p: PrIn)
    ensures GetKey(p, 0x1FFF_FFFF) == GetString(p.req.datain, 0, KeyLength)
  {
    assert KeyOffset(0x1FFF_FFFF) == 0;
  }

  /** GetReservation: no key when ADDITIONAL LENGTH is zero, otherwise bytes 8..15. */
  function Reservation(p: PrIn): (k: Result<seq<byte>>)
    ensures p.req.datain.None? ==> k == Err(Uninitialized)
    ensures p.req.datain.Some? && p.req.InBufferTransferSize() < 8 ==> k == Err(OverRead)
    ensures p.req.InBufferTransferSize() >= 8 && AdditionalLength(p.req.datain.value) == 0 ==> k == Ok([])
    ensures p.req.InBufferTransferSize() >= 8 && AdditionalLength(p.req.datain.value) != 0 ==>
              (k.Ok? <==> p.req.InBufferTransferSize() >= 16)
    ensures k.Ok? && k.value != [] ==> k.value == p.req.datain.value[8..16]
  {
    var length :- GetLong(p.req.datain, 4);
    if length == 0 then Ok([])
    else GetString(p.req.datain, 8, KeyLength)
  }

  /**
   GetReservationType: InsufficientData when no reservation is held,
   otherwise the TYPE nibble of byte 21 mapped onto the reservation types.
   Code 5 (Write Exclusive - Registrants Only) is reported as Write
   Exclusive; the other defined codes map to themselves; anything else is
   an InvalidValue.
   */
  function GetReservationType(p: PrIn): (t: Result<ReservationType>)
    ensures p.req.datain.None? ==> t == Err(Uninitialized)
    ensures p.req.datain.Some? && p.req.InBufferTransferSize() < 8 ==> t == Err(OverRead)
    ensures p.req.InBufferTransferSize() >= 8 && AdditionalLength(p.req.datain.value) == 0 ==>
              t == Err(InsufficientData)
    ensures (p.req.InBufferTransferSize() >= 8 && AdditionalLength(p.req.datain.value) != 0
             && p.req.InBufferTransferSize() < 22) ==> t == Err(OverRead)
    ensures t.Ok? <==> p.req.InBufferTransferSize() >= 22 && AdditionalLength(p.req.datain.value) != 0
                       && p.req.datain.value[21] % 16 in {1, 3, 5, 6, 7, 8}
    ensures t.Ok? ==> ReservationTypeCode(t.value) == (if p.req.datain.value[21] % 16 == 5 then 1
                                                       else p.req.datain.value[21] % 16)
  {
    var length :- GetLong(p.req.datain, 4);
    if length == 0 then Err(InsufficientData)
    else
      var nibble :- TypeNibble(p.req.datain);
      if nibble == 1 then Ok(WriteExclusive)
      else if nibble == 3 then Ok(ExclusiveAccess)
      else if nibble == 5 then Ok(WriteExclusive)
      else if nibble == 6 then Ok(ExclusiveAccessRegistrantsOnly)
      else if nibble == 7 then Ok(WriteExclusiveAllRegistrants)
      else if nibble == 8 then Ok(ExclusiveAccessAllRegistrants)
      else Err(InvalidValue)
  }

  /** The TYPE field: bits 0..3 of byte 21 (the low nibble of the SCOPE/TYPE byte). */
  function TypeNibble(datain: Option<seq<byte>>): (n: Result<byte>)
    ensures datain.None? ==> n == Err(Uninitialized)
    ensures n.Ok? <==> TransferSize(datain) >= 22
    ensures n.Ok? ==> n.value == datain.value[21] % 16
  {
    var r := GetBitArray(datain, 21, 0, 4);
    if r.Ok? then
      GetBitArrayValue(datain.value, 21, 0, 4);
      LowNibble(datain.value[21]);
      r
    else r
  }

  /** GetReservationType with every defined code mapped to its own type. */
  function GetReservationTypeCorrected(p: PrIn): (t: Result<ReservationType>)
    ensures t.Ok? <==> GetReservationType(p).Ok?
    ensures t.Ok? ==> p.req.InBufferTransferSize() >= 22
    ensures t.Ok? ==> ReservationTypeCode(t.value) == p.req.datain.value[21] % 16
    ensures t.Err? ==> t == GetReservationType(p)
    ensures t.Ok? && p.req.datain.value[21] % 16 != 5 ==> t == GetReservationType(p)
  {
    var length :- GetLong(p.req.datain, 4);
    if length == 0 then Err(InsufficientData)
    else
      var nibble :- TypeNibble(p.req.datain);
      match ReservationTypeOfCode(nibble)
      case Some(t) => Ok(t)
      case None => Err(InvalidValue)
  }

  // ---------------------------------------------------------------------------
  // The parameter data a device returns, as partners for the decoders

  /** All of `keys` are eight-byte reservation keys. */
  predicate AllKeys(keys: seq<seq<byte>>)
  {
    forall j :: 0 <= j < |keys| ==> |keys[j]| == KeyLength
  }

  function Concat(keys: seq<seq<byte>>): (d: seq<byte>)
    requires AllKeys(keys)
    ensures |d| == KeyLength * |keys|
  {
    if |keys| == 0 then [] else Concat(keys[..|keys| - 1]) + keys[|keys| - 1]
  }

  /** Key `j` of a concatenation sits at offset 8*j. */
  lemma {:induction false} ConcatAt(keys: seq<seq<byte>>, j: nat)
    requires AllKeys(keys) && j < |keys|
    ensures Concat(keys)[KeyLength * j..KeyLength * j + KeyLength] == keys[j]
    decreases |keys|
  {
    var init := keys[..|keys| - 1];
    assert Concat(keys) == Concat(init) + keys[|keys| - 1];
    if j < |keys| - 1 {
      ConcatAt(init, j);
      assert init[j] == keys[j];
    }
  }

  /** READ KEYS parameter data (SPC-3 table 102). */
  function ReadKeysData(generation: u32, keys: seq<seq<byte>>): (d: seq<byte>)
    requires AllKeys(keys)
    ensures |d| == 8 + KeyLength * |keys|
  {
    ToBigEndian(generation, 4) + ToBigEndian(KeyLength * |keys|, 4) + Concat(keys)
  }

  /** The header of READ KEYS data decodes to the generation and the number of keys. */
  lemma ReadKeysHeader(p: PrIn, generation: u32, keys: seq<seq<byte>>)
    requires AllKeys(keys) && |keys| < 0x1FFF_FFFF
    requires p.req.datain == Some(ReadKeysData(generation, keys))
    ensures Generation(p) == Ok(generation)
    ensures KeyCount(p) == Ok(|keys|)
  {
    var d := ReadKeysData(generation, keys);
    assert d[0..4] == ToBigEndian(generation, 4);
    assert d[4..8] == ToBigEndian(KeyLength * |keys|, 4);
    BigEndian32RoundTrip(generation);
    BigEndian32RoundTrip(KeyLength * |keys|);
  }

  /** Key `j` of READ KEYS data is read back by GetKey(j). */
  lemma ReadKeyAt(p: PrIn, generation: u32, keys: seq<seq<byte>>, j: nat)
    requires AllKeys(keys) && |keys| < 0x1FFF_FFFF && j < |keys|
    requires p.req.datain == Some(ReadKeysData(generation, keys))
    ensures GetKey(p, j) == Ok(keys[j])
  {
    var d := ReadKeysData(generation, keys);
    ConcatAt(keys, j);
    var o := KeyLength * (j + 1);
    assert d[o..o + KeyLength] == Concat(keys)[KeyLength * j..KeyLength * j + KeyLength];
  }

  /** Decoding READ KEYS data recovers the generation, the number of keys and each key. */
  lemma ReadKeysRoundTrip(p: PrIn, generation: u32, keys: seq<seq<byte>>, j: nat)
    requires AllKeys(keys) && |keys| < 0x1FFF_FFFF && j < |keys|
    requires p.req.datain == Some(ReadKeysData(generation, keys))
    ensures Generation(p) == Ok(generation)
    ensures KeyCount(p) == Ok(|keys|)
    ensures GetKey(p, j) == Ok(keys[j])
  {
    ReadKeysHeader(p, generation, keys);
    ReadKeyAt(p, generation, keys, j);
  }

  /**
   READ RESERVATION parameter data (SPC-3 tables 103 and 104): the header
   alone when no reservation is held, otherwise sixteen more bytes with the
   key in bytes 8..15 and SCOPE and TYPE in byte 21.
   */
  function ReadReservationData(generation: u32, held: bool, key: seq<byte>, scope: nat, typeCode: nat)
    : (d: seq<byte>)
    requires |key| == KeyLength && scope < 16 && typeCode < 16
    ensures |d| == if held then 24 else 8
  {
    ToBigEndian(generation, 4)
      + (if held then ToBigEndian(16, 4) + key + [0, 0, 0, 0, 0, scope * 16 + typeCode, 0, 0]
         else ToBigEndian(0, 4))
  }

  /** With no reservation held, there is no key and asking for the type is an error. */
  lemma NoReservationRoundTrip(p: PrIn, generation: u32)
    requires p.req.datain == Some(ReadReservationData(generation, false, Zeros(8), 0, 0))
    ensures Generation(p) == Ok(generation)
    ensures Reservation(p) == Ok([])
    ensures GetReservationType(p) == Err(InsufficientData)
  {
    var d := p.req.datain.value;
    assert d[0..4] == ToBigEndian(generation, 4);
    BigEndian32RoundTrip(generation);
    assert d[4..8] == ToBigEndian(0, 4);
    BigEndian32RoundTrip(0);
  }

  /** The header and key of a held reservation are recovered. */
  lemma HeldReservationKey(p: PrIn, generation: u32, key: seq<byte>, scope: nat, typeCode: nat)
    requires |key| == KeyLength && scope < 16 && typeCode < 16
    requires p.req.datain == Some(ReadReservationData(generation, true, key, scope, typeCode))
    ensures Generation(p) == Ok(generation)
    ensures Reservation(p) == Ok(key)
    ensures p.req.InBufferTransferSize() == 24 && AdditionalLength(p.req.datain.value) == 16
    ensures p.req.datain.value[21] % 16 == typeCode
  {
    var d := p.req.datain.value;
    assert d[0..4] == ToBigEndian(generation, 4);
    BigEndian32RoundTrip(generation);
    assert d[4..8] == ToBigEndian(16, 4);
    BigEndian32RoundTrip(16);
    assert d[8..16] == key;
    assert d[21] == scope * 16 + typeCode;
  }

  /** A held reservation's key and type are recovered, whatever its scope. */
  lemma HeldReservationRoundTrip(p: PrIn, generation: u32, key: seq<byte>, scope: nat, t: ReservationType)
    requires |key| == KeyLength && scope < 16
    requires p.req.datain == Some(ReadReservationData(generation, true, key, scope, ReservationTypeCode(t)))
    ensures Generation(p) == Ok(generation)
    ensures Reservation(p) == Ok(key)
    ensures GetReservationTypeCorrected(p) == Ok(t)
    ensures t != WriteExclusiveRegistrantsOnly ==> GetReservationType(p) == Ok(t)
    ensures t == WriteExclusiveRegistrantsOnly ==> GetReservationType(p) == Ok(WriteExclusive)
  {
    HeldReservationKey(p, generation, key, scope, ReservationTypeCode(t));
  }
}
