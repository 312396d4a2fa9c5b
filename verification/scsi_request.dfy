/**
 SCSIRequest: the state every command shares. A request owns a CDB of a
 declared size, a transfer direction, optional outbound and inbound buffers
 with declared sizes, and the one-shot "executed" flag. The transferred data
 and the residual type and count are outputs of the transport; they appear
 here as fields that `WithResponse` fills in.
 */
module ScsiRequest {
  import opened ScsiBase
  import opened FieldCodec

  /** The capacity of the task's CDB array (`sizeof(scsi_task.cdb)` in libiscsi). */
  const CdbCapacity: nat := 16

  /** The CDB size chosen by the default constructor. */
  const DefaultCdbSize: nat := 6

  /** The libiscsi transfer directions SCSI_XFER_NONE, _READ and _WRITE. */
  datatype XferDir = XferNone | XferRead | XferWrite

  /** The libiscsi residual kinds SCSI_RESIDUAL_NO_RESIDUAL, _UNDERFLOW and _OVERFLOW. */
  datatype ResidualType = NoResidual | Underflow | Overflow

  datatype Request = Request(
    cdb: seq<byte>,                 // exactly cdb_size bytes
    xferDir: XferDir,
    outBuffer: Option<seq<byte>>,   // None for a NULL buffer
    outBufferSize: nat,             // declared size, mOutBufferSize
    inBuffer: Option<seq<byte>>,
    inBufferSize: nat,              // declared size, mInBufferSize
    datain: Option<seq<byte>>,      // task->datain as delivered by the transport
    residualType: ResidualType,
    residual: u32,
    executed: bool)
  {
    /** The CDB fits the task and every present buffer covers its declared size. */
    predicate Valid()
    {
      && |cdb| <= CdbCapacity
      && (outBuffer.Some? ==> outBufferSize <= |outBuffer.value|)
      && (inBuffer.Some? ==> inBufferSize <= |inBuffer.value|)
    }

    /** GetInBufferSize: the declared size of the inbound buffer. */
    function InBufferSize(): nat { inBufferSize }

    /** GetOutBufferSize: the declared size of the outbound buffer. */
    function OutBufferSize(): nat { outBufferSize }

    /** GetInBufferTransferSize: how many bytes the transport actually delivered. */
    function InBufferTransferSize(): nat { TransferSize(datain) }

    /** IsExecuted. */
    predicate IsExecuted() { executed }
  }

  /** A request as a constructor leaves it: zeroed CDB of `cdbSize` bytes, no direction, no response. */
  ghost predicate Pristine(r: Request, cdbSize: nat)
  {
    && r.cdb == Zeros(cdbSize)
    && r.xferDir == XferNone
    && r.datain == None
    && r.residualType == NoResidual
    && r.residual == 0
    && !r.executed
  }

  /** `a` and `b` differ at most in their CDB. */
  ghost predicate OnlyCdbChanged(a: Request, b: Request)
  {
    b == a.(cdb := b.cdb) && |b.cdb| == |a.cdb|
  }

  /** `a` and `b` differ at most in the contents of the outbound buffer. */
  ghost predicate OnlyOutBufferChanged(a: Request, b: Request)
  {
    && b == a.(outBuffer := b.outBuffer)
    && a.outBuffer.Some? && b.outBuffer.Some?
    && |b.outBuffer.value| == |a.outBuffer.value|
  }

  // ---------------------------------------------------------------------------
  // Constructors

  /** SCSIRequest(): a six-byte CDB and no buffers. */
  function NewRequest(): (r: Request)
    ensures Pristine(r, DefaultCdbSize) && r.Valid()
    ensures r.outBuffer == None && r.outBufferSize == 0
    ensures r.inBuffer == None && r.inBufferSize == 0
  {
    Request(Zeros(DefaultCdbSize), XferNone, None, 0, None, 0, None, NoResidual, 0, false)
  }

  /** SCSIRequest(cdbSize): rejects a CDB larger than the task can hold. */
  function NewRequestOfSize(cdbSize: nat): (r: Result<Request>)
    ensures r.Err? <==> cdbSize > CdbCapacity
    ensures r.Err? ==> r.error == InvalidCdbSize
    ensures r.Ok? ==> Pristine(r.value, cdbSize) && r.value.Valid()
    ensures r.Ok? ==> r.value.outBuffer == None && r.value.outBufferSize == 0
    ensures r.Ok? ==> r.value.inBuffer == None && r.value.inBufferSize == 0
  {
    if cdbSize > CdbCapacity then Err(InvalidCdbSize)
    else Ok(Request(Zeros(cdbSize), XferNone, None, 0, None, 0, None, NoResidual, 0, false))
  }

  /** SCSIRequest(cdbSize, outBuffer, outSize, inBuffer, inSize): adopts caller-supplied buffers. */
  function NewRequestWithBuffers(cdbSize: nat, outBuffer: Option<seq<byte>>, outBufferSize: nat,
                                 inBuffer: Option<seq<byte>>, inBufferSize: nat): (r: Result<Request>)
    requires outBuffer.Some? ==> outBufferSize <= |outBuffer.value|
    requires inBuffer.Some? ==> inBufferSize <= |inBuffer.value|
    ensures r.Err? <==> cdbSize > CdbCapacity
    ensures r.Err? ==> r.error == InvalidCdbSize
    ensures r.Ok? ==> Pristine(r.value, cdbSize) && r.value.Valid()
    ensures r.Ok? ==> r.value.outBuffer == outBuffer && r.value.outBufferSize == outBufferSize
    ensures r.Ok? ==> r.value.inBuffer == inBuffer && r.value.inBufferSize == inBufferSize
  {
    if cdbSize > CdbCapacity then Err(InvalidCdbSize)
    else Ok(Request(Zeros(cdbSize), XferNone, outBuffer, outBufferSize, inBuffer, inBufferSize,
                    None, NoResidual, 0, false))
  }

  /** The default constructor is the sized one at the default size. */
  lemma DefaultIsSixByteCdb()
    ensures NewRequestOfSize(DefaultCdbSize) == Ok(NewRequest())
  {
  }

  // ---------------------------------------------------------------------------
  // Buffers, direction, executed flag

  /** createOutBuffer: a zero-filled outbound buffer of exactly `length` bytes. */
  function CreateOutBuffer(req: Request, length: nat): (r: Request)
    requires req.Valid()
    ensures r.Valid()
    ensures r.outBuffer == Some(Zeros(length)) && r.outBufferSize == length
    ensures r == req.(outBuffer := r.outBuffer, outBufferSize := r.outBufferSize)
  {
    req.(outBuffer := Some(Zeros(length)), outBufferSize := length)
  }

  /** createInBuffer: a zero-filled inbound buffer of exactly `length` bytes. */
  function CreateInBuffer(req: Request, length: nat): (r: Request)
    requires req.Valid()
    ensures r.Valid()
    ensures r.inBuffer == Some(Zeros(length)) && r.inBufferSize == length
    ensures r == req.(inBuffer := r.inBuffer, inBufferSize := r.inBufferSize)
  {
    req.(inBuffer := Some(Zeros(length)), inBufferSize := length)
  }

  /** setInBuffer: adopt a caller-supplied inbound buffer with a declared size. */
  function SetInBuffer(req: Request, buffer: Option<seq<byte>>, bufferSize: nat): (r: Request)
    requires req.Valid()
    requires buffer.Some? ==> bufferSize <= |buffer.value|
    ensures r.Valid()
    ensures r.inBuffer == buffer && r.inBufferSize == bufferSize
    ensures r == req.(inBuffer := r.inBuffer, inBufferSize := r.inBufferSize)
  {
    req.(inBuffer := buffer, inBufferSize := bufferSize)
  }

  /** setOutBuffer: adopt a caller-supplied outbound buffer with a declared size. */
  function SetOutBuffer(req: Request, buffer: Option<seq<byte>>, bufferSize: nat): (r: Request)
    requires req.Valid()
    requires buffer.Some? ==> bufferSize <= |buffer.value|
    ensures r.Valid()
    ensures r.outBuffer == buffer && r.outBufferSize == bufferSize
    ensures r == req.(outBuffer := r.outBuffer, outBufferSize := r.outBufferSize)
  {
    req.(outBuffer := buffer, outBufferSize := bufferSize)
  }

  /** The first `n` bytes of `b` zeroed, the rest kept (`memset(b, 0, n)`). */
  function ZeroPrefix(b: seq<byte>, n: nat): (z: seq<byte>)
    requires n <= |b|
    ensures |z| == |b|
    ensures forall i :: 0 <= i < n ==> z[i] == 0
    ensures forall i :: n <= i < |b| ==> z[i] == b[i]
  {
    Zeros(n) + b[n..]
  }

  /** ResetOutBuffer: zero the declared extent of a present outbound buffer; no-op when absent. */
  function ResetOutBuffer(req: Request): (r: Request)
    requires req.Valid()
    ensures r.Valid()
    ensures req.outBuffer.None? ==> r == req
    ensures req.outBuffer.Some? ==> OnlyOutBufferChanged(req, r)
    ensures req.outBuffer.Some? ==> forall i :: 0 <= i < req.outBufferSize ==> r.outBuffer.value[i] == 0
    ensures req.outBuffer.Some? ==>
      forall i :: req.outBufferSize <= i < |req.outBuffer.value| ==> r.outBuffer.value[i] == req.outBuffer.value[i]
  {
    if req.outBuffer.None? then req
    else req.(outBuffer := Some(ZeroPrefix(req.outBuffer.value, req.outBufferSize)))
  }

  /** ResetInBuffer: zero the declared extent of a present inbound buffer; no-op when absent. */
  function ResetInBuffer(req: Request): (r: Request)
    requires req.Valid()
    ensures r.Valid()
    ensures req.inBuffer.None? ==> r == req
    ensures req.inBuffer.Some? ==> r == req.(inBuffer := r.inBuffer)
    ensures req.inBuffer.Some? ==> r.inBuffer.Some? && |r.inBuffer.value| == |req.inBuffer.value|
    ensures req.inBuffer.Some? ==> forall i :: 0 <= i < req.inBufferSize ==> r.inBuffer.value[i] == 0
    ensures req.inBuffer.Some? ==>
      forall i :: req.inBufferSize <= i < |req.inBuffer.value| ==> r.inBuffer.value[i] == req.inBuffer.value[i]
  {
    if req.inBuffer.None? then req
    else req.(inBuffer := Some(ZeroPrefix(req.inBuffer.value, req.inBufferSize)))
  }

  /** SetXferDir: changes the transfer direction and nothing else. */
  function SetXferDir(req: Request, dir: XferDir): (r: Request)
    ensures r.xferDir == dir
    ensures r.cdb == req.cdb && r.outBuffer == req.outBuffer && r.outBufferSize == req.outBufferSize
    ensures r.inBuffer == req.inBuffer && r.inBufferSize == req.inBufferSize
    ensures r.datain == req.datain && r.residualType == req.residualType && r.residual == req.residual
    ensures r.executed == req.executed
  {
    req.(xferDir := dir)
  }

  /** SetExecuted. */
  function SetExecuted(req: Request): (r: Request)
    ensures r.IsExecuted()
    ensures r == req.(executed := true)
  {
    req.(executed := true)
  }

  /**
   Reset: clears the executed flag and releases the transport's response
   (scsi_clean_scsi_task); the CDB, direction and buffers stay.
   */
  function Reset(req: Request): (r: Request)
    ensures !r.IsExecuted()
    ensures r.InBufferTransferSize() == 0
    ensures r.cdb == req.cdb && r.xferDir == req.xferDir
    ensures r.outBuffer == req.outBuffer && r.outBufferSize == req.outBufferSize
    ensures r.inBuffer == req.inBuffer && r.inBufferSize == req.inBufferSize
  {
    req.(executed := false, datain := None, residualType := NoResidual, residual := 0)
  }

  /**
   The transport's outputs landing in the task: the transferred bytes and the
   residual type and count. Nothing the request owns changes.
   */
  function WithResponse(req: Request, data: seq<byte>, residualType: ResidualType, residual: u32): (r: Request)
    ensures r.InBufferTransferSize() == |data|
    ensures r.InBufferSize() == req.InBufferSize() && r.OutBufferSize() == req.OutBufferSize()
    ensures r == req.(datain := Some(data), residualType := residualType, residual := residual)
  {
    req.(datain := Some(data), residualType := residualType, residual := residual)
  }

  /**
   The expected transfer length the transport announces when it submits a
   request (task->expxferlen): nothing for NONE, the declared size of the
   buffer the direction selects otherwise. On a valid request it never
   exceeds the buffer the data lands in or comes from.
   */
  function ExpectedTransferLength(r: Request): (n: nat)
    ensures r.xferDir == XferNone ==> n == 0
    ensures r.xferDir == XferRead ==> n == r.inBufferSize
    ensures r.xferDir == XferWrite ==> n == r.outBufferSize
    ensures r.Valid() && r.xferDir == XferRead && r.inBuffer.Some? ==> n <= |r.inBuffer.value|
    ensures r.Valid() && r.xferDir == XferWrite && r.outBuffer.Some? ==> n <= |r.outBuffer.value|
  {
    match r.xferDir
    case XferNone => 0
    case XferRead => r.inBufferSize
    case XferWrite => r.outBufferSize
  }

  /** The declared inbound size and the transferred size are independent quantities. */
  lemma TransferSizeIsNotDeclaredSize(req: Request, data: seq<byte>)
    requires req.inBuffer.Some? && req.inBufferSize != |data|
    ensures WithResponse(req, data, Underflow, 0).InBufferTransferSize()
         != WithResponse(req, data, Underflow, 0).InBufferSize()
  {
  }

  // ---------------------------------------------------------------------------
  // CDB writers (setCdb*), checked against cdb_size

  function SetCdbBitArray(req: Request, byteOffset: nat, startBit: nat, bitLength: nat, val: byte)
    : (r: Result<Request>)
    ensures r.Ok? <==> byteOffset < |req.cdb| && startBit + bitLength <= 8 && val < Pow2(bitLength)
    ensures byteOffset >= |req.cdb| ==> r == Err(OverFlow)
    ensures byteOffset < |req.cdb| && startBit + bitLength > 8 ==> r == Err(ByteBoundary)
    ensures byteOffset < |req.cdb| && startBit + bitLength <= 8 && val >= Pow2(bitLength) ==> r == Err(InvalidValue)
    ensures r.Ok? ==> OnlyCdbChanged(req, r.value)
    ensures r.Ok? ==> r.value.cdb == req.cdb[byteOffset := MergeBits(req.cdb[byteOffset], startBit as bv8,
                                                                      bitLength as bv8, val)]
  {
    var cdb :- SetBufferBitArray(Some(req.cdb), |req.cdb|, byteOffset, startBit, bitLength, val);
    Ok(req.(cdb := cdb))
  }

  function SetCdbByte(req: Request, byteOffset: nat, val: byte): (r: Result<Request>)
    ensures r.Ok? <==> byteOffset < |req.cdb|
    ensures r.Err? ==> r.error == OverFlow
    ensures r.Ok? ==> OnlyCdbChanged(req, r.value)
    ensures r.Ok? ==> r.value.cdb == req.cdb[byteOffset := val]
  {
    var cdb :- SetBufferByte(Some(req.cdb), |req.cdb|, byteOffset, val);
    assert cdb == req.cdb[byteOffset := val];
    Ok(req.(cdb := cdb))
  }

  function SetCdbShort(req: Request, byteOffset: nat, val: u16): (r: Result<Request>)
    ensures r.Ok? <==> byteOffset + 2 <= |req.cdb|
    ensures r.Err? ==> r.error == OverFlow
    ensures r.Ok? ==> OnlyCdbChanged(req, r.value)
    ensures r.Ok? ==> r.value.cdb == req.cdb[byteOffset := val / 0x100][byteOffset + 1 := val % 0x100]
  {
    var cdb :- SetBufferShort(Some(req.cdb), |req.cdb|, byteOffset, val);
    assert cdb == req.cdb[byteOffset := val / 0x100][byteOffset + 1 := val % 0x100];
    Ok(req.(cdb := cdb))
  }

  function SetCdbLong(req: Request, byteOffset: nat, val: u32): (r: Result<Request>)
    ensures r.Ok? <==> byteOffset + 4 <= |req.cdb|
    ensures r.Err? ==> r.error == OverFlow
    ensures r.Ok? ==> OnlyCdbChanged(req, r.value)
    ensures r.Ok? ==> UnchangedOutside(req.cdb, r.value.cdb, byteOffset, byteOffset + 4)
    ensures r.Ok? ==> r.value.cdb[byteOffset..byteOffset + 4] ==
                      [val / 0x100_0000, (val / 0x1_0000) % 0x100, (val / 0x100) % 0x100, val % 0x100]
  {
    var cdb :- SetBufferLong(Some(req.cdb), |req.cdb|, byteOffset, val);
    Ok(req.(cdb := cdb))
  }

  /** setCdbLongLong: eight bytes in network order (by analogy with setCdbLong). */
  function SetCdbLongLong(req: Request, byteOffset: nat, val: u64): (r: Result<Request>)
    ensures r.Ok? <==> byteOffset + 8 <= |req.cdb|
    ensures r.Err? ==> r.error == OverFlow
    ensures r.Ok? ==> OnlyCdbChanged(req, r.value)
    ensures r.Ok? ==> UnchangedOutside(req.cdb, r.value.cdb, byteOffset, byteOffset + 8)
    ensures r.Ok? ==> FromBigEndian(r.value.cdb[byteOffset..byteOffset + 8]) == val
  {
    var cdb :- SetBufferLongLong(Some(req.cdb), |req.cdb|, byteOffset, val);
    Ok(req.(cdb := cdb))
  }

  // ---------------------------------------------------------------------------
  // Outbound-buffer writers (SetOutBuffer*), checked against mOutBufferSize

  function SetOutBufferBitArray(req: Request, byteOffset: nat, startBit: nat, bitLength: nat, val: byte)
    : (r: Result<Request>)
    requires req.Valid()
    ensures req.outBuffer.None? ==> r == Err(Uninitialized)
    ensures r.Ok? <==> req.outBuffer.Some? && byteOffset < req.outBufferSize
                       && startBit + bitLength <= 8 && val < Pow2(bitLength)
    ensures req.outBuffer.Some? && byteOffset >= req.outBufferSize ==> r == Err(OverFlow)
    ensures r.Ok? ==> OnlyOutBufferChanged(req, r.value) && r.value.Valid()
    ensures r.Ok? ==> UnchangedOutside(req.outBuffer.value, r.value.outBuffer.value, byteOffset, byteOffset + 1)
    ensures r.Ok? ==> BitsReplaced(req.outBuffer.value[byteOffset] as bv8, r.value.outBuffer.value[byteOffset] as bv8,
                                   startBit as bv8, bitLength as bv8, val as bv8)
  {
    var b :- SetBufferBitArray(req.outBuffer, req.outBufferSize, byteOffset, startBit, bitLength, val);
    Ok(req.(outBuffer := Some(b)))
  }

  function SetOutBufferBool(req: Request, byteOffset: nat, bitOffset: nat, val: bool): (r: Result<Request>)
    requires req.Valid()
    ensures req.outBuffer.None? ==> r == Err(Uninitialized)
    ensures r.Ok? <==> req.outBuffer.Some? && byteOffset < req.outBufferSize && bitOffset < 8
    ensures req.outBuffer.Some? && byteOffset >= req.outBufferSize ==> r == Err(OverFlow)
    ensures req.outBuffer.Some? && byteOffset < req.outBufferSize && bitOffset >= 8 ==> r == Err(ByteBoundary)
    ensures r.Ok? ==> OnlyOutBufferChanged(req, r.value) && r.value.Valid()
    ensures r.Ok? ==> UnchangedOutside(req.outBuffer.value, r.value.outBuffer.value, byteOffset, byteOffset + 1)
    ensures r.Ok? ==> Bit(r.value.outBuffer.value[byteOffset] as bv8, bitOffset as bv8) == val
    ensures r.Ok? ==> BitsKept(req.outBuffer.value[byteOffset] as bv8, r.value.outBuffer.value[byteOffset] as bv8,
                               bitOffset as bv8)
  {
    var b :- SetBufferBool(req.outBuffer, req.outBufferSize, byteOffset, bitOffset, val);
    Ok(req.(outBuffer := Some(b)))
  }

  function SetOutBufferByte(req: Request, byteOffset: nat, val: byte): (r: Result<Request>)
    requires req.Valid()
    ensures req.outBuffer.None? ==> r == Err(Uninitialized)
    ensures r.Ok? <==> req.outBuffer.Some? && byteOffset < req.outBufferSize
    ensures req.outBuffer.Some? && byteOffset >= req.outBufferSize ==> r == Err(OverFlow)
    ensures r.Ok? ==> OnlyOutBufferChanged(req, r.value) && r.value.Valid()
    ensures r.Ok? ==> r.value.outBuffer.value == req.outBuffer.value[byteOffset := val]
  {
    var b :- SetBufferByte(req.outBuffer, req.outBufferSize, byteOffset, val);
    assert b == req.outBuffer.value[byteOffset := val];
    Ok(req.(outBuffer := Some(b)))
  }

  function SetOutBufferShort(req: Request, byteOffset: nat, val: u16): (r: Result<Request>)
    requires req.Valid()
    ensures req.outBuffer.None? ==> r == Err(Uninitialized)
    ensures r.Ok? <==> req.outBuffer.Some? && byteOffset + 2 <= req.outBufferSize
    ensures req.outBuffer.Some? && byteOffset + 2 > req.outBufferSize ==> r == Err(OverFlow)
    ensures r.Ok? ==> OnlyOutBufferChanged(req, r.value) && r.value.Valid()
    ensures r.Ok? ==> r.value.outBuffer.value == req.outBuffer.value[byteOffset := val / 0x100][byteOffset + 1 := val % 0x100]
  {
    var b :- SetBufferShort(req.outBuffer, req.outBufferSize, byteOffset, val);
    assert b == req.outBuffer.value[byteOffset := val / 0x100][byteOffset + 1 := val % 0x100];
    Ok(req.(outBuffer := Some(b)))
  }

  function SetOutBufferLong(req: Request, byteOffset: nat, val: u32): (r: Result<Request>)
    requires req.Valid()
    ensures req.outBuffer.None? ==> r == Err(Uninitialized)
    ensures r.Ok? <==> req.outBuffer.Some? && byteOffset + 4 <= req.outBufferSize
    ensures req.outBuffer.Some? && byteOffset + 4 > req.outBufferSize ==> r == Err(OverFlow)
    ensures r.Ok? ==> OnlyOutBufferChanged(req, r.value) && r.value.Valid()
    ensures r.Ok? ==> UnchangedOutside(req.outBuffer.value, r.value.outBuffer.value, byteOffset, byteOffset + 4)
    ensures r.Ok? ==> r.value.outBuffer.value[byteOffset..byteOffset + 4] ==
                      [val / 0x100_0000, (val / 0x1_0000) % 0x100, (val / 0x100) % 0x100, val % 0x100]
  {
    var b :- SetBufferLong(req.outBuffer, req.outBufferSize, byteOffset, val);
    Ok(req.(outBuffer := Some(b)))
  }

  function SetOutBufferString(req: Request, byteOffset: nat, val: seq<byte>): (r: Result<Request>)
    requires req.Valid()
    ensures req.outBuffer.None? ==> r == Err(Uninitialized)
    ensures r.Ok? <==> req.outBuffer.Some? && byteOffset + |val| <= req.outBufferSize
    ensures req.outBuffer.Some? && byteOffset + |val| > req.outBufferSize ==> r == Err(OverFlow)
    ensures r.Ok? ==> OnlyOutBufferChanged(req, r.value) && r.value.Valid()
    ensures r.Ok? ==> UnchangedOutside(req.outBuffer.value, r.value.outBuffer.value, byteOffset, byteOffset + |val|)
    ensures r.Ok? ==> r.value.outBuffer.value[byteOffset..byteOffset + |val|] == val
  {
    var b :- SetBufferString(req.outBuffer, req.outBufferSize, byteOffset, val);
    Ok(req.(outBuffer := Some(b)))
  }

  // ---------------------------------------------------------------------------
  // The executed flag across a sequence of request operations

  /** The request-level operations a caller can apply to a request. */
  datatype RequestOp =
    | CdbWrite(byteOffset: nat, val: byte)
    | CdbShort(byteOffset: nat, short: u16)
    | CdbLong(byteOffset: nat, long: u32)
    | CdbLongLong(byteOffset: nat, longLong: u64)
    | CdbBits(byteOffset: nat, startBit: nat, bitLength: nat, val: byte)
    | OutWrite(byteOffset: nat, val: byte)
    | OutShort(byteOffset: nat, short: u16)
    | OutLong(byteOffset: nat, long: u32)
    | OutString(byteOffset: nat, bytes: seq<byte>)
    | OutBits(byteOffset: nat, startBit: nat, bitLength: nat, val: byte)
    | OutBool(byteOffset: nat, bitOffset: nat, flag: bool)
    | InBufferSet(buffer: Option<seq<byte>>, size: nat)
    | OutBufferSet(buffer: Option<seq<byte>>, size: nat)
    | CreateOut(length: nat)
    | CreateIn(length: nat)
    | ResetOut
    | ResetIn
    | Direction(dir: XferDir)
    | Response(data: seq<byte>, residualType: ResidualType, residual: u32)
    | MarkExecuted
    | ResetRequest
  {
    /** A caller-supplied buffer holds at least the size declared with it. */
    predicate Admissible()
    {
      && (InBufferSet? && buffer.Some? ==> size <= |buffer.value|)
      && (OutBufferSet? && buffer.Some? ==> size <= |buffer.value|)
    }
  }

  /** The request a write produces, or the request as it was when the write fails. */
  function OrKeep(req: Request, w: Result<Request>): Request
  {
    if w.Ok? then w.value else req
  }

  /** One operation; a failing write leaves the request as it was. */
  function Apply(req: Request, op: RequestOp): (r: Request)
    requires req.Valid()
    requires op.Admissible()
    ensures r.Valid()
    ensures op.MarkExecuted? ==> r.executed
    ensures op.ResetRequest? ==> !r.executed
    ensures !op.MarkExecuted? && !op.ResetRequest? ==> r.executed == req.executed
  {
    match op
    case CdbWrite(off, v) => OrKeep(req, SetCdbByte(req, off, v))
    case CdbShort(off, v) => OrKeep(req, SetCdbShort(req, off, v))
    case CdbLong(off, v) => OrKeep(req, SetCdbLong(req, off, v))
    case CdbLongLong(off, v) => OrKeep(req, SetCdbLongLong(req, off, v))
    case CdbBits(off, start, len, v) => OrKeep(req, SetCdbBitArray(req, off, start, len, v))
    case OutWrite(off, v) => OrKeep(req, SetOutBufferByte(req, off, v))
    case OutShort(off, v) => OrKeep(req, SetOutBufferShort(req, off, v))
    case OutLong(off, v) => OrKeep(req, SetOutBufferLong(req, off, v))
    case OutString(off, v) => OrKeep(req, SetOutBufferString(req, off, v))
    case OutBits(off, start, len, v) => OrKeep(req, SetOutBufferBitArray(req, off, start, len, v))
    case OutBool(off, bit, v) => OrKeep(req, SetOutBufferBool(req, off, bit, v))
    case InBufferSet(b, n) => SetInBuffer(req, b, n)
    case OutBufferSet(b, n) => SetOutBuffer(req, b, n)
    case CreateOut(n) => CreateOutBuffer(req, n)
    case CreateIn(n) => CreateInBuffer(req, n)
    case ResetOut => ResetOutBuffer(req)
    case ResetIn => ResetInBuffer(req)
    case Direction(d) => SetXferDir(req, d)
    case Response(data, rt, res) => WithResponse(req, data, rt, res)
    case MarkExecuted => SetExecuted(req)
    case ResetRequest => Reset(req)
  }

  function Run(req: Request, ops: seq<RequestOp>): (r: Request)
    requires req.Valid()
    requires forall i :: 0 <= i < |ops| ==> ops[i].Admissible()
    ensures r.Valid()
    decreases |ops|
  {
    if |ops| == 0 then req else Run(Apply(req, ops[0]), ops[1..])
  }

  /**
   The flag a run leaves behind, read off the operations alone: the effect of
   its last SetExecuted or Reset, or None when it has neither.
   */
  function LastFlagSetting(ops: seq<RequestOp>): Option<bool>
    decreases |ops|
  {
    if |ops| == 0 then None
    else
      var later := LastFlagSetting(ops[1..]);
      if later.Some? then later
      else if ops[0].MarkExecuted? then Some(true)
      else if ops[0].ResetRequest? then Some(false)
      else None
  }

  /** Only SetExecuted raises the executed flag and only Reset lowers it. */
  lemma {:induction false} ExecutedFlagAfterRun(req: Request, ops: seq<RequestOp>)
    requires req.Valid()
    requires forall i :: 0 <= i < |ops| ==> ops[i].Admissible()
    ensures LastFlagSetting(ops).None? ==> Run(req, ops).executed == req.executed
    ensures LastFlagSetting(ops).Some? ==> Run(req, ops).executed == LastFlagSetting(ops).value
    decreases |ops|
  {
    if |ops| > 0 {
      ExecutedFlagAfterRun(Apply(req, ops[0]), ops[1..]);
    }
  }
}
