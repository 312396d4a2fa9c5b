/**
 The bounds-checked field codec of SCSIRequest: writers over a CDB or an
 outbound buffer, checked against the buffer's DECLARED length, and readers
 over the transferred inbound data, checked against the TRANSFERRED length.
 Every check happens before any byte is touched; a failing call yields an
 `Err` and no new buffer.
 */
module FieldCodec {
  import opened ScsiBase

  /** 2^n for a bit count. */
  function Pow2(n: nat): (p: nat)
    ensures p >= 1
  {
    if n == 0 then 1 else 2 * Pow2(n - 1)
  }

  // Bit positions and widths are at most 8, so the bit-level definitions work
  // on 8-bit vectors; `b as bv8` reinterprets a byte value as its bits.

  /** Bit `i` of `b`, bit 0 being the least significant. */
  predicate Bit(b: bv8, i: bv8)
    requires i < 8
  {
    (b >> i) & 1 == 1
  }

  /** `~(0xFF << len)` truncated to a byte: the `len` low-order bits set. */
  function LowMask(len: bv8): bv8
    requires len <= 8
  {
    !((0xFF as bv8) << len)
  }

  /** The masked merge of setBufferBitArray: clear bits [start, start+len) of `before`, or in `val << start`. */
  function MergeBitsV(before: bv8, start: bv8, len: bv8, val: bv8): bv8
    requires start <= 8 && len <= 8 - start
  {
    (before & !(LowMask(len) << start)) | (val << start)
  }

  /** The extraction of GetInBufferBitArray: `(b >> start) & ~(0xFF << len)`. */
  function ExtractBitsV(b: bv8, start: bv8, len: bv8): bv8
    requires start <= 8 && len <= 8 - start
  {
    (b >> start) & LowMask(len)
  }

  function MergeBits(before: byte, start: bv8, len: bv8, val: byte): byte
    requires start <= 8 && len <= 8 - start
  {
    MergeBitsV(before as bv8, start, len, val as bv8) as int
  }

  function ExtractBits(b: byte, start: bv8, len: bv8): byte
    requires start <= 8 && len <= 8 - start
  {
    ExtractBitsV(b as bv8, start, len) as int
  }

  lemma BitsOfValue(v: bv8)
    ensures (v as int) as bv8 == v
  {
  }

  /** `val >> len` is zero exactly when `val` fits in `len` bits. */
  lemma FitsIffBelowPow2(val: byte, len: nat)
    requires len <= 8
    ensures ((val as bv8) >> (len as bv8) == 0) <==> val < Pow2(len)
  {
    if len == 0 {
    } else if len == 1 {
    } else if len == 2 {
    } else if len == 3 {
    } else if len == 4 {
    } else if len == 5 {
    } else if len == 6 {
    } else if len == 7 {
    } else {
    }
  }

  /** `after` agrees with `val` on bits [start, start+len) and with `before` on every other bit. */
  ghost predicate BitsReplaced(before: bv8, after: bv8, start: bv8, len: bv8, val: bv8)
    requires start <= 8 && len <= 8 - start
  {
    forall i: bv8 :: i < 8 ==>
      Bit(after, i) == (if start <= i < start + len then Bit(val, i - start) else Bit(before, i))
  }

  /** The low `len` bits of `v` are bits [start, start+len) of `b`, and `v` has no other bits. */
  ghost predicate BitsRead(b: bv8, start: bv8, len: bv8, v: bv8)
    requires start <= 8 && len <= 8 - start
  {
    forall i: bv8 :: i < 8 ==>
      Bit(v, i) == (if i < len then Bit(b, start + i) else false)
  }

  lemma MergeBitsVMeaning(before: bv8, start: bv8, len: bv8, val: bv8)
    requires start <= 8 && len <= 8 - start && val >> len == 0
    ensures BitsReplaced(before, MergeBitsV(before, start, len, val), start, len, val)
  {
  }

  lemma ExtractBitsVMeaning(b: bv8, start: bv8, len: bv8)
    requires start <= 8 && len <= 8 - start
    ensures BitsRead(b, start, len, ExtractBitsV(b, start, len))
    ensures ExtractBitsV(b, start, len) >> len == 0
  {
  }

  lemma MergeBitsMeaning(before: byte, start: bv8, len: bv8, val: byte)
    requires start <= 8 && len <= 8 - start && (val as bv8) >> len == 0
    ensures BitsReplaced(before as bv8, MergeBits(before, start, len, val) as bv8, start, len, val as bv8)
  {
    MergeBitsVMeaning(before as bv8, start, len, val as bv8);
    BitsOfValue(MergeBitsV(before as bv8, start, len, val as bv8));
  }

  lemma ExtractBitsMeaning(b: byte, start: bv8, len: bv8)
    requires start <= 8 && len <= 8 - start
    ensures BitsRead(b as bv8, start, len, ExtractBits(b, start, len) as bv8)
    ensures (ExtractBits(b, start, len) as bv8) >> len == 0
  {
    ExtractBitsVMeaning(b as bv8, start, len);
    BitsOfValue(ExtractBitsV(b as bv8, start, len));
  }

  /** A byte's bits read back as the byte; split into sixteen ranges, which keeps the conversion cheap. */
  lemma ValueOfBits(b: byte)
    ensures (b as bv8) as int == b
  {
    if b < 128 {
      if b < 64 {
        if b < 32 {
          if b < 16 {} else {}
        } else {
          if b < 48 {} else {}
        }
      } else {
        if b < 96 {
          if b < 80 {} else {}
        } else {
          if b < 112 {} else {}
        }
      }
    } else {
      if b < 192 {
        if b < 160 {
          if b < 144 {} else {}
        } else {
          if b < 176 {} else {}
        }
      } else {
        if b < 224 {
          if b < 208 {} else {}
        } else {
          if b < 240 {} else {}
        }
      }
    }
  }

  lemma ExtractMergeV(before: bv8, start: bv8, len: bv8, val: bv8)
    requires start <= 8 && len <= 8 - start && val >> len == 0
    ensures ExtractBitsV(MergeBitsV(before, start, len, val), start, len) == val
  {
  }

  lemma MergeExtractV(b: bv8, start: bv8, len: bv8)
    requires start <= 8 && len <= 8 - start
    ensures MergeBitsV(b, start, len, ExtractBitsV(b, start, len)) == b
  {
  }

  /** Extracting a field just merged in yields the merged value. */
  lemma ExtractMerge(before: byte, start: bv8, len: bv8, val: byte)
    requires start <= 8 && len <= 8 - start && (val as bv8) >> len == 0
    ensures ExtractBits(MergeBits(before, start, len, val), start, len) == val
  {
    var m := MergeBitsV(before as bv8, start, len, val as bv8);
    BitsOfValue(m);
    assert (MergeBits(before, start, len, val) as bv8) == m;
    ExtractMergeV(before as bv8, start, len, val as bv8);
    assert ExtractBitsV(m, start, len) == val as bv8;
    ValueOfBits(val);
  }

  /** Merging back a field just extracted leaves the byte as it was. */
  lemma MergeExtract(b: byte, start: bv8, len: bv8)
    requires start <= 8 && len <= 8 - start
    ensures MergeBits(b, start, len, ExtractBits(b, start, len)) == b
  {
    var e := ExtractBitsV(b as bv8, start, len);
    BitsOfValue(e);
    assert ExtractBits(b, start, len) as bv8 == e;
    MergeExtractV(b as bv8, start, len);
    assert MergeBitsV(b as bv8, start, len, e) == b as bv8;
    ValueOfBits(b);
  }

  /** What GetInBufferBitArray promises of the value it extracts. */
  lemma ExtractBitsFacts(b: byte, startBit: nat, bitLength: nat)
    requires startBit + bitLength <= 8
    ensures ExtractBits(b, startBit as bv8, bitLength as bv8) < Pow2(bitLength)
    ensures BitsRead(b as bv8, startBit as bv8, bitLength as bv8, ExtractBits(b, startBit as bv8, bitLength as bv8) as bv8)
  {
    ExtractBitsMeaning(b, startBit as bv8, bitLength as bv8);
    FitsIffBelowPow2(ExtractBits(b, startBit as bv8, bitLength as bv8), bitLength);
  }

  // The fields the commands decode, restated as byte arithmetic.

  // Each is proved on the bit vector first and then read back as a byte:
  // keeping the byte out of the bit-vector step keeps the solver's work small.

  lemma TopThreeBitsV(x: bv8)
    ensures ExtractBitsV(x, 5, 3) as int == (x as int) / 32
  {
    assert ExtractBitsV(x, 5, 3) == x >> 5;
  }

  /** Bits 5..7: the top three bits. */
  lemma TopThreeBits(b: byte)
    ensures ExtractBits(b, 5, 3) == b / 32
  {
    TopThreeBitsV(b as bv8);
    ValueOfBits(b);
  }

  lemma AndLowBits(x: bv8)
    ensures (x & 31) as int == (x as int) % 32
    ensures (x & 15) as int == (x as int) % 16
  {
  }

  lemma LowFiveBitsV(x: bv8)
    ensures ExtractBitsV(x, 0, 5) as int == (x as int) % 32
  {
    assert ExtractBitsV(x, 0, 5) == x & 31;
    AndLowBits(x);
  }

  /** Bits 0..4: the low five bits. */
  lemma LowFiveBits(b: byte)
    ensures ExtractBits(b, 0, 5) == b % 32
  {
    LowFiveBitsV(b as bv8);
    ValueOfBits(b);
  }

  lemma LowNibbleV(x: bv8)
    ensures ExtractBitsV(x, 0, 4) as int == (x as int) % 16
  {
    assert ExtractBitsV(x, 0, 4) == x & 15;
    AndLowBits(x);
  }

  /** Bits 0..3: the low nibble. */
  lemma LowNibble(b: byte)
    ensures ExtractBits(b, 0, 4) == b % 16
  {
    LowNibbleV(b as bv8);
    ValueOfBits(b);
  }

  lemma HighNibbleV(x: bv8)
    ensures ExtractBitsV(x, 4, 4) as int == (x as int) / 16
  {
    assert ExtractBitsV(x, 4, 4) == x >> 4;
  }

  /** Bits 4..7: the high nibble. */
  lemma HighNibble(b: byte)
    ensures ExtractBits(b, 4, 4) == b / 16
  {
    HighNibbleV(b as bv8);
    ValueOfBits(b);
  }

  /** Merging a value into the low nibble: the low nibble becomes it, the high nibble stays. */
  lemma LowNibbleMerge(b: byte, val: byte)
    requires val < 16
    ensures MergeBits(b, 0, 4, val) % 16 == val
    ensures MergeBits(b, 0, 4, val) / 16 == b / 16
  {
    var m := MergeBitsV(b as bv8, 0, 4, val as bv8);
    assert ExtractBitsV(m, 0, 4) == val as bv8;
    assert ExtractBitsV(m, 4, 4) == ExtractBitsV(b as bv8, 4, 4);
    BitsOfValue(m);
    LowNibble(MergeBits(b, 0, 4, val));
    HighNibble(MergeBits(b, 0, 4, val));
    HighNibble(b);
  }

  lemma BitsFourFiveV(x: bv8)
    ensures ExtractBitsV(x, 4, 2) as int == ((x as int) / 16) % 4
  {
    assert ExtractBitsV(x, 4, 2) == (x >> 4) & 3;
  }

  /** Bits 4..5. */
  lemma BitsFourFive(b: byte)
    ensures ExtractBits(b, 4, 2) == (b / 16) % 4
  {
    BitsFourFiveV(b as bv8);
    ValueOfBits(b);
  }

  /** Bit 7 is set exactly in the upper half of the byte range. */
  lemma TopBit(b: byte)
    ensures Bit(b as bv8, 7) <==> b >= 128
  {
  }

  /** Every bit of `after` other than bit `except` is that of `before`. */
  ghost predicate BitsKept(before: bv8, after: bv8, except: bv8)
  {
    forall i: bv8 :: i < 8 && i != except ==> Bit(after, i) == Bit(before, i)
  }

  /** A one-bit merge sets bit `start` to the flag and keeps every other bit. */
  lemma MergeFlagV(before: bv8, start: bv8, v: bv8)
    requires start < 8 && v <= 1
    ensures Bit(MergeBitsV(before, start, 1, v), start) == (v == 1)
    ensures BitsKept(before, MergeBitsV(before, start, 1, v), start)
  {
    MergeBitsVMeaning(before, start, 1, v);
  }

  lemma MergeFlag(before: byte, start: bv8, flag: bool)
    requires start < 8
    ensures Bit(MergeBits(before, start, 1, if flag then 1 else 0) as bv8, start) == flag
    ensures BitsKept(before as bv8, MergeBits(before, start, 1, if flag then 1 else 0) as bv8, start)
  {
    var v: bv8 := if flag then 1 else 0;
    var m := MergeBitsV(before as bv8, start, 1, v);
    BitsOfValue(m);
    assert ((if flag then 1 else 0) as byte) as bv8 == v;
    MergeFlagV(before as bv8, start, v);
  }

  /** Every byte outside [lo, hi) is the same in `a` and `b`, and the lengths agree. */
  ghost predicate UnchangedOutside(a: seq<byte>, b: seq<byte>, lo: nat, hi: nat)
  {
    |a| == |b| && forall i :: 0 <= i < |a| && !(lo <= i < hi) ==> a[i] == b[i]
  }

  // ---------------------------------------------------------------------------
  // Writers (setBuffer*): checked against the declared length `bufferLength`.
  // `buffer` is None for a NULL pointer; a present buffer is at least
  // `bufferLength` bytes long (the caller's obligation in the source).

  /** The common shape of the byte, short, long and string writers: copy `bytes` to `byteOffset`. */
  function SetBufferSpan(buffer: Option<seq<byte>>, bufferLength: nat, byteOffset: nat, bytes: seq<byte>)
    : (r: Result<seq<byte>>)
    requires buffer.Some? ==> bufferLength <= |buffer.value|
    ensures buffer.None? ==> r == Err(Uninitialized)
    ensures buffer.Some? ==> (r == Err(OverFlow) <==> byteOffset + |bytes| > bufferLength)
    ensures buffer.Some? ==> (r.Ok? <==> byteOffset + |bytes| <= bufferLength)
    ensures r.Ok? ==> UnchangedOutside(buffer.value, r.value, byteOffset, byteOffset + |bytes|)
    ensures r.Ok? ==> r.value[byteOffset..byteOffset + |bytes|] == bytes
  {
    if buffer.None? then Err(Uninitialized)
    else if byteOffset + |bytes| > bufferLength then Err(OverFlow)
    else
      var b := buffer.value;
      Ok(b[..byteOffset] + bytes + b[byteOffset + |bytes|..])
  }

  /** setBufferBitArray: replace bits [startBit, startBit+bitLength) of one byte. */
  function SetBufferBitArray(buffer: Option<seq<byte>>, bufferLength: nat, byteOffset: nat,
                             startBit: nat, bitLength: nat, val: byte): (r: Result<seq<byte>>)
    requires buffer.Some? ==> bufferLength <= |buffer.value|
    ensures buffer.None? ==> r == Err(Uninitialized)
    ensures r == Err(OverFlow) <==> buffer.Some? && byteOffset + 1 > bufferLength
    ensures r == Err(ByteBoundary) <==>
      buffer.Some? && byteOffset + 1 <= bufferLength && startBit + bitLength > 8
    ensures r == Err(InvalidValue) <==>
      buffer.Some? && byteOffset + 1 <= bufferLength && startBit + bitLength <= 8 && val >= Pow2(bitLength)
    ensures r.Ok? <==>
      buffer.Some? && byteOffset + 1 <= bufferLength && startBit + bitLength <= 8 && val < Pow2(bitLength)
    ensures r.Ok? ==> UnchangedOutside(buffer.value, r.value, byteOffset, byteOffset + 1)
    ensures r.Ok? ==> BitsReplaced(buffer.value[byteOffset] as bv8, r.value[byteOffset] as bv8,
                                   startBit as bv8, bitLength as bv8, val as bv8)
  {
    if buffer.None? then Err(Uninitialized)
    else if byteOffset + 1 > bufferLength then Err(OverFlow)
    else if startBit + bitLength > 8 then Err(ByteBoundary)
    else if (val as bv8) >> (bitLength as bv8) != 0 then
      FitsIffBelowPow2(val, bitLength);
      Err(InvalidValue)
    else
      FitsIffBelowPow2(val, bitLength);
      var b := buffer.value;
      var merged := MergeBits(b[byteOffset], startBit as bv8, bitLength as bv8, val);
      MergeBitsMeaning(b[byteOffset], startBit as bv8, bitLength as bv8, val);
      Ok(b[byteOffset := merged])
  }

  /** setBufferBool: a one-bit field holding 1 for true and 0 for false. */
  function SetBufferBool(buffer: Option<seq<byte>>, bufferLength: nat, byteOffset: nat,
                         bitOffset: nat, val: bool): (r: Result<seq<byte>>)
    requires buffer.Some? ==> bufferLength <= |buffer.value|
    ensures buffer.None? ==> r == Err(Uninitialized)
    ensures r == Err(OverFlow) <==> buffer.Some? && byteOffset + 1 > bufferLength
    ensures buffer.Some? && byteOffset + 1 <= bufferLength && bitOffset >= 8 ==> r == Err(ByteBoundary)
    ensures r.Ok? <==> buffer.Some? && byteOffset + 1 <= bufferLength && bitOffset < 8
    ensures r.Ok? ==> UnchangedOutside(buffer.value, r.value, byteOffset, byteOffset + 1)
    ensures r.Ok? ==> Bit(r.value[byteOffset] as bv8, bitOffset as bv8) == val
    ensures r.Ok? ==> BitsKept(buffer.value[byteOffset] as bv8, r.value[byteOffset] as bv8, bitOffset as bv8)
  {
    var r := SetBufferBitArray(buffer, bufferLength, byteOffset, bitOffset, 1, if val then 1 else 0);
    if r.Ok? then
      MergeFlag(buffer.value[byteOffset], bitOffset as bv8, val);
      r
    else
      r
  }

  /** setBufferByte. */
  function SetBufferByte(buffer: Option<seq<byte>>, bufferLength: nat, byteOffset: nat, val: byte)
    : (r: Result<seq<byte>>)
    requires buffer.Some? ==> bufferLength <= |buffer.value|
    ensures buffer.None? ==> r == Err(Uninitialized)
    ensures buffer.Some? ==> (r == Err(OverFlow) <==> byteOffset + 1 > bufferLength)
    ensures buffer.Some? ==> (r.Ok? <==> byteOffset + 1 <= bufferLength)
    ensures r.Ok? ==> UnchangedOutside(buffer.value, r.value, byteOffset, byteOffset + 1)
    ensures r.Ok? ==> r.value[byteOffset] == val
  {
    var r := SetBufferSpan(buffer, bufferLength, byteOffset, [val]);
    assert r.Ok? ==> r.value[byteOffset] == r.value[byteOffset..byteOffset + 1][0];
    r
  }

  /** setBufferShort: two bytes in network order, the high byte at `byteOffset`. */
  function SetBufferShort(buffer: Option<seq<byte>>, bufferLength: nat, byteOffset: nat, val: u16)
    : (r: Result<seq<byte>>)
    requires buffer.Some? ==> bufferLength <= |buffer.value|
    ensures buffer.None? ==> r == Err(Uninitialized)
    ensures buffer.Some? ==> (r == Err(OverFlow) <==> byteOffset + 2 > bufferLength)
    ensures buffer.Some? ==> (r.Ok? <==> byteOffset + 2 <= bufferLength)
    ensures r.Ok? ==> UnchangedOutside(buffer.value, r.value, byteOffset, byteOffset + 2)
    ensures r.Ok? ==> r.value[byteOffset] == val / 0x100 && r.value[byteOffset + 1] == val % 0x100
  {
    BigEndian16(val);
    var r := SetBufferSpan(buffer, bufferLength, byteOffset, ToBigEndian(val, 2));
    assert r.Ok? ==> (r.value[byteOffset] == r.value[byteOffset..byteOffset + 2][0]
                   && r.value[byteOffset + 1] == r.value[byteOffset..byteOffset + 2][1]);
    r
  }

  /** setBufferLong: four bytes in network order, the most significant at `byteOffset`. */
  function SetBufferLong(buffer: Option<seq<byte>>, bufferLength: nat, byteOffset: nat, val: u32)
    : (r: Result<seq<byte>>)
    requires buffer.Some? ==> bufferLength <= |buffer.value|
    ensures buffer.None? ==> r == Err(Uninitialized)
    ensures buffer.Some? ==> (r == Err(OverFlow) <==> byteOffset + 4 > bufferLength)
    ensures buffer.Some? ==> (r.Ok? <==> byteOffset + 4 <= bufferLength)
    ensures r.Ok? ==> UnchangedOutside(buffer.value, r.value, byteOffset, byteOffset + 4)
    ensures r.Ok? ==>
      r.value[byteOffset..byteOffset + 4] == [val / 0x100_0000, (val / 0x1_0000) % 0x100, (val / 0x100) % 0x100, val % 0x100]
  {
    BigEndian32(val);
    SetBufferSpan(buffer, bufferLength, byteOffset, ToBigEndian(val, 4))
  }

  /** The eight-byte writer used for the READ CAPACITY(16) LBA, by analogy with setBufferLong. */
  function SetBufferLongLong(buffer: Option<seq<byte>>, bufferLength: nat, byteOffset: nat, val: u64)
    : (r: Result<seq<byte>>)
    requires buffer.Some? ==> bufferLength <= |buffer.value|
    ensures buffer.None? ==> r == Err(Uninitialized)
    ensures buffer.Some? ==> (r == Err(OverFlow) <==> byteOffset + 8 > bufferLength)
    ensures r.Ok? ==> UnchangedOutside(buffer.value, r.value, byteOffset, byteOffset + 8)
    ensures r.Ok? ==> FromBigEndian(r.value[byteOffset..byteOffset + 8]) == val
  {
    BigEndian64RoundTrip(val);
    SetBufferSpan(buffer, bufferLength, byteOffset, ToBigEndian(val, 8))
  }

  /** setBufferString: the raw bytes of `val` at `byteOffset`. */
  function SetBufferString(buffer: Option<seq<byte>>, bufferLength: nat, byteOffset: nat, val: seq<byte>)
    : (r: Result<seq<byte>>)
    requires buffer.Some? ==> bufferLength <= |buffer.value|
    ensures buffer.None? ==> r == Err(Uninitialized)
    ensures buffer.Some? ==> (r == Err(OverFlow) <==> byteOffset + |val| > bufferLength)
    ensures buffer.Some? ==> (r.Ok? <==> byteOffset + |val| <= bufferLength)
    ensures r.Ok? ==> UnchangedOutside(buffer.value, r.value, byteOffset, byteOffset + |val|)
    ensures r.Ok? ==> r.value[byteOffset..byteOffset + |val|] == val
  {
    SetBufferSpan(buffer, bufferLength, byteOffset, val)
  }

  // ---------------------------------------------------------------------------
  // Readers (GetInBuffer*): over the transferred data `datain`, checked against
  // its length (datain.size), never against the allocated in-buffer size.

  /** The transferred length; an absent transfer has length 0. */
  function TransferSize(datain: Option<seq<byte>>): nat
  {
    if datain.Some? then |datain.value| else 0
  }

  /** The common shape of every reader: the `width` bytes at `byteOffset`. */
  function GetSpan(datain: Option<seq<byte>>, byteOffset: nat, width: nat): (r: Result<seq<byte>>)
    ensures datain.None? ==> r == Err(Uninitialized)
    ensures datain.Some? ==> (r == Err(OverRead) <==> byteOffset + width > |datain.value|)
    ensures datain.Some? ==> (r.Ok? <==> byteOffset + width <= |datain.value|)
    ensures r.Ok? ==> |r.value| == width
    ensures r.Ok? ==> forall i :: 0 <= i < width ==> r.value[i] == datain.value[byteOffset + i]
  {
    if datain.None? then Err(Uninitialized)
    else if byteOffset + width > |datain.value| then Err(OverRead)
    else Ok(datain.value[byteOffset..byteOffset + width])
  }

  /** GetInBufferBitArray: the over-read check comes before the byte-boundary check. */
  function GetBitArray(datain: Option<seq<byte>>, byteOffset: nat, startBit: nat, bitLength: nat)
    : (r: Result<byte>)
    ensures datain.None? ==> r == Err(Uninitialized)
    ensures r == Err(OverRead) <==> datain.Some? && byteOffset + 1 > |datain.value|
    ensures r == Err(ByteBoundary) <==>
      datain.Some? && byteOffset + 1 <= |datain.value| && startBit + bitLength > 8
    ensures r.Ok? <==> datain.Some? && byteOffset + 1 <= |datain.value| && startBit + bitLength <= 8
    ensures r.Ok? ==> r.value < Pow2(bitLength)
    ensures r.Ok? ==> BitsRead(datain.value[byteOffset] as bv8, startBit as bv8, bitLength as bv8, r.value as bv8)
  {
    var b :- GetSpan(datain, byteOffset, 1);
    if startBit + bitLength > 8 then Err(ByteBoundary)
    else
      ExtractBitsFacts(b[0], startBit, bitLength);
      Ok(ExtractBits(b[0], startBit as bv8, bitLength as bv8))
  }

  /** GetInBufferBool: a one-bit field read as a flag. */
  function GetBool(datain: Option<seq<byte>>, byteOffset: nat, bitOffset: nat): (r: Result<bool>)
    ensures datain.None? ==> r == Err(Uninitialized)
    ensures r == Err(OverRead) <==> datain.Some? && byteOffset + 1 > |datain.value|
    ensures datain.Some? && byteOffset + 1 <= |datain.value| && bitOffset >= 8 ==> r == Err(ByteBoundary)
    ensures r.Ok? <==> datain.Some? && byteOffset + 1 <= |datain.value| && bitOffset < 8
    ensures r.Ok? ==> r.value == Bit(datain.value[byteOffset] as bv8, bitOffset as bv8)
  {
    var v :- GetBitArray(datain, byteOffset, bitOffset, 1);
    assert Bit(v as bv8, 0) == Bit(datain.value[byteOffset] as bv8, bitOffset as bv8);
    Ok(v != 0)
  }

  /** GetInBufferByte. */
  function GetByte(datain: Option<seq<byte>>, byteOffset: nat): (r: Result<byte>)
    ensures datain.None? ==> r == Err(Uninitialized)
    ensures datain.Some? ==> (r == Err(OverRead) <==> byteOffset + 1 > |datain.value|)
    ensures datain.Some? ==> (r.Ok? <==> byteOffset < |datain.value|)
    ensures r.Ok? ==> r.value == datain.value[byteOffset]
  {
    var s :- GetSpan(datain, byteOffset, 1);
    Ok(s[0])
  }

  /** GetInBufferShort: `ntohs` of the two bytes at `byteOffset`. */
  function GetShort(datain: Option<seq<byte>>, byteOffset: nat): (r: Result<u16>)
    ensures datain.None? ==> r == Err(Uninitialized)
    ensures datain.Some? ==> (r == Err(OverRead) <==> byteOffset + 2 > |datain.value|)
    ensures datain.Some? ==> (r.Ok? <==> byteOffset + 2 <= |datain.value|)
    ensures r.Ok? ==> r.value == (datain.value[byteOffset] as int) * 0x100 + datain.value[byteOffset + 1]
  {
    var s :- GetSpan(datain, byteOffset, 2);
    assert s[..1][..0] == [];
    FromBigEndianBound(s);
    Ok(FromBigEndian(s))
  }

  /** GetInBufferLong: `ntohl` of the four bytes at `byteOffset`. */
  function GetLong(datain: Option<seq<byte>>, byteOffset: nat): (r: Result<u32>)
    ensures datain.None? ==> r == Err(Uninitialized)
    ensures datain.Some? ==> (r == Err(OverRead) <==> byteOffset + 4 > |datain.value|)
    ensures datain.Some? ==> (r.Ok? <==> byteOffset + 4 <= |datain.value|)
    ensures r.Ok? ==> r.value == FromBigEndian(datain.value[byteOffset..byteOffset + 4])
  {
    var s :- GetSpan(datain, byteOffset, 4);
    FromBigEndianBound(s);
    assert s == datain.value[byteOffset..byteOffset + 4];
    Ok(FromBigEndian(s))
  }

  /** GetInBufferString: `byteLength` raw bytes from `byteOffset`. */
  function GetString(datain: Option<seq<byte>>, byteOffset: nat, byteLength: nat): (r: Result<seq<byte>>)
    ensures datain.None? ==> r == Err(Uninitialized)
    ensures datain.Some? ==> (r == Err(OverRead) <==> byteOffset + byteLength > |datain.value|)
    ensures r.Ok? ==> r.value == datain.value[byteOffset..byteOffset + byteLength]
  {
    GetSpan(datain, byteOffset, byteLength)
  }

  // ---------------------------------------------------------------------------
  // Round trips: a buffer written by a setter and then read as transferred data.

  lemma SetBufferBitArrayValue(b: seq<byte>, byteOffset: nat, startBit: nat, bitLength: nat, val: byte)
    requires byteOffset < |b| && startBit + bitLength <= 8 && (val as bv8) >> (bitLength as bv8) == 0
    ensures SetBufferBitArray(Some(b), |b|, byteOffset, startBit, bitLength, val)
         == Ok(b[byteOffset := MergeBits(b[byteOffset], startBit as bv8, bitLength as bv8, val)])
  {
  }

  lemma GetBitArrayValue(w: seq<byte>, byteOffset: nat, startBit: nat, bitLength: nat)
    requires byteOffset < |w| && startBit + bitLength <= 8
    ensures GetBitArray(Some(w), byteOffset, startBit, bitLength)
         == Ok(ExtractBits(w[byteOffset], startBit as bv8, bitLength as bv8))
  {
  }

  /** Reading back a field merged into a buffer yields the merged value. */
  lemma ExtractOfMerged(b: seq<byte>, byteOffset: nat, startBit: nat, bitLength: nat, val: byte)
    requires byteOffset < |b| && startBit + bitLength <= 8 && val < Pow2(bitLength)
    ensures GetBitArray(Some(b[byteOffset := MergeBits(b[byteOffset], startBit as bv8, bitLength as bv8, val)]),
                        byteOffset, startBit, bitLength) == Ok(val)
  {
    var m := MergeBits(b[byteOffset], startBit as bv8, bitLength as bv8, val);
    assert ExtractBits(m, startBit as bv8, bitLength as bv8) == val by {
      FitsIffBelowPow2(val, bitLength);
      ExtractMerge(b[byteOffset], startBit as bv8, bitLength as bv8, val);
    }
    GetBitArrayValue(b[byteOffset := m], byteOffset, startBit, bitLength);
  }

  lemma BitArrayRoundTrip(b: seq<byte>, byteOffset: nat, startBit: nat, bitLength: nat, val: byte)
    requires byteOffset < |b| && startBit + bitLength <= 8 && val < Pow2(bitLength)
    ensures SetBufferBitArray(Some(b), |b|, byteOffset, startBit, bitLength, val).Ok?
    ensures GetBitArray(Some(SetBufferBitArray(Some(b), |b|, byteOffset, startBit, bitLength, val).value),
                        byteOffset, startBit, bitLength) == Ok(val)
  {
    FitsIffBelowPow2(val, bitLength);
    SetBufferBitArrayValue(b, byteOffset, startBit, bitLength, val);
    ExtractOfMerged(b, byteOffset, startBit, bitLength, val);
  }

  /** Writing back the field just read leaves the buffer as it was. */
  lemma BitArrayReadWriteIdentity(b: seq<byte>, byteOffset: nat, startBit: nat, bitLength: nat)
    requires byteOffset < |b| && startBit + bitLength <= 8
    ensures GetBitArray(Some(b), byteOffset, startBit, bitLength).Ok?
    ensures SetBufferBitArray(Some(b), |b|, byteOffset, startBit, bitLength,
                              GetBitArray(Some(b), byteOffset, startBit, bitLength).value) == Ok(b)
  {
    MergeExtract(b[byteOffset], startBit as bv8, bitLength as bv8);
    var v := GetBitArray(Some(b), byteOffset, startBit, bitLength).value;
    FitsIffBelowPow2(v, bitLength);
    assert b[byteOffset := b[byteOffset]] == b;
  }

  lemma ShortRoundTrip(b: seq<byte>, byteOffset: nat, val: u16)
    requires byteOffset + 2 <= |b|
    ensures SetBufferShort(Some(b), |b|, byteOffset, val).Ok?
    ensures GetShort(Some(SetBufferShort(Some(b), |b|, byteOffset, val).value), byteOffset) == Ok(val)
  {
  }

  lemma LongRoundTrip(b: seq<byte>, byteOffset: nat, val: u32)
    requires byteOffset + 4 <= |b|
    ensures SetBufferLong(Some(b), |b|, byteOffset, val).Ok?
    ensures GetLong(Some(SetBufferLong(Some(b), |b|, byteOffset, val).value), byteOffset) == Ok(val)
  {
    BigEndian32Decode(val);
    var w := SetBufferLong(Some(b), |b|, byteOffset, val).value;
    assert GetLong(Some(w), byteOffset) == Ok(FromBigEndian(w[byteOffset..byteOffset + 4]));
  }

  /** Writing back the value just read leaves the buffer as it was. */
  lemma LongReadWriteIdentity(b: seq<byte>, byteOffset: nat)
    requires byteOffset + 4 <= |b|
    ensures GetLong(Some(b), byteOffset).Ok?
    ensures SetBufferLong(Some(b), |b|, byteOffset, GetLong(Some(b), byteOffset).value) == Ok(b)
  {
    var span := b[byteOffset..byteOffset + 4];
    var v := GetLong(Some(b), byteOffset).value;
    assert v == FromBigEndian(span);
    BigEndianOfValue(span);
    assert ToBigEndian(v, 4) == span;
    assert SetBufferLong(Some(b), |b|, byteOffset, v) == Ok(b[..byteOffset] + span + b[byteOffset + 4..]);
    assert b[..byteOffset] + span + b[byteOffset + 4..] == b;
  }

  lemma StringRoundTrip(b: seq<byte>, byteOffset: nat, val: seq<byte>)
    requires byteOffset + |val| <= |b|
    ensures SetBufferString(Some(b), |b|, byteOffset, val).Ok?
    ensures GetString(Some(SetBufferString(Some(b), |b|, byteOffset, val).value), byteOffset, |val|) == Ok(val)
  {
  }
}
