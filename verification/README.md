# SCSI command encoding: a Dafny model

This project models the SCSI layer of SCSITest, a C++ library that builds
SCSI commands and submits them over iSCSI through libiscsi. The model covers:

- **SCSIRequest.** A request is a CDB (command descriptor block) of a
  declared size, a transfer direction, and outbound and inbound buffers with
  declared sizes. It also holds the data and residual that the transport
  delivered, and the one-shot "executed" flag.
- **The field codec.** These are the bounds-checked writers into the CDB
  and the outbound buffer (`setBuffer*`, `setCdb*`, `SetOutBuffer*`) and
  the readers of the transferred data (`GetInBuffer*`). Multi-byte values
  are big-endian, and bit fields stay inside one byte.
- **The command family.** Each command defines its CDB layout and decodes
  its response. The commands are:
  - INQUIRY, including the Supported VPD Pages, Unit Serial Number and
    Device Identification pages;
  - REPORT LUNS, READ(10), READ CAPACITY(10) and READ CAPACITY(16);
  - RESERVE(6), RELEASE(6) and TEST UNIT READY;
  - PERSISTENT RESERVE IN (READ KEYS, READ RESERVATION) and PERSISTENT
    RESERVE OUT (the basic parameter list, SetTransportIdList, and
    REGISTER AND MOVE).

A C++ exception becomes an `Err` of the `Error` datatype in the model. A
`NULL` buffer becomes `None`. A copy outside an allocation, whose result
C++ leaves undefined, becomes `Err(HeapOverrun)`. The transport's `datain` is an
`Option<seq<byte>>` whose length is the transfer size. Integer widths are
modelled as subset types (`byte`, `u16`, `u32`, `u64`). Truncation by the
source's own types is written out: the 16-bit allocation-length fields, the
`unsigned int` sum `4 + size` in the VPD page constructors, the
`unsigned int` sum `mOffset + 4 + offset` in `GetIDShort` and its
`uint8_t` return, and the unsigned wrap of `(n + 1) * 8`
in `GetLun` and `GetKey`. The sums the model leaves unbounded are listed
under "Left out".

Every decoder has a partner: a function that builds the bytes a device
would send, plus a round-trip lemma showing that the accessors recover
each encoded field. Every writer states what it changes, what it leaves
alone, and each error case.

Files, one module each:
- `scsi_base.dfy`: results, integer widths, big-endian conversion;
- `field_codec.dfy`: bit fields, buffer writers and readers;
- `scsi_request.dfy`: the request;
- `inquiry.dfy` and `device_id.dfy`: INQUIRY;
- `report_luns.dfy`, `read10.dfy`, `read_capacity.dfy`, `reserve6.dfy`,
  `release6.dfy`, `test_unit_ready.dfy`: the other commands;
- `persistent_reserve_in.dfy` and `persistent_reserve_out.dfy`: persistent
  reservations;
- `command_family.dfy`: the transfer length each command announces to the
  transport.

Where the library's wire layout and SPC-3 (SCSI Primary Commands 3)
disagree, the model follows the code as written. It then adds a
corrected definition next to it (see "## Findings").

## Model

| member | source | states |
|---|---|---|
| `ScsiBase.BigEndianRoundTrip` | src/SCSI/SCSIRequest.cpp:371-397 | Decoding n big-endian bytes written for v gives back v modulo 256^n, the value the `htons`/`htonl` writers store. |
| `ScsiBase.BigEndianOfValue` | src/SCSI/SCSIRequest.cpp:459-480 | Every byte string is the big-endian encoding of its own value, so two fields that decode equal are byte-for-byte equal. |
| `ScsiBase.BigEndian32RoundTrip` | src/SCSI/SCSIRequest.cpp:385-397 | A 32-bit value written in network order reads back unchanged. |
| `ScsiBase.BigEndian64RoundTrip` | src/SCSI/SCSIReadCapacity.h:45 | A 64-bit value written in network order reads back unchanged. |
| `FieldCodec.SetBufferBitArray` | src/SCSI/SCSIRequest.cpp:315-347 | The error checks run in the source's order: a NULL buffer is uninitialized, an offset past the length overflows, `startBit + bitLength > 8` crosses the byte boundary, and a value wider than `bitLength` bits is invalid. Otherwise exactly that bit range of that byte takes the value, and every other bit and byte is kept. |
| `FieldCodec.SetBufferBool` | src/SCSI/SCSIRequest.cpp:349-356 | A one-bit field. The chosen bit reads as the flag, and the other seven bits and all other bytes are kept. A NULL buffer is uninitialized, an offset past the length overflows, and a bit offset of 8 or more crosses the byte boundary (`CHECK_BYTE_BOUNDARY`, cpp:326). |
| `FieldCodec.SetBufferByte` | src/SCSI/SCSIRequest.cpp:358-369 | A NULL buffer is uninitialized and an offset past the length overflows. Otherwise only that byte changes, to the value. |
| `FieldCodec.SetBufferShort` | src/SCSI/SCSIRequest.cpp:371-383 | The value is written high byte first into two bytes. It overflows when they do not fit, and nothing else changes. |
| `FieldCodec.SetBufferLong` | src/SCSI/SCSIRequest.cpp:385-397 | The value is written as four big-endian bytes. It overflows when they do not fit, and nothing else changes. |
| `FieldCodec.SetBufferString` | src/SCSI/SCSIRequest.cpp:399-410 | The string's bytes are copied to the offset, with an overflow check on its length. No terminator is written and nothing else changes. |
| `FieldCodec.GetBitArray` | src/SCSI/SCSIRequest.cpp:431-448 | The result is uninitialized without data, an over-read past the transfer size, or a byte-boundary error. Otherwise it is the value of exactly those bits, which is below 2^bitLength. |
| `FieldCodec.GetBool` | src/SCSI/SCSIRequest.cpp:425-448 | The chosen bit of the byte. Without data it is uninitialized, past the transfer size an over-read, and a bit offset of 8 or more crosses the byte boundary (`CHECK_BYTE_BOUNDARY`, cpp:439). |
| `FieldCodec.GetByte` | src/SCSI/SCSIRequest.cpp:450-456 | The byte at the offset. Reading at or past the transfer size is an over-read. |
| `FieldCodec.GetShort` | src/SCSI/SCSIRequest.cpp:459-469 | The big-endian 16-bit value of two bytes. It is an over-read unless both were transferred. |
| `FieldCodec.GetLong` | src/SCSI/SCSIRequest.cpp:471-480 | The big-endian 32-bit value of four bytes. It is an over-read unless all four were transferred. |
| `FieldCodec.GetString` | src/SCSI/SCSIRequest.cpp:483-493 | Exactly `byteLength` transferred bytes from the offset, or an over-read. |
| `FieldCodec.BitArrayRoundTrip` | src/SCSI/SCSIRequest.cpp:315-347 | A value that fits its bit range, once written, is read back by GetInBufferBitArray at the same position. |
| `FieldCodec.BitArrayReadWriteIdentity` | src/SCSI/SCSIRequest.cpp:431-448 | Writing back the bits just read leaves the buffer unchanged. |
| `FieldCodec.ExtractMerge` | src/SCSI/SCSIRequest.cpp:345-346 | The masking expression of the writer and the shift-and-mask of the reader are inverse on a field that fits. |
| `FieldCodec.MergeExtract` | src/SCSI/SCSIRequest.cpp:447 | Merging a field's own value back into its byte is the identity. |
| `FieldCodec.MergeBitsVMeaning` | src/SCSI/SCSIRequest.cpp:336-346 | The merge expression replaces bits `startBit .. startBit+bitLength-1` with the value's bits and keeps every bit outside that range. |
| `FieldCodec.ShortRoundTrip` | src/SCSI/SCSIRequest.cpp:371-383 | A 16-bit value written into the buffer is read back by GetInBufferShort. |
| `FieldCodec.LongRoundTrip` | src/SCSI/SCSIRequest.cpp:385-397 | A 32-bit value written into the buffer is read back by GetInBufferLong. |
| `FieldCodec.LongReadWriteIdentity` | src/SCSI/SCSIRequest.cpp:471-480 | Writing back the 32-bit value just read leaves the buffer unchanged. |
| `FieldCodec.StringRoundTrip` | src/SCSI/SCSIRequest.cpp:399-410 | A string written into the buffer is read back by GetInBufferString with its length. |
| `ScsiRequest.NewRequest` | src/SCSI/SCSIRequest.cpp:67-81 | The default request has a zeroed six-byte CDB, no buffers, no direction, and no response, and is not executed. |
| `ScsiRequest.NewRequestOfSize` | src/SCSI/SCSIRequest.cpp:83-103 | A CDB size larger than the task's 16-byte CDB array is refused. Otherwise the request is fresh, with a zeroed CDB of that size. |
| `ScsiRequest.NewRequestWithBuffers` | src/SCSI/SCSIRequest.cpp:105-126 | Same as the sized constructor, but it adopts the caller's buffers and declared sizes as given. |
| `ScsiRequest.DefaultIsSixByteCdb` | src/SCSI/SCSIRequest.cpp:67-103 | The default constructor is the sized constructor at six bytes. |
| `ScsiRequest.CreateOutBuffer` | src/SCSI/SCSIRequest.cpp:267-271 | The outbound buffer is replaced by `length` zero bytes with that declared size, and nothing else changes. |
| `ScsiRequest.CreateInBuffer` | src/SCSI/SCSIRequest.cpp:419-423 | The inbound buffer is replaced by `length` zero bytes with that declared size, and nothing else changes. |
| `ScsiRequest.SetOutBuffer` | src/SCSI/SCSIRequest.cpp:260-265 | Adopts the caller's outbound buffer and declared size, and nothing else changes. |
| `ScsiRequest.SetInBuffer` | src/SCSI/SCSIRequest.cpp:412-417 | Adopts the caller's inbound buffer and declared size, and nothing else changes. |
| `ScsiRequest.ResetOutBuffer` | src/SCSI/SCSIRequest.h:73 | Without a buffer, nothing changes. Otherwise the first `mOutBufferSize` bytes become zero, later bytes are kept, and only the buffer changes. |
| `ScsiRequest.ResetInBuffer` | src/SCSI/SCSIRequest.h:97 | Without a buffer, nothing changes. Otherwise the first `mInBufferSize` bytes become zero, later bytes are kept, and only the buffer changes. |
| `ScsiRequest.SetXferDir` | src/SCSI/SCSIRequest.h:68 | Sets the direction and changes nothing else. |
| `ScsiRequest.SetExecuted` | src/SCSI/SCSIRequest.h:116-117 | Afterwards IsExecuted holds, and nothing else changes. |
| `ScsiRequest.Reset` | src/SCSI/SCSIRequest.h:119-123 | Clears the executed flag and the transport's response, and keeps the CDB, direction and buffers. |
| `ScsiRequest.WithResponse` | src/SCSI/SCSIRequest.h:98-114 | The transfer size becomes the length of the delivered data, and the declared buffer sizes are unaffected. |
| `ScsiRequest.ExpectedTransferLength` | src/iSCSI/iSCSILibWrapper.cpp:728-747 | The expected transfer length is 0 when no data moves. On a valid request it never exceeds the buffer the transport reads into or sends from. |
| `ScsiRequest.TransferSizeIsNotDeclaredSize` | src/SCSI/SCSIRequest.h:91-98 | After an underflow, GetInBufferTransferSize is the delivered length, whatever GetInBufferSize says. |
| `ScsiRequest.SetCdbBitArray` | src/SCSI/SCSIRequest.cpp:128-135 | Takes the bit-array writer's errors against `cdb_size`. On success only that CDB byte changes, by the bit merge. |
| `ScsiRequest.SetCdbByte` | src/SCSI/SCSIRequest.cpp:137-141 | Overflows past `cdb_size`. Otherwise only that CDB byte changes. |
| `ScsiRequest.SetCdbShort` | src/SCSI/SCSIRequest.cpp:143-146 | Overflows unless two bytes fit. Otherwise only those two CDB bytes change, high byte first. |
| `ScsiRequest.SetCdbLong` | src/SCSI/SCSIRequest.cpp:148-151 | Overflows unless four bytes fit. Otherwise only those four CDB bytes change, big-endian. |
| `ScsiRequest.SetCdbLongLong` | src/SCSI/SCSIReadCapacity.h:45 | Overflows unless eight bytes fit. Otherwise only those eight CDB bytes change, and they decode to the value. |
| `ScsiRequest.SetOutBufferBitArray` | src/SCSI/SCSIRequest.cpp:273-280 | The bit-array writer applied to the outbound buffer, with its error cases. Only the buffer changes. |
| `ScsiRequest.SetOutBufferBool` | src/SCSI/SCSIRequest.cpp:282-287 | Sets one flag bit of the outbound buffer and keeps the byte's other bits. Only the buffer changes. A NULL buffer is uninitialized, an offset past `mOutBufferSize` overflows, and a bit offset of 8 or more crosses the byte boundary. |
| `ScsiRequest.SetOutBufferByte` | src/SCSI/SCSIRequest.cpp:289-293 | Writes one byte of the outbound buffer, with the uninitialized and overflow errors. |
| `ScsiRequest.SetOutBufferShort` | src/SCSI/SCSIRequest.cpp:295-299 | Writes two big-endian bytes of the outbound buffer, with the uninitialized and overflow errors. |
| `ScsiRequest.SetOutBufferLong` | src/SCSI/SCSIRequest.cpp:301-305 | Writes four big-endian bytes of the outbound buffer, with the uninitialized and overflow errors. |
| `ScsiRequest.SetOutBufferString` | src/SCSI/SCSIRequest.cpp:307-312 | Copies a string into the outbound buffer, with the uninitialized and overflow errors. |
| `ScsiRequest.Apply` | src/SCSI/SCSIRequest.h:116-123 | Every request operation keeps the request well formed: each CDB writer (byte, short, long, long long, bit array), each outbound-buffer writer (byte, short, long, string, bit array, bool), setInBuffer, setOutBuffer, buffer creation and reset, the direction, the response, SetExecuted and Reset. Only SetExecuted raises the executed flag, and only Reset clears it. |
| `ScsiRequest.ExecutedFlagAfterRun` | src/SCSI/SCSIRequest.h:116-123 | After any sequence of those operations, the executed flag is the effect of the last SetExecuted or Reset in it, or the initial flag when there is none. |
| `Inquiry.NewInquiry` | src/SCSI/SCSIInquiry.h:43-51 | Opcode 12h, the allocation length in CDB bytes 3..4 (cut to 16 bits), a zeroed inbound buffer of that size, direction READ, and EVPD clear. |
| `Inquiry.NewStandardInquiry` | src/SCSI/SCSIInquiry.h:33-41 | The standard request asks for 36 bytes: CDB `12 00 00 00 24 00`. |
| `Inquiry.SetEvpd` | src/SCSI/SCSIInquiry.h:60 | Records the flag. Setting it also writes 1 to CDB byte 1, and clearing it leaves the CDB alone. |
| `Inquiry.EvpdBitIsSticky` | src/SCSI/SCSIInquiry.h:60 | After setting and then clearing EVPD, the flag is clear but CDB byte 1 still says 1. |
| `Inquiry.ShortAllocationLength` | src/SCSI/SCSIInquiry.h:43-51 | An allocation length below 256 lands in CDB byte 4, with byte 3 zero. |
| `Inquiry.NewVpdInquiry` | src/SCSI/SCSIInquiry.cpp:66-72 | A VPD page request is an INQUIRY with EVPD set and the page code in CDB byte 2. |
| `Inquiry.PeripheralQualifier` | src/SCSI/SCSIInquiry.h:55-56 | Bits 5..7 of byte 0 (the byte divided by 32), or the reader's error. |
| `Inquiry.PeripheralType` | src/SCSI/SCSIInquiry.h:57 | Bits 0..4 of byte 0 (the byte modulo 32), or the reader's error. |
| `Inquiry.Rmb` | src/SCSI/SCSIInquiry.h:58 | Bit 7 of byte 1. |
| `Inquiry.Version` | src/SCSI/SCSIInquiry.h:59 | Byte 2. |
| `Inquiry.PeripheralFieldsCoverByteZero` | src/SCSI/SCSIInquiry.h:55-57 | The qualifier and the device type together are exactly byte 0. |
| `Inquiry.T10VendorId` | src/SCSI/SCSIInquiry.cpp:9-32 | Refused on an EVPD request. Fewer than 16 transferred bytes means insufficient data. Otherwise the result is bytes 8..15. |
| `Inquiry.ProductId` | src/SCSI/SCSIInquiry.cpp:34-48 | Refused on an EVPD request. Otherwise it is bytes 16..31, or an over-read. |
| `Inquiry.ProductRev` | src/SCSI/SCSIInquiry.cpp:50-64 | Refused on an EVPD request. Otherwise it is bytes 32..35, or an over-read. |
| `Inquiry.StandardDataRoundTrip` | src/SCSI/SCSIInquiry.h:55-64 | For standard inquiry data built from given fields, every getter returns its field. |
| `Inquiry.NewSupportedVpdPages` | src/SCSI/SCSIInquiry.cpp:66-72 | Page 00h with room for a 4-byte header and 32 page codes. |
| `Inquiry.EffectivePageCount` | src/SCSI/SCSIInquiry.cpp:84-85 | On an underflow, the count is the page length in byte 3. Otherwise it is 32 minus the residual, wrapping as an unsigned int. |
| `Inquiry.HasPage` | src/SCSI/SCSIInquiry.cpp:75-91 | The loop answers true exactly when one of the first `count` page codes after the header equals the page, and it propagates a read error. |
| `Inquiry.HasPageWithFullResponse` | src/SCSI/SCSIInquiry.cpp:75-91 | With no residual and a full response, HasPage decides membership of the page list. |
| `Inquiry.OverflowResidualHidesPage` | src/SCSI/SCSIInquiry.cpp:84-85 | After an overflow residual, a page listed in the last transferred slot is not found. |
| `Inquiry.NewUnitSerialPage` | src/SCSI/SCSIInquiry.cpp:93-98 | Page 80h with room for a 4-byte header and `size` serial bytes, the sum `4 + size` wrapping at 2^32 as an `unsigned int` does. |
| `Inquiry.HugeUnitSerialSizeWraps` | src/SCSI/SCSIInquiry.cpp:93-94 | A size of FFFFFFFCh wraps `4 + size` to zero: an empty buffer and an allocation length of zero. |
| `Inquiry.UnitSerialNumber` | src/SCSI/SCSIInquiry.cpp:100-106 | Exactly PAGE LENGTH (byte 3) bytes from offset 4, or the reader's error. |
| `Inquiry.UnitSerialRoundTrip` | src/SCSI/SCSIInquiry.cpp:100-106 | The serial number of a Unit Serial Number page reads back whatever follows it. |
| `Inquiry.DefaultUnitSerialPageRequest` | src/SCSI/SCSIInquiry.h:90 | The default Unit Serial Number request asks for 20 bytes: the header and a 16-byte serial number. |
| `DeviceIdVpd.NewDeviceIdPage` | src/SCSI/SCSIInquiry.cpp:245-251 | Page 83h with room for a 4-byte header and `size` descriptor bytes, the sum wrapping at 2^32 as an `unsigned int` does; not yet parsed. |
| `DeviceIdVpd.HugeDeviceIdSizeWraps` | src/SCSI/SCSIInquiry.cpp:245-246 | A size of FFFFFFFCh wraps `4 + size` to zero: an empty buffer and an allocation length of zero. |
| `DeviceIdVpd.WalkDescriptors` | src/SCSI/SCSIInquiry.cpp:258-271 | The offsets the walk records strictly increase and stay below PAGE LENGTH + 4. |
| `DeviceIdVpd.WalkIsChain` | src/SCSI/SCSIInquiry.cpp:263-271 | Each recorded descriptor starts where the previous one ends (its offset plus 4 plus IDENTIFIER LENGTH). |
| `DeviceIdVpd.DefaultDeviceIdPageRequest` | src/SCSI/SCSIInquiry.h:99 | The default Device Identification request asks for 255 bytes, which fit the CDB's allocation length uncut. |
| `DeviceIdVpd.GetDescriptorCount` | src/SCSI/SCSIInquiry.cpp:253-276 | A parsed page answers from its cache. Otherwise the walk's offsets are appended. The page becomes parsed exactly when the walk completes, and the count is the number of descriptors. Without data the error is uninitialized; a short header or a truncated walk is an over-read. |
| `DeviceIdVpd.ParseOnce` | src/SCSI/SCSIInquiry.cpp:255-272 | After a successful count, asking again changes nothing. |
| `DeviceIdVpd.FailedParseAppendsAgain` | src/SCSI/SCSIInquiry.cpp:255-272 | A walk cut short by an over-read leaves the page unparsed, so a second call appends the same descriptors again. |
| `DeviceIdVpd.GetDescriptor` | src/SCSI/SCSIInquiry.h:104-105 | The n-th recorded descriptor, or out of range. |
| `DeviceIdVpd.GetCodeSet` | src/SCSI/SCSIInquiry.cpp:108-121 | The low nibble of the descriptor's byte 0. Values 1..3 are kept, and any other value reads as reserved. |
| `DeviceIdVpd.CodeSetNamesDistinct` | src/SCSI/SCSIInquiry.cpp:123-144 | The four code-set names are pairwise distinct. |
| `DeviceIdVpd.GetCodeSetString` | src/SCSI/SCSIInquiry.cpp:123-144 | The name of the decoded code set, or the reader's error. |
| `DeviceIdVpd.GetPiv` | src/SCSI/SCSIInquiry.h:156 | Bit 7 of the descriptor's byte 1. |
| `DeviceIdVpd.GetProtocolIdString` | src/SCSI/SCSIInquiry.cpp:146-160 | "Reserved" whenever PIV can be read. |
| `DeviceIdVpd.IdentifierTypeOfCode` | src/SCSI/SCSIInquiry.cpp:165-181 | Nibble values 0..8 name their identifier type, and every other value names the reserved type. |
| `DeviceIdVpd.GetIdType` | src/SCSI/SCSIInquiry.cpp:162-182 | The low nibble of byte 1 through that mapping. |
| `DeviceIdVpd.GetIdTypeString` | src/SCSI/SCSIInquiry.cpp:184-223 | The 31-character name of the decoded identifier type, or the reader's error. |
| `DeviceIdVpd.GetAssociation` | src/SCSI/SCSIInquiry.cpp:225-228 | Bits 4..5 of byte 1. |
| `DeviceIdVpd.GetIdLength` | src/SCSI/SCSIInquiry.h:153-155 | Byte 3 of the descriptor. |
| `DeviceIdVpd.GetId` | src/SCSI/SCSIInquiry.h:158-160 | IDENTIFIER LENGTH bytes from the descriptor's byte 4, or an over-read. |
| `DeviceIdVpd.GetHexId` | src/SCSI/SCSIInquiry.cpp:230-243 | The loop yields two upper-case hex digits per identifier byte, in order, or GetID's error. |
| `DeviceIdVpd.HexRoundTrip` | src/SCSI/SCSIInquiry.cpp:235-240 | The hex form of an identifier parses back to the identifier, so it loses nothing. |
| `DeviceIdVpd.GetIdShort` | src/SCSI/SCSIInquiry.h:162-164 | The big-endian short at `mOffset + 4 + offset`, summed as an `unsigned int` that wraps at 2^32, and returned through `uint8_t`, which leaves its low byte only. Without the wrap, it reads exactly when the two bytes arrived. |
| `DeviceIdVpd.IdShortOffsetWraps` | src/SCSI/SCSIInquiry.h:162-164 | From descriptor offset 4, offset FFFFFFF8h wraps around and reads page bytes 0..1. |
| `DeviceIdVpd.IdShortOfDesignator` | src/SCSI/SCSIInquiry.h:162-164 | On an encoded descriptor, GetIDShort(k) returns identifier byte k+1 whenever identifier bytes k..k+1 exist. |
| `DeviceIdVpd.WalkOfEncoding` | src/SCSI/SCSIInquiry.cpp:263-271 | A walk over encoded descriptors finds each one where it was placed and ends exactly at the end of the list. |
| `DeviceIdVpd.DecodeDesignator` | src/SCSI/SCSIInquiry.h:148-160 | From an encoded descriptor, the accessors recover its identifier, length, PIV and association. They also recover its identifier type and code set, after the reserved-value mapping. |
| `DeviceIdVpd.DescriptorCountOfResponse` | src/SCSI/SCSIInquiry.cpp:253-276 | A fresh page whose response lists the given descriptors counts exactly that many and records their offsets. |
| `DeviceIdVpd.DeviceIdPageRoundTrip` | src/SCSI/SCSIInquiry.cpp:253-276 | For a page built from a list of descriptors, GetDescriptorCount returns the list's length, and GetDescriptor(n) yields the n-th identifier. |
| `ReportLuns.NewReportLuns` | src/SCSI/SCSIReportLuns.cpp:30-38 | A 12-byte CDB with opcode A0h and SELECT REPORT 02h. The allocation length is written as a 16-bit value at bytes 6..7, with a zeroed inbound buffer of that size and direction READ. |
| `ReportLuns.AllocationLengthAsSeenByDevice` | src/SCSI/SCSIReportLuns.cpp:35 | A device reading the 32-bit field at bytes 6..9 sees the length multiplied by 65536. |
| `ReportLuns.DefaultRequestAsksForMore` | src/SCSI/SCSIReportLuns.h:11 | The default 48-byte request announces 3145728 bytes. |
| `ReportLuns.NewReportLunsCorrected` | src/SCSI/SCSIReportLuns.cpp:30-38 | The 32-bit allocation length is written at bytes 6..9 and decodes to the buffer size. |
| `ReportLuns.LunCount` | src/SCSI/SCSIReportLuns.h:15 | The LUN LIST LENGTH divided by 8, rounded down, or the reader's error. |
| `ReportLuns.GetLun` | src/SCSI/SCSIReportLuns.h:18-21 | The 16-bit value at `8*(n+1)`, or an over-read. |
| `ReportLuns.LunIndexWraps` | src/SCSI/SCSIReportLuns.h:18-21 | Index 0x1FFFFFFF wraps `8*(n+1)` to 0 and reads the length header. |
| `ReportLuns.LunListRoundTrip` | src/SCSI/SCSIReportLuns.h:15-21 | For a LUN list built from LUN numbers, the count is their number, and GetLun(k) is the k-th. |
| `ReportLuns.CountCanExceedTransferredEntries` | src/SCSI/SCSIReportLuns.h:11-21 | With the default 48 bytes and more than five LUNs, the count is the full number, but the sixth LUN is an over-read. |
| `Read10.NewRead10` | src/SCSI/SCSIRead.cpp:31-46 | Opcode 28h, LBA 0, the transfer length cut to 16 bits in bytes 7..8, and direction READ. The inbound buffer is a fresh zeroed one or the caller's, with declared size `transferLength`. |
| `Read10.SetLba` | src/SCSI/SCSIRead.cpp:52-56 | Records the LBA and writes it to bytes 2..5. Only the CDB changes, and the recorded LBA is the one the CDB carries. |
| `Read10.SetLbaLastWins` | src/SCSI/SCSIRead.cpp:52-56 | Setting the LBA twice equals setting it once, to the second value. |
| `Read10.SetLbaKeepsTransfer` | src/SCSI/SCSIRead.cpp:52-56 | Setting the LBA keeps the transfer length and the buffer. |
| `ReadCapacity.NewReadCapacity10` | src/SCSI/SCSIReadCapacity.cpp:29-35 | A 10-byte CDB with opcode 25h, an 8-byte zeroed response buffer, and direction READ. |
| `ReadCapacity.SetLba10` | src/SCSI/SCSIReadCapacity.h:32 | Bytes 2..5 decode to the LBA, and no other byte changes. |
| `ReadCapacity.Capacity` | src/SCSI/SCSIReadCapacity.h:33 | The big-endian value of response bytes 0..3, or the reader's error. |
| `ReadCapacity.LogicalBlockLength` | src/SCSI/SCSIReadCapacity.h:34 | The big-endian value of response bytes 4..7, or the reader's error. |
| `ReadCapacity.Capacity10RoundTrip` | src/SCSI/SCSIReadCapacity.h:33-34 | Both getters recover the values a device encoded. |
| `ReadCapacity.NewReadCapacity16` | src/SCSI/SCSIReadCapacity.cpp:41-47 | A 16-byte CDB with 9Eh/10h and a 16-byte response buffer. The direction stays NONE. |
| `ReadCapacity.ReadCapacity16ExpectsNoData` | src/SCSI/SCSIReadCapacity.cpp:41-47 | As constructed, the request expects a transfer of 0 bytes although its buffer holds 16. |
| `ReadCapacity.NewReadCapacity16Corrected` | src/SCSI/SCSIReadCapacity.cpp:41-47 | The same request with direction READ, which expects 16 bytes. |
| `ReadCapacity.SetLba16` | src/SCSI/SCSIReadCapacity.h:45 | Bytes 2..9 decode to the 64-bit LBA, and no other byte changes. |
| `ReadCapacity.SetAllocationLength16` | src/SCSI/SCSIReadCapacity.h:46 | Bytes 10..13 decode to the allocation length, and no other byte changes. |
| `ReadCapacity.Capacity16FieldsIndependent` | src/SCSI/SCSIReadCapacity.h:45-46 | The LBA and the allocation length occupy disjoint bytes: setting them in either order gives the same CDB, and each setter keeps the other's field. |
| `Reserve6.NewReserve6` | src/SCSI/SCSIReserve.cpp:30-34 | CDB `16 00 00 00 00 00`, no buffers, and direction NONE. |
| `Release6.NewRelease6` | src/SCSI/SCSIRelease.cpp:29-33 | CDB `17 00 00 00 00 00`, no buffers, and direction NONE. |
| `Release6.ReleaseIsReserveWithOtherOpcode` | src/SCSI/SCSIRelease.cpp:29-33 | RELEASE(6) is RESERVE(6) with a different opcode byte and nothing else different. |
| `TestUnitReady.NewTestUnitReady` | src/SCSI/SCSITestUnitReady.cpp:10-14 | An all-zero six-byte CDB, no buffers, and direction NONE. |
| `TestUnitReady.TestUnitReadyIsDefaultRequest` | src/SCSI/SCSITestUnitReady.cpp:10-14 | TEST UNIT READY is exactly the default request. |
| `PersistentReserveIn.ReservationTypeOfCode` | src/SCSI/SCSIPersistentReserveIn.cpp:54-67 | Exactly the six defined type codes name a reservation type, and each names the type whose code it is. |
| `PersistentReserveIn.ReservationTypeCodeRoundTrip` | src/SCSI/SCSIPersistentReserveIn.cpp:54-67 | Every reservation type's code names it back. |
| `PersistentReserveIn.NewPrIn` | src/SCSI/SCSIPersistentReserveIn.cpp:3-13 | A 10-byte CDB with opcode 5Eh, the service action in byte 1, and the allocation length cut to 16 bits in bytes 7..8. It has a zeroed inbound buffer of that size and direction READ. |
| `PersistentReserveIn.NewReadKeys` | src/SCSI/SCSIPersistentReserveIn.cpp:19-21 | The READ KEYS request: service action 00h. |
| `PersistentReserveIn.NewReadReservation` | src/SCSI/SCSIPersistentReserveIn.cpp:32-34 | The READ RESERVATION request: service action 01h. |
| `PersistentReserveIn.Generation` | src/SCSI/SCSIPersistentReserveIn.cpp:15-17 | PRGENERATION, response bytes 0..3, or the reader's error. |
| `PersistentReserveIn.KeyCount` | src/SCSI/SCSIPersistentReserveIn.cpp:24-26 | (ADDITIONAL LENGTH + 1) / 8 in 32-bit arithmetic. A multiple of 8 gives itself divided by 8, and 0xFFFFFFFF wraps to 0. |
| `PersistentReserveIn.GetKey` | src/SCSI/SCSIPersistentReserveIn.cpp:28-30 | The 8 bytes at `8*(i+1)`, or an over-read. |
| `PersistentReserveIn.KeyIndexWraps` | src/SCSI/SCSIPersistentReserveIn.cpp:28-30 | Index 0x1FFFFFFF wraps the offset to 0 and reads the header. |
| `PersistentReserveIn.ReadKeysRoundTrip` | src/SCSI/SCSIPersistentReserveIn.cpp:15-30 | For a READ KEYS response built from a key list, the generation, the count and every key are recovered. |
| `PersistentReserveIn.Reservation` | src/SCSI/SCSIPersistentReserveIn.cpp:36-42 | Empty when ADDITIONAL LENGTH is 0. Otherwise it is bytes 8..15, or an over-read. |
| `PersistentReserveIn.GetReservationType` | src/SCSI/SCSIPersistentReserveIn.cpp:44-70 | No reservation means insufficient data. The nibble at byte 21 maps through the source's table, which sends 5 to WRITE EXCLUSIVE. An undefined nibble is an invalid value. |
| `PersistentReserveIn.GetReservationTypeCorrected` | src/SCSI/SCSIPersistentReserveIn.cpp:52-67 | The type whose code is the nibble. It agrees with the source's table except on nibble 5. |
| `PersistentReserveIn.NoReservationRoundTrip` | src/SCSI/SCSIPersistentReserveIn.cpp:36-51 | With no reservation held, the reservation is empty and the type query fails with insufficient data. |
| `PersistentReserveIn.HeldReservationRoundTrip` | src/SCSI/SCSIPersistentReserveIn.cpp:36-70 | For a held reservation, the key is recovered and the corrected getter recovers every type. The source's getter recovers every type except WRITE EXCLUSIVE REGISTRANTS ONLY, which it reports as WRITE EXCLUSIVE. |
| `PersistentReserveOut.ServiceActionOfCode` | src/SCSI/SCSIPersistentReserveOut.h:9-19 | Codes 0..8 name a service action, and each names the action whose code it is. |
| `PersistentReserveOut.ServiceActionCodeRoundTrip` | src/SCSI/SCSIPersistentReserveOut.h:9-19 | Every service action's code names it back. |
| `PersistentReserveOut.NewPrOut` | src/SCSI/SCSIPersistentReserveOut.cpp:3-13 | A 10-byte CDB with opcode 5Fh, the service action in byte 1, and the list length cut to 16 bits in bytes 7..8. It has a zeroed outbound list of that length and direction WRITE. |
| `PersistentReserveOut.SetReservationType` | src/SCSI/SCSIPersistentReserveOut.cpp:15-18 | The low nibble of CDB byte 2 becomes the type, and SCOPE is kept. A type above 15 is an invalid value. |
| `PersistentReserveOut.SetReservationKey` | src/SCSI/SCSIPersistentReserveOut.cpp:20-25 | A key that is not 8 bytes is an invalid value. Otherwise it fills list bytes 0..7, and nothing else changes. |
| `PersistentReserveOut.SetServiceActionReservationKey` | src/SCSI/SCSIPersistentReserveOut.cpp:27-34 | A key that is not 8 bytes is an invalid value. Otherwise it fills list bytes 8..15, and nothing else changes. |
| `PersistentReserveOut.SetAptpl` | src/SCSI/SCSIPersistentReserveOut.h:28-42 | Bit 0 of byte 20 in the basic list, or of byte 17 in the REGISTER AND MOVE list, becomes the flag, and the other bits are kept. |
| `PersistentReserveOut.SetAllTgPt` | src/SCSI/SCSIPersistentReserveOut.h:29-46 | Bit 2 of byte 20 becomes the flag. REGISTER AND MOVE refuses it as not supported. |
| `PersistentReserveOut.SetUnreg` | src/SCSI/SCSIPersistentReserveOut.h:43 | Bit 1 of byte 17 becomes the flag, and nothing else changes. |
| `PersistentReserveOut.SetRelativeTargetPortId` | src/SCSI/SCSIPersistentReserveOut.h:41 | Bytes 18..19 carry the 16-bit id, and nothing else changes. |
| `PersistentReserveOut.SetTransportIdList` | src/SCSI/SCSIPersistentReserveOut.cpp:36-49 | A NULL or empty list is an invalid value, and REGISTER AND MOVE refuses the call. An old list shorter than 24 bytes, or a `length + 24` that wraps at 2^32, makes a copy outside an allocation (`HeapOverrun`). Otherwise the list grows to 24 + length, keeps its first 24 bytes, and appends the ids. The CDB announces the new length, and bit 4 of byte 20 is set. |
| `PersistentReserveOut.SetTransportIdListCorrected` | src/SCSI/SCSIPersistentReserveOut.cpp:36-49 | Sets SPEC_I_PT at bit 3. It copies at most the old list's bytes into a zeroed header, and refuses a length whose sum with 24 does not fit 32 bits. The decoded list keeps the keys and flags, announces SPEC_I_PT, and carries the ids. |
| `PersistentReserveOut.TransportIdsNotAnnounced` | src/SCSI/SCSIPersistentReserveOut.cpp:48 | After the source's SetTransportIdList, a reader of the standard layout finds the ids appended but SPEC_I_PT still clear. |
| `PersistentReserveOut.ShortListOverReads` | src/SCSI/SCSIPersistentReserveOut.cpp:43-46 | On a request built with a list shorter than 24 bytes, the source's SetTransportIdList copies outside the old list. The corrected version succeeds: zero keys and flags, SPEC_I_PT set, and the ids. |
| `PersistentReserveOut.NewRegisterAndMove` | src/SCSI/SCSIPersistentReserveOut.cpp:52-63 | A transport ID shorter than 24 bytes or not a multiple of 4 is an invalid value. Otherwise the list is 20 zero bytes, the ID length in bytes 20..23, then the ID, with direction WRITE. |
| `PersistentReserveOut.BasicListRoundTrip` | src/SCSI/SCSIPersistentReserveOut.cpp:20-34 | Setting both keys, ALL_TG_PT and APTPL on a fresh request yields a list that decodes to exactly those values. |
| `PersistentReserveOut.BasicListAfterKey` | src/SCSI/SCSIPersistentReserveOut.cpp:20-25 | Setting the reservation key changes only the decoded key. |
| `PersistentReserveOut.BasicListAfterServiceActionKey` | src/SCSI/SCSIPersistentReserveOut.cpp:27-34 | Setting the service action key changes only the decoded service action key. |
| `PersistentReserveOut.BasicListAfterAptpl` | src/SCSI/SCSIPersistentReserveOut.h:28 | Setting APTPL changes only the decoded APTPL. |
| `PersistentReserveOut.BasicListAfterAllTgPt` | src/SCSI/SCSIPersistentReserveOut.h:29 | Setting ALL_TG_PT changes only the decoded ALL_TG_PT. |
| `PersistentReserveOut.MoveListAfterUnreg` | src/SCSI/SCSIPersistentReserveOut.h:43 | Setting UNREG changes only the decoded UNREG. |
| `PersistentReserveOut.MoveListAfterAptpl` | src/SCSI/SCSIPersistentReserveOut.h:42 | On REGISTER AND MOVE, setting APTPL changes only the decoded APTPL. |
| `PersistentReserveOut.MoveListAfterPortId` | src/SCSI/SCSIPersistentReserveOut.h:41 | Setting the relative target port id changes only that decoded field. |
| `PersistentReserveOut.NewMoveListDecodes` | src/SCSI/SCSIPersistentReserveOut.cpp:52-63 | A fresh REGISTER AND MOVE list decodes to zero keys and flags, the ID length, and the ID. |
| `CommandFamily.InquiryCommandsAnnounceTheirBuffer` | src/iSCSI/iSCSILibWrapper.cpp:728-747 | For every size, INQUIRY and its VPD page requests have direction READ, so the transport expects exactly the declared size of the buffer they allocate. |
| `CommandFamily.ReadCommandsAnnounceTheirBuffer` | src/iSCSI/iSCSILibWrapper.cpp:728-747 | For every length, REPORT LUNS, READ(10), READ CAPACITY(10) and PERSISTENT RESERVE IN expect exactly the declared size of their inbound buffer. |
| `CommandFamily.OtherCommandsAnnounceTheirBuffer` | src/iSCSI/iSCSILibWrapper.cpp:728-747 | RESERVE(6), RELEASE(6) and TEST UNIT READY expect no data. PERSISTENT RESERVE OUT, in both layouts, announces its parameter list's declared size. |
| `CommandFamily.ReadCapacity16IsTheException` | src/SCSI/SCSIReadCapacity.cpp:41-47 | READ CAPACITY(16) is the one command whose buffer the transport does not serve. Its corrected constructor is served like the rest. |

## Left out

- The transport (`iSCSILibWrapper`): connecting, executing, polling and copying the response. Only the expected transfer length it announces is modelled (`ScsiRequest.ExpectedTransferLength`). The delivered data and the residual are inputs, set through `WithResponse`.
- `StatusString`, `ErroTypeString`, `SenseKeyString` and `ASCQString`: they map libiscsi status and sense codes to text, and those tables are not part of this model.
- `EString` and `CException`: exceptions become values of the `Error` datatype. Message texts are not modelled.
- The example command-line program.
- Memory allocation failure is not modelled. The constructors' `std::bad_alloc` path never happens in the model: allocation always succeeds.
- `setCdbLongLong` is called at src/SCSI/SCSIReadCapacity.h:45, but it is neither declared in SCSIRequest.h nor defined in SCSIRequest.cpp. `ScsiRequest.SetCdbLongLong` assumes it writes eight big-endian bytes, with the same overflow check as `setCdbLong`.
- The opcodes `SCSI_OPCODE_*` come from libiscsi's `scsi-lowlevel.h`, which is not part of this model. The values used are SPC-3's: REPORT LUNS A0h, READ(10) 28h, RESERVE(6) 16h, RELEASE(6) 17h, PERSISTENT RESERVE IN 5Eh, PERSISTENT RESERVE OUT 5Fh.
- The reservation type codes come from libiscsi's `scsi_persistent_reservation_type` (1, 3, 5, 6, 7, 8), following SPC-3 table 168.
- The fixed-width accessors and `setBufferString` add the offset to a `size_t` length (`sizeof(...)` or `val.length()`). On a 64-bit target that sum does not wrap, so the model's unbounded sums match it. The wrap of `8*(n+1)` in `GetLun` and `GetKey` is modelled.
- `FieldCodec.GetString`: `GetInBufferString` adds offset and length as two `unsigned int`s (src/SCSI/SCSIRequest.cpp:490). That 32-bit wrap is not modelled, so an offset near 2^32 is an over-read in the model where the C code would wrap.
- `FieldCodec.GetBitArray`, `FieldCodec.SetBufferBitArray`, `FieldCodec.GetBool`, `FieldCodec.SetBufferBool`: `CHECK_BYTE_BOUNDARY` adds `startBit + bitLength` as `unsigned int` (src/SCSI/SCSIRequest.cpp:58). That 32-bit wrap is not modelled, so a bit position near 2^32 is a byte-boundary error in the model where the C check would pass.
- `ScsiRequest.NewRequestWithBuffers`, `ScsiRequest.SetInBuffer`, `ScsiRequest.SetOutBuffer`, `Read10.NewRead10`, `ScsiRequest.Apply`, `ScsiRequest.Run`: a caller-supplied buffer is assumed to hold at least the size declared with it. The C++ code takes a `shared_array` and a size, and it cannot check one against the other; a shorter buffer would make later accesses undefined behaviour, which the model does not represent.
- `PersistentReserveOut.SetTransportIdList`: two copies fall outside an allocation, and C++ leaves their result undefined. The first copies 24 bytes out of an old list shorter than 24 bytes (src/SCSI/SCSIPersistentReserveOut.cpp:46). The second follows a `length + 24` that wrapped at 2^32 (cpp:43-47). The model returns `Err(HeapOverrun)` in both cases instead of inventing the heap's contents. The caller's buffer is assumed to hold `length` bytes, which the source cannot check.
- `ScsiRequest.Reset`: the source calls libiscsi's `scsi_clean_scsi_task`, whose body is not part of this model. The model assumes that it drops the delivered data and the residual.
- The `mLinkBit` field is left out. Nothing in the command family reads or sets it.
- The `SCSIDeviceID` helper holds a pointer to its page. The model holds the page's data and the offset instead.
- `DeviceIdVpd.GetProtocolIdString` returns "Reserved" on both branches, as the source does. Protocol identifiers are not decoded.
- `DeviceIdVpd.GetIdLength`, `DeviceIdVpd.GetId`, `DeviceIdVpd.GetHexId`, `DeviceIdVpd.GetPiv`, `DeviceIdVpd.GetCodeSet`, `DeviceIdVpd.GetIdType`, `DeviceIdVpd.GetAssociation`: these add a constant of at most 4 to `mOffset` as `unsigned int` (the inline ones at src/SCSI/SCSIInquiry.h:152-159). That sum is left unbounded. It could only wrap for a descriptor offset within 4 of 2^32, and the descriptor walk only records offsets below PAGE LENGTH + 4, a 16-bit field plus 4.
- `Inquiry.HasPage`: the residual is read as the unsigned `GetResidual()`. The page count `32 - residual` wraps at 2^32 as an `unsigned int` does.

## Findings

| source | as written | input that shows it | evidently intended | confidence | as-written member | corrected member |
|---|---|---|---|---|---|---|
| src/SCSI/SCSIReportLuns.cpp:35 | `setCdbShort(6, allocationLength)` writes the allocation length into CDB bytes 6..7. | The default request (allocation length 48): a device reading the 32-bit ALLOCATION LENGTH in bytes 6..9 (section 6.21 of SPC-3) sees 3145728. | The 32-bit length in bytes 6..9. | not executed; high (the CDB layout is fixed by the standard) | `ReportLuns.NewReportLuns`, `ReportLuns.DefaultRequestAsksForMore` | `ReportLuns.NewReportLunsCorrected` |
| src/SCSI/SCSIReadCapacity.cpp:41-47 | The READ CAPACITY(16) constructor never calls `SetXferDir`, so the direction stays NONE. | `NewReadCapacity16()`: the transfer length the transport expects is 0, although the command returns up to 16 bytes. | Direction READ, as READ CAPACITY(10) sets it. | not executed; medium (depends on how libiscsi treats a NONE task that returns data) | `ReadCapacity.NewReadCapacity16`, `ReadCapacity.ReadCapacity16ExpectsNoData` | `ReadCapacity.NewReadCapacity16Corrected` |
| src/SCSI/SCSIPersistentReserveIn.cpp:58-59 | The WRITE EXCLUSIVE REGISTRANTS ONLY branch assigns WRITE EXCLUSIVE. | A READ RESERVATION response holding a reservation of type 5: the getter reports WRITE EXCLUSIVE. | Type 5 maps to WRITE EXCLUSIVE REGISTRANTS ONLY, as every other branch maps its code to itself. | not executed; medium (the collapse may be deliberate) | `PersistentReserveIn.GetReservationType`, `PersistentReserveIn.HeldReservationRoundTrip` | `PersistentReserveIn.GetReservationTypeCorrected` |
| src/SCSI/SCSIPersistentReserveOut.cpp:46 | `memcpy(mOutBuffer.get(), oldBuffer.get(), 24)` copies 24 bytes, whatever the old list's size. | `SCSIPersistentReserveOut(PR_REGISTER, 8)` followed by `SetTransportIdList(ids, n)`: 16 bytes are read past the end of the 8-byte list. | Copy at most the old list's bytes into the zeroed new list. Refuse a length whose sum with 24 does not fit 32 bits. | not executed; high (the constructor accepts any length) | `PersistentReserveOut.SetTransportIdList`, `PersistentReserveOut.ShortListOverReads` | `PersistentReserveOut.SetTransportIdListCorrected` |
| src/SCSI/SCSIPersistentReserveOut.cpp:48 | SPEC_I_PT is set with `SetOutBufferBool(20, 4, true)`, which is bit 4 of byte 20. | Any basic list with SPEC_I_PT clear, after SetTransportIdList: a reader of SPC-3 table 165 (SPEC_I_PT at bit 3) finds the flag still clear, and bit 4 is reserved. | Bit 3 of byte 20. | not executed; high (the bit position is fixed by the standard) | `PersistentReserveOut.SetTransportIdList`, `PersistentReserveOut.TransportIdsNotAnnounced` | `PersistentReserveOut.SetTransportIdListCorrected` |
