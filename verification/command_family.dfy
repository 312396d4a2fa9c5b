/**
 The command family as the transport sees it. When a request is submitted
 the transport announces an expected transfer length chosen by the
 request's direction. A command that allocates a buffer for its data is
 only served if its direction selects that buffer, so the length announced
 is the buffer's declared size.
 */
module CommandFamily {
  import opened ScsiBase
  import opened ScsiRequest
  import Inquiry
  import DeviceIdVpd
  import ReportLuns
  import Read10
  import ReadCapacity
  import Reserve6
  import Release6
  import TestUnitReady
  import PersistentReserveIn
  import PersistentReserveOut

  /**
   The transport serves the request's buffers: an inbound buffer is read
   into with its declared size announced, an outbound buffer is sent with
   its declared size announced, and a request without buffers moves no data.
   */
  predicate AnnouncesItsBuffers(r: Request)
  {
    && (r.inBuffer.Some? ==> r.xferDir == XferRead && ExpectedTransferLength(r) == r.inBufferSize)
    && (r.outBuffer.Some? ==> r.xferDir == XferWrite && ExpectedTransferLength(r) == r.outBufferSize)
    && (r.inBuffer.None? && r.outBuffer.None? ==> ExpectedTransferLength(r) == 0)
  }

  /** INQUIRY and each of its VPD page requests announce the buffer they allocate, for every size. */
  lemma InquiryCommandsAnnounceTheirBuffer(allocationLength: u32, pageSize: u32)
    ensures AnnouncesItsBuffers(Inquiry.NewInquiry(allocationLength).req)
    ensures AnnouncesItsBuffers(Inquiry.NewStandardInquiry().req)
    ensures AnnouncesItsBuffers(Inquiry.NewSupportedVpdPages().inq.req)
    ensures AnnouncesItsBuffers(Inquiry.NewUnitSerialPage(pageSize).inq.req)
    ensures AnnouncesItsBuffers(DeviceIdVpd.NewDeviceIdPage(pageSize).inq.req)
  {
  }

  /**
   REPORT LUNS, READ(10), READ CAPACITY(10) and PERSISTENT RESERVE IN
   announce the buffer they allocate for their response, for every length.
   */
  lemma ReadCommandsAnnounceTheirBuffer(length: u32, buffer: Option<seq<byte>>,
                                        action: PersistentReserveIn.ServiceAction)
    requires buffer.Some? ==> length <= |buffer.value|
    ensures AnnouncesItsBuffers(ReportLuns.NewReportLuns(length))
    ensures AnnouncesItsBuffers(Read10.NewRead10(length, buffer).req)
    ensures AnnouncesItsBuffers(ReadCapacity.NewReadCapacity10())
    ensures AnnouncesItsBuffers(PersistentReserveIn.NewPrIn(action, length).req)
  {
  }

  /**
   The commands without data announce nothing, and PERSISTENT RESERVE OUT
   in both list layouts announces the size of its parameter list.
   */
  lemma OtherCommandsAnnounceTheirBuffer(action: PersistentReserveOut.ServiceAction, length: u32,
                                         transportId: seq<byte>)
    ensures AnnouncesItsBuffers(Reserve6.NewReserve6())
    ensures AnnouncesItsBuffers(Release6.NewRelease6())
    ensures AnnouncesItsBuffers(TestUnitReady.NewTestUnitReady())
    ensures AnnouncesItsBuffers(PersistentReserveOut.NewPrOut(action, length).req)
    ensures PersistentReserveOut.NewRegisterAndMove(transportId).Ok? ==>
              AnnouncesItsBuffers(PersistentReserveOut.NewRegisterAndMove(transportId).value.req)
  {
  }

  /**
   READ CAPACITY(16) is the exception: it allocates 16 bytes for its
   response but leaves the direction NONE, so the transport expects no
   data. The corrected constructor announces its buffer like the rest.
   */
  lemma ReadCapacity16IsTheException()
    ensures !AnnouncesItsBuffers(ReadCapacity.NewReadCapacity16())
    ensures AnnouncesItsBuffers(ReadCapacity.NewReadCapacity16Corrected())
  {
  }
}
