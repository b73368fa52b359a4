/** The video output handle (src/device/output/video.rs): one object serves both the
    scheduled and the synchronous API. It holds the shared device record, the callback
    context (null for the synchronous handle), the playback flag and the timescale that
    every scheduling call uses. */
module OutputVideo {
  import opened Common
  import opened SdkErrors
  import opened Sdk
  import opened OutputCallbacks
  import opened OutputDevices

  /** A frame handed to the binding (`DecklinkFrameBase`, `DecklinkFrameBase2`): its
      geometry, its raw pixel format and flag bits, and what `bytes()` (or `into_avec()`)
      returns. */
  datatype FrameSource = FrameSource(
    width: nat, height: nat, rowBytes: nat, pixelFormat: U32, flags: U32,
    bytes: Result<seq<Byte>>)

  /** `row_bytes * height`: the number of bytes copied into a driver frame. */
  function ByteCount(frame: FrameSource): nat {
    frame.rowBytes * frame.height
  }

  /** The refusal `schedule_frame_copy` (and, later in its run, `display_frame_copy`)
      makes on the frame's own bytes: the error of `bytes()`, or `INVALIDARG` when fewer
      than `row_bytes * height` bytes are present. */
  function CopyGuard(frame: FrameSource): (r: Option<SdkError>)
    ensures frame.bytes.Err? ==> r == Some(frame.bytes.error)
    ensures frame.bytes.Ok? ==>
      (r.None? <==> |frame.bytes.value| >= ByteCount(frame))
      && (r.Some? ==> r.value == InvalidArg)
  {
    match frame.bytes
    case Err(e) => Some(e)
    case Ok(data) => if |data| < ByteCount(frame) then Some(InvalidArg) else None
  }

  /** The refusal `display_custom_frame` makes on the bytes `into_avec()` returned:
      its error, or `INVALIDARG` when the buffer is shorter than `required` or when
      `required` is not a multiple of 64. */
  function CustomFrameGuard(required: nat, bytes: Result<seq<Byte>>): (r: Option<SdkError>)
    ensures bytes.Err? ==> r == Some(bytes.error)
    ensures bytes.Ok? ==>
      (r.None? <==> |bytes.value| >= required && required % 64 == 0)
      && (r.Some? ==> r.value == InvalidArg)
  {
    match bytes
    case Err(e) => Some(e)
    case Ok(data) =>
      if |data| < required then Some(InvalidArg)
      else if required % 64 != 0 then Some(InvalidArg)
      else None
  }

  /** The driver call `convert_decklink_frame_without_bytes` makes: the geometry is cast
      with `as i32`. */
  function CreateFrameCall(dev: Ptr, frame: FrameSource): Event {
    OutputCreateVideoFrame(dev, WrapI32(frame.width), WrapI32(frame.height),
      WrapI32(frame.rowBytes), frame.pixelFormat, frame.flags)
  }

  /** The driver call `display_custom_frame` makes: the geometry is cast with `as i64`. */
  function CreateCustomFrameCall(frame: FrameSource): Event {
    CustomVideoFrameCreate(WrapI64(frame.width), WrapI64(frame.height),
      WrapI64(frame.rowBytes), frame.pixelFormat, frame.flags)
  }

  /** A trace that grew by a creation call, a reference, calls that touch no reference
      of the frame, and the release has taken and released the frame once. */
  lemma ReleasedAfter(t0: seq<Event>, t: seq<Event>, create: Event, frame: Ptr, middle: seq<Event>)
    requires create.OutputCreateVideoFrame?
    requires VideoFrameAddRef(frame) !in middle && VideoFrameRelease(frame) !in middle
    requires t == t0 + [create, VideoFrameAddRef(frame)] + middle + [VideoFrameRelease(frame)]
    ensures TakenOnceReleasedLast(t[|t0|..], VideoFrameAddRef(frame), VideoFrameRelease(frame))
  {
    assert t[|t0|..] == [create] + [VideoFrameAddRef(frame)] + middle + [VideoFrameRelease(frame)];
    Enclosed([create], VideoFrameAddRef(frame), middle, VideoFrameRelease(frame));
  }

  /** The same for a custom frame, which is created already holding its reference. */
  lemma CustomReleasedAfter(t0: seq<Event>, t: seq<Event>, frame: FrameSource, p: Ptr, middle: seq<Event>)
    requires CreateCustomFrameCall(frame) !in middle && CustomVideoFrameRelease(p) !in middle
    requires t == t0 + [CreateCustomFrameCall(frame)] + middle + [CustomVideoFrameRelease(p)]
    ensures TakenOnceReleasedLast(t[|t0|..], CreateCustomFrameCall(frame), CustomVideoFrameRelease(p))
  {
    assert t[|t0|..] == [] + [CreateCustomFrameCall(frame)] + middle + [CustomVideoFrameRelease(p)];
    Enclosed([], CreateCustomFrameCall(frame), middle, CustomVideoFrameRelease(p));
  }

  /** `WrappedSdkFrame`: owns one reference to a driver frame. */
  class WrappedSdkFrame {
    const driver: Driver
    var ptr: Ptr

    constructor (driver: Driver, ptr: Ptr)
      ensures this.driver == driver && this.ptr == ptr
    {
      this.driver := driver;
      this.ptr := ptr;
    }

    /** `Drop`: give the reference back once, if there is one. */
    method Drop()
      modifies this, driver
      ensures ptr == Null
      ensures driver.trace == old(driver.trace)
        + (if old(ptr) != Null then [VideoFrameRelease(old(ptr))] else [])
      ensures driver.buffers == old(driver.buffers)
    {
      if ptr != Null {
        var _ := driver.Call(VideoFrameRelease(ptr));
        ptr := Null;
      }
    }
  }

  /** `WrappedCustomFrame`: owns one reference to a driver custom frame. */
  class WrappedCustomFrame {
    const driver: Driver
    var ptr: Ptr

    constructor (driver: Driver, ptr: Ptr)
      ensures this.driver == driver && this.ptr == ptr
    {
      this.driver := driver;
      this.ptr := ptr;
    }

    /** `Drop`: release the custom frame once, if there is one. */
    method Drop()
      modifies this, driver
      ensures ptr == Null
      ensures driver.trace == old(driver.trace)
        + (if old(ptr) != Null then [CustomVideoFrameRelease(old(ptr))] else [])
      ensures driver.buffers == old(driver.buffers)
    {
      if ptr != Null {
        var _ := driver.Call(CustomVideoFrameRelease(ptr));
        ptr := Null;
      }
    }
  }

  /** `DecklinkOutputDeviceVideoImpl`. */
  class VideoOutput {
    const device: OutputDevicePtr
    var callbackWrapper: CallbackWrapper?
    var scheduledRunning: bool
    const scheduledTimescale: I64

    /** `from`: a handle that is not playing. */
    constructor From(device: OutputDevicePtr, wrapper: CallbackWrapper?, timescale: I64)
      ensures this.device == device && callbackWrapper == wrapper
      ensures !scheduledRunning && scheduledTimescale == timescale
    {
      this.device := device;
      callbackWrapper := wrapper;
      scheduledRunning := false;
      scheduledTimescale := timescale;
    }

    /** `convert_decklink_frame_without_bytes`: create a driver frame with the source
        frame's geometry and take one reference to it. `status` and `created` are the
        driver's answers. */
    method ConvertFrameWithoutBytes(frame: FrameSource)
      returns (r: Result<WrappedSdkFrame>, ghost status: I32, ghost created: Ptr)
      modifies device.driver
      ensures !IsOk(status) ==> r == Err(FromCode(status))
      ensures IsOk(status) && created == Null ==> r == Err(Fail)
      ensures r.Ok? <==> IsOk(status) && created != Null
      ensures r.Ok? ==> fresh(r.value) && r.value.driver == device.driver && r.value.ptr == created
      ensures device.driver.trace == old(device.driver.trace) + [CreateFrameCall(device.dev, frame)]
        + (if r.Ok? then [VideoFrameAddRef(created)] else [])
      ensures device.driver.buffers == old(device.driver.buffers)
    {
      var s, c := device.driver.CallPtr(CreateFrameCall(device.dev, frame));
      status, created := s, c;
      if !IsOk(s) {
        return Err(FromCode(s)), status, created;
      }
      if c == Null {
        return Err(Fail), status, created;
      }
      var _ := device.driver.Call(VideoFrameAddRef(c));
      var w := new WrappedSdkFrame(device.driver, c);
      r := Ok(w);
    }

    /** `schedule_frame_copy`: check the frame's bytes, copy them into a fresh driver
        frame and schedule it with the stored timescale. `created` is the driver frame
        (null if none was made); `scheduled` says whether the schedule call was made and
        `dest` is the driver buffer the bytes went to. */
    method ScheduleFrameCopy(frame: FrameSource, displayTime: I64, duration: I64)
      returns (r: Result<()>, ghost created: Ptr, ghost scheduled: bool, ghost dest: Ptr)
      modifies device.driver
      ensures CopyGuard(frame).Some? ==>
        r == Err(CopyGuard(frame).value) && !scheduled
        && device.driver.trace == old(device.driver.trace)
        && device.driver.buffers == old(device.driver.buffers)
      ensures CopyGuard(frame).None? ==>
        |device.driver.trace| > |old(device.driver.trace)|
        && device.driver.trace[|old(device.driver.trace)|] == CreateFrameCall(device.dev, frame)
      ensures r.Ok? ==> scheduled
      ensures scheduled ==>
        created != Null && dest != Null
        && device.driver.trace == old(device.driver.trace) + [CreateFrameCall(device.dev, frame),
             VideoFrameAddRef(created), VideoFrameGetBytes(created),
             OutputScheduleVideoFrame(device.dev, created, displayTime, duration, scheduledTimescale),
             VideoFrameRelease(created)]
        && device.driver.buffers == old(device.driver.buffers)[dest := frame.bytes.value[..ByteCount(frame)]]
      ensures created != Null ==>
        TakenOnceReleasedLast(device.driver.trace[|old(device.driver.trace)|..],
          VideoFrameAddRef(created), VideoFrameRelease(created))
    {
      created, scheduled, dest := Null, false, Null;
      var guard := CopyGuard(frame);
      if guard.Some? {
        return Err(guard.value), created, scheduled, dest;
      }
      var data := frame.bytes.value[..ByteCount(frame)];
      r, created, scheduled, dest := CopyAndSchedule(frame, data, displayTime, duration);
    }

    /** The part of `schedule_frame_copy` after the byte-count guard. */
    method CopyAndSchedule(frame: FrameSource, data: seq<Byte>, displayTime: I64, duration: I64)
      returns (r: Result<()>, ghost created: Ptr, ghost scheduled: bool, ghost dest: Ptr)
      modifies device.driver
      ensures |device.driver.trace| > |old(device.driver.trace)|
        && device.driver.trace[|old(device.driver.trace)|] == CreateFrameCall(device.dev, frame)
      ensures r.Ok? ==> scheduled
      ensures scheduled ==>
        created != Null && dest != Null
        && device.driver.trace == old(device.driver.trace) + [CreateFrameCall(device.dev, frame),
             VideoFrameAddRef(created), VideoFrameGetBytes(created),
             OutputScheduleVideoFrame(device.dev, created, displayTime, duration, scheduledTimescale),
             VideoFrameRelease(created)]
        && device.driver.buffers == old(device.driver.buffers)[dest := data]
      ensures created != Null ==>
        TakenOnceReleasedLast(device.driver.trace[|old(device.driver.trace)|..],
          VideoFrameAddRef(created), VideoFrameRelease(created))
    {
      created, scheduled, dest := Null, false, Null;
      ghost var t0 := device.driver.trace;
      var converted;
      ghost var st, c;
      converted, st, c := ConvertFrameWithoutBytes(frame);
      if converted.Err? {
        r := Err(converted.error);
        return;
      }
      var wrapped := converted.value;
      created := wrapped.ptr;
      r, scheduled, dest := FillAndSchedule(wrapped, data, displayTime, duration);
      ReleasedAfter(t0, device.driver.trace, CreateFrameCall(device.dev, frame), created,
        [VideoFrameGetBytes(created)]
        + if scheduled
          then [OutputScheduleVideoFrame(device.dev, created, displayTime, duration, scheduledTimescale)]
          else []);
    }

    /** The part of `schedule_frame_copy` once the driver frame exists: fetch its buffer,
        refuse a failed or null answer, copy `data` in, schedule the frame, and give the
        reference back on every path. */
    method FillAndSchedule(wrapped: WrappedSdkFrame, data: seq<Byte>, displayTime: I64, duration: I64)
      returns (r: Result<()>, ghost scheduled: bool, ghost dest: Ptr)
      requires wrapped.driver == device.driver && wrapped.ptr != Null
      modifies wrapped, device.driver
      ensures r.Ok? ==> scheduled
      ensures var p := old(wrapped.ptr);
        device.driver.trace == old(device.driver.trace) + [VideoFrameGetBytes(p)]
          + (if scheduled
             then [OutputScheduleVideoFrame(device.dev, p, displayTime, duration, scheduledTimescale)]
             else [])
          + [VideoFrameRelease(p)]
      ensures scheduled ==> dest != Null && device.driver.buffers == old(device.driver.buffers)[dest := data]
      ensures !scheduled ==> device.driver.buffers == old(device.driver.buffers)
    {
      var p := wrapped.ptr;
      scheduled, dest := false, Null;
      var status, bytesPtr := device.driver.CallPtr(VideoFrameGetBytes(p));
      if !IsOk(status) || bytesPtr == Null {
        wrapped.Drop();
        r := if !IsOk(status) then Err(FromCode(status)) else Err(Fail);
        return;
      }
      device.driver.Write(bytesPtr, data);
      dest := bytesPtr;
      var s := device.driver.Call(
        OutputScheduleVideoFrame(device.dev, p, displayTime, duration, scheduledTimescale));
      scheduled := true;
      wrapped.Drop();
      r := CheckStatus(s);
    }

    /** `display_frame_copy`: create a driver frame first, then fetch its buffer, check
        the source bytes and copy them, and display the frame synchronously. Unlike the
        scheduled copy, the bytes are checked only after the driver frame exists, and a
        null buffer pointer is not refused. */
    method DisplayFrameCopy(frame: FrameSource)
      returns (r: Result<()>, ghost created: Ptr, ghost displayed: bool, ghost dest: Ptr)
      modifies device.driver
      ensures |device.driver.trace| > |old(device.driver.trace)|
        && device.driver.trace[|old(device.driver.trace)|] == CreateFrameCall(device.dev, frame)
      ensures r.Ok? ==> displayed
      ensures CopyGuard(frame).Some? ==> r.Err? && !displayed
      ensures displayed ==>
        created != Null && CopyGuard(frame).None?
        && device.driver.trace == old(device.driver.trace) + [CreateFrameCall(device.dev, frame),
             VideoFrameAddRef(created), VideoFrameGetBytes(created),
             OutputDisplayVideoFrameSync(device.dev, created), VideoFrameRelease(created)]
        && device.driver.buffers == old(device.driver.buffers)[dest := frame.bytes.value[..ByteCount(frame)]]
      ensures created != Null ==>
        TakenOnceReleasedLast(device.driver.trace[|old(device.driver.trace)|..],
          VideoFrameAddRef(created), VideoFrameRelease(created))
    {
      created, displayed, dest := Null, false, Null;
      ghost var t0 := device.driver.trace;
      var converted;
      ghost var st, c;
      converted, st, c := ConvertFrameWithoutBytes(frame);
      if converted.Err? {
        r := Err(converted.error);
        return;
      }
      var wrapped := converted.value;
      created := wrapped.ptr;
      r, displayed, dest := FillAndDisplay(frame, wrapped);
      ReleasedAfter(t0, device.driver.trace, CreateFrameCall(device.dev, frame), created,
        [VideoFrameGetBytes(created)]
        + if displayed then [OutputDisplayVideoFrameSync(device.dev, created)] else []);
    }

    /** The part of `display_frame_copy` once the driver frame exists: fetch its buffer,
        check the source bytes, copy them in, display the frame, and give the reference
        back on every path. */
    method FillAndDisplay(frame: FrameSource, wrapped: WrappedSdkFrame)
      returns (r: Result<()>, ghost displayed: bool, ghost dest: Ptr)
      requires wrapped.driver == device.driver && wrapped.ptr != Null
      modifies wrapped, device.driver
      ensures r.Ok? ==> displayed
      ensures CopyGuard(frame).Some? ==> r.Err? && !displayed
      ensures var p := old(wrapped.ptr);
        device.driver.trace == old(device.driver.trace) + [VideoFrameGetBytes(p)]
          + (if displayed then [OutputDisplayVideoFrameSync(device.dev, p)] else [])
          + [VideoFrameRelease(p)]
      ensures displayed ==>
        CopyGuard(frame).None?
        && device.driver.buffers == old(device.driver.buffers)[dest := frame.bytes.value[..ByteCount(frame)]]
      ensures !displayed ==> device.driver.buffers == old(device.driver.buffers)
    {
      var p := wrapped.ptr;
      displayed, dest := false, Null;
      var status, bytesPtr := device.driver.CallPtr(VideoFrameGetBytes(p));
      var guard := CopyGuard(frame);
      if !IsOk(status) || guard.Some? {
        wrapped.Drop();
        r := if !IsOk(status) then Err(FromCode(status)) else Err(guard.value);
        return;
      }
      device.driver.Write(bytesPtr, frame.bytes.value[..ByteCount(frame)]);
      dest := bytesPtr;
      var s := device.driver.Call(OutputDisplayVideoFrameSync(device.dev, p));
      displayed := true;
      wrapped.Drop();
      r := CheckStatus(s);
    }

    /** `display_custom_frame`: create a driver custom frame, check the frame's own
        buffer, hand the whole buffer to the driver and display the frame synchronously.
        `createStatus` and `created` are the driver's answers to the creation call. */
    method DisplayCustomFrame(frame: FrameSource)
      returns (r: Result<()>, ghost createStatus: I32, ghost created: Ptr, ghost displayed: bool)
      modifies device.driver
      ensures !IsOk(createStatus) ==> r == Err(FromCode(createStatus)) && !displayed
      ensures IsOk(createStatus) && created == Null ==> r == Err(Fail) && !displayed
      ensures IsOk(createStatus) && created != Null ==>
        var guard := CustomFrameGuard(ByteCount(frame), frame.bytes);
        (displayed <==> guard.None?) && (guard.Some? ==> r == Err(guard.value))
      ensures r.Ok? ==> displayed
      ensures displayed ==> created != Null && frame.bytes.Ok?
      ensures device.driver.trace == old(device.driver.trace) + [CreateCustomFrameCall(frame)]
        + (if displayed then [CustomVideoFrameSetBytes(created, frame.bytes.value),
                              OutputDisplayVideoFrameSync(device.dev, created)] else [])
        + (if created != Null then [CustomVideoFrameRelease(created)] else [])
      ensures created != Null ==>
        TakenOnceReleasedLast(device.driver.trace[|old(device.driver.trace)|..],
          CreateCustomFrameCall(frame), CustomVideoFrameRelease(created))
      ensures device.driver.buffers == old(device.driver.buffers)
    {
      ghost var t0 := device.driver.trace;
      var status, p := device.driver.CallPtr(CreateCustomFrameCall(frame));
      createStatus, created, displayed := status, p, false;
      var wrapped := new WrappedCustomFrame(device.driver, p);
      if !IsOk(status) || p == Null {
        r := DropRefusedCustomFrame(frame, wrapped, status, t0);
        return;
      }
      r, displayed := ShowCustomFrame(frame, wrapped, t0);
    }

    /** The refusal path of `display_custom_frame`: the driver's error, or `FAIL` for a
        null frame, after dropping whatever frame there is. */
    method DropRefusedCustomFrame(frame: FrameSource, wrapped: WrappedCustomFrame, status: I32, ghost t0: seq<Event>)
      returns (r: Result<()>)
      requires wrapped.driver == device.driver
      requires !IsOk(status) || wrapped.ptr == Null
      requires device.driver.trace == t0 + [CreateCustomFrameCall(frame)]
      modifies wrapped, device.driver
      ensures r == if !IsOk(status) then Err(FromCode(status)) else Err(Fail)
      ensures device.driver.trace == old(device.driver.trace)
        + (if old(wrapped.ptr) != Null then [CustomVideoFrameRelease(old(wrapped.ptr))] else [])
      ensures old(wrapped.ptr) != Null ==>
        TakenOnceReleasedLast(device.driver.trace[|t0|..], CreateCustomFrameCall(frame),
          CustomVideoFrameRelease(old(wrapped.ptr)))
      ensures device.driver.buffers == old(device.driver.buffers)
    {
      var p := wrapped.ptr;
      wrapped.Drop();
      if p != Null {
        CustomReleasedAfter(t0, device.driver.trace, frame, p, []);
      }
      r := if !IsOk(status) then Err(FromCode(status)) else Err(Fail);
    }

    /** The part of `display_custom_frame` after a custom frame exists: check the
        frame's buffer, hand it to the driver whole, display the frame, and release it on
        every path. */
    method ShowCustomFrame(frame: FrameSource, wrapped: WrappedCustomFrame, ghost t0: seq<Event>)
      returns (r: Result<()>, ghost displayed: bool)
      requires wrapped.driver == device.driver && wrapped.ptr != Null
      requires device.driver.trace == t0 + [CreateCustomFrameCall(frame)]
      modifies wrapped, device.driver
      ensures var guard := CustomFrameGuard(ByteCount(frame), frame.bytes);
        (displayed <==> guard.None?) && (guard.Some? ==> r == Err(guard.value))
      ensures r.Ok? ==> displayed
      ensures var p := old(wrapped.ptr);
        device.driver.trace == old(device.driver.trace)
          + (if displayed then [CustomVideoFrameSetBytes(p, frame.bytes.value),
                                OutputDisplayVideoFrameSync(device.dev, p)] else [])
          + [CustomVideoFrameRelease(p)]
      ensures TakenOnceReleasedLast(device.driver.trace[|t0|..], CreateCustomFrameCall(frame),
        CustomVideoFrameRelease(old(wrapped.ptr)))
      ensures device.driver.buffers == old(device.driver.buffers)
    {
      var p := wrapped.ptr;
      displayed := false;
      var guard := CustomFrameGuard(ByteCount(frame), frame.bytes);
      if guard.Some? {
        wrapped.Drop();
        CustomReleasedAfter(t0, device.driver.trace, frame, p, []);
        r := Err(guard.value);
        return;
      }
      var _ := device.driver.Call(CustomVideoFrameSetBytes(p, frame.bytes.value));
      var s := device.driver.Call(OutputDisplayVideoFrameSync(device.dev, p));
      displayed := true;
      wrapped.Drop();
      CustomReleasedAfter(t0, device.driver.trace, frame, p,
        [CustomVideoFrameSetBytes(p, frame.bytes.value), OutputDisplayVideoFrameSync(device.dev, p)]);
      r := CheckStatus(s);
    }

    /** `set_callback`: install `handler` in the callback context; the synchronous handle
        has none and refuses with `HANDLE`. Nothing but the handler changes. */
    method SetCallback(handler: Option<OutputHandler>) returns (r: Result<()>)
      modifies callbackWrapper
      ensures callbackWrapper == null ==> r == Err(Handle)
      ensures callbackWrapper != null ==> r == Ok(()) && callbackWrapper.handler == handler
    {
      if callbackWrapper == null {
        r := Err(Handle);
      } else {
        callbackWrapper.handler := handler;
        r := Ok(());
      }
    }

    /** `buffered_video_frame_count`: the driver's count on success. */
    method BufferedVideoFrameCount() returns (r: Result<U32>, ghost status: I32, ghost count: U32)
      modifies device.driver
      ensures r == CheckStatusOr(status, count)
      ensures device.driver.trace == old(device.driver.trace) + [OutputGetBufferedVideoFrameCount(device.dev)]
      ensures device.driver.buffers == old(device.driver.buffers)
    {
      var s, n := device.driver.CallU32(OutputGetBufferedVideoFrameCount(device.dev));
      status, count := s, n;
      r := CheckStatusOr(s, n);
    }

    /** `start_playback`: a no-op while playing; otherwise the flag is raised before the
        driver is asked to start and stays raised whatever the driver answers. The speed
        argument is passed through unchanged and is not modelled. */
    method StartPlayback(startTime: I64) returns (r: Result<()>, ghost status: I32)
      modifies this`scheduledRunning, device.driver
      ensures scheduledRunning
      ensures old(scheduledRunning) ==>
        r == Ok(()) && device.driver.trace == old(device.driver.trace)
      ensures !old(scheduledRunning) ==>
        r == CheckStatus(status)
        && device.driver.trace == old(device.driver.trace)
           + [OutputStartScheduledPlayback(device.dev, startTime, scheduledTimescale)]
      ensures device.driver.buffers == old(device.driver.buffers)
    {
      status := 0;
      if scheduledRunning {
        r := Ok(());
      } else {
        scheduledRunning := true;
        var s := device.driver.Call(OutputStartScheduledPlayback(device.dev, startTime, scheduledTimescale));
        status := s;
        r := CheckStatus(s);
      }
    }

    /** `stop_playback`: `FALSE` with no driver call while not playing; otherwise the flag
        is lowered before the driver is asked to stop, and on success the result is the
        stop time the driver reports. */
    method StopPlayback(stopTime: I64) returns (r: Result<I64>, ghost status: I32, ghost actual: I64)
      modifies this`scheduledRunning, device.driver
      ensures !scheduledRunning
      ensures !old(scheduledRunning) ==>
        r == Err(False) && device.driver.trace == old(device.driver.trace)
      ensures old(scheduledRunning) ==>
        r == CheckStatusOr(status, actual)
        && device.driver.trace == old(device.driver.trace)
           + [OutputStopScheduledPlayback(device.dev, stopTime, scheduledTimescale)]
      ensures device.driver.buffers == old(device.driver.buffers)
    {
      status, actual := 0, 0;
      if scheduledRunning {
        scheduledRunning := false;
        var s, t := device.driver.CallInt(OutputStopScheduledPlayback(device.dev, stopTime, scheduledTimescale));
        status, actual := s, t;
        r := CheckStatusOr(s, t);
      } else {
        r := Err(False);
      }
    }

    /** `Drop`: stop playback if it is running, disable video output, release the video
        gate, and free the callback context if there is one. The audio gate is untouched. */
    method Drop()
      modifies this`callbackWrapper, device`videoActive, device.driver
      ensures callbackWrapper == null && !device.videoActive
      ensures device.driver.trace == old(device.driver.trace)
        + (if old(scheduledRunning)
           then [OutputStopScheduledPlayback(device.dev, 0, scheduledTimescale)] else [])
        + [OutputDisableVideoOutput(device.dev), ClearVideoActive(device.dev)]
        + (if old(callbackWrapper) != null then [Free(old(callbackWrapper))] else [])
      ensures device.driver.buffers == old(device.driver.buffers)
    {
      if scheduledRunning {
        var _, _ := device.driver.CallInt(OutputStopScheduledPlayback(device.dev, 0, scheduledTimescale));
      }
      var _ := device.driver.Call(OutputDisableVideoOutput(device.dev));
      device.videoActive := false;
      device.driver.Note(ClearVideoActive(device.dev));
      if callbackWrapper != null {
        FreeCallbackWrapper(device.driver, callbackWrapper);
        callbackWrapper := null;
      }
    }
  }
}
