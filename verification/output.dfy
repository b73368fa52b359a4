/** An output device (src/device/output/mod.rs): the exclusivity gate on video and audio
    output, the handles it hands out, display-mode queries and frame creation. */
module Output {
  import opened Common
  import opened SdkErrors
  import opened Sdk
  import opened Enums
  import opened Iteration
  import opened Frames
  import opened DisplayModes
  import opened OutputCallbacks
  import opened OutputDevices
  import opened OutputVideo
  import opened OutputAudio

  /** The timescale of the synchronous video handle. */
  const SyncTimescale: I64 := 1000

  class OutputDevice {
    const ptr: OutputDevicePtr

    /** `wrap_device_output`: a fresh shared record with both gates open. */
    constructor (driver: Driver, dev: Ptr)
      ensures fresh(ptr) && ptr.driver == driver && ptr.dev == dev
      ensures !ptr.videoActive && !ptr.audioActive
    {
      ptr := new OutputDevicePtr(driver, dev);
    }

    /** `does_support_video_mode`: the driver's answer passed through `SupportResult`, with
        a fresh display-mode wrapper for the mode it names. */
    method DoesSupportVideoMode(mode: U32, pixelFormat: U32, flags: U32, table: map<int, DisplayModeSupport>)
      returns (r: Result<(DisplayModeSupport, Option<DisplayMode>)>,
               ghost status: I32, ghost supported: U32, ghost displayMode: Ptr)
      modifies ptr.driver
      ensures r.Ok? <==> IsOk(status)
      ensures r.Err? ==> r.error == FromCode(status)
      ensures r.Ok? ==> var s := SupportResult(supported, displayMode, table);
        r.value.0 == s.0 && (r.value.1.None? <==> s.1.None?)
        && (r.value.1.Some? ==> fresh(r.value.1.value) && r.value.1.value.mode == displayMode)
      ensures ptr.driver.trace == old(ptr.driver.trace)
        + [OutputDoesSupportVideoMode(ptr.dev, mode, pixelFormat, flags)]
      ensures ptr.driver.buffers == old(ptr.driver.buffers)
    {
      var st, sup, dm := ptr.driver.CallU32Ptr(OutputDoesSupportVideoMode(ptr.dev, mode, pixelFormat, flags));
      status, supported, displayMode := st, sup, dm;
      if !IsOk(st) {
        r := Err(FromCode(st));
      } else {
        var s := SupportResult(sup, dm, table);
        if s.1.None? {
          r := Ok((s.0, None));
        } else {
          var m := new DisplayMode(dm);
          r := Ok((s.0, Some(m)));
        }
      }
    }

    /** `display_modes`: on `S_OK` from the iterator query, drain the iterator and release
        it once whatever the drain returned; otherwise return the query's error. */
    method GetDisplayModes(answers: seq<Answer>)
      returns (r: Result<seq<DisplayMode>>, ghost status: I32, ghost it: Ptr)
      modifies ptr.driver
      ensures !IsOk(status) ==>
        r == Err(FromCode(status))
        && ptr.driver.trace == old(ptr.driver.trace) + [OutputGetDisplayModeIterator(ptr.dev)]
      ensures IsOk(status) ==> var d := Drain(answers, false);
        ptr.driver.trace == old(ptr.driver.trace) + [OutputGetDisplayModeIterator(ptr.dev)]
          + Repeat(NextDisplayMode(it), KeptPrefix(answers, false) + 1)
          + [DisplayModeIteratorRelease(it)]
        && (r.Err? <==> d.Err?) && (r.Err? ==> r.error == d.error)
        && (r.Ok? ==> |r.value| == |d.value|
                      && forall i :: 0 <= i < |d.value| ==> r.value[i].mode == d.value[i])
      ensures ptr.driver.buffers == old(ptr.driver.buffers)
    {
      var st, p := ptr.driver.CallPtr(OutputGetDisplayModeIterator(ptr.dev));
      status, it := st, p;
      if IsOk(st) {
        r := IterateDisplayModes(ptr.driver, p, answers);
        var _ := ptr.driver.Call(DisplayModeIteratorRelease(p));
      } else {
        r := Err(FromCode(st));
      }
    }

    /** `enable_video_output_inner`: close the video gate; if it was already closed answer
        `ACCESSDENIED` without asking the driver, otherwise answer the driver's status. The
        gate stays closed even when the driver refuses. */
    method EnableVideoOutputInner(mode: U32, flags: U32) returns (status: I32)
      modifies ptr`videoActive, ptr.driver
      ensures ptr.videoActive
      ensures old(ptr.videoActive) ==>
        status == Code(AccessDenied) && ptr.driver.trace == old(ptr.driver.trace)
      ensures !old(ptr.videoActive) ==>
        ptr.driver.trace == old(ptr.driver.trace) + [OutputEnableVideoOutput(ptr.dev, mode, flags)]
      ensures ptr.driver.buffers == old(ptr.driver.buffers)
    {
      var was := ptr.videoActive;
      ptr.videoActive := true;
      if was {
        status := Code(AccessDenied);
      } else {
        status := ptr.driver.Call(OutputEnableVideoOutput(ptr.dev, mode, flags));
      }
    }

    /** `is_scheduled_playback_running`: the driver's answer on success. */
    method IsScheduledPlaybackRunning() returns (r: Result<bool>, ghost status: I32, ghost running: bool)
      modifies ptr.driver
      ensures r == CheckStatusOr(status, running)
      ensures ptr.driver.trace == old(ptr.driver.trace) + [OutputIsScheduledPlaybackRunning(ptr.dev)]
      ensures ptr.driver.buffers == old(ptr.driver.buffers)
    {
      var s, b := ptr.driver.CallBool(OutputIsScheduledPlaybackRunning(ptr.dev));
      status, running := s, b;
      r := CheckStatusOr(s, b);
    }

    /** `enable_video_output_scheduled`: register a callback context first; a refused
        registration is returned with the gate untouched. Then pass the gate; on success
        the handle owns the context, carries `timescale` and is not playing. When the
        gate or the driver refuses, the registered context is neither unregistered nor
        freed. `status` is the registration's answer, `enableStatus` the enable call's. */
    method EnableVideoOutputScheduled(mode: U32, flags: U32, timescale: I64)
      returns (r: Result<VideoOutput>, ghost wrapper: CallbackWrapper, ghost status: I32,
               ghost enableStatus: I32)
      modifies ptr`videoActive, ptr.driver
      ensures fresh(wrapper) && wrapper.handler == None
      ensures var registered := old(ptr.driver.trace)
          + [Alloc(wrapper), OutputSetScheduledFrameCompletionCallback(ptr.dev, wrapper)];
        if !IsOk(status) then
          r == Err(FromCode(status)) && ptr.videoActive == old(ptr.videoActive)
          && ptr.driver.trace == registered + [Free(wrapper)]
        else
          ptr.videoActive
          && (old(ptr.videoActive) ==> r == Err(AccessDenied) && ptr.driver.trace == registered)
          && (!old(ptr.videoActive) ==>
                ptr.driver.trace == registered + [OutputEnableVideoOutput(ptr.dev, mode, flags)]
                && (r.Ok? <==> IsOk(enableStatus)) && (r.Err? ==> r.error == FromCode(enableStatus)))
      ensures r.Ok? ==>
        fresh(r.value) && r.value.device == ptr && r.value.callbackWrapper == wrapper
        && !r.value.scheduledRunning && r.value.scheduledTimescale == timescale
      ensures ptr.driver.buffers == old(ptr.driver.buffers)
    {
      var reg, w, s := RegisterCallback(ptr.driver, ptr.dev);
      wrapper := w;
      status, enableStatus := s, 0;
      if reg.Err? {
        r := Err(reg.error);
      } else {
        var enabled := EnableVideoOutputInner(mode, flags);
        enableStatus := enabled;
        CheckStatusOfCode(AccessDenied);
        if IsOk(enabled) {
          var v := new VideoOutput.From(ptr, reg.value, timescale);
          r := Ok(v);
        } else {
          r := Err(FromCode(enabled));
        }
      }
    }

    /** `enable_video_output_sync`: pass the gate; on success the handle has no callback
        context and the fixed timescale 1000. */
    method EnableVideoOutputSync(mode: U32, flags: U32) returns (r: Result<VideoOutput>, ghost status: I32)
      modifies ptr`videoActive, ptr.driver
      ensures ptr.videoActive
      ensures old(ptr.videoActive) ==> r == Err(AccessDenied) && ptr.driver.trace == old(ptr.driver.trace)
      ensures !old(ptr.videoActive) ==>
        ptr.driver.trace == old(ptr.driver.trace) + [OutputEnableVideoOutput(ptr.dev, mode, flags)]
        && (r.Ok? <==> IsOk(status)) && (r.Err? ==> r.error == FromCode(status))
      ensures r.Ok? ==>
        fresh(r.value) && r.value.device == ptr && r.value.callbackWrapper == null
        && !r.value.scheduledRunning && r.value.scheduledTimescale == SyncTimescale
      ensures ptr.driver.buffers == old(ptr.driver.buffers)
    {
      var enabled := EnableVideoOutputInner(mode, flags);
      status := enabled;
      CheckStatusOfCode(AccessDenied);
      if IsOk(enabled) {
        var v := new VideoOutput.From(ptr, null, SyncTimescale);
        r := Ok(v);
      } else {
        r := Err(FromCode(enabled));
      }
    }

    /** `create_video_frame`: on `S_OK` the new driver frame is wrapped as a mutable frame
        whose base is a child view. */
    method CreateVideoFrame(width: I32, height: I32, rowBytes: I32, pixelFormat: U32, flags: U32)
      returns (r: Result<MutableFrame>, ghost status: I32, ghost frame: Ptr)
      modifies ptr.driver
      ensures r.Ok? <==> IsOk(status)
      ensures r.Err? ==>
        r.error == FromCode(status)
        && ptr.driver.trace == old(ptr.driver.trace)
           + [OutputCreateVideoFrame(ptr.dev, width, height, rowBytes, pixelFormat, flags)]
      ensures r.Ok? ==>
        fresh(r.value) && fresh(r.value.base) && r.value.frame == frame
        && r.value.base.isChild && r.value.base.driver == ptr.driver
        && ptr.driver.trace == old(ptr.driver.trace)
           + [OutputCreateVideoFrame(ptr.dev, width, height, rowBytes, pixelFormat, flags),
              VideoMutableFrameBase(frame)]
      ensures ptr.driver.buffers == old(ptr.driver.buffers)
    {
      var s, f := ptr.driver.CallPtr(OutputCreateVideoFrame(ptr.dev, width, height, rowBytes, pixelFormat, flags));
      status, frame := s, f;
      if IsOk(s) {
        var m, _ := WrapMutableFrame(ptr.driver, f);
        r := Ok(m);
      } else {
        r := Err(FromCode(s));
      }
    }

    /** `enable_audio_output`: the same gate on audio, independent of the video gate; the
        driver is asked for 48 kHz audio of the given sample type, channel count and stream
        type. */
    method EnableAudioOutput(sampleType: U32, channels: U32, streamType: U32)
      returns (r: Result<AudioOutput>, ghost status: I32)
      modifies ptr`audioActive, ptr.driver
      ensures ptr.audioActive && ptr.videoActive == old(ptr.videoActive)
      ensures old(ptr.audioActive) ==> r == Err(AccessDenied) && ptr.driver.trace == old(ptr.driver.trace)
      ensures !old(ptr.audioActive) ==>
        ptr.driver.trace == old(ptr.driver.trace)
          + [OutputEnableAudioOutput(ptr.dev, SampleRate48kHz, sampleType, channels, streamType)]
        && (r.Ok? <==> IsOk(status)) && (r.Err? ==> r.error == FromCode(status))
      ensures r.Ok? ==> fresh(r.value) && r.value.device == ptr
      ensures ptr.driver.buffers == old(ptr.driver.buffers)
    {
      status := 0;
      var was := ptr.audioActive;
      ptr.audioActive := true;
      if was {
        r := Err(AccessDenied);
      } else {
        var s := ptr.driver.Call(OutputEnableAudioOutput(ptr.dev, SampleRate48kHz, sampleType, channels, streamType));
        status := s;
        if IsOk(s) {
          var a := new AudioOutput(ptr);
          r := Ok(a);
        } else {
          r := Err(FromCode(s));
        }
      }
    }
  }
}
