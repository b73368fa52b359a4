/** A capture device (src/device/input/mod.rs): enable flags for video and audio, the
    stream state machine, the audio layout recorded when audio is enabled, and the callback
    context. Each flag or state change is a pure transition, and the methods are proved
    against those transitions; the lemmas say what whole call sequences do. */
module InputDevices {
  import opened Common
  import opened SdkErrors
  import opened Sdk
  import opened Enums
  import opened Iteration
  import opened DisplayModes
  import opened InputAudio
  import opened InputCallbacks

  // ---- enable flags ----

  /** An enable or disable call on a capture flag, with the status the driver answers
      (meaningless when the call does not reach the driver). */
  datatype GateCall = EnableCall(status: I32) | DisableCall(status: I32)

  /** The video flag after a call: `enable_video_input` always asks the driver and sets the
      flag on `S_OK`; `disable_video_input` asks only when the flag is set and clears it on
      `S_OK`. A refused call leaves the flag alone. */
  function GateAfter(enabled: bool, call: GateCall): (e: bool)
    ensures !IsOk(call.status) ==> e == enabled
    ensures IsOk(call.status) ==> e == call.EnableCall?
  {
    match call
    case EnableCall(status) => enabled || IsOk(status)
    case DisableCall(status) => enabled && !IsOk(status)
  }

  /** The flag after a sequence of calls, oldest first. */
  function RunGate(enabled: bool, calls: seq<GateCall>): bool
    decreases |calls|
  {
    if |calls| == 0 then enabled
    else GateAfter(RunGate(enabled, calls[..|calls| - 1]), calls[|calls| - 1])
  }

  /** Whether the last call in `calls` that the driver accepted was an enable; `None` when
      it accepted none. */
  function LastAccepted(calls: seq<GateCall>): (r: Option<bool>)
    ensures r.None? <==> forall i :: 0 <= i < |calls| ==> !IsOk(calls[i].status)
    decreases |calls|
  {
    if |calls| == 0 then None
    else if IsOk(calls[|calls| - 1].status) then Some(calls[|calls| - 1].EnableCall?)
    else LastAccepted(calls[..|calls| - 1])
  }

  /** The flag is decided by the last accepted call alone; with no accepted call it keeps
      its initial value. */
  lemma {:induction false} GateFollowsLastAccepted(enabled: bool, calls: seq<GateCall>)
    ensures RunGate(enabled, calls) == LastAccepted(calls).UnwrapOr(enabled)
    decreases |calls|
  {
    if |calls| > 0 {
      GateFollowsLastAccepted(enabled, calls[..|calls| - 1]);
    }
  }

  // ---- audio layout ----

  /** `audio_enabled`, `audio_channel_count` and `audio_sample_depth` together. */
  datatype AudioConfig = AudioConfig(enabled: bool, channels: U32, depth: U32)

  /** An audio enable call (sample type as its raw value, channel count) or disable call,
      with the driver's status. */
  datatype AudioCall =
    | EnableAudio(sampleType: U32, channelCount: U32, status: I32)
    | DisableAudio(status: I32)

  /** `enable_audio_input`: a no-op while enabled; otherwise, on `S_OK`, audio is enabled
      with the requested channel count and the sample type's raw value as depth. */
  function AfterEnableAudio(c: AudioConfig, sampleType: U32, channelCount: U32, status: I32)
    : (d: AudioConfig)
    ensures c.enabled || !IsOk(status) ==> d == c
    ensures !c.enabled && IsOk(status) ==> d == AudioConfig(true, channelCount, sampleType)
  {
    if c.enabled || !IsOk(status) then c else AudioConfig(true, channelCount, sampleType)
  }

  /** `disable_audio_input` as written: when enabled and the driver accepts the disable,
      the flag is assigned `true`, so the configuration never changes. */
  function AfterDisableAudioAsWritten(c: AudioConfig, status: I32): AudioConfig {
    if !c.enabled then c
    else if IsOk(status) then c.(enabled := true)
    else c
  }

  /** `disable_audio_input` as evidently intended: an accepted disable clears the flag and
      keeps the layout; anything else changes nothing. */
  function AfterDisableAudio(c: AudioConfig, status: I32): (d: AudioConfig)
    ensures d.channels == c.channels && d.depth == c.depth
    ensures d.enabled <==> c.enabled && !IsOk(status)
  {
    if c.enabled && IsOk(status) then c.(enabled := false) else c
  }

  function AudioAfter(c: AudioConfig, call: AudioCall): AudioConfig {
    match call
    case EnableAudio(st, ch, status) => AfterEnableAudio(c, st, ch, status)
    case DisableAudio(status) => AfterDisableAudio(c, status)
  }

  function AudioAfterAsWritten(c: AudioConfig, call: AudioCall): AudioConfig {
    match call
    case EnableAudio(st, ch, status) => AfterEnableAudio(c, st, ch, status)
    case DisableAudio(status) => AfterDisableAudioAsWritten(c, status)
  }

  function RunAudio(c: AudioConfig, calls: seq<AudioCall>): AudioConfig
    decreases |calls|
  {
    if |calls| == 0 then c
    else AudioAfter(RunAudio(c, calls[..|calls| - 1]), calls[|calls| - 1])
  }

  function RunAudioAsWritten(c: AudioConfig, calls: seq<AudioCall>): AudioConfig
    decreases |calls|
  {
    if |calls| == 0 then c
    else AudioAfterAsWritten(RunAudioAsWritten(c, calls[..|calls| - 1]), calls[|calls| - 1])
  }

  /** The audio calls seen as flag calls. */
  function AudioGateCalls(calls: seq<AudioCall>): (g: seq<GateCall>)
    ensures |g| == |calls|
    ensures forall i :: 0 <= i < |calls| ==>
      g[i].status == calls[i].status && (g[i].EnableCall? <==> calls[i].EnableAudio?)
    decreases |calls|
  {
    if |calls| == 0 then []
    else
      var last := calls[|calls| - 1];
      AudioGateCalls(calls[..|calls| - 1])
        + [if last.EnableAudio? then EnableCall(last.status) else DisableCall(last.status)]
  }

  /** As written, once audio is enabled no sequence of calls changes the audio
      configuration: a disable leaves it enabled, and every later enable is the no-op for
      an enabled device. */
  lemma {:induction false} AudioConfigFrozenAsWritten(c: AudioConfig, calls: seq<AudioCall>)
    requires c.enabled
    ensures RunAudioAsWritten(c, calls) == c
    decreases |calls|
  {
    if |calls| > 0 {
      AudioConfigFrozenAsWritten(c, calls[..|calls| - 1]);
    }
  }

  /** The smallest case: an enabled device whose disable the driver accepts is still
      enabled afterwards. */
  lemma AcceptedDisableKeepsAudioEnabledAsWritten(c: AudioConfig)
    requires c.enabled
    ensures AfterDisableAudioAsWritten(c, 0).enabled
  {
  }

  /** With the corrected disable, the audio flag follows the same rule as the video flag:
      the last accepted audio call decides it. */
  lemma {:induction false} AudioFlagIsGate(c: AudioConfig, calls: seq<AudioCall>)
    ensures RunAudio(c, calls).enabled == RunGate(c.enabled, AudioGateCalls(calls))
    decreases |calls|
  {
    if |calls| > 0 {
      var init := calls[..|calls| - 1];
      AudioFlagIsGate(c, init);
      assert AudioGateCalls(calls)[..|calls| - 1] == AudioGateCalls(init);
    }
  }

  /** With the corrected disable, audio can be reconfigured: an accepted disable followed
      by an accepted enable installs the new layout. */
  lemma AudioReconfigurable(c: AudioConfig, sampleType: U32, channelCount: U32)
    requires c.enabled
    ensures RunAudio(c, [DisableAudio(0), EnableAudio(sampleType, channelCount, 0)])
      == AudioConfig(true, channelCount, sampleType)
  {
    var calls := [DisableAudio(0), EnableAudio(sampleType, channelCount, 0)];
    assert calls[..1] == [DisableAudio(0)];
    assert calls[..1][..0] == [];
  }

  // ---- streams ----

  /** `StreamStatus`. */
  datatype StreamStatus = Stopped | Running | Paused

  /** A `*_streams` call with the driver's status. */
  datatype StreamCall = StartCall(status: I32) | StopCall(status: I32) | PauseCall(status: I32) | FlushCall(status: I32)

  /** Whether the call reaches the driver: starting a running stream, and stopping,
      pausing or flushing a stopped one, return `Ok` at once. */
  predicate ReachesDriver(s: StreamStatus, call: StreamCall) {
    if call.StartCall? then s != Running else s != Stopped
  }

  /** The stream state after a call. An accepted start runs the streams and an accepted
      stop stops them; an accepted pause toggles between running and paused; flushing and
      refused calls change nothing. */
  function StreamAfter(s: StreamStatus, call: StreamCall): (t: StreamStatus)
    ensures !IsOk(call.status) || call.FlushCall? ==> t == s
    ensures IsOk(call.status) && call.StartCall? ==> t == Running
    ensures IsOk(call.status) && call.StopCall? ==> t == Stopped
    ensures IsOk(call.status) && call.PauseCall? ==>
      (s == Stopped ==> t == Stopped) && (s == Running ==> t == Paused)
      && (s == Paused ==> t == Running)
  {
    if !ReachesDriver(s, call) || !IsOk(call.status) then s
    else match call
      case StartCall(_) => Running
      case StopCall(_) => Stopped
      case PauseCall(_) => if s == Running then Paused else Running
      case FlushCall(_) => s
  }

  function RunStreams(s: StreamStatus, calls: seq<StreamCall>): StreamStatus
    decreases |calls|
  {
    if |calls| == 0 then s
    else StreamAfter(RunStreams(s, calls[..|calls| - 1]), calls[|calls| - 1])
  }

  /** Whether the last accepted start or stop in `calls` was a start; `None` when there
      was none. Pauses and flushes do not count. */
  function LastStartOrStop(calls: seq<StreamCall>): (r: Option<bool>)
    ensures r.None? <==> forall i :: 0 <= i < |calls| ==>
      !(IsOk(calls[i].status) && (calls[i].StartCall? || calls[i].StopCall?))
    decreases |calls|
  {
    if |calls| == 0 then None
    else
      var last := calls[|calls| - 1];
      if IsOk(last.status) && (last.StartCall? || last.StopCall?) then Some(last.StartCall?)
      else LastStartOrStop(calls[..|calls| - 1])
  }

  /** The streams are stopped exactly when the last accepted start or stop was a stop, or
      there was none and they were stopped to begin with: pausing and flushing never stop
      or start them. */
  lemma {:induction false} StoppedFollowsLastStartOrStop(s: StreamStatus, calls: seq<StreamCall>)
    ensures RunStreams(s, calls) == Stopped <==>
      (if LastStartOrStop(calls).Some? then !LastStartOrStop(calls).value else s == Stopped)
    decreases |calls|
  {
    if |calls| > 0 {
      StoppedFollowsLastStartOrStop(s, calls[..|calls| - 1]);
    }
  }

  /** Two accepted pauses bring running or paused streams back where they were. */
  lemma PauseTwiceRestores(s: StreamStatus)
    ensures StreamAfter(StreamAfter(s, PauseCall(0)), PauseCall(0)) == s
  {
  }

  // ---- the device ----

  class InputDevice {
    const driver: Driver
    const dev: Ptr
    var videoEnabled: bool
    var audioEnabled: bool
    var streamStatus: StreamStatus
    var audioChannelCount: U32
    var audioSampleDepth: U32
    var callbackWrapper: InputCallbackWrapper?

    /** The audio part of the state. */
    function Audio(): AudioConfig
      reads this
    {
      AudioConfig(audioEnabled, audioChannelCount, audioSampleDepth)
    }

    /** `wrap_device_input`: nothing enabled, streams stopped, the default layout of two
        16-bit channels and no callback context. */
    constructor (driver: Driver, dev: Ptr)
      ensures this.driver == driver && this.dev == dev
      ensures !videoEnabled && Audio() == AudioConfig(false, 2, 16)
      ensures streamStatus == Stopped && callbackWrapper == null
    {
      this.driver := driver;
      this.dev := dev;
      videoEnabled := false;
      audioEnabled := false;
      streamStatus := Stopped;
      audioChannelCount := 2;
      audioSampleDepth := 16;
      callbackWrapper := null;
    }

    /** `does_support_video_mode`: as for output devices, with the input query. */
    method DoesSupportVideoMode(mode: U32, pixelFormat: U32, flags: U32, table: map<int, DisplayModeSupport>)
      returns (r: Result<(DisplayModeSupport, Option<DisplayMode>)>,
               ghost status: I32, ghost supported: U32, ghost displayMode: Ptr)
      modifies driver
      ensures r.Ok? <==> IsOk(status)
      ensures r.Err? ==> r.error == FromCode(status)
      ensures r.Ok? ==> var s := SupportResult(supported, displayMode, table);
        r.value.0 == s.0 && (r.value.1.None? <==> s.1.None?)
        && (r.value.1.Some? ==> fresh(r.value.1.value) && r.value.1.value.mode == displayMode)
      ensures driver.trace == old(driver.trace) + [InputDoesSupportVideoMode(dev, mode, pixelFormat, flags)]
      ensures driver.buffers == old(driver.buffers)
    {
      var st, sup, dm := driver.CallU32Ptr(InputDoesSupportVideoMode(dev, mode, pixelFormat, flags));
      status, supported, displayMode := st, sup, dm;
      if !IsOk(st) {
        r := Err(FromCode(st));
      } else {
        var s := SupportResult(sup, dm, table);
        if s.1.None? {
          r := Ok((s.0, None));
        } else {
          var m := new DisplayMode(dm);
          r := Ok((s.0, Some(m)));
        }
      }
    }

    /** `display_modes`: as for output devices, with the input iterator query. */
    method GetDisplayModes(answers: seq<Answer>)
      returns (r: Result<seq<DisplayMode>>, ghost status: I32, ghost it: Ptr)
      modifies driver
      ensures !IsOk(status) ==>
        r == Err(FromCode(status))
        && driver.trace == old(driver.trace) + [InputGetDisplayModeIterator(dev)]
      ensures IsOk(status) ==> var d := Drain(answers, false);
        driver.trace == old(driver.trace) + [InputGetDisplayModeIterator(dev)]
          + Repeat(NextDisplayMode(it), KeptPrefix(answers, false) + 1)
          + [DisplayModeIteratorRelease(it)]
        && (r.Err? <==> d.Err?) && (r.Err? ==> r.error == d.error)
        && (r.Ok? ==> |r.value| == |d.value|
                      && forall i :: 0 <= i < |d.value| ==> r.value[i].mode == d.value[i])
      ensures driver.buffers == old(driver.buffers)
    {
      var st, p := driver.CallPtr(InputGetDisplayModeIterator(dev));
      status, it := st, p;
      if IsOk(st) {
        r := IterateDisplayModes(driver, p, answers);
        var _ := driver.Call(DisplayModeIteratorRelease(p));
      } else {
        r := Err(FromCode(st));
      }
    }

    /** `enable_video_input`: always asks the driver; the flag follows `GateAfter`. */
    method EnableVideoInput(mode: U32, pixelFormat: U32, flags: U32) returns (r: Result<()>, ghost status: I32)
      modifies this`videoEnabled, driver
      ensures r == CheckStatus(status)
      ensures videoEnabled == GateAfter(old(videoEnabled), EnableCall(status))
      ensures driver.trace == old(driver.trace) + [InputEnableVideoInput(dev, mode, pixelFormat, flags)]
      ensures driver.buffers == old(driver.buffers)
    {
      var s := driver.Call(InputEnableVideoInput(dev, mode, pixelFormat, flags));
      status := s;
      if IsOk(s) {
        videoEnabled := true;
      }
      r := CheckStatus(s);
    }

    /** `disable_video_input`: `Ok` without a call when video is not enabled. */
    method DisableVideoInput() returns (r: Result<()>, ghost status: I32)
      modifies this`videoEnabled, driver
      ensures videoEnabled == GateAfter(old(videoEnabled), DisableCall(status))
      ensures !old(videoEnabled) ==> r == Ok(()) && driver.trace == old(driver.trace)
      ensures old(videoEnabled) ==>
        r == CheckStatus(status)
        && driver.trace == old(driver.trace) + [InputDisableVideoInput(dev)]
      ensures driver.buffers == old(driver.buffers)
    {
      status := 0;
      if !videoEnabled {
        r := Ok(());
      } else {
        var s := driver.Call(InputDisableVideoInput(dev));
        status := s;
        if IsOk(s) {
          videoEnabled := false;
        }
        r := CheckStatus(s);
      }
    }

    /** `get_available_video_frame_count`: 0 without a call when video is not enabled. */
    method GetAvailableVideoFrameCount() returns (r: Result<U32>, ghost status: I32, ghost count: U32)
      modifies driver
      ensures !videoEnabled ==> r == Ok(0) && driver.trace == old(driver.trace)
      ensures videoEnabled ==>
        r == CheckStatusOr(status, count)
        && driver.trace == old(driver.trace) + [InputGetAvailableVideoFrameCount(dev)]
      ensures driver.buffers == old(driver.buffers)
    {
      status, count := 0, 0;
      if !videoEnabled {
        r := Ok(0);
      } else {
        var s, n := driver.CallU32(InputGetAvailableVideoFrameCount(dev));
        status, count := s, n;
        r := CheckStatusOr(s, n);
      }
    }

    /** `enable_audio_input`: `Ok` without a call when audio is already enabled; otherwise
        48 kHz audio is requested and the layout follows `AfterEnableAudio`. */
    method EnableAudioInput(sampleType: U32, channelCount: U32) returns (r: Result<()>, ghost status: I32)
      modifies this`audioEnabled, this`audioChannelCount, this`audioSampleDepth, driver
      ensures Audio() == AfterEnableAudio(old(Audio()), sampleType, channelCount, status)
      ensures old(audioEnabled) ==> r == Ok(()) && driver.trace == old(driver.trace)
      ensures !old(audioEnabled) ==>
        r == CheckStatus(status)
        && driver.trace == old(driver.trace)
           + [InputEnableAudioInput(dev, SampleRate48kHz, sampleType, channelCount)]
      ensures driver.buffers == old(driver.buffers)
    {
      status := 0;
      if audioEnabled {
        r := Ok(());
      } else {
        var s := driver.Call(InputEnableAudioInput(dev, SampleRate48kHz, sampleType, channelCount));
        status := s;
        if IsOk(s) {
          audioEnabled := true;
          audioChannelCount := channelCount;
          audioSampleDepth := sampleType;
        }
        r := CheckStatus(s);
      }
    }

    /** `disable_audio_input` as written: when the driver accepts the disable the flag is
        assigned `true`, so the audio configuration is left exactly as it was; the
        evidently intended behaviour is `AfterDisableAudio`. */
    method DisableAudioInput() returns (r: Result<()>, ghost status: I32)
      modifies this`audioEnabled, driver
      ensures Audio() == AfterDisableAudioAsWritten(old(Audio()), status)
      ensures Audio() == old(Audio())
      ensures !old(audioEnabled) ==> r == Ok(()) && driver.trace == old(driver.trace)
      ensures old(audioEnabled) ==>
        r == CheckStatus(status)
        && driver.trace == old(driver.trace) + [InputDisableAudioInput(dev)]
      ensures driver.buffers == old(driver.buffers)
    {
      status := 0;
      if !audioEnabled {
        r := Ok(());
      } else {
        var s := driver.Call(InputDisableAudioInput(dev));
        status := s;
        if IsOk(s) {
          audioEnabled := true;
        }
        r := CheckStatus(s);
      }
    }

    /** `get_available_audio_sample_frame_count`: 0 without a call when audio is not
        enabled; otherwise the count comes from the encoder-input entry point. */
    method GetAvailableAudioSampleFrameCount() returns (r: Result<U32>, ghost status: I32, ghost count: U32)
      modifies driver
      ensures !audioEnabled ==> r == Ok(0) && driver.trace == old(driver.trace)
      ensures audioEnabled ==>
        r == CheckStatusOr(status, count)
        && driver.trace == old(driver.trace) + [EncoderInputGetAvailableAudioSampleFrameCount(dev)]
      ensures driver.buffers == old(driver.buffers)
    {
      status, count := 0, 0;
      if !audioEnabled {
        r := Ok(0);
      } else {
        var s, n := driver.CallU32(EncoderInputGetAvailableAudioSampleFrameCount(dev));
        status, count := s, n;
        r := CheckStatusOr(s, n);
      }
    }

    /** `start_streams`. */
    method StartStreams() returns (r: Result<()>, ghost status: I32)
      modifies this`streamStatus, driver
      ensures streamStatus == StreamAfter(old(streamStatus), StartCall(status))
      ensures !ReachesDriver(old(streamStatus), StartCall(status)) ==>
        r == Ok(()) && driver.trace == old(driver.trace)
      ensures ReachesDriver(old(streamStatus), StartCall(status)) ==>
        r == CheckStatus(status) && driver.trace == old(driver.trace) + [InputStartStreams(dev)]
      ensures driver.buffers == old(driver.buffers)
    {
      status := 0;
      if streamStatus == Running {
        r := Ok(());
      } else {
        var s := driver.Call(InputStartStreams(dev));
        status := s;
        if IsOk(s) {
          streamStatus := Running;
        }
        r := CheckStatus(s);
      }
    }

    /** `stop_streams`. */
    method StopStreams() returns (r: Result<()>, ghost status: I32)
      modifies this`streamStatus, driver
      ensures streamStatus == StreamAfter(old(streamStatus), StopCall(status))
      ensures !ReachesDriver(old(streamStatus), StopCall(status)) ==>
        r == Ok(()) && driver.trace == old(driver.trace)
      ensures ReachesDriver(old(streamStatus), StopCall(status)) ==>
        r == CheckStatus(status) && driver.trace == old(driver.trace) + [InputStopStreams(dev)]
      ensures driver.buffers == old(driver.buffers)
    {
      status := 0;
      if streamStatus == Stopped {
        r := Ok(());
      } else {
        var s := driver.Call(InputStopStreams(dev));
        status := s;
        if IsOk(s) {
          streamStatus := Stopped;
        }
        r := CheckStatus(s);
      }
    }

    /** `pause_streams`. */
    method PauseStreams() returns (r: Result<()>, ghost status: I32)
      modifies this`streamStatus, driver
      ensures streamStatus == StreamAfter(old(streamStatus), PauseCall(status))
      ensures !ReachesDriver(old(streamStatus), PauseCall(status)) ==>
        r == Ok(()) && driver.trace == old(driver.trace)
      ensures ReachesDriver(old(streamStatus), PauseCall(status)) ==>
        r == CheckStatus(status) && driver.trace == old(driver.trace) + [InputPauseStreams(dev)]
      ensures driver.buffers == old(driver.buffers)
    {
      status := 0;
      if streamStatus == Stopped {
        r := Ok(());
      } else {
        var s := driver.Call(InputPauseStreams(dev));
        status := s;
        if IsOk(s) {
          if streamStatus == Running {
            streamStatus := Paused;
          } else if streamStatus == Paused {
            streamStatus := Running;
          }
        }
        r := CheckStatus(s);
      }
    }

    /** `flush_streams`: never changes the stream state. */
    method FlushStreams() returns (r: Result<()>, ghost status: I32)
      modifies driver
      ensures !ReachesDriver(streamStatus, FlushCall(status)) ==>
        r == Ok(()) && driver.trace == old(driver.trace)
      ensures ReachesDriver(streamStatus, FlushCall(status)) ==>
        r == CheckStatus(status) && driver.trace == old(driver.trace) + [InputFlushStreams(dev)]
      ensures driver.buffers == old(driver.buffers)
    {
      status := 0;
      if streamStatus == Stopped {
        r := Ok(());
      } else {
        var s := driver.Call(InputFlushStreams(dev));
        status := s;
        r := CheckStatus(s);
      }
    }

    /** `set_callback`: without a context, register one with the placeholder layout of one
        channel of depth 1 and return a refusal as its error. Then install `handler` in the
        context; `poisoned` says whether its lock is poisoned, in which case the answer is
        `FAIL` and the handler is not installed. */
    method SetCallback(handler: InputHandler, poisoned: bool)
      returns (r: Result<()>, ghost registered: bool, ghost status: I32)
      modifies this`callbackWrapper, driver, callbackWrapper
      ensures registered <==> old(callbackWrapper) == null
      ensures !registered ==>
        callbackWrapper == old(callbackWrapper) && driver.trace == old(driver.trace)
      ensures registered && !IsOk(status) ==>
        r == Err(FromCode(status)) && callbackWrapper == null
        && exists w: InputCallbackWrapper :: driver.trace == old(driver.trace)
             + [Alloc(w), InputSetCallback(dev, w), Free(w)]
      ensures registered && IsOk(status) ==>
        callbackWrapper != null && fresh(callbackWrapper)
        && callbackWrapper.audioChannels == 1 && callbackWrapper.audioSampleDepth == 1
        && driver.trace == old(driver.trace)
           + [Alloc(callbackWrapper), InputSetCallback(dev, callbackWrapper)]
      ensures !registered || IsOk(status) ==>
        callbackWrapper != null
        && (poisoned ==>
              r == Err(Fail)
              && callbackWrapper.handler == (if registered then None else old(callbackWrapper.handler)))
        && (!poisoned ==> r == Ok(()) && callbackWrapper.handler == Some(handler))
      ensures driver.buffers == old(driver.buffers)
    {
      registered := callbackWrapper == null;
      status := 0;
      if callbackWrapper == null {
        var reg, w, s := RegisterInputCallback(driver, dev, 1, 1);
        status := s;
        if reg.Err? {
          r := Err(reg.error);
          return;
        }
        callbackWrapper := reg.value;
      }
      if poisoned {
        r := Err(Fail);
      } else {
        callbackWrapper.handler := Some(handler);
        r := Ok(());
      }
    }

    /** `Drop`: stop the streams through the encoder-input entry point, release the input,
        and free the callback context if there is one. */
    method Drop()
      modifies driver
      ensures driver.trace == old(driver.trace)
        + [EncoderInputStopStreams(dev), InputRelease(dev)]
        + (if callbackWrapper != null then [Free(callbackWrapper)] else [])
      ensures driver.buffers == old(driver.buffers)
    {
      var _ := driver.Call(EncoderInputStopStreams(dev));
      var _ := driver.Call(InputRelease(dev));
      if callbackWrapper != null {
        FreeInputCallbackWrapper(driver, callbackWrapper);
      }
    }
  }

  /** Packets delivered through a context that `set_callback` registered report no bytes,
      whatever their frame count. */
  lemma CallbackPacketsHaveNoBytes(frames: I64)
    ensures ByteCount(frames, 1, 1) == 0
  {
  }
}
