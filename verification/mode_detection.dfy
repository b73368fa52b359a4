/** The automatic mode detection example (examples/automatic_mode_detection.rs): when the
    driver reports a new input format, the callback picks a pixel format from the
    detected signal and restarts capture in the new mode. Its `input_frame_arrived`
    accepts every frame and has nothing further to model. */
module ModeDetection {
  import opened Common
  import opened SdkErrors
  import opened Sdk
  import opened Enums
  import opened Frames
  import opened DisplayModes
  import opened InputDevices

  /** The pixel format the callback restarts with: 10-bit YUV unless the colour space
      changed and the detected signal is exactly RGB 4:4:4, then 10-bit RGB. */
  function ChoosePixelFormat(events: set<FormatChangedEvent>, signalFlags: set<DetectedFormatFlag>)
    : (pf: PixelFormat)
    ensures pf == Format10BitYUV || pf == Format10BitRGB
    ensures pf == Format10BitRGB <==> ColorspaceChanged in events && signalFlags == {Rgb444}
  {
    var pf := Format10BitYUV;
    if ColorspaceChanged !in events then pf
    else if signalFlags == {YCbCr422} then Format10BitYUV
    else if signalFlags == {Rgb444} then Format10BitRGB
    else pf
  }

  /** Only a colour-space change can move the choice away from YUV: display-mode and
      field-dominance events alone never do. */
  lemma ChoiceIgnoresOtherEvents(events: set<FormatChangedEvent>, signalFlags: set<DetectedFormatFlag>)
    requires ColorspaceChanged !in events
    ensures ChoosePixelFormat(events, signalFlags) == Format10BitYUV
    ensures ChoosePixelFormat(events + {ColorspaceChanged}, signalFlags) ==
      (if signalFlags == {Rgb444} then Format10BitRGB else Format10BitYUV)
  {
  }

  /** The stream state after an accepted pause. */
  function AfterPause(s: StreamStatus): (t: StreamStatus)
    ensures t == StreamAfter(s, PauseCall(0))
  {
    if s == Running then Paused else if s == Paused then Running else Stopped
  }

  /** The driver calls of an accepted `pause_streams` from stream state `s`. */
  function PauseCalls(dev: Ptr, s: StreamStatus): seq<Event> {
    if s != Stopped then [InputPauseStreams(dev)] else []
  }

  /** The driver calls of an accepted flush and start from stream state `t`. */
  function ResumeCalls(dev: Ptr, t: StreamStatus): seq<Event> {
    (if t != Stopped then [InputFlushStreams(dev)] else [])
    + (if t != Running then [InputStartStreams(dev)] else [])
  }

  /** The driver calls of an uninterrupted restart from stream state `s`: pause (unless
      stopped), enable the video input, flush (unless stopped after the pause) and start
      (unless running after the pause). */
  function RestartTrace(dev: Ptr, s: StreamStatus, mode: U32, format: U32, flags: U32): seq<Event> {
    PauseCalls(dev, s) + [InputEnableVideoInput(dev, mode, format, flags)] + ResumeCalls(dev, AfterPause(s))
  }

  /** A prefix of `a + b` that covers `a`. */
  lemma PrefixOfAppend(a: seq<Event>, b: seq<Event>, k: nat)
    requires k <= |b|
    ensures (a + b)[..|a| + k] == a + b[..k]
  {
  }

  /** A restart whose calls are all accepted leaves the streams running, from any state. */
  lemma {:induction false} RestartRuns(s: StreamStatus)
    ensures RunStreams(s, [PauseCall(0), FlushCall(0), StartCall(0)]) == Running
  {
    var calls := [PauseCall(0), FlushCall(0), StartCall(0)];
    assert calls[..2][..1][..0] == [];
    assert RunStreams(s, calls[..2][..1]) == StreamAfter(s, PauseCall(0));
    assert RunStreams(s, calls[..2]) == StreamAfter(StreamAfter(s, PauseCall(0)), FlushCall(0));
  }

  /** The example's `InputCallback`, holding the shared input device. */
  class InputCallback {
    const input: InputDevice

    constructor (input: InputDevice)
      ensures this.input == input
    {
      this.input := input;
    }

    /** Lines 71-72 of the callback: flush, then start, each `expect`ed. Answers whether
        both succeeded; `steps` counts the driver calls made. */
    method Resume() returns (ok: bool, ghost steps: nat)
      modifies input`streamStatus, input.driver
      ensures var calls := ResumeCalls(input.dev, old(input.streamStatus));
        steps <= |calls| && input.driver.trace == old(input.driver.trace) + calls[..steps]
        && (ok ==> steps == |calls| && input.streamStatus == Running)
        && (!ok ==> steps >= 1)
      ensures input.driver.buffers == old(input.driver.buffers)
    {
      ghost var calls := ResumeCalls(input.dev, input.streamStatus);
      var r3, _ := input.FlushStreams();
      steps := if input.streamStatus != Stopped then 1 else 0;
      assert input.driver.trace == old(input.driver.trace) + calls[..steps];
      if r3.Err? {
        return false, steps;
      }
      var r4, _ := input.StartStreams();
      steps := if old(input.streamStatus) != Running then steps + 1 else steps;
      assert steps == |calls|;
      ok := r4.Ok?;
    }

    /** Lines 63-70 of the callback: pause, then enable the video input in `mode` with
        `format` and `flags`, each `expect`ed. Answers whether both succeeded; `steps`
        counts the driver calls made. */
    method SwitchMode(mode: U32, format: U32, flags: U32) returns (ok: bool, ghost steps: nat)
      modifies input`streamStatus, input`videoEnabled, input.driver
      ensures var calls := PauseCalls(input.dev, old(input.streamStatus))
                           + [InputEnableVideoInput(input.dev, mode, format, flags)];
        steps <= |calls| && input.driver.trace == old(input.driver.trace) + calls[..steps]
        && (ok ==> steps == |calls| && input.streamStatus == AfterPause(old(input.streamStatus))
                   && input.videoEnabled)
        && (!ok ==> steps >= 1)
      ensures input.driver.buffers == old(input.driver.buffers)
    {
      ghost var calls := PauseCalls(input.dev, input.streamStatus)
                         + [InputEnableVideoInput(input.dev, mode, format, flags)];
      var r1, _ := input.PauseStreams();
      steps := |PauseCalls(input.dev, old(input.streamStatus))|;
      assert calls[..steps] == PauseCalls(input.dev, old(input.streamStatus));
      if r1.Err? {
        return false, steps;
      }
      var r2, _ := input.EnableVideoInput(mode, format, flags);
      steps := steps + 1;
      assert calls[..steps] == calls;
      ok := r2.Ok?;
    }

    /** `video_input_format_changed`. Without a display mode the answer is `false` and
        nothing happens. Otherwise the device lock is taken (a poisoned lock panics) and
        capture is restarted in `mode` with the chosen pixel format and format detection
        on; every step must succeed or the callback panics, and a completed restart
        answers `true`. `mode` is the display mode's id as `enable_video_input` passes it
        on, `formatCode` the driver's code of each pixel format and `detectionBits` the
        bits of `ENABLE_FORMAT_DETECTION`. */
    method FormatChanged(
      events: set<FormatChangedEvent>, displayMode: Option<DisplayMode>, signalFlags: set<DetectedFormatFlag>,
      mode: U32, formatCode: PixelFormat -> U32, detectionBits: U32, poisoned: bool)
      returns (o: Outcome<bool>, ghost steps: nat)
      modifies input`streamStatus, input`videoEnabled, input.driver
      ensures var full := RestartTrace(input.dev, old(input.streamStatus), mode,
                                       formatCode(ChoosePixelFormat(events, signalFlags)), detectionBits);
        steps <= |full|
        && input.driver.trace == old(input.driver.trace) + full[..steps]
        && (o == Returned(true) ==> steps == |full|)
      ensures displayMode.None? ==> o == Returned(false) && steps == 0
      ensures displayMode.Some? ==> o != Returned(false)
      ensures displayMode.Some? && poisoned ==> o == Panicked && steps == 0
      ensures displayMode.Some? && !poisoned && o == Panicked ==> steps >= 1
      ensures o == Returned(true) ==> input.streamStatus == Running && input.videoEnabled
      ensures input.driver.buffers == old(input.driver.buffers)
    {
      steps := 0;
      if displayMode.None? {
        return Returned(false), 0;
      }
      if poisoned {
        return Panicked, 0;
      }
      ghost var s0 := input.streamStatus;
      var format := formatCode(ChoosePixelFormat(events, signalFlags));
      ghost var head := PauseCalls(input.dev, s0) + [InputEnableVideoInput(input.dev, mode, format, detectionBits)];
      ghost var full := RestartTrace(input.dev, s0, mode, format, detectionBits);
      var switched, k1 := SwitchMode(mode, format, detectionBits);
      PrefixOfAppend([], head, k1);
      PrefixOfAppend([], full, k1);
      steps := k1;
      if !switched {
        return Panicked, steps;
      }
      var resumed, k2 := Resume();
      PrefixOfAppend(head, ResumeCalls(input.dev, AfterPause(s0)), k2);
      steps := steps + k2;
      o := if resumed then Returned(true) else Panicked;
    }
  }
}
