# DeckLink Rust binding — a verified model of its bookkeeping

This project models the Rust side of a binding over the Blackmagic DeckLink C SDK. Almost
every function of the binding ends in a foreign `sdk::*` call. What the binding itself
decides happens around those calls:

- which status codes count as success;
- which calls are made, and in what order;
- which flags and counters change;
- which references are taken and given back.

## The driver

The driver is the class `Sdk.Driver`.

- Every SDK call appends an `Event` to its ghost `trace`, then answers with an arbitrary
  32-bit status and arbitrary out-values.
- Rust-side steps that matter for ordering are logged as ghost events in the same trace:
  allocating and freeing a callback context (`Alloc`, `Free`), and clearing a channel flag
  (`ClearVideoActive`, `ClearAudioActive`).
- Properties about call order, and about "released exactly once", are statements about
  that trace.
- Driver-owned frame memory that the binding copies into is the map `buffers`.

## How the source maps onto the model

- Objects whose fields the binding updates in place are classes with those fields:
  - the input device with its stream state and enable flags;
  - the output video handle with `scheduled_running`;
  - the shared output device record with its two channel flags;
  - the callback contexts;
  - frames, packets and devices with their nulled-on-drop pointers.
- The collection loops are methods with loop invariants. Each is proved against a
  function that states the loop's outcome outright.
- The numeric values of the SDK's enums and bit flags come from a generated binding that
  is not part of this model. Decoding therefore takes the value table as a parameter:
  - `map<int, T>` for enums;
  - `map<Flag, nat>` of bit positions for bit flags.
- Statuses are `int`s in the `i32` range (`Common.I32`). The COM macros of `wrapper.h`
  are modelled on `bv32`.
- `SdkError::result`, `result_or` and `result_or_else` are called throughout, but the
  `impl SdkError` of src/util.rs (lines 21-33) does not define them. They are modelled as
  `SdkErrors.CheckStatus` and `SdkErrors.CheckStatusOr`: status 0 is `Ok`, and any other
  status is `Err(SdkErrors.FromCode(status))`, the corrected `from` (see Findings).
- A frame handed to the binding (`DecklinkFrameBase`, `DecklinkFrameBase2`) is the value
  `OutputVideo.FrameSource`. It holds width, height, row bytes, pixel format, flags, and
  `bytes()` as a `Result`.

## Behaviour of note

- **Failed `start_playback`.** `scheduled_running` is raised before the driver call and
  stays raised when the call fails (src/device/output/video.rs:204-214).
- **`stop_playback` while stopped.** The answer is `Err(FALSE)` with no driver call
  (src/device/output/video.rs:233-234).
- **Video output teardown.** The video channel flag is cleared before the callback
  context is freed (src/device/output/video.rs:58-64).
- **Claiming a channel.** The channel flag stays claimed when the driver's enable call
  fails (src/device/output/mod.rs:100-104).
- **Early return from a device listing.** The devices pushed before a failing answer are
  dropped when `get_devices` returns, after the iterator has been released, so each of
  them is released (or destroyed) then (src/device/mod.rs:124-129, src/device.rs:42-45,
  src/main.rs:96-97).

## Model

| member | source | states |
|---|---|---|
| SdkErrors.Code | src/util.rs:7-19 | `FALSE` is the only variant with a non-negative code, 1; every other variant's `i32` code is negative |
| SdkErrors.CodeTruncatesDiscriminant | src/util.rs:7-19 | each variant's status code is its unsigned hex discriminant truncated to 32 bits |
| SdkErrors.CodeInjective | src/util.rs:7-19 | no two variants share a status code |
| SdkErrors.FromCode | src/util.rs:23-25 | `from(v)` is the variant whose code is `v`, or `FALSE` when no variant has that code; it is total |
| SdkErrors.FromCodeRoundTrip | src/util.rs:23-25 | converting any variant's code back yields that variant |
| SdkErrors.FromCodeUnlisted | src/util.rs:23-25 | a status that is the code of no error variant converts to `FALSE` |
| SdkErrors.FromCodeAsWrittenIsConstant | src/util.rs:23-25 | as written on a 64-bit target, `from` maps every `i32` to `FALSE` |
| SdkErrors.FromCodeAsWrittenMissesFail | src/util.rs:23-25 | the status of `FAIL` converts to `FALSE` as written, and to `FAIL` as intended |
| SdkErrors.MainFromCodeAgrees | src/main.rs:34-48 | the program's `match` on the ten wrapped literals agrees with the corrected `from` on every `i32`, including 0 and 1 |
| SdkErrors.StatusPredicates | src/util.rs:26-32 | `is_false(v)` iff `v == 1`; `is_ok` and `is_false` each imply `succeeded`; an error code succeeds iff it is `FALSE` |
| SdkErrors.CheckStatus | src/util.rs:29 | the result is `Ok` exactly when the status is 0, and otherwise carries `from(status)` |
| SdkErrors.CheckStatusOr | src/util.rs:29 | `Ok(v)` exactly when the status is 0, otherwise `Err(from(status))` |
| SdkErrors.CheckStatusOfCode | src/util.rs:23-29 | checking an error variant's own code yields that error |
| HResult.FailedIsNotSucceeded | wrapper.h:37-38 | `FAILED` is the exact negation of `SUCCEEDED`, and `SUCCEEDED` holds iff the status read as `int` is non-negative |
| HResult.MakeHResultCode | wrapper.h:41-47 | `HRESULT_CODE(MAKE_HRESULT(s, f, c)) == c` for every 16-bit `c` |
| HResult.MakeHResultFacility | wrapper.h:42-47 | `HRESULT_FACILITY(MAKE_HRESULT(s, f, c)) == f` for `f < 0x2000` and 16-bit `c` |
| HResult.MakeHResultSeverity | wrapper.h:43-47 | `HRESULT_SEVERITY(MAKE_HRESULT(s, f, c)) == s` for `s` in {0, 1}, and the result succeeds iff `s` is 0 |
| HResult.IsErrorIsSeverity | wrapper.h:40-43 | read on a 32-bit word, `IS_ERROR` is "severity is 1", which is `FAILED` |
| HResult.IsErrorAsWrittenNeverHolds | wrapper.h:40 | with a 64-bit `unsigned long`, `IS_ERROR` is false for every status |
| HResult.IsErrorAsWrittenMissesFail | wrapper.h:40 | `E_FAIL` is an error by severity, but `IS_ERROR` as written says it is not |
| HResult.ConstantsClassified | wrapper.h:49-60 | `S_OK` and `S_FALSE` succeed; every `E_*` constant has severity 1, fails, and equals the code of the binding's variant of the same name |
| Common.FromPrimitive | src/device/status.rs:92 | a raw value decodes to `Some` exactly when it is a known value, and then to that value's variant |
| Common.FromBitsTruncate | src/device/status.rs:138-141 | the decoded flag set holds exactly the known flags whose bit is set; unknown bits are dropped |
| Common.TruncRem | examples/rp188_vitc_output.rs:51-57 | Rust's `%` on `i64`: `a == b * (a / b) + r`, and the remainder takes the sign of the dividend with magnitude below the divisor |
| DeviceStatuses.IntoEnum | src/device/status.rs:86-94 | an error passes through unchanged; a known value decodes to its variant; an unknown value gives `FALSE` |
| DeviceStatuses.StatusFlagsOf | src/device/status.rs:138-141 | an error passes through; otherwise the flags are those whose bit is set in the value truncated to `u32` |
| DeviceStatuses.TruncatedU32 | src/device/status.rs:165-172 | an error passes through; otherwise the value is the `i64` reduced modulo 2^32 |
| DeviceStatuses.TruncationKeepsSmallValues | src/device/status.rs:165-172 | the truncation changes nothing exactly for values in `0 .. 2^32` |
| DeviceStatuses.TruncationOfMinusOne | src/device/status.rs:165-168 | a link width of -1 reads as `0xFFFF_FFFF` |
| DeviceStatuses.DeviceStatus.From | src/device/status.rs:97-99 | the handle holds the given interface |
| DeviceStatuses.DeviceStatus.Drop | src/device/status.rs:77-84 | the status interface is released once if non-null, and the pointer is nulled |
| DeviceStatuses.DeviceStatus.GetInt | src/device/status.rs:102-106 | one driver call; `Ok(value)` exactly on status 0 |
| DeviceStatuses.DeviceStatus.GetBool | src/device/status.rs:108-112 | one driver call; `Ok(flag)` exactly on status 0 |
| DeviceStatuses.DeviceStatus.GetBytes | src/device/status.rs:114-132 | a failed size query returns its error with no second call; otherwise a second call fills a buffer of the queried size, returned exactly when that call succeeds |
| DeviceStatuses.DeviceStatus.GetEnum | src/device/status.rs:135-187 | the enum getters are `into_enum` of one integer query |
| DeviceStatuses.DeviceStatus.GetFlags | src/device/status.rs:138-162 | the flag getters keep only known flags of one integer query |
| DeviceStatuses.DeviceStatus.GetU32 | src/device/status.rs:165-172 | the PCIe width and speed getters truncate one integer query to `u32`, exact for in-range values |
| Iteration.Classify | src/device/mod.rs:115-130 | status 1 finishes the loop; a kept status is 0 (strict loops) or any other non-negative status (lenient loops); everything else gives up |
| Iteration.DrainIsOutcome | src/display_mode.rs:133-146 | draining one answer at a time equals the outright outcome: the first answer not kept decides between `Ok` of all kept pointers and that answer's error |
| Iteration.DrainResult | src/display_mode.rs:129-146 | a successful drain returns the kept pointers in order and stopped at `S_FALSE` or at the end; a failed drain stopped at a give-up status and carries `from` of it |
| Iteration.DrainIterator | src/display_mode.rs:133-144 | the loop returns the drain's result and calls `next` once per kept answer plus once for the answer that stopped it |
| DisplayModes.ModeOf | src/display_mode.rs:91-94 | a known mode id decodes to its variant; anything else is `Unknown` |
| DisplayModes.FieldDominanceOf | src/display_mode.rs:116-121 | a known field dominance decodes to its variant; anything else is `Unknown` |
| DisplayModes.FramerateOf | src/display_mode.rs:101-115 | `Some((duration, scale))` exactly when the status is non-negative |
| DisplayModes.ModeFlagsOf | src/display_mode.rs:122-126 | exactly the known flags whose bits are set |
| DisplayModes.SupportResult | src/device/output/mod.rs:66-74 | no mode is returned exactly when the mode pointer is null, the support code is unknown, or it means "not supported", and then the answer is `NotSupported`; otherwise the decoded support and the mode |
| DisplayModes.DisplayMode.Drop | src/display_mode.rs:77-85 | makes no driver call and nulls the pointer |
| DisplayModes.WrapModes | src/display_mode.rs:136-138 | one fresh mode wrapper per pointer, in order |
| DisplayModes.IterateDisplayModes | src/display_mode.rs:129-147 | the modes are the strict drain of the iterator, in driver order; an error discards them; `next` is called once per mode plus once |
| DisplayModes.DisplayModesOnlyFromOk | src/display_mode.rs:135-138 | every returned mode came from an answer with status 0, at the same position |
| Devices.DecklinkDevice.constructor | src/device/mod.rs:120-123 | a listed device holds its pointer and a dead notification reference |
| Devices.DecklinkDevice.Drop | src/device/mod.rs:23-30 | the device is released once if non-null, then nulled |
| Devices.DecklinkDevice.ModelName | src/device/mod.rs:52-60 | `Some(name)` exactly when the driver answers 0 |
| Devices.DecklinkDevice.DisplayName | src/device/mod.rs:61-69 | `Some(name)` exactly when the driver answers 0 |
| Devices.DecklinkDevice.GetStatus | src/device/mod.rs:76-80 | a status handle on the returned interface exactly when the driver answers 0, else `from(status)` |
| Devices.DecklinkDevice.GetNotification | src/device/mod.rs:81-93 | `HANDLE` when the lock fails; the notification when the reference is live; `FALSE` when it is dead |
| Devices.DecklinkDevice.GetOutput | src/device/mod.rs:95-104 | an output exactly when the driver answers 0 with a non-null pointer; a new output has neither channel claimed |
| Devices.WrapDevices | src/device/mod.rs:120-123 | one fresh device per pointer, in order, with a dead notification reference |
| Devices.ReleaseCallsShape | src/device/mod.rs:23-30 | dropping a `Vec` of devices makes only releases of non-null devices, at most one per device, and exactly one per device in order when none is null |
| Devices.DropDevices | src/device/mod.rs:23-30 | dropping the devices front to back nulls every pointer and appends exactly their release calls |
| Devices.GetDevices | src/device/mod.rs:107-137 | `FAIL` with no further call for a null iterator; otherwise the strict drain: devices in order up to status 1, any other status an error; the iterator is released after the last `next`; on an error the devices pushed so far are then released, front to back |
| Devices.IteratorReleasedOnce | src/device/mod.rs:124-135 | `get_devices` releases the iterator exactly once, after every `next` call; only releases of dropped devices follow it |
| Devices.ListedDeviceHasNoNotification | src/device/mod.rs:81-93 | a freshly listed device never yields a notification |
| LegacyDevices.LegacyDevice.Drop | src/device.rs:9-16 | the device is destroyed once if non-null, then nulled |
| LegacyDevices.WrapLegacyDevices | src/device.rs:40 | one fresh device per pointer, in order |
| LegacyDevices.DestroyCallsShape | src/device.rs:9-16 | dropping a `Vec` of these devices makes only destroys of non-null devices, at most one per device, and exactly one per device in order when none is null |
| LegacyDevices.DropLegacyDevices | src/device.rs:9-16 | dropping the devices front to back nulls every pointer and appends exactly their destroy calls |
| LegacyDevices.GetLegacyDevices | src/device.rs:27-54 | `FAIL` for a null iterator; otherwise the lenient drain: status 1 stops, other non-negative statuses append, a negative status is an error; the iterator is destroyed after the last `next`; on an error the devices pushed so far are then destroyed, front to back |
| LegacyDevices.IteratorDestroyedOnce | src/device.rs:36-52 | the loop destroys the iterator exactly once, after every `next` call; only destroys of dropped devices follow it |
| LegacyDevices.LenientLoopClassification | src/device.rs:36-45 | every kept answer is non-negative and not 1; a failure stopped at a negative status and carries `from` of it; a success keeps all kept answers |
| MainProgram.GetMainDevices | src/main.rs:81-104 | the same lenient loop, with errors converted by the program's own `from`; the iterator is destroyed once, after the last `next`; on an error the devices pushed so far are then destroyed (src/main.rs:61-68) |
| MainProgram.ApiVersionText | src/main.rs:106-116 | `None` for a null iterator; otherwise `Some(version)` after one version call, then the iterator is destroyed |
| Frames.PixelFormatOf | src/frame.rs:58-63 | a known pixel format decodes to its variant; anything else is `Format8BitYUV` |
| Frames.FlagsOf | src/frame.rs:64-68 | exactly the known frame flags whose bits are set |
| Frames.ExpectedLen | src/frame.rs:75 | `(row_bytes * height) as usize` is the product whenever the product fits in 64 bits |
| Frames.ExpectedLenOfRealFrame | src/frame.rs:75 | for 32-bit non-negative geometry the expected length is exactly `row_bytes * height` |
| Frames.VideoFrame.SetBytes | src/frame.rs:74-91 | a length other than `row_bytes * height` gives false with no byte-pointer query; otherwise true exactly when the query answers 0, and then exactly the data lands in the driver buffer |
| Frames.VideoFrame.Drop | src/frame.rs:37-46 | the frame is destroyed only if non-null and not a child, and is then nulled |
| Frames.MutableFrame.SetFlags | src/frame.rs:113-115 | one driver call with the flag bits |
| Frames.MutableFrame.Drop | src/frame.rs:99-106 | the mutable frame is destroyed once if non-null; the child base frame is nulled without a call |
| Frames.WrapMutableFrame | src/frame.rs:118-128 | the base frame is the driver's base of the pointer and is marked as a child |
| Frames.DroppedMutableFrameDestroysOnce | src/frame.rs:99-128 | wrapping and dropping a mutable frame destroys it exactly once and never destroys its base |
| InputAudio.ByteCount | src/device/input/audio.rs:37-39 | zero whenever the depth is below 8 bits, or there are no channels or no frames |
| InputAudio.ByteCountExact | src/device/input/audio.rs:37-39 | when nothing overflows, the byte count is `frames * channels * (depth / 8)` with integer division |
| InputAudio.AudioInputPacket.GetByteCount | src/device/input/audio.rs:37-39 | one frame-count call, then the byte count of that count |
| InputAudio.AudioInputPacket.GetBytes | src/device/input/audio.rs:40-48 | on status 0, a slice of exactly `get_byte_count()` bytes from the driver buffer; otherwise `from(status)` with no further call |
| InputAudio.AudioInputPacket.GetPacketTime | src/device/input/audio.rs:49-55 | one call with the caller's timescale; the driver's time exactly on status 0 |
| InputAudio.AudioInputPacket.Drop | src/device/input/audio.rs:24-31 | the packet is released once if non-null, then nulled |
| InputAudio.WrapPacket | src/device/input/audio.rs:5-16 | one reference is taken, and the packet keeps the given channel count and depth |
| InputAudio.WrappedPacketReleasedOnce | src/device/input/audio.rs:5-31 | a wrapped packet that is dropped takes and releases its reference exactly once, releasing last |
| InputDevices.GateAfter | src/device/input/mod.rs:132-144 | the enable flag changes only on status 0, and then becomes "was this an enable" |
| InputDevices.LastAccepted | src/device/input/mod.rs:118-147 | no answer exactly when no call in the sequence was accepted |
| InputDevices.GateFollowsLastAccepted | src/device/input/mod.rs:118-147 | after any sequence of enables and disables, the flag is decided by the last accepted call, or is unchanged if none was accepted |
| InputDevices.AfterEnableAudio | src/device/input/mod.rs:163-187 | a no-op while enabled or on failure; otherwise audio is enabled with the requested channel count and the sample type as depth |
| InputDevices.AfterDisableAudio | src/device/input/mod.rs:188-198 | as intended: afterwards audio is enabled iff it was and the disable failed; the layout is kept |
| InputDevices.AudioGateCalls | src/device/input/mod.rs:163-198 | each audio call, read as a flag call with the same status |
| InputDevices.AudioConfigFrozenAsWritten | src/device/input/mod.rs:188-198 | as written, once audio is enabled no sequence of calls changes the audio configuration |
| InputDevices.AcceptedDisableKeepsAudioEnabledAsWritten | src/device/input/mod.rs:194 | as written, an accepted disable leaves audio enabled |
| InputDevices.AudioFlagIsGate | src/device/input/mod.rs:163-198 | with the corrected disable, the audio flag follows the same last-accepted rule as the video flag |
| InputDevices.AudioReconfigurable | src/device/input/mod.rs:163-198 | with the corrected disable, an accepted disable and enable install the new layout |
| InputDevices.StreamAfter | src/device/input/mod.rs:216-267 | the state changes only on status 0: start gives `Running`, stop gives `Stopped`, pause toggles `Running` and `Paused`, flush changes nothing |
| InputDevices.LastStartOrStop | src/device/input/mod.rs:216-240 | no answer exactly when no start or stop call was accepted |
| InputDevices.StoppedFollowsLastStartOrStop | src/device/input/mod.rs:216-257 | after any call sequence the streams are stopped iff the last accepted start or stop was a stop, or none was accepted and they were stopped before |
| InputDevices.PauseTwiceRestores | src/device/input/mod.rs:242-257 | two accepted pauses restore any stream state |
| InputDevices.InputDevice.constructor | src/device/input/mod.rs:55-67 | a new input is stopped, with video and audio disabled, 2 channels, depth 16 and no callback context |
| InputDevices.InputDevice.DoesSupportVideoMode | src/device/input/mod.rs:70-97 | one driver call; on status 0 the support answer of `SupportResult`, otherwise `from(status)` |
| InputDevices.InputDevice.GetDisplayModes | src/device/input/mod.rs:99-111 | a failed iterator query returns its error; otherwise the strict drain of the iterator, which is then released |
| InputDevices.InputDevice.EnableVideoInput | src/device/input/mod.rs:118-136 | one driver call; video becomes enabled exactly on status 0 |
| InputDevices.InputDevice.DisableVideoInput | src/device/input/mod.rs:137-147 | `Ok` with no call when disabled; otherwise video becomes disabled exactly on status 0 |
| InputDevices.InputDevice.GetAvailableVideoFrameCount | src/device/input/mod.rs:149-159 | 0 with no call while video is disabled; otherwise the driver's count on status 0 |
| InputDevices.InputDevice.EnableAudioInput | src/device/input/mod.rs:163-187 | `Ok` with no call while enabled; otherwise one 48 kHz enable call, which on status 0 records the channel count and depth |
| InputDevices.InputDevice.DisableAudioInput | src/device/input/mod.rs:188-198 | as written: `Ok` with no call while disabled; otherwise one call whose status is the result, and the audio configuration is left exactly as it was, an accepted disable included |
| InputDevices.InputDevice.GetAvailableAudioSampleFrameCount | src/device/input/mod.rs:200-212 | 0 with no call while audio is disabled; otherwise the encoder-input count on status 0 |
| InputDevices.InputDevice.StartStreams | src/device/input/mod.rs:216-227 | `Ok` with no call while running; otherwise one call, and running exactly on status 0 |
| InputDevices.InputDevice.StopStreams | src/device/input/mod.rs:229-240 | `Ok` with no call while stopped; otherwise one call, and stopped exactly on status 0 |
| InputDevices.InputDevice.PauseStreams | src/device/input/mod.rs:242-257 | `Ok` with no call while stopped; otherwise one call, which on status 0 toggles running and paused |
| InputDevices.InputDevice.FlushStreams | src/device/input/mod.rs:259-267 | `Ok` with no call while stopped; otherwise one call; the state never changes |
| InputDevices.InputDevice.SetCallback | src/device/input/mod.rs:271-292 | a context (1 channel, depth 1) is registered only while none exists, and a refused registration is freed and returned; a poisoned lock gives `FAIL`; otherwise the handler is replaced |
| InputDevices.InputDevice.Drop | src/device/input/mod.rs:40-52 | stop the encoder streams, release the input, then free the callback context if there is one |
| InputDevices.CallbackPacketsHaveNoBytes | src/device/input/mod.rs:277 | packets delivered through a context registered with depth 1 report 0 bytes |
| InputCallbacks.InputCallbackWrapper.constructor | src/device/input/callback.rs:21-25 | a context holds no handler and the given audio layout |
| InputCallbacks.FreeInputCallbackWrapper | src/device/input/callback.rs:10-14 | the context is freed |
| InputCallbacks.RegisterInputCallback | src/device/input/callback.rs:16-43 | a fresh context with no handler and the given audio layout is handed to the driver; it is returned on status 0, and otherwise freed and the error returned |
| InputCallbacks.InputFrameArrived | src/device/input/callback.rs:64-99 | 0 with no handler; otherwise a null packet is `None`, a non-null one is wrapped with the context's layout and one reference, and the answer is 0 iff the handler accepts |
| InputCallbacks.VideoInputFormatChanged | src/device/input/callback.rs:100-127 | 0 with no handler; otherwise a null mode is `None`, event and signal bits are truncated to the known flags, and the answer is 0 iff the handler accepts |
| Output.OutputDevice.constructor | src/device/output/mod.rs:37-45 | a new output shares a fresh device record with neither channel claimed |
| Output.OutputDevice.DoesSupportVideoMode | src/device/output/mod.rs:48-75 | one driver call; on status 0 the support answer of `SupportResult`, otherwise `from(status)` |
| Output.OutputDevice.GetDisplayModes | src/device/output/mod.rs:77-89 | a failed iterator query returns its error; otherwise the strict drain of the iterator, which is then released |
| Output.OutputDevice.EnableVideoOutputInner | src/device/output/mod.rs:95-106 | the video flag ends set; if it was already set the answer is `ACCESSDENIED` with no call, otherwise exactly one enable call |
| Output.OutputDevice.IsScheduledPlaybackRunning | src/device/output/mod.rs:108-115 | one call; the driver's flag on status 0 |
| Output.OutputDevice.EnableVideoOutputScheduled | src/device/output/mod.rs:117-136 | the callback is registered first, and a refusal returns its error with the flag untouched; otherwise `ACCESSDENIED` with no call if the flag was set, else one enable call and `Ok` exactly when it answers 0, `from(status)` otherwise; the handle carries that context and the caller's timescale and is not playing |
| Output.OutputDevice.EnableVideoOutputSync | src/device/output/mod.rs:137-148 | `ACCESSDENIED` with no call while video is claimed; otherwise one enable call; the handle has no context, timescale 1000, and is not playing |
| Output.OutputDevice.CreateVideoFrame | src/device/output/mod.rs:150-175 | on status 0, a mutable frame on the new pointer whose base is a child; otherwise `from(status)` |
| Output.OutputDevice.EnableAudioOutput | src/device/output/mod.rs:179-200 | `ACCESSDENIED` with no call while audio is claimed; otherwise one 48 kHz enable call; the audio flag ends set and the video flag is untouched |
| OutputDevices.OutputDevicePtr.constructor | src/device/output/device.rs:6-10 | a device record with neither channel claimed |
| OutputAudio.AudioOutput.BeginAudioPreroll | src/device/output/audio.rs:26-31 | one call; its status as a result; no binding state changes |
| OutputAudio.AudioOutput.EndAudioPreroll | src/device/output/audio.rs:32-37 | one call; its status as a result; no binding state changes |
| OutputAudio.AudioOutput.BufferedAudioSampleFrameCount | src/device/output/audio.rs:43-52 | one call; the driver's count on status 0 |
| OutputAudio.AudioOutput.FlushBufferedAudioSamples | src/device/output/audio.rs:53-58 | one call; its status as a result; no binding state changes |
| OutputAudio.AudioOutput.Drop | src/device/output/audio.rs:13-19 | disable audio output, then clear the audio flag whatever the status; the video flag is untouched |
| OutputCallbacks.CallbackWrapper.constructor | src/device/output/video_callback.rs:17-19 | a new context has no handler |
| OutputCallbacks.ReturnCode | src/device/output/video_callback.rs:72-76 | 0 for true and 1 for false |
| OutputCallbacks.CompletionArguments | src/device/output/video_callback.rs:60-67 | a null frame becomes `None`; an unknown completion code becomes `Completed` |
| OutputCallbacks.ScheduledFrameCompleted | src/device/output/video_callback.rs:51-77 | 0 with no handler; otherwise 0 iff the handler accepts the converted arguments |
| OutputCallbacks.PlaybackStopped | src/device/output/video_callback.rs:78-91 | 1 exactly when a handler is installed and answers false |
| OutputCallbacks.FreeCallbackWrapper | src/device/output/video_callback.rs:8-12 | the context is freed |
| OutputCallbacks.RegisterCallback | src/device/output/video_callback.rs:14-37 | a fresh context with no handler is handed to the driver; it is returned on status 0, and otherwise freed and the error returned |
| OutputCallbacks.RegistrationFreesOnlyOnFailure | src/device/output/video_callback.rs:30-36 | registration allocates one context and frees it exactly once if refused, never if accepted |
| OutputVideo.CopyGuard | src/device/output/video.rs:147-151 | the frame's own error if `bytes()` fails; `INVALIDARG` exactly when fewer than `row_bytes * height` bytes are present |
| OutputVideo.CustomFrameGuard | src/device/output/video.rs:111-119 | the bytes' error; otherwise `INVALIDARG` exactly when the buffer is shorter than required or the required size is not a multiple of 64 |
| OutputVideo.ReleasedAfter | src/device/output/video.rs:252-292 | a created frame that is referenced, used and dropped takes and releases its reference once, releasing last |
| OutputVideo.CustomReleasedAfter | src/device/output/video.rs:93-137 | a created custom frame is released once, last |
| OutputVideo.WrappedSdkFrame.Drop | src/device/output/video.rs:283-292 | the frame is released once if non-null, then nulled |
| OutputVideo.WrappedCustomFrame.Drop | src/device/output/video.rs:297-306 | the custom frame is released once if non-null, then nulled |
| OutputVideo.VideoOutput.From | src/device/output/video.rs:239-250 | a handle with the given context and timescale, not playing |
| OutputVideo.VideoOutput.ConvertFrameWithoutBytes | src/device/output/video.rs:252-277 | one create call with the frame's geometry; `from(status)` on failure, `FAIL` for a null frame, and otherwise one reference taken |
| OutputVideo.VideoOutput.ScheduleFrameCopy | src/device/output/video.rs:141-174 | a failing guard returns before any driver call; otherwise a frame is created first; a scheduled frame gets exactly the copied bytes and the stored timescale, then is released; every created frame is released once, last |
| OutputVideo.VideoOutput.CopyAndSchedule | src/device/output/video.rs:153-173 | after the guard: create, fill and schedule, releasing the created frame once, last |
| OutputVideo.VideoOutput.FillAndSchedule | src/device/output/video.rs:155-173 | fetch the buffer, copy and schedule only on success with a non-null buffer, then release |
| OutputVideo.VideoOutput.DisplayFrameCopy | src/device/output/video.rs:72-91 | the frame is created before the guard; a failing guard is an error; a displayed frame got exactly the copied bytes; every created frame is released once, last |
| OutputVideo.VideoOutput.FillAndDisplay | src/device/output/video.rs:75-91 | fetch the buffer, check the bytes, copy and display, then release |
| OutputVideo.VideoOutput.DisplayCustomFrame | src/device/output/video.rs:93-137 | `from(status)` or `FAIL` when no custom frame is created; otherwise the frame is displayed exactly when the guard passes; the custom frame is released once, last |
| OutputVideo.VideoOutput.DropRefusedCustomFrame | src/device/output/video.rs:105-109 | the refusal path: the driver's error or `FAIL`, releasing any frame once |
| OutputVideo.VideoOutput.ShowCustomFrame | src/device/output/video.rs:111-137 | after creation: the guard decides; a passing frame gets its bytes and is displayed; the frame is released last |
| OutputVideo.VideoOutput.SetCallback | src/device/output/video.rs:176-189 | `HANDLE` with no context; otherwise only the context's handler is replaced |
| OutputVideo.VideoOutput.BufferedVideoFrameCount | src/device/output/video.rs:191-198 | one call; the driver's count on status 0 |
| OutputVideo.VideoOutput.StartPlayback | src/device/output/video.rs:200-216 | `Ok` with no call while playing; otherwise the flag is raised and one start call with the stored timescale decides the result; the flag stays raised either way |
| OutputVideo.VideoOutput.StopPlayback | src/device/output/video.rs:218-235 | `FALSE` with no call while stopped; otherwise the flag is cleared first and one stop call returns the actual stop time on status 0 |
| OutputVideo.VideoOutput.Drop | src/device/output/video.rs:43-67 | stop only if playing, then disable video output, then clear the video flag, then free the context if there is one and null it |
| Notifications.NotifyCallback | src/device/notification.rs:84-107 | 0 for another topic or an unmapped id without asking the handler; otherwise 0 iff the handler accepts the status id |
| Notifications.AgreeableHandlerAlwaysAcknowledged | src/device/notification.rs:84-107 | a handler that accepts every id is always answered 0 |
| Notifications.NotificationWrapper.constructor | src/device/notification.rs:35-38 | the context holds the handler and topic |
| Notifications.Subscribe | src/device/notification.rs:30-55 | a fresh context is allocated and subscribed; on status 0 a handle with that context and the driver's token; otherwise the error, and the context is not freed |
| Notifications.CallbackHandle.Drop | src/device/notification.rs:63-74 | unsubscribe with the stored topic and token, then free the context |
| Notifications.SubscriptionLifecycle | src/device/notification.rs:35-73 | subscribing and dropping the handle allocates the context once and frees it once, last |
| Rp188Output.MaxFps | examples/rp188_vitc_output.rs:43 | `timescale / 1000` by integer division: at least 1, and the largest multiple of 1000 not above the timescale |
| Rp188Output.TimecodeOf | examples/rp188_vitc_output.rs:42-60 | for a non-negative frame count: frames below `max_fps`, seconds and minutes below 60, hours below 24 |
| Rp188Output.TimecodeOfNonNegative | examples/rp188_vitc_output.rs:51-57 | for non-negative counts the truncating operations are the Euclidean ones |
| Rp188Output.TimecodeReconstructs | examples/rp188_vitc_output.rs:51-57 | `((h*60+m)*60+s)*max_fps + f` is the frame count modulo one day of frames |
| Rp188Output.TimecodeRoundTrip | examples/rp188_vitc_output.rs:51-57 | within the first day the timecode gives back the frame count exactly |
| Rp188Output.OutputCallback.constructor | examples/rp188_vitc_output.rs:133-138 | the counter starts at 0 |
| Rp188Output.OutputCallback.ScheduleNextFrame | examples/rp188_vitc_output.rs:62-74 | a dead output gives `HANDLE` and leaves the counter alone; otherwise the counter advances whatever happens, and the frame is scheduled at old count times duration |
| Rp188Output.OutputCallback.FrameCompleted | examples/rp188_vitc_output.rs:29-35 | panics without a frame; otherwise answers whether scheduling the next frame succeeded |
| Rp188Output.CountAfterExact | examples/rp188_vitc_output.rs:64 | below the `i64` limit, `k` counter steps from 0 leave the counter at exactly `k` |
| Rp188Output.DisplayTimeOfKthCall | examples/rp188_vitc_output.rs:64-70 | the `k`-th call of a fresh callback finds the counter at `k`, and so schedules at exactly `k * duration` while that fits in `i64` |
| Rp188Output.FillWithPattern | examples/rp188_vitc_output.rs:121-123 | each index below the length gets the pattern byte for that index |
| Rp188Output.FrameDataAsWritten | examples/rp188_vitc_output.rs:119-123 | as written the prepared data is empty |
| Rp188Output.FrameData | examples/rp188_vitc_output.rs:113-123 | as intended: `width * height` bytes repeating the 16-byte pattern from its start |
| Rp188Output.EmptyFrameDataRefused | examples/rp188_vitc_output.rs:104-124 | under the length check of src/frame.rs:74-78, every real frame expects a positive length, so the empty data is refused |
| ListDevices.Rank | examples/list_devices.rs:214-231 | each connection's position in the fixed port order |
| ListDevices.Names | examples/list_devices.rs:214-231 | one name per connection, pointwise |
| ListDevices.ListSupportedPorts | examples/list_devices.rs:211-233 | the names of the set connections, filtered from the fixed order |
| ListDevices.PortOrderRanks | examples/list_devices.rs:214-231 | the fixed order lists each connection at its rank |
| ListDevices.PortNameInjective | examples/list_devices.rs:214-231 | no two connections share a name |
| ListDevices.ListedMembers | examples/list_devices.rs:214-231 | a connection is listed iff it is in the order and in the set |
| ListDevices.ListedLength | examples/list_devices.rs:214-231 | the list is no longer than the order |
| ListDevices.ListedOrdered | examples/list_devices.rs:214-231 | filtering keeps the order |
| ListDevices.SupportedPortsList | examples/list_devices.rs:211-233 | a port name is listed iff its flag is set; the order is SDI, HDMI, Optical SDI, Component, Composite, SVideo; no duplicates; at most 6; empty flags give an empty list |
| ListDevices.Cell | examples/list_devices.rs:163-175 | an error and `NotSupported` both print as dashes; any other support prints the format name |
| ListDevices.QueryCell | examples/list_devices.rs:163-175 | one support query per format, printed as its cell |
| ListDevices.ModeRow | examples/list_devices.rs:162-176 | one support query per format, in order, each giving its cell |
| ModeDetection.ChoosePixelFormat | examples/automatic_mode_detection.rs:33-52 | 10-bit YUV or RGB; RGB exactly when the colour space changed and the signal is exactly RGB 4:4:4 |
| ModeDetection.ChoiceIgnoresOtherEvents | examples/automatic_mode_detection.rs:33-52 | without a colour-space event the choice is YUV; with one, only an exact RGB 4:4:4 signal picks RGB |
| ModeDetection.AfterPause | examples/automatic_mode_detection.rs:63 | the state after an accepted pause |
| ModeDetection.RestartRuns | examples/automatic_mode_detection.rs:63-72 | an accepted pause, flush and start leave the streams running from any state |
| ModeDetection.InputCallback.Resume | examples/automatic_mode_detection.rs:71-72 | flush then start; success leaves the streams running |
| ModeDetection.InputCallback.SwitchMode | examples/automatic_mode_detection.rs:63-70 | pause then enable video input; success leaves video enabled |
| ModeDetection.InputCallback.FormatChanged | examples/automatic_mode_detection.rs:26-78 | false with no call without a mode; otherwise never false; a poisoned lock panics with no call; the calls are a prefix of pause, enable, flush, start; true means the whole restart happened and the streams run with video enabled |

## Left out

- Foreign SDK calls are abstract. Each is one traced step with an arbitrary status and
  arbitrary out-values. Raw copies into driver memory become updates of `buffers`.
- C-string conversion is not modelled: `convert_string` and
  `convert_and_release_c_string` in src/util.rs. The strings that the name and version
  getters return are arbitrary values. For the same reason the older devices'
  `model_name`/`display_name` (src/device.rs:19-24, src/main.rs:71-78) and
  `DecklinkDisplayMode::name` are not modelled.
- The display-mode getters that only forward a driver answer are not modelled as
  driver calls: `width`, `height`, and `mode`/`field_dominance`/`flags` themselves.
  Their decoding is (`DisplayModes.ModeOf` and its neighbours). In the two examples the
  mode is passed on as its raw id.
- Concurrency is sequentialised:
  - `AtomicBool::swap` is a read followed by a write.
  - A poisoned or failing lock is a boolean parameter (`poisoned`, `lockOk`).
  - A dead `Weak` is a null or `None` value.
  - The races between driver callback threads and teardown are out of scope.
- Floating point is left out: the playback `speed`, the FPS printed by the listing
  example, and attribute float getters.
- src/device/attributes.rs, src/device/output.rs, `api_version` in src/lib.rs, build.rs,
  src/sdk_tests.rs and the UI and console examples are not part of this model.
- `LeakableVec`/`free_vec` (src/device/output/video.rs:308-336) are not part of this
  model. A custom frame's bytes are handed to the driver as one traced call.
- `wrap_frame`, which wraps a captured video frame, is imported from `crate::frame` by
  src/device/input/callback.rs:6, but src/frame.rs does not define it. A captured frame
  reaches the handler as its driver pointer.
- Every status-to-error conversion in the model uses the corrected `SdkErrors.FromCode`,
  including the gate's `ACCESSDENIED`. As written, on a 64-bit target, each such error
  would be `FALSE` (first row of Findings, `SdkErrors.FromCodeAsWrittenIsConstant`).
- `InputDevices.InputDevice.DisableAudioInput` follows the code as written. The corrected
  disable exists only as `InputDevices.AfterDisableAudio` and the lemmas about it, not as
  a method.
- The RP188 example calls three things that the library files do not define. The model
  stands in for each with the nearest library operation:
  - for `schedule_frame` (examples/rp188_vitc_output.rs:70), the trait at
    src/device/output/video.rs:17-35 has only `schedule_frame_copy`, which is
    `OutputVideo.VideoOutput.ScheduleFrameCopy`;
  - for `DecklinkVideoMutableFrame::create` (line 104), the frame geometry is a parameter;
  - for `set_bytes(Vec)` with `expect` (line 124), the model uses the length check of
    `set_bytes(&[u8]) -> bool` at src/frame.rs:74-78.
- `Rp188Output.OutputCallback.ScheduleNextFrame` requires a timescale of at least 1000,
  so it does not model the division by zero that panics for a smaller one
  (examples/rp188_vitc_output.rs:43,51). It also does not model the panic of
  `.lock().unwrap()` on a poisoned lock (line 69).
- The numeric values of enums and bit flags come from a generated binding that is not
  part of this model. They are parameters:
  - the value tables;
  - `formatCode` and `detectionBits` in `ModeDetection.InputCallback.FormatChanged`.
- Integer overflow is modelled as release-build wrap-around (`Common.WrapI64`,
  `Common.WrapU32`). Debug-build overflow panics are not modelled.
- Driver iterators answer from a finite script (`seq<Answer>`), and report `S_FALSE`
  once it is used up. An iterator that never ends is not modelled.
- Printing, `main` functions, the outer loop of `print_modes` over display modes, and
  `main` of the mode-detection example are not modelled.
- `ModeDetection.InputCallback.FormatChanged` does not state which failed step caused a
  panic. It states only that the calls made are a prefix of the restart, and that a
  panic after the lock made at least one call. From `Paused`, `pause_streams` resumes the
  streams, so the restart flushes but does not call start.
- `OutputVideo.VideoOutput.ScheduleFrameCopy` and `OutputVideo.VideoOutput.DisplayFrameCopy`
  do not state which error each failing driver step returns. After the byte guard they
  state:
  - the first call;
  - the full trace of a scheduled or displayed frame;
  - that every created frame is released once, last.
- `Rp188Output.OutputCallback.ScheduleNextFrame` states the driver trace only for a frame
  that was scheduled. On the failure paths it states the counter and the time, not the
  calls.
- `Frames.ExpectedLen` states the value only when `row_bytes * height` fits in 64 bits.
  Beyond that the cast's wrap-around is computed but not described.
- `InputAudio.ByteCount` states its exact value only through
  `InputAudio.ByteCountExact`, for inputs without overflow.
- `DeviceStatuses.DeviceStatus.GetBytes` states the length of the filled buffer, not its
  contents, which the driver writes.

## Findings

| source | as written | input that shows it | evidently intended | confidence | as-written member | corrected member |
|---|---|---|---|---|---|---|
| src/util.rs:23-25 | the derived `from_i32` compares the status widened to 64 bits with the `isize` discriminants, which are written as unsigned hex and exceed `i32::MAX` | status `0x80000008` (`E_FAIL`, -2147483640) converts to `FALSE` | every error status converts to its own variant, as src/main.rs:34-48 does | medium (not executed; depends on a 64-bit `isize`) | SdkErrors.FromCodeAsWrittenMissesFail | SdkErrors.FromCodeRoundTrip |
| wrapper.h:40 | `IS_ERROR` casts the status to `unsigned long` before shifting by 31 | any negative status, e.g. `E_FAIL`, on a platform whose `unsigned long` is 64 bits: the sign extension sets bits above 31, so the shifted value is not 1 | the severity bit test, equivalent to `FAILED` | medium (not executed; platform-dependent) | HResult.IsErrorAsWrittenMissesFail | HResult.IsErrorIsSeverity |
| src/device/input/mod.rs:194 | an accepted `disable_audio_input` assigns `audio_enabled = true` | enable audio (status 0), disable (status 0): audio still reads as enabled, and a later enable with a new layout is a no-op | the disable clears the flag, as `disable_video_input` does | high (not executed) | InputDevices.AudioConfigFrozenAsWritten | InputDevices.AudioReconfigurable |
| examples/rp188_vitc_output.rs:119-123 | `reserve` grows only the capacity, so the fill loop over `len()` runs zero times and the data is empty | any mode, e.g. 1920 x 1080: the data handed to `set_bytes` has 0 bytes | a vector of `width * height` bytes filled with the pattern | high (not executed) | Rp188Output.FrameDataAsWritten | Rp188Output.FrameData |
