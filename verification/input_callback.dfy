/** The bridge between the driver's capture callbacks and the application's handler
    (src/device/input/callback.rs). The context block is an `InputCallbackWrapper` that
    also carries the audio layout every delivered packet is wrapped with. */
module InputCallbacks {
  import opened Common
  import opened SdkErrors
  import opened Sdk
  import opened Enums
  import opened DisplayModes
  import opened InputAudio
  import OutputCallbacks

  /** A `DeckLinkVideoInputCallback`, reduced to the answers its two methods give for the
      values they are handed. A captured video frame is handed over as its driver pointer. */
  datatype InputHandler = InputHandler(
    frameArrived: (Option<Ptr>, Option<AudioInputPacket>) -> bool,
    formatChanged: (set<FormatChangedEvent>, Option<DisplayMode>, set<DetectedFormatFlag>) -> bool)

  /** The heap block whose address is the driver's callback context. */
  class InputCallbackWrapper {
    var handler: Option<InputHandler>
    const audioChannels: U32
    const audioSampleDepth: U32

    constructor (audioChannels: U32, audioSampleDepth: U32)
      ensures handler == None
      ensures this.audioChannels == audioChannels && this.audioSampleDepth == audioSampleDepth
    {
      handler := None;
      this.audioChannels := audioChannels;
      this.audioSampleDepth := audioSampleDepth;
    }
  }

  /** `free_callback_wrapper`: reclaim the box. */
  method FreeInputCallbackWrapper(driver: Driver, wrapper: InputCallbackWrapper)
    modifies driver
    ensures driver.trace == old(driver.trace) + [Free(wrapper)]
    ensures driver.buffers == old(driver.buffers)
  {
    driver.Note(Free(wrapper));
  }

  /** `register_callback`: allocate a context with no handler and the given audio layout,
      hand it to the driver, and free it again if the driver refuses it. */
  method RegisterInputCallback(driver: Driver, dev: Ptr, audioChannels: U32, audioSampleDepth: U32)
    returns (r: Result<InputCallbackWrapper>, ghost wrapper: InputCallbackWrapper, ghost status: I32)
    modifies driver
    ensures fresh(wrapper) && wrapper.handler == None
    ensures wrapper.audioChannels == audioChannels && wrapper.audioSampleDepth == audioSampleDepth
    ensures r == CheckStatusOr(status, wrapper)
    ensures driver.trace == old(driver.trace)
      + [Alloc(wrapper), InputSetCallback(dev, wrapper)]
      + (if r.Ok? then [] else [Free(wrapper)])
    ensures driver.buffers == old(driver.buffers)
  {
    var w := new InputCallbackWrapper(audioChannels, audioSampleDepth);
    driver.Note(Alloc(w));
    var s := driver.Call(InputSetCallback(dev, w));
    r := CheckStatusOr(s, w);
    if r.Err? {
      FreeInputCallbackWrapper(driver, w);
    }
    wrapper, status := w, s;
  }

  /** `input_frame_arrived`: with no handler the callback answers `S_OK` and touches
      nothing. Otherwise a non-null audio packet is wrapped (taking a reference) with the
      context's audio layout, and the callback answers `S_OK` exactly when the handler
      accepts the frame and the packet. */
  method InputFrameArrived(driver: Driver, wrapper: InputCallbackWrapper, videoFrame: Ptr, audioPacket: Ptr)
    returns (r: I32, ghost packet: Option<AudioInputPacket>)
    modifies driver
    ensures r == 0 || r == 1
    ensures wrapper.handler.None? ==> r == 0 && driver.trace == old(driver.trace)
    ensures wrapper.handler.Some? ==>
      (packet.None? <==> audioPacket == Null)
      && (packet.Some? ==>
            fresh(packet.value) && packet.value.packet == audioPacket
            && packet.value.driver == driver
            && packet.value.channels == wrapper.audioChannels
            && packet.value.sampleDepth == wrapper.audioSampleDepth)
      && (r == 0 <==> wrapper.handler.value.frameArrived(NonNull(videoFrame), packet))
      && driver.trace == old(driver.trace)
         + (if audioPacket != Null then [AudioInputPacketAddRef(audioPacket)] else [])
    ensures driver.buffers == old(driver.buffers)
  {
    r := 0;
    packet := None;
    if wrapper.handler.Some? {
      var h := wrapper.handler.value;
      var p: Option<AudioInputPacket> := None;
      if audioPacket != Null {
        var wrapped := WrapPacket(driver, audioPacket, wrapper.audioChannels, wrapper.audioSampleDepth);
        p := Some(wrapped);
      }
      packet := p;
      r := OutputCallbacks.ReturnCode(h.frameArrived(NonNull(videoFrame), p));
    }
  }

  /** `video_input_format_changed`: with no handler the callback answers `S_OK`.
      Otherwise the event and signal words are decoded with unknown bits dropped, a
      non-null mode is wrapped, and the callback answers `S_OK` exactly when the handler
      accepts them. The driver is not called. */
  method VideoInputFormatChanged(
    wrapper: InputCallbackWrapper, events: U32, newDisplayMode: Ptr, detectedSignalFlags: U32,
    eventPositions: map<FormatChangedEvent, nat>, flagPositions: map<DetectedFormatFlag, nat>)
    returns (r: I32, ghost mode: Option<DisplayMode>)
    ensures r == 0 || r == 1
    ensures wrapper.handler.None? ==> r == 0
    ensures wrapper.handler.Some? ==>
      (mode.None? <==> newDisplayMode == Null)
      && (mode.Some? ==> fresh(mode.value) && mode.value.mode == newDisplayMode)
      && (r == 0 <==> wrapper.handler.value.formatChanged(
            FromBitsTruncate(events, eventPositions), mode,
            FromBitsTruncate(detectedSignalFlags, flagPositions)))
  {
    r := 0;
    mode := None;
    if wrapper.handler.Some? {
      var h := wrapper.handler.value;
      var m: Option<DisplayMode> := None;
      if newDisplayMode != Null {
        var wrapped := new DisplayMode(newDisplayMode);
        m := Some(wrapped);
      }
      mode := m;
      r := OutputCallbacks.ReturnCode(h.formatChanged(
        FromBitsTruncate(events, eventPositions), m,
        FromBitsTruncate(detectedSignalFlags, flagPositions)));
    }
  }
}
