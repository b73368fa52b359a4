/** The bridge between the driver's scheduled-output callbacks and the application's
    handler (src/device/output/video_callback.rs). The context block handed to the driver
    is a `CallbackWrapper`; the two `extern "C"` entry points are pure dispatch functions
    from the installed handler and the raw callback arguments to an HRESULT of 0 or 1. */
module OutputCallbacks {
  import opened Common
  import opened SdkErrors
  import opened Sdk
  import opened Enums

  /** A `DeckLinkVideoOutputCallback`, reduced to the answers its two methods give. */
  datatype OutputHandler = OutputHandler(
    frameCompleted: (Option<Ptr>, CompletionResult) -> bool,
    playbackStopped: () -> bool)

  /** The heap block whose address is the driver's callback context. */
  class CallbackWrapper {
    var handler: Option<OutputHandler>

    constructor ()
      ensures handler == None
    {
      handler := None;
    }
  }

  /** The HRESULT a callback returns for the handler's answer: 0 (S_OK) for true,
      1 (S_FALSE) for false. */
  function ReturnCode(ok: bool): (r: I32)
    ensures r == 0 <==> ok
    ensures r == 1 <==> !ok
  {
    if ok then 0 else 1
  }

  /** The arguments the completion callback hands to the handler: the frame pointer as an
      optional frame, and the raw completion code decoded with `Completed` as default. */
  function CompletionArguments(frame: Ptr, result: U32, table: map<int, CompletionResult>)
    : (args: (Option<Ptr>, CompletionResult))
    ensures args.0.None? <==> frame == Null
    ensures args.0.Some? ==> args.0.value == frame
    ensures result in table ==> args.1 == table[result]
    ensures result !in table ==> args.1 == Completed
  {
    (NonNull(frame), FromPrimitive(table, result).UnwrapOr(Completed))
  }

  /** `schedule_frame_completed_callback`: with no handler installed the callback
      succeeds; otherwise it reports the handler's answer. */
  function ScheduledFrameCompleted(
    handler: Option<OutputHandler>, frame: Ptr, result: U32, table: map<int, CompletionResult>)
    : (r: I32)
    ensures r == 0 || r == 1
    ensures handler.None? ==> r == 0
    ensures handler.Some? ==>
      var args := CompletionArguments(frame, result, table);
      (r == 0 <==> handler.value.frameCompleted(args.0, args.1))
  {
    match handler
    case None => 0
    case Some(h) =>
      var args := CompletionArguments(frame, result, table);
      ReturnCode(h.frameCompleted(args.0, args.1))
  }

  /** `playback_stopped`: 0 with no handler, else the handler's answer. */
  function PlaybackStopped(handler: Option<OutputHandler>): (r: I32)
    ensures r == 0 || r == 1
    ensures r == 1 <==> handler.Some? && !handler.value.playbackStopped()
  {
    match handler
    case None => 0
    case Some(h) => ReturnCode(h.playbackStopped())
  }

  /** `free_callback_wrapper`: reclaim the box. */
  method FreeCallbackWrapper(driver: Driver, wrapper: CallbackWrapper)
    modifies driver
    ensures driver.trace == old(driver.trace) + [Free(wrapper)]
    ensures driver.buffers == old(driver.buffers)
  {
    driver.Note(Free(wrapper));
  }

  /** `register_callback`: allocate a wrapper with no handler, hand it to the driver, and
      free it again if the driver refuses it. `status` is the driver's answer. */
  method RegisterCallback(driver: Driver, dev: Ptr)
    returns (r: Result<CallbackWrapper>, ghost wrapper: CallbackWrapper, ghost status: I32)
    modifies driver
    ensures fresh(wrapper) && wrapper.handler == None
    ensures r == CheckStatusOr(status, wrapper)
    ensures driver.trace == old(driver.trace)
      + [Alloc(wrapper), OutputSetScheduledFrameCompletionCallback(dev, wrapper)]
      + (if r.Ok? then [] else [Free(wrapper)])
    ensures driver.buffers == old(driver.buffers)
  {
    var w := new CallbackWrapper();
    driver.Note(Alloc(w));
    var s := driver.Call(OutputSetScheduledFrameCompletionCallback(dev, w));
    r := CheckStatusOr(s, w);
    if r.Err? {
      FreeCallbackWrapper(driver, w);
    }
    wrapper, status := w, s;
  }

  // ---- properties ----

  /** A refused registration frees the wrapper exactly once; an accepted one never does. */
  lemma RegistrationFreesOnlyOnFailure(
    t: seq<Event>, wrapper: CallbackWrapper, dev: Ptr, status: I32)
    requires Alloc(wrapper) !in t && Free(wrapper) !in t
    ensures var t' := t + [Alloc(wrapper), OutputSetScheduledFrameCompletionCallback(dev, wrapper)]
      + (if CheckStatusOr(status, wrapper).Ok? then [] else [Free(wrapper)]);
      Count(t', Alloc(wrapper)) == 1
      && Count(t', Free(wrapper)) == (if IsOk(status) then 0 else 1)
  {
  }
}
