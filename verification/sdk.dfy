/** The DeckLink C driver, seen from the binding. Every driver entry point the binding
    calls is an `Event`; calling it appends the event to a ghost trace and answers with an
    arbitrary status (and, where the C function has one, an arbitrary out-value). The
    binding's own bookkeeping that matters for ordering — allocating and freeing a callback
    context, clearing an exclusivity flag — is recorded in the same trace, so "what happens
    in which order" is a statement about the trace. Enumerations and flags cross this
    boundary as the raw numbers `as u32` and `.bits()` give. */
module Sdk {
  import opened Common
  import opened Enums

  datatype Event =
    // output device (src/device/output/*.rs)
    | OutputEnableVideoOutput(dev: Ptr, mode: U32, flags: U32)
    | OutputDisableVideoOutput(dev: Ptr)
    | OutputIsScheduledPlaybackRunning(dev: Ptr)
    | OutputSetScheduledFrameCompletionCallback(dev: Ptr, context: object)
    | OutputStartScheduledPlayback(dev: Ptr, startTime: I64, timescale: I64)
    | OutputStopScheduledPlayback(dev: Ptr, stopTime: I64, timescale: I64)
    | OutputScheduleVideoFrame(dev: Ptr, frame: Ptr, displayTime: I64, duration: I64, timescale: I64)
    | OutputDisplayVideoFrameSync(dev: Ptr, frame: Ptr)
    | OutputGetBufferedVideoFrameCount(dev: Ptr)
    | OutputCreateVideoFrame(dev: Ptr, width: int, height: int, rowBytes: int, pixelFormat: U32, flags: U32)
    | OutputDoesSupportVideoMode(dev: Ptr, mode: U32, pixelFormat: U32, flags: U32)
    | OutputGetDisplayModeIterator(dev: Ptr)
    | OutputEnableAudioOutput(dev: Ptr, sampleRate: U32, sampleType: U32, channels: U32, streamType: U32)
    | OutputDisableAudioOutput(dev: Ptr)
    | OutputBeginAudioPreroll(dev: Ptr)
    | OutputEndAudioPreroll(dev: Ptr)
    | OutputGetBufferedAudioSampleFrameCount(dev: Ptr)
    | OutputFlushBufferedAudioSamples(dev: Ptr)
    // frames (src/frame.rs, src/device/output/video.rs)
    | VideoFrameAddRef(frame: Ptr)
    | VideoFrameRelease(frame: Ptr)
    | VideoFrameGetBytes(frame: Ptr)
    | VideoFrameBytes(frame: Ptr)
    | VideoFrameRowBytes(frame: Ptr)
    | VideoFrameHeight(frame: Ptr)
    | DestroyFrame(frame: Ptr)
    | DestroyMutableFrame(frame: Ptr)
    | VideoMutableFrameSetFlags(frame: Ptr, flags: U32)
    | VideoMutableFrameBase(frame: Ptr)
    | CustomVideoFrameCreate(width: int, height: int, rowBytes: int, pixelFormat: U32, flags: U32)
    | CustomVideoFrameSetBytes(frame: Ptr, data: seq<Byte>)
    | CustomVideoFrameRelease(frame: Ptr)
    // display modes (src/display_mode.rs)
    | NextDisplayMode(iter: Ptr)
    | DisplayModeIteratorRelease(iter: Ptr)
    // input device (src/device/input/*.rs)
    | InputEnableVideoInput(dev: Ptr, mode: U32, pixelFormat: U32, flags: U32)
    | InputDisableVideoInput(dev: Ptr)
    | InputGetAvailableVideoFrameCount(dev: Ptr)
    | InputDoesSupportVideoMode(dev: Ptr, mode: U32, pixelFormat: U32, flags: U32)
    | InputGetDisplayModeIterator(dev: Ptr)
    | InputEnableAudioInput(dev: Ptr, sampleRate: U32, sampleType: U32, channelCount: U32)
    | InputDisableAudioInput(dev: Ptr)
    | EncoderInputGetAvailableAudioSampleFrameCount(dev: Ptr)
    | InputStartStreams(dev: Ptr)
    | InputStopStreams(dev: Ptr)
    | InputPauseStreams(dev: Ptr)
    | InputFlushStreams(dev: Ptr)
    | InputSetCallback(dev: Ptr, context: object)
    | EncoderInputStopStreams(dev: Ptr)
    | InputRelease(dev: Ptr)
    | AudioInputPacketAddRef(packet: Ptr)
    | AudioInputPacketRelease(packet: Ptr)
    | AudioInputPacketGetSampleFrameCount(packet: Ptr)
    | AudioInputPacketGetBytes(packet: Ptr)
    | AudioInputPacketGetPacketTime(packet: Ptr, timescale: I64)
    // notifications (src/device/notification.rs)
    | NotificationSubscribe(dev: Ptr, topic: U32, context: object)
    | NotificationUnsubscribe(dev: Ptr, topic: U32, token: Ptr)
    // devices (src/device/mod.rs, src/device.rs, src/main.rs)
    | CreateDecklinkIteratorInstance
    | IteratorNext(iter: Ptr)
    | IteratorRelease(iter: Ptr)
    | CreateIterator
    | NextDevice(iter: Ptr)
    | DestroyIterator(iter: Ptr)
    | ApiVersion(iter: Ptr)
    | DeviceGetModelName(dev: Ptr)
    | DeviceGetDisplayName(dev: Ptr)
    | DeviceQueryOutput(dev: Ptr)
    | DeviceQueryStatus(dev: Ptr)
    | DeviceRelease(dev: Ptr)
    | DestroyDevice(dev: Ptr)
    // device status (src/device/status.rs)
    | StatusGetInt(dev: Ptr, id: StatusId)
    | StatusGetFlag(dev: Ptr, id: StatusId)
    | StatusGetBytes(dev: Ptr, id: StatusId, withBuffer: bool)
    | StatusRelease(dev: Ptr)
    // bookkeeping on the binding's side
    | Alloc(block: object)
    | Free(block: object)
    | ClearVideoActive(dev: Ptr)
    | ClearAudioActive(dev: Ptr)

  /** The driver's value for a 48 kHz audio sample rate, the only rate the binding asks
      for, on output and on input. */
  const SampleRate48kHz: U32 := 48000

  /** One answer of a driver iterator: the status of a `next` call and the pointer it
      wrote. */
  datatype Answer = Answer(status: I32, ptr: Ptr)

  /** The answer to the `k`-th `next` call of an iterator whose answers are `answers`;
      an iterator that has run out reports `S_FALSE` (1). */
  function AnswerAt(answers: seq<Answer>, k: nat): (a: Answer)
    ensures k >= |answers| ==> a.status == 1
  {
    if k < |answers| then answers[k] else Answer(1, Null)
  }

  /** How often `e` occurs in `trace`. */
  function Count(trace: seq<Event>, e: Event): nat {
    multiset(trace)[e]
  }

  /** `added` takes the reference `acquire` once and gives it back with `release` once,
      as its last step. */
  predicate TakenOnceReleasedLast(added: seq<Event>, acquire: Event, release: Event) {
    Count(added, acquire) == 1 && Count(added, release) == 1
    && |added| > 0 && added[|added| - 1] == release
  }

  /** Calls that take a reference with `acquire`, make calls that do not touch it, and
      give it back with `release` take and release it once, releasing it last. */
  lemma {:induction false} Enclosed(
    before: seq<Event>, acquire: Event, middle: seq<Event>, release: Event)
    requires acquire != release
    requires acquire !in before && release !in before
    requires acquire !in middle && release !in middle
    ensures TakenOnceReleasedLast(before + [acquire] + middle + [release], acquire, release)
  {
    var s := before + [acquire] + middle + [release];
    assert multiset(s) == multiset(before) + multiset{acquire} + multiset(middle) + multiset{release};
    assert multiset(before)[acquire] == 0 && multiset(before)[release] == 0;
    assert multiset(middle)[acquire] == 0 && multiset(middle)[release] == 0;
  }

  class Driver {
    /** Every driver call and bookkeeping step so far, oldest first. */
    ghost var trace: seq<Event>
    /** Driver-owned frame buffers that the binding has written, by buffer address. */
    var buffers: map<Ptr, seq<Byte>>

    constructor ()
      ensures trace == [] && buffers == map[]
    {
      trace := [];
      buffers := map[];
    }

    /** A driver call that returns only a status. */
    method Call(e: Event) returns (status: I32)
      modifies this
      ensures trace == old(trace) + [e]
      ensures buffers == old(buffers)
    {
      status :| true;
      trace := trace + [e];
    }

    /** A driver call that returns a status and writes a pointer through an out-argument. */
    method CallPtr(e: Event) returns (status: I32, p: Ptr)
      modifies this
      ensures trace == old(trace) + [e]
      ensures buffers == old(buffers)
    {
      status :| true;
      p :| true;
      trace := trace + [e];
    }

    /** A driver call that returns a status and writes a number through an out-argument
        (a count, a time, a size, a raw enumeration value). */
    method CallInt(e: Event) returns (status: I32, v: I64)
      modifies this
      ensures trace == old(trace) + [e]
      ensures buffers == old(buffers)
    {
      status :| true;
      v :| true;
      trace := trace + [e];
    }

    /** A driver call that returns a status and two numbers through out-arguments. */
    method CallInt2(e: Event) returns (status: I32, v: I64, w: I64)
      modifies this
      ensures trace == old(trace) + [e]
      ensures buffers == old(buffers)
    {
      status :| true;
      v :| true;
      w :| true;
      trace := trace + [e];
    }

    /** A driver call that returns a status and writes a `u32` through an out-argument. */
    method CallU32(e: Event) returns (status: I32, v: U32)
      modifies this
      ensures trace == old(trace) + [e]
      ensures buffers == old(buffers)
    {
      status :| true;
      v :| true;
      trace := trace + [e];
    }

    /** A driver call that returns a status, a `u32` and a pointer through out-arguments. */
    method CallU32Ptr(e: Event) returns (status: I32, v: U32, p: Ptr)
      modifies this
      ensures trace == old(trace) + [e]
      ensures buffers == old(buffers)
    {
      status :| true;
      v :| true;
      p :| true;
      trace := trace + [e];
    }

    /** A driver call that returns a status and writes a `bool` through an out-argument. */
    method CallBool(e: Event) returns (status: I32, b: bool)
      modifies this
      ensures trace == old(trace) + [e]
      ensures buffers == old(buffers)
    {
      status :| true;
      b :| true;
      trace := trace + [e];
    }

    /** A driver call that fills a caller-owned buffer of `n` bytes in place. */
    method Fill(e: Event, n: nat) returns (status: I32, data: seq<Byte>)
      modifies this
      ensures trace == old(trace) + [e]
      ensures buffers == old(buffers)
      ensures |data| == n
    {
      status :| true;
      data := seq(n, _ => 0);
      trace := trace + [e];
    }

    /** The `next` call of an iterator, answered with `a`. */
    method Next(e: Event, a: Answer) returns (status: I32, p: Ptr)
      modifies this
      ensures trace == old(trace) + [e]
      ensures buffers == old(buffers)
      ensures status == a.status && p == a.ptr
    {
      status, p := a.status, a.ptr;
      trace := trace + [e];
    }

    /** A driver call whose C return value is the answer itself, not a status. */
    method Query(e: Event) returns (v: I64)
      modifies this
      ensures trace == old(trace) + [e]
      ensures buffers == old(buffers)
    {
      v :| true;
      trace := trace + [e];
    }

    /** A driver call that returns a status and a string through an out-argument; `text`
        is what the binding's C-string conversion makes of it. */
    method CallText(e: Event) returns (status: I32, text: string)
      modifies this
      ensures trace == old(trace) + [e]
      ensures buffers == old(buffers)
    {
      status :| true;
      text :| true;
      trace := trace + [e];
    }

    /** A driver call whose C return value is a string; `text` is its conversion. */
    method QueryText(e: Event) returns (text: string)
      modifies this
      ensures trace == old(trace) + [e]
      ensures buffers == old(buffers)
    {
      text :| true;
      trace := trace + [e];
    }

    /** A driver call that returns a pointer (null on failure). */
    method QueryPtr(e: Event) returns (p: Ptr)
      modifies this
      ensures trace == old(trace) + [e]
      ensures buffers == old(buffers)
    {
      p :| true;
      trace := trace + [e];
    }

    /** `std::ptr::copy` of `data` into the driver buffer at `dest`. */
    method Write(dest: Ptr, data: seq<Byte>)
      modifies this
      ensures buffers == old(buffers)[dest := data]
      ensures trace == old(trace)
    {
      buffers := buffers[dest := data];
    }

    /** `slice::from_raw_parts(src, n)`: `n` bytes of driver memory. */
    method Read(src: Ptr, n: nat) returns (data: seq<Byte>)
      ensures |data| == n
      ensures src in buffers && n <= |buffers[src]| ==> data == buffers[src][..n]
    {
      if src in buffers && n <= |buffers[src]| {
        data := buffers[src][..n];
      } else {
        data := seq(n, _ => 0);
      }
    }

    /** A step of the binding's own bookkeeping, recorded for ordering statements. */
    ghost method Note(e: Event)
      modifies this
      ensures trace == old(trace) + [e]
      ensures buffers == old(buffers)
    {
      trace := trace + [e];
    }
  }
}
