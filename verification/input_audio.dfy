/** A captured audio packet (src/device/input/audio.rs): a reference to the driver's packet
    together with the channel count and sample depth the callback context was registered
    with, which is all the binding knows about the packet's layout. */
module InputAudio {
  import opened Common
  import opened SdkErrors
  import opened Sdk

  /** `get_byte_count` on a 64-bit target, with the wrap-around of a release build: the
      frame count cast `as usize`, times the `u32` product of the channel count and whole
      bytes per sample. */
  function ByteCount(frames: I64, channels: U32, depth: U32): (n: U64)
    ensures depth < 8 || channels == 0 || frames == 0 ==> n == 0
  {
    var perFrame := WrapU32(channels * (depth / 8));
    ((frames % 0x1_0000_0000_0000_0000) * perFrame) % 0x1_0000_0000_0000_0000
  }

  /** Without overflow the byte count is frames times channels times bytes per sample. */
  lemma ByteCountExact(frames: I64, channels: U32, depth: U32)
    requires 0 <= frames
    requires channels * (depth / 8) < 0x1_0000_0000
    requires frames * (channels * (depth / 8)) < 0x1_0000_0000_0000_0000
    ensures ByteCount(frames, channels, depth) == frames * channels * (depth / 8)
  {
    var perFrame := channels * (depth / 8);
    assert WrapU32(perFrame) == perFrame;
    assert frames % 0x1_0000_0000_0000_0000 == frames;
    assert frames * channels * (depth / 8) == frames * perFrame;
  }

  class AudioInputPacket {
    const driver: Driver
    var packet: Ptr
    const channels: U32
    const sampleDepth: U32

    constructor (driver: Driver, packet: Ptr, channels: U32, sampleDepth: U32)
      ensures this.driver == driver && this.packet == packet
      ensures this.channels == channels && this.sampleDepth == sampleDepth
    {
      this.driver := driver;
      this.packet := packet;
      this.channels := channels;
      this.sampleDepth := sampleDepth;
    }

    /** `get_sample_frame_count`: the driver's answer, unchecked. */
    method GetSampleFrameCount() returns (frames: I64)
      modifies driver
      ensures driver.trace == old(driver.trace) + [AudioInputPacketGetSampleFrameCount(packet)]
      ensures driver.buffers == old(driver.buffers)
    {
      frames := driver.Query(AudioInputPacketGetSampleFrameCount(packet));
    }

    /** `get_byte_count`: the packet's size in bytes for the layout this wrapper assumes. */
    method GetByteCount() returns (n: U64, ghost frames: I64)
      modifies driver
      ensures n == ByteCount(frames, channels, sampleDepth)
      ensures driver.trace == old(driver.trace) + [AudioInputPacketGetSampleFrameCount(packet)]
      ensures driver.buffers == old(driver.buffers)
    {
      var f := GetSampleFrameCount();
      frames := f;
      n := ByteCount(f, channels, sampleDepth);
    }

    /** `get_bytes`: on `S_OK`, the `get_byte_count` bytes starting at the address the
        driver wrote; the frame count is asked for only then. */
    method GetBytes() returns (r: Result<seq<Byte>>, ghost status: I32, ghost src: Ptr, ghost frames: I64)
      modifies driver
      ensures r.Ok? <==> IsOk(status)
      ensures r.Err? ==>
        r.error == FromCode(status)
        && driver.trace == old(driver.trace) + [AudioInputPacketGetBytes(packet)]
      ensures r.Ok? ==>
        var n := ByteCount(frames, channels, sampleDepth);
        |r.value| == n
        && (src in driver.buffers && n <= |driver.buffers[src]| ==> r.value == driver.buffers[src][..n])
        && driver.trace == old(driver.trace)
           + [AudioInputPacketGetBytes(packet), AudioInputPacketGetSampleFrameCount(packet)]
      ensures driver.buffers == old(driver.buffers)
    {
      var s, p := driver.CallPtr(AudioInputPacketGetBytes(packet));
      status, src, frames := s, p, 0;
      if IsOk(s) {
        var n, f := GetByteCount();
        frames := f;
        var data := driver.Read(p, n);
        r := Ok(data);
      } else {
        r := Err(FromCode(s));
      }
    }

    /** `get_packet_time`: the packet's time in units of `timescale`, on success. */
    method GetPacketTime(timescale: I64) returns (r: Result<I64>, ghost status: I32, ghost time: I64)
      modifies driver
      ensures r == CheckStatusOr(status, time)
      ensures driver.trace == old(driver.trace) + [AudioInputPacketGetPacketTime(packet, timescale)]
      ensures driver.buffers == old(driver.buffers)
    {
      var s, t := driver.CallInt(AudioInputPacketGetPacketTime(packet, timescale));
      status, time := s, t;
      r := CheckStatusOr(s, t);
    }

    /** `Drop`: give the reference back once and forget the pointer. */
    method Drop()
      modifies this`packet, driver
      ensures packet == Null
      ensures driver.trace == old(driver.trace)
        + (if old(packet) != Null then [AudioInputPacketRelease(old(packet))] else [])
      ensures driver.buffers == old(driver.buffers)
    {
      if packet != Null {
        var _ := driver.Call(AudioInputPacketRelease(packet));
        packet := Null;
      }
    }
  }

  /** `wrap_packet`: take a reference on the driver's packet and remember the layout. */
  method WrapPacket(driver: Driver, ptr: Ptr, channels: U32, sampleDepth: U32)
    returns (p: AudioInputPacket)
    modifies driver
    ensures fresh(p) && p.driver == driver && p.packet == ptr
    ensures p.channels == channels && p.sampleDepth == sampleDepth
    ensures driver.trace == old(driver.trace) + [AudioInputPacketAddRef(ptr)]
    ensures driver.buffers == old(driver.buffers)
  {
    var _ := driver.Call(AudioInputPacketAddRef(ptr));
    p := new AudioInputPacket(driver, ptr, channels, sampleDepth);
  }

  /** A packet wrapped, used through calls that do not touch its reference, and dropped
      takes the reference once and gives it back once, last. */
  lemma WrappedPacketReleasedOnce(before: seq<Event>, ptr: Ptr, middle: seq<Event>)
    requires AudioInputPacketAddRef(ptr) !in before && AudioInputPacketRelease(ptr) !in before
    requires AudioInputPacketAddRef(ptr) !in middle && AudioInputPacketRelease(ptr) !in middle
    ensures TakenOnceReleasedLast(
      before + [AudioInputPacketAddRef(ptr)] + middle + [AudioInputPacketRelease(ptr)],
      AudioInputPacketAddRef(ptr), AudioInputPacketRelease(ptr))
  {
    Enclosed(before, AudioInputPacketAddRef(ptr), middle, AudioInputPacketRelease(ptr));
  }
}
