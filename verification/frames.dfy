/** Driver-owned video frames as the binding wraps them (src/frame.rs): a read-only frame
    that destroys its driver object when dropped unless it is the base of a mutable frame,
    and a mutable frame that owns the driver object and borrows its base. */
module Frames {
  import opened Common
  import opened Sdk

  /** `DecklinkPixelFormat`. */
  datatype PixelFormat =
    | Format8BitYUV | Format10BitYUV | Format8BitARGB | Format8BitBGRA | Format10BitRGB
    | Format12BitRGB | Format12BitRGBLE | Format10BitRGBXLE | Format10BitRGBX
    | FormatH265 | FormatDNxHR | Format12BitRAWGRBG | Format12BitRAWJPEG

  /** `DecklinkFrameFlags`. */
  datatype FrameFlag = FlipVertical | ContainsHdrMetadata | ContainsCintelMetadata | HasNoInputSource

  /** `pixel_format()`: the driver's raw format decoded, `Format8BitYUV` when unknown. */
  function PixelFormatOf(raw: U32, table: map<int, PixelFormat>): (f: PixelFormat)
    ensures raw in table ==> f == table[raw]
    ensures raw !in table ==> f == Format8BitYUV
  {
    FromPrimitive(table, raw).UnwrapOr(Format8BitYUV)
  }

  /** `flags()`: the driver's raw flag word with the unknown bits dropped. */
  function FlagsOf(raw: U32, positions: map<FrameFlag, nat>): (fs: set<FrameFlag>)
    ensures fs <= positions.Keys
    ensures forall f :: f in positions ==> (f in fs <==> BitSet(raw, positions[f]))
  {
    FromBitsTruncate(raw, positions)
  }

  /** `(row_bytes * height) as usize` on a 64-bit target: the product of the two `i64`
      answers, kept to its low 64 bits. */
  function ExpectedLen(rowBytes: I64, height: I64): (n: U64)
    ensures 0 <= rowBytes * height < 0x1_0000_0000_0000_0000 ==> n == rowBytes * height
  {
    (rowBytes * height) % 0x1_0000_0000_0000_0000
  }

  /** For the sizes real frames have, the expected length is the plain product. */
  lemma ExpectedLenOfRealFrame(rowBytes: I64, height: I64)
    requires 0 <= rowBytes < 0x1_0000_0000 && 0 <= height < 0x1_0000_0000
    ensures ExpectedLen(rowBytes, height) == rowBytes * height
  {
    assert rowBytes * height < 0x1_0000_0000 * 0x1_0000_0000 by {
      if rowBytes > 0 { assert rowBytes * height < rowBytes * 0x1_0000_0000; }
    }
  }

  class VideoFrame {
    const driver: Driver
    var frame: Ptr
    const isChild: bool

    constructor (driver: Driver, frame: Ptr, isChild: bool)
      ensures this.driver == driver && this.frame == frame && this.isChild == isChild
    {
      this.driver := driver;
      this.frame := frame;
      this.isChild := isChild;
    }

    /** `set_bytes`: copy `data` into the frame's buffer when it has exactly the frame's
        size. `rowBytes` and `height` are the driver's answers to the two size queries,
        `status` its answer to the buffer query and `dest` the buffer it names. */
    method SetBytes(data: seq<Byte>)
      returns (ok: bool, ghost rowBytes: I64, ghost height: I64, ghost status: I32, ghost dest: Ptr)
      modifies driver
      ensures var sized := |data| == ExpectedLen(rowBytes, height);
        driver.trace == old(driver.trace)
          + [VideoFrameRowBytes(frame), VideoFrameHeight(frame)]
          + (if sized then [VideoFrameBytes(frame)] else [])
        && (ok <==> sized && status == 0)
      ensures ok ==> driver.buffers == old(driver.buffers)[dest := data]
      ensures !ok ==> driver.buffers == old(driver.buffers)
    {
      var rb := driver.Query(VideoFrameRowBytes(frame));
      var h := driver.Query(VideoFrameHeight(frame));
      rowBytes, height, status, dest := rb, h, 0, Null;
      if |data| != ExpectedLen(rb, h) {
        ok := false;
      } else {
        var s, bytes := driver.CallPtr(VideoFrameBytes(frame));
        status, dest := s, bytes;
        if s != 0 {
          ok := false;
        } else {
          driver.Write(bytes, data);
          ok := true;
        }
      }
    }

    /** `Drop`: destroy the driver frame when there is one and this wrapper owns it. */
    method Drop()
      modifies this`frame, driver
      ensures frame == Null
      ensures driver.trace == old(driver.trace)
        + (if old(frame) != Null && !isChild then [DestroyFrame(old(frame))] else [])
      ensures driver.buffers == old(driver.buffers)
    {
      if frame != Null {
        if !isChild {
          var _ := driver.Call(DestroyFrame(frame));
        }
        frame := Null;
      }
    }
  }

  class MutableFrame {
    const base: VideoFrame
    var frame: Ptr

    constructor (base: VideoFrame, frame: Ptr)
      ensures this.base == base && this.frame == frame
    {
      this.base := base;
      this.frame := frame;
    }

    /** `set_flags`: hand the flag word to the driver. */
    method SetFlags(flags: U32)
      modifies base.driver
      ensures base.driver.trace == old(base.driver.trace) + [VideoMutableFrameSetFlags(frame, flags)]
      ensures base.driver.buffers == old(base.driver.buffers)
    {
      var _ := base.driver.Call(VideoMutableFrameSetFlags(frame, flags));
    }

    /** `Drop`, then the drop of the `base` field: the mutable frame is destroyed once
        when non-null; the base is a child and is only forgotten. */
    method Drop()
      requires base.isChild
      modifies this`frame, base`frame, base.driver
      ensures frame == Null && base.frame == Null
      ensures base.driver.trace == old(base.driver.trace)
        + (if old(frame) != Null then [DestroyMutableFrame(old(frame))] else [])
      ensures base.driver.buffers == old(base.driver.buffers)
    {
      if frame != Null {
        var _ := base.driver.Call(DestroyMutableFrame(frame));
        frame := Null;
      }
      base.Drop();
    }
  }

  /** `wrap_mutable_frame`: the mutable frame owns `ptr`; its base is the driver's base
      view of it, marked as a child so that it is never destroyed on its own. */
  method WrapMutableFrame(driver: Driver, ptr: Ptr) returns (m: MutableFrame, ghost basePtr: Ptr)
    modifies driver
    ensures fresh(m) && fresh(m.base)
    ensures m.frame == ptr && m.base.frame == basePtr && m.base.isChild && m.base.driver == driver
    ensures driver.trace == old(driver.trace) + [VideoMutableFrameBase(ptr)]
    ensures driver.buffers == old(driver.buffers)
  {
    var b := driver.QueryPtr(VideoMutableFrameBase(ptr));
    var base := new VideoFrame(driver, b, true);
    m := new MutableFrame(base, ptr);
    basePtr := b;
  }

  /** A wrapped mutable frame, dropped, destroys its driver object exactly once and
      never its base. */
  lemma DroppedMutableFrameDestroysOnce(before: seq<Event>, ptr: Ptr, basePtr: Ptr)
    requires ptr != Null
    ensures var t := before + [VideoMutableFrameBase(ptr), DestroyMutableFrame(ptr)];
      Count(t, DestroyMutableFrame(ptr)) == Count(before, DestroyMutableFrame(ptr)) + 1
      && Count(t, DestroyFrame(basePtr)) == Count(before, DestroyFrame(basePtr))
  {
    var added := [VideoMutableFrameBase(ptr), DestroyMutableFrame(ptr)];
    assert multiset(before + added) == multiset(before) + multiset(added);
  }
}
