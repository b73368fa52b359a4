/** The scheduled-output example with RP188 timecode (examples/rp188_vitc_output.rs): the
    frame-number to timecode decomposition, the output callback that schedules frame after
    frame on a counter, and the preparation of the frame's pixel data. The callback's
    `playback_stopped` always answers `true` and has nothing further to model. */
module Rp188Output {
  import opened Common
  import opened SdkErrors
  import opened Sdk
  import opened Enums
  import opened OutputVideo
  import Frames

  /** A timecode as `convert_frame_number_to_timecode` returns it. */
  datatype Timecode = Timecode(hours: I64, minutes: I64, seconds: I64, frames: I64)

  /** Frames per second as the example computes it: the timescale divided by 1000. */
  function MaxFps(timescale: I64): (m: I64)
    requires timescale >= 1000
    ensures m >= 1 && m * 1000 <= timescale < (m + 1) * 1000
  {
    TruncDiv(timescale, 1000)
  }

  /** `convert_frame_number_to_timecode`: frames, seconds, minutes and hours peeled off
      with Rust's truncating `%` and `/`. The drop-frame branch is guarded by a constant
      `false` and has no effect, so it is absent. A timescale below 1000 would divide by
      zero. */
  function TimecodeOf(frameCount: I64, timescale: I64): (t: Timecode)
    requires timescale >= 1000
    ensures frameCount >= 0 ==>
      0 <= t.frames < MaxFps(timescale) && 0 <= t.seconds < 60
      && 0 <= t.minutes < 60 && 0 <= t.hours < 24
  {
    var maxFps := MaxFps(timescale);
    var frames := TruncRem(frameCount, maxFps);
    var r1 := TruncDiv(frameCount, maxFps);
    var seconds := TruncRem(r1, 60);
    var r2 := TruncDiv(r1, 60);
    var minutes := TruncRem(r2, 60);
    var r3 := TruncDiv(r2, 60);
    var hours := TruncRem(r3, 24);
    Timecode(hours, minutes, seconds, frames)
  }

  /** The frame number a timecode stands for, at `maxFps` frames per second. */
  function FrameNumber(t: Timecode, maxFps: int): int {
    ((t.hours * 60 + t.minutes) * 60 + t.seconds) * maxFps + t.frames
  }

  /** A positive multiple of a positive number is at least that number. */
  lemma MultipleAtLeast(k: int, d: int)
    requires k >= 1 && d > 0
    ensures k * d >= d
  {
    assert k * d == (k - 1) * d + d;
  }

  /** `n == q * d + x` with `0 <= x < d` fixes `n % d` as `x`. */
  lemma ModOfDecomposition(n: int, q: int, d: int, x: int)
    requires d > 0 && 0 <= x < d && n == q * d + x
    ensures n % d == x
  {
    var q', x' := n / d, n % d;
    assert q * d - q' * d == x' - x;
    assert (q - q') * d == x' - x;
    assert (q' - q) * d == x - x';
    if q > q' {
      MultipleAtLeast(q - q', d);
      assert false;
    } else if q < q' {
      MultipleAtLeast(q' - q, d);
      assert false;
    }
  }

  /** For a non-negative frame number the truncating operations are the Euclidean ones. */
  lemma TimecodeOfNonNegative(n: I64, timescale: I64)
    requires timescale >= 1000 && n >= 0
    ensures var m := MaxFps(timescale);
      TimecodeOf(n, timescale) == Timecode(n / m / 60 / 60 % 24, n / m / 60 % 60, n / m % 60, n % m)
  {
  }

  /** Regrouping of the frame number: whole days in front, the position in the day after. */
  lemma Regroup(q4: int, hms: int, m: int, f: int)
    ensures (q4 * 86400 + hms) * m + f == q4 * (86400 * m) + (hms * m + f)
  {
    assert (q4 * 86400 + hms) * m == q4 * 86400 * m + hms * m;
    assert q4 * 86400 * m == q4 * (86400 * m);
  }

  /** A position within the day stays below one day's worth of frames. */
  lemma WithinDay(hms: int, m: int, f: int)
    requires 0 <= hms <= 86399 && m >= 1 && 0 <= f < m
    ensures 0 <= hms * m + f < 86400 * m
  {
    assert hms * m <= 86399 * m by {
      assert (86399 - hms) * m >= 0;
      assert (86399 - hms) * m == 86399 * m - hms * m;
    }
    assert hms * m >= 0;
  }

  /** For a non-negative frame number the timecode is exact modulo one day: it names the
      frame number's position within the current 24 hours. */
  lemma TimecodeReconstructs(n: I64, timescale: I64)
    requires timescale >= 1000 && n >= 0
    ensures FrameNumber(TimecodeOf(n, timescale), MaxFps(timescale)) == n % (24 * 3600 * MaxFps(timescale))
  {
    var m := MaxFps(timescale);
    var t := TimecodeOf(n, timescale);
    TimecodeOfNonNegative(n, timescale);
    var q1 := n / m;
    var q2 := q1 / 60;
    var q3 := q2 / 60;
    var q4 := q3 / 24;
    var hms := (t.hours * 60 + t.minutes) * 60 + t.seconds;
    assert q1 == q4 * 86400 + hms;
    assert n == q1 * m + t.frames;
    Regroup(q4, hms, m, t.frames);
    WithinDay(hms, m, t.frames);
    ModOfDecomposition(n, q4, 86400 * m, hms * m + t.frames);
  }

  /** Within the first day the timecode identifies the frame number exactly. */
  lemma TimecodeRoundTrip(n: I64, timescale: I64)
    requires timescale >= 1000 && 0 <= n < 24 * 3600 * MaxFps(timescale)
    ensures FrameNumber(TimecodeOf(n, timescale), MaxFps(timescale)) == n
  {
    TimecodeReconstructs(n, timescale);
    ModOfDecomposition(n, 0, 24 * 3600 * MaxFps(timescale), n);
  }

  /** The example's `OutputCallback`. `output` is its weak reference to the scheduled
      output, null once that output is gone. */
  class OutputCallback {
    const output: VideoOutput?
    const duration: I64
    const timescale: I64
    var scheduled: I64

    constructor (output: VideoOutput?, duration: I64, timescale: I64)
      ensures this.output == output && this.duration == duration && this.timescale == timescale
      ensures scheduled == 0
    {
      this.output := output;
      this.duration := duration;
      this.timescale := timescale;
      scheduled := 0;
    }

    /** `schedule_next_frame`: with the output gone, `HANDLE` and no change. Otherwise the
        counter advances (with the wrap-around of `fetch_add`) whatever the scheduling
        answers, the timecode of the old count is computed and unused, and `frame` is
        scheduled at the old count times `duration`. */
    method ScheduleNextFrame(frame: FrameSource)
      returns (r: Result<()>, ghost displayTime: I64, ghost done: bool, ghost created: Ptr, ghost dest: Ptr)
      requires output != null ==> timescale >= 1000
      modifies this`scheduled, if output != null then {output.device.driver} else {}
      ensures output == null ==> r == Err(Handle) && scheduled == old(scheduled) && !done
      ensures output != null ==>
        scheduled == WrapI64(old(scheduled) + 1)
        && displayTime == WrapI64(old(scheduled) * duration)
        && (r.Ok? ==> done)
        && (done ==>
              output.device.driver.trace == old(output.device.driver.trace)
                + [CreateFrameCall(output.device.dev, frame), VideoFrameAddRef(created),
                   VideoFrameGetBytes(created),
                   OutputScheduleVideoFrame(output.device.dev, created, displayTime, duration,
                     output.scheduledTimescale),
                   VideoFrameRelease(created)])
    {
      displayTime, done, created, dest := 0, false, Null, Null;
      if output == null {
        r := Err(Handle);
      } else {
        var num := scheduled;
        scheduled := WrapI64(scheduled + 1);
        var _ := TimecodeOf(num, timescale);
        var time := WrapI64(num * duration);
        displayTime := time;
        r, created, done, dest := output.ScheduleFrameCopy(frame, time, duration);
      }
    }

    /** `schedule_frame_completed_callback`: schedule the completed frame again and
        answer whether that worked; a completion without a frame panics in `unwrap`. */
    method FrameCompleted(frame: Option<FrameSource>, result: CompletionResult)
      returns (o: Outcome<bool>, ghost r: Result<()>)
      requires output != null ==> timescale >= 1000
      modifies this`scheduled, if output != null then {output.device.driver} else {}
      ensures frame.None? ==> o == Panicked && scheduled == old(scheduled)
      ensures frame.Some? ==> o == Returned(r.Ok?)
      ensures frame.Some? && output == null ==> r == Err(Handle) && scheduled == old(scheduled)
      ensures frame.Some? && output != null ==> scheduled == WrapI64(old(scheduled) + 1)
    {
      r := Err(Handle);
      if frame.None? {
        o := Panicked;
      } else {
        var res, _, _, _, _ := ScheduleNextFrame(frame.value);
        r := res;
        o := Returned(res.Ok?);
      }
    }
  }

  /** The counter of a fresh callback after `k` calls that found the output alive: each
      one advances it as `ScheduleNextFrame` does, by one with the wrap-around of
      `fetch_add`. */
  function CountAfter(k: nat): I64 {
    if k == 0 then 0 else WrapI64(CountAfter(k - 1) + 1)
  }

  /** Below the `i64` limit the counter counts exactly. */
  lemma {:induction false} CountAfterExact(k: nat)
    requires k < 0x8000_0000_0000_0000
    ensures CountAfter(k) == k
  {
    if k > 0 {
      CountAfterExact(k - 1);
    }
  }

  /** The `k`-th call of a fresh callback (counting from 0) finds the counter at `k` and
      so schedules its frame at exactly `k * duration`, as long as that product fits in
      an `i64`. */
  lemma DisplayTimeOfKthCall(k: nat, duration: I64)
    requires k < 0x8000_0000_0000_0000
    requires -0x8000_0000_0000_0000 <= k * duration < 0x8000_0000_0000_0000
    ensures CountAfter(k) == k
    ensures WrapI64(CountAfter(k) * duration) == k * duration
  {
    CountAfterExact(k);
  }

  // ---- frame data ----

  /** The sixteen bytes of the repeated blue pattern. */
  const BluePattern: seq<Byte> :=
    [0x04, 0x0a, 0xa2, 0x98, 0x2a, 0x8a, 0x62, 0xa8, 0x29, 0x8a, 0xa0, 0x40, 0x2a, 0x81, 0x02, 0xa8]

  /** The fill loop of the example: every index below the vector's length gets the
      pattern byte for that index. */
  method FillWithPattern(v: seq<Byte>) returns (data: seq<Byte>)
    ensures |data| == |v|
    ensures forall i :: 0 <= i < |data| ==> data[i] == BluePattern[i % |BluePattern|]
  {
    data := v;
    for i := 0 to |data|
      invariant |data| == |v|
      invariant forall j :: 0 <= j < i ==> data[j] == BluePattern[j % |BluePattern|]
    {
      data := data[i := BluePattern[i % |BluePattern|]];
    }
  }

  /** The frame data as written: `reserve` grows only the capacity of the new, empty
      vector, so the fill loop over its length runs no time and the data stays empty
      whatever the frame size. */
  method FrameDataAsWritten(width: I64, height: I64) returns (data: seq<Byte>)
    ensures data == []
  {
    var reserved: seq<Byte> := [];
    data := FillWithPattern(reserved);
  }

  /** The frame data as evidently intended: `width * height` bytes (no bytes when that
      product is not positive) repeating the blue pattern from its start. */
  method FrameData(width: I64, height: I64) returns (data: seq<Byte>)
    ensures |data| == (if width * height > 0 then width * height else 0)
    ensures forall i :: 0 <= i < |data| ==> data[i] == BluePattern[i % |BluePattern|]
  {
    var n := if width * height > 0 then width * height else 0;
    data := [];
    while |data| < n
      invariant |data| <= n
      invariant forall i :: 0 <= i < |data| ==> data[i] == BluePattern[i % |BluePattern|]
      decreases n - |data|
    {
      data := data + [BluePattern[|data| % |BluePattern|]];
    }
  }

  /** The empty data the example prepares is refused by `set_bytes` for any frame whose
      expected length is not zero, so the example's `expect("set bytes failed")` fires. */
  lemma EmptyFrameDataRefused(rowBytes: I64, height: I64)
    requires 0 < rowBytes < 0x1_0000_0000 && 0 < height < 0x1_0000_0000
    ensures Frames.ExpectedLen(rowBytes, height) > 0
  {
    Frames.ExpectedLenOfRealFrame(rowBytes, height);
  }
}
