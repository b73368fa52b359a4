/** Device status queries (src/device/status.rs): integer, flag and byte-string
    properties read by status id, and the conversions the typed getters apply to them. */
module DeviceStatuses {
  import opened Common
  import opened SdkErrors
  import opened Sdk
  import opened Enums

  /** `DecklinkVideoStatusFlags`. */
  datatype VideoStatusFlag = Psf | DualStream3D

  /** `DecklinkDuplexStatus`. */
  datatype DuplexStatus = FullDuplex | HalfDuplex | Simplex | Inactive

  /** `into_enum`: an error passes through; a value becomes its variant, or `FALSE` when
      it names none. */
  function IntoEnum<T>(res: Result<I64>, table: map<int, T>): (r: Result<T>)
    ensures res.Err? ==> r == Err(res.error)
    ensures res.Ok? ==> (r.Ok? <==> res.value in table)
    ensures res.Ok? && r.Ok? ==> r.value == table[res.value]
    ensures res.Ok? && r.Err? ==> r.error == False
  {
    match res
    case Err(e) => Err(e)
    case Ok(v) => if v in table then Ok(table[v]) else Err(False)
  }

  /** The flag getters: the value truncated with `as u32`, then its unknown bits dropped. */
  function StatusFlagsOf(res: Result<I64>, positions: map<VideoStatusFlag, nat>)
    : (r: Result<set<VideoStatusFlag>>)
    ensures res.Err? ==> r == Err(res.error)
    ensures res.Ok? ==>
      r.Ok? && r.value <= positions.Keys
      && forall f :: f in positions ==> (f in r.value <==> BitSet(WrapU32(res.value), positions[f]))
  {
    match res
    case Err(e) => Err(e)
    case Ok(v) => Ok(FromBitsTruncate(WrapU32(v), positions))
  }

  /** The PCIe getters: the value truncated with `as u32`. */
  function TruncatedU32(res: Result<I64>): (r: Result<U32>)
    ensures res.Err? ==> r == Err(res.error)
    ensures res.Ok? ==> r.Ok? && (r.value - res.value) % 0x1_0000_0000 == 0
  {
    match res
    case Err(e) => Err(e)
    case Ok(v) => Ok(WrapU32(v))
  }

  /** Truncation keeps every value that fits in a `u32` and nothing else: it is the
      identity exactly on 0 .. 2^32-1. */
  lemma TruncationKeepsSmallValues(v: I64)
    ensures TruncatedU32(Ok(v)) == Ok(v) <==> 0 <= v < 0x1_0000_0000
  {
  }

  /** A negative value, for instance, comes back as a large positive width. */
  lemma TruncationOfMinusOne()
    ensures TruncatedU32(Ok(-1)) == Ok(0xFFFF_FFFF)
  {
  }

  class DeviceStatus {
    const driver: Driver
    var dev: Ptr

    /** `from`: a status handle owning `dev`. */
    constructor From(driver: Driver, dev: Ptr)
      ensures this.driver == driver && this.dev == dev
    {
      this.driver := driver;
      this.dev := dev;
    }

    /** `Drop`: release the status interface once, if there is one. */
    method Drop()
      modifies this, driver
      ensures dev == Null
      ensures driver.trace == old(driver.trace) + (if old(dev) != Null then [StatusRelease(old(dev))] else [])
      ensures driver.buffers == old(driver.buffers)
    {
      if dev != Null {
        var _ := driver.Call(StatusRelease(dev));
        dev := Null;
      }
    }

    /** `get_int`: the integer property `id`. */
    method GetInt(id: StatusId) returns (r: Result<I64>, ghost status: I32, ghost value: I64)
      modifies driver
      ensures r == CheckStatusOr(status, value)
      ensures driver.trace == old(driver.trace) + [StatusGetInt(dev, id)]
      ensures driver.buffers == old(driver.buffers)
    {
      var s, v := driver.CallInt(StatusGetInt(dev, id));
      status, value := s, v;
      r := CheckStatusOr(s, v);
    }

    /** `get_bool`: the flag property `id`. */
    method GetBool(id: StatusId) returns (r: Result<bool>, ghost status: I32, ghost value: bool)
      modifies driver
      ensures r == CheckStatusOr(status, value)
      ensures driver.trace == old(driver.trace) + [StatusGetFlag(dev, id)]
      ensures driver.buffers == old(driver.buffers)
    {
      var s, b := driver.CallBool(StatusGetFlag(dev, id));
      status, value := s, b;
      r := CheckStatusOr(s, b);
    }

    /** `get_bytes`: ask for the size first; if that fails return its error with no
        second call, otherwise have a buffer of that size filled and return it when the
        second call succeeds. */
    method GetBytes(id: StatusId)
      returns (r: Result<seq<Byte>>, ghost sizeStatus: I32, ghost size: U32, ghost fillStatus: I32)
      modifies driver
      ensures !IsOk(sizeStatus) ==>
        r == Err(FromCode(sizeStatus))
        && driver.trace == old(driver.trace) + [StatusGetBytes(dev, id, false)]
      ensures IsOk(sizeStatus) ==>
        driver.trace == old(driver.trace) + [StatusGetBytes(dev, id, false), StatusGetBytes(dev, id, true)]
        && (r.Ok? <==> IsOk(fillStatus)) && (r.Err? ==> r.error == FromCode(fillStatus))
        && (r.Ok? ==> |r.value| == size)
      ensures driver.buffers == old(driver.buffers)
    {
      var s, n := driver.CallU32(StatusGetBytes(dev, id, false));
      sizeStatus, size, fillStatus := s, n, 0;
      if IsOk(s) {
        var s2, bytes := driver.Fill(StatusGetBytes(dev, id, true), n);
        fillStatus := s2;
        r := CheckStatusOr(s2, bytes);
      } else {
        r := Err(FromCode(s));
      }
    }

    /** The enumeration getters (`detected_video_input_mode`, `current_video_input_mode`,
        `current_video_input_pixel_format`, `current_video_output_mode`,
        `last_video_output_pixel_format`, `reference_signal_mode`, `duplex_mode`):
        `into_enum` of `get_int` for their id. */
    method GetEnum<T>(id: StatusId, table: map<int, T>) returns (r: Result<T>, ghost raw: Result<I64>)
      modifies driver
      ensures r == IntoEnum(raw, table)
      ensures raw.Err? ==> r.Err?
      ensures driver.trace == old(driver.trace) + [StatusGetInt(dev, id)]
      ensures driver.buffers == old(driver.buffers)
    {
      var v, _, _ := GetInt(id);
      raw := v;
      r := IntoEnum(v, table);
    }

    /** The flag getters (`detected_video_input_flags`, `current_video_input_flags`,
        `current_video_output_flags`). */
    method GetFlags(id: StatusId, positions: map<VideoStatusFlag, nat>)
      returns (r: Result<set<VideoStatusFlag>>, ghost raw: Result<I64>)
      modifies driver
      ensures r == StatusFlagsOf(raw, positions)
      ensures r.Ok? ==> r.value <= positions.Keys
      ensures driver.trace == old(driver.trace) + [StatusGetInt(dev, id)]
      ensures driver.buffers == old(driver.buffers)
    {
      var v, _, _ := GetInt(id);
      raw := v;
      r := StatusFlagsOf(v, positions);
    }

    /** `pci_express_link_width` and `pci_express_link_speed`. */
    method GetU32(id: StatusId) returns (r: Result<U32>, ghost raw: Result<I64>)
      modifies driver
      ensures r == TruncatedU32(raw)
      ensures raw.Ok? && 0 <= raw.value < 0x1_0000_0000 ==> r == Ok(raw.value)
      ensures driver.trace == old(driver.trace) + [StatusGetInt(dev, id)]
      ensures driver.buffers == old(driver.buffers)
    {
      var v, _, _ := GetInt(id);
      raw := v;
      r := TruncatedU32(v);
      if v.Ok? {
        TruncationKeepsSmallValues(v.value);
      }
    }
  }
}
