/** Display modes as the binding reports them (src/display_mode.rs): decoding of the
    driver's raw answers with the binding's defaults, and collection of a display-mode
    iterator into a list. */
module DisplayModes {
  import opened Common
  import opened SdkErrors
  import opened Sdk
  import opened Iteration
  import opened Enums

  /** `DecklinkDisplayModeId`. */
  datatype DisplayModeId =
    | NTSC | NTSC2398 | PAL | NTSCp | PALp
    | HD1080p2398 | HD1080p24 | HD1080p25 | HD1080p2997 | HD1080p30
    | HD1080i50 | HD1080i5994 | HD1080i6000 | HD1080p50 | HD1080p5994 | HD1080p6000
    | HD720p50 | HD720p5994 | HD720p60
    | HD2k2398 | HD2k24 | HD2k25 | HD2kDCI2398 | HD2kDCI24 | HD2kDCI25
    | UHD4K2160p2398 | UHD4K2160p24 | UHD4K2160p25 | UHD4K2160p2997 | UHD4K2160p30
    | UHD4K2160p50 | UHD4K2160p5994 | UHD4K2160p60
    | UHD4KDCI2398 | UHD4KDCI24 | UHD4KDCI25
    | CintelRAW | CintelCompressedRAW | UnknownMode

  /** `DecklinkFieldDominance`. */
  datatype FieldDominance =
    | UnknownDominance | LowerFieldFirst | UpperFieldFirst | ProgressiveFrame
    | ProgressiveSegmentedFrame

  /** `DecklinkDisplayModeFlag`. */
  datatype DisplayModeFlag = Supports3D | ColorspaceRec601 | ColorspaceRec709

  /** `mode()`: the raw mode decoded, `Unknown` when it names no mode. */
  function ModeOf(raw: U32, table: map<int, DisplayModeId>): (m: DisplayModeId)
    ensures raw in table ==> m == table[raw]
    ensures raw !in table ==> m == UnknownMode
  {
    FromPrimitive(table, raw).UnwrapOr(UnknownMode)
  }

  /** `field_dominance()`: the raw dominance decoded, `Unknown` when unrecognised. */
  function FieldDominanceOf(raw: U32, table: map<int, FieldDominance>): (d: FieldDominance)
    ensures raw in table ==> d == table[raw]
    ensures raw !in table ==> d == UnknownDominance
  {
    FromPrimitive(table, raw).UnwrapOr(UnknownDominance)
  }

  /** `framerate()`: the frame duration and time scale the driver wrote, when its status
      `succeeded`. */
  function FramerateOf(status: I32, duration: I64, scale: I64): (r: Option<(I64, I64)>)
    ensures r.Some? <==> status >= 0
    ensures r.Some? ==> r.value == (duration, scale)
  {
    if Succeeded(status) then Some((duration, scale)) else None
  }

  /** `flags()`: the raw flag word with unknown bits dropped. */
  function ModeFlagsOf(raw: U32, positions: map<DisplayModeFlag, nat>): (fs: set<DisplayModeFlag>)
    ensures fs <= positions.Keys
    ensures forall f :: f in positions ==> (f in fs <==> BitSet(raw, positions[f]))
  {
    FromBitsTruncate(raw, positions)
  }

  /** The result closure of `does_support_video_mode`, written out the same way for output
      and input devices: an unknown support code counts as `NotSupported`, and a null mode
      or `NotSupported` yields no mode at all. */
  function SupportResult(supported: U32, displayMode: Ptr, table: map<int, DisplayModeSupport>)
    : (r: (DisplayModeSupport, Option<Ptr>))
    ensures r.1.None? <==>
      displayMode == Null || supported !in table || table[supported] == NotSupported
    ensures r.1.None? ==> r.0 == NotSupported
    ensures r.1.Some? ==> r.0 == table[supported] && r.1.value == displayMode
  {
    var support := FromPrimitive(table, supported).UnwrapOr(NotSupported);
    if displayMode == Null || support == NotSupported then (NotSupported, None)
    else (support, Some(displayMode))
  }

  class DisplayMode {
    var mode: Ptr

    constructor (mode: Ptr)
      ensures this.mode == mode
    {
      this.mode := mode;
    }

    /** `Drop`: forget the pointer; the driver is not called. */
    method Drop()
      modifies this
      ensures mode == Null
    {
      if mode != Null {
        mode := Null;
      }
    }
  }

  /** A fresh display mode wrapper for each pointer, in order. */
  method WrapModes(ptrs: seq<Ptr>) returns (modes: seq<DisplayMode>)
    ensures |modes| == |ptrs|
    ensures forall i :: 0 <= i < |ptrs| ==> fresh(modes[i]) && modes[i].mode == ptrs[i]
  {
    modes := [];
    for i := 0 to |ptrs|
      invariant |modes| == i
      invariant forall j :: 0 <= j < i ==> fresh(modes[j]) && modes[j].mode == ptrs[j]
    {
      var m := new DisplayMode(ptrs[i]);
      modes := modes + [m];
    }
  }

  /** `iterate_display_modes`: one mode per `S_OK` answer, in driver order, until
      `S_FALSE`; any other answer is returned as its error and the modes collected so far
      are discarded. The iterator is not released here; the caller does that. */
  method IterateDisplayModes(driver: Driver, it: Ptr, answers: seq<Answer>)
    returns (r: Result<seq<DisplayMode>>)
    modifies driver
    ensures var d := Drain(answers, false);
      (r.Err? <==> d.Err?) && (r.Err? ==> r.error == d.error)
      && (r.Ok? ==> |r.value| == |d.value|
                    && forall i :: 0 <= i < |d.value| ==> fresh(r.value[i]) && r.value[i].mode == d.value[i])
    ensures driver.trace == old(driver.trace)
      + Repeat(NextDisplayMode(it), KeptPrefix(answers, false) + 1)
    ensures driver.buffers == old(driver.buffers)
  {
    var d, _ := DrainIterator(driver, NextDisplayMode(it), answers, false);
    match d
    case Err(e) =>
      r := Err(e);
    case Ok(ptrs) =>
      var modes := WrapModes(ptrs);
      r := Ok(modes);
  }

  /** The display-mode loop accepts only `S_OK`: every mode comes from an `S_OK` answer,
      and a positive status other than `S_FALSE` aborts it. */
  lemma DisplayModesOnlyFromOk(answers: seq<Answer>, k: nat)
    requires Drain(answers, false).Ok?
    requires k < |Drain(answers, false).value|
    ensures k < |answers| && answers[k].status == 0
    ensures Drain(answers, false).value[k] == answers[k].ptr
  {
    DrainResult(answers, false);
  }
}
