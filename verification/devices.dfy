/** Devices (src/device/mod.rs): enumeration through the driver's device iterator, and
    the per-device queries for names, status, notifications and the output interface. */
module Devices {
  import opened Common
  import opened SdkErrors
  import opened Sdk
  import opened Iteration
  import opened DeviceStatuses
  import opened Notifications
  import opened Output

  class DecklinkDevice {
    const driver: Driver
    var dev: Ptr
    /** The `Weak` notification reference: `None` when it is dead. */
    var notification: Option<DeviceNotification>

    /** A device as `get_devices` builds it: its notification reference is `Weak::new()`,
        which is dead from the start. */
    constructor (driver: Driver, dev: Ptr)
      ensures this.driver == driver && this.dev == dev && notification == None
    {
      this.driver := driver;
      this.dev := dev;
      notification := None;
    }

    /** `Drop`: release the device once, if there is one. */
    method Drop()
      modifies this`dev, driver
      ensures dev == Null
      ensures driver.trace == old(driver.trace) + (if old(dev) != Null then [DeviceRelease(old(dev))] else [])
      ensures driver.buffers == old(driver.buffers)
    {
      if dev != Null {
        var _ := driver.Call(DeviceRelease(dev));
        dev := Null;
      }
    }

    /** `model_name`: the name exactly when the driver answers `S_OK`. */
    method ModelName() returns (r: Option<string>, ghost status: I32, ghost text: string)
      modifies driver
      ensures r.Some? <==> IsOk(status)
      ensures r.Some? ==> r.value == text
      ensures driver.trace == old(driver.trace) + [DeviceGetModelName(dev)]
      ensures driver.buffers == old(driver.buffers)
    {
      var s, t := driver.CallText(DeviceGetModelName(dev));
      status, text := s, t;
      r := if IsOk(s) then Some(t) else None;
    }

    /** `display_name`: the name exactly when the driver answers `S_OK`. */
    method DisplayName() returns (r: Option<string>, ghost status: I32, ghost text: string)
      modifies driver
      ensures r.Some? <==> IsOk(status)
      ensures r.Some? ==> r.value == text
      ensures driver.trace == old(driver.trace) + [DeviceGetDisplayName(dev)]
      ensures driver.buffers == old(driver.buffers)
    {
      var s, t := driver.CallText(DeviceGetDisplayName(dev));
      status, text := s, t;
      r := if IsOk(s) then Some(t) else None;
    }

    /** `get_status`: a status handle on the interface the driver returns, on success. */
    method GetStatus() returns (r: Result<DeviceStatus>, ghost status: I32, ghost statusDev: Ptr)
      modifies driver
      ensures r.Ok? <==> IsOk(status)
      ensures r.Err? ==> r.error == FromCode(status)
      ensures r.Ok? ==> fresh(r.value) && r.value.driver == driver && r.value.dev == statusDev
      ensures driver.trace == old(driver.trace) + [DeviceQueryStatus(dev)]
      ensures driver.buffers == old(driver.buffers)
    {
      var s, p := driver.CallPtr(DeviceQueryStatus(dev));
      status, statusDev := s, p;
      if IsOk(s) {
        var st := new DeviceStatus.From(driver, p);
        r := Ok(st);
      } else {
        r := Err(FromCode(s));
      }
    }

    /** `get_notification`: `HANDLE` when the lock cannot be taken (`lockOk` false), the
        live notification object, or `FALSE` when the reference is dead. */
    function GetNotification(lockOk: bool): (r: Result<DeviceNotification>)
      reads this
      ensures !lockOk ==> r == Err(Handle)
      ensures lockOk && notification.Some? ==> r == Ok(notification.value)
      ensures lockOk && notification.None? ==> r == Err(False)
    {
      if !lockOk then Err(Handle)
      else match notification
        case Some(n) => Ok(n)
        case None => Err(False)
    }

    /** `output`: an output device on the interface the driver returns, unless the driver
        fails or returns null. */
    method GetOutput() returns (r: Option<OutputDevice>, ghost status: I32, ghost out: Ptr)
      modifies driver
      ensures r.Some? <==> IsOk(status) && out != Null
      ensures r.Some? ==>
        fresh(r.value) && fresh(r.value.ptr) && r.value.ptr.dev == out && r.value.ptr.driver == driver
        && !r.value.ptr.videoActive && !r.value.ptr.audioActive
      ensures driver.trace == old(driver.trace) + [DeviceQueryOutput(dev)]
      ensures driver.buffers == old(driver.buffers)
    {
      var s, p := driver.CallPtr(DeviceQueryOutput(dev));
      status, out := s, p;
      if !IsOk(s) || p == Null {
        r := None;
      } else {
        var o := new OutputDevice(driver, p);
        r := Some(o);
      }
    }
  }

  /** A fresh device wrapper for each pointer, in order, no two of them the same object. */
  method WrapDevices(driver: Driver, ptrs: seq<Ptr>) returns (devices: seq<DecklinkDevice>)
    ensures |devices| == |ptrs|
    ensures forall i :: 0 <= i < |ptrs| ==>
      fresh(devices[i]) && devices[i].driver == driver && devices[i].dev == ptrs[i]
      && devices[i].notification == None
    ensures forall i, j :: 0 <= i < j < |devices| ==> devices[i] != devices[j]
  {
    devices := [];
    for i := 0 to |ptrs|
      invariant |devices| == i
      invariant forall j :: 0 <= j < i ==>
        fresh(devices[j]) && devices[j].driver == driver && devices[j].dev == ptrs[j]
        && devices[j].notification == None
      invariant forall j, k :: 0 <= j < k < i ==> devices[j] != devices[k]
    {
      var d := new DecklinkDevice(driver, ptrs[i]);
      devices := devices + [d];
    }
  }

  /** The calls that dropping a `Vec` of devices on `ptrs` makes: the elements are dropped
      front to back, and each non-null one is released once. */
  function ReleaseCalls(ptrs: seq<Ptr>): seq<Event>
    decreases |ptrs|
  {
    if |ptrs| == 0 then []
    else
      var front := ptrs[..|ptrs| - 1];
      var last := ptrs[|ptrs| - 1];
      ReleaseCalls(front) + (if last != Null then [DeviceRelease(last)] else [])
  }

  /** Dropping makes only DeviceReleases of non-null devices, no more calls than there are
      devices, and, when no pointer is null, exactly one per device in `Vec` order. */
  lemma {:induction false} ReleaseCallsShape(ptrs: seq<Ptr>)
    ensures var calls := ReleaseCalls(ptrs);
      |calls| <= |ptrs|
      && (forall i :: 0 <= i < |calls| ==> calls[i].DeviceRelease? && calls[i].dev != Null)
      && (Null !in ptrs ==>
            |calls| == |ptrs| && forall i :: 0 <= i < |ptrs| ==> calls[i] == DeviceRelease(ptrs[i]))
    decreases |ptrs|
  {
    if |ptrs| > 0 {
      var front := ptrs[..|ptrs| - 1];
      assert Null !in ptrs ==> Null !in front;
      ReleaseCallsShape(front);
    }
  }

  /** One more dropped element adds its own call at the end. */
  lemma ReleaseCallsStep(ptrs: seq<Ptr>, i: nat)
    requires i < |ptrs|
    ensures ReleaseCalls(ptrs[..i + 1]) == ReleaseCalls(ptrs[..i]) + (if ptrs[i] != Null then [DeviceRelease(ptrs[i])] else [])
  {
    assert ptrs[..i + 1][..i] == ptrs[..i];
  }

  /** Dropping the devices of a `Vec`, front to back. */
  method DropDevices(driver: Driver, devices: seq<DecklinkDevice>, ghost ptrs: seq<Ptr>)
    requires |devices| == |ptrs|
    requires forall i :: 0 <= i < |devices| ==> devices[i].driver == driver && devices[i].dev == ptrs[i]
    requires forall i, j :: 0 <= i < j < |devices| ==> devices[i] != devices[j]
    modifies devices, driver
    ensures forall i :: 0 <= i < |devices| ==> devices[i].dev == Null
    ensures driver.trace == old(driver.trace) + ReleaseCalls(ptrs)
    ensures driver.buffers == old(driver.buffers)
  {
    for i := 0 to |devices|
      invariant forall j :: 0 <= j < i ==> devices[j].dev == Null
      invariant forall j :: i <= j < |devices| ==> devices[j].dev == ptrs[j]
      invariant driver.trace == old(driver.trace) + ReleaseCalls(ptrs[..i])
      invariant driver.buffers == old(driver.buffers)
    {
      devices[i].Drop();
      ReleaseCallsStep(ptrs, i);
    }
    assert ptrs[..|devices|] == ptrs;
  }

  /** `get_devices`: `FAIL` with no further call when no iterator can be created;
      otherwise one device per `S_OK` answer in driver order until `S_FALSE`, the error of
      any other answer (a positive one included), and the iterator released exactly once
      on either path. On the error path the devices pushed so far are dropped when the
      function returns, after the iterator's release. `it` is the iterator the driver
      created. */
  method GetDevices(driver: Driver, answers: seq<Answer>) returns (r: Result<seq<DecklinkDevice>>, ghost it: Ptr)
    modifies driver
    ensures it == Null ==>
      r == Err(Fail) && driver.trace == old(driver.trace) + [CreateDecklinkIteratorInstance]
    ensures it != Null ==>
      var k := KeptPrefix(answers, false);
      var d := Drain(answers, false);
      driver.trace == old(driver.trace) + [CreateDecklinkIteratorInstance]
        + Repeat(IteratorNext(it), k + 1) + [IteratorRelease(it)]
        + (if d.Err? then ReleaseCalls(Pointers(answers[..k])) else [])
      && (r.Err? <==> d.Err?) && (r.Err? ==> r.error == d.error)
      && (r.Ok? ==> |r.value| == |d.value|
                    && forall i :: 0 <= i < |d.value| ==>
                         fresh(r.value[i]) && r.value[i].dev == d.value[i] && r.value[i].notification == None)
    ensures driver.buffers == old(driver.buffers)
  {
    var p := driver.QueryPtr(CreateDecklinkIteratorInstance);
    it := p;
    if p == Null {
      return Err(Fail), it;
    }
    var d, kept := DrainIterator(driver, IteratorNext(p), answers, false);
    var _ := driver.Call(IteratorRelease(p));
    var devices := WrapDevices(driver, kept);
    if d.Err? {
      DropDevices(driver, devices, kept);
      r := Err(d.error);
    } else {
      r := Ok(devices);
    }
  }

  /** The iterator is released exactly once by `get_devices`, after every `next` call; the
      only calls after it are the releases of devices dropped on the error path. */
  lemma {:induction false} IteratorReleasedOnce(it: Ptr, n: nat, dropped: seq<Ptr>)
    ensures var added := [CreateDecklinkIteratorInstance] + Repeat(IteratorNext(it), n) + [IteratorRelease(it)]
                         + ReleaseCalls(dropped);
      Count(added, IteratorRelease(it)) == 1 && added[n + 1] == IteratorRelease(it)
      && forall i :: n + 1 < i < |added| ==> added[i].DeviceRelease?
  {
    var calls := Repeat(IteratorNext(it), n);
    var drops := ReleaseCalls(dropped);
    var added := [CreateDecklinkIteratorInstance] + calls + [IteratorRelease(it)] + drops;
    assert IteratorRelease(it) !in calls;
    ReleaseCallsShape(dropped);
    assert IteratorRelease(it) !in drops;
    assert multiset(added)
      == multiset([CreateDecklinkIteratorInstance]) + multiset(calls) + multiset([IteratorRelease(it)]) + multiset(drops);
    forall i | n + 1 < i < |added|
      ensures added[i].DeviceRelease?
    {
      assert added[i] == drops[i - n - 2];
    }
  }

  /** A device freshly listed has a dead notification reference, so asking it for its
      notification object never succeeds. */
  lemma ListedDeviceHasNoNotification(d: DecklinkDevice, lockOk: bool)
    requires d.notification == None
    ensures d.GetNotification(lockOk).Err?
  {
  }
}
