/** The older device enumeration (src/device.rs), kept beside the newer one: its loop
    keeps every answer that `succeeded`, not only `S_OK`, after testing for `S_FALSE`. */
module LegacyDevices {
  import opened Common
  import opened SdkErrors
  import opened Sdk
  import opened Iteration

  class LegacyDevice {
    const driver: Driver
    var dev: Ptr

    constructor (driver: Driver, dev: Ptr)
      ensures this.driver == driver && this.dev == dev
    {
      this.driver := driver;
      this.dev := dev;
    }

    /** `Drop`: destroy the device once, if there is one. */
    method Drop()
      modifies this, driver
      ensures dev == Null
      ensures driver.trace == old(driver.trace) + (if old(dev) != Null then [DestroyDevice(old(dev))] else [])
      ensures driver.buffers == old(driver.buffers)
    {
      if dev != Null {
        var _ := driver.Call(DestroyDevice(dev));
        dev := Null;
      }
    }
  }

  /** A fresh device wrapper for each pointer, in order, no two of them the same object. */
  method WrapLegacyDevices(driver: Driver, ptrs: seq<Ptr>) returns (devices: seq<LegacyDevice>)
    ensures |devices| == |ptrs|
    ensures forall i :: 0 <= i < |ptrs| ==>
      fresh(devices[i]) && devices[i].driver == driver && devices[i].dev == ptrs[i]
    ensures forall i, j :: 0 <= i < j < |devices| ==> devices[i] != devices[j]
  {
    devices := [];
    for i := 0 to |ptrs|
      invariant |devices| == i
      invariant forall j :: 0 <= j < i ==>
        fresh(devices[j]) && devices[j].driver == driver && devices[j].dev == ptrs[j]
      invariant forall j, k :: 0 <= j < k < i ==> devices[j] != devices[k]
    {
      var d := new LegacyDevice(driver, ptrs[i]);
      devices := devices + [d];
    }
  }

  /** The calls that dropping a `Vec` of these devices on `ptrs` makes: the elements are
      dropped front to back, and each non-null one is destroyed once. */
  function DestroyCalls(ptrs: seq<Ptr>): seq<Event>
    decreases |ptrs|
  {
    if |ptrs| == 0 then []
    else
      var front := ptrs[..|ptrs| - 1];
      var last := ptrs[|ptrs| - 1];
      DestroyCalls(front) + (if last != Null then [DestroyDevice(last)] else [])
  }

  /** Dropping makes only DestroyDevices of non-null devices, no more calls than there are
      devices, and, when no pointer is null, exactly one per device in `Vec` order. */
  lemma {:induction false} DestroyCallsShape(ptrs: seq<Ptr>)
    ensures var calls := DestroyCalls(ptrs);
      |calls| <= |ptrs|
      && (forall i :: 0 <= i < |calls| ==> calls[i].DestroyDevice? && calls[i].dev != Null)
      && (Null !in ptrs ==>
            |calls| == |ptrs| && forall i :: 0 <= i < |ptrs| ==> calls[i] == DestroyDevice(ptrs[i]))
    decreases |ptrs|
  {
    if |ptrs| > 0 {
      var front := ptrs[..|ptrs| - 1];
      assert Null !in ptrs ==> Null !in front;
      DestroyCallsShape(front);
    }
  }

  /** One more dropped element adds its own call at the end. */
  lemma DestroyCallsStep(ptrs: seq<Ptr>, i: nat)
    requires i < |ptrs|
    ensures DestroyCalls(ptrs[..i + 1]) == DestroyCalls(ptrs[..i]) + (if ptrs[i] != Null then [DestroyDevice(ptrs[i])] else [])
  {
    assert ptrs[..i + 1][..i] == ptrs[..i];
  }

  /** Dropping the devices of a `Vec`, front to back. */
  method DropLegacyDevices(driver: Driver, devices: seq<LegacyDevice>, ghost ptrs: seq<Ptr>)
    requires |devices| == |ptrs|
    requires forall i :: 0 <= i < |devices| ==> devices[i].driver == driver && devices[i].dev == ptrs[i]
    requires forall i, j :: 0 <= i < j < |devices| ==> devices[i] != devices[j]
    modifies devices, driver
    ensures forall i :: 0 <= i < |devices| ==> devices[i].dev == Null
    ensures driver.trace == old(driver.trace) + DestroyCalls(ptrs)
    ensures driver.buffers == old(driver.buffers)
  {
    for i := 0 to |devices|
      invariant forall j :: 0 <= j < i ==> devices[j].dev == Null
      invariant forall j :: i <= j < |devices| ==> devices[j].dev == ptrs[j]
      invariant driver.trace == old(driver.trace) + DestroyCalls(ptrs[..i])
      invariant driver.buffers == old(driver.buffers)
    {
      devices[i].Drop();
      DestroyCallsStep(ptrs, i);
    }
    assert ptrs[..|devices|] == ptrs;
  }

  /** `get_devices`: `FAIL` when no iterator can be created; otherwise one device per
      non-negative answer other than `S_FALSE`, in driver order, `S_FALSE` ending the list,
      the error of the first negative answer, and the iterator destroyed exactly once on
      either path. On the error path the devices pushed so far are dropped, and so
      destroyed, after the iterator. */
  method GetLegacyDevices(driver: Driver, answers: seq<Answer>)
    returns (r: Result<seq<LegacyDevice>>, ghost it: Ptr)
    modifies driver
    ensures it == Null ==>
      r == Err(Fail) && driver.trace == old(driver.trace) + [CreateIterator]
    ensures it != Null ==>
      var k := KeptPrefix(answers, true);
      var d := Drain(answers, true);
      driver.trace == old(driver.trace) + [CreateIterator]
        + Repeat(NextDevice(it), k + 1) + [DestroyIterator(it)]
        + (if d.Err? then DestroyCalls(Pointers(answers[..k])) else [])
      && (r.Err? <==> d.Err?) && (r.Err? ==> r.error == d.error)
      && (r.Ok? ==> |r.value| == |d.value|
                    && forall i :: 0 <= i < |d.value| ==> fresh(r.value[i]) && r.value[i].dev == d.value[i])
    ensures driver.buffers == old(driver.buffers)
  {
    var p := driver.QueryPtr(CreateIterator);
    it := p;
    if p == Null {
      return Err(Fail), it;
    }
    var d, kept := DrainIterator(driver, NextDevice(p), answers, true);
    var _ := driver.Call(DestroyIterator(p));
    var devices := WrapLegacyDevices(driver, kept);
    if d.Err? {
      DropLegacyDevices(driver, devices, kept);
      r := Err(d.error);
    } else {
      r := Ok(devices);
    }
  }

  /** The iterator is destroyed exactly once by `get_devices`, after every `next` call; the
      only calls after it destroy the devices dropped on the error path. */
  lemma {:induction false} IteratorDestroyedOnce(it: Ptr, n: nat, dropped: seq<Ptr>)
    ensures var added := [CreateIterator] + Repeat(NextDevice(it), n) + [DestroyIterator(it)]
                         + DestroyCalls(dropped);
      Count(added, DestroyIterator(it)) == 1 && added[n + 1] == DestroyIterator(it)
      && forall i :: n + 1 < i < |added| ==> added[i].DestroyDevice?
  {
    var calls := Repeat(NextDevice(it), n);
    var drops := DestroyCalls(dropped);
    var added := [CreateIterator] + calls + [DestroyIterator(it)] + drops;
    assert DestroyIterator(it) !in calls;
    DestroyCallsShape(dropped);
    assert DestroyIterator(it) !in drops;
    assert multiset(added)
      == multiset([CreateIterator]) + multiset(calls) + multiset([DestroyIterator(it)]) + multiset(drops);
    forall i | n + 1 < i < |added|
      ensures added[i].DestroyDevice?
    {
      assert added[i] == drops[i - n - 2];
    }
  }

  /** In the lenient loop `S_FALSE` never adds a device and a positive status other than
      `S_FALSE` does; the error it returns is always for a negative status. */
  lemma LenientLoopClassification(answers: seq<Answer>)
    ensures var d := Drain(answers, true); var k := KeptPrefix(answers, true);
      (forall j :: 0 <= j < k ==> answers[j].status >= 0 && answers[j].status != 1)
      && (d.Err? ==> k < |answers| && answers[k].status < 0 && d.error == FromCode(answers[k].status))
      && (d.Ok? ==> |d.value| == k)
  {
    DrainResult(answers, true);
  }
}
