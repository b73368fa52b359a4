/** The standalone program (src/main.rs): its own copy of the error type's decoding, a
    device enumeration with the lenient loop, and the driver version query. Printing is
    not modelled. */
module MainProgram {
  import opened Common
  import opened SdkErrors
  import opened Sdk
  import opened Iteration
  import opened LegacyDevices

  /** `get_devices`: the same loop as the older library copy, reporting an error through
      this file's own `SdkError::from`; on the error path the devices pushed so far are
      destroyed after the iterator. `it` is the iterator the driver created. */
  method GetMainDevices(driver: Driver, answers: seq<Answer>)
    returns (r: Result<seq<LegacyDevice>>, ghost it: Ptr)
    modifies driver
    ensures it == Null ==>
      r == Err(Fail) && driver.trace == old(driver.trace) + [CreateIterator]
    ensures it != Null ==>
      var k := KeptPrefix(answers, true);
      driver.trace == old(driver.trace) + [CreateIterator]
        + Repeat(NextDevice(it), k + 1) + [DestroyIterator(it)]
        + (if r.Err? then DestroyCalls(Pointers(answers[..k])) else [])
      && (r.Err? ==> k < |answers| && answers[k].status < 0 && r.error == MainFromCode(answers[k].status))
      && (r.Ok? ==> |r.value| == k
                    && forall i :: 0 <= i < k ==> fresh(r.value[i]) && r.value[i].dev == answers[i].ptr)
    ensures driver.buffers == old(driver.buffers)
  {
    var p := driver.QueryPtr(CreateIterator);
    it := p;
    if p == Null {
      return Err(Fail), it;
    }
    var d, kept := DrainIterator(driver, NextDevice(p), answers, true);
    var _ := driver.Call(DestroyIterator(p));
    DrainResult(answers, true);
    var devices := WrapLegacyDevices(driver, kept);
    if d.Err? {
      MainFromCodeAgrees(answers[KeptPrefix(answers, true)].status);
      DropLegacyDevices(driver, devices, kept);
      r := Err(d.error);
    } else {
      r := Ok(devices);
    }
  }

  /** `api_version`: `None` when no iterator can be created; otherwise the version text,
      after which the iterator is destroyed. */
  method ApiVersionText(driver: Driver) returns (r: Option<string>, ghost it: Ptr, ghost text: string)
    modifies driver
    ensures it == Null ==> r == None && driver.trace == old(driver.trace) + [CreateIterator]
    ensures it != Null ==>
      r == Some(text)
      && driver.trace == old(driver.trace) + [CreateIterator, ApiVersion(it), DestroyIterator(it)]
    ensures driver.buffers == old(driver.buffers)
  {
    var p := driver.QueryPtr(CreateIterator);
    it, text := p, "";
    if p == Null {
      return None, it, text;
    }
    var t := driver.QueryText(ApiVersion(p));
    var _ := driver.Call(DestroyIterator(p));
    text := t;
    r := Some(t);
  }
}
