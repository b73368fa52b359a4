/** The collection loop every driver iterator is drained with (src/display_mode.rs,
    src/device/mod.rs, src/device.rs, src/main.rs): call `next` until it answers `S_FALSE`,
    keep the pointer of every accepted answer in order, and give up with the error of the
    first answer that is neither. The loops differ only in which answers they accept:
    `is_ok` (status 0) in the newer files, `succeeded` (any status >= 0) in the older ones;
    all of them test for `S_FALSE` before accepting. The driver's answers are a finite script;
    once it is used up the iterator reports `S_FALSE`, as `Sdk.AnswerAt` says. */
module Iteration {
  import opened Common
  import opened SdkErrors
  import opened Sdk

  /** What a loop does with one answer. */
  datatype Step = Keep | Finish | GiveUp

  /** The step a loop takes on `status`; `lenient` loops keep every `succeeded` status,
      strict ones only `S_OK`. */
  function Classify(status: I32, lenient: bool): (s: Step)
    ensures s == Finish <==> IsFalse(status)
    ensures s == Keep <==> !IsFalse(status) && (if lenient then Succeeded(status) else IsOk(status))
    ensures s == GiveUp <==> !Succeeded(status) || (!lenient && status > 1)
  {
    if IsFalse(status) then Finish
    else if (if lenient then Succeeded(status) else IsOk(status)) then Keep
    else GiveUp
  }

  /** The pointers of `answers`, in order. */
  function Pointers(answers: seq<Answer>): (ps: seq<Ptr>)
    ensures |ps| == |answers|
    ensures forall i :: 0 <= i < |answers| ==> ps[i] == answers[i].ptr
  {
    seq(|answers|, i requires 0 <= i < |answers| => answers[i].ptr)
  }

  /** What draining an iterator that answers `answers` yields, one answer at a time. */
  function Drain(answers: seq<Answer>, lenient: bool): Result<seq<Ptr>>
    decreases |answers|
  {
    if |answers| == 0 then Ok([])
    else match Classify(answers[0].status, lenient)
      case Finish => Ok([])
      case GiveUp => Err(FromCode(answers[0].status))
      case Keep =>
        match Drain(answers[1..], lenient)
        case Ok(rest) => Ok([answers[0].ptr] + rest)
        case Err(e) => Err(e)
  }

  /** The number of answers kept before the loop stops: the index of the first answer
      that is not kept, or the whole script when every answer is kept. */
  function KeptPrefix(answers: seq<Answer>, lenient: bool): (k: nat)
    ensures k <= |answers|
    ensures forall j :: 0 <= j < k ==> Classify(answers[j].status, lenient) == Keep
    ensures k < |answers| ==> Classify(answers[k].status, lenient) != Keep
    decreases |answers|
  {
    if |answers| == 0 || Classify(answers[0].status, lenient) != Keep then 0
    else 1 + KeptPrefix(answers[1..], lenient)
  }

  /** The loop's outcome stated outright: the answer at the first index not kept decides;
      `S_FALSE` (or the end of the script) returns the pointers before it, in order, and
      anything else returns that answer's error and discards them. */
  function Outcome(answers: seq<Answer>, lenient: bool): (r: Result<seq<Ptr>>)
  {
    var k := KeptPrefix(answers, lenient);
    var last := AnswerAt(answers, k);
    if Classify(last.status, lenient) == GiveUp then Err(FromCode(last.status))
    else Ok(Pointers(answers[..k]))
  }

  /** The one-step definition and the outright statement agree on every script. */
  lemma {:induction false} DrainIsOutcome(answers: seq<Answer>, lenient: bool)
    ensures Drain(answers, lenient) == Outcome(answers, lenient)
    decreases |answers|
  {
    if |answers| > 0 && Classify(answers[0].status, lenient) == Keep {
      var tail := answers[1..];
      DrainIsOutcome(tail, lenient);
      var k := KeptPrefix(tail, lenient);
      assert KeptPrefix(answers, lenient) == k + 1;
      assert AnswerAt(answers, k + 1) == AnswerAt(tail, k);
      assert Pointers(answers[..k + 1]) == [answers[0].ptr] + Pointers(tail[..k]);
    }
  }

  /** A successful drain keeps exactly the accepted answers before the stop, in order;
      an aborted one reports the error of an answer that is neither accepted nor `S_FALSE`. */
  lemma DrainResult(answers: seq<Answer>, lenient: bool)
    ensures var r := Drain(answers, lenient);
      var k := KeptPrefix(answers, lenient);
      (r.Ok? ==> r.value == Pointers(answers[..k])
                 && (k == |answers| || IsFalse(answers[k].status)))
      && (r.Err? ==> k < |answers| && Classify(answers[k].status, lenient) == GiveUp
                     && r.error == FromCode(answers[k].status))
  {
    DrainIsOutcome(answers, lenient);
  }

  /** `n` copies of the call `e`. */
  function Repeat(e: Event, n: nat): (calls: seq<Event>)
    ensures |calls| == n
    ensures forall i :: 0 <= i < n ==> calls[i] == e
  {
    seq(n, _ => e)
  }

  /** The loop itself: `next` is called once per kept answer and once more for the answer
      that stops it; nothing else reaches the driver. `kept` holds the pointers pushed
      before the loop stopped, on either path: an early `return` still owns them and drops
      them. */
  method DrainIterator(driver: Driver, next: Event, answers: seq<Answer>, lenient: bool)
    returns (r: Result<seq<Ptr>>, kept: seq<Ptr>)
    modifies driver
    ensures r == Drain(answers, lenient)
    ensures kept == Pointers(answers[..KeptPrefix(answers, lenient)])
    ensures r.Ok? ==> r.value == kept
    ensures driver.trace == old(driver.trace) + Repeat(next, KeptPrefix(answers, lenient) + 1)
    ensures driver.buffers == old(driver.buffers)
  {
    DrainIsOutcome(answers, lenient);
    kept := [];
    var k := 0;
    while true
      invariant k <= KeptPrefix(answers, lenient)
      invariant kept == Pointers(answers[..k])
      invariant driver.trace == old(driver.trace) + Repeat(next, k)
      invariant driver.buffers == old(driver.buffers)
      decreases |answers| - k
    {
      var status, p := driver.Next(next, AnswerAt(answers, k));
      assert Repeat(next, k) + [next] == Repeat(next, k + 1);
      var step := Classify(status, lenient);
      if step == Finish {
        return Ok(kept), kept;
      } else if step == Keep {
        assert answers[..k + 1] == answers[..k] + [answers[k]];
        kept := kept + [p];
        k := k + 1;
      } else {
        return Err(FromCode(status)), kept;
      }
    }
  }
}
