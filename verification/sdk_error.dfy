/** The binding's error type and status predicates (src/util.rs, and the older copy in
    src/main.rs). Driver calls return a 32-bit COM status; 0 is success, 1 is "false",
    negative values are errors. */
module SdkErrors {
  import opened Common

  datatype SdkError =
    | False | Unexpected | NotImpl | OutOfMemory | InvalidArg | NoInterface
    | Pointer | Handle | Abort | Fail | AccessDenied

  /** The discriminant exactly as the enum declaration writes it: an unsigned hex literal.
      Without a `repr` attribute the discriminant type is `isize`, which on a 64-bit target
      holds these values unchanged (all but `False` are above `i32::MAX`). */
  function Discriminant(e: SdkError): nat {
    match e
    case False => 0x0000_0001
    case Unexpected => 0x8000_FFFF
    case NotImpl => 0x8000_0001
    case OutOfMemory => 0x8000_0002
    case InvalidArg => 0x8000_0003
    case NoInterface => 0x8000_0004
    case Pointer => 0x8000_0005
    case Handle => 0x8000_0006
    case Abort => 0x8000_0007
    case Fail => 0x8000_0008
    case AccessDenied => 0x8000_0009
  }

  /** `e as i32`: the status code the driver uses for this error (the discriminant's low
      32 bits read as two's complement; see `CodeTruncatesDiscriminant`). */
  function Code(e: SdkError): (r: I32)
    ensures e == False <==> r == 1
    ensures e != False ==> r < 0
  {
    match e
    case False => 1
    case Unexpected => -0x7FFF_0001
    case NotImpl => -0x7FFF_FFFF
    case OutOfMemory => -0x7FFF_FFFE
    case InvalidArg => -0x7FFF_FFFD
    case NoInterface => -0x7FFF_FFFC
    case Pointer => -0x7FFF_FFFB
    case Handle => -0x7FFF_FFFA
    case Abort => -0x7FFF_FFF9
    case Fail => -0x7FFF_FFF8
    case AccessDenied => -0x7FFF_FFF7
  }

  /** `SdkError::from` as evidently intended: the variant whose status code is `v`, and
      `False` for every status that names no variant (including 0 and 1). */
  function FromCode(v: I32): (r: SdkError)
    ensures Code(r) == v || (r == False && forall e :: Code(e) != v)
  {
    if v == Code(Unexpected) then Unexpected
    else if v == Code(NotImpl) then NotImpl
    else if v == Code(OutOfMemory) then OutOfMemory
    else if v == Code(InvalidArg) then InvalidArg
    else if v == Code(NoInterface) then NoInterface
    else if v == Code(Pointer) then Pointer
    else if v == Code(Handle) then Handle
    else if v == Code(Abort) then Abort
    else if v == Code(Fail) then Fail
    else if v == Code(AccessDenied) then AccessDenied
    else False
  }

  /** `SdkError::from` in src/util.rs as written, on a 64-bit target: the derived
      `from_i32` widens `v` to i64 and compares it with each discriminant read as an
      i64, i.e. with the unsigned hex value. */
  function FromCodeAsWritten(v: I32): SdkError {
    if v == Discriminant(False) then False
    else if v == Discriminant(Unexpected) then Unexpected
    else if v == Discriminant(NotImpl) then NotImpl
    else if v == Discriminant(OutOfMemory) then OutOfMemory
    else if v == Discriminant(InvalidArg) then InvalidArg
    else if v == Discriminant(NoInterface) then NoInterface
    else if v == Discriminant(Pointer) then Pointer
    else if v == Discriminant(Handle) then Handle
    else if v == Discriminant(Abort) then Abort
    else if v == Discriminant(Fail) then Fail
    else if v == Discriminant(AccessDenied) then AccessDenied
    else False
  }

  /** `SdkError::from` in src/main.rs: a `match` on i32 literal patterns, which wrap to
      the negative status codes because overflowing literals are allowed there. */
  function MainFromCode(v: I32): SdkError {
    if v == WrapI32(0x8000_FFFF) then Unexpected
    else if v == WrapI32(0x8000_0001) then NotImpl
    else if v == WrapI32(0x8000_0002) then OutOfMemory
    else if v == WrapI32(0x8000_0003) then InvalidArg
    else if v == WrapI32(0x8000_0004) then NoInterface
    else if v == WrapI32(0x8000_0005) then Pointer
    else if v == WrapI32(0x8000_0006) then Handle
    else if v == WrapI32(0x8000_0007) then Abort
    else if v == WrapI32(0x8000_0008) then Fail
    else if v == WrapI32(0x8000_0009) then AccessDenied
    else False
  }

  predicate IsFalse(v: I32) { v == Code(False) }
  predicate IsOk(v: I32) { v == 0 }
  predicate Succeeded(r: I32) { r >= 0 }

  datatype Result<T> = Ok(value: T) | Err(error: SdkError)

  /** `SdkError::result(status)`. Its definition is not part of this model; the model
      assumes what `is_ok` states (0 is success) and converts any other status with
      `from`, as the code written out inline next to it does. */
  function CheckStatus(status: I32): (r: Result<()>)
    ensures r.Ok? <==> IsOk(status)
    ensures r.Err? ==> r.error == FromCode(status)
  {
    if IsOk(status) then Ok(()) else Err(FromCode(status))
  }

  /** `SdkError::result_or(status, v)` and `result_or_else(status, || v)`. */
  function CheckStatusOr<T>(status: I32, v: T): (r: Result<T>)
    ensures r.Ok? <==> IsOk(status)
    ensures r.Ok? ==> r.value == v
    ensures r.Err? ==> r.error == FromCode(status)
  {
    if IsOk(status) then Ok(v) else Err(FromCode(status))
  }

  // ---- properties ----

  /** Every error survives the trip to its status code and back. */
  lemma FromCodeRoundTrip(e: SdkError)
    ensures FromCode(Code(e)) == e
  {
    match e
    case False =>
    case Unexpected =>
    case NotImpl =>
    case OutOfMemory =>
    case InvalidArg =>
    case NoInterface =>
    case Pointer =>
    case Handle =>
    case Abort =>
    case Fail =>
    case AccessDenied =>
  }

  /** `Code` is the `as i32` cast of the declared discriminant. */
  lemma CodeTruncatesDiscriminant(e: SdkError)
    ensures Code(e) == WrapI32(Discriminant(e))
  {
  }

  /** The status codes of distinct errors are distinct. */
  lemma CodeInjective(a: SdkError, b: SdkError)
    requires Code(a) == Code(b)
    ensures a == b
  {
    FromCodeRoundTrip(a);
    FromCodeRoundTrip(b);
  }

  /** Every status other than 1 and the ten error codes becomes `False`; in particular
      0 (success) does. */
  lemma FromCodeUnlisted(v: I32)
    requires forall e :: e != False ==> Code(e) != v
    ensures FromCode(v) == False
  {
  }

  /** The `match` in src/main.rs and the corrected src/util.rs conversion agree on every
      status. */
  lemma MainFromCodeAgrees(v: I32)
    ensures MainFromCode(v) == FromCode(v)
  {
  }

  /** As written, the src/util.rs conversion maps every 32-bit status to `False`, because
      no i32 equals a discriminant above `i32::MAX`. */
  lemma FromCodeAsWrittenIsConstant(v: I32)
    ensures FromCodeAsWritten(v) == False
  {
  }

  /** A concrete input that shows it: the status of `E_FAIL` is not recognised. */
  lemma FromCodeAsWrittenMissesFail()
    ensures FromCodeAsWritten(Code(Fail)) == False
    ensures FromCode(Code(Fail)) == Fail
  {
  }

  /** `is_false` holds exactly for status 1, `is_ok` exactly for 0, and both kinds of
      success satisfy `succeeded`; no error code does. */
  lemma StatusPredicates(v: I32, e: SdkError)
    ensures IsFalse(v) <==> v == 1
    ensures IsOk(v) ==> Succeeded(v)
    ensures IsFalse(v) ==> Succeeded(v)
    ensures Succeeded(Code(e)) <==> e == False
  {
  }

  /** Converting an error's own status code gives back that error. */
  lemma CheckStatusOfCode(e: SdkError)
    ensures CheckStatus(Code(e)) == Err(e)
  {
    FromCodeRoundTrip(e);
  }
}
