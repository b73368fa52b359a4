/** The COM status macros of wrapper.h, following the HRESULT layout of Microsoft's
    [MS-ERREF] section 2.1: bit 31 is the severity, bits 16-28 the facility, bits 0-15 the
    code. An HRESULT is modelled by its 32 bits; `Signed` is the C `int` those bits hold.
    Shifting a negative `int` right is arithmetic in practice; every macro below masks the
    shifted value, so the bits it keeps are the same as after a logical shift of the
    32-bit pattern, which is what these functions compute. */
module HResult {
  import opened Common
  import SdkErrors

  /** `(HRESULT)` reading of a 32-bit pattern: two's complement. */
  function Signed(hr: bv32): int {
    if hr < 0x8000_0000 then hr as int else hr as int - 0x1_0000_0000
  }

  /** `SUCCEEDED(Status)`: the `int` is not negative, i.e. the sign bit is clear. */
  predicate Succeeded(status: bv32) { status < 0x8000_0000 }
  /** `FAILED(Status)`: the `int` is negative, i.e. the sign bit is set. */
  predicate Failed(status: bv32) { status >= 0x8000_0000 }

  /** `HRESULT_CODE(hr)`. */
  function Code(hr: bv32): bv32 { hr & 0xFFFF }
  /** `HRESULT_FACILITY(hr)`. */
  function Facility(hr: bv32): bv32 { (hr >> 16) & 0x1FFF }
  /** `HRESULT_SEVERITY(hr)`. */
  function Severity(hr: bv32): bv32 { (hr >> 31) & 0x1 }

  const SeveritySuccess: bv32 := 0
  const SeverityError: bv32 := 1

  /** `MAKE_HRESULT(sev, fac, code)`: the operands are widened, shifted into place and
      or-ed; the cast to HRESULT keeps the low 32 bits, which depend only on the low 32
      bits of each operand. */
  function MakeHResult(sev: bv32, fac: bv32, code: bv32): bv32 {
    (sev << 31) | (fac << 16) | code
  }

  /** `IS_ERROR(Status)` where `unsigned long` is 32 bits wide, as on the platform the
      COM header was written for. */
  predicate IsError(status: bv32) { status >> 31 == SeverityError }

  /** `(unsigned long)(Status)` where `unsigned long` is 64 bits wide (Linux on 64-bit
      processors): converting a negative `int` sign-extends it. */
  function WidenLp64(status: bv32): bv64 {
    if status < 0x8000_0000 then status as bv64 else (status as bv64) | 0xFFFF_FFFF_0000_0000
  }

  /** `IS_ERROR(Status)` as written, compiled where `unsigned long` is 64 bits wide. */
  predicate IsErrorAsWritten(status: bv32) { WidenLp64(status) >> 31 == SeverityError as bv64 }

  const S_OK: bv32 := 0x0000_0000
  const S_FALSE: bv32 := 0x0000_0001
  const E_UNEXPECTED: bv32 := 0x8000_FFFF
  const E_NOTIMPL: bv32 := 0x8000_0001
  const E_OUTOFMEMORY: bv32 := 0x8000_0002
  const E_INVALIDARG: bv32 := 0x8000_0003
  const E_NOINTERFACE: bv32 := 0x8000_0004
  const E_POINTER: bv32 := 0x8000_0005
  const E_HANDLE: bv32 := 0x8000_0006
  const E_ABORT: bv32 := 0x8000_0007
  const E_FAIL: bv32 := 0x8000_0008
  const E_ACCESSDENIED: bv32 := 0x8000_0009

  /** The header's error constant that the binding's error variant stands for. */
  function ErrorConstant(e: SdkErrors.SdkError): bv32 {
    match e
    case False => S_FALSE
    case Unexpected => E_UNEXPECTED
    case NotImpl => E_NOTIMPL
    case OutOfMemory => E_OUTOFMEMORY
    case InvalidArg => E_INVALIDARG
    case NoInterface => E_NOINTERFACE
    case Pointer => E_POINTER
    case Handle => E_HANDLE
    case Abort => E_ABORT
    case Fail => E_FAIL
    case AccessDenied => E_ACCESSDENIED
  }

  // ---- properties ----

  /** `FAILED` is the exact negation of `SUCCEEDED`, and both agree with the binding's
      `succeeded` on the same status. */
  lemma FailedIsNotSucceeded(status: bv32)
    ensures Failed(status) <==> !Succeeded(status)
    ensures Succeeded(status) <==> Signed(status) >= 0
  {
  }

  /** `HRESULT_CODE` recovers the code packed by `MAKE_HRESULT`. */
  lemma MakeHResultCode(sev: bv32, fac: bv32, code: bv32)
    requires code < 0x1_0000
    ensures Code(MakeHResult(sev, fac, code)) == code
  {
  }

  /** `HRESULT_FACILITY` recovers the facility packed by `MAKE_HRESULT`. */
  lemma MakeHResultFacility(sev: bv32, fac: bv32, code: bv32)
    requires fac < 0x2000 && code < 0x1_0000
    ensures Facility(MakeHResult(sev, fac, code)) == fac
  {
  }

  /** `HRESULT_SEVERITY` recovers the severity packed by `MAKE_HRESULT`, and it decides
      `SUCCEEDED`. */
  lemma MakeHResultSeverity(sev: bv32, fac: bv32, code: bv32)
    requires sev <= 1 && fac < 0x2000 && code < 0x1_0000
    ensures Severity(MakeHResult(sev, fac, code)) == sev
    ensures Succeeded(MakeHResult(sev, fac, code)) <==> sev == SeveritySuccess
  {
  }

  /** With a 32-bit `unsigned long`, `IS_ERROR` is the severity test and means `FAILED`. */
  lemma IsErrorIsSeverity(status: bv32)
    ensures IsError(status) <==> Severity(status) == SeverityError
    ensures IsError(status) <==> Failed(status)
  {
  }

  /** As written, with a 64-bit `unsigned long`, `IS_ERROR` holds of no status at all. */
  lemma IsErrorAsWrittenNeverHolds(status: bv32)
    ensures !IsErrorAsWritten(status)
  {
  }

  /** The concrete input: `E_FAIL` is an error, yet `IS_ERROR(E_FAIL)` is false. */
  lemma IsErrorAsWrittenMissesFail()
    ensures IsError(E_FAIL) && !IsErrorAsWritten(E_FAIL)
  {
  }

  /** `S_OK` and `S_FALSE` succeed; every `E_` constant has severity 1, fails, and holds
      the status code of the binding's error of the same name. */
  lemma ConstantsClassified(e: SdkErrors.SdkError)
    ensures Succeeded(S_OK) && Succeeded(S_FALSE)
    ensures e != SdkErrors.False ==>
      Severity(ErrorConstant(e)) == SeverityError && Failed(ErrorConstant(e))
    ensures Signed(ErrorConstant(e)) == SdkErrors.Code(e)
    ensures Signed(S_OK) == 0 && SdkErrors.IsOk(Signed(S_OK))
    ensures SdkErrors.IsFalse(Signed(S_FALSE))
  {
  }
}
