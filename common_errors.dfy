// core/common/errors.py: the deterministic error hierarchy.  Python raises;
// the model returns a tagged result carrying the same error value.
module Errors {
  import opened OptionType
  import opened ReasonCodes

  /** The four exception classes; `Parent` is the base class each one extends. */
  datatype ErrorKind = ProtocolKind | RejectKind | TerminateKind | InvariantKind

  function Parent(k: ErrorKind): Option<ErrorKind>
  {
    match k
    case ProtocolKind => None
    case RejectKind => Some(ProtocolKind)
    case TerminateKind => Some(ProtocolKind)
    case InvariantKind => Some(TerminateKind)
  }

  function Depth(k: ErrorKind): nat
  {
    match k
    case ProtocolKind => 0
    case RejectKind => 1
    case TerminateKind => 1
    case InvariantKind => 2
  }

  /** `isinstance(e, sup)` for an error of class `k`: `sup` is `k` or one of its ancestors. */
  predicate IsA(k: ErrorKind, sup: ErrorKind)
    decreases Depth(k)
  {
    k == sup || (Parent(k).Some? && Depth(Parent(k).value) < Depth(k) && IsA(Parent(k).value, sup))
  }

  /** Every error is a ProtocolError; an InvariantError is a TerminateError and
      never a RejectError; a RejectError is never a TerminateError. */
  lemma {:induction false} HierarchyFacts(k: ErrorKind)
    ensures IsA(k, ProtocolKind)
    ensures IsA(InvariantKind, TerminateKind)
    ensures !IsA(InvariantKind, RejectKind) && !IsA(RejectKind, TerminateKind)
    ensures IsA(k, RejectKind) <==> k == RejectKind
    ensures IsA(k, TerminateKind) <==> k == TerminateKind || k == InvariantKind
  {
    assert IsA(InvariantKind, TerminateKind);
    assert IsA(TerminateKind, ProtocolKind);
  }

  datatype Detail = DInt(i: int) | DStr(s: string)

  /** An error always carries a reason code; `details` is optional. */
  datatype ProtocolError = ProtocolError(
    kind: ErrorKind,
    reason: ReasonCode,
    message: string,
    details: Option<map<string, Detail>>)

  /** The serialised form returned by `as_dict`. */
  datatype ErrorDict = ErrorDict(reason: string, message: string, details: map<string, Detail>)

  /** `details or {}`: an absent (or empty) details map serialises as the empty map. */
  function AsDict(e: ProtocolError): (d: ErrorDict)
    ensures d.reason == Value(e.reason) && d.message == e.message
    ensures e.details.None? ==> d.details == map[]
    ensures e.details.Some? ==> d.details == e.details.value
  {
    ErrorDict(Value(e.reason), e.message, if e.details.Some? && e.details.value != map[] then e.details.value else map[])
  }

  /** Leaving `details` out and passing an empty map serialise the same. */
  lemma AbsentAndEmptyDetailsAgree(k: ErrorKind, r: ReasonCode, m: string)
    ensures AsDict(ProtocolError(k, r, m, None)) == AsDict(ProtocolError(k, r, m, Some(map[])))
  {
  }

  datatype Result<+T> = Ok(value: T) | Err(error: ProtocolError)

  /** The outcome of a check that returns nothing or raises. */
  datatype Outcome = Pass | Fail(error: ProtocolError)

  function RejectError(reason: ReasonCode, message: string, details: Option<map<string, Detail>>): ProtocolError
  {
    ProtocolError(RejectKind, reason, message, details)
  }

  function InvariantError(reason: ReasonCode, message: string, details: Option<map<string, Detail>>): ProtocolError
  {
    ProtocolError(InvariantKind, reason, message, details)
  }
}
