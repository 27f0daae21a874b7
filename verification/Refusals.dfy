/** How an error of Control becomes one of the sidecar's errors, what public
    code it carries and which HTTP answer it gets. */
module Refusals {
  import opened Text
  import Decimal

  /** The gRPC status codes of a failed call. */
  datatype Code =
    | Canceled | Unknown | InvalidArgument | DeadlineExceeded | NotFound | AlreadyExists | PermissionDenied
    | ResourceExhausted | FailedPrecondition | Aborted | OutOfRange | Unimplemented | Internal | Unavailable
    | DataLoss | Unauthenticated

  /** A failed call: a status, or an error that carries none. */
  datatype CallError = NoStatus | Status(code: Code, message: string)

  /** What the sidecar refuses on its own, without Control's word. */
  datatype Reason =
    | UnknownClass(class_: string)
    | UnknownVerdict(verdict: string)
    | AboveBound(handle: string, size: nat, bound: nat)
    | NoCapability(transfer: string, state: string)
    | OtherObject(handle: string)
    | RejectedTransfer(reasonCode: string, transfer: string)

  /** A local refusal's text: a code, a blank, and what happened. */
  function ReasonCode(r: Reason): string {
    match r
    case UnknownClass(_) => "INVALID_ARGUMENT"
    case UnknownVerdict(_) => "INVALID_ARGUMENT"
    case AboveBound(_, _, _) => "INVALID_ARGUMENT"
    case NoCapability(_, _) => "STALE_EXECUTION"
    case OtherObject(_) => "STALE_EXECUTION"
    case RejectedTransfer(reasonCode, _) => reasonCode
  }

  function ReasonDetail(r: Reason): string {
    match r
    case UnknownClass(c) => "unknown artifact class \"" + c + "\""
    case UnknownVerdict(v) => "unknown verdict \"" + v + "\""
    case AboveBound(handle, size, bound) =>
      "artifact " + handle + " holds " + Decimal.Print(size) + " bytes, the input bound is " + Decimal.Print(bound)
    case NoCapability(transfer, state) => "transfer " + transfer + " is " + state + " and no upload capability was issued"
    case OtherObject(handle) => "artifact " + handle + ": the downloaded bytes are not the recorded object"
    case RejectedTransfer(_, transfer) => "transfer " + transfer + " rejected"
  }

  function ReasonText(r: Reason): string { WithDetail(ReasonCode(r), ReasonDetail(r)) }

  function WithDetail(code: string, detail: string): string { code + [' '] + detail }

  /** The sidecar's errors; Refused and Local are ErrRefused wrapped with the
      text behind its colon. */
  datatype ScopeError =
    | Unregistered | NoAuthority | DeadlinePassed | Stale | Refused(text: string) | Local(reason: Reason)
    | DependencyUnavailable

  predicate IsRefusal(e: ScopeError) { e.Refused? || e.Local? }

  function RefusalText(e: ScopeError): string
    requires IsRefusal(e)
  {
    if e.Refused? then e.text else ReasonText(e.reason)
  }

  predicate RefusalCode(c: Code) {
    c.FailedPrecondition? || c.Aborted? || c.InvalidArgument? || c.NotFound? || c.PermissionDenied?
    || c.ResourceExhausted? || c.DataLoss?
  }

  function Refusal(e: CallError): ScopeError {
    match e
    case NoStatus => DependencyUnavailable
    case Status(code, message) =>
      if RefusalCode(code) then Refused(TrimSpace(Before(message, ':'))) else DependencyUnavailable
  }

  /** How the text of every refusal begins. */
  const MARK := "refused: "

  /** The second result of `strings.Cut`: what follows the first `sep`, or
      nothing. */
  function After(s: string, sep: string): string
    decreases |s|
  {
    if sep <= s then s[|sep|..] else if s == [] then [] else After(s[1..], sep)
  }

  /** scope.Code. */
  function PublicCode(e: ScopeError): string {
    if IsRefusal(e) then After(MARK + RefusalText(e), MARK) else ""
  }

  datatype Failure = Failure(status: nat, code: string, retryAfter: bool)

  /** The answer for a scope that is not usable. */
  function ScopeFailure(e: ScopeError): Failure {
    match e
    case Unregistered => Failure(503, "SCOPE_UNAVAILABLE", true)
    case NoAuthority => Failure(403, "NO_AUTHORITY", false)
    case DeadlinePassed => Failure(403, "DEADLINE_EXCEEDED", false)
    case Stale => Failure(403, "STALE_EXECUTION", false)
    case Refused(_) => Failure(403, PublicCode(e), false)
    case Local(_) => Failure(403, PublicCode(e), false)
    case DependencyUnavailable => Failure(503, "DEPENDENCY_UNAVAILABLE", true)
  }

  /** The answer for an action Control or the sidecar refused. */
  function ActionFailure(e: ScopeError): Failure {
    if IsRefusal(e) then
      Failure(if PublicCode(e) == "INVALID_ARGUMENT" then 400 else 409, PublicCode(e), false)
    else Failure(503, "DEPENDENCY_UNAVAILABLE", false)
  }

  lemma CodeOfRefusal(e: ScopeError)
    requires IsRefusal(e)
    ensures PublicCode(e) == RefusalText(e)
  {
    AfterMark(RefusalText(e));
  }

  lemma AfterMark(text: string)
    ensures After(MARK + text, MARK) == text
  {
    assert MARK <= MARK + text;
  }

  lemma BeforeOf(front: string, rest: string)
    requires Lacks(front, ':') && (rest == [] || rest[0] == ':')
    ensures Before(front + rest, ':') == front
  {
    if rest == [] {
      assert front + rest == front;
      IndexOfNone(front, ':');
    } else {
      assert front + rest == front + [':'] + rest[1..];
      IndexOfAt(front, ':', rest[1..]);
    }
    assert (front + rest)[..|front|] == front;
  }

  /** A message whose text in front of the first colon is `core` amid blanks
      comes back as exactly `core` through one of the seven statuses that refuse,
      and as nothing through any other; the answers to an action and to a scope
      follow it. */
  lemma RefusalCodeRoundTrip(c: Code, left: string, core: string, right: string, rest: string)
    requires Blank(left) && Blank(right) && Trimmed(core)
    requires Lacks(core, ':')
    requires rest == [] || rest[0] == ':'
    ensures var e := Refusal(Status(c, left + core + right + rest));
      if c in {FailedPrecondition, Aborted, InvalidArgument, Code.NotFound, PermissionDenied, ResourceExhausted, DataLoss} then
        && e.Refused? && PublicCode(e) == core
        && ActionFailure(e) == Failure(if core == "INVALID_ARGUMENT" then 400 else 409, core, false)
        && ScopeFailure(e) == Failure(403, core, false)
      else
        && e.DependencyUnavailable? && PublicCode(e) == ""
        && ActionFailure(e) == Failure(503, "DEPENDENCY_UNAVAILABLE", false)
        && ScopeFailure(e) == Failure(503, "DEPENDENCY_UNAVAILABLE", true)
  {
    SpacesAreNoColons(left, core, right);
    BeforeOf(left + core + right, rest);
    TrimSpaceSurrounded(left, core, right);
    CodeOfRefusal(Refused(core));
  }

  lemma SpacesAreNoColons(left: string, core: string, right: string)
    requires Blank(left) && Blank(right) && Lacks(core, ':')
    ensures Lacks(left + core + right, ':')
  {
    var s := left + core + right;
    forall i | 0 <= i < |s| ensures s[i] != ':' {
      if i < |left| { assert s[i] == left[i]; }
      else if i < |left| + |core| { assert s[i] == core[i - |left|]; }
      else { assert s[i] == right[i - |left| - |core|]; }
    }
  }

  /** Every message has that shape, so the round trip covers every status. */
  lemma MessageShape(message: string) returns (left: string, core: string, right: string, rest: string)
    ensures message == left + core + right + rest
    ensures Blank(left) && Blank(right) && Trimmed(core) && Lacks(core, ':')
    ensures rest == [] || rest[0] == ':'
  {
    var i := IndexOf(message, ':');
    IndexOfIsFirst(message, ':');
    rest := message[i..];
    left, core, right := Surroundings(message[..i]);
    assert message == message[..i] + rest;
    forall j | 0 <= j < |core| ensures core[j] != ':' {
      assert core[j] == message[..i][|left| + j] == message[|left| + j];
    }
  }

  /** What the sidecar refuses on its own carries more than a bare code, so the
      action is answered as a conflict even where the text begins with
      INVALID_ARGUMENT: an unknown class or verdict, an artifact above the
      bound. */
  lemma LocalRefusalsConflict(r: Reason)
    ensures ActionFailure(Local(r)).status == 409 && PublicCode(Local(r)) == ReasonText(r)
  {
    CodeOfRefusal(Local(r));
    DetailIsNoCode(ReasonCode(r), ReasonDetail(r));
  }

  lemma DetailIsNoCode(code: string, detail: string)
    ensures WithDetail(code, detail) != "INVALID_ARGUMENT"
  {
    assert WithDetail(code, detail)[|code|] == ' ';
    assert Lacks("INVALID_ARGUMENT", ' ');
  }
}
