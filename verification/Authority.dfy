/** The execution authority of one registration: what Control answered about
    this Pod and whether it may act now. */
module Authority {
  import opened Outcomes
  import opened Refusals
  import Decimal

  datatype Identity = Identity(backend: string, launchKey: string, podUid: string)

  datatype AttemptState = LaunchPrepared | Running | ResultAccepted | Closed(name: string) | OtherState(name: string)

  datatype Lifecycle = Active | Succeeded | Failed | LifecycleCanceled | Reconciling | OtherLifecycle(name: string)

  datatype ControlIntent = IntentUnspecified | IntentNone | Intent(name: string)

  /** Control's records; a timestamp that is absent reads as the epoch. */
  datatype Instance = Instance(instanceId: string, attemptId: string, launchKey: string, backend: string,
                               podUid: string, current: bool, launchEpoch: string)

  datatype Attempt = Attempt(attemptId: string, operationId: string, profileId: string, executionEpoch: string,
                             state: AttemptState, deadline: Option<nat>)

  datatype Operation = Operation(operationId: string, projectId: string, actorId: string, lifecycle: Lifecycle,
                                 control: ControlIntent, executionEpoch: string, deadline: Option<nat>)

  datatype Money = Money(currency: string, amount: string)

  datatype Response = Response(instance: Option<Instance>, attempt: Option<Attempt>, operation: Option<Operation>,
                               tenantId: string, recoveryEpoch: string, headroom: Option<Money>)

  datatype Scope = Scope(tenantId: string, operationId: string, attemptId: string, instanceId: string, current: bool,
                         profileId: string, executionEpoch: string, recoveryEpoch: string, launchKey: string,
                         deadline: nat, projectId: string, actorId: string, headroom: Option<Money>)

  datatype Registration = Registration(scope: Scope, instance: Option<Instance>, attempt: Option<Attempt>,
                                       operation: Option<Operation>)

  datatype Binding = Binding(operationId: string, attemptId: string, profileId: string, launchKey: string,
                             executionEpoch: string, launchEpoch: string)

  datatype Purpose = ForNewAuthorization | ForResult

  const NO_INSTANCE := Instance("", "", "", "", "", false, "")
  const NO_ATTEMPT := Attempt("", "", "", "", OtherState("UNSPECIFIED"), None)

  /** A protobuf getter on an absent message answers the zero value. */
  function InstanceOf(i: Option<Instance>): Instance { if i.Some? then i.value else NO_INSTANCE }
  function AttemptOf(a: Option<Attempt>): Attempt { if a.Some? then a.value else NO_ATTEMPT }
  function AsTime(t: Option<nat>): nat { if t.Some? then t.value else 0 }

  /** Client.Lookup, from the answer of GetInstance. */
  function Lookup(id: Identity, answer: Result<Response, CallError>): Result<Registration, ScopeError> {
    match answer
    case Err(e) => Err(if e.Status? && e.code.NotFound? then Unregistered else Refusal(e))
    case Ok(resp) =>
      var inst, at := InstanceOf(resp.instance), AttemptOf(resp.attempt);
      if inst.podUid != id.podUid || inst.launchKey != id.launchKey || inst.backend != id.backend then
        Err(DependencyUnavailable)
      else
        var scope := Scope(resp.tenantId, at.operationId, at.attemptId, inst.instanceId, inst.current, at.profileId,
                           at.executionEpoch, resp.recoveryEpoch, inst.launchKey, AsTime(at.deadline),
                           if resp.operation.Some? then resp.operation.value.projectId else "",
                           if resp.operation.Some? then resp.operation.value.actorId else "", resp.headroom);
        Ok(Registration(scope, resp.instance, resp.attempt, resp.operation))
  }

  /** How a lookup fails: a registration Control does not know is unregistered, any
      other error is what every call makes of it, and an answer about another Pod,
      launch or backend is no answer. */
  lemma LookupFails(id: Identity, answer: Result<Response, CallError>)
    ensures Lookup(id, answer) == Err(Unregistered) <==>
            answer.Err? && answer.error.Status? && answer.error.code.NotFound?
    ensures answer.Err? && Lookup(id, answer) != Err(Unregistered) ==> Lookup(id, answer) == Err(Refusal(answer.error))
    ensures answer.Ok? && answer.value.instance.Some? ==>
      var inst := answer.value.instance.value;
      if inst.podUid == id.podUid && inst.launchKey == id.launchKey && inst.backend == id.backend then Lookup(id, answer).Ok?
      else Lookup(id, answer) == Err(DependencyUnavailable)
  {
  }

  predicate Terminal(op: Operation) {
    op.lifecycle.Succeeded? || op.lifecycle.Failed? || op.lifecycle.LifecycleCanceled?
  }

  predicate Controlled(op: Operation) { op.control.Intent? }

  predicate Fenced(op: Operation) { Controlled(op) || Terminal(op) || op.lifecycle.Reconciling? }

  predicate Executing(s: AttemptState) { s.LaunchPrepared? || s.Running? }

  /** The registration names the launch the envelope fixed, record by record. */
  ghost predicate NamesLaunch(r: Registration, b: Binding) {
    r.instance.Some? && r.attempt.Some? && r.operation.Some?
    && r.attempt.value.attemptId == r.instance.value.attemptId == b.attemptId
    && r.attempt.value.operationId == r.operation.value.operationId == b.operationId
    && r.attempt.value.profileId == b.profileId && r.instance.value.launchKey == b.launchKey
    && r.attempt.value.executionEpoch == b.executionEpoch && r.instance.value.launchEpoch == b.launchEpoch
  }

  /** Everything an authority needs that time does not decide, as the design
      words it: the launch's own registration, the current instance, an attempt
      that still executes under the operation's current epoch, no fence. */
  ghost predicate HoldsAuthority(r: Registration, b: Binding, purpose: Purpose) {
    && NamesLaunch(r, b)
    && r.instance.value.current
    && r.operation.value.executionEpoch == b.executionEpoch
    && match purpose
       case ForNewAuthorization => Executing(r.attempt.value.state) && !Fenced(r.operation.value)
       case ForResult =>
         (Executing(r.attempt.value.state) || r.attempt.value.state.ResultAccepted?)
         && (Fenced(r.operation.value) ==> Controlled(r.operation.value))
  }

  ghost predicate BeforeDeadlines(r: Registration, now: nat) {
    r.attempt.Some? && r.operation.Some?
    && now < AsTime(r.attempt.value.deadline)
    && (r.operation.value.deadline.Some? ==> now < r.operation.value.deadline.value)
  }

  /** Registration.Confirm: None is a grant. It grants exactly the design's
      authority, blames a deadline exactly when only time is against it, and
      answers unavailable only when Control's records are missing or do not
      belong together. */
  function Confirm(r: Registration, b: Binding, now: nat, purpose: Purpose): (e: Option<ScopeError>)
    ensures e == None <==> HoldsAuthority(r, b, purpose) && BeforeDeadlines(r, now)
    ensures e == Some(DeadlinePassed) <==> HoldsAuthority(r, b, purpose) && !BeforeDeadlines(r, now)
    ensures e == Some(DependencyUnavailable)
       ==> r.instance.None? || r.attempt.None? || r.operation.None?
           || r.instance.value.attemptId != r.attempt.value.attemptId
           || r.operation.value.operationId != r.attempt.value.operationId
    ensures e.Some? ==> !e.value.Unregistered? && !IsRefusal(e.value)
  {
    if r.instance.None? || r.attempt.None? then Some(DependencyUnavailable)
    else if r.operation.None? then Some(DependencyUnavailable)
    else
      var inst, at, op := r.instance.value, r.attempt.value, r.operation.value;
      if at.attemptId != b.attemptId || at.operationId != b.operationId || at.profileId != b.profileId
         || inst.launchKey != b.launchKey then Some(NoAuthority)
      else if inst.attemptId != at.attemptId || op.operationId != at.operationId then Some(DependencyUnavailable)
      else if at.executionEpoch != b.executionEpoch || inst.launchEpoch != b.launchEpoch then Some(NoAuthority)
      else if !inst.current then Some(NoAuthority)
      else if !Executing(at.state) && !(purpose.ForResult? && at.state.ResultAccepted?) then Some(Stale)
      else if op.executionEpoch != at.executionEpoch then Some(Stale)
      else if Fenced(op) && (purpose.ForNewAuthorization? || !Controlled(op)) then Some(Stale)
      else if now >= AsTime(at.deadline) then Some(DeadlinePassed)
      else if op.deadline.Some? && now >= op.deadline.value then Some(DeadlinePassed)
      else None
  }

  /** A scope that names the launch the envelope fixed. */
  ghost predicate ScopeOfBinding(s: Scope, id: Identity, b: Binding) {
    s.operationId == b.operationId && s.attemptId == b.attemptId && s.profileId == b.profileId
    && s.executionEpoch == b.executionEpoch && s.launchKey == b.launchKey == id.launchKey && s.current
  }

  /** Client.Confirm on one answer of Control and one reading of the clock. */
  function Resolve(id: Identity, b: Binding, answer: Result<Response, CallError>, now: nat, purpose: Purpose)
    : (s: Result<Scope, ScopeError>)
    ensures s.Ok? ==> ScopeOfBinding(s.value, id, b) && now < s.value.deadline
    ensures s.Ok? ==> Lookup(id, answer).Ok? && s.value == Lookup(id, answer).value.scope
  {
    match Lookup(id, answer)
    case Err(e) => Err(e)
    case Ok(r) =>
      match Confirm(r, b, now, purpose)
      case Some(e) => Err(e)
      case None => Ok(r.scope)
  }

  /** A granted scope is Control's own record, field by field: none of the zero
      values that absent messages read as ever reaches one. */
  lemma GrantedScopeIsControlsRecord(id: Identity, b: Binding, answer: Result<Response, CallError>, now: nat, purpose: Purpose)
    requires Resolve(id, b, answer, now, purpose).Ok?
    ensures answer.Ok? && answer.value.instance.Some? && answer.value.attempt.Some? && answer.value.operation.Some?
    ensures var s, resp := Resolve(id, b, answer, now, purpose).value, answer.value;
      && resp.instance.value.podUid == id.podUid && resp.instance.value.backend == id.backend
      && s.instanceId == resp.instance.value.instanceId && s.tenantId == resp.tenantId
      && s.projectId == resp.operation.value.projectId && s.actorId == resp.operation.value.actorId
      && s.recoveryEpoch == resp.recoveryEpoch && s.headroom == resp.headroom
      && resp.attempt.value.deadline == Some(s.deadline)
  {
  }

  /** A grant for new authorization is a grant for a result, and a grant at one
      time is a grant at every earlier one. */
  lemma GrantsAreMonotone(r: Registration, b: Binding, now: nat, earlier: nat, purpose: Purpose)
    requires Confirm(r, b, now, purpose).None? && earlier <= now
    ensures Confirm(r, b, earlier, purpose).None?
    ensures Confirm(r, b, earlier, ForResult).None?
  {
  }

  /** The two purposes differ in exactly two cases: a result already accepted,
      and a control intent on the operation. */
  lemma PurposesDifferExactly(r: Registration, b: Binding, now: nat)
    requires Confirm(r, b, now, ForResult).None?
    ensures Confirm(r, b, now, ForNewAuthorization).Some?
       <==> r.attempt.value.state.ResultAccepted? || Controlled(r.operation.value)
  {
  }

  /** What a fence does to a result: among registrations that are otherwise in
      order, a terminal, reconciling or controlled operation lets the result
      through exactly when a control intent is set. */
  lemma ResultUnderFence(r: Registration, b: Binding, now: nat)
    requires NamesLaunch(r, b) && r.instance.value.current && BeforeDeadlines(r, now)
    requires r.operation.value.executionEpoch == b.executionEpoch
    requires Executing(r.attempt.value.state) || r.attempt.value.state.ResultAccepted?
    requires Fenced(r.operation.value)
    ensures Confirm(r, b, now, ForResult).None? <==> Controlled(r.operation.value)
    ensures Confirm(r, b, now, ForNewAuthorization) == Some(Stale)
  {
  }

  /** The comment on ForResult reads as if a terminal or reconciling operation
      always refused the result. A pending control intent masks it. */
  lemma TerminalOperationCanGrantAResult(b: Binding) returns (r: Registration)
    ensures r.operation.Some? && Terminal(r.operation.value) && Confirm(r, b, 0, ForResult).None?
  {
    var inst := Instance("inst_1", b.attemptId, b.launchKey, "backend", "pod-1", true, b.launchEpoch);
    var at := Attempt(b.attemptId, b.operationId, b.profileId, b.executionEpoch, Running, Some(1));
    var op := Operation(b.operationId, "proj", "user", Succeeded, Intent("CANCEL_REQUESTED"), b.executionEpoch, None);
    var scope := Scope("tenant", b.operationId, b.attemptId, "inst_1", true, b.profileId, b.executionEpoch, "1",
                       b.launchKey, 1, "proj", "user", None);
    r := Registration(scope, Some(inst), Some(at), Some(op));
  }

  /** Comparing epochs as texts is comparing them as numbers, for the canonical
      sequences both sides use: what is granted has all epochs equal, and any two
      that differ as numbers refuse. */
  lemma EpochTextsAreNumbers(r: Registration, b: Binding, now: nat, purpose: Purpose)
    requires r.instance.Some? && r.attempt.Some? && r.operation.Some?
    requires Decimal.Canonical(r.attempt.value.executionEpoch) && Decimal.Canonical(r.operation.value.executionEpoch)
    requires Decimal.Canonical(b.executionEpoch)
    requires Decimal.Canonical(r.instance.value.launchEpoch) && Decimal.Canonical(b.launchEpoch)
    ensures SameEpochs(r, b) <==>
            && Decimal.Value(r.attempt.value.executionEpoch) == Decimal.Value(b.executionEpoch)
            && Decimal.Value(r.operation.value.executionEpoch) == Decimal.Value(r.attempt.value.executionEpoch)
            && Decimal.Value(r.instance.value.launchEpoch) == Decimal.Value(b.launchEpoch)
    ensures Confirm(r, b, now, purpose).None? ==> SameEpochs(r, b)
  {
    Decimal.TextEqualityIsNumeric(r.attempt.value.executionEpoch, b.executionEpoch);
    Decimal.TextEqualityIsNumeric(r.operation.value.executionEpoch, r.attempt.value.executionEpoch);
    Decimal.TextEqualityIsNumeric(r.instance.value.launchEpoch, b.launchEpoch);
  }

  /** The epochs as Confirm compares them. */
  ghost predicate SameEpochs(r: Registration, b: Binding)
    requires r.instance.Some? && r.attempt.Some? && r.operation.Some?
  {
    && r.attempt.value.executionEpoch == b.executionEpoch
    && r.operation.value.executionEpoch == r.attempt.value.executionEpoch
    && r.instance.value.launchEpoch == b.launchEpoch
  }
}
