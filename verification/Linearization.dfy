/** Nothing is cached: every grant stands for one instant inside the request's
    own window at which Control's records carried the authority. */
module Linearization {
  import opened Outcomes
  import opened Refusals
  import opened Authority
  import opened Protocol
  import Bytes
  import Control
  import Inputs

  ghost predicate Failing(a: Answer) { a.Turned? || a.Declined? || a.Denied? || a.ActionError? }

  /** The request has been granted its scope and acts, or acted, under it. */
  ghost predicate GrantedPc(pc: Pc) {
    pc.Acting? || pc.Putting? || pc.Finalizing? || (pc.Answered? && !Failing(pc.answer))
  }

  function ScopeIn(pc: Pc): Option<Scope> {
    match pc
    case Acting(s) => Some(s)
    case Putting(s, _, _) => Some(s)
    case Finalizing(s, _, _) => Some(s)
    case Answered(ScopeIs(s, _)) => Some(s)
    case Answered(UploadedAs(s, _)) => Some(s)
    case Answered(AcceptedAs(s, _)) => Some(s)
    case _ => None
  }

  ghost predicate Kept(pc: Pc, s: Scope) {
    !pc.Looked? && (ScopeIn(pc).Some? ==> ScopeIn(pc).value == s)
  }

  lemma BeginKeepsScope(w: World, v: Inputs.View, l: Control.Ledger, s: Scope, class_: string, mediaType: string,
                        body: seq<Bytes.byte>, c: Choice)
    ensures Kept(BeginStep(w, v, l, s, class_, mediaType, body, c).pc, s)
  {
  }

  lemma ActKeepsScope(w: World, p: PodConfig, v: Inputs.View, l: Control.Ledger, s: Scope, a: Action, c: Choice)
    ensures Kept(ActStep(w, p, v, l, s, a, c).pc, s)
  {
    if a.Upload? {
      BeginKeepsScope(w, v, l, s, a.class_, a.mediaType, a.body, c);
    }
  }

  /** A grant is made in the deciding step and only carried on by later ones. */
  lemma StepGrants(w: World, p: PodConfig, socket: Socket, r: Request, clock: nat, fact: Result<Response, CallError>,
                   v: Inputs.View, l: Control.Ledger, c: Choice)
    ensures var pc := StepOf(w, p, socket, r, clock, fact, v, l, c).pc;
      && (pc.Looked? ==> r.pc.Waiting? && pc.reply == if c.lookupLost then Err(NoStatus) else fact)
      && (GrantedPc(pc) && !GrantedPc(r.pc) ==> r.pc.Looked? && pc == DecideStep(p, r.pc.reply, clock, r.action))
      && (GrantedPc(pc) && GrantedPc(r.pc) && ScopeIn(pc).Some? ==> ScopeIn(pc) == ScopeIn(r.pc))
  {
    if r.pc.Acting? {
      ActKeepsScope(w, p, v, l, r.pc.scope, r.action, c);
    }
  }

  /** What one label does to one request, as far as grants go. */
  ghost predicate Carries(w: World, s: State, t: State, rid: Rid)
    requires rid in t.requests
  {
    var r := t.requests[rid];
    && s.clock <= t.clock
    && (rid !in s.requests ==> r.pc.Offered?)
    && (rid in s.requests && r != s.requests[rid] ==>
          var q := s.requests[rid];
          && rid.pod < |w.pods| && r.action == q.action
          && (r.pc.Looked? ==> q.pc.Waiting? && (r.pc.reply.Ok? ==> r.pc.reply == FactOf(s, rid.pod)))
          && (GrantedPc(r.pc) && !GrantedPc(q.pc) ==>
                q.pc.Looked? && r.pc == DecideStep(w.pods[rid.pod], q.pc.reply, s.clock, q.action))
          && (GrantedPc(r.pc) && GrantedPc(q.pc) && ScopeIn(r.pc).Some? ==> ScopeIn(r.pc) == ScopeIn(q.pc)))
  }

  lemma LabelCarries(w: World, s: State, l: Label, t: State, rid: Rid)
    requires Goes(w, s, l, t) && rid in t.requests
    ensures Carries(w, s, t, rid)
  {
    if l.Step? && l.rid == rid && rid in s.requests && rid.pod < |w.pods| && rid.pod in s.pods {
      StepGrants(w, w.pods[rid.pod], rid.socket, s.requests[rid], s.clock, FactOf(s, rid.pod), s.pods[rid.pod].inputs,
                 s.ledger, l.choice);
    }
  }

  lemma OneStepBefore(w: World, ls: seq<Label>, ss: seq<State>, n: nat, rid: Rid)
    requires IsRun(w, ls, ss) && n < |ss| && rid in ss[n].requests && !ss[n].requests[rid].pc.Offered?
    ensures n > 0 && rid in ss[n - 1].requests && Carries(w, ss[n - 1], ss[n], rid)
  {
    StepAt(w, ls, ss, n - 1);
    LabelCarries(w, ss[n - 1], ls[n - 1], ss[n], rid);
  }

  lemma GrantGoesOn(w: World, s: State, t: State, rid: Rid)
    requires rid in s.requests && rid in t.requests && Carries(w, s, t, rid)
    requires GrantedPc(s.requests[rid].pc) && GrantedPc(t.requests[rid].pc)
    ensures t.requests[rid].action == s.requests[rid].action
    ensures ScopeIn(t.requests[rid].pc).Some? ==> ScopeIn(t.requests[rid].pc) == ScopeIn(s.requests[rid].pc)
  {
  }

  /** The instant at which Control gave the answer a request holds at `n`. */
  lemma {:induction false} LookupInstant(w: World, ls: seq<Label>, ss: seq<State>, n: nat, rid: Rid) returns (i: nat)
    requires IsRun(w, ls, ss) && n < |ss| && rid in ss[n].requests
    requires ss[n].requests[rid].pc.Looked? && ss[n].requests[rid].pc.reply.Ok?
    ensures i < n && rid in ss[i].requests && ss[i].requests[rid].pc.Waiting? && ss[i].clock <= ss[n].clock
    ensures rid in ss[i + 1].requests && ss[i + 1].requests[rid].pc.Looked?
    ensures ss[i].requests[rid].action == ss[n].requests[rid].action
    ensures FactOf(ss[i], rid.pod) == ss[n].requests[rid].pc.reply
  {
    OneStepBefore(w, ls, ss, n, rid);
    if ss[n - 1].requests[rid] == ss[n].requests[rid] {
      i := LookupInstant(w, ls, ss, n - 1, rid);
    } else {
      i := n - 1;
    }
  }

  lemma EarlierStillGrants(p: PodConfig, reply: Result<Response, CallError>, now: nat, earlier: nat, a: Action)
    requires earlier <= now && DecideStep(p, reply, now, a).Acting?
    ensures DecideStep(p, reply, earlier, a) == DecideStep(p, reply, now, a)
  {
    var reg := Lookup(p.id, reply).value;
    GrantsAreMonotone(reg, BindingOf(p), now, earlier, PurposeOf(a));
  }

  /** In this state Control's records carry the authority for the action, both
      deadlines are ahead, and the scope, if one is named, is the registration's
      and names the launch of the Pod's envelope. */
  ghost predicate GrantsAt(p: PodConfig, s: State, rid: Rid, a: Action, scope: Option<Scope>) {
    var reg := Lookup(p.id, FactOf(s, rid.pod));
    && reg.Ok?
    && HoldsAuthority(reg.value, BindingOf(p), PurposeOf(a)) && BeforeDeadlines(reg.value, s.clock)
    && ScopeOfBinding(reg.value.scope, p.id, BindingOf(p))
    && (scope.Some? ==> scope.value == reg.value.scope)
  }

  lemma DecisionGrantsAt(p: PodConfig, s: State, rid: Rid, a: Action, now: nat)
    requires s.clock <= now && DecideStep(p, FactOf(s, rid.pod), now, a).Acting?
    ensures GrantsAt(p, s, rid, a, ScopeIn(DecideStep(p, FactOf(s, rid.pod), now, a)))
  {
    EarlierStillGrants(p, FactOf(s, rid.pod), now, s.clock, a);
  }

  lemma FreshGrantHasItsInstant(w: World, ls: seq<Label>, ss: seq<State>, n: nat, rid: Rid) returns (i: nat)
    requires IsRun(w, ls, ss) && 0 < n < |ss| && rid in ss[n].requests && rid in ss[n - 1].requests
    requires GrantedPc(ss[n].requests[rid].pc) && !GrantedPc(ss[n - 1].requests[rid].pc)
    requires Carries(w, ss[n - 1], ss[n], rid)
    ensures i < n && rid in ss[i].requests && ss[i].requests[rid].pc.Waiting? && rid.pod < |w.pods|
    ensures rid in ss[i + 1].requests && ss[i + 1].requests[rid].pc.Looked?
    ensures GrantsAt(w.pods[rid.pod], ss[i], rid, ss[n].requests[rid].action, ScopeIn(ss[n].requests[rid].pc))
  {
    var q := ss[n - 1].requests[rid];
    i := LookupInstant(w, ls, ss, n - 1, rid);
    DecisionGrantsAt(w.pods[rid.pod], ss[i], rid, q.action, ss[n - 1].clock);
  }

  /** Linearization of authority: in every run, for every granted request there
      is an instant at which this very request was waiting for Control and, with
      Control's records and the clock as they were then, the decision is a
      grant of the scope it acts under. So every condition held and both
      deadlines were ahead, although the clock was read later. */
  lemma {:induction false} EveryGrantHasItsInstant(w: World, ls: seq<Label>, ss: seq<State>, n: nat, rid: Rid)
    returns (i: nat)
    requires IsRun(w, ls, ss) && n < |ss| && rid in ss[n].requests && GrantedPc(ss[n].requests[rid].pc)
    ensures i < n && rid in ss[i].requests && ss[i].requests[rid].pc.Waiting? && rid.pod < |w.pods|
    ensures rid in ss[i + 1].requests && ss[i + 1].requests[rid].pc.Looked?
    ensures GrantsAt(w.pods[rid.pod], ss[i], rid, ss[n].requests[rid].action, ScopeIn(ss[n].requests[rid].pc))
  {
    OneStepBefore(w, ls, ss, n, rid);
    if GrantedPc(ss[n - 1].requests[rid].pc) {
      i := EveryGrantHasItsInstant(w, ls, ss, n - 1, rid);
      GrantGoesOn(w, ss[n - 1], ss[n], rid);
    } else {
      i := FreshGrantHasItsInstant(w, ls, ss, n, rid);
    }
  }

  // ---- The launch the envelope names ----

  /** Control's records are there, and the instance is this Pod. */
  ghost predicate Present(p: PodConfig, resp: Response) {
    && resp.instance.Some? && resp.attempt.Some? && resp.operation.Some?
    && var inst := resp.instance.value;
       inst.podUid == p.id.podUid && inst.backend == p.id.backend && inst.launchKey == p.id.launchKey
  }

  /** Control's records are of this very Pod and of the launch its envelope names. */
  ghost predicate RecordsOf(p: PodConfig, resp: Response) {
    && Present(p, resp)
    && var inst, at, op, e := resp.instance.value, resp.attempt.value, resp.operation.value, p.envelope;
       && inst.attemptId == e.attemptId && inst.launchEpoch == e.launchEpoch
       && at.attemptId == e.attemptId && at.operationId == e.operationId && at.profileId == e.profileId
       && at.executionEpoch == e.executionEpoch
       && op.operationId == e.operationId && op.executionEpoch == e.executionEpoch
  }

  ghost predicate ResultRoute(a: Action) { a.PostResult? || (a.Forward? && a.purpose.ForResult?) }

  /** The attempt still executes, or its result is accepted and a result is asked
      for; and no fence holds, or it is a control intent and a result is asked for. */
  ghost predicate Permits(resp: Response, a: Action)
    requires resp.attempt.Some? && resp.operation.Some?
  {
    && (Executing(resp.attempt.value.state) || (ResultRoute(a) && resp.attempt.value.state.ResultAccepted?))
    && (!Fenced(resp.operation.value) || (ResultRoute(a) && Controlled(resp.operation.value)))
  }

  ghost predicate InTime(resp: Response, now: nat)
    requires resp.attempt.Some? && resp.operation.Some?
  {
    && resp.attempt.value.deadline.Some? && now < resp.attempt.value.deadline.value
    && (resp.operation.value.deadline.Some? ==> now < resp.operation.value.deadline.value)
  }

  /** The records authorize the action at this time. */
  ghost predicate Authorizes(p: PodConfig, resp: Response, now: nat, a: Action) {
    RecordsOf(p, resp) && resp.instance.value.current && Permits(resp, a) && InTime(resp, now)
  }

  /** The scope of these records, field by field. */
  ghost predicate ScopeOf(s: Scope, p: PodConfig, resp: Response)
    requires resp.instance.Some? && resp.attempt.Some? && resp.operation.Some?
  {
    && s.operationId == p.envelope.operationId && s.attemptId == p.envelope.attemptId
    && s.profileId == p.envelope.profileId && s.executionEpoch == p.envelope.executionEpoch
    && s.launchKey == p.id.launchKey && s.instanceId == resp.instance.value.instanceId && s.current
    && s.tenantId == resp.tenantId && s.recoveryEpoch == resp.recoveryEpoch && s.headroom == resp.headroom
    && s.projectId == resp.operation.value.projectId && s.actorId == resp.operation.value.actorId
    && resp.attempt.value.deadline == Some(s.deadline)
  }

  /** The decision, exactly: it acts if and only if Control answered records of the
      launch the envelope names that authorize the action now, and under the scope
      of these records. */
  lemma ActsExactly(p: PodConfig, reply: Result<Response, CallError>, now: nat, a: Action)
    ensures DecideStep(p, reply, now, a).Acting? <==> reply.Ok? && Authorizes(p, reply.value, now, a)
    ensures DecideStep(p, reply, now, a).Acting? ==> ScopeOf(DecideStep(p, reply, now, a).scope, p, reply.value)
  {
  }

  /** This Pod's records belong together. */
  ghost predicate Coherent(p: PodConfig, resp: Response) {
    && Present(p, resp)
    && resp.instance.value.attemptId == resp.attempt.value.attemptId
    && resp.operation.value.operationId == resp.attempt.value.operationId
  }

  /** The attempt is the one the envelope names. */
  ghost predicate OfTarget(p: PodConfig, at: Attempt) {
    at.attemptId == p.envelope.attemptId && at.operationId == p.envelope.operationId && at.profileId == p.envelope.profileId
  }

  /** So is the launch it was made for. */
  ghost predicate OfLaunch(p: PodConfig, inst: Instance, at: Attempt) {
    OfTarget(p, at) && at.executionEpoch == p.envelope.executionEpoch && inst.launchEpoch == p.envelope.launchEpoch
  }

  /** Why a decision does not act, as the client is told. What invites a retry is
      an unknown registration, an unavailable Control and records that are missing
      or do not belong together; a refusal of Control's is passed on with its code.
      Of coherent records another launch or a superseded instance is blamed before
      the state, the operation's epoch and the fence, and time last. */
  lemma DenialsSayWhy(p: PodConfig, reply: Result<Response, CallError>, now: nat, a: Action)
    requires !DecideStep(p, reply, now, a).Acting?
    ensures DecideStep(p, reply, now, a).Answered? && DecideStep(p, reply, now, a).answer.Denied?
    ensures var f := ScopeFailure(DecideStep(p, reply, now, a).answer.error);
      match reply
      case Err(NoStatus) => f == Failure(503, "DEPENDENCY_UNAVAILABLE", true)
      case Err(Status(code, message)) =>
        if code.NotFound? then f == Failure(503, "SCOPE_UNAVAILABLE", true)
        else if RefusalCode(code) then f == Failure(403, PublicCode(Refusal(reply.error)), false)
        else f == Failure(503, "DEPENDENCY_UNAVAILABLE", true)
      case Ok(resp) =>
        if Coherent(p, resp) then
          var inst, at, op := resp.instance.value, resp.attempt.value, resp.operation.value;
          if !OfLaunch(p, inst, at) || !inst.current then f == Failure(403, "NO_AUTHORITY", false)
          else if !Permits(resp, a) || op.executionEpoch != at.executionEpoch then f == Failure(403, "STALE_EXECUTION", false)
          else f == Failure(403, "DEADLINE_EXCEEDED", false)
        else if Present(p, resp) && !OfTarget(p, resp.attempt.value) then f == Failure(403, "NO_AUTHORITY", false)
        else f == Failure(503, "DEPENDENCY_UNAVAILABLE", true)
  {
  }

  /** Control's records at the instant of a grant, of the envelope itself. */
  lemma InstantOfRecords(p: PodConfig, s: State, rid: Rid, a: Action, scope: Option<Scope>)
    requires GrantsAt(p, s, rid, a, scope)
    ensures FactOf(s, rid.pod).Ok? && Authorizes(p, FactOf(s, rid.pod).value, s.clock, a)
    ensures scope.Some? ==> ScopeOf(scope.value, p, FactOf(s, rid.pod).value)
  {
  }

  /** The same over whole runs, in the envelope's own words: every granted request
      has an instant at which Control's records were of the launch its Pod's
      envelope names - attempt, operation, profile, launch key, execution epoch and
      launch epoch - and authorized its action, and it acts under their scope. */
  lemma EveryGrantNamesItsEnvelope(w: World, ls: seq<Label>, ss: seq<State>, n: nat, rid: Rid) returns (i: nat)
    requires ValidWorld(w) && IsRun(w, ls, ss)
    requires n < |ss| && rid in ss[n].requests && GrantedPc(ss[n].requests[rid].pc)
    ensures i < n && rid in ss[i].requests && ss[i].requests[rid].pc.Waiting? && rid.pod < |w.pods|
    ensures FactOf(ss[i], rid.pod).Ok?
    ensures var p, resp := w.pods[rid.pod], FactOf(ss[i], rid.pod).value;
      && Authorizes(p, resp, ss[i].clock, ss[n].requests[rid].action)
      && resp.instance.value.launchKey == p.envelope.launchKey
      && (ScopeIn(ss[n].requests[rid].pc).Some? ==> ScopeOf(ScopeIn(ss[n].requests[rid].pc).value, p, resp))
  {
    i := EveryGrantHasItsInstant(w, ls, ss, n, rid);
    InstantOfRecords(w.pods[rid.pod], ss[i], rid, ss[n].requests[rid].action, ScopeIn(ss[n].requests[rid].pc));
    assert ValidPod(w.pods[rid.pod]);
  }

  /** And nothing else is asked for: a request whose answer of Control authorizes
      its action when the clock is read acts. */
  lemma AuthorizedRequestsAct(w: World, ls: seq<Label>, ss: seq<State>, n: nat, rid: Rid)
    requires IsRun(w, ls, ss) && n < |ls| && rid in ss[n].requests && ss[n].requests[rid].pc.Looked?
    requires ls[n].Step? && ls[n].rid == rid && Enabled(w, ss[n], rid)
    ensures rid in ss[n + 1].requests
    ensures var reply := ss[n].requests[rid].pc.reply;
      ss[n + 1].requests[rid].pc.Acting? <==>
        reply.Ok? && Authorizes(w.pods[rid.pod], reply.value, ss[n].clock, ss[n].requests[rid].action)
  {
    StepAt(w, ls, ss, n);
    TwoKindsOfLabels(w, ss[n], ls[n], ss[n + 1]);
    ChangeFollows(w, ss[n], rid, ls[n].choice);
    ActsExactly(w.pods[rid.pod], ss[n].requests[rid].pc.reply, ss[n].clock, ss[n].requests[rid].action);
  }

  /** The step with which a request of the Pod is granted its scope. */
  ghost predicate GrantedAt(ss: seq<State>, i: nat, rid: Rid) {
    && i + 1 < |ss| && rid in ss[i].requests && rid in ss[i + 1].requests
    && ss[i].requests[rid].pc.Looked? && ss[i + 1].requests[rid].pc.Acting?
  }

  lemma AnnouncedByStep(w: World, ls: seq<Label>, ss: seq<State>, n: nat, pod: nat)
    requires IsRun(w, ls, ss) && n < |ls| && pod in ss[n].pods
    ensures pod in ss[n + 1].pods && (ss[n].pods[pod].announced ==> ss[n + 1].pods[pod].announced)
    ensures ss[n + 1].pods[pod].announced && !ss[n].pods[pod].announced ==>
              ls[n].Step? && ls[n].rid.pod == pod && GrantedAt(ss, n, ls[n].rid)
    ensures forall rid: Rid :: rid.pod == pod && GrantedAt(ss, n, rid) ==> ss[n + 1].pods[pod].announced
  {
    StepAt(w, ls, ss, n);
    TwoKindsOfLabels(w, ss[n], ls[n], ss[n + 1]);
  }

  /** A Pod's identity counts as announced exactly once one of its requests, on
      whichever socket, has been granted its scope, and then for good. */
  lemma {:induction false} AnnouncedExactlyOnceGranted(w: World, ls: seq<Label>, ss: seq<State>, n: nat, pod: nat)
    requires IsRun(w, ls, ss) && n < |ss| && pod < |w.pods|
    ensures pod in ss[n].pods
    ensures ss[n].pods[pod].announced <==> exists i, rid: Rid :: 0 <= i < n && rid.pod == pod && GrantedAt(ss, i, rid)
  {
    if n > 0 {
      AnnouncedExactlyOnceGranted(w, ls, ss, n - 1, pod);
      AnnouncedByStep(w, ls, ss, n - 1, pod);
    }
  }

  /** Once the result is accepted, only the routes of results are still granted,
      and they are: a repeat reaches Control, everything else is stale. */
  lemma OnlyResultsOutliveAcceptance(p: PodConfig, reply: Result<Response, CallError>, now: nat, a: Action)
    requires Lookup(p.id, reply).Ok? && NamesLaunch(Lookup(p.id, reply).value, BindingOf(p))
    requires var r := Lookup(p.id, reply).value;
      && r.instance.value.current && r.operation.value.executionEpoch == BindingOf(p).executionEpoch
      && r.attempt.value.state.ResultAccepted? && !Fenced(r.operation.value) && BeforeDeadlines(r, now)
    ensures DecideStep(p, reply, now, a) ==
            if ResultRoute(a) then Acting(Lookup(p.id, reply).value.scope)
            else Answered(Denied(Stale))
  {
  }

  /** The order matters: with the clock read before Control is asked, a decision
      can grant although a deadline had passed when Control answered. */
  lemma ClockFirstWouldGrantTooLate(p: PodConfig, a: Action)
    returns (reply: Result<Response, CallError>, sampled: nat, answered: nat)
    ensures sampled <= answered
    ensures Resolve(p.id, BindingOf(p), reply, sampled, PurposeOf(a)).Ok?
    ensures Resolve(p.id, BindingOf(p), reply, answered, PurposeOf(a)).Err?
  {
    var b := BindingOf(p);
    var inst := Instance("inst_1", b.attemptId, p.id.launchKey, p.id.backend, p.id.podUid, true, b.launchEpoch);
    var at := Attempt(b.attemptId, b.operationId, b.profileId, b.executionEpoch, Running, Some(1));
    var op := Operation(b.operationId, "proj", "user", Active, IntentNone, b.executionEpoch, None);
    reply := Ok(Authority.Response(Some(inst), Some(at), Some(op), "tenant", "1", None));
    sampled, answered := 0, 1;
  }
}
