/** What a request can have done, over whole runs: nothing without an authority of
    its own, nothing at all if it was refused before the action, and possibly
    something if the action failed. */
module Effects {
  import opened Outcomes
  import opened Bytes
  import opened Protocol
  import opened Linearization
  import Actions
  import Authority
  import Commands
  import Control
  import Inputs
  import Refusals

  /** Control's ledger or what a Pod holds is not what it was. */
  ghost predicate Changes(s: State, t: State) {
    t.ledger != s.ledger || t.pods.Keys != s.pods.Keys || exists i :: i in s.pods && t.pods[i].inputs != s.pods[i].inputs
  }

  lemma StepNeedsAGrant(w: World, p: PodConfig, socket: Socket, r: Request, clock: nat,
                        fact: Result<Authority.Response, Refusals.CallError>, v: Inputs.View, l: Control.Ledger, c: Choice)
    ensures var o := StepOf(w, p, socket, r, clock, fact, v, l, c); o.ledger != l || o.inputs != v ==> GrantedPc(r.pc)
  {
  }

  /** Only a step of a request changes anything. */
  lemma ChangesAreSteps(w: World, s: State, l: Label, t: State)
    requires Goes(w, s, l, t) && Changes(s, t)
    ensures l.Step? && Enabled(w, s, l.rid)
    ensures t.ledger != s.ledger || t.pods[l.rid.pod].inputs != s.pods[l.rid.pod].inputs
  {
    TwoKindsOfLabels(w, s, l, t);
    if l.Step? && Enabled(w, s, l.rid) {
      assert t.pods.Keys == s.pods.Keys;
    }
  }

  /** Authority before effect: in every run, whatever changes Control's ledger or a
      Pod's inputs is a step of a request that has its instant, earlier in the
      run, at which Control's records and both deadlines granted it. */
  lemma EveryEffectHasItsAuthority(w: World, ls: seq<Label>, ss: seq<State>, n: nat) returns (i: nat)
    requires IsRun(w, ls, ss) && n < |ls| && Changes(ss[n], ss[n + 1])
    ensures ls[n].Step? && ls[n].rid in ss[n].requests && ls[n].rid.pod < |w.pods|
    ensures i < n && ls[n].rid in ss[i].requests && ss[i].requests[ls[n].rid].pc.Waiting?
    ensures var r := ss[n].requests[ls[n].rid];
      GrantsAt(w.pods[ls[n].rid.pod], ss[i], ls[n].rid, r.action, ScopeIn(r.pc))
  {
    StepAt(w, ls, ss, n);
    ChangesAreSteps(w, ss[n], ls[n], ss[n + 1]);
    var s, rid, c := ss[n], ls[n].rid, ls[n].choice;
    TwoKindsOfLabels(w, s, ls[n], ss[n + 1]);
    StepNeedsAGrant(w, w.pods[rid.pod], rid.socket, s.requests[rid], s.clock, FactOf(s, rid.pod), s.pods[rid.pod].inputs,
                    s.ledger, c);
    i := EveryGrantHasItsInstant(w, ls, ss, n, rid);
  }

  // ---- Refusals leave nothing behind ----

  /** Turned away, declined, or without a usable scope. */
  ghost predicate Refused(a: Answer) { a.Turned? || a.Declined? || a.Denied? }

  /** Where a request is once a step of it may have changed something. */
  ghost predicate Acted(pc: Pc) { pc.Putting? || pc.Finalizing? || (pc.Answered? && !Refused(pc.answer)) }

  lemma StepMarksActed(w: World, p: PodConfig, socket: Socket, r: Request, clock: nat,
                       fact: Result<Authority.Response, Refusals.CallError>, v: Inputs.View, l: Control.Ledger, c: Choice)
    ensures var o := StepOf(w, p, socket, r, clock, fact, v, l, c);
      (o.ledger != l || o.inputs != v || Acted(r.pc)) ==> Acted(o.pc)
  {
    if r.pc.Acting? {
      ActMarksActed(w, p, v, l, r.pc.scope, r.action, c);
    } else if r.pc.Finalizing? {
      FinalizeMarksActed(w, v, l, r.pc.scope, r.pc.out, r.pc.version, c);
    }
  }

  lemma ActMarksActed(w: World, p: PodConfig, v: Inputs.View, l: Control.Ledger, s: Authority.Scope, a: Action, c: Choice)
    ensures var o := ActStep(w, p, v, l, s, a, c); o.ledger != l || o.inputs != v ==> Acted(o.pc)
  {
    if a.Upload? {
      BeginMarksActed(w, v, l, s, a.class_, a.mediaType, a.body, c);
    }
  }

  lemma BeginMarksActed(w: World, v: Inputs.View, l: Control.Ledger, s: Authority.Scope, class_: string,
                        mediaType: string, body: seq<byte>, c: Choice)
    ensures var o := BeginStep(w, v, l, s, class_, mediaType, body, c); Acted(o.pc) && o.inputs == v
  {
  }

  lemma FinalizeMarksActed(w: World, v: Inputs.View, l: Control.Ledger, s: Authority.Scope, out: Actions.TransferReport,
                           version: string, c: Choice)
    ensures var o := FinalizeStep(w, v, l, s, out, version, c); Acted(o.pc) && o.inputs == v
  {
  }

  lemma LabelMarksActed(w: World, s: State, l: Label, t: State, rid: Rid)
    requires Goes(w, s, l, t) && rid in s.requests
    ensures rid in t.requests
    ensures Acted(s.requests[rid].pc) || (l.Step? && l.rid == rid && Changes(s, t)) ==> Acted(t.requests[rid].pc)
  {
    TwoKindsOfLabels(w, s, l, t);
    if l.Step? && l.rid == rid && Enabled(w, s, rid) {
      StepMarksActed(w, w.pods[rid.pod], rid.socket, s.requests[rid], s.clock, FactOf(s, rid.pod), s.pods[rid.pod].inputs,
                     s.ledger, l.choice);
      if Changes(s, t) {
        ChangesAreSteps(w, s, l, t);
      }
    } else if l.Step? && l.rid == rid && Changes(s, t) {
      ChangesAreSteps(w, s, l, t);
    }
  }

  lemma {:induction false} ActedStays(w: World, ls: seq<Label>, ss: seq<State>, i: nat, j: nat, rid: Rid)
    requires IsRun(w, ls, ss) && i <= j < |ss| && rid in ss[i].requests && Acted(ss[i].requests[rid].pc)
    ensures rid in ss[j].requests && Acted(ss[j].requests[rid].pc)
    decreases j - i
  {
    if i < j {
      ActedStays(w, ls, ss, i, j - 1, rid);
      StepAt(w, ls, ss, j - 1);
      LabelMarksActed(w, ss[j - 1], ls[j - 1], ss[j], rid);
    }
  }

  /** A request that is turned away, declined or denied its scope has changed
      nothing in any of its steps: not Control's ledger and not what a Pod holds. */
  lemma RefusedRequestsLeaveNothing(w: World, ls: seq<Label>, ss: seq<State>, n: nat, rid: Rid, k: nat)
    requires IsRun(w, ls, ss) && n < |ss| && k < n
    requires rid in ss[n].requests && ss[n].requests[rid].pc.Answered? && Refused(ss[n].requests[rid].pc.answer)
    requires ls[k].Step? && ls[k].rid == rid
    ensures !Changes(ss[k], ss[k + 1])
  {
    if Changes(ss[k], ss[k + 1]) {
      StepAt(w, ls, ss, k);
      ChangesAreSteps(w, ss[k], ls[k], ss[k + 1]);
      LabelMarksActed(w, ss[k], ls[k], ss[k + 1], rid);
      ActedStays(w, ls, ss, k + 1, n, rid);
    }
  }

  /** A client told to retry loses nothing by it: whatever is answered with a
      Retry-After has changed nothing in any of its steps. */
  lemma RetriesFollowNoEffect(w: World, ls: seq<Label>, ss: seq<State>, n: nat, rid: Rid, k: nat)
    requires IsRun(w, ls, ss) && n < |ss| && k < n
    requires rid in ss[n].requests && ss[n].requests[rid].pc.Answered?
    requires var r := ss[n].requests[rid];
      FailureOf(r.action, r.pc.answer).Some? && FailureOf(r.action, r.pc.answer).value.retryAfter
    requires ls[k].Step? && ls[k].rid == rid
    ensures !Changes(ss[k], ss[k + 1])
  {
    RetriesAreDenials(ss[n].requests[rid].action, ss[n].requests[rid].pc.answer);
    RefusedRequestsLeaveNothing(w, ls, ss, n, rid, k);
  }

  lemma RetriesAreDenials(a: Action, ans: Answer)
    requires FailureOf(a, ans).Some? && FailureOf(a, ans).value.retryAfter
    ensures ans.Denied? && (ans.error.Unregistered? || ans.error.DependencyUnavailable?)
  {
  }

  /** A failed action is another matter: a submission whose reply is lost is
      answered as unavailable, and Control has recorded the stage. */
  lemma LostReplyIsAFailureThatActed(w: World, v: Inputs.View, l: Control.Ledger, s: Authority.Scope, verdict: string,
                                     failureCode: string, manifest: seq<byte>, c: Choice)
    requires Commands.KnownVerdict(verdict) && c.fate == Control.Carry(true) && s.attemptId !in l.stages
    ensures var o := AcceptStep(w, v, l, s, verdict, failureCode, manifest, c);
      && o.pc == Answered(ActionError(Refusals.DependencyUnavailable))
      && s.attemptId in o.ledger.stages
      && o.ledger.stages[s.attemptId] == Control.StageRow(c.stageId, w.scheme.digest(manifest), verdict, Actions.Given(failureCode))
  {
    var request := Actions.AcceptOf(w.scheme, s, verdict, failureCode, manifest);
    assert request.Ok? && request.value.attemptId == s.attemptId;
  }
}
