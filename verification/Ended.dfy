/** Ended scopes stay ended: what later lookups can find once Control's records
    have closed an attempt, moved an epoch or superseded an instance. */
module Ended {
  import opened Outcomes
  import opened Authority
  import opened Protocol
  import opened Linearization
  import Control
  import Decimal
  import Inputs

  /** Epochs are canonical numerals and compared as numbers. */
  ghost predicate NotBelow(later: string, earlier: string) {
    Decimal.Canonical(earlier) && Decimal.Canonical(later) && Decimal.Value(earlier) <= Decimal.Value(later)
  }

  ghost predicate Above(epoch: string, bound: string) {
    Decimal.Canonical(epoch) && Decimal.Canonical(bound) && Decimal.Value(bound) < Decimal.Value(epoch)
  }

  /** How Control's record of one Pod moves: its epochs only grow, a superseded
      instance never becomes current again, an attempt whose result is accepted
      can only be closed, a closed one stays closed, and a terminal operation
      terminal. */
  ghost predicate Advances(a: Response, b: Response) {
    && (a.instance.Some? && b.instance.Some? ==>
          && NotBelow(b.instance.value.launchEpoch, a.instance.value.launchEpoch)
          && (b.instance.value.current ==> a.instance.value.current))
    && (a.attempt.Some? && b.attempt.Some? ==>
          && NotBelow(b.attempt.value.executionEpoch, a.attempt.value.executionEpoch)
          && (b.attempt.value.attemptId == a.attempt.value.attemptId ==>
                && (a.attempt.value.state.Closed? ==> b.attempt.value.state.Closed?)
                && (a.attempt.value.state.ResultAccepted? ==>
                      b.attempt.value.state.ResultAccepted? || b.attempt.value.state.Closed?)))
    && (a.operation.Some? && b.operation.Some? ==>
          && NotBelow(b.operation.value.executionEpoch, a.operation.value.executionEpoch)
          && (b.operation.value.operationId == a.operation.value.operationId && Terminal(a.operation.value) ==>
                Terminal(b.operation.value)))
  }

  /** Control's answers about every Pod only advance along the run, with any
      failures to answer in between. */
  ghost predicate OnlyAdvances(ss: seq<State>) {
    forall i, j, pod :: 0 <= i <= j < |ss| && FactOf(ss[i], pod).Ok? && FactOf(ss[j], pod).Ok?
      ==> Advances(FactOf(ss[i], pod).value, FactOf(ss[j], pod).value)
  }

  /** The records end the scope of the launch: the instance is not the current
      one, the attempt is closed, or an epoch of the launch, the attempt or the
      operation has moved past the envelope's. */
  ghost predicate Ends(r: Response, b: Binding) {
    || (r.instance.Some? && (!r.instance.value.current || Above(r.instance.value.launchEpoch, b.launchEpoch)))
    || (r.attempt.Some? && r.attempt.value.attemptId == b.attemptId && r.attempt.value.state.Closed?)
    || (r.attempt.Some? && Above(r.attempt.value.executionEpoch, b.executionEpoch))
    || (r.operation.Some? && Above(r.operation.value.executionEpoch, b.executionEpoch))
  }

  /** Records that end a scope carry no authority, and no later ones do. */
  lemma EndedRecordsGrantNothing(id: Identity, b: Binding, a: Response, later: Response, purpose: Purpose)
    requires Advances(a, later) && Ends(a, b) && Lookup(id, Ok(later)).Ok?
    ensures !HoldsAuthority(Lookup(id, Ok(later)).value, b, purpose)
  {
  }

  /** How far a request has come; no step goes back. */
  function Phase(pc: Pc): nat {
    match pc
    case Offered => 0
    case Open => 1
    case Waiting => 2
    case Looked(_) => 3
    case Acting(_) => 4
    case Putting(_, _, _) => 5
    case Finalizing(_, _, _) => 6
    case Answered(_) => 7
    case Shut => 8
  }

  lemma ActsGoForward(w: World, p: PodConfig, r: Request, v: Inputs.View, l: Control.Ledger, c: Choice)
    requires r.pc.Acting?
    ensures Phase(Acting(r.pc.scope)) < Phase(ActStep(w, p, v, l, r.pc.scope, r.action, c).pc)
  {
  }

  lemma ChangesGoForward(w: World, s: State, rid: Rid, c: Choice)
    requires Enabled(w, s, rid)
    ensures Phase(s.requests[rid].pc) <= Phase(ChangeOf(w, s, rid, c).request.pc)
  {
    ChangeFollows(w, s, rid, c);
    if s.requests[rid].pc.Acting? {
      ActsGoForward(w, w.pods[rid.pod], s.requests[rid], s.pods[rid.pod].inputs, s.ledger, c);
    }
  }

  lemma StepsGoForward(w: World, s: State, l: Label, t: State, rid: Rid)
    requires Goes(w, s, l, t) && rid in s.requests
    ensures rid in t.requests && Phase(s.requests[rid].pc) <= Phase(t.requests[rid].pc)
  {
    TwoKindsOfLabels(w, s, l, t);
    if l.Step? && Enabled(w, s, l.rid) {
      ChangesGoForward(w, s, l.rid, l.choice);
    }
  }

  lemma {:induction false} PhasesGrow(w: World, ls: seq<Label>, ss: seq<State>, i: nat, j: nat, rid: Rid)
    requires IsRun(w, ls, ss) && i <= j < |ss| && rid in ss[i].requests
    ensures rid in ss[j].requests && Phase(ss[i].requests[rid].pc) <= Phase(ss[j].requests[rid].pc)
    decreases j - i
  {
    if i < j {
      PhasesGrow(w, ls, ss, i, j - 1, rid);
      StepAt(w, ls, ss, j - 1);
      StepsGoForward(w, ss[j - 1], ls[j - 1], ss[j], rid);
    }
  }

  /** In every run of a Control that only advances, once its records end a Pod's
      scope, every request of that Pod whose lookup comes later is refused: of
      either purpose, on either socket, whatever was staged, granted or
      announced before. */
  lemma EndedScopesStayEnded(w: World, ls: seq<Label>, ss: seq<State>, i: nat, n: nat, rid: Rid)
    requires IsRun(w, ls, ss) && OnlyAdvances(ss) && i <= n < |ss| && rid.pod < |w.pods|
    requires FactOf(ss[i], rid.pod).Ok? && Ends(FactOf(ss[i], rid.pod).value, BindingOf(w.pods[rid.pod]))
    requires rid in ss[i].requests ==> Phase(ss[i].requests[rid].pc) <= Phase(Waiting)
    requires rid in ss[n].requests
    ensures !GrantedPc(ss[n].requests[rid].pc)
  {
    if GrantedPc(ss[n].requests[rid].pc) {
      var k := EveryGrantHasItsInstant(w, ls, ss, n, rid);
      if k < i {
        PhasesGrow(w, ls, ss, k + 1, i, rid);
      } else {
        var p := w.pods[rid.pod];
        assert Advances(FactOf(ss[i], rid.pod).value, FactOf(ss[k], rid.pod).value);
        EndedRecordsGrantNothing(p.id, BindingOf(p), FactOf(ss[i], rid.pod).value, FactOf(ss[k], rid.pod).value,
                                 PurposeOf(ss[n].requests[rid].action));
      }
    }
  }

  /** A terminal operation ends every new authorization for good as well. It does
      not end results: Authority.ResultUnderFence says when one is still taken. */
  lemma TerminalEndsNewAuthorization(w: World, ls: seq<Label>, ss: seq<State>, i: nat, n: nat, rid: Rid)
    requires IsRun(w, ls, ss) && OnlyAdvances(ss) && i <= n < |ss| && rid.pod < |w.pods|
    requires FactOf(ss[i], rid.pod).Ok? && FactOf(ss[i], rid.pod).value.operation.Some?
    requires var op := FactOf(ss[i], rid.pod).value.operation.value;
      Terminal(op) && op.operationId == BindingOf(w.pods[rid.pod]).operationId
    requires rid in ss[i].requests ==> Phase(ss[i].requests[rid].pc) <= Phase(Waiting)
    requires rid in ss[n].requests && PurposeOf(ss[n].requests[rid].action).ForNewAuthorization?
    ensures !GrantedPc(ss[n].requests[rid].pc)
  {
    if GrantedPc(ss[n].requests[rid].pc) {
      var k := EveryGrantHasItsInstant(w, ls, ss, n, rid);
      if k < i {
        PhasesGrow(w, ls, ss, k + 1, i, rid);
      }
    }
  }

  /** So does an accepted result: once Control's records have the attempt's result,
      no later lookup grants new authorization. Results are granted still, as
      Linearization.OnlyResultsOutliveAcceptance says. */
  lemma AcceptanceEndsNewAuthorization(w: World, ls: seq<Label>, ss: seq<State>, i: nat, n: nat, rid: Rid)
    requires IsRun(w, ls, ss) && OnlyAdvances(ss) && i <= n < |ss| && rid.pod < |w.pods|
    requires FactOf(ss[i], rid.pod).Ok? && FactOf(ss[i], rid.pod).value.attempt.Some?
    requires var at := FactOf(ss[i], rid.pod).value.attempt.value;
      at.state.ResultAccepted? && at.attemptId == BindingOf(w.pods[rid.pod]).attemptId
    requires rid in ss[i].requests ==> Phase(ss[i].requests[rid].pc) <= Phase(Waiting)
    requires rid in ss[n].requests && PurposeOf(ss[n].requests[rid].action).ForNewAuthorization?
    ensures !GrantedPc(ss[n].requests[rid].pc)
  {
    if GrantedPc(ss[n].requests[rid].pc) {
      var k := EveryGrantHasItsInstant(w, ls, ss, n, rid);
      if k < i {
        PhasesGrow(w, ls, ss, k + 1, i, rid);
      }
    }
  }
}
