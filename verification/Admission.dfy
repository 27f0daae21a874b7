/** Admission before effect: no route acts and Control is not asked before the
    connection's peer, the nonce and the token have been checked. */
module Admission {
  import opened Outcomes
  import opened Authority
  import opened Peer
  import opened Protocol
  import Envelope
  import Inputs
  import Control
  import Refusals

  /** The request came over a connection of the socket's UID with a valid nonce
      and the token of the socket's role under the Pod's secret. */
  ghost predicate Admitted(w: World, rid: Rid, r: Request) {
    rid.pod < |w.pods|
    && var p := w.pods[rid.pod];
       && ValidNonce(r.head.nonce)
       && match rid.socket
          case Trusted => r.peer == Some(p.trustedUid) && r.head.token == Token(w.hmac, p.secret, RoleTrusted)
          case Candidate => r.peer == Some(p.candidateUid) && r.head.token == Token(w.hmac, p.secret, RoleCandidate)
  }

  ghost predicate UnderWay(pc: Pc) { pc.Waiting? || pc.Looked? || pc.Acting? || pc.Putting? || pc.Finalizing? }

  ghost predicate BeyondGuard(pc: Pc) { UnderWay(pc) || (pc.Answered? && !pc.answer.Turned?) }

  /** The routes a socket has. */
  ghost predicate HasRoute(socket: Socket, a: Action) {
    !a.UnknownRoute? && (socket.Candidate? ==> a.ReadInput? || a.ModelRelay?)
  }

  /** What the guard established, kept by a request for the rest of its life. */
  ghost predicate RequestInv(w: World, rid: Rid, r: Request) {
    && rid.pod < |w.pods|
    && (r.pc.Open? ==> r.peer == Some(UidOf(w.pods[rid.pod], rid.socket)))
    && (BeyondGuard(r.pc) ==> Admitted(w, rid, r))
    && (BeyondGuard(r.pc) <==> r.proof.Some?)
    && (r.proof.Some? ==> r.proof == Proof(w.hmac, TokenOf(w, w.pods[rid.pod], rid.socket), r.head.nonce))
    && (UnderWay(r.pc) ==> HasRoute(rid.socket, r.action))
    && (r.pc.Answered? && r.pc.answer.Turned? ==> !r.pc.answer.refusal.InternalError?)
  }

  /** What a route takes: names that are input names, bodies within the Pod's bounds,
      a manifest that is not empty, a model request only with a proxy, and a load
      only of an input with a handle. */
  ghost predicate Takes(p: PodConfig, v: Inputs.View, a: Action) {
    && (a.ReadInput? || a.LoadInput? ==> Envelope.InputName(a.name))
    && (a.LoadInput? ==> a.name in v.handles)
    && (a.PutInput? || a.ModelRelay? ==> |a.body| <= p.maxInput)
    && (a.ModelRelay? ==> p.relay)
    && (a.Upload? ==> |a.body| <= p.maxTransfer)
    && (a.PostResult? ==> 1 <= |a.manifest| <= p.maxManifest)
  }

  /** A connection is taken exactly when its peer has the UID of the socket; one that
      is not is shut for good. */
  lemma TakenExactly(w: World, rid: Rid, r: Request, clock: nat, fact: Result<Authority.Response, Refusals.CallError>,
                     v: Inputs.View, l: Control.Ledger, c: Choice)
    requires rid.pod < |w.pods| && (r.pc.Offered? || r.pc.Shut?)
    ensures var p := w.pods[rid.pod];
      var o := StepOf(w, p, rid.socket, r, clock, fact, v, l, c);
      && (o.pc.Open? || o.pc.Shut?) && o.inputs == v && o.ledger == l
      && (o.pc.Open? <==>
            r.pc.Offered? && r.peer == Some(match rid.socket case Trusted => p.trustedUid case Candidate => p.candidateUid))
  {
  }

  /** Control is asked exactly for the requests that are admitted and take a route
      of their socket as the route takes them; of admitted requests, those without
      a route are forbidden it whatever else is wrong with them. */
  lemma AsksExactly(w: World, rid: Rid, r: Request, v: Inputs.View)
    requires rid.pod < |w.pods|
    ensures var p := w.pods[rid.pod];
      var pc := GuardStep(w, p, v, rid.socket, r).0;
      && (pc.Waiting? <==> Admitted(w, rid, r) && HasRoute(rid.socket, r.action) && Takes(p, v, r.action))
      && (!pc.Waiting? ==> pc.Answered?)
      && (pc.Answered? && pc.answer.Turned? <==> !Admitted(w, rid, r))
      && (pc == Answered(Declined(RouteForbidden)) <==> Admitted(w, rid, r) && !HasRoute(rid.socket, r.action))
      && FailureOf(r.action, Declined(RouteForbidden)) == Some(Refusals.Failure(403, "ROUTE_FORBIDDEN", false))
  {
    var p := w.pods[rid.pod];
    GuardPassesExactly(w.hmac, UidOf(p, rid.socket), p.secret, RoleOf(rid.socket), r.peer, r.head);
  }

  /** What an admitted request is told that its route does not take. */
  lemma NotTakenSaysWhy(w: World, rid: Rid, r: Request, v: Inputs.View)
    requires rid.pod < |w.pods| && Admitted(w, rid, r) && HasRoute(rid.socket, r.action)
    requires !Takes(w.pods[rid.pod], v, r.action)
    ensures var p := w.pods[rid.pod];
      var pc := GuardStep(w, p, v, rid.socket, r).0;
      && pc.Answered?
      && FailureOf(r.action, pc.answer) == Some(
           match r.action
           case ReadInput(_) => Refusals.Failure(404, "NOT_FOUND", false)
           case LoadInput(_) => Refusals.Failure(404, "NOT_FOUND", false)
           case PutInput(_, _) => Refusals.Failure(413, "INPUT_TOO_LARGE", false)
           case Upload(_, _, _) => Refusals.Failure(413, "TRANSFER_TOO_LARGE", false)
           case PostResult(_, _, manifest) =>
             if manifest == [] then Refusals.Failure(400, "INVALID_ARGUMENT", false)
             else Refusals.Failure(413, "RESULT_TOO_LARGE", false)
           case ModelRelay(body) =>
             if |body| > p.maxInput then Refusals.Failure(413, "REQUEST_TOO_LARGE", false)
             else Refusals.Failure(503, "DEPENDENCY_UNAVAILABLE", false)
           case _ => Refusals.Failure(403, "ROUTE_FORBIDDEN", false))
  {
    var p := w.pods[rid.pod];
    GuardPassesExactly(w.hmac, UidOf(p, rid.socket), p.secret, RoleOf(rid.socket), r.peer, r.head);
  }

  lemma StepAdmits(w: World, rid: Rid, r: Request, clock: nat, fact: Result<Authority.Response, Refusals.CallError>,
                   v: Inputs.View, l: Control.Ledger, c: Choice)
    requires RequestInv(w, rid, r)
    ensures var p := w.pods[rid.pod];
      var o := StepOf(w, p, rid.socket, r, clock, fact, v, l, c);
      && RequestInv(w, rid, r.(pc := o.pc, proof := ProofAfter(w, p, v, rid.socket, r)))
      && (o.ledger != l || o.inputs != v ==> UnderWay(r.pc))
  {
    var p := w.pods[rid.pod];
    GuardPassesExactly(w.hmac, UidOf(p, rid.socket), p.secret, RoleOf(rid.socket), r.peer, r.head);
  }

  ghost predicate AllRequestsInv(w: World, s: State) {
    forall rid :: rid in s.requests ==> RequestInv(w, rid, s.requests[rid])
  }

  lemma LabelAdmits(w: World, s: State, l: Label, t: State)
    requires Goes(w, s, l, t) && AllRequestsInv(w, s)
    ensures AllRequestsInv(w, t)
  {
    if l.Step? && l.rid in s.requests && l.rid.pod in s.pods {
      StepAdmits(w, l.rid, s.requests[l.rid], s.clock, FactOf(s, l.rid.pod), s.pods[l.rid.pod].inputs, s.ledger, l.choice);
    }
  }

  lemma {:induction false} RequestsAreAdmitted(w: World, ls: seq<Label>, ss: seq<State>, n: nat)
    requires IsRun(w, ls, ss) && n < |ss|
    ensures AllRequestsInv(w, ss[n])
  {
    if n > 0 {
      RequestsAreAdmitted(w, ls, ss, n - 1);
      StepAt(w, ls, ss, n - 1);
      LabelAdmits(w, ss[n - 1], ls[n - 1], ss[n]);
    }
  }

  /** Something happened beyond the sidecar's own request table: Control's ledger
      or a Pod's inputs changed, or Control was asked for the registration. */
  ghost predicate Effective(s: State, t: State) {
    t.ledger != s.ledger || t.pods != s.pods
    || exists rid :: rid in s.requests && rid in t.requests && s.requests[rid].pc.Waiting? && t.requests[rid].pc.Looked?
  }

  lemma EffectsAreSteps(w: World, s: State, l: Label, t: State)
    requires Goes(w, s, l, t) && AllRequestsInv(w, s) && Effective(s, t)
    ensures l.Step? && l.rid in s.requests && UnderWay(s.requests[l.rid].pc)
  {
    if l.Step? && l.rid in s.requests && l.rid.pod < |w.pods| && l.rid.pod in s.pods {
      var r, pod := s.requests[l.rid], s.pods[l.rid.pod];
      StepAdmits(w, l.rid, r, s.clock, FactOf(s, l.rid.pod), pod.inputs, s.ledger, l.choice);
      assert s.pods[l.rid.pod := PodState(pod.inputs, pod.announced)] == s.pods;
    }
  }

  /** In every run, whatever has an effect is a step of a request that was
      accepted for the socket's UID, passed the guard and takes a route of its
      socket. */
  lemma AdmissionBeforeEffect(w: World, ls: seq<Label>, ss: seq<State>, n: nat)
    requires IsRun(w, ls, ss) && n < |ls| && Effective(ss[n], ss[n + 1])
    ensures ls[n].Step? && ls[n].rid in ss[n].requests
    ensures Admitted(w, ls[n].rid, ss[n].requests[ls[n].rid])
    ensures HasRoute(ls[n].rid.socket, ss[n].requests[ls[n].rid].action)
  {
    RequestsAreAdmitted(w, ls, ss, n);
    StepAt(w, ls, ss, n);
    EffectsAreSteps(w, ss[n], ls[n], ss[n + 1]);
    assert RequestInv(w, ls[n].rid, ss[n].requests[ls[n].rid]);
  }

  /** Every answer past the guard carries the proof of its own nonce and no
      other answer carries any; the guard never answers its internal error. */
  lemma ProofExactlyPastTheGuard(w: World, ls: seq<Label>, ss: seq<State>, n: nat, rid: Rid)
    requires IsRun(w, ls, ss) && n < |ss| && rid in ss[n].requests && ss[n].requests[rid].pc.Answered?
    ensures var r := ss[n].requests[rid];
      && (r.proof.Some? <==> !r.pc.answer.Turned?)
      && (r.proof.Some? ==> Admitted(w, rid, r) && r.proof == Proof(w.hmac, r.head.token, r.head.nonce))
      && (r.pc.answer.Turned? ==> !r.pc.answer.refusal.InternalError?)
  {
    RequestsAreAdmitted(w, ls, ss, n);
    assert RequestInv(w, rid, ss[n].requests[rid]);
  }
}
