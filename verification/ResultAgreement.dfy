/** One result per attempt, over whole runs: any number of Pods' sidecars,
    duplicate submissions, refusals and lost replies. */
module ResultAgreement {
  import opened Outcomes
  import opened Commands
  import opened Protocol
  import opened Linearization
  import Actions
  import Authority
  import Control
  import Inputs
  import Refusals

  ghost predicate Succeeded(pc: Pc) { pc.Answered? && pc.answer.AcceptedAs? }

  /** A successful answer tells of the stage Control recorded for the attempt,
      under the digest of the manifest submitted in this very request; the first
      one's verdict and failure code are those on record. */
  ghost predicate Backed(w: World, l: Control.Ledger, r: Request) {
    Succeeded(r.pc) ==>
      var attempt := r.pc.answer.scope.attemptId;
      && r.action.PostResult?
      && attempt in l.stages
      && l.stages[attempt].stageId == r.pc.answer.stage.stageId
      && l.stages[attempt].digest == r.pc.answer.stage.resultDigest
      && (!r.pc.answer.stage.existing ==>
            l.stages[attempt].verdict == r.action.verdict && l.stages[attempt].failureCode == Actions.Given(r.action.failureCode))
      && r.pc.answer.stage.resultDigest == w.scheme.digest(r.action.manifest)
  }

  ghost predicate FirstFor(r: Request, attempt: string) {
    Succeeded(r.pc) && r.pc.answer.scope.attemptId == attempt && !r.pc.answer.stage.existing
  }

  ghost predicate Agreed(w: World, s: State) {
    && (forall rid :: rid in s.requests ==> Backed(w, s.ledger, s.requests[rid]))
    && forall a, b, attempt ::
         (a in s.requests && b in s.requests && FirstFor(s.requests[a], attempt) && FirstFor(s.requests[b], attempt))
         ==> a == b
  }

  ghost predicate StagesGrow(l: Control.Ledger, m: Control.Ledger) {
    forall a :: a in l.stages ==> a in m.stages && m.stages[a] == l.stages[a]
  }

  /** What one step may do to results: keep all stages and, if it succeeds, be
      backed, and be a first answer only where no stage was. */
  ghost predicate SoundChange(w: World, s: State, rid: Rid, ch: Change)
    requires rid in s.requests
  {
    && StagesGrow(s.ledger, ch.ledger)
    && Backed(w, ch.ledger, ch.request)
    && (Succeeded(ch.request.pc) && ch.request.pc != s.requests[rid].pc && !ch.request.pc.answer.stage.existing ==>
          ch.request.pc.answer.scope.attemptId !in s.ledger.stages)
    && (Succeeded(s.requests[rid].pc) ==> ch.request.pc == s.requests[rid].pc)
  }

  /** The same of a step's outcome: one arm of StepOf at a time. */
  ghost predicate SoundOutcome(w: World, l: Control.Ledger, r: Request, o: Outcome) {
    && StagesGrow(l, o.ledger)
    && Backed(w, o.ledger, r.(pc := o.pc))
    && (Succeeded(o.pc) && !o.pc.answer.stage.existing ==> o.pc.answer.scope.attemptId !in l.stages)
  }

  lemma AcceptIsSound(w: World, v: Inputs.View, l: Control.Ledger, r: Request, c: Choice)
    requires r.pc.Acting? && r.action.PostResult?
    ensures SoundOutcome(w, l, r,
                         AcceptStep(w, v, l, r.pc.scope, r.action.verdict, r.action.failureCode, r.action.manifest, c))
  {
  }

  lemma BeginIsSound(w: World, v: Inputs.View, l: Control.Ledger, r: Request, c: Choice)
    requires r.pc.Acting? && r.action.Upload?
    ensures SoundOutcome(w, l, r, BeginStep(w, v, l, r.pc.scope, r.action.class_, r.action.mediaType, r.action.body, c))
  {
  }

  lemma FinalizeIsSound(w: World, v: Inputs.View, l: Control.Ledger, r: Request, c: Choice)
    requires r.pc.Finalizing?
    ensures SoundOutcome(w, l, r, FinalizeStep(w, v, l, r.pc.scope, r.pc.out, r.pc.version, c))
  {
  }

  lemma ActIsSound(w: World, p: PodConfig, v: Inputs.View, l: Control.Ledger, r: Request, c: Choice)
    requires r.pc.Acting?
    ensures SoundOutcome(w, l, r, ActStep(w, p, v, l, r.pc.scope, r.action, c))
  {
    if r.action.PostResult? {
      AcceptIsSound(w, v, l, r, c);
    } else if r.action.Upload? {
      BeginIsSound(w, v, l, r, c);
    }
  }

  lemma StepIsSound(w: World, p: PodConfig, socket: Socket, r: Request, clock: nat,
                    fact: Result<Authority.Response, Refusals.CallError>, v: Inputs.View, l: Control.Ledger, c: Choice)
    requires Backed(w, l, r)
    ensures var o := StepOf(w, p, socket, r, clock, fact, v, l, c);
      (if r.pc.Answered? then o.ledger == l && o.pc == r.pc else SoundOutcome(w, l, r, o))
  {
    if r.pc.Acting? {
      ActIsSound(w, p, v, l, r, c);
    } else if r.pc.Finalizing? {
      FinalizeIsSound(w, v, l, r, c);
    }
  }

  lemma ChangeIsSound(w: World, s: State, rid: Rid, c: Choice)
    requires Enabled(w, s, rid) && Backed(w, s.ledger, s.requests[rid])
    ensures SoundChange(w, s, rid, ChangeOf(w, s, rid, c))
  {
    var p, r, v, fact := w.pods[rid.pod], s.requests[rid], s.pods[rid.pod].inputs, FactOf(s, rid.pod);
    var o := StepOf(w, p, rid.socket, r, s.clock, fact, v, s.ledger, c);
    StepIsSound(w, p, rid.socket, r, s.clock, fact, v, s.ledger, c);
    ChangeFollows(w, s, rid, c);
    OutcomeIsChange(w, s, rid, o, ChangeOf(w, s, rid, c));
  }

  lemma OutcomeIsChange(w: World, s: State, rid: Rid, o: Outcome, ch: Change)
    requires rid in s.requests && Backed(w, s.ledger, s.requests[rid])
    requires ch.ledger == o.ledger && ch.request.pc == o.pc && ch.request.action == s.requests[rid].action
    requires var r := s.requests[rid];
      if r.pc.Answered? then o.ledger == s.ledger && o.pc == r.pc else SoundOutcome(w, s.ledger, r, o)
    ensures SoundChange(w, s, rid, ch)
  {
  }

  lemma UpdateAgrees(w: World, s: State, rid: Rid, ch: Change)
    requires Agreed(w, s) && rid in s.requests && SoundChange(w, s, rid, ch)
    ensures Agreed(w, Update(s, rid, ch))
  {
    var t := Update(s, rid, ch);
    forall q | q in t.requests ensures Backed(w, t.ledger, t.requests[q]) {
      if q != rid { assert Backed(w, s.ledger, s.requests[q]); }
    }
    forall a, b, attempt | a in t.requests && b in t.requests && FirstFor(t.requests[a], attempt)
        && FirstFor(t.requests[b], attempt) ensures a == b {
      assert a != rid ==> Backed(w, s.ledger, s.requests[a]);
      assert b != rid ==> Backed(w, s.ledger, s.requests[b]);
    }
  }

  lemma QuietAgrees(w: World, s: State, l: Label, t: State)
    requires Quiet(w, s, l, t) && Agreed(w, s)
    ensures Agreed(w, t)
  {
    forall q | q in t.requests ensures Backed(w, t.ledger, t.requests[q]) {
      assert q in s.requests ==> Backed(w, s.ledger, s.requests[q]);
    }
  }

  lemma {:induction false} EveryRunAgrees(w: World, ls: seq<Label>, ss: seq<State>, n: nat)
    requires IsRun(w, ls, ss) && n < |ss|
    ensures Agreed(w, ss[n])
  {
    if n > 0 {
      EveryRunAgrees(w, ls, ss, n - 1);
      StepAt(w, ls, ss, n - 1);
      var s, l := ss[n - 1], ls[n - 1];
      TwoKindsOfLabels(w, s, l, ss[n]);
      if l.Step? && Enabled(w, s, l.rid) {
        ChangeIsSound(w, s, l.rid, l.choice);
        UpdateAgrees(w, s, l.rid, ChangeOf(w, s, l.rid, l.choice));
      } else {
        QuietAgrees(w, s, l, ss[n]);
      }
    }
  }

  /** An answer once given stays. */
  lemma {:induction false} AnswersStay(w: World, ls: seq<Label>, ss: seq<State>, i: nat, j: nat, rid: Rid)
    requires IsRun(w, ls, ss) && i <= j < |ss| && rid in ss[i].requests && Succeeded(ss[i].requests[rid].pc)
    ensures rid in ss[j].requests && ss[j].requests[rid].pc == ss[i].requests[rid].pc
    ensures ss[j].requests[rid].action == ss[i].requests[rid].action
    decreases j - i
  {
    if i < j {
      AnswersStay(w, ls, ss, i, j - 1, rid);
      StepAt(w, ls, ss, j - 1);
      var s, l := ss[j - 1], ls[j - 1];
      TwoKindsOfLabels(w, s, l, ss[j]);
      if l.Step? && Enabled(w, s, l.rid) && l.rid == rid {
        EveryRunAgrees(w, ls, ss, j - 1);
        assert Backed(w, s.ledger, s.requests[rid]);
        ChangeIsSound(w, s, rid, l.choice);
      }
    }
  }

  /** Result agreement. Take any two successful answers of one run, given at any
      times by any Pods whose envelopes name the same attempt. They carry one
      stage id and one digest, which is the digest of the manifest each of them
      submitted; at most one of them is the first acceptance; and both submitted
      the same manifest, or two that collide. */
  lemma SuccessfulResultsAgree(w: World, ls: seq<Label>, ss: seq<State>, i: nat, a: Rid, j: nat, b: Rid)
    requires IsRun(w, ls, ss) && i <= j < |ss|
    requires a in ss[i].requests && Succeeded(ss[i].requests[a].pc)
    requires b in ss[j].requests && Succeeded(ss[j].requests[b].pc)
    requires a.pod < |w.pods| && b.pod < |w.pods|
    requires w.pods[a.pod].envelope.attemptId == w.pods[b.pod].envelope.attemptId
    ensures var x, y := ss[i].requests[a], ss[j].requests[b];
      && x.action.PostResult? && y.action.PostResult?
      && x.pc.answer.stage.stageId == y.pc.answer.stage.stageId
      && x.pc.answer.stage.resultDigest == y.pc.answer.stage.resultDigest
      && x.pc.answer.stage.resultDigest == w.scheme.digest(x.action.manifest) == w.scheme.digest(y.action.manifest)
      && (!x.pc.answer.stage.existing && !y.pc.answer.stage.existing ==> a == b)
      && (x.action.manifest == y.action.manifest || DigestsCollide(w.scheme, x.action.manifest, y.action.manifest))
  {
    AnswersStay(w, ls, ss, i, j, a);
    EveryRunAgrees(w, ls, ss, j);
    var s := ss[j];
    var p := EveryGrantHasItsInstant(w, ls, ss, j, a);
    var q := EveryGrantHasItsInstant(w, ls, ss, j, b);
    var attempt := w.pods[a.pod].envelope.attemptId;
    assert s.requests[a].pc.answer.scope.attemptId == attempt == s.requests[b].pc.answer.scope.attemptId;
    assert Backed(w, s.ledger, s.requests[a]) && Backed(w, s.ledger, s.requests[b]);
    if !s.requests[a].pc.answer.stage.existing && !s.requests[b].pc.answer.stage.existing {
      assert FirstFor(s.requests[a], attempt) && FirstFor(s.requests[b], attempt);
    }
  }
}
