/** Candidate erasure: a two-run simulation. Take away everything the candidate
    socket is offered and does, and each state of what remains agrees with the
    original run on Control, on what the Pods hold and on every trusted request. */
module Erasure {
  import opened Outcomes
  import opened Protocol
  import Admission
  import Authority
  import Control
  import Inputs
  import Refusals

  predicate OfCandidate(l: Label) { (l.Arrive? || l.Step?) && l.rid.socket.Candidate? }

  /** The labels without those of the candidate socket, in order. */
  function Erase(ls: seq<Label>): (kept: seq<Label>)
    ensures |kept| <= |ls|
  {
    if ls == [] then []
    else
      var init, last := Erase(ls[..|ls| - 1]), ls[|ls| - 1];
      if OfCandidate(last) then init else init + [last]
  }

  /** Erasing is done label by label: what the first n labels leave is what the
      erased run begins with, and a kept label follows right behind it. */
  lemma {:induction false} ErasedInOrder(ls: seq<Label>, n: nat)
    requires n <= |ls|
    ensures Erase(ls[..n]) <= Erase(ls)
    ensures n < |ls| && !OfCandidate(ls[n]) ==> Erase(ls[..n]) + [ls[n]] <= Erase(ls)
    ensures n < |ls| ==> Erase(ls[..n + 1]) == Erase(ls[..n]) + if OfCandidate(ls[n]) then [] else [ls[n]]
  {
    if n < |ls| {
      assert ls[..n + 1][..n] == ls[..n];
      var init := ls[..|ls| - 1];
      assert init[..n] == ls[..n];
      ErasedInOrder(init, n);
      if n < |init| {
        assert init[n] == ls[n];
      }
    } else {
      assert ls[..n] == ls;
    }
  }

  /** What a reader of the trusted side can tell: the clock, Control, the inputs
      of every Pod, and all trusted requests with their answers and proofs. */
  ghost predicate SameTrusted(s: State, u: State) {
    && s.clock == u.clock && s.facts == u.facts && s.ledger == u.ledger
    && s.pods.Keys == u.pods.Keys
    && (forall i :: i in s.pods ==> s.pods[i].inputs == u.pods[i].inputs)
    && (forall rid: Rid :: rid.socket.Trusted? ==> (rid in s.requests <==> rid in u.requests))
    && (forall rid: Rid :: rid.socket.Trusted? && rid in s.requests && rid in u.requests ==>
          s.requests[rid] == u.requests[rid])
  }

  /** A candidate request never gets to a call that could change anything. */
  ghost predicate Harmless(rid: Rid, r: Request) {
    rid.socket.Candidate? ==>
      && !r.pc.Putting? && !r.pc.Finalizing?
      && (Admission.UnderWay(r.pc) ==> r.action.ReadInput? || r.action.ModelRelay?)
  }

  ghost predicate AllHarmless(s: State) {
    forall rid :: rid in s.requests ==> Harmless(rid, s.requests[rid])
  }

  lemma StepIsHarmless(w: World, p: PodConfig, rid: Rid, r: Request, clock: nat,
                       fact: Result<Authority.Response, Refusals.CallError>, v: Inputs.View, l: Control.Ledger, c: Choice)
    requires Harmless(rid, r)
    ensures var o := StepOf(w, p, rid.socket, r, clock, fact, v, l, c);
      && Harmless(rid, r.(pc := o.pc))
      && (rid.socket.Candidate? ==> o.ledger == l && o.inputs == v)
  {
  }

  lemma LabelIsHarmless(w: World, s: State, l: Label, t: State)
    requires Goes(w, s, l, t) && AllHarmless(s)
    ensures AllHarmless(t)
    ensures OfCandidate(l) ==> SameTrusted(s, t)
  {
    TwoKindsOfLabels(w, s, l, t);
    if l.Step? && Enabled(w, s, l.rid) {
      StepIsHarmless(w, w.pods[l.rid.pod], l.rid, s.requests[l.rid], s.clock, FactOf(s, l.rid.pod),
                     s.pods[l.rid.pod].inputs, s.ledger, l.choice);
    }
  }

  lemma {:induction false} EveryRunIsHarmless(w: World, ls: seq<Label>, ss: seq<State>, n: nat)
    requires IsRun(w, ls, ss) && n < |ss|
    ensures AllHarmless(ss[n])
  {
    if n > 0 {
      EveryRunIsHarmless(w, ls, ss, n - 1);
      StepAt(w, ls, ss, n - 1);
      LabelIsHarmless(w, ss[n - 1], ls[n - 1], ss[n]);
    }
  }

  lemma SameChange(w: World, s: State, u: State, rid: Rid, c: Choice)
    requires SameTrusted(s, u) && rid.socket.Trusted? && Enabled(w, s, rid) && Enabled(w, u, rid)
    ensures var a, b := ChangeOf(w, s, rid, c), ChangeOf(w, u, rid, c);
      a.ledger == b.ledger && a.pod.inputs == b.pod.inputs && a.request == b.request
  {
    assert s.requests[rid] == u.requests[rid] && s.pods[rid.pod].inputs == u.pods[rid.pod].inputs;
    assert FactOf(s, rid.pod) == FactOf(u, rid.pod);
  }

  lemma UpdatesAgree(s: State, u: State, rid: Rid, a: Change, b: Change)
    requires SameTrusted(s, u) && a.ledger == b.ledger && a.pod.inputs == b.pod.inputs && a.request == b.request
    ensures SameTrusted(Update(s, rid, a), Update(u, rid, b))
  {
  }

  /** A trusted label takes equal trusted sides to equal trusted sides. */
  lemma TrustedLabelsAgree(w: World, s: State, u: State, l: Label)
    requires SameTrusted(s, u) && !OfCandidate(l)
    ensures SameTrusted(Apply(w, s, l), Apply(w, u, l))
  {
    if l.Step? && Enabled(w, s, l.rid) {
      SameChange(w, s, u, l.rid, l.choice);
      UpdatesAgree(s, u, l.rid, ChangeOf(w, s, l.rid, l.choice), ChangeOf(w, u, l.rid, l.choice));
    }
  }

  lemma SameTrustedIsTransitive(s: State, t: State, u: State)
    requires SameTrusted(t, s) && SameTrusted(t, u)
    ensures SameTrusted(s, u)
  {
  }

  /** One label of the original run, matched by the same label or by none. */
  lemma OneLabel(w: World, s: State, l: Label, t: State, u: State, v: State)
    requires Goes(w, s, l, t) && AllHarmless(s) && SameTrusted(s, u)
    requires if OfCandidate(l) then v == u else Goes(w, u, l, v)
    ensures SameTrusted(t, v)
  {
    if OfCandidate(l) {
      LabelIsHarmless(w, s, l, t);
      SameTrustedIsTransitive(t, s, u);
    } else {
      TrustedLabelsAgree(w, s, u, l);
    }
  }

  /** Where the erased run is after the first n labels, and how it got there. */
  lemma ErasedStep(w: World, ls: seq<Label>, us: seq<State>, n: nat)
    requires IsRun(w, Erase(ls), us) && n < |ls|
    ensures var k, m := |Erase(ls[..n])|, |Erase(ls[..n + 1])|;
      && m < |us| && k <= m
      && if OfCandidate(ls[n]) then us[m] == us[k] else Goes(w, us[k], ls[n], us[m])
  {
    ErasedInOrder(ls, n);
    ErasedInOrder(ls, n + 1);
    var k := |Erase(ls[..n])|;
    if !OfCandidate(ls[n]) {
      assert Erase(ls)[k] == ls[n];
      StepAt(w, Erase(ls), us, k);
    }
  }

  lemma MatchedStep(w: World, ls: seq<Label>, ss: seq<State>, us: seq<State>, n: nat)
    requires IsRun(w, ls, ss) && IsRun(w, Erase(ls), us) && n < |ls|
    requires |Erase(ls[..n])| < |us| && SameTrusted(ss[n], us[|Erase(ls[..n])|])
    ensures |Erase(ls[..n + 1])| < |us| && SameTrusted(ss[n + 1], us[|Erase(ls[..n + 1])|])
  {
    EveryRunIsHarmless(w, ls, ss, n);
    StepAt(w, ls, ss, n);
    ErasedStep(w, ls, us, n);
    OneLabel(w, ss[n], ls[n], ss[n + 1], us[|Erase(ls[..n])|], us[|Erase(ls[..n + 1])|]);
  }

  /** The simulation: after any n labels of any run, the erased run is at the
      point after the labels it keeps of these, and the two states agree on
      everything but the candidate requests themselves and the once-only
      announcement flag. */
  lemma {:induction false} CandidatesLeaveNoTrace(w: World, ls: seq<Label>, ss: seq<State>, us: seq<State>, n: nat)
    requires IsRun(w, ls, ss) && IsRun(w, Erase(ls), us) && n <= |ls|
    ensures |Erase(ls[..n])| < |us| && SameTrusted(ss[n], us[|Erase(ls[..n])|])
  {
    if n > 0 {
      CandidatesLeaveNoTrace(w, ls, ss, us, n - 1);
      MatchedStep(w, ls, ss, us, n - 1);
    }
  }
}
