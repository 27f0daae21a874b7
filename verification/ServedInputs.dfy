/** Served bytes are the declared bytes, over every run. */
module ServedInputs {
  import opened Outcomes
  import opened Bytes
  import opened Commands
  import opened Protocol
  import Actions
  import Authority
  import Control
  import Inputs
  import Refusals

  ghost predicate FaithfulPod(w: World, i: nat, v: Inputs.View) {
    i < |w.pods| && Inputs.Faithful(w.scheme.digest, w.pods[i].envelope, w.pods[i].maxInput, v)
  }

  /** What a handler's own bound leaves of a body that is staged or acted on. */
  ghost predicate Bounded(p: PodConfig, r: Request) {
    (r.pc.Waiting? || r.pc.Looked? || r.pc.Acting?) && r.action.PutInput? ==> |r.action.body| <= p.maxInput
  }

  /** An answer with bytes is what the envelope declares for the name asked. */
  ghost predicate HonestAnswer(w: World, rid: Rid, r: Request) {
    rid.pod < |w.pods| && (r.pc.Answered? && r.pc.answer.Served? ==>
      var declared := Inputs.Declared(w.pods[rid.pod].envelope.inputs);
      && r.action.ReadInput? && r.action.name in declared
      && w.scheme.digest(r.pc.answer.bytes) == declared[r.action.name]
      && |r.pc.answer.bytes| <= w.pods[rid.pod].maxInput)
  }

  ghost predicate Honest(w: World, s: State) {
    && (forall i :: i in s.pods ==> FaithfulPod(w, i, s.pods[i].inputs))
    && (forall rid :: rid in s.requests ==>
          HonestAnswer(w, rid, s.requests[rid]) && Bounded(w.pods[rid.pod], s.requests[rid]))
  }

  /** What an outcome owes: faithful inputs that lost no name, and an honest
      request. */
  ghost predicate HonestOutcome(w: World, rid: Rid, r: Request, v: Inputs.View, o: Outcome) {
    && FaithfulPod(w, rid.pod, o.inputs)
    && HonestAnswer(w, rid, r.(pc := o.pc)) && Bounded(w.pods[rid.pod], r.(pc := o.pc))
    && v.bytes.Keys <= o.inputs.bytes.Keys
  }

  /** An outcome that leaves the inputs and serves no bytes. */
  lemma IdleIsHonest(w: World, rid: Rid, r: Request, v: Inputs.View, o: Outcome)
    requires FaithfulPod(w, rid.pod, v) && o.inputs == v && Bounded(w.pods[rid.pod], r)
    requires !(o.pc.Answered? && o.pc.answer.Served?)
    requires o.pc.Acting? || o.pc.Looked? ==> r.pc.Waiting? || r.pc.Looked?
    requires !o.pc.Waiting?
    ensures HonestOutcome(w, rid, r, v, o)
  {
  }

  lemma StageIsHonest(w: World, rid: Rid, r: Request, v: Inputs.View, l: Control.Ledger, name: string, body: seq<byte>)
    requires FaithfulPod(w, rid.pod, v) && |body| <= w.pods[rid.pod].maxInput
    ensures HonestOutcome(w, rid, r, v, StageStep(w, v, l, name, body))
  {
    var p := w.pods[rid.pod];
    Inputs.StagedIsFaithful(w.scheme.digest, p.envelope, p.maxInput, v, name, body);
  }

  lemma LoadIsHonest(w: World, rid: Rid, r: Request, v: Inputs.View, l: Control.Ledger, s: Authority.Scope, name: string,
                     c: Choice)
    requires FaithfulPod(w, rid.pod, v) && w.pods[rid.pod].maxInput >= 1 && name in v.handles
    ensures HonestOutcome(w, rid, r, v, LoadStep(w, w.pods[rid.pod], v, l, s, name, c))
  {
    var read := c.read(Actions.ReadOf(s, v.handles[name]));
    var loaded := Actions.Load(w.scheme, v.handles[name], w.pods[rid.pod].maxInput, read, c.download);
    if loaded.Ok? {
      StageIsHonest(w, rid, r, v, l, name, loaded.value.bytes);
    }
  }

  lemma OthersServeNothing(w: World, p: PodConfig, v: Inputs.View, l: Control.Ledger, s: Authority.Scope, a: Action,
                           c: Choice)
    requires !a.PutInput? && !a.LoadInput? && !a.ReadInput?
    ensures var o := ActStep(w, p, v, l, s, a, c);
      && o.inputs == v && !(o.pc.Answered? && o.pc.answer.Served?)
      && !o.pc.Waiting? && !o.pc.Looked? && !o.pc.Acting?
  {
  }

  lemma ActIsHonest(w: World, rid: Rid, r: Request, v: Inputs.View, l: Control.Ledger, c: Choice)
    requires r.pc.Acting? && FaithfulPod(w, rid.pod, v) && w.pods[rid.pod].maxInput >= 1
    requires Bounded(w.pods[rid.pod], r)
    ensures HonestOutcome(w, rid, r, v, ActStep(w, w.pods[rid.pod], v, l, r.pc.scope, r.action, c))
  {
    match r.action {
      case PutInput(name, body) => StageIsHonest(w, rid, r, v, l, name, body);
      case LoadInput(name) => if name in v.handles { LoadIsHonest(w, rid, r, v, l, r.pc.scope, name, c); }
      case ReadInput(_) =>
      case _ =>
        OthersServeNothing(w, w.pods[rid.pod], v, l, r.pc.scope, r.action, c);
        IdleIsHonest(w, rid, r, v, ActStep(w, w.pods[rid.pod], v, l, r.pc.scope, r.action, c));
    }
  }

  lemma GuardIsHonest(w: World, rid: Rid, r: Request, v: Inputs.View)
    requires FaithfulPod(w, rid.pod, v) && r.pc.Open?
    ensures var pc := GuardStep(w, w.pods[rid.pod], v, rid.socket, r).0;
      HonestAnswer(w, rid, r.(pc := pc)) && Bounded(w.pods[rid.pod], r.(pc := pc))
  {
  }

  lemma StepIsHonest(w: World, rid: Rid, r: Request, clock: nat, fact: Result<Authority.Response, Refusals.CallError>,
                     v: Inputs.View, l: Control.Ledger, c: Choice)
    requires FaithfulPod(w, rid.pod, v) && w.pods[rid.pod].maxInput >= 1
    requires HonestAnswer(w, rid, r) && Bounded(w.pods[rid.pod], r)
    ensures HonestOutcome(w, rid, r, v, StepOf(w, w.pods[rid.pod], rid.socket, r, clock, fact, v, l, c))
  {
    match r.pc {
      case Open => GuardIsHonest(w, rid, r, v);
      case Acting(_) => ActIsHonest(w, rid, r, v, l, c);
      case Answered(_) =>
      case Shut =>
      case _ => IdleIsHonest(w, rid, r, v, StepOf(w, w.pods[rid.pod], rid.socket, r, clock, fact, v, l, c));
    }
  }

  lemma UpdateIsHonest(w: World, s: State, rid: Rid, ch: Change)
    requires Honest(w, s) && rid.pod in s.pods
    requires FaithfulPod(w, rid.pod, ch.pod.inputs) && HonestAnswer(w, rid, ch.request)
    requires Bounded(w.pods[rid.pod], ch.request)
    requires s.pods[rid.pod].inputs.bytes.Keys <= ch.pod.inputs.bytes.Keys
    ensures Honest(w, Update(s, rid, ch)) && KeepsStaged(s, Update(s, rid, ch))
  {
  }

  ghost predicate KeepsStaged(s: State, t: State) {
    forall i :: i in s.pods ==> i in t.pods && s.pods[i].inputs.bytes.Keys <= t.pods[i].inputs.bytes.Keys
  }

  lemma ChangeIsHonest(w: World, s: State, rid: Rid, c: Choice)
    requires ValidWorld(w) && Enabled(w, s, rid) && Honest(w, s)
    ensures var ch := ChangeOf(w, s, rid, c);
      && FaithfulPod(w, rid.pod, ch.pod.inputs) && HonestAnswer(w, rid, ch.request)
      && Bounded(w.pods[rid.pod], ch.request)
      && s.pods[rid.pod].inputs.bytes.Keys <= ch.pod.inputs.bytes.Keys
  {
    StepIsHonest(w, rid, s.requests[rid], s.clock, FactOf(s, rid.pod), s.pods[rid.pod].inputs, s.ledger, c);
  }

  lemma QuietIsHonest(w: World, s: State, l: Label, t: State)
    requires Quiet(w, s, l, t) && Honest(w, s)
    ensures Honest(w, t) && KeepsStaged(s, t)
  {
  }

  lemma LabelIsHonest(w: World, s: State, l: Label, t: State)
    requires ValidWorld(w) && Goes(w, s, l, t) && Honest(w, s)
    ensures Honest(w, t) && KeepsStaged(s, t)
  {
    TwoKindsOfLabels(w, s, l, t);
    if l.Step? && Enabled(w, s, l.rid) {
      ChangeIsHonest(w, s, l.rid, l.choice);
      UpdateIsHonest(w, s, l.rid, ChangeOf(w, s, l.rid, l.choice));
    } else {
      QuietIsHonest(w, s, l, t);
    }
  }

  lemma InitIsHonest(w: World)
    ensures Honest(w, Init(w))
  {
  }

  lemma RunStepIsHonest(w: World, ls: seq<Label>, ss: seq<State>, n: nat)
    requires ValidWorld(w) && IsRun(w, ls, ss) && n < |ls| && Honest(w, ss[n])
    ensures Honest(w, ss[n + 1]) && KeepsStaged(ss[n], ss[n + 1])
  {
    StepAt(w, ls, ss, n);
    LabelIsHonest(w, ss[n], ls[n], ss[n + 1]);
  }

  /** The promise of the input routes, in every state of every run: a Pod holds
      bytes for declared names only, of the declared digest and within the
      bound, and every answered read is such bytes. */
  lemma {:induction false} EveryRunIsHonest(w: World, ls: seq<Label>, ss: seq<State>, n: nat)
    requires ValidWorld(w) && IsRun(w, ls, ss) && n < |ss|
    ensures Honest(w, ss[n])
  {
    if n == 0 {
      InitIsHonest(w);
    } else {
      EveryRunIsHonest(w, ls, ss, n - 1);
      RunStepIsHonest(w, ls, ss, n - 1);
    }
  }

  /** All that a Pod ever holds is bounded by its envelope. */
  lemma StagedTotalIsBounded(w: World, ls: seq<Label>, ss: seq<State>, n: nat, pod: nat)
    requires ValidWorld(w) && IsRun(w, ls, ss) && n < |ss| && pod in ss[n].pods
    ensures pod < |w.pods| && Inputs.TotalSize(ss[n].pods[pod].inputs.bytes) <= 64 * w.pods[pod].maxInput
  {
    EveryRunIsHonest(w, ls, ss, n);
    assert FaithfulPod(w, pod, ss[n].pods[pod].inputs);
    Inputs.StagedSizeIsBounded(w.scheme.digest, w.pods[pod].envelope, w.pods[pod].maxInput, ss[n].pods[pod].inputs);
  }

  /** Once staged, a name stays staged, and it keeps its bytes whatever is put or
      loaded later, unless those collide with them. */
  lemma StagedStays(w: World, ls: seq<Label>, ss: seq<State>, i: nat, j: nat, pod: nat, name: string)
    requires ValidWorld(w) && IsRun(w, ls, ss) && i <= j < |ss|
    requires pod in ss[i].pods && name in ss[i].pods[pod].inputs.bytes
    ensures pod in ss[j].pods && name in ss[j].pods[pod].inputs.bytes
    ensures var before, after := ss[i].pods[pod].inputs.bytes[name], ss[j].pods[pod].inputs.bytes[name];
      after == before || DigestsCollide(w.scheme, before, after)
  {
    NamesStayStaged(w, ls, ss, i, j, pod, name);
    EveryRunIsHonest(w, ls, ss, i);
    EveryRunIsHonest(w, ls, ss, j);
    assert FaithfulPod(w, pod, ss[i].pods[pod].inputs) && FaithfulPod(w, pod, ss[j].pods[pod].inputs);
  }

  lemma {:induction false} NamesStayStaged(w: World, ls: seq<Label>, ss: seq<State>, i: nat, j: nat, pod: nat, name: string)
    requires ValidWorld(w) && IsRun(w, ls, ss) && i <= j < |ss|
    requires pod in ss[i].pods && name in ss[i].pods[pod].inputs.bytes
    ensures pod in ss[j].pods && name in ss[j].pods[pod].inputs.bytes
    decreases j - i
  {
    if i < j {
      NamesStayStaged(w, ls, ss, i, j - 1, pod, name);
      NameStaysStaged(w, ls, ss, j - 1, pod, name);
    }
  }

  lemma NameStaysStaged(w: World, ls: seq<Label>, ss: seq<State>, n: nat, pod: nat, name: string)
    requires ValidWorld(w) && IsRun(w, ls, ss) && n < |ls|
    requires pod in ss[n].pods && name in ss[n].pods[pod].inputs.bytes
    ensures pod in ss[n + 1].pods && name in ss[n + 1].pods[pod].inputs.bytes
  {
    EveryRunIsHonest(w, ls, ss, n);
    RunStepIsHonest(w, ls, ss, n);
    assert name in ss[n].pods[pod].inputs.bytes.Keys;
  }

  /** The two envelopes declare one digest for the name, whatever else they declare. */
  ghost predicate DeclareAlike(p: PodConfig, q: PodConfig, name: string) {
    var d, e := Inputs.Declared(p.envelope.inputs), Inputs.Declared(q.envelope.inputs);
    name in d && name in e ==> d[name] == e[name]
  }

  /** Any two answered reads of one name, by whichever Pods and sockets and at
      whatever times, served the same bytes, or two that collide, when the Pods'
      envelopes declare the same digest for that name. */
  lemma ReadsAgree(w: World, ls: seq<Label>, ss: seq<State>, i: nat, a: Rid, j: nat, b: Rid)
    requires ValidWorld(w) && IsRun(w, ls, ss) && i < |ss| && j < |ss|
    requires a in ss[i].requests && ss[i].requests[a].pc.Answered? && ss[i].requests[a].pc.answer.Served?
    requires b in ss[j].requests && ss[j].requests[b].pc.Answered? && ss[j].requests[b].pc.answer.Served?
    requires a.pod < |w.pods| && b.pod < |w.pods| && ss[i].requests[a].action == ss[j].requests[b].action
    requires ss[i].requests[a].action.ReadInput? && DeclareAlike(w.pods[a.pod], w.pods[b.pod], ss[i].requests[a].action.name)
    ensures var x, y := ss[i].requests[a].pc.answer.bytes, ss[j].requests[b].pc.answer.bytes;
      x == y || DigestsCollide(w.scheme, x, y)
  {
    EveryRunIsHonest(w, ls, ss, i);
    EveryRunIsHonest(w, ls, ss, j);
    assert HonestAnswer(w, a, ss[i].requests[a]) && HonestAnswer(w, b, ss[j].requests[b]);
  }
}
