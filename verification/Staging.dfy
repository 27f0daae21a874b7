/** What is answered as staged is held, and what is held is served: from the put or
    the load of an input to a later read, over every run. */
module Staging {
  import opened Outcomes
  import opened Bytes
  import opened Commands
  import opened Protocol
  import opened ServedInputs
  import Actions
  import Authority
  import Control
  import Inputs
  import Linearization
  import Refusals

  ghost predicate AnswersStaged(pc: Pc) { pc.Answered? && pc.answer.StagedInput? }

  /** The bytes a granted request is to stage: its body, or what the store answers
      to the download. */
  ghost predicate Brings(r: Request, c: Choice, name: string, bytes: seq<byte>) {
    match r.action
    case PutInput(n, body) => n == name && body == bytes
    case LoadInput(n) => n == name && c.download.Downloaded? && c.download.body == bytes
    case _ => false
  }

  // ---- One step ----

  /** Exactly the bytes of the declared digest are taken, and then they are held as
      they are and no other name is touched; nothing else is. */
  lemma StageTakesExactly(w: World, v: Inputs.View, l: Control.Ledger, name: string, body: seq<byte>)
    ensures var o := StageStep(w, v, l, name, body);
      && o.ledger == l && o.inputs.declared == v.declared && o.inputs.handles == v.handles
      && if name in v.declared && v.declared[name] == w.scheme.digest(body) then
           o.pc == Answered(StagedInput(name, |body|)) && o.inputs.bytes == v.bytes[name := body]
         else
           o.pc == Answered(Declined(InputRejected)) && o.inputs.bytes == v.bytes
  {
  }

  /** How a rejection and a missing input are answered. */
  lemma RejectionsSay(a: Action)
    ensures FailureOf(a, Declined(InputRejected)) == Some(Refusals.Failure(400, "INPUT_REJECTED", false))
    ensures FailureOf(a, Declined(Problem.NotFound)) == Some(Refusals.Failure(404, "NOT_FOUND", false))
  {
  }

  /** A load hands on the bytes the store answered, and fails otherwise. */
  lemma LoadTakesExactly(w: World, p: PodConfig, v: Inputs.View, l: Control.Ledger, s: Authority.Scope, name: string, c: Choice)
    requires name in v.handles
    ensures var o := LoadStep(w, p, v, l, s, name, c);
      var request := Actions.ReadRequest(v.handles[name], s.operationId, s.instanceId, s.tenantId);
      var loaded := Actions.Load(w.scheme, v.handles[name], p.maxInput, c.read(request), c.download);
      && (loaded.Ok? ==> c.download.Downloaded? && o == StageStep(w, v, l, name, c.download.body))
      && (loaded.Err? ==> o.pc == Answered(ActionError(loaded.error)) && o.inputs == v && o.ledger == l)
  {
  }

  lemma ActStages(w: World, p: PodConfig, v: Inputs.View, l: Control.Ledger, r: Request, c: Choice) returns (bytes: seq<byte>)
    requires r.pc.Acting? && AnswersStaged(ActStep(w, p, v, l, r.pc.scope, r.action, c).pc)
    ensures var o := ActStep(w, p, v, l, r.pc.scope, r.action, c);
      Brings(r, c, o.pc.answer.name, bytes) && o.pc.answer.size == |bytes|
      && o.inputs.bytes == v.bytes[o.pc.answer.name := bytes]
  {
    match r.action {
      case PutInput(name, body) =>
        StageTakesExactly(w, v, l, name, body);
        bytes := body;
      case LoadInput(name) =>
        if name in v.handles {
          LoadTakesExactly(w, p, v, l, r.pc.scope, name, c);
          bytes := c.download.body;
          StageTakesExactly(w, v, l, name, bytes);
        }
      case Upload(class_, mediaType, body) => BeginStagesNothing(w, v, l, r, c);
      case _ =>
    }
  }

  lemma BeginStagesNothing(w: World, v: Inputs.View, l: Control.Ledger, r: Request, c: Choice)
    requires r.pc.Acting? && r.action.Upload?
    ensures !AnswersStaged(BeginStep(w, v, l, r.pc.scope, r.action.class_, r.action.mediaType, r.action.body, c).pc)
  {
  }

  lemma OnlyActsStage(w: World, p: PodConfig, socket: Socket, r: Request, clock: nat,
                      fact: Result<Authority.Response, Refusals.CallError>, v: Inputs.View, l: Control.Ledger, c: Choice)
    ensures var o := StepOf(w, p, socket, r, clock, fact, v, l, c);
      AnswersStaged(o.pc) && o.pc != r.pc ==> r.pc.Acting? && o == ActStep(w, p, v, l, r.pc.scope, r.action, c)
  {
  }

  // ---- Over runs ----

  /** The step with which these bytes were staged under the name. */
  ghost predicate StagedBy(w: World, ls: seq<Label>, ss: seq<State>, k: nat, rid: Rid, name: string, bytes: seq<byte>) {
    && k < |ls| && k + 1 < |ss| && ls[k].Step? && ls[k].rid == rid
    && rid in ss[k].requests && ss[k].requests[rid].pc.Acting? && Brings(ss[k].requests[rid], ls[k].choice, name, bytes)
    && rid.pod in ss[k].pods && rid.pod in ss[k + 1].pods
    && ss[k + 1].pods[rid.pod].inputs.bytes == ss[k].pods[rid.pod].inputs.bytes[name := bytes]
  }

  lemma StepStages(w: World, ls: seq<Label>, ss: seq<State>, k: nat, rid: Rid) returns (bytes: seq<byte>)
    requires IsRun(w, ls, ss) && k < |ls| && rid in ss[k].requests && rid in ss[k + 1].requests
    requires ss[k + 1].requests[rid] != ss[k].requests[rid] && AnswersStaged(ss[k + 1].requests[rid].pc)
    ensures StagedBy(w, ls, ss, k, rid, ss[k + 1].requests[rid].pc.answer.name, bytes)
    ensures ss[k + 1].requests[rid].pc.answer.size == |bytes|
  {
    StepAt(w, ls, ss, k);
    OwnStepsOnly(w, ss[k], ls[k], ss[k + 1], rid);
    bytes := ChangeStages(w, ss[k], rid, ls[k].choice);
  }

  lemma ChangeStages(w: World, s: State, rid: Rid, c: Choice) returns (bytes: seq<byte>)
    requires Enabled(w, s, rid) && ChangeOf(w, s, rid, c).request != s.requests[rid]
    requires AnswersStaged(ChangeOf(w, s, rid, c).request.pc)
    ensures var ch := ChangeOf(w, s, rid, c);
      && s.requests[rid].pc.Acting? && Brings(s.requests[rid], c, ch.request.pc.answer.name, bytes)
      && ch.request.pc.answer.size == |bytes|
      && ch.pod.inputs.bytes == s.pods[rid.pod].inputs.bytes[ch.request.pc.answer.name := bytes]
  {
    var p, r, v, fact := w.pods[rid.pod], s.requests[rid], s.pods[rid.pod].inputs, FactOf(s, rid.pod);
    ChangeFollows(w, s, rid, c);
    OnlyActsStage(w, p, rid.socket, r, s.clock, fact, v, s.ledger, c);
    bytes := ActStages(w, p, v, s.ledger, r, c);
  }

  /** Whoever was answered that an input is staged had it staged: an earlier step of
      its own recorded the bytes it put, or those the store answered to its load,
      under the name it asked for. */
  lemma {:induction false} AnsweredStagedWasStaged(w: World, ls: seq<Label>, ss: seq<State>, n: nat, rid: Rid)
    returns (k: nat, bytes: seq<byte>)
    requires IsRun(w, ls, ss) && n < |ss| && rid in ss[n].requests && AnswersStaged(ss[n].requests[rid].pc)
    ensures k < n && StagedBy(w, ls, ss, k, rid, ss[n].requests[rid].pc.answer.name, bytes)
    ensures ss[n].requests[rid].pc.answer.size == |bytes|
  {
    Linearization.OneStepBefore(w, ls, ss, n, rid);
    if ss[n - 1].requests[rid] == ss[n].requests[rid] {
      k, bytes := AnsweredStagedWasStaged(w, ls, ss, n - 1, rid);
    } else {
      k := n - 1;
      bytes := StepStages(w, ls, ss, k, rid);
    }
  }

  /** The step with which a granted request acts. */
  ghost predicate ActsAt(w: World, ls: seq<Label>, ss: seq<State>, j: nat, rid: Rid) {
    j < |ls| && j + 1 < |ss| && ls[j].Step? && ls[j].rid == rid && rid in ss[j].requests && ss[j].requests[rid].pc.Acting?
  }

  /** Such a step leaves what ActStep says. */
  lemma ActsAsSaid(w: World, ls: seq<Label>, ss: seq<State>, j: nat, rid: Rid)
    requires IsRun(w, ls, ss) && ActsAt(w, ls, ss, j, rid) && Enabled(w, ss[j], rid)
    ensures rid in ss[j + 1].requests && rid.pod in ss[j + 1].pods
    ensures var r := ss[j].requests[rid];
      var o := ActStep(w, w.pods[rid.pod], ss[j].pods[rid.pod].inputs, ss[j].ledger, r.pc.scope, r.action, ls[j].choice);
      ss[j + 1].requests[rid].pc == o.pc && ss[j + 1].pods[rid.pod].inputs == o.inputs
  {
    StepAt(w, ls, ss, j);
    TwoKindsOfLabels(w, ss[j], ls[j], ss[j + 1]);
    ActChange(w, ss[j], rid, ls[j].choice);
  }

  lemma ActChange(w: World, s: State, rid: Rid, c: Choice)
    requires Enabled(w, s, rid) && s.requests[rid].pc.Acting?
    ensures var r := s.requests[rid];
      var o := ActStep(w, w.pods[rid.pod], s.pods[rid.pod].inputs, s.ledger, r.pc.scope, r.action, c);
      ChangeOf(w, s, rid, c).request.pc == o.pc && ChangeOf(w, s, rid, c).pod.inputs == o.inputs
  {
    ChangeFollows(w, s, rid, c);
  }

  /** What a granted read answers: the bytes held for the name, or not found. */
  lemma ReadServesWhatIsHeld(w: World, ls: seq<Label>, ss: seq<State>, j: nat, rid: Rid)
    requires IsRun(w, ls, ss) && ActsAt(w, ls, ss, j, rid) && Enabled(w, ss[j], rid) && ss[j].requests[rid].action.ReadInput?
    ensures rid in ss[j + 1].requests
    ensures var held, name := ss[j].pods[rid.pod].inputs.bytes, ss[j].requests[rid].action.name;
      ss[j + 1].requests[rid].pc == Answered(if name in held then Served(held[name]) else Declined(Problem.NotFound))
  {
    ActsAsSaid(w, ls, ss, j, rid);
  }

  /** From the staging to the read, over every run. Once a request, a put or a load,
      was answered that an input is staged, every granted read of that name on
      either socket of the Pod that acts later, whatever happened in between, is
      served the bytes that were staged, or bytes that collide with them; it is
      never answered that there are none. */
  lemma StagedIsServed(w: World, ls: seq<Label>, ss: seq<State>, i: nat, a: Rid, j: nat, b: Rid)
    returns (k: nat, bytes: seq<byte>)
    requires ValidWorld(w) && IsRun(w, ls, ss) && i <= j
    requires i < |ss| && a in ss[i].requests && AnswersStaged(ss[i].requests[a].pc)
    requires ActsAt(w, ls, ss, j, b) && b.pod == a.pod
    requires ss[j].requests[b].action == ReadInput(ss[i].requests[a].pc.answer.name)
    ensures k < i && StagedBy(w, ls, ss, k, a, ss[i].requests[a].pc.answer.name, bytes)
    ensures ss[i].requests[a].pc.answer.size == |bytes|
    ensures b in ss[j + 1].requests && ss[j + 1].requests[b].pc.Answered? && ss[j + 1].requests[b].pc.answer.Served?
    ensures var served := ss[j + 1].requests[b].pc.answer.bytes;
      served == bytes || DigestsCollide(w.scheme, bytes, served)
  {
    k, bytes := AnsweredStagedWasStaged(w, ls, ss, i, a);
    var name := ss[i].requests[a].pc.answer.name;
    assert ss[k + 1].pods[a.pod].inputs.bytes[name] == bytes;
    StagedStays(w, ls, ss, k + 1, j, a.pod, name);
    EveryRunIsHonest(w, ls, ss, j);
    assert HonestAnswer(w, b, ss[j].requests[b]);
    ReadServesWhatIsHeld(w, ls, ss, j, b);
  }

  /** When a put is taken, over every run: a granted put is answered that its input
      is staged if and only if the Pod's envelope declares the name with the digest
      of the body; else it is rejected, and the Pod holds what it held. */
  lemma PutsAreTakenExactly(w: World, ls: seq<Label>, ss: seq<State>, j: nat, rid: Rid)
    requires ValidWorld(w) && IsRun(w, ls, ss) && ActsAt(w, ls, ss, j, rid) && Enabled(w, ss[j], rid)
    requires ss[j].requests[rid].action.PutInput?
    ensures rid in ss[j + 1].requests && rid.pod in ss[j + 1].pods
    ensures var a, declared := ss[j].requests[rid].action, Inputs.Declared(w.pods[rid.pod].envelope.inputs);
      var held, after := ss[j].pods[rid.pod].inputs.bytes, ss[j + 1].pods[rid.pod].inputs.bytes;
      if a.name in declared && declared[a.name] == w.scheme.digest(a.body) then
        ss[j + 1].requests[rid].pc == Answered(StagedInput(a.name, |a.body|)) && after == held[a.name := a.body]
      else
        ss[j + 1].requests[rid].pc == Answered(Declined(InputRejected)) && after == held
  {
    EveryRunIsHonest(w, ls, ss, j);
    assert FaithfulPod(w, rid.pod, ss[j].pods[rid.pod].inputs);
    ActsAsSaid(w, ls, ss, j, rid);
    StageTakesExactly(w, ss[j].pods[rid.pod].inputs, ss[j].ledger, ss[j].requests[rid].action.name,
                      ss[j].requests[rid].action.body);
  }

  /** When a load is taken, over every run: a granted load of an input of the
      envelope that has a handle is answered as staged if and only if Control, asked
      for that handle under the granted scope, names the transfer, the store answers
      all of it within the bound, and its digest is the recorded and the declared
      one. */
  lemma LoadsAreTakenExactly(w: World, ls: seq<Label>, ss: seq<State>, j: nat, rid: Rid, k: nat)
    requires ValidWorld(w) && IsRun(w, ls, ss) && ActsAt(w, ls, ss, j, rid) && Enabled(w, ss[j], rid)
    requires k < |w.pods[rid.pod].envelope.inputs| && w.pods[rid.pod].envelope.inputs[k].handle != ""
    requires ss[j].requests[rid].action == LoadInput(w.pods[rid.pod].envelope.inputs[k].name)
    ensures rid in ss[j + 1].requests
    ensures var c, s, input := ls[j].choice, ss[j].requests[rid].pc.scope, w.pods[rid.pod].envelope.inputs[k];
      var read := c.read(Actions.ReadRequest(input.handle, s.operationId, s.instanceId, s.tenantId));
      AnswersStaged(ss[j + 1].requests[rid].pc) <==>
        && Loadable(read, c.download, w.pods[rid.pod].maxInput) && w.scheme.digest(c.download.body) == input.digest
        && read.value.expectedDigest == input.digest
  {
    EveryRunIsHonest(w, ls, ss, j);
    var v := ss[j].pods[rid.pod].inputs;
    assert FaithfulPod(w, rid.pod, v);
    ActsAsSaid(w, ls, ss, j, rid);
    Inputs.DeclaredExactly(w.pods[rid.pod].envelope.inputs, k);
    LoadIsTaken(w, w.pods[rid.pod], v, ss[j].ledger, ss[j].requests[rid].pc.scope,
                w.pods[rid.pod].envelope.inputs[k].name, ls[j].choice);
  }

  /** Control names a transfer with a download, and the store answers all of it, of
      the size recorded and within the bound. */
  ghost predicate Loadable(read: Result<Actions.ReadAnswer, Refusals.CallError>, got: Actions.Download, bound: nat) {
    && read.Ok? && read.value.download.Some? && read.value.download.value.url != ""
    && got.Downloaded? && got.status == 200 && got.whole
    && Actions.ParseInt(read.value.expectedSize) == Actions.Int(|got.body|) && |got.body| <= bound
  }

  lemma LoadIsTaken(w: World, p: PodConfig, v: Inputs.View, l: Control.Ledger, s: Authority.Scope, name: string, c: Choice)
    requires name in v.handles && name in v.declared && p.maxInput >= 1
    ensures var read := c.read(Actions.ReadRequest(v.handles[name], s.operationId, s.instanceId, s.tenantId));
      AnswersStaged(LoadStep(w, p, v, l, s, name, c).pc) <==>
        && Loadable(read, c.download, p.maxInput)
        && w.scheme.digest(c.download.body) == read.value.expectedDigest == v.declared[name]
  {
    var read := c.read(Actions.ReadRequest(v.handles[name], s.operationId, s.instanceId, s.tenantId));
    LoadTakesExactly(w, p, v, l, s, name, c);
    Actions.LoadSucceedsExactly(w.scheme, v.handles[name], p.maxInput, read, c.download);
    if c.download.Downloaded? {
      StageTakesExactly(w, v, l, name, c.download.body);
    }
  }

  /** The confirmed scope is answered with the names of the envelope's inputs, all of
      them and no other, staged or not. */
  lemma ScopeListsTheInputs(w: World, ls: seq<Label>, ss: seq<State>, j: nat, rid: Rid)
    requires ValidWorld(w) && IsRun(w, ls, ss) && ActsAt(w, ls, ss, j, rid) && Enabled(w, ss[j], rid)
    requires ss[j].requests[rid].action.GetScope?
    ensures rid in ss[j + 1].requests && ss[j + 1].requests[rid].pc.Answered? && ss[j + 1].requests[rid].pc.answer.ScopeIs?
    ensures ss[j + 1].requests[rid].pc.answer.scope == ss[j].requests[rid].pc.scope
    ensures forall n :: n in ss[j + 1].requests[rid].pc.answer.names <==> Inputs.Named(w.pods[rid.pod].envelope.inputs, n)
  {
    EveryRunIsHonest(w, ls, ss, j);
    assert FaithfulPod(w, rid.pod, ss[j].pods[rid.pod].inputs);
    ActsAsSaid(w, ls, ss, j, rid);
    Inputs.DeclaredCount(w.pods[rid.pod].envelope.inputs);
  }
}
