/** The sidecars of an attempt as one transition system. Every request is a
    small program: the connection is accepted, the guard and the route's own
    checks run, Control is asked, the clock is read and the authority decided,
    then the effect happens, call by call. Requests of any number of Pods and of
    both sockets interleave freely with each other, with the clock and with
    Control. A label names who moves and what the environment answers, so a run
    is a sequence of labels and every statement below is over all of them. */
module Protocol {
  import opened Outcomes
  import opened Bytes
  import opened Refusals
  import opened Authority
  import opened Peer
  import opened Actions
  import opened Control
  import opened Commands
  import Envelope
  import Inputs

  datatype PodConfig = PodConfig(id: Identity, envelope: Envelope.Record, secret: seq<byte>, trustedUid: nat,
                                 candidateUid: nat, maxInput: nat, maxTransfer: nat, maxManifest: nat, relay: bool)

  /** What app.Run and the configuration loader make sure of before serving. */
  ghost predicate ValidPod(p: PodConfig) {
    Envelope.WellFormed(p.envelope) && p.envelope.launchKey == p.id.launchKey && p.maxInput >= 1
  }

  /** The digests and identities, the MAC and the Pods; none of them changes. */
  datatype World = World(scheme: Scheme, hmac: Hmac, pods: seq<PodConfig>)

  ghost predicate ValidWorld(w: World) {
    forall i :: 0 <= i < |w.pods| ==> ValidPod(w.pods[i])
  }

  function BindingOf(p: PodConfig): Binding {
    Binding(p.envelope.operationId, p.envelope.attemptId, p.envelope.profileId, p.id.launchKey, p.envelope.executionEpoch,
            p.envelope.launchEpoch)
  }

  datatype Socket = Trusted | Candidate

  datatype Rid = Rid(pod: nat, socket: Socket, n: nat)

  /** The routes; Forward stands for the trusted routes that only pass a bound
      request on (progress, stages, accepted results, knowledge, tool calls). */
  datatype Action =
    | GetScope
    | ReadInput(name: string)
    | PutInput(name: string, body: seq<byte>)
    | LoadInput(name: string)
    | Upload(class_: string, mediaType: string, body: seq<byte>)
    | PostResult(verdict: string, failureCode: string, manifest: seq<byte>)
    | ModelRelay(body: seq<byte>)
    | Forward(purpose: Purpose)
    | UnknownRoute

  /** Why a handler answers without the action having been asked for, or done. */
  datatype Problem = RouteForbidden | NotFound | TooLarge | BadArgument | NoUpstream | InputRejected

  /** The answers: turned away by the guard; refused by the handler; no usable
      scope; the action failed; or done. */
  datatype Answer =
    | Turned(refusal: GuardRefusal)
    | Declined(problem: Problem)
    | Denied(error: ScopeError)
    | ActionError(error: ScopeError)
    | ScopeIs(scope: Scope, names: set<string>)
    | Served(bytes: seq<byte>)
    | StagedInput(name: string, size: nat)
    | UploadedAs(scope: Scope, report: TransferReport)
    | AcceptedAs(scope: Scope, stage: StageAnswer)
    | Relayed(content: seq<byte>)

  datatype Pc =
    | Offered
    | Shut
    | Open
    | Waiting
    | Looked(reply: Result<Response, CallError>)
    | Acting(scope: Scope)
    | Putting(scope: Scope, out: TransferReport, put: PutRequest)
    | Finalizing(scope: Scope, out: TransferReport, version: string)
    | Answered(answer: Answer)

  datatype Request = Request(peer: Option<nat>, head: Head, action: Action, pc: Pc, proof: Option<string>)

  /** What the environment answers to the call a step makes; a read is answered by
      what it asks for. */
  datatype Choice = Choice(lookupLost: bool, fate: Fate, row: Row, upload: Option<Capability>, stored: PutAnswer,
                           accepted: bool, version: string, reason: string, stageId: string,
                           read: ReadRequest -> Result<ReadAnswer, CallError>, download: Download, content: seq<byte>)

  datatype Label =
    | Tick(ticks: nat)
    | Move(facts: map<nat, Result<Response, CallError>>)
    | Arrive(rid: Rid, peer: Option<nat>, head: Head, action: Action)
    | Step(rid: Rid, choice: Choice)

  datatype PodState = PodState(inputs: Inputs.View, announced: bool)

  datatype State = State(clock: nat, facts: map<nat, Result<Response, CallError>>, ledger: Ledger,
                         pods: map<nat, PodState>, requests: map<Rid, Request>)

  function Init(w: World): State {
    State(0, map[], Control.EMPTY, map i | 0 <= i < |w.pods| :: PodState(Inputs.Fresh(w.pods[i].envelope), false), map[])
  }

  /** The HTTP answer of a request that is not served. */
  function FailureOf(a: Action, ans: Answer): Option<Failure> {
    match ans
    case Turned(g) => Some(GuardFailure(g))
    case Denied(e) => Some(ScopeFailure(e))
    case ActionError(e) => Some(ActionFailure(e))
    case Declined(problem) =>
      Some(match problem
           case RouteForbidden => Failure(403, "ROUTE_FORBIDDEN", false)
           case NotFound => Failure(404, "NOT_FOUND", false)
           case TooLarge =>
             Failure(413, if a.PutInput? then "INPUT_TOO_LARGE" else if a.Upload? then "TRANSFER_TOO_LARGE"
                          else if a.PostResult? then "RESULT_TOO_LARGE" else "REQUEST_TOO_LARGE", false)
           case BadArgument => Failure(400, "INVALID_ARGUMENT", false)
           case NoUpstream => Failure(503, "DEPENDENCY_UNAVAILABLE", false)
           case InputRejected => Failure(400, "INPUT_REJECTED", false))
    case _ => None
  }

  function RoleOf(s: Socket): Role { if s.Trusted? then RoleTrusted else RoleCandidate }

  function UidOf(p: PodConfig, s: Socket): nat { if s.Trusted? then p.trustedUid else p.candidateUid }

  function TokenOf(w: World, p: PodConfig, s: Socket): string { Token(w.hmac, p.secret, RoleOf(s)) }

  function PurposeOf(a: Action): Purpose {
    match a
    case PostResult(_, _, _) => ForResult
    case Forward(p) => p
    case _ => ForNewAuthorization
  }

  /** What the route set and the handler refuse before Control is asked. */
  function Precheck(p: PodConfig, v: Inputs.View, socket: Socket, a: Action): Option<Problem> {
    if a.UnknownRoute? || (socket.Candidate? && !a.ReadInput? && !a.ModelRelay?) then
      Some(RouteForbidden)
    else
      match a
      case ReadInput(name) => if Envelope.InputName(name) then None else Some(Problem.NotFound)
      case PutInput(_, body) => if |body| <= p.maxInput then None else Some(TooLarge)
      case LoadInput(name) =>
        if Envelope.InputName(name) && name in v.handles then None else Some(Problem.NotFound)
      case Upload(_, _, body) => if |body| <= p.maxTransfer then None else Some(TooLarge)
      case PostResult(_, _, manifest) =>
        if manifest == [] then Some(BadArgument)
        else if |manifest| <= p.maxManifest then None else Some(TooLarge)
      case ModelRelay(body) =>
        if |body| > p.maxInput then Some(TooLarge)
        else if !p.relay then Some(NoUpstream) else None
      case _ => None
  }

  /** What a step leaves of its request, of its Pod's inputs and of Control. */
  datatype Outcome = Outcome(pc: Pc, inputs: Inputs.View, ledger: Ledger)

  function Done(v: Inputs.View, l: Ledger, a: Answer): Outcome { Outcome(Answered(a), v, l) }

  function Fail(v: Inputs.View, l: Ledger, e: ScopeError): Outcome { Done(v, l, ActionError(e)) }

  function StageStep(w: World, v: Inputs.View, l: Ledger, name: string, body: seq<byte>): Outcome {
    var (after, err) := Inputs.Staged(w.scheme.digest, v, name, body);
    if err.Some? then Done(v, l, Declined(InputRejected))
    else Done(after, l, StagedInput(name, |body|))
  }

  function LoadStep(w: World, p: PodConfig, v: Inputs.View, l: Ledger, s: Scope, name: string, c: Choice): Outcome
    requires name in v.handles
  {
    match Load(w.scheme, v.handles[name], p.maxInput, c.read(ReadOf(s, v.handles[name])), c.download)
    case Err(e) => Fail(v, l, e)
    case Ok(loaded) => StageStep(w, v, l, name, loaded.bytes)
  }

  function BeginStep(w: World, v: Inputs.View, l: Ledger, s: Scope, class_: string, mediaType: string, body: seq<byte>,
                     c: Choice): Outcome
  {
    match BeginOf(w.scheme, s, class_, mediaType, body)
    case Err(e) => Fail(v, l, e)
    case Ok(request) =>
      var (after, answer) := BeginTransfer(l, request, c.fate, c.row, c.upload);
      match OnBegun(w.scheme, class_, body, answer)
      case Ended(Ok(report)) => Done(v, after, UploadedAs(s, report))
      case Ended(Err(e)) => Fail(v, after, e)
      case MustPut(out, put) => Outcome(Putting(s, out, put), v, after)
  }

  function FinalizeStep(w: World, v: Inputs.View, l: Ledger, s: Scope, out: TransferReport, version: string, c: Choice)
    : Outcome
  {
    var (after, answer) := FinalizeTransfer(l, FinalizeOf(w.scheme, s, out, version), c.fate, c.accepted, c.version, c.reason);
    match OnFinalized(out, answer)
    case Ok(report) => Done(v, after, UploadedAs(s, report))
    case Err(e) => Fail(v, after, e)
  }

  function AcceptStep(w: World, v: Inputs.View, l: Ledger, s: Scope, verdict: string, failureCode: string,
                      manifest: seq<byte>, c: Choice): Outcome
  {
    match AcceptOf(w.scheme, s, verdict, failureCode, manifest)
    case Err(e) => Fail(v, l, e)
    case Ok(request) =>
      var (after, answer) := AcceptResult(l, request, c.fate, c.stageId);
      match OnAccepted(answer)
      case Ok(stage) => Done(v, after, AcceptedAs(s, stage))
      case Err(e) => Fail(v, after, e)
  }

  /** The effect of a route under the scope Control confirmed. */
  function ActStep(w: World, p: PodConfig, v: Inputs.View, l: Ledger, s: Scope, a: Action, c: Choice): Outcome
  {
    match a
    case GetScope => Done(v, l, ScopeIs(s, v.declared.Keys))
    case ReadInput(name) =>
      if name in v.bytes then Done(v, l, Served(v.bytes[name])) else Done(v, l, Declined(Problem.NotFound))
    case PutInput(name, body) => StageStep(w, v, l, name, body)
    case LoadInput(name) =>
      if name in v.handles then LoadStep(w, p, v, l, s, name, c) else Done(v, l, Declined(Problem.NotFound))
    case Upload(class_, mediaType, body) => BeginStep(w, v, l, s, class_, mediaType, body, c)
    case PostResult(verdict, failureCode, manifest) => AcceptStep(w, v, l, s, verdict, failureCode, manifest, c)
    case ModelRelay(_) => Done(v, l, Relayed(c.content))
    case Forward(_) => Done(v, l, Relayed(c.content))
    case UnknownRoute => Done(v, l, Declined(RouteForbidden))
  }

  /** The guard and the route's own checks. */
  function GuardStep(w: World, p: PodConfig, v: Inputs.View, socket: Socket, r: Request): (Pc, Option<string>) {
    match Guard(w.hmac, UidOf(p, socket), TokenOf(w, p, socket), r.peer, r.head)
    case Turn(f) => (Answered(Turned(f)), None)
    case Pass(proof) =>
      match Precheck(p, v, socket, r.action)
      case Some(f) => (Answered(Declined(f)), Some(proof))
      case None => (Waiting, Some(proof))
  }

  /** The decision: the clock is read here, after Control answered. */
  function DecideStep(p: PodConfig, reply: Result<Response, CallError>, now: nat, a: Action): Pc {
    match Resolve(p.id, BindingOf(p), reply, now, PurposeOf(a))
    case Err(e) => Answered(Denied(e))
    case Ok(scope) => Acting(scope)
  }

  /** One step of one request. */
  function StepOf(w: World, p: PodConfig, socket: Socket, r: Request, clock: nat, fact: Result<Response, CallError>,
                  v: Inputs.View, l: Ledger, c: Choice): Outcome
  {
    match r.pc
    case Offered => Outcome(if r.peer == Some(UidOf(p, socket)) then Open else Shut, v, l)
    case Open => Outcome(GuardStep(w, p, v, socket, r).0, v, l)
    case Waiting => Outcome(Looked(if c.lookupLost then Err(NoStatus) else fact), v, l)
    case Looked(reply) => Outcome(DecideStep(p, reply, clock, r.action), v, l)
    case Acting(s) => ActStep(w, p, v, l, s, r.action, c)
    case Putting(s, out, _) =>
      (match OnPut(c.stored)
       case Err(e) => Fail(v, l, e)
       case Ok(version) => Outcome(Finalizing(s, out, version), v, l))
    case Finalizing(s, out, version) => FinalizeStep(w, v, l, s, out, version, c)
    case Shut => Outcome(Shut, v, l)
    case Answered(a) => Outcome(Answered(a), v, l)
  }

  function ProofAfter(w: World, p: PodConfig, v: Inputs.View, socket: Socket, r: Request): Option<string> {
    if r.pc.Open? then GuardStep(w, p, v, socket, r).1 else r.proof
  }

  /** Control's answer about a Pod now; a Pod it does not know is not found. */
  function FactOf(s: State, pod: nat): Result<Response, CallError> {
    if pod in s.facts then s.facts[pod] else Err(Status(Code.NotFound, "NOT_FOUND"))
  }

  /** A step can be taken by a known request of a known Pod. */
  predicate Enabled(w: World, s: State, rid: Rid) {
    rid in s.requests && rid.pod < |w.pods| && rid.pod in s.pods
  }

  /** What a step changes: Control's ledger, its Pod and its request. */
  datatype Change = Change(ledger: Ledger, pod: PodState, request: Request)

  function ChangeOf(w: World, s: State, rid: Rid, c: Choice): Change
    requires Enabled(w, s, rid)
  {
    var r, p, pod := s.requests[rid], w.pods[rid.pod], s.pods[rid.pod];
    var o := StepOf(w, p, rid.socket, r, s.clock, FactOf(s, rid.pod), pod.inputs, s.ledger, c);
    Change(o.ledger, PodState(o.inputs, pod.announced || (r.pc.Looked? && o.pc.Acting?)),
           r.(pc := o.pc, proof := ProofAfter(w, p, pod.inputs, rid.socket, r)))
  }

  /** A change is its step's outcome. */
  lemma ChangeFollows(w: World, s: State, rid: Rid, c: Choice)
    requires Enabled(w, s, rid)
    ensures var o := StepOf(w, w.pods[rid.pod], rid.socket, s.requests[rid], s.clock, FactOf(s, rid.pod),
                            s.pods[rid.pod].inputs, s.ledger, c);
      var ch := ChangeOf(w, s, rid, c);
      ch.ledger == o.ledger && ch.request.pc == o.pc && ch.request.action == s.requests[rid].action
  {
  }

  function Update(s: State, rid: Rid, ch: Change): State {
    s.(ledger := ch.ledger, pods := s.pods[rid.pod := ch.pod], requests := s.requests[rid := ch.request])
  }

  function Apply(w: World, s: State, l: Label): State {
    match l
    case Tick(ticks) => s.(clock := s.clock + ticks)
    case Move(facts) => s.(facts := facts)
    case Arrive(rid, peer, head, action) =>
      if rid in s.requests || rid.pod >= |w.pods| then s
      else s.(requests := s.requests[rid := Request(peer, head, action, Offered, None)])
    case Step(rid, c) => if Enabled(w, s, rid) then Update(s, rid, ChangeOf(w, s, rid, c)) else s
  }

  /** One step of the system. */
  ghost predicate Goes(w: World, s: State, l: Label, t: State) { t == Apply(w, s, l) }

  /** A label moves one request with its Pod and the ledger, or leaves all of
      these alone but for a request that arrives. */
  lemma TwoKindsOfLabels(w: World, s: State, l: Label, t: State)
    requires Goes(w, s, l, t)
    ensures l.Step? && Enabled(w, s, l.rid) ==> t == Update(s, l.rid, ChangeOf(w, s, l.rid, l.choice))
    ensures !(l.Step? && Enabled(w, s, l.rid)) ==> Quiet(w, s, l, t)
  {
  }

  /** A request is new, as it was, or moved by a step of its own. */
  lemma OwnStepsOnly(w: World, s: State, l: Label, t: State, rid: Rid)
    requires Goes(w, s, l, t) && rid in t.requests
    ensures rid !in s.requests ==> t.requests[rid].pc.Offered?
    ensures rid in s.requests && t.requests[rid] != s.requests[rid] ==>
      && l.Step? && l.rid == rid && Enabled(w, s, rid)
      && t == Update(s, rid, ChangeOf(w, s, rid, l.choice))
  {
    TwoKindsOfLabels(w, s, l, t);
  }

  /** Time and Control are the environment's: from any state the clock moves on by
      any number of ticks, Control's answers become any others, and a new request of
      a known Pod arrives with whatever peer, headers and action. */
  lemma EnvironmentIsFree(w: World, s: State, ticks: nat, facts: map<nat, Result<Response, CallError>>, rid: Rid,
                          peer: Option<nat>, head: Head, action: Action)
    requires rid !in s.requests && rid.pod < |w.pods|
    ensures Apply(w, s, Tick(ticks)) == s.(clock := s.clock + ticks)
    ensures Apply(w, s, Move(facts)) == s.(facts := facts)
    ensures var t := Apply(w, s, Arrive(rid, peer, head, action));
      && t.requests.Keys == s.requests.Keys + {rid} && t.requests[rid] == Request(peer, head, action, Offered, None)
      && (forall q :: q in s.requests ==> t.requests[q] == s.requests[q])
  {
  }

  ghost predicate Quiet(w: World, s: State, l: Label, t: State) {
    && t.ledger == s.ledger && t.pods == s.pods && s.clock <= t.clock
    && (t.requests == s.requests
        || (l.Arrive? && l.rid !in s.requests && l.rid.pod < |w.pods|
            && t.requests == s.requests[l.rid := Request(l.peer, l.head, l.action, Offered, None)]))
  }

  /** The states a sequence of labels passes through. */
  ghost predicate IsRun(w: World, ls: seq<Label>, ss: seq<State>) {
    && |ss| == |ls| + 1
    && ss[0] == Init(w)
    && forall i {:trigger Goes(w, ss[i], ls[i], ss[i + 1])} :: 0 <= i < |ls| ==> Goes(w, ss[i], ls[i], ss[i + 1])
  }

  lemma StepAt(w: World, ls: seq<Label>, ss: seq<State>, i: nat)
    requires IsRun(w, ls, ss) && i < |ls|
    ensures Goes(w, ss[i], ls[i], ss[i + 1])
  {
  }

  /** Every sequence of labels has its run. */
  lemma {:induction false} RunsExist(w: World, ls: seq<Label>) returns (ss: seq<State>)
    ensures IsRun(w, ls, ss)
  {
    if ls == [] {
      ss := [Init(w)];
    } else {
      var init := ls[..|ls| - 1];
      var before := RunsExist(w, init);
      ss := before + [Apply(w, before[|before| - 1], ls[|ls| - 1])];
      forall i | 0 <= i < |ls| ensures Goes(w, ss[i], ls[i], ss[i + 1]) {
        if i < |init| {
          assert Goes(w, before[i], init[i], before[i + 1]);
        }
      }
    }
  }
}
