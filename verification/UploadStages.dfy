/** The stages of an upload, over whole runs: what is finalized is what was stored,
    and the interleaved upload is the sequential one. */
module UploadStages {
  import opened Outcomes
  import opened Protocol
  import opened Linearization
  import opened Control
  import opened UploadRuns
  import Actions
  import Authority
  import Inputs
  import Refusals

  // ---- What is finalized is what was stored ----

  /** The step with which a request's put was answered in the state. */
  ghost predicate PutAnswered(w: World, ls: seq<Label>, ss: seq<State>, p: nat, rid: Rid) {
    && p < |ls| && p < |ss| && ls[p].Step? && ls[p].rid == rid
    && rid in ss[p].requests && ss[p].requests[rid].pc.Putting?
  }

  lemma FinalizeComesFromPut(w: World, p: PodConfig, socket: Socket, r: Request, clock: nat,
                             fact: Result<Authority.Response, Refusals.CallError>, v: Inputs.View, l: Ledger, c: Choice)
    ensures var o := StepOf(w, p, socket, r, clock, fact, v, l, c);
      && (o.pc.Finalizing? <==>
            r.pc.Putting? && c.stored.Stored? && 200 <= c.stored.status <= 299 && c.stored.version != "")
      && (o.pc.Finalizing? ==> o.pc == Finalizing(r.pc.scope, r.pc.out, c.stored.version))
  {
    if r.pc.Finalizing? {
      FinalizeNeverPuts(w, v, l, r.pc.scope, r.pc.out, r.pc.version, c);
    } else if r.pc.Acting? {
      ActNeverFinalizes(w, p, v, l, r, c);
    }
  }

  lemma ActNeverFinalizes(w: World, p: PodConfig, v: Inputs.View, l: Ledger, r: Request, c: Choice)
    requires r.pc.Acting?
    ensures !ActStep(w, p, v, l, r.pc.scope, r.action, c).pc.Finalizing?
  {
  }

  lemma ChangeFinalizes(w: World, s: State, rid: Rid, c: Choice)
    requires Enabled(w, s, rid) && ChangeOf(w, s, rid, c).request.pc.Finalizing?
    ensures s.requests[rid].pc.Putting? && c.stored.Stored? && 200 <= c.stored.status <= 299 && c.stored.version != ""
    ensures ChangeOf(w, s, rid, c).request.pc == Finalizing(s.requests[rid].pc.scope, s.requests[rid].pc.out, c.stored.version)
  {
    ChangeFollows(w, s, rid, c);
    FinalizeComesFromPut(w, w.pods[rid.pod], rid.socket, s.requests[rid], s.clock, FactOf(s, rid.pod),
                         s.pods[rid.pod].inputs, s.ledger, c);
  }

  /** The begin a putting request owes its put to; nothing moved it since. */
  lemma {:induction false} BeginInstant(w: World, ls: seq<Label>, ss: seq<State>, n: nat, rid: Rid) returns (b: nat)
    requires IsRun(w, ls, ss) && n < |ss| && rid in ss[n].requests && ss[n].requests[rid].pc.Putting?
    ensures b < n && ComesToPut(ss, b, rid) && ss[b + 1].requests[rid] == ss[n].requests[rid]
  {
    OneStepBefore(w, ls, ss, n, rid);
    if ss[n - 1].requests[rid] == ss[n].requests[rid] {
      b := BeginInstant(w, ls, ss, n - 1, rid);
    } else {
      b := n - 1;
      StepAt(w, ls, ss, b);
      OwnStepsOnly(w, ss[b], ls[b], ss[n], rid);
      ChangeFollows(w, ss[b], rid, ls[b].choice);
      PutComesFromBegin(w, w.pods[rid.pod], rid.socket, ss[b].requests[rid], ss[b].clock, FactOf(ss[b], rid.pod),
                        ss[b].pods[rid.pod].inputs, ss[b].ledger, ls[b].choice);
    }
  }

  /** The answer of the put a finalizing request owes its version to. */
  lemma {:induction false} PutInstant(w: World, ls: seq<Label>, ss: seq<State>, n: nat, rid: Rid) returns (p: nat)
    requires IsRun(w, ls, ss) && n < |ss| && rid in ss[n].requests && ss[n].requests[rid].pc.Finalizing?
    ensures p < n && PutAnswered(w, ls, ss, p, rid)
    ensures var stored := ls[p].choice.stored;
      && stored.Stored? && 200 <= stored.status <= 299 && stored.version != ""
      && ss[n].requests[rid].pc.version == stored.version
    ensures ss[n].requests[rid].pc.out == ss[p].requests[rid].pc.out && ss[n].requests[rid].action == ss[p].requests[rid].action
  {
    OneStepBefore(w, ls, ss, n, rid);
    if ss[n - 1].requests[rid] == ss[n].requests[rid] {
      p := PutInstant(w, ls, ss, n - 1, rid);
    } else {
      p := n - 1;
      StepAt(w, ls, ss, p);
      OwnStepsOnly(w, ss[p], ls[p], ss[n], rid);
      ChangeFinalizes(w, ss[p], rid, ls[p].choice);
    }
  }

  /** Whoever is about to finalize has begun and put: it names the transfer its own
      begin answered and the version the store assigned to its own bytes. */
  lemma FinalizesWhatWasStored(w: World, ls: seq<Label>, ss: seq<State>, n: nat, rid: Rid) returns (b: nat, p: nat)
    requires IsRun(w, ls, ss) && n < |ss| && rid in ss[n].requests && ss[n].requests[rid].pc.Finalizing?
    ensures b < p < n && ComesToPut(ss, b, rid) && PutAnswered(w, ls, ss, p, rid)
    ensures ls[b].Step? && ss[b].requests[rid].pc.Acting? && ss[b].requests[rid].action.Upload?
    ensures BegunAnswer(w, ss[b], rid, ls[b].choice).Ok?
    ensures ss[n].requests[rid].pc.out.handle == BegunAnswer(w, ss[b], rid, ls[b].choice).value.row.handle
    ensures ss[n].requests[rid].action.Upload? && ss[p].requests[rid].pc.put.body == ss[n].requests[rid].action.body
    ensures ls[p].choice.stored.Stored? && 200 <= ls[p].choice.stored.status <= 299 && ls[p].choice.stored.version != ""
    ensures ss[n].requests[rid].pc.version == ls[p].choice.stored.version
  {
    p := PutInstant(w, ls, ss, n, rid);
    b := BeginInstant(w, ls, ss, p, rid);
    PutsUnderItsOwnCapability(w, ls, ss, b, rid);
    OwnBeginIsReported(w, ls, ss, b, rid);
  }

  lemma OwnBeginIsReported(w: World, ls: seq<Label>, ss: seq<State>, b: nat, rid: Rid)
    requires IsRun(w, ls, ss) && ComesToPut(ss, b, rid)
    requires ls[b].Step? && ls[b].rid == rid && ss[b].requests[rid].pc.Acting? && ss[b].requests[rid].action.Upload?
    ensures BegunAnswer(w, ss[b], rid, ls[b].choice).Ok?
    ensures ss[b + 1].requests[rid].pc.out.handle == BegunAnswer(w, ss[b], rid, ls[b].choice).value.row.handle
    ensures ss[b + 1].requests[rid].action == ss[b].requests[rid].action
  {
    StepAt(w, ls, ss, b);
    OwnStepsOnly(w, ss[b], ls[b], ss[b + 1], rid);
    ChangePuts(w, ss[b], rid, ls[b].choice);
  }

  /** Only a finalize finalizes, and under the version it names. */
  lemma OnlyFinalizesFinalize(w: World, p: PodConfig, socket: Socket, r: Request, clock: nat,
                              fact: Result<Authority.Response, Refusals.CallError>, v: Inputs.View, l: Ledger, c: Choice,
                              handle: string)
    ensures var o := StepOf(w, p, socket, r, clock, fact, v, l, c);
      IsFinalized(o.ledger, handle) && !IsFinalized(l, handle) ==>
        r.pc.Finalizing? && handle == r.pc.out.handle && o.ledger.rows[handle].objectVersion == r.pc.version
  {
    if r.pc.Acting? {
      ActFinalizesNothing(w, p, v, l, r, c, handle);
    }
  }

  lemma ActFinalizesNothing(w: World, p: PodConfig, v: Inputs.View, l: Ledger, r: Request, c: Choice, handle: string)
    requires r.pc.Acting?
    ensures IsFinalized(ActStep(w, p, v, l, r.pc.scope, r.action, c).ledger, handle) ==> IsFinalized(l, handle)
  {
    if r.action.Upload? {
      BeginFinalizesNothing(w, v, l, r, c, handle);
    } else if !r.action.PostResult? {
      OtherActsBeginNothing(w, p, v, l, r.pc.scope, r.action, c);
    }
  }

  lemma BeginFinalizesNothing(w: World, v: Inputs.View, l: Ledger, r: Request, c: Choice, handle: string)
    requires r.pc.Acting? && r.action.Upload?
    ensures var o := BeginStep(w, v, l, r.pc.scope, r.action.class_, r.action.mediaType, r.action.body, c);
      IsFinalized(o.ledger, handle) ==> IsFinalized(l, handle)
  {
  }

  ghost predicate IsFinalized(l: Ledger, handle: string) { handle in l.rows && l.rows[handle].state.Finalized? }

  /** In every run whatever transfer becomes finalized is finalized by a request of
      whose own begin it is the answer, under the version the store assigned to
      the put of that very request's bytes. */
  lemma FinalizedAsStored(w: World, ls: seq<Label>, ss: seq<State>, n: nat, handle: string) returns (b: nat, p: nat)
    requires IsRun(w, ls, ss) && n < |ls| && IsFinalized(ss[n + 1].ledger, handle) && !IsFinalized(ss[n].ledger, handle)
    ensures ls[n].Step? && ls[n].rid in ss[n].requests && ss[n].requests[ls[n].rid].action.Upload?
    ensures b < p < n && ComesToPut(ss, b, ls[n].rid) && PutAnswered(w, ls, ss, p, ls[n].rid)
    ensures ls[b].Step? && ss[b].requests[ls[n].rid].pc.Acting? && ss[b].requests[ls[n].rid].action.Upload?
    ensures BegunAnswer(w, ss[b], ls[n].rid, ls[b].choice).Ok?
    ensures BegunAnswer(w, ss[b], ls[n].rid, ls[b].choice).value.row.handle == handle
    ensures ss[p].requests[ls[n].rid].pc.put.body == ss[n].requests[ls[n].rid].action.body
    ensures ls[p].choice.stored.Stored? && ss[n + 1].ledger.rows[handle].objectVersion == ls[p].choice.stored.version
  {
    StepAt(w, ls, ss, n);
    TwoKindsOfLabels(w, ss[n], ls[n], ss[n + 1]);
    var s, rid, c := ss[n], ls[n].rid, ls[n].choice;
    ChangeFollows(w, s, rid, c);
    OnlyFinalizesFinalize(w, w.pods[rid.pod], rid.socket, s.requests[rid], s.clock, FactOf(s, rid.pod),
                          s.pods[rid.pod].inputs, s.ledger, c, handle);
    b, p := FinalizesWhatWasStored(w, ls, ss, n, rid);
  }

  // ---- The interleaved upload is the upload ----

  /** The calls' answers a run gave to one upload. */
  datatype Answers = Answers(begun: Result<Actions.BeginAnswer, Refusals.CallError>, stored: Actions.PutAnswer,
                             finalized: Result<Actions.Row, Refusals.CallError>)

  /** What the request's own finalize was answered in a state. */
  function FinalizedAnswer(w: World, s: State, rid: Rid, c: Choice): Result<Actions.Row, Refusals.CallError>
    requires rid in s.requests && s.requests[rid].pc.Finalizing?
  {
    var pc := s.requests[rid].pc;
    var f := Actions.FinalizeOf(w.scheme, pc.scope, pc.out, pc.version);
    FinalizeTransfer(s.ledger, f, c.fate, c.accepted, c.version, c.reason).1
  }

  /** The answers of the calls that step `b`, `p` and `n` of a request made, as far
      as it made them. */
  ghost predicate Answered3(w: World, ls: seq<Label>, ss: seq<State>, b: nat, p: nat, n: nat, rid: Rid, t: Answers) {
    && b <= p <= n < |ls| && n < |ss|
    && rid in ss[b].requests && ss[b].requests[rid].pc.Acting? && ss[b].requests[rid].action.Upload?
    && ls[b].Step? && ls[b].rid == rid && t.begun == BegunAnswer(w, ss[b], rid, ls[b].choice)
    && (b < p ==> PutAnswered(w, ls, ss, p, rid) && t.stored == ls[p].choice.stored)
    && (p < n ==> && ls[n].Step? && ls[n].rid == rid && rid in ss[n].requests && ss[n].requests[rid].pc.Finalizing?
                  && t.finalized == FinalizedAnswer(w, ss[n], rid, ls[n].choice))
  }

  /** How an upload ends: with its report or with the error of the action. */
  ghost predicate EndsWith(pc: Pc, s: Authority.Scope, result: Result<Actions.TransferReport, Refusals.ScopeError>) {
    pc == Answered(match result case Ok(report) => UploadedAs(s, report) case Err(e) => ActionError(e))
  }

  /** One step of an upload is one stage of the sequential one. */
  lemma BeginIsTheUploads(w: World, v: Inputs.View, l: Ledger, r: Request, c: Choice, t: Answers)
    requires r.pc.Acting? && r.action.Upload?
    requires var request := Actions.BeginRequestOf(w.scheme, r.pc.scope, r.action.class_, r.action.mediaType, r.action.body);
      t.begun == BeginTransfer(l, request, c.fate, c.row, c.upload).1
    ensures var a := r.action;
      var pc := BeginStep(w, v, l, r.pc.scope, a.class_, a.mediaType, a.body, c).pc;
      var result := Actions.UploadRun(w.scheme, r.pc.scope, a.class_, a.mediaType, a.body, t.begun, t.stored, t.finalized).0;
      if pc.Putting? then
        && pc.scope == r.pc.scope
        && (match Actions.OnPut(t.stored)
            case Err(e) => result == Err(e)
            case Ok(_) => result == Actions.OnFinalized(pc.out, t.finalized))
      else EndsWith(pc, r.pc.scope, result)
  {
  }

  /** In every run an upload ends exactly as the sequential upload ends on the
      answers its own calls were given, however its steps were interleaved: the
      begin of step `b`, the put answered in step `p` and the finalize of the last
      step, the later two as far as it got. */
  lemma EndsAsTheUpload(w: World, ls: seq<Label>, ss: seq<State>, n: nat, rid: Rid) returns (b: nat, p: nat, t: Answers)
    requires IsRun(w, ls, ss) && n < |ls| && rid in ss[n].requests && rid in ss[n + 1].requests
    requires ss[n].requests[rid].action.Upload? && ScopeIn(ss[n].requests[rid].pc).Some?
    requires !ss[n].requests[rid].pc.Answered? && ss[n + 1].requests[rid].pc.Answered?
    ensures Answered3(w, ls, ss, b, p, n, rid, t)
    ensures var a, s := ss[n].requests[rid].action, ss[n].requests[rid].pc.scope;
      EndsWith(ss[n + 1].requests[rid].pc, s,
               Actions.UploadRun(w.scheme, s, a.class_, a.mediaType, a.body, t.begun, t.stored, t.finalized).0)
  {
    StepAt(w, ls, ss, n);
    OwnStepsOnly(w, ss[n], ls[n], ss[n + 1], rid);
    var s, c := ss[n], ls[n].choice;
    match s.requests[rid].pc {
      case Acting(_) =>
        b, p := n, n;
        t := Answers(BegunAnswer(w, s, rid, c), Actions.TransportError, Err(Refusals.NoStatus));
        ChangeBegins(w, s, rid, c, t);
      case Putting(_, _, _) =>
        p := n;
        b := BeginInstant(w, ls, ss, n, rid);
        t := PutsAsTheUpload(w, ls, ss, b, n, rid, c.stored, Err(Refusals.NoStatus));
        ChangePutEnds(w, s, rid, c);
      case Finalizing(_, _, _) =>
        p := PutInstant(w, ls, ss, n, rid);
        b := BeginInstant(w, ls, ss, p, rid);
        t := PutsAsTheUpload(w, ls, ss, b, p, rid, ls[p].choice.stored, FinalizedAnswer(w, s, rid, c));
        ChangeFinalizeEnds(w, s, rid, c);
      case _ =>
    }
  }

  lemma ChangePutEnds(w: World, s: State, rid: Rid, c: Choice)
    requires Enabled(w, s, rid) && s.requests[rid].pc.Putting? && ChangeOf(w, s, rid, c).request.pc.Answered?
    ensures Actions.OnPut(c.stored).Err?
    ensures ChangeOf(w, s, rid, c).request.pc == Answered(ActionError(Actions.OnPut(c.stored).error))
  {
    ChangeFollows(w, s, rid, c);
  }

  lemma ChangeFinalizeEnds(w: World, s: State, rid: Rid, c: Choice)
    requires Enabled(w, s, rid) && s.requests[rid].pc.Finalizing?
    ensures EndsWith(ChangeOf(w, s, rid, c).request.pc, s.requests[rid].pc.scope,
                     Actions.OnFinalized(s.requests[rid].pc.out, FinalizedAnswer(w, s, rid, c)))
  {
    ChangeFollows(w, s, rid, c);
  }

  /** Where a put stands that began in step `b`. */
  lemma PutsAsTheUpload(w: World, ls: seq<Label>, ss: seq<State>, b: nat, p: nat, rid: Rid, stored: Actions.PutAnswer,
                        finalized: Result<Actions.Row, Refusals.CallError>) returns (t: Answers)
    requires IsRun(w, ls, ss) && b < p < |ss| && ComesToPut(ss, b, rid)
    requires rid in ss[p].requests && ss[p].requests[rid] == ss[b + 1].requests[rid]
    ensures ls[b].Step? && ls[b].rid == rid && ss[b].requests[rid].pc.Acting? && ss[b].requests[rid].action.Upload?
    ensures t == Answers(BegunAnswer(w, ss[b], rid, ls[b].choice), stored, finalized)
    ensures var a, pc := ss[p].requests[rid].action, ss[p].requests[rid].pc;
      a.Upload? &&
      var result := Actions.UploadRun(w.scheme, pc.scope, a.class_, a.mediaType, a.body, t.begun, stored, finalized).0;
      match Actions.OnPut(stored)
      case Err(e) => result == Err(e)
      case Ok(_) => result == Actions.OnFinalized(pc.out, finalized)
  {
    PutsUnderItsOwnCapability(w, ls, ss, b, rid);
    t := Answers(BegunAnswer(w, ss[b], rid, ls[b].choice), stored, finalized);
    StepAt(w, ls, ss, b);
    OwnStepsOnly(w, ss[b], ls[b], ss[b + 1], rid);
    ChangeBegins(w, ss[b], rid, ls[b].choice, t);
  }

  lemma ChangeBegins(w: World, s: State, rid: Rid, c: Choice, t: Answers)
    requires Enabled(w, s, rid) && s.requests[rid].pc.Acting? && s.requests[rid].action.Upload?
    requires t.begun == BegunAnswer(w, s, rid, c)
    ensures ChangeOf(w, s, rid, c).request.action == s.requests[rid].action
    ensures var r := s.requests[rid];
      var a, pc := r.action, ChangeOf(w, s, rid, c).request.pc;
      var result := Actions.UploadRun(w.scheme, r.pc.scope, a.class_, a.mediaType, a.body, t.begun, t.stored, t.finalized).0;
      if pc.Putting? then
        && pc.scope == r.pc.scope
        && (match Actions.OnPut(t.stored)
            case Err(e) => result == Err(e)
            case Ok(_) => result == Actions.OnFinalized(pc.out, t.finalized))
      else EndsWith(pc, r.pc.scope, result)
  {
    ChangeFollows(w, s, rid, c);
    BeginIsTheUploads(w, s.pods[rid.pod].inputs, s.ledger, s.requests[rid], c, t);
  }
}
