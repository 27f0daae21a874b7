/** Uploads under retries, over whole runs: however often an upload is
    interrupted, repeated or raced by another Pod's, Control's idempotence and
    the command identities keep it one transfer. */
module UploadRuns {
  import opened Outcomes
  import opened Bytes
  import opened Commands
  import opened Protocol
  import opened Linearization
  import opened Control
  import Actions
  import Authority
  import Ended
  import Inputs
  import Refusals
  import Text

  /** An upload that has begun: its scope and what it reports so far. */
  ghost predicate Begun(pc: Pc) { pc.Putting? || pc.Finalizing? || (pc.Answered? && pc.answer.UploadedAs?) }

  function ReportIn(pc: Pc): Actions.TransferReport
    requires Begun(pc)
  {
    if pc.Answered? then pc.answer.report else pc.out
  }

  function CommandFor(w: World, s: Authority.Scope, a: Action): Command
    requires a.Upload?
  {
    w.scheme.command(s.tenantId, s.attemptId, Actions.TransferIssue(w.scheme, a.class_, a.mediaType, a.body))
  }

  function KeyFor(w: World, s: Authority.Scope, a: Action): CommandKey
    requires a.Upload?
  {
    var c := CommandFor(w, s, a);
    CommandKey(c.tenantId, c.commandId)
  }

  /** What Control's ledger knows of a begun upload: its command, under its own
      digest, with the handle it reports; finalized if it answered success, with
      the digest and the decimal size of its bytes. */
  ghost predicate Recorded(w: World, l: Ledger, r: Request) {
    Begun(r.pc) ==>
      && r.action.Upload? && KnownClass(r.action.class_) && ScopeIn(r.pc).Some?
      && var key := KeyFor(w, ScopeIn(r.pc).value, r.action);
         var report := ReportIn(r.pc);
         && key in l.begun
         && l.begun[key] == Known(CommandFor(w, ScopeIn(r.pc).value, r.action).requestDigest, report.handle)
         && Actions.Describes(w.scheme, r.action.class_, r.action.body, report)
         && (r.pc.Answered? ==> report.handle in l.rows && l.rows[report.handle].state.Finalized?
                                && report.state == "finalized")
  }

  ghost predicate AllRecorded(w: World, s: State) {
    LedgerInv(s.ledger) && forall rid :: rid in s.requests ==> Recorded(w, s.ledger, s.requests[rid])
  }

  ghost predicate LedgerMoves(l: Ledger, m: Ledger) { LedgerInv(m) && Grows(l, m) }

  lemma BeginStepRecords(w: World, v: Inputs.View, l: Ledger, r: Request, c: Choice)
    requires LedgerInv(l) && r.pc.Acting? && r.action.Upload?
    ensures var o := BeginStep(w, v, l, r.pc.scope, r.action.class_, r.action.mediaType, r.action.body, c);
      LedgerMoves(l, o.ledger) && Recorded(w, o.ledger, r.(pc := o.pc))
  {
    var a := r.action;
    if KnownClass(a.class_) {
      var request := Actions.BeginRequestOf(w.scheme, r.pc.scope, a.class_, a.mediaType, a.body);
      BeginKeeps(l, request, c.fate, c.row, c.upload);
      var (m, answer) := BeginTransfer(l, request, c.fate, c.row, c.upload);
      BegunRecords(w, m, r, answer, BeginStep(w, v, l, r.pc.scope, a.class_, a.mediaType, a.body, c).pc);
    }
  }

  /** What the begin's answer makes of the request is on record, if the answer is. */
  lemma BegunRecords(w: World, m: Ledger, r: Request, answer: Result<Actions.BeginAnswer, Refusals.CallError>, pc: Pc)
    requires r.pc.Acting? && r.action.Upload? && KnownClass(r.action.class_)
    requires answer.Ok? ==>
      var key, row := KeyFor(w, r.pc.scope, r.action), answer.value.row;
      && key in m.begun && m.begun[key] == Known(CommandFor(w, r.pc.scope, r.action).requestDigest, row.handle)
      && (row.state.Finalized? ==> row.handle in m.rows && m.rows[row.handle].state.Finalized?)
    requires match Actions.OnBegun(w.scheme, r.action.class_, r.action.body, answer)
             case Ended(Ok(report)) => pc == Answered(UploadedAs(r.pc.scope, report))
             case Ended(Err(_)) => !Begun(pc)
             case MustPut(out, put) => pc == Putting(r.pc.scope, out, put)
    ensures Recorded(w, m, r.(pc := pc))
  {
  }

  lemma AcceptStepRecords(w: World, v: Inputs.View, l: Ledger, r: Request, c: Choice)
    requires LedgerInv(l) && r.pc.Acting? && r.action.PostResult?
    ensures var o := AcceptStep(w, v, l, r.pc.scope, r.action.verdict, r.action.failureCode, r.action.manifest, c);
      LedgerMoves(l, o.ledger) && Recorded(w, o.ledger, r.(pc := o.pc))
  {
    var request := Actions.AcceptOf(w.scheme, r.pc.scope, r.action.verdict, r.action.failureCode, r.action.manifest);
    if request.Ok? {
      AcceptKeeps(l, request.value, c.fate, c.stageId);
    }
  }

  lemma FinalizeStepRecords(w: World, v: Inputs.View, l: Ledger, r: Request, c: Choice)
    requires LedgerInv(l) && r.pc.Finalizing? && Recorded(w, l, r)
    ensures var o := FinalizeStep(w, v, l, r.pc.scope, r.pc.out, r.pc.version, c);
      LedgerMoves(l, o.ledger) && Recorded(w, o.ledger, r.(pc := o.pc))
  {
    var request := Actions.FinalizeOf(w.scheme, r.pc.scope, r.pc.out, r.pc.version);
    FinalizeKeeps(l, request, c.fate, c.accepted, c.version, c.reason);
    var (m, answer) := FinalizeTransfer(l, request, c.fate, c.accepted, c.version, c.reason);
    RecordsStay(w, l, m, r);
    if Actions.OnFinalized(r.pc.out, answer).Ok? {
      FinalizedRecords(w, m, r, Actions.OnFinalized(r.pc.out, answer).value);
    }
  }

  /** A recorded upload whose row is finalized may answer success. */
  lemma FinalizedRecords(w: World, m: Ledger, r: Request, report: Actions.TransferReport)
    requires r.pc.Finalizing? && Recorded(w, m, r)
    requires r.pc.out.handle in m.rows && m.rows[r.pc.out.handle].state.Finalized?
    requires report == r.pc.out.(objectVersion := report.objectVersion, state := "finalized")
    ensures Recorded(w, m, r.(pc := Answered(UploadedAs(r.pc.scope, report))))
  {
  }

  lemma PutStepRecords(w: World, l: Ledger, r: Request, version: string)
    requires r.pc.Putting? && Recorded(w, l, r)
    ensures Recorded(w, l, r.(pc := Finalizing(r.pc.scope, r.pc.out, version)))
  {
  }

  /** What a step does to the record, by the arms of StepOf. */
  lemma StepRecords(w: World, p: PodConfig, socket: Socket, r: Request, clock: nat,
                    fact: Result<Authority.Response, Refusals.CallError>, v: Inputs.View, l: Ledger, c: Choice)
    requires LedgerInv(l) && Recorded(w, l, r)
    ensures var o := StepOf(w, p, socket, r, clock, fact, v, l, c);
      LedgerMoves(l, o.ledger) && Recorded(w, o.ledger, r.(pc := o.pc))
  {
    match r.pc {
      case Acting(_) => ActStepRecords(w, p, v, l, r, c);
      case Putting(_, _, _) =>
        if Actions.OnPut(c.stored).Ok? { PutStepRecords(w, l, r, Actions.OnPut(c.stored).value); }
      case Finalizing(_, _, _) => FinalizeStepRecords(w, v, l, r, c);
      case _ =>
    }
  }

  lemma ActStepRecords(w: World, p: PodConfig, v: Inputs.View, l: Ledger, r: Request, c: Choice)
    requires LedgerInv(l) && r.pc.Acting?
    ensures var o := ActStep(w, p, v, l, r.pc.scope, r.action, c);
      LedgerMoves(l, o.ledger) && Recorded(w, o.ledger, r.(pc := o.pc))
  {
    if r.action.Upload? {
      BeginStepRecords(w, v, l, r, c);
    } else if r.action.PostResult? {
      AcceptStepRecords(w, v, l, r, c);
    } else {
      OtherActsBeginNothing(w, p, v, l, r.pc.scope, r.action, c);
      NothingMoves(l);
    }
  }

  lemma OtherActsBeginNothing(w: World, p: PodConfig, v: Inputs.View, l: Ledger, s: Authority.Scope, a: Action, c: Choice)
    requires !a.Upload? && !a.PostResult?
    ensures var o := ActStep(w, p, v, l, s, a, c); o.ledger == l && !Begun(o.pc)
  {
  }

  lemma NothingMoves(l: Ledger)
    requires LedgerInv(l)
    ensures LedgerMoves(l, l)
  {
  }

  lemma ChangeRecords(w: World, s: State, rid: Rid, c: Choice)
    requires Enabled(w, s, rid) && LedgerInv(s.ledger) && Recorded(w, s.ledger, s.requests[rid])
    ensures var ch := ChangeOf(w, s, rid, c); LedgerMoves(s.ledger, ch.ledger) && Recorded(w, ch.ledger, ch.request)
  {
    var p, r, v, fact := w.pods[rid.pod], s.requests[rid], s.pods[rid.pod].inputs, FactOf(s, rid.pod);
    StepRecords(w, p, rid.socket, r, s.clock, fact, v, s.ledger, c);
    var o := StepOf(w, p, rid.socket, r, s.clock, fact, v, s.ledger, c);
    ChangeFollows(w, s, rid, c);
    var ch := ChangeOf(w, s, rid, c);
    SameRecord(w, o.ledger, r.(pc := o.pc), ch.request);
  }

  lemma SameRecord(w: World, l: Ledger, r: Request, q: Request)
    requires Recorded(w, l, r) && q.pc == r.pc && q.action == r.action
    ensures Recorded(w, l, q)
  {
  }

  lemma RecordsStay(w: World, l: Ledger, m: Ledger, r: Request)
    requires Recorded(w, l, r) && Grows(l, m)
    ensures Recorded(w, m, r)
  {
  }

  lemma LabelRecords(w: World, s: State, l: Label, t: State)
    requires Goes(w, s, l, t) && AllRecorded(w, s)
    ensures AllRecorded(w, t) && Grows(s.ledger, t.ledger)
  {
    TwoKindsOfLabels(w, s, l, t);
    if l.Step? && Enabled(w, s, l.rid) {
      ChangeRecords(w, s, l.rid, l.choice);
      UpdateRecords(w, s, l.rid, ChangeOf(w, s, l.rid, l.choice));
    } else {
      QuietRecords(w, s, l, t);
    }
  }

  lemma UpdateRecords(w: World, s: State, rid: Rid, ch: Change)
    requires AllRecorded(w, s) && LedgerMoves(s.ledger, ch.ledger) && Recorded(w, ch.ledger, ch.request)
    ensures AllRecorded(w, Update(s, rid, ch))
  {
    var t := Update(s, rid, ch);
    forall q | q in t.requests ensures Recorded(w, t.ledger, t.requests[q]) {
      if q != rid { RecordsStay(w, s.ledger, t.ledger, s.requests[q]); }
    }
  }

  lemma QuietRecords(w: World, s: State, l: Label, t: State)
    requires Quiet(w, s, l, t) && AllRecorded(w, s)
    ensures AllRecorded(w, t) && Grows(s.ledger, t.ledger)
  {
  }

  lemma {:induction false} EveryRunRecords(w: World, ls: seq<Label>, ss: seq<State>, n: nat)
    requires IsRun(w, ls, ss) && n < |ss|
    ensures AllRecorded(w, ss[n])
  {
    if n > 0 {
      EveryRunRecords(w, ls, ss, n - 1);
      StepAt(w, ls, ss, n - 1);
      LabelRecords(w, ss[n - 1], ls[n - 1], ss[n]);
    }
  }

  lemma {:induction false} LedgersGrow(w: World, ls: seq<Label>, ss: seq<State>, i: nat, j: nat)
    requires IsRun(w, ls, ss) && i <= j < |ss|
    ensures Grows(ss[i].ledger, ss[j].ledger)
    decreases j - i
  {
    if i < j {
      LedgersGrow(w, ls, ss, i, j - 1);
      EveryRunRecords(w, ls, ss, j - 1);
      StepAt(w, ls, ss, j - 1);
      LabelRecords(w, ss[j - 1], ls[j - 1], ss[j]);
      GrowsIsTransitive(ss[i].ledger, ss[j - 1].ledger, ss[j].ledger);
    }
  }

  /** A key names the tenant, attempt, class and the digest prefix of the bytes;
      the media type does not tell uploads apart. */
  lemma KeysNameUploads(w: World, h: Hash, s: Authority.Scope, a: Action, t: Authority.Scope, b: Action)
    requires Prints(w.scheme, h) && a.Upload? && b.Upload? && KnownClass(a.class_) && KnownClass(b.class_)
    ensures KeyFor(w, s, a) == KeyFor(w, t, b) <==>
      s.tenantId == t.tenantId && s.attemptId == t.attemptId && a.class_ == b.class_
      && w.scheme.digest(a.body)[7..39] == w.scheme.digest(b.body)[7..39]
  {
    var i := Actions.TransferIssue(w.scheme, a.class_, a.mediaType, a.body);
    var j := Actions.TransferIssue(w.scheme, b.class_, b.mediaType, b.body);
    TransfersAreIssuable(w.scheme, h, a.class_, a.mediaType, a.body);
    TransfersAreIssuable(w.scheme, h, b.class_, b.mediaType, b.body);
    assert CommandFor(w, s, a) == CommandOf(h, s.tenantId, s.attemptId, i);
    assert CommandFor(w, t, b) == CommandOf(h, t.tenantId, t.attemptId, j);
    if CommandId(s.attemptId, i) == CommandId(t.attemptId, j) {
      TransferIdDecodes(s.attemptId, i, t.attemptId, j);
    }
  }

  lemma TransfersAreIssuable(k: Scheme, h: Hash, class_: string, mediaType: string, body: seq<byte>)
    requires Prints(k, h) && KnownClass(class_)
    ensures Issuable(Actions.TransferIssue(k, class_, mediaType, body))
  {
    assert k.digest(body) == DigestOf(h, body);
    DigestShape(h, body);
  }

  lemma DigestShape(h: Hash, body: seq<byte>)
    ensures |DigestOf(h, body)| == 71 && Text.Lacks(DigestOf(h, body)[7..], ':')
  {
    var d := DigestOf(h, body);
    assert d[7..] == HexEncode(h(body));
    HexEncodeIsLowerHex(h(body));
  }

  /** Never two handles: any two uploads of one run that began, at any times and
      from any Pods, report the same handle exactly when they are of the same
      tenant, attempt, class and digest prefix; then their requests, media type
      and size included, were the same to Control. */
  lemma OneHandlePerUpload(w: World, h: Hash, ls: seq<Label>, ss: seq<State>, i: nat, a: Rid, j: nat, b: Rid)
    requires Prints(w.scheme, h) && IsRun(w, ls, ss) && i <= j < |ss|
    requires a in ss[i].requests && Begun(ss[i].requests[a].pc) && b in ss[j].requests && Begun(ss[j].requests[b].pc)
    ensures var x, y := ss[i].requests[a], ss[j].requests[b];
      && x.action.Upload? && y.action.Upload? && ScopeIn(x.pc).Some? && ScopeIn(y.pc).Some?
      && var s, t := ScopeIn(x.pc).value, ScopeIn(y.pc).value;
         && (ReportIn(x.pc).handle == ReportIn(y.pc).handle <==>
               s.tenantId == t.tenantId && s.attemptId == t.attemptId && x.action.class_ == y.action.class_
               && w.scheme.digest(x.action.body)[7..39] == w.scheme.digest(y.action.body)[7..39])
         && (ReportIn(x.pc).handle == ReportIn(y.pc).handle ==>
               CommandFor(w, s, x.action).requestDigest == CommandFor(w, t, y.action).requestDigest)
  {
    EveryRunRecords(w, ls, ss, i);
    EveryRunRecords(w, ls, ss, j);
    LedgersGrow(w, ls, ss, i, j);
    var x, y := ss[i].requests[a], ss[j].requests[b];
    assert Recorded(w, ss[i].ledger, x) && Recorded(w, ss[j].ledger, y);
    RecordsStay(w, ss[i].ledger, ss[j].ledger, x);
    KeysNameUploads(w, h, ScopeIn(x.pc).value, x.action, ScopeIn(y.pc).value, y.action);
  }

  /** No PUT once finalized: after one upload succeeded, no repeat of it, from
      whichever Pod, ever sends its bytes again. */
  lemma NoPutOnceFinalized(w: World, h: Hash, ls: seq<Label>, ss: seq<State>, i: nat, a: Rid, j: nat, b: Rid)
    requires Prints(w.scheme, h) && IsRun(w, ls, ss) && i <= j < |ls|
    requires a in ss[i].requests && ss[i].requests[a].pc.Answered? && ss[i].requests[a].pc.answer.UploadedAs?
    requires b in ss[j].requests && ss[j].requests[b].pc.Acting? && ss[j].requests[b].action.Upload?
    requires ss[i].requests[a].action.Upload?
    requires var s, t := ss[i].requests[a].pc.answer.scope, ss[j].requests[b].pc.scope;
      && s.tenantId == t.tenantId && s.attemptId == t.attemptId
      && ss[i].requests[a].action.class_ == ss[j].requests[b].action.class_
      && ss[i].requests[a].action.body == ss[j].requests[b].action.body
    ensures b in ss[j + 1].requests && !ss[j + 1].requests[b].pc.Putting?
  {
    FinalizedIsKnown(w, ls, ss, i, a, j);
    var x, y := ss[i].requests[a], ss[j].requests[b];
    KeysNameUploads(w, h, x.pc.answer.scope, x.action, y.pc.scope, y.action);
    NoPutInStep(w, ls, ss, j, b);
  }

  lemma FinalizedIsKnown(w: World, ls: seq<Label>, ss: seq<State>, i: nat, a: Rid, j: nat)
    requires IsRun(w, ls, ss) && i <= j < |ss|
    requires a in ss[i].requests && ss[i].requests[a].pc.Answered? && ss[i].requests[a].pc.answer.UploadedAs?
    requires ss[i].requests[a].action.Upload?
    ensures KnownClass(ss[i].requests[a].action.class_)
    ensures FinalizedUnder(ss[j].ledger, KeyFor(w, ss[i].requests[a].pc.answer.scope, ss[i].requests[a].action))
  {
    EveryRunRecords(w, ls, ss, i);
    LedgersGrow(w, ls, ss, i, j);
    assert Recorded(w, ss[i].ledger, ss[i].requests[a]);
  }

  /** The transfer known under this key is finalized. */
  ghost predicate FinalizedUnder(l: Ledger, key: CommandKey) {
    key in l.begun && l.begun[key].handle in l.rows && l.rows[l.begun[key].handle].state.Finalized?
  }

  lemma NoPutInStep(w: World, ls: seq<Label>, ss: seq<State>, j: nat, b: Rid)
    requires IsRun(w, ls, ss) && j < |ls|
    requires b in ss[j].requests && ss[j].requests[b].pc.Acting? && ss[j].requests[b].action.Upload?
    requires FinalizedUnder(ss[j].ledger, KeyFor(w, ss[j].requests[b].pc.scope, ss[j].requests[b].action))
    ensures b in ss[j + 1].requests && !ss[j + 1].requests[b].pc.Putting?
  {
    StepAt(w, ls, ss, j);
    TwoKindsOfLabels(w, ss[j], ls[j], ss[j + 1]);
    if ls[j].Step? && ls[j].rid == b && Enabled(w, ss[j], b) {
      FinalizedAnswersAtOnce(w, ss[j], b, ls[j].choice);
    }
  }

  lemma FinalizedAnswersAtOnce(w: World, s: State, rid: Rid, c: Choice)
    requires Enabled(w, s, rid) && s.requests[rid].pc.Acting? && s.requests[rid].action.Upload?
    requires FinalizedUnder(s.ledger, KeyFor(w, s.requests[rid].pc.scope, s.requests[rid].action))
    ensures !ChangeOf(w, s, rid, c).request.pc.Putting?
  {
  }

  // ---- One put per request ----

  /** The step with which a request comes to put. */
  ghost predicate ComesToPut(ss: seq<State>, n: nat, rid: Rid) {
    && n + 1 < |ss| && rid in ss[n].requests && rid in ss[n + 1].requests
    && !ss[n].requests[rid].pc.Putting? && ss[n + 1].requests[rid].pc.Putting?
  }

  /** What the request's own begin was answered in a state. */
  function BegunAnswer(w: World, s: State, rid: Rid, c: Choice): Result<Actions.BeginAnswer, Refusals.CallError>
    requires rid in s.requests && s.requests[rid].pc.Acting? && s.requests[rid].action.Upload?
  {
    var r := s.requests[rid];
    var request := Actions.BeginRequestOf(w.scheme, r.pc.scope, r.action.class_, r.action.mediaType, r.action.body);
    BeginTransfer(s.ledger, request, c.fate, c.row, c.upload).1
  }

  lemma BeginAnswersThePut(w: World, v: Inputs.View, l: Ledger, r: Request, c: Choice)
    requires r.pc.Acting? && r.action.Upload?
    ensures var o := BeginStep(w, v, l, r.pc.scope, r.action.class_, r.action.mediaType, r.action.body, c);
      var request := Actions.BeginRequestOf(w.scheme, r.pc.scope, r.action.class_, r.action.mediaType, r.action.body);
      var answer := BeginTransfer(l, request, c.fate, c.row, c.upload).1;
      o.pc.Putting? ==>
        && answer.Ok? && !answer.value.row.state.Finalized? && answer.value.upload.Some?
        && o.pc.out.handle == answer.value.row.handle
        && var cap := answer.value.upload.value;
           o.pc.put == Actions.PutRequest(cap.verb, cap.url, Actions.Headers(cap.headers), r.action.body)
  {
  }

  lemma PutComesFromBegin(w: World, p: PodConfig, socket: Socket, r: Request, clock: nat,
                          fact: Result<Authority.Response, Refusals.CallError>, v: Inputs.View, l: Ledger, c: Choice)
    ensures var o := StepOf(w, p, socket, r, clock, fact, v, l, c);
      && !(r.pc.Putting? && o.pc.Putting?)
      && (o.pc.Putting? ==> && r.pc.Acting? && r.action.Upload?
                            && o == BeginStep(w, v, l, r.pc.scope, r.action.class_, r.action.mediaType, r.action.body, c))
  {
    if r.pc.Finalizing? {
      FinalizeNeverPuts(w, v, l, r.pc.scope, r.pc.out, r.pc.version, c);
    }
  }

  lemma FinalizeNeverPuts(w: World, v: Inputs.View, l: Ledger, s: Authority.Scope, out: Actions.TransferReport,
                          version: string, c: Choice)
    ensures FinalizeStep(w, v, l, s, out, version, c).pc.Answered?
  {
  }

  /** In every run a request comes to put at most once. */
  lemma PutsOncePerRequest(w: World, ls: seq<Label>, ss: seq<State>, i: nat, j: nat, rid: Rid)
    requires IsRun(w, ls, ss) && i <= j && ComesToPut(ss, i, rid) && ComesToPut(ss, j, rid)
    ensures i == j
  {
    if i < j {
      Ended.PhasesGrow(w, ls, ss, i + 1, j, rid);
      Ended.PhasesGrow(w, ls, ss, j, j + 1, rid);
    }
  }

  /** And the put it comes to is of its own bytes, as the capability demands that
      its own begin was answered in that very step, of a transfer that is not
      finalized. */
  lemma PutsUnderItsOwnCapability(w: World, ls: seq<Label>, ss: seq<State>, n: nat, rid: Rid)
    requires IsRun(w, ls, ss) && ComesToPut(ss, n, rid)
    ensures ls[n].Step? && ls[n].rid == rid && ss[n].requests[rid].pc.Acting? && ss[n].requests[rid].action.Upload?
    ensures var answer := BegunAnswer(w, ss[n], rid, ls[n].choice);
      && answer.Ok? && !answer.value.row.state.Finalized? && answer.value.upload.Some?
      && var cap := answer.value.upload.value;
         ss[n + 1].requests[rid].pc.put
         == Actions.PutRequest(cap.verb, cap.url, Actions.Headers(cap.headers), ss[n].requests[rid].action.body)
  {
    StepAt(w, ls, ss, n);
    TwoKindsOfLabels(w, ss[n], ls[n], ss[n + 1]);
    if ls[n].Step? && Enabled(w, ss[n], ls[n].rid) && ls[n].rid == rid {
      ChangePuts(w, ss[n], rid, ls[n].choice);
    }
  }

  lemma ChangePuts(w: World, s: State, rid: Rid, c: Choice)
    requires Enabled(w, s, rid) && ChangeOf(w, s, rid, c).request.pc.Putting? && !s.requests[rid].pc.Putting?
    ensures s.requests[rid].pc.Acting? && s.requests[rid].action.Upload?
    ensures ChangeOf(w, s, rid, c).request.action == s.requests[rid].action
    ensures var answer := BegunAnswer(w, s, rid, c);
      && answer.Ok? && !answer.value.row.state.Finalized? && answer.value.upload.Some?
      && ChangeOf(w, s, rid, c).request.pc.out.handle == answer.value.row.handle
      && var cap := answer.value.upload.value;
         ChangeOf(w, s, rid, c).request.pc.put
         == Actions.PutRequest(cap.verb, cap.url, Actions.Headers(cap.headers), s.requests[rid].action.body)
  {
    var p, r, v, fact := w.pods[rid.pod], s.requests[rid], s.pods[rid.pod].inputs, FactOf(s, rid.pod);
    ChangeFollows(w, s, rid, c);
    PutComesFromBegin(w, p, rid.socket, r, s.clock, fact, v, s.ledger, c);
    BeginAnswersThePut(w, v, s.ledger, r, c);
  }
}
