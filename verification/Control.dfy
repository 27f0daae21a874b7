/** What the sidecar relies on Control for: the contract of its begin,
    finalize and accept. Within it Control is free: every call carries the
    choice the environment makes, a refusal or a lost reply among them. */
module Control {
  import opened Outcomes
  import opened Refusals
  import opened Actions

  /** The command ids are scoped by tenant. */
  datatype CommandKey = CommandKey(tenant: string, id: string)

  datatype Known = Known(requestDigest: string, handle: string)

  /** The one result of an attempt, as first submitted. */
  datatype StageRow = StageRow(stageId: string, digest: string, verdict: string, failureCode: Option<string>)

  datatype Ledger = Ledger(begun: map<CommandKey, Known>, rows: map<string, Row>, stages: map<string, StageRow>)

  const EMPTY := Ledger(map[], map[], map[])

  /** What becomes of one call: refused before any effect, or carried out with
      its reply delivered or lost on the way. */
  datatype Fate = Refuse(error: CallError) | Carry(lost: bool)

  function Deliver<T>(fate: Fate, answer: Result<T, CallError>): Result<T, CallError> {
    if fate.Carry? && fate.lost then Err(NoStatus) else answer
  }

  const CONFLICT := Status(Aborted, "IDEMPOTENCY_CONFLICT: another request")

  /** BeginTransfer is idempotent by command: a known command answers its own
      transfer, a known id with another request conflicts, and a new command
      gets a handle no other transfer has. `row` and `upload` are Control's
      choice for a new transfer and for the capability. */
  function BeginTransfer(l: Ledger, request: BeginRequest, fate: Fate, row: Row, upload: Option<Capability>)
    : (Ledger, Result<BeginAnswer, CallError>)
  {
    var key := CommandKey(request.command.tenantId, request.command.commandId);
    if fate.Refuse? then (l, Err(fate.error))
    else if key in l.begun then
      if l.begun[key].requestDigest != request.command.requestDigest then (l, Deliver(fate, Err(CONFLICT)))
      else if l.begun[key].handle !in l.rows then (l, Deliver(fate, Err(NoStatus)))
      else (l, Deliver(fate, Ok(BeginAnswer(l.rows[l.begun[key].handle], true, upload))))
    else if row.handle in l.rows || !row.state.Begun? then (l, Err(NoStatus))
    else
      (l.(begun := l.begun[key := Known(request.command.requestDigest, row.handle)], rows := l.rows[row.handle := row]),
       Deliver(fate, Ok(BeginAnswer(row, false, upload))))
  }

  /** FinalizeTransfer moves a begun transfer to finalized, under the version the
      request names, or to rejected; neither state is ever left. What version a
      transfer that is not finalized just now shows is Control's choice. */
  function FinalizeTransfer(l: Ledger, request: FinalizeRequest, fate: Fate, accepted: bool, version: string, reason: string)
    : (Ledger, Result<Row, CallError>)
  {
    if fate.Refuse? then (l, Err(fate.error))
    else if request.handle !in l.rows then (l, Deliver(fate, Err(Status(NotFound, "NOT_FOUND"))))
    else
      var row := l.rows[request.handle];
      var state := if row.state.Finalized? || row.state.Rejected? then row.state else if accepted then Finalized else Rejected;
      var shown := if state.Finalized? && !row.state.Finalized? then request.objectVersion else version;
      var after := row.(state := state, objectVersion := shown, reasonCode := reason);
      (l.(rows := l.rows[request.handle := after]), Deliver(fate, Ok(after)))
  }

  function RowOf(request: AcceptRequest, stageId: string): StageRow {
    StageRow(stageId, request.resultDigest, request.verdict, request.failureCode)
  }

  /** AcceptResult records one result per attempt: the same digest re-enters the
      stage, another conflicts. */
  function AcceptResult(l: Ledger, request: AcceptRequest, fate: Fate, stageId: string)
    : (Ledger, Result<StageAnswer, CallError>)
  {
    if fate.Refuse? then (l, Err(fate.error))
    else if request.attemptId in l.stages then
      var stage := l.stages[request.attemptId];
      if stage.digest != request.resultDigest then (l, Deliver(fate, Err(CONFLICT)))
      else (l, Deliver(fate, Ok(StageAnswer(stage.stageId, stage.digest, true))))
    else
      (l.(stages := l.stages[request.attemptId := RowOf(request, stageId)]),
       Deliver(fate, Ok(StageAnswer(stageId, request.resultDigest, false))))
  }

  /** What every call keeps: each known command has a row of its own, known
      commands and accepted stages never change, finalized stays finalized. */
  ghost predicate LedgerInv(l: Ledger) {
    && (forall k :: k in l.begun ==> l.begun[k].handle in l.rows && l.rows[l.begun[k].handle].handle == l.begun[k].handle)
    && (forall j, k :: j in l.begun && k in l.begun && l.begun[j].handle == l.begun[k].handle ==> j == k)
  }

  ghost predicate Grows(l: Ledger, m: Ledger) {
    && (forall k :: k in l.begun ==> k in m.begun && m.begun[k] == l.begun[k])
    && (forall n :: n in l.rows ==> n in m.rows && (l.rows[n].state.Finalized? ==> m.rows[n].state.Finalized?))
    && (forall a :: a in l.stages ==> a in m.stages && m.stages[a] == l.stages[a])
  }

  lemma BeginKeeps(l: Ledger, request: BeginRequest, fate: Fate, row: Row, upload: Option<Capability>)
    requires LedgerInv(l)
    ensures var (m, answer) := BeginTransfer(l, request, fate, row, upload);
      var key := CommandKey(request.command.tenantId, request.command.commandId);
      && LedgerInv(m) && Grows(l, m) && m.stages == l.stages
      && (answer.Ok? ==> key in m.begun && m.begun[key] == Known(request.command.requestDigest, answer.value.row.handle))
      && (answer.Ok? && answer.value.row.state.Finalized? ==> m.rows[answer.value.row.handle].state.Finalized?)
      && (answer.Ok? ==> answer.value.row == m.rows[m.begun[key].handle])
  {
  }

  lemma FinalizeKeeps(l: Ledger, request: FinalizeRequest, fate: Fate, accepted: bool, version: string, reason: string)
    requires LedgerInv(l)
    ensures var (m, answer) := FinalizeTransfer(l, request, fate, accepted, version, reason);
      && LedgerInv(m) && Grows(l, m) && m.stages == l.stages && m.begun == l.begun
      && (answer.Ok? ==> request.handle in m.rows && answer.value == m.rows[request.handle])
  {
  }

  lemma AcceptKeeps(l: Ledger, request: AcceptRequest, fate: Fate, stageId: string)
    requires LedgerInv(l)
    ensures var (m, answer) := AcceptResult(l, request, fate, stageId);
      && LedgerInv(m) && Grows(l, m) && m.begun == l.begun && m.rows == l.rows
      && (answer.Ok? ==> request.attemptId in m.stages
                         && m.stages[request.attemptId].stageId == answer.value.stageId
                         && m.stages[request.attemptId].digest == answer.value.resultDigest == request.resultDigest)
      && (answer.Ok? && !answer.value.existing ==>
            request.attemptId !in l.stages && m.stages[request.attemptId] == RowOf(request, answer.value.stageId))
  {
  }

  lemma GrowsIsTransitive(l: Ledger, m: Ledger, n: Ledger)
    requires Grows(l, m) && Grows(m, n)
    ensures Grows(l, n)
  {
  }
}
