/** The three binders of the expert relays: a caller's request put under the
    confirmed scope. */
module Binders {
  import opened Outcomes
  import opened Bytes
  import opened Json
  import opened Authority

  /** Time in nanoseconds; a caller's deadline is absent, malformed or a time. */
  datatype Requested = Absent | Malformed | At(time: nat)

  const MILLISECOND: nat := 1_000_000

  /** `Truncate(time.Millisecond)`. */
  function Truncate(t: nat): (d: nat)
    ensures d <= t < d + MILLISECOND && d % MILLISECOND == 0
  {
    WholeMilliseconds(t);
    t - t % MILLISECOND
  }

  lemma WholeMilliseconds(t: nat)
    ensures t - t % 1_000_000 == 1_000_000 * (t / 1_000_000)
    ensures (t - t % 1_000_000) % 1_000_000 == 0
  {
    var k := t / 1_000_000;
    assert (1_000_000 * k) % 1_000_000 == 0;
  }

  datatype BindError = BadDeadline | NoActor

  /** The attempt's deadline unless the caller asked for an earlier one. */
  function Deadline(s: Scope, r: Requested): (d: Result<nat, BindError>)
    ensures d.Err? <==> r.Malformed?
    ensures d.Ok? ==> d.value <= s.deadline && (r.At? ==> d.value <= r.time)
    ensures d.Ok? ==> d.value == s.deadline || (r.At? && d.value == r.time)
  {
    match r
    case Absent => Ok(s.deadline)
    case Malformed => Err(BadDeadline)
    case At(t) => Ok(if t < s.deadline then t else s.deadline)
  }

  datatype CallRequest = CallRequest(commandId: string, grantId: string, grantRevision: string, rpc: string,
                                     arguments: seq<byte>, deadline: Requested)

  datatype BoundCall = BoundCall(tenantId: string, commandId: string, actorId: string, requestDigest: string,
                                 projectId: string, grantId: string, grantRevision: string, rpc: string,
                                 argumentDigest: string, arguments: seq<byte>, operationId: string, attemptId: string,
                                 instanceId: string, executionEpoch: string, deadline: nat)

  function RequestDigest(h: Hash, binding: seq<Member>, raw: seq<byte>): string
    requires |binding| >= 1
  {
    DigestOf(h, BoundPreimage(binding, raw))
  }

  lemma RequestDigestUnique(h: Hash, ms: seq<Member>, raw: seq<byte>, ks: seq<Member>, other: seq<byte>)
    requires |ms| >= 1 && |ks| >= 1
    ensures RequestDigest(h, ms, raw) == RequestDigest(h, ks, other) <==>
            (ms == ks && raw == other) || Collide(h, BoundPreimage(ms, raw), BoundPreimage(ks, other))
  {
    BoundPreimageUnique(ms, ks, raw, other);
    DigestOfTells(h, BoundPreimage(ms, raw), BoundPreimage(ks, other));
  }

  /** The seven scope strings, by key as json.Marshal orders a map. */
  function CallBinding(s: Scope): (ms: seq<Member>)
    ensures |ms| == 7
  {
    [Entry("actorId", s.actorId), Entry("attemptId", s.attemptId), Entry("executionEpoch", s.executionEpoch),
     Entry("instanceId", s.instanceId), Entry("operationId", s.operationId), Entry("projectId", s.projectId),
     Entry("tenantId", s.tenantId)]
  }

  /** What a call can be bound under: an actor and a deadline that is a time. */
  predicate Bindable(s: Scope, d: Requested) { s.actorId != "" && !d.Malformed? }

  function BindCall(h: Hash, s: Scope, r: CallRequest, raw: seq<byte>): (b: Result<BoundCall, BindError>)
    ensures b.Ok? <==> Bindable(s, r.deadline)
    ensures b.Ok? ==> b.value.requestDigest == RequestDigest(h, CallBinding(s), raw)
  {
    match Deadline(s, r.deadline)
    case Err(e) => Err(e)
    case Ok(deadline) =>
      if s.actorId == "" then Err(NoActor)
      else
        Ok(BoundCall(s.tenantId, "sidecar:" + s.instanceId + ":" + r.commandId, s.actorId,
                     RequestDigest(h, CallBinding(s), raw), s.projectId, r.grantId, r.grantRevision, r.rpc,
                     DigestOf(h, r.arguments), r.arguments, s.operationId, s.attemptId, s.instanceId, s.executionEpoch,
                     Truncate(deadline)))
  }

  datatype RelayRequest = RelayRequest(callId: string, routeId: string, content: seq<byte>, deadline: Requested)

  datatype BoundRelay = BoundRelay(callId: string, routeId: string, content: seq<byte>, tenantId: string,
                                   operationId: string, attemptId: string, instanceId: Option<string>,
                                   executionEpoch: string, requestDigest: string, deadline: nat)

  /** The relay's execution binding; an empty instance id is left out. */
  function RelayBinding(s: Scope): (ms: seq<Member>)
    ensures |ms| >= 4
  {
    [Entry("attemptId", s.attemptId), Entry("executionEpoch", s.executionEpoch)]
    + (if s.instanceId == "" then [] else [Entry("instanceId", s.instanceId)])
    + [Entry("operationId", s.operationId), Entry("tenantId", s.tenantId)]
  }

  function Bind(h: Hash, s: Scope, r: RelayRequest, raw: seq<byte>): (b: Result<BoundRelay, BindError>)
    ensures b.Ok? <==> !r.deadline.Malformed?
    ensures b.Ok? ==> b.value.requestDigest == RequestDigest(h, RelayBinding(s), raw)
  {
    match Deadline(s, r.deadline)
    case Err(e) => Err(e)
    case Ok(deadline) =>
      Ok(BoundRelay(r.callId, r.routeId, r.content, s.tenantId, s.operationId, s.attemptId,
                    if s.instanceId == "" then None else Some(s.instanceId), s.executionEpoch,
                    RequestDigest(h, RelayBinding(s), raw), Truncate(deadline)))
  }

  datatype SearchRequest = SearchRequest(snapshotId: string, query: string, maxContextItems: nat,
                                         retrievalProfileId: string, deadline: Requested)

  datatype BoundSearch = BoundSearch(tenantId: string, projectId: string, actorId: string, request: SearchRequest,
                                     deadline: nat)

  /** Unlike BindCall, the actor is asked for before the deadline is read. */
  function BindSearch(s: Scope, r: SearchRequest): Result<BoundSearch, BindError> {
    if s.actorId == "" then Err(NoActor)
    else
      match Deadline(s, r.deadline)
      case Err(e) => Err(e)
      case Ok(deadline) => Ok(BoundSearch(s.tenantId, s.projectId, s.actorId, r, Truncate(deadline)))
  }

  ghost predicate SameCallScope(s: Scope, t: Scope) {
    s.tenantId == t.tenantId && s.projectId == t.projectId && s.actorId == t.actorId && s.operationId == t.operationId
    && s.attemptId == t.attemptId && s.instanceId == t.instanceId && s.executionEpoch == t.executionEpoch
  }

  ghost predicate SameRelayScope(s: Scope, t: Scope) {
    s.tenantId == t.tenantId && s.operationId == t.operationId && s.attemptId == t.attemptId
    && s.instanceId == t.instanceId && s.executionEpoch == t.executionEpoch
  }

  lemma CallBindingUnique(s: Scope, t: Scope)
    ensures CallBinding(s) == CallBinding(t) <==> SameCallScope(s, t)
  {
    var p, q := CallBinding(s), CallBinding(t);
    if p == q {
      assert p[0] == q[0] && p[1] == q[1] && p[2] == q[2] && p[3] == q[3] && p[4] == q[4] && p[5] == q[5] && p[6] == q[6];
    }
  }

  lemma RelayBindingUnique(s: Scope, t: Scope)
    ensures RelayBinding(s) == RelayBinding(t) <==> SameRelayScope(s, t)
  {
    var p, q := RelayBinding(s), RelayBinding(t);
    if p == q {
      assert |p| == |q|;
      assert p[0] == q[0] && p[1] == q[1] && p[2] == q[2] && p[3] == q[3];
      assert |p| == 5 ==> p[4] == q[4];
    }
  }

  /** A tool call's request digest is the same for the same scope and bytes and
      differs as soon as either does, unless the two preimages collide. */
  lemma CallDigestBindsScopeAndBytes(h: Hash, s: Scope, r: CallRequest, raw: seq<byte>,
                                     t: Scope, q: CallRequest, other: seq<byte>)
    requires Bindable(s, r.deadline) && Bindable(t, q.deadline)
    ensures BindCall(h, s, r, raw).value.requestDigest == BindCall(h, t, q, other).value.requestDigest
       <==> (SameCallScope(s, t) && raw == other)
            || Collide(h, BoundPreimage(CallBinding(s), raw), BoundPreimage(CallBinding(t), other))
  {
    RequestDigestUnique(h, CallBinding(s), raw, CallBinding(t), other);
    CallBindingUnique(s, t);
  }

  /** The same for a model request, an absent instance included. */
  lemma RelayDigestBindsScopeAndBytes(h: Hash, s: Scope, r: RelayRequest, raw: seq<byte>,
                                      t: Scope, q: RelayRequest, other: seq<byte>)
    requires !r.deadline.Malformed? && !q.deadline.Malformed?
    ensures Bind(h, s, r, raw).value.requestDigest == Bind(h, t, q, other).value.requestDigest
       <==> (SameRelayScope(s, t) && raw == other)
            || Collide(h, BoundPreimage(RelayBinding(s), raw), BoundPreimage(RelayBinding(t), other))
  {
    RequestDigestUnique(h, RelayBinding(s), raw, RelayBinding(t), other);
    RelayBindingUnique(s, t);
  }

  /** The receiver can check what it gets: the digest is over the very identities
      the bound request carries and the caller's bytes. */
  lemma CallDigestIsOfItsOwnFields(h: Hash, s: Scope, r: CallRequest, raw: seq<byte>)
    requires Bindable(s, r.deadline)
    ensures var b := BindCall(h, s, r, raw).value;
      && b.requestDigest == RequestDigest(h,
           [Entry("actorId", b.actorId), Entry("attemptId", b.attemptId), Entry("executionEpoch", b.executionEpoch),
            Entry("instanceId", b.instanceId), Entry("operationId", b.operationId),
            Entry("projectId", b.projectId), Entry("tenantId", b.tenantId)], raw)
      && b.argumentDigest == DigestOf(h, b.arguments) && b.actorId != ""
      && b.commandId == "sidecar:" + b.instanceId + ":" + r.commandId
  {
  }

  lemma RelayDigestIsOfItsOwnFields(h: Hash, s: Scope, r: RelayRequest, raw: seq<byte>)
    requires !r.deadline.Malformed?
    ensures var b := Bind(h, s, r, raw).value;
      b.requestDigest == RequestDigest(h,
        [Entry("attemptId", b.attemptId), Entry("executionEpoch", b.executionEpoch)]
        + (if b.instanceId.None? then [] else [Entry("instanceId", b.instanceId.value)])
        + [Entry("operationId", b.operationId), Entry("tenantId", b.tenantId)], raw)
  {
  }

  /** A scope without an actor and a malformed deadline both refuse a call and a
      search; with both at once the call is blamed on the deadline and the search
      on the actor. */
  lemma WhoIsAskedFirst(h: Hash, s: Scope, r: CallRequest, raw: seq<byte>, q: SearchRequest)
    requires r.deadline == q.deadline
    ensures BindCall(h, s, r, raw).Ok? <==> BindSearch(s, q).Ok?
    ensures BindSearch(s, q).Ok? <==> Bindable(s, q.deadline)
    ensures BindSearch(s, q).Ok? ==> BindSearch(s, q).value.deadline == BindCall(h, s, r, raw).value.deadline
    ensures s.actorId == "" && q.deadline.Malformed? ==>
      BindCall(h, s, r, raw) == Err(BadDeadline) && BindSearch(s, q) == Err(NoActor)
  {
  }

  /** Never behind the attempt or the caller's own bound, and less than a
      millisecond before the earlier of the two. */
  ghost predicate EarlierOfBoth(d: nat, s: Scope, r: Requested) {
    && d <= s.deadline && (r.At? ==> d <= r.time)
    && d % MILLISECOND == 0
    && (s.deadline < d + MILLISECOND || (r.At? && r.time < d + MILLISECOND))
  }

  /** What all three binders bind a request to. */
  lemma BoundDeadline(h: Hash, s: Scope, call: CallRequest, relay: RelayRequest, search: SearchRequest, raw: seq<byte>)
    ensures Bindable(s, call.deadline) ==> EarlierOfBoth(BindCall(h, s, call, raw).value.deadline, s, call.deadline)
    ensures !relay.deadline.Malformed? ==> EarlierOfBoth(Bind(h, s, relay, raw).value.deadline, s, relay.deadline)
    ensures Bindable(s, search.deadline) ==> BindSearch(s, search).Ok?
    ensures Bindable(s, search.deadline) ==> EarlierOfBoth(BindSearch(s, search).value.deadline, s, search.deadline)
  {
  }

  /** Who speaks for what, in all three: the identities are the scope's and never the
      caller's word, everything else is the caller's own, unchanged. */
  lemma IdentitiesAreTheScopes(h: Hash, s: Scope, call: CallRequest, relay: RelayRequest, search: SearchRequest, raw: seq<byte>)
    ensures Bindable(s, call.deadline) ==> var b := BindCall(h, s, call, raw).value;
      && b.tenantId == s.tenantId && b.projectId == s.projectId && b.actorId == s.actorId
      && b.operationId == s.operationId && b.attemptId == s.attemptId && b.instanceId == s.instanceId
      && b.executionEpoch == s.executionEpoch
      && b.grantId == call.grantId && b.grantRevision == call.grantRevision && b.rpc == call.rpc
      && b.arguments == call.arguments && b.argumentDigest == DigestOf(h, call.arguments)
    ensures !relay.deadline.Malformed? ==> var b := Bind(h, s, relay, raw).value;
      && b.tenantId == s.tenantId && b.operationId == s.operationId && b.attemptId == s.attemptId
      && b.executionEpoch == s.executionEpoch
      && (if s.instanceId == "" then b.instanceId.None? else b.instanceId == Some(s.instanceId))
      && b.callId == relay.callId && b.routeId == relay.routeId && b.content == relay.content
    ensures Bindable(s, search.deadline) ==> BindSearch(s, search).Ok?
    ensures Bindable(s, search.deadline) ==> var b := BindSearch(s, search).value;
      && b.tenantId == s.tenantId && b.projectId == s.projectId && b.actorId == s.actorId && b.request == search
  {
  }
}
