/** The scoped actions against Control and the object store: upload, load and
    submit, as sequences of calls whose answers the environment gives. */
module Actions {
  import opened Outcomes
  import opened Bytes
  import opened Refusals
  import opened Authority
  import opened Commands
  import Decimal

  datatype TransferState = Begun | Finalized | Rejected | OtherTransfer(name: string)

  function StateText(s: TransferState): string {
    match s
    case Begun => "begun"
    case Finalized => "finalized"
    case Rejected => "rejected"
    case OtherTransfer(name) => name
  }

  /** Control's record of a transfer. */
  datatype Row = Row(handle: string, transferId: string, state: TransferState, objectVersion: string,
                     reasonCode: string)

  datatype Capability = Capability(url: string, verb: string, headers: map<string, string>)

  datatype BeginRequest = BeginRequest(command: Command, expectedDigest: string, expectedSize: string, mediaType: string,
                                       class_: string, operationId: string, attemptId: string, deadline: nat)

  datatype BeginAnswer = BeginAnswer(row: Row, existing: bool, upload: Option<Capability>)

  datatype PutRequest = PutRequest(verb: string, url: string, headers: map<string, string>, body: seq<byte>)

  /** The store's answer: a request that cannot be built, a transport error, or
      a status with the assigned version. */
  datatype PutAnswer = BadRequest | TransportError | Stored(status: nat, version: string)

  datatype FinalizeRequest = FinalizeRequest(command: Command, handle: string, objectVersion: string, instanceId: string)

  /** What the trusted harness is told of an upload. */
  datatype TransferReport = TransferReport(handle: string, transferId: string, class_: string, digest: string, sizeBytes: string,
                               objectVersion: string, state: string, existing: bool)

  datatype Effect = SentBegin(begin: BeginRequest) | SentPut(put: PutRequest) | SentFinalize(finalize: FinalizeRequest)

  const CONTENT_LENGTH := "content-length"

  function Lower(c: char): char { if 'A' <= c <= 'Z' then (c as int + 32) as char else c }

  function ToLower(s: string): string { seq(|s|, i requires 0 <= i < |s| => Lower(s[i])) }

  /** The headers of the capability but Content-Length, which the body sets. */
  function Headers(m: map<string, string>): map<string, string> {
    map k | k in m && ToLower(k) != CONTENT_LENGTH :: m[k]
  }

  /** Two names of one header: equal up to the case of their letters. */
  ghost predicate SameHeader(k: string, n: string) {
    |k| == |n| && forall i :: 0 <= i < |k| ==> Lower(k[i]) == Lower(n[i])
  }

  /** The capability's headers are sent as they are, all but Content-Length in
      whatever capitals. */
  lemma AllButContentLength(m: map<string, string>, k: string)
    ensures k in Headers(m) <==> k in m && !SameHeader(k, "Content-Length")
    ensures k in Headers(m) ==> Headers(m)[k] == m[k]
    ensures SameHeader("CONTENT-LENGTH", "Content-Length") && !SameHeader("Content-Type", "Content-Length")
  {
    var n := "Content-Length";
    assert ToLower(n) == CONTENT_LENGTH;
    if |k| == |n| {
      assert forall i :: 0 <= i < |k| ==> ToLower(k)[i] == Lower(k[i]) && ToLower(n)[i] == Lower(n[i]);
    }
    var u := "CONTENT-LENGTH";
    assert ToLower(u) == CONTENT_LENGTH;
    assert forall i :: 0 <= i < |u| ==> ToLower(u)[i] == Lower(u[i]) && ToLower(n)[i] == Lower(n[i]);
  }

  function TransferIssue(k: Scheme, class_: string, mediaType: string, body: seq<byte>): Issue {
    Issue.Transfer(class_, k.digest(body), mediaType, |body|)
  }

  function BeginRequestOf(k: Scheme, s: Scope, class_: string, mediaType: string, body: seq<byte>): BeginRequest {
    BeginRequest(k.command(s.tenantId, s.attemptId, TransferIssue(k, class_, mediaType, body)), k.digest(body),
                 Decimal.Print(|body|), mediaType, class_, s.operationId, s.attemptId, s.deadline)
  }

  /** What is known of a transfer once begin answered. */
  function ReportOf(k: Scheme, class_: string, body: seq<byte>, a: BeginAnswer): TransferReport {
    TransferReport(a.row.handle, a.row.transferId, class_, k.digest(body), Decimal.Print(|body|), "", "", a.existing)
  }

  /** The first step: the begin under the scope, or a refusal of the class. */
  function BeginOf(k: Scheme, s: Scope, class_: string, mediaType: string, body: seq<byte>)
    : (r: Result<BeginRequest, ScopeError>)
    ensures r.Ok? <==> KnownClass(class_)
    ensures r.Ok? ==> r.value == BeginRequestOf(k, s, class_, mediaType, body)
  {
    if !KnownClass(class_) then Err(Local(UnknownClass(class_))) else Ok(BeginRequestOf(k, s, class_, mediaType, body))
  }

  datatype AfterBegin = Ended(result: Result<TransferReport, ScopeError>) | MustPut(out: TransferReport, put: PutRequest)

  /** A report of these very bytes. */
  ghost predicate Describes(k: Scheme, class_: string, body: seq<byte>, t: TransferReport) {
    t.class_ == class_ && t.digest == k.digest(body) && t.sizeBytes == Decimal.Print(|body|)
  }

  function OnBegun(k: Scheme, class_: string, body: seq<byte>, answer: Result<BeginAnswer, CallError>): (a: AfterBegin)
    ensures a.Ended? && a.result.Ok? ==> answer.Ok? && answer.value.row.state.Finalized?
    ensures a.Ended? && a.result.Ok? ==> Describes(k, class_, body, a.result.value)
    ensures a.Ended? && a.result.Ok? ==> a.result.value.state == "finalized" && a.result.value.handle == answer.value.row.handle
    ensures a.MustPut? ==> answer.Ok? && !answer.value.row.state.Finalized? && answer.value.upload.Some?
    ensures a.MustPut? ==> Describes(k, class_, body, a.out) && a.out.handle == answer.value.row.handle
  {
    match answer
    case Err(e) => Ended(Err(Refusal(e)))
    case Ok(a) =>
      var out := ReportOf(k, class_, body, a);
      if a.row.state.Finalized? then Ended(Ok(out.(objectVersion := a.row.objectVersion, state := "finalized")))
      else if a.upload.None? || a.upload.value.url == "" then
        Ended(Err(Local(NoCapability(a.row.transferId, StateText(a.row.state)))))
      else MustPut(out, PutRequest(a.upload.value.verb, a.upload.value.url, Headers(a.upload.value.headers), body))
  }

  /** A put succeeds exactly with a 2xx answer and an assigned version. */
  function OnPut(answer: PutAnswer): (r: Result<string, ScopeError>)
    ensures r.Ok? <==> answer.Stored? && 200 <= answer.status <= 299 && answer.version != ""
    ensures r.Ok? ==> r.value == answer.version
    ensures r.Err? ==> r.error == DependencyUnavailable
  {
    match answer
    case Stored(status, version) =>
      if status < 200 || status > 299 || version == "" then Err(DependencyUnavailable) else Ok(version)
    case _ => Err(DependencyUnavailable)
  }

  function FinalizeOf(k: Scheme, s: Scope, out: TransferReport, version: string): FinalizeRequest {
    FinalizeRequest(k.command(s.tenantId, s.attemptId, Issue.Finalize(out.handle, version)), out.handle, version,
                    s.instanceId)
  }

  function OnFinalized(out: TransferReport, answer: Result<Row, CallError>): (r: Result<TransferReport, ScopeError>)
    ensures r.Ok? ==> answer.Ok? && answer.value.state.Finalized? && r.value.state == "finalized"
    ensures r.Ok? ==> r.value == out.(objectVersion := answer.value.objectVersion, state := "finalized")
  {
    match answer
    case Err(e) => Err(Refusal(e))
    case Ok(row) =>
      if row.state.Finalized? then Ok(out.(objectVersion := row.objectVersion, state := "finalized"))
      else Err(Local(RejectedTransfer(row.reasonCode, row.transferId)))
  }

  /** Client.put: exactly the request the capability authorizes. */
  method PutObject(capability: Capability, body: seq<byte>, answer: PutAnswer)
    returns (request: PutRequest, version: Result<string, ScopeError>)
    ensures request == PutRequest(capability.verb, capability.url, Headers(capability.headers), body)
    ensures version == OnPut(answer)
  {
    var headers: map<string, string> := map[];
    var rest := capability.headers.Keys;
    while rest != {}
      invariant rest <= capability.headers.Keys
      invariant headers == map k | k in capability.headers.Keys - rest && ToLower(k) != CONTENT_LENGTH :: capability.headers[k]
      decreases rest
    {
      var k :| k in rest;
      rest := rest - {k};
      if ToLower(k) == CONTENT_LENGTH {
        continue;
      }
      headers := headers[k := capability.headers[k]];
    }
    assert headers == Headers(capability.headers);
    request := PutRequest(capability.verb, capability.url, headers, body);
    match answer {
      case BadRequest => return request, Err(DependencyUnavailable);
      case TransportError => return request, Err(DependencyUnavailable);
      case Stored(status, objectVersion) =>
        if status < 200 || status > 299 { return request, Err(DependencyUnavailable); }
        if objectVersion == "" { return request, Err(DependencyUnavailable); }
        return request, Ok(objectVersion);
    }
  }

  /** A whole upload as the steps a protocol takes one at a time: its result and
      the calls it made. */
  function UploadRun(k: Scheme, s: Scope, class_: string, mediaType: string, body: seq<byte>,
                     begun: Result<BeginAnswer, CallError>, stored: PutAnswer, finalized: Result<Row, CallError>)
    : (Result<TransferReport, ScopeError>, seq<Effect>)
  {
    match BeginOf(k, s, class_, mediaType, body)
    case Err(e) => (Err(e), [])
    case Ok(b) =>
      match OnBegun(k, class_, body, begun)
      case Ended(result) => (result, [SentBegin(b)])
      case MustPut(out, request) =>
        match OnPut(stored)
        case Err(e) => (Err(e), [SentBegin(b)] + [SentPut(request)])
        case Ok(version) =>
          (OnFinalized(out, finalized),
           [SentBegin(b)] + [SentPut(request)] + [SentFinalize(FinalizeOf(k, s, out, version))])
  }

  function Puts(effects: seq<Effect>): seq<PutRequest> {
    if effects == [] then [] else PutIn(effects[0]) + Puts(effects[1..])
  }

  /** Of every upload, whatever the environment answers: a nil error means the
      transfer is finalized with the digest and the decimal size of these very
      bytes, as begin named it and with the version Control recorded last. */
  lemma UploadReportsItsBytes(k: Scheme, s: Scope, class_: string, mediaType: string, body: seq<byte>,
                              begun: Result<BeginAnswer, CallError>, stored: PutAnswer, finalized: Result<Row, CallError>)
    ensures var r := UploadRun(k, s, class_, mediaType, body, begun, stored, finalized).0;
      r.Ok? ==> && r.value.state == "finalized" && Describes(k, class_, body, r.value)
                && begun.Ok? && r.value.handle == begun.value.row.handle && r.value.transferId == begun.value.row.transferId
                && r.value.existing == begun.value.existing
                && r.value.objectVersion == (if begun.value.row.state.Finalized? then begun.value.row.objectVersion
                                             else if finalized.Ok? then finalized.value.objectVersion else "")
  {
  }

  /** When an upload succeeds, exactly: at once if the transfer is finalized, else
      after the put under the capability and the finalize both went through. */
  lemma UploadSucceedsExactly(k: Scheme, s: Scope, class_: string, mediaType: string, body: seq<byte>,
                              begun: Result<BeginAnswer, CallError>, stored: PutAnswer, finalized: Result<Row, CallError>)
    ensures UploadRun(k, s, class_, mediaType, body, begun, stored, finalized).0.Ok? <==>
            && KnownClass(class_) && begun.Ok?
            && (|| begun.value.row.state.Finalized?
                || (&& begun.value.upload.Some? && begun.value.upload.value.url != ""
                    && stored.Stored? && 200 <= stored.status <= 299 && stored.version != ""
                    && finalized.Ok? && finalized.value.state.Finalized?))
  {
  }

  /** An upload begins with the begin, of these bytes under the scope and until its
      deadline; only an unknown class sends nothing. */
  lemma UploadBeginsFirst(k: Scheme, s: Scope, class_: string, mediaType: string, body: seq<byte>,
                          begun: Result<BeginAnswer, CallError>, stored: PutAnswer, finalized: Result<Row, CallError>)
    ensures var effects := UploadRun(k, s, class_, mediaType, body, begun, stored, finalized).1;
      && (effects == [] <==> !KnownClass(class_))
      && (effects != [] ==>
            && effects[0].SentBegin?
            && var b := effects[0].begin;
               && b.expectedDigest == k.digest(body) && Decimal.Value(b.expectedSize) == |body|
               && b.mediaType == mediaType && b.class_ == class_ && b.operationId == s.operationId
               && b.attemptId == s.attemptId && b.deadline == s.deadline
               && b.command == k.command(s.tenantId, s.attemptId, Issue.Transfer(class_, k.digest(body), mediaType, |body|)))
  {
    Decimal.ValueOfPrint(|body|);
  }

  /** The finalize of an upload names the version the store assigned to the put and
      the transfer its own begin answered, and comes behind both. */
  lemma UploadFinalizeSays(k: Scheme, s: Scope, class_: string, mediaType: string, body: seq<byte>,
                           begun: Result<BeginAnswer, CallError>, stored: PutAnswer, finalized: Result<Row, CallError>,
                           f: FinalizeRequest)
    requires SentFinalize(f) in UploadRun(k, s, class_, mediaType, body, begun, stored, finalized).1
    ensures stored.Stored? && f.objectVersion == stored.version
    ensures begun.Ok? && f.handle == begun.value.row.handle
    ensures f.instanceId == s.instanceId
    ensures f.command == k.command(s.tenantId, s.attemptId, Issue.Finalize(begun.value.row.handle, stored.version))
    ensures var effects := UploadRun(k, s, class_, mediaType, body, begun, stored, finalized).1;
      |effects| == 3 && effects[1].SentPut? && effects[2] == SentFinalize(f)
  {
  }

  /** At most one PUT is sent, of these bytes and as the capability this run's
      own begin answered demands, and none once begin answers finalized. */
  lemma UploadPutsOnce(k: Scheme, s: Scope, class_: string, mediaType: string, body: seq<byte>,
                       begun: Result<BeginAnswer, CallError>, stored: PutAnswer, finalized: Result<Row, CallError>)
    ensures var puts := Puts(UploadRun(k, s, class_, mediaType, body, begun, stored, finalized).1);
      && |puts| <= 1
      && (puts != [] ==> begun.Ok? && !begun.value.row.state.Finalized? && begun.value.upload.Some?)
      && (puts != [] ==> puts[0] == PutRequest(begun.value.upload.value.verb, begun.value.upload.value.url,
                                               Headers(begun.value.upload.value.headers), body))
  {
    var b := BeginOf(k, s, class_, mediaType, body);
    if b.Ok? {
      PutsOfMore([], SentBegin(b.value));
      assert [] + [SentBegin(b.value)] == [SentBegin(b.value)];
      var after := OnBegun(k, class_, body, begun);
      if after.MustPut? {
        PutsOfMore([SentBegin(b.value)], SentPut(after.put));
        var version := OnPut(stored);
        if version.Ok? {
          PutsOfMore([SentBegin(b.value)] + [SentPut(after.put)], SentFinalize(FinalizeOf(k, s, after.out, version.value)));
        }
      }
    }
  }

  function PutIn(e: Effect): seq<PutRequest> { if e.SentPut? then [e.put] else [] }

  lemma {:induction false} PutsOfMore(effects: seq<Effect>, e: Effect)
    ensures Puts(effects + [e]) == Puts(effects) + PutIn(e)
  {
    if effects == [] {
      assert [] + [e] == [e] && [e][1..] == [];
    } else {
      PutsOfMore(effects[1..], e);
      Parts([effects[0]], effects[1..] + [e]);
      assert effects + [e] == [effects[0]] + (effects[1..] + [e]);
      Assoc(PutIn(effects[0]), Puts(effects[1..]), PutIn(e));
    }
  }

  /** Client.Upload against the answers the environment gives to its calls. */
  method Upload(k: Scheme, s: Scope, class_: string, mediaType: string, body: seq<byte>,
                begun: Result<BeginAnswer, CallError>, stored: PutAnswer, finalized: Result<Row, CallError>)
    returns (result: Result<TransferReport, ScopeError>, effects: seq<Effect>)
    ensures (result, effects) == UploadRun(k, s, class_, mediaType, body, begun, stored, finalized)
  {
    if !KnownClass(class_) {
      return Err(Local(UnknownClass(class_))), [];
    }
    var begin := SentBegin(BeginRequestOf(k, s, class_, mediaType, body));
    effects := [begin];
    if begun.Err? {
      return Err(Refusal(begun.error)), effects;
    }
    var t := begun.value.row;
    var out := ReportOf(k, class_, body, begun.value);
    if t.state.Finalized? {
      return Ok(out.(objectVersion := t.objectVersion, state := "finalized")), effects;
    }
    var up := begun.value.upload;
    if up.None? || up.value.url == "" {
      return Err(Local(NoCapability(t.transferId, StateText(t.state)))), effects;
    }
    var request, version := PutObject(up.value, body, stored);
    effects := effects + [SentPut(request)];
    if version.Err? {
      return Err(version.error), effects;
    }
    effects := effects + [SentFinalize(FinalizeOf(k, s, out, version.value))];
    if finalized.Err? {
      return Err(Refusal(finalized.error)), effects;
    }
    var ft := finalized.value;
    if !ft.state.Finalized? {
      return Err(Local(RejectedTransfer(ft.reasonCode, ft.transferId))), effects;
    }
    return Ok(out.(objectVersion := ft.objectVersion, state := StateText(ft.state))), effects;
  }

  datatype ParsedInt = NotAnInt | Int(value: int)

  /** `strconv.ParseInt(s, 10, 64)`. */
  function ParseInt(s: string): ParsedInt {
    var negative := s != [] && s[0] == '-';
    var digits := if s != [] && (s[0] == '-' || s[0] == '+') then s[1..] else s;
    if digits == [] || exists i :: 0 <= i < |digits| && !Decimal.IsDigit(digits[i]) then NotAnInt
    else
      assert Decimal.AllDigits(digits);
      var v: int := Decimal.Value(digits);
      if negative then if v <= 0x8000_0000_0000_0000 then Int(-v) else NotAnInt
      else if v < 0x8000_0000_0000_0000 then Int(v) else NotAnInt
  }

  /** The sizes Control prints are read back, up to the largest 64-bit integer. */
  lemma ParseIntOfPrint(n: nat)
    ensures ParseInt(Decimal.Print(n)) == if n < 0x8000_0000_0000_0000 then Int(n) else NotAnInt
  {
    var s := Decimal.Print(n);
    Decimal.DigitsAt(s);
    Decimal.ValueOfPrint(n);
  }

  /** What Control is asked for to load an input: the artifact, for this operation
      and instance. */
  datatype ReadRequest = ReadRequest(handle: string, operationId: string, instanceId: string, tenantId: string)

  function ReadOf(s: Scope, handle: string): ReadRequest { ReadRequest(handle, s.operationId, s.instanceId, s.tenantId) }

  datatype ReadAnswer = ReadAnswer(handle: string, transferId: string, class_: string, expectedSize: string,
                                   expectedDigest: string, download: Option<Capability>)

  /** The store's answer to the download: as for a put, with the body. */
  datatype Download = BadDownload | LostDownload | Downloaded(status: nat, body: seq<byte>, whole: bool)

  datatype Loaded = Loaded(handle: string, class_: string, digest: string, sizeBytes: nat, bytes: seq<byte>)

  /** Client.Load: what it hands out has the size and the digest Control
      recorded, and never more bytes than the bound. */
  function Load(k: Scheme, handle: string, maxBytes: nat, read: Result<ReadAnswer, CallError>, got: Download)
    : (r: Result<Loaded, ScopeError>)
    ensures r.Ok? ==> read.Ok? && |r.value.bytes| == r.value.sizeBytes
    ensures r.Ok? ==> k.digest(r.value.bytes) == r.value.digest == read.value.expectedDigest
    ensures r.Ok? && maxBytes > 0 ==> |r.value.bytes| <= maxBytes
    ensures r.Ok? ==> got.Downloaded? && r.value.bytes == got.body
    ensures r.Ok? ==> ParseInt(read.value.expectedSize) == Int(r.value.sizeBytes)
  {
    match read
    case Err(e) => Err(Refusal(e))
    case Ok(t) =>
      var size := ParseInt(t.expectedSize);
      if size.NotAnInt? || size.value < 0 then Err(DependencyUnavailable)
      else if maxBytes > 0 && size.value > maxBytes then
        Err(Local(AboveBound(handle, size.value, maxBytes)))
      else if t.download.None? || t.download.value.url == "" then Err(DependencyUnavailable)
      else if !got.Downloaded? || got.status != 200 || !got.whole then Err(DependencyUnavailable)
      else
        var body := if |got.body| > size.value + 1 then got.body[..size.value + 1] else got.body;
        if |body| != size.value || k.digest(body) != t.expectedDigest then
          Err(Local(OtherObject(handle)))
        else Ok(Loaded(t.handle, t.class_, t.expectedDigest, size.value, body))
  }

  /** When a load succeeds, exactly, and what it hands out. */
  lemma LoadSucceedsExactly(k: Scheme, handle: string, maxBytes: nat, read: Result<ReadAnswer, CallError>, got: Download)
    ensures Load(k, handle, maxBytes, read, got).Ok? <==>
            && read.Ok? && read.value.download.Some? && read.value.download.value.url != ""
            && got.Downloaded? && got.status == 200 && got.whole
            && ParseInt(read.value.expectedSize) == Int(|got.body|)
            && (maxBytes > 0 ==> |got.body| <= maxBytes)
            && k.digest(got.body) == read.value.expectedDigest
    ensures Load(k, handle, maxBytes, read, got).Ok? ==>
      var r := Load(k, handle, maxBytes, read, got).value;
      r.handle == read.value.handle && r.class_ == read.value.class_ && r.bytes == got.body
  {
  }

  datatype AcceptRequest = AcceptRequest(command: Command, attemptId: string, instanceId: string, profileId: string,
                                         verdict: string, failureCode: Option<string>, resultDigest: string,
                                         manifest: seq<byte>, executionEpoch: string)

  datatype StageAnswer = StageAnswer(stageId: string, resultDigest: string, existing: bool)

  /** An optional text: empty when none was given. */
  function Given(s: string): Option<string> { if s == "" then None else Some(s) }

  /** What is submitted is the caller's result under the scope: the verdict and the
      manifest as given, a failure code exactly when one was given. */
  function AcceptOf(k: Scheme, s: Scope, verdict: string, failureCode: string, manifest: seq<byte>)
    : (r: Result<AcceptRequest, ScopeError>)
    ensures r.Ok? <==> KnownVerdict(verdict)
    ensures r.Ok? ==> r.value.resultDigest == k.digest(manifest) && r.value.attemptId == s.attemptId
    ensures r.Ok? ==> r.value.verdict == verdict && r.value.manifest == manifest
    ensures r.Ok? ==> if failureCode == "" then r.value.failureCode == None else r.value.failureCode == Some(failureCode)
    ensures r.Ok? ==> && r.value.instanceId == s.instanceId && r.value.profileId == s.profileId
                      && r.value.executionEpoch == s.executionEpoch
    ensures r.Ok? ==> r.value.command == k.command(s.tenantId, s.attemptId, Issue.Accept(s.instanceId, k.digest(manifest), verdict))
  {
    if !KnownVerdict(verdict) then Err(Local(UnknownVerdict(verdict)))
    else
      var digest := k.digest(manifest);
      Ok(AcceptRequest(k.command(s.tenantId, s.attemptId, Issue.Accept(s.instanceId, digest, verdict)), s.attemptId,
                       s.instanceId, s.profileId, verdict, Given(failureCode), digest,
                       manifest, s.executionEpoch))
  }

  /** Control's stage is answered as it is, and its errors as every call's. */
  function OnAccepted(answer: Result<StageAnswer, CallError>): (r: Result<StageAnswer, ScopeError>)
    ensures r.Ok? <==> answer.Ok?
    ensures r.Ok? ==> r.value == answer.value
    ensures r.Err? ==> r.error == Refusal(answer.error)
  {
    match answer
    case Err(e) => Err(Refusal(e))
    case Ok(st) => Ok(st)
  }

  /** The command of every call binds what the call itself declares, so Control can
      hold a repeat against it: the digest, size and media type of a begin, the
      handle and version of a finalize, the digest and verdict of a result. */
  lemma CommandsBindTheirRequests(k: Scheme, s: Scope, class_: string, mediaType: string, body: seq<byte>,
                                  out: TransferReport, version: string, verdict: string, failureCode: string)
    ensures var b := BeginRequestOf(k, s, class_, mediaType, body);
      && Decimal.Value(b.expectedSize) == |body|
      && b.command == k.command(s.tenantId, b.attemptId,
                                Issue.Transfer(b.class_, b.expectedDigest, b.mediaType, Decimal.Value(b.expectedSize)))
    ensures var f := FinalizeOf(k, s, out, version);
      f.handle == out.handle && f.command == k.command(s.tenantId, s.attemptId, Issue.Finalize(f.handle, f.objectVersion))
    ensures AcceptOf(k, s, verdict, failureCode, body).Ok? ==>
      var a := AcceptOf(k, s, verdict, failureCode, body).value;
      && a.resultDigest == k.digest(a.manifest)
      && a.command == k.command(s.tenantId, a.attemptId, Issue.Accept(a.instanceId, a.resultDigest, a.verdict))
  {
    Decimal.ValueOfPrint(|body|);
  }
}
