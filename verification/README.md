# Job access sidecar: a verified model

The sidecar stands between a Job Pod and Control. It confirms the execution
authority of its registration before every protected request, stages and serves
the declared inputs, uploads artifacts, submits the result, relays model, tool and
knowledge requests under the confirmed scope, and rotates its workload identity
while connections come and go. The project models this logic in Dafny and proves
what it promises, over every interleaving where it is concurrent.

The whole project is checked by `dafny verify dfyconfig.toml`.

## How the model is built

**The execution-authority protocol.** `Protocol` is one transition system. Every
request is a small program: accepted, guarded, waiting for Control, looked up,
decided, acting (with the put and the finalize of an upload as steps of their own),
answered. Any number of requests on both sockets of any number of Pods interleave
with each other, with a clock that only moves forward, and with Control, which may
answer anything, refuse, or lose a reply. A run is a sequence of labels with the
states it passes; the main results are lemmas over all runs:

- `Linearization`: every grant has an instant of its own at which Control's records
  of the launch its envelope names, and both deadlines, carried it; the decision is
  exact in both directions; reading the clock first would break this.
- `Ended`: what Control once ended stays refused, whatever happened before.
- `Admission`: nothing happens before the peer, the nonce and the token were checked,
  and whatever passes them on a route of its socket is asked of Control.
- `ServedInputs`: served bytes are the declared bytes.
- `Staging`: what is answered as staged is held, and what is held is served.
- `ResultAgreement`: all successful result answers of an attempt agree.
- `UploadRuns`: retried and racing uploads are one transfer, and are never put again
  once finalized.
- `UploadStages`: what is finalized is what was stored, and the interleaved upload is
  the sequential one.
- `Effects`: every effect has its authority, refused requests leave nothing behind,
  and a failed action may have acted.
- `Erasure`: a two-run simulation; candidate requests leave no trace on the trusted side.

Beneath are the pieces with state or parsing of their own: `Authority`, `Refusals`,
`Actions`, `Control` (the environment contract), `Commands`, `Aliasing`, `Binders`, `Json`,
`Envelope`, `Inputs`, `Peer`, `Sockets`, and the small `Text`, `Decimal`, `Bytes`,
`Outcomes`.

**The workload-identity rotation machine.** `Material` parses and frames the files,
`Tracker` is the nested map of connections and its flat meaning, `Reloader` is the
polled reloader as a class, `Rotation` the transition system of overlapping polls
with torn reads, publications, callbacks, handshakes and closes, `RotationReads` where
a published material was read, `RotationSafety` what every run keeps, and
`RotationRace` the runs that show the limits of both.

**Encoders, parsers and the copier.** `Spiffe` and `Authz` are the identity grammar
and the method policy; `Relay` is the buffered reader and the copy loop of the event
stream.

SHA-256 and HMAC-SHA256 are parameters: any functions of the right shape. No result
takes them to be injective, for with 32 bytes for every input none can be: where one
rests on different inputs having different images, it names the two inputs that would
have to collide. Times are natural numbers (nanoseconds where the millisecond floor
matters), strings are sequences of Unicode characters.

What Control is relied on for is written out in `Control`: begin is idempotent by
command and request digest and gives each new command a handle of its own, a finalize
finalizes under the version it names and finalized is never left, and an attempt has
one accepted stage. A new transfer starts in the
state begun, as the sidecar's own double of Control has it. It follows what the sidecar says
it relies on (internal/scope/scope.go:373-379 and 512-519) and the answers of
`fakeControl` (internal/app/app_test.go:115-205), which tells uploads apart by class
and digest only. The monotonicity that `Ended` needs is its predicate `Advances`.

## Where the code and its words differ

The model follows the code. Each difference has a lemma.

- The comment on `ForResult` (internal/scope/scope.go:123-129) reads as if a terminal
  or reconciling operation always refused a result. A control intent masks that test:
  `Authority.ResultUnderFence` gives the exact condition,
  `Authority.TerminalOperationCanGrantAResult` an instance.
- A locally raised refusal that begins with INVALID_ARGUMENT is answered 409, not
  400, for its text is longer than the code: `Refusals.LocalRefusalsConflict`.
- "Equal digests mean nothing changed" (internal/identity/material.go:34) holds of
  three files exactly when none of them holds a NUL byte, because each file is closed
  by a NUL instead of being measured: `Material.FramingIsUniqueExactlyWithoutNuls`.
  Every content with a NUL byte can so be missed, under some decoders, by all polls
  while other files, with other roots, stay in force:
  `Reloader.ContentWithNulCanBeMissed`.
- "Retiring a CA from the bundle closes the connections it had verified"
  (internal/identity/credentials.go:103-104) does not hold of a handshake that spans
  the publication and its callback: `RotationRace.HandshakeAcrossARotation`. Exactly
  such late adds are the exceptions:
  `RotationSafety.SettledIsTrustedExactlyWithoutLateAdds`.
- The relay flushes behind a one-byte slice, so behind a blank line that is a bare
  newline. An event may also end with a carriage return, alone or in front of the
  newline (section 9.2.5 of the WHATWG HTML Standard); behind such a blank line, while
  the stream goes on, nothing is flushed until more is read:
  `Relay.BlankLinesAreFlushedExactlyWhenBare`, `Relay.CrLfEventWaits`.
- "Parses the complete URI strictly" (internal/identity/spiffe.go:44-46) is said of a
  record that has already lost what was written: a scheme in capitals, a
  percent-encoded path and the mark of an empty query or fragment all pass, for every
  principal (`Spiffe.OtherTextsAreTaken`), and nothing else does
  (`Spiffe.TextIsCanonicalExactly`).
- Ids may hold colons, so a command id alone can be ambiguous. A progress id names its
  node, round and state exactly if none of them holds a colon
  (`Aliasing.ProgressIdsNameTheirPartsExactly`, over all arguments of the client), and
  among what the route lets through exactly if it can be cut in one place only
  (`Aliasing.ReceivedIdsNameTheirPartsExactly`, `Aliasing.ReceivedIdsAlias`); two attempts share a command id exactly
  if one id goes on behind the other with ":fin" or ":progress", alone or with a colon
  and more (`Aliasing.AttemptsShareAnIdExactly`), and the envelope takes such ids
  (`Aliasing.AttemptsAlias`). The digest tells the commands apart:
  `Commands.CommandsNeverReplayAnother`.

## Model

| member | source | states |
|---|---|---|
| Authority.Confirm | internal/scope/scope.go:136-183 | a grant is exactly the design's authority before both deadlines; the deadline error is exactly authority out of time; unavailable only for missing or mismatched records |
| Authority.Resolve | internal/scope/scope.go:331-340 | a granted scope names the envelope's operation, attempt, profile, epoch and launch key, is current and is the looked-up registration's |
| Authority.LookupFails | internal/scope/scope.go:298-311 | unregistered exactly for a status of not found; every other error is what any call makes of it; an answer of another Pod, launch or backend is unavailable |
| Authority.GrantedScopeIsControlsRecord | internal/scope/scope.go:308-324 | a granted scope is Control's record of this very Pod, with no zero value of an absent message in it |
| Authority.GrantsAreMonotone | internal/scope/scope.go:160-182 | a grant for new authorization is one for results, a grant now is one at every earlier time |
| Authority.PurposesDifferExactly | internal/scope/scope.go:160-175 | of what is granted for a result, new authorization refuses exactly accepted results and controlled operations |
| Authority.ResultUnderFence | internal/scope/scope.go:168-175 | under a fence a result is granted if and only if a control intent is set |
| Authority.TerminalOperationCanGrantAResult | internal/scope/scope.go:123-129 | a terminal operation that still grants a result, against the comment |
| Authority.EpochTextsAreNumbers | internal/scope/scope.go:153-167 | the execution and launch epochs agree as texts exactly if they do as numbers, and a grant has them all agree |
| Refusals.RefusalCodeRoundTrip | internal/scope/scope.go:272-293 | for every status and message: the seven statuses that refuse carry the trimmed text before the first colon as public code, to an action as 400 iff it is INVALID_ARGUMENT and else 409, to a scope as 403; every other status carries nothing and is unavailable |
| Refusals.MessageShape | internal/scope/scope.go:279-280 | every message decomposes as the round trip needs, so it covers all |
| Refusals.LocalRefusalsConflict | internal/server/server.go:702-714 | every refusal raised in the sidecar is answered 409 with its whole text |
| Commands.DigestCollisionsAreHashCollisions | internal/scope/scope.go:347 | digest texts collide exactly where the hash does |
| Refusals.CodeOfRefusal | internal/scope/scope.go:287-293 | the code cut out of a refusal is its text, even if the text holds the mark again |
| Linearization.EveryGrantHasItsInstant | internal/scope/scope.go:331-340 | in every run each granted request was waiting for Control at an instant when the records and both deadlines granted this very scope |
| Linearization.EveryGrantNamesItsEnvelope | internal/app/app.go:116-122 | the same in the envelope's own fields: at that instant attempt, operation, profile, launch key, execution epoch and launch epoch were those of the envelope, the action was permitted in time, and it acts under these records' scope |
| Linearization.ActsExactly | internal/scope/scope.go:136-183 | a decision acts if and only if Control answered records with those fields that permit the action now, and under their scope, field by field |
| Linearization.AuthorizedRequestsAct | internal/scope/scope.go:331-340 | so, in every run, of a request that decides |
| Linearization.DenialsSayWhy | internal/server/server.go:678-700 | what the client is told of every decision that does not act, and when to retry |
| Linearization.AnnouncedExactlyOnceGranted | internal/app/app.go:36-49 | a Pod has announced its scope exactly once one of its requests has been granted it |
| Linearization.LookupInstant | internal/scope/scope.go:298-325 | the answer a request decides on is Control's answer at an instant inside its own window |
| Linearization.OnlyResultsOutliveAcceptance | internal/server/server.go:571-603 | after acceptance the routes of results are granted and every other one is stale |
| Effects.EveryEffectHasItsAuthority | internal/server/server.go:469-676 | in every run whatever changes Control's ledger or a Pod's inputs is a step of a request with its own earlier instant of authority |
| Effects.RefusedRequestsLeaveNothing | internal/server/server.go:678-714 | a request turned away, declined or denied changed nothing in any of its steps |
| Effects.RetriesFollowNoEffect | internal/server/server.go:680-700 | a request answered with an invitation to retry changed nothing in any of its steps |
| Effects.LostReplyIsAFailureThatActed | internal/scope/scope.go:534-541 | a submission whose reply is lost is answered unavailable although Control recorded the stage |
| Linearization.ClockFirstWouldGrantTooLate | internal/app/app_test.go:1263-1330 | sampling the clock before the lookup would grant past a deadline |
| Ended.EndedScopesStayEnded | internal/scope/scope.go:153-167 | of a Control whose epochs only grow: once the attempt is closed, the launch, attempt or operation epoch moved past the envelope's, or the instance superseded, no request that looks up later is ever granted, of either purpose, on either socket |
| Ended.TerminalEndsNewAuthorization | internal/scope/scope.go:168-175 | a terminal operation ends all new authorization for good |
| Ended.AcceptanceEndsNewAuthorization | internal/scope/scope.go:160-164 | so does an accepted result: no later lookup of the Pod grants anything but a result |
| Ended.EndedRecordsGrantNothing | internal/scope/scope.go:146-167 | records that end a scope, and all later ones, hold no authority |
| Ended.PhasesGrow | internal/server/server.go:469-676 | no request ever goes back a step |
| Protocol.TwoKindsOfLabels | internal/server/server.go:228-254 | a step moves one request, its Pod and Control's ledger; every other label leaves them alone |
| Protocol.RunsExist | internal/server/server.go:469-676 | every interleaving is a run |
| Protocol.EnvironmentIsFree | internal/app/app_test.go:115-147 | the runs are all of them: time, Control's answers and arrivals are unrestricted |
| Admission.AdmissionBeforeEffect | internal/server/server.go:228-254 | whatever changes Control or a Pod's inputs, or asks Control, is a step of a request with the right UID, nonce, token and route |
| Admission.TakenExactly | internal/sockets/sockets.go:86-102 | a connection is taken exactly with the UID of its socket |
| Admission.AsksExactly | internal/server/server.go:228-273 | Control is asked exactly for admitted requests on a route of their socket that the route takes; without a route they are forbidden |
| Admission.NotTakenSaysWhy | internal/server/server.go:481-592 | what each route answers to what it does not take |
| Admission.ProofExactlyPastTheGuard | internal/server/server.go:225-252 | an answer carries the proof of its own nonce if and only if the guard passed; the internal error is never answered |
| Admission.RequestsAreAdmitted | internal/server/server.go:228-273 | the invariant of every request behind both |
| ServedInputs.EveryRunIsHonest | internal/server/server.go:275-296 | in every state bytes are held for declared names only, of the declared digest and within the bound, and every served answer is such bytes |
| ServedInputs.StagedTotalIsBounded | internal/envelope/envelope.go:110-119 | a Pod never holds more than 64 times the input bound |
| ServedInputs.StagedStays | internal/server/server.go:85-98 | a staged name stays staged, and with the same bytes or bytes that collide with them |
| ServedInputs.ReadsAgree | internal/server/server.go:279-296 | any two reads of a name the envelopes declare alike served the same bytes, or two that collide |
| Staging.StagedIsServed | internal/server/server.go:279-296 | once a put or load was answered as staged, every granted read of the name that acts later on the Pod is served those bytes, or bytes that collide, never not found |
| Staging.AnsweredStagedWasStaged | internal/server/server.go:481-525 | whoever was answered that an input is staged had exactly its bytes recorded under its name by a step of its own |
| Staging.PutsAreTakenExactly | internal/server/server.go:481-496 | a granted put is taken if and only if the envelope declares the name with the digest of the body, and else changes nothing |
| Staging.LoadsAreTakenExactly | internal/server/server.go:503-525 | a granted load is taken if and only if Control names the transfer of the input's handle and the store answers all of it, of the recorded size and digest, within the bound, and as declared |
| Staging.StageTakesExactly | internal/server/server.go:86-98 | what is taken is held as it is, and no other name is touched |
| Staging.LoadTakesExactly | internal/server/server.go:513-524 | a load asks Control for the handle under the granted operation, instance and tenant, and stages exactly the bytes the store answered, or fails and leaves all as it was |
| Staging.RejectionsSay | internal/server/server.go:288-293 | how a rejected and a missing input are answered |
| Staging.ReadServesWhatIsHeld | internal/server/server.go:288-295 | a granted read answers what is held, or not found |
| Staging.ScopeListsTheInputs | internal/server/server.go:471-477 | the scope is answered with the names of the envelope's inputs, no more and no fewer |
| ResultAgreement.SuccessfulResultsAgree | internal/server/server.go:571-603 | any two successful results of an attempt, from any Pods and times, carry one stage id and the digest of the manifest each submitted; at most one is first; the manifests are the same or collide |
| ResultAgreement.EveryRunAgrees | internal/scope/scope.go:520-541 | the invariant: each success is backed by Control's one stage of the attempt, and a first one by its own verdict and failure code on record |
| ResultAgreement.AnswersStay | internal/server/server.go:571-603 | a successful answer is never revised |
| UploadRuns.OneHandlePerUpload | internal/scope/scope.go:380-428 | two begun uploads have one handle if and only if tenant, attempt, class and digest prefix agree, and then Control saw one request |
| UploadRuns.NoPutOnceFinalized | internal/scope/scope.go:400-403 | after one upload succeeded no repeat of it puts again |
| UploadRuns.PutsOncePerRequest | internal/scope/scope.go:404-411 | in every run a request comes to put at most once |
| UploadRuns.PutsUnderItsOwnCapability | internal/scope/scope.go:404-411 | and the put is of its own bytes, as demanded by the capability its own begin was answered, of a transfer not finalized |
| UploadRuns.EveryRunRecords | internal/scope/scope.go:389-427 | each begun upload is recorded under its own command, and success means finalized with the digest and size of its bytes |
| UploadStages.FinalizedAsStored | internal/scope/scope.go:410-417 | in every run a transfer becomes finalized only by a request whose own begin answered it, under the version the store assigned to the put of its own bytes |
| UploadStages.FinalizesWhatWasStored | internal/scope/scope.go:410-417 | whoever is about to finalize names the handle its begin answered and the version its put was answered, in this order |
| UploadStages.EndsAsTheUpload | internal/scope/scope.go:380-428 | in every run an upload ends exactly as the sequential upload ends on the answers its own calls were given |
| UploadStages.FinalizeComesFromPut | internal/scope/scope.go:449-456 | a finalize follows a put if and only if that is answered 2xx with a version |
| UploadRuns.KeysNameUploads | internal/scope/scope.go:386-390 | what a transfer's command id does and does not tell apart |
| Erasure.CandidatesLeaveNoTrace | internal/server/server.go:261-296 | deleting all candidate requests from any run leaves the clock, Control, all inputs and every trusted answer step for step as they were |
| Erasure.ErasedInOrder | internal/server/server.go:261-273 | the erased run keeps the order, label by label |
| Erasure.TrustedLabelsAgree | internal/server/server.go:469-676 | a trusted step depends on nothing the candidate can have touched |
| Actions.Upload | internal/scope/scope.go:380-428 | the upload makes the calls and reports of the specification the next rows speak of, for all answers |
| Actions.UploadReportsItsBytes | internal/scope/scope.go:396-427 | no error means finalized, with the digest and the decimal size of these bytes, begin's own handle and the version Control recorded last |
| Actions.UploadPutsOnce | internal/scope/scope.go:404-411 | at most one put, of these bytes as this run's own capability demands, none once finalized |
| Actions.UploadSucceedsExactly | internal/scope/scope.go:396-427 | exactly when an upload succeeds, over all answers |
| Actions.UploadFinalizeSays | internal/scope/scope.go:410-417 | a finalize names the version the store assigned, the handle begin answered and the scope's instance, behind begin and put |
| Actions.UploadBeginsFirst | internal/scope/scope.go:381-396 | the begin comes first, of these bytes under the scope until its deadline; only an unknown class sends nothing |
| Actions.AllButContentLength | internal/scope/scope.go:436-441 | the capability's headers are sent but Content-Length in whatever capitals |
| Actions.CommandsBindTheirRequests | internal/scope/scope.go:385-416 | every call's command binds what the call declares: digest, size and media type, handle and version, result digest and verdict |
| Actions.PutObject | internal/scope/scope.go:431-457 | the request is the capability's, without its Content-Length; success needs a 2xx and an assigned version |
| Actions.Load | internal/scope/scope.go:594-636 | what is handed out has the size and digest Control answered and fits the bound |
| Actions.LoadSucceedsExactly | internal/scope/scope.go:598-635 | exactly when a load succeeds, and what it hands out |
| Actions.ParseIntOfPrint | internal/scope/scope.go:602-605 | sizes as Control prints them are read back up to the largest 64-bit integer |
| Actions.OnPut | internal/scope/scope.go:443-456 | a put succeeds if and only if the answer is 2xx with an assigned version; every failure is unavailable |
| Actions.OnBegun | internal/scope/scope.go:398-407 | success at once only if finalized; a put only under a capability of a transfer that is not |
| Actions.OnFinalized | internal/scope/scope.go:418-427 | success only of a finalized transfer, with its version |
| Actions.AcceptOf | internal/scope/scope.go:520-533 | exactly the known verdicts are submitted, as given, with the manifest as given under its digest, a failure code exactly when one was given, and the scope's attempt, instance, profile and epoch |
| Actions.OnAccepted | internal/scope/scope.go:536-540 | Control's stage is passed on as it is, its errors as every call's |
| Control.BeginKeeps | internal/scope/scope.go:373-379 | a repeated command reenters its own transfer, and each command has one handle |
| Control.FinalizeKeeps | internal/app/app_test.go:161-175 | finalize never leaves finalized |
| Control.AcceptKeeps | internal/app/app_test.go:188-205 | accept answers the attempt's one stage, first only where none was |
| Commands.TransferIdDecodes | internal/scope/scope.go:386-390 | a transfer id reads back from the right to digest prefix, class and attempt |
| Commands.FamiliesAreDisjoint | internal/scope/scope.go:342-345 | the four families of ids of an attempt never meet |
| Aliasing.ProgressIdsNameTheirPartsExactly | internal/scope/scope.go:646 | over all arguments of the client a progress id names node, round and state if and only if none of them holds a colon |
| Aliasing.ReceivedIdsNameTheirPartsExactly | internal/server/server.go:622-625 | over what the route lets through it does if and only if no other two colons cut it into parts the route takes |
| Aliasing.ReceivedIdsAlias | internal/server/server.go:622-625 | two reports the route lets through that share an id |
| Aliasing.AttemptsShareAnIdExactly | internal/scope/scope.go:386-416 | two attempts share a command id if and only if one attempt id goes on behind the other with one of two bridges |
| Aliasing.AttemptsAlias | internal/envelope/envelope.go:19 | every attempt id of at most 124 characters has another one the envelope takes that shares a command id with it |
| Aliasing.ColonFreeAttemptsNeverAlias | internal/scope/scope.go:386-390 | attempt ids without a colon share none |
| Commands.CommandsNeverReplayAnother | internal/scope/scope.go:342-345 | id and digest together name one command of one attempt, or the preimages collide: a clash is a conflict and never a silent replay |
| Json.ObjectInjective | internal/scope/scope.go:342-345 | the JSON of two member lists is equal if and only if the lists are, over all Unicode strings and sizes |
| Json.ObjectUnique | internal/scope/mcp.go:69-70 | an object ends where it ends: what follows it is determined too |
| Json.MembersPlain | internal/scope/mcp.go:69-73 | the JSON of a scope holds no control byte, so no newline, and none of the three bytes of markup |
| Json.BoundPreimageUnique | internal/scope/mcp.go:69-73 | the preimage determines the scope strings and the raw bytes |
| Json.FirstNewline | internal/scope/relay.go:142-147 | the first newline of the preimage is the separator |
| Binders.CallDigestBindsScopeAndBytes | internal/scope/mcp.go:55-79 | a call's request digest is equal if and only if the seven scope strings and the caller's bytes are, or the two preimages collide |
| Binders.CallDigestIsOfItsOwnFields | internal/scope/mcp.go:69-77 | the receiver can recompute the digest from the identities the request carries |
| Binders.RelayDigestBindsScopeAndBytes | internal/scope/relay.go:126-158 | the same of a model request, an absent instance included |
| Binders.RelayDigestIsOfItsOwnFields | internal/scope/relay.go:137-147 | recomputable from its own binding |
| Binders.WhoIsAskedFirst | internal/scope/knowledge.go:49-68 | a search is bound exactly when a call is, with the same deadline; only the blame differs |
| Binders.BoundDeadline | internal/scope/mcp.go:56-77 | in all three binders the deadline outlives neither the attempt nor the caller's bound and loses less than a millisecond |
| Binders.IdentitiesAreTheScopes | internal/scope/mcp.go:69-78 | in all three binders every identity is the scope's and everything else the caller's, unchanged |
| Binders.Deadline | internal/scope/relay.go:127-136 | the earlier of the two, an error only for a malformed one |
| Envelope.Parse | internal/envelope/envelope.go:65-121 | an envelope is accepted if and only if it is well formed, unchanged |
| Envelope.CheckInputs | internal/envelope/envelope.go:113-119 | names are well formed and unique, digests and handles in shape |
| Envelope.CheckComponent | internal/envelope/envelope.go:97-109 | the component's identity is whole or absent |
| Envelope.SequencesAreNumbers | internal/envelope/envelope.go:18-27 | the sequences are exactly the canonical decimals below 10^20 |
| Envelope.EverySixtyFourBitEpochHasASequence | internal/envelope/envelope.go:18-27 | every 64-bit epoch is one |
| Inputs.Inputs.constructor | internal/server/server.go:55-64 | the fresh value declares what the envelope declares and has nothing staged |
| Inputs.Inputs.Stage | internal/server/server.go:86-98 | bytes are recorded exactly for a declared name of this digest; nothing else changes |
| Inputs.StageThenGet | internal/server/server.go:86-106 | what was staged is what is got; a refused staging changes nothing, a taken one this name only |
| Inputs.Inputs.Names | internal/server/server.go:75-83 | each declared name once |
| Inputs.StagedIsFaithful | internal/server/server.go:86-98 | staging keeps what is held declared, of the right digest and bounded |
| Inputs.StagedSizeIsBounded | internal/envelope/envelope.go:110-119 | a well-formed envelope bounds the total |
| Inputs.DeclaredExactly | internal/server/server.go:55-72 | each input keeps its own digest, and its own handle exactly if it has one |
| Peer.ParseSecret | internal/peer/peer.go:50-55 | exactly the printed forms of 32 bytes are accepted, and decode to them |
| Peer.CheckLowerHex | internal/peer/peer.go:95-106 | the loop decides lowercase hexadecimal of the length |
| Peer.TokenAlwaysProves | internal/peer/peer.go:58-76 | a token decodes to its 32 bytes, so every valid nonce has a proof |
| Peer.TokensNameTheRole | internal/peer/peer.go:58-62 | the two sockets have different tokens, or the token messages collide |
| Peer.ProofsNameRoleAndNonce | internal/peer/peer.go:65-76 | equal proofs answer one role and one nonce, or messages collide |
| Peer.GuardRequest | internal/server/server.go:228-254 | the route runs exactly if the guard passes, the proof is on the response exactly then |
| Peer.GuardPassesExactly | internal/server/server.go:228-254 | the guard passes exactly the right UID, a valid nonce and the token, and blames the first that is missing; its internal error is unreachable |
| Sockets.Listener.Accept | internal/sockets/sockets.go:86-102 | the first connection of the UID, after closing every other one in front of it once |
| Sockets.Connection.Read | internal/sockets/sockets.go:46-54 | ancillary data closes the connection and delivers nothing |
| Sockets.Connection.ReadAll | internal/sockets/sockets.go:46-54 | a reader gets exactly the bytes in front of the first ancillary data |
| Material.Parse | internal/identity/material.go:67-113 | the parser is the specification the next row speaks of |
| Material.ReadBundle | internal/identity/material.go:83-101 | the loop over the blocks, ended by the first defect |
| Material.ParseExactly | internal/identity/material.go:47-113 | files are accepted if and only if key, validity, every block and a root are in order, and the trusted roots are exactly the bundle's under their fingerprints; the leaf is the pair's |
| Material.TrustIsTheBundle | internal/identity/material.go:39-45 | a root is trusted exactly if the bundle holds it, or one it collides with |
| Material.FramingIsUniqueExactlyWithoutNuls | internal/identity/material.go:105-111 | no other three files share the digest's preimage if and only if none has a NUL byte |
| Reloader.FilesDigest | internal/identity/material.go:117-130 | the digest of the framed files, or none if a read fails |
| Reloader.New | internal/identity/reloader.go:37-54 | no reloader without valid material |
| Reloader.Reloader.Reload | internal/identity/reloader.go:108-136 | a poll leaves the state the next rows speak of, and after a publication every tracker holds the connections of its roots only |
| Reloader.Notify | internal/identity/reloader.go:128-133 | every callback has run on its own tracker |
| Reloader.CurrentIsAlwaysWhole | internal/identity/reloader.go:108-127 | however reads are torn, the current material is one that three contents gave as a whole and its digest is theirs |
| Reloader.StandingFilesAreTaken | internal/identity/reloader.go:106-127 | files standing at valid content without NUL are current after one poll, unless they collide with what was in force, and every later poll changes nothing |
| Reloader.BadFilesAreCounted | internal/identity/reloader.go:110-125 | standing bad content leaves the current material and counts one failure a poll |
| Reloader.PollOfStandingFiles | internal/identity/reloader.go:108-127 | a poll misses standing content exactly when other material in force has its digest |
| Reloader.ContentWithNulCanBeMissed | internal/identity/reloader.go:117-119 | for every content with a NUL there are decoders under which it is loadable and other files of its digest, with other roots, are in force while no number of polls takes it |
| Reloader.EqualIsTheSameFiles | internal/identity/material.go:132-135 | materials are equal exactly if their NUL-free files are, or collide |
| Reloader.NewServerCredentials | internal/identity/credentials.go:103-113 | new credentials have a tracker of their own that every publication sweeps |
| Reloader.Retired | internal/identity/reloader.go:139-147 | how many roots were dropped |
| Reloader.RetiredRoots | internal/identity/reloader.go:150-158 | their certificates |
| Tracker.ConnTracker.Add | internal/identity/credentials.go:38-49 | the flat view gains exactly this pair, with no empty inner set |
| Tracker.ConnTracker.Remove | internal/identity/credentials.go:51-61 | the flat view loses exactly this pair, if there |
| Tracker.ConnTracker.CloseRetired | internal/identity/credentials.go:64-79 | exactly the pairs of lost roots go, their number is returned, and each connection is closed once for each of its pairs |
| Tracker.OncePerConnection | internal/identity/credentials.go:64-79 | with one root each that is once per connection |
| Tracker.TrackedConn.Close | internal/identity/credentials.go:82-92 | the first close leaves the tracker, a later one changes nothing there |
| Tracker.OneTurn | internal/identity/credentials.go:68-77 | one turn of the sweep on map, count and closes |
| Rotation.EveryMaterialIsWhole | internal/identity/reloader.go:108-127 | torn reads with overlapping polls: every material ever in force is whole |
| Rotation.TrustGrows | internal/identity/reloader.go:126-133 | no publication is forgotten and a callback that ran has run |
| Rotation.EveryConnectionIsAccountedFor | internal/identity/credentials.go:33-92 | each added connection is tracked under one root, or was closed by the server or a callback; a second close removes nothing |
| RotationReads.PublishedWasRead | internal/identity/material.go:50-64 | each published material was parsed from a certificate, a key and a bundle that were in their own files at three instants in this order |
| RotationReads.PollComparesWithItsStart | internal/identity/reloader.go:109-119 | a poll ends at the digest if and only if it is that of the material in force when the poll began |
| RotationReads.FailuresSincePublication | internal/identity/reloader.go:110-126 | each failed poll counts one and publishes nothing, a publication clears the count |
| RotationSafety.EveryPublicationIsCalledBack | internal/identity/reloader.go:126-133 | the callback of every material after the first has run or is pending, however many polls overlap |
| RotationSafety.BegunWith | internal/identity/credentials.go:115-127 | each handshake began once and verifies against the material in force at that instant |
| RotationSafety.OwnersClose | internal/identity/credentials.go:82-92 | the server's close ends the tracking of that connection and of no other, once |
| RotationSafety.CallbackClears | internal/identity/credentials.go:105-113 | after a material's callback every connection added before has its root in it, at all later times |
| RotationSafety.NextCallbackDecides | internal/identity/credentials.go:64-79 | a callback closes a tracked connection if and only if its material lacks the root |
| RotationSafety.RetiredBy | internal/identity/credentials.go:64-79 | only such a callback ever retires a connection |
| RotationSafety.StaleOrigin | internal/identity/credentials.go:115-143 | a tracked connection of a lost root began its handshake before the material in force was published, under one that held its root, and the current callback has not run since its add |
| RotationSafety.SettledIsTrustedExactlyWithoutLateAdds | internal/identity/credentials.go:103-143 | with no callback outstanding a connection is stale if and only if it was added late |
| RotationRace.HandshakeAcrossARotation | internal/identity/credentials.go:126-143 | the run that leaves a connection of a retired root, for any two contents of which the second drops a root |
| RotationRace.TornMaterialIsPublished | internal/identity/material.go:50-64 | parsed as a whole is not stood together: for any three contents whose parts parse together, the run that publishes them though the files never held them at once |
| Spiffe.ParsedExactly | internal/identity/spiffe.go:47-62 | accepted are exactly the plain records with host and path of a valid principal, which is the result |
| Spiffe.ParseOfPrinted | internal/identity/spiffe.go:25-27 | every valid principal's printed record parses back to it |
| Spiffe.PrintedIsInjective | internal/identity/spiffe.go:25-27 | the printed text names one principal |
| Spiffe.TextIsCanonicalExactly | internal/identity/spiffe.go:44-62 | what is accepted was written as the printed form if and only if the scheme is in lower case, the path has no percent sign and no mark of an empty query or fragment is written |
| Spiffe.OtherTextsAreTaken | internal/identity/spiffe.go:44-62 | for every principal four other texts that are taken for it |
| Spiffe.TrustDomainsAreJoinedLabels | internal/identity/spiffe.go:36-42 | trust domains are labels joined by dots, and have no port |
| Spiffe.ParsedIsNoWildcard | internal/identity/spiffe.go:47-62 | no parsed principal is the wildcard entry |
| Authz.NewAuthorizer | internal/identity/authz.go:32-53 | a policy is taken if and only if every entry is in shape; the defect told is one |
| Authz.Check | internal/identity/authz.go:58-81 | clean if and only if the registered methods are the policy's; else exactly the differences |
| Authz.Allowed | internal/identity/authz.go:84-94 | the trust domain matches and some entry of the method admits the workload |
| Authz.Authorize | internal/identity/authz.go:99-115 | permitted exactly with an identity that is allowed; unauthenticated exactly without one |
| Authz.EveryRegisteredMethodIsReachable | internal/identity/authz.go:55-81 | after a clean check every registered method admits some workload and no other method admits any |
| Authz.PermittedExactly | internal/identity/authz.go:99-115 | end to end: one URI, of a workload of the trust domain, that the method's entry names or that admits everyone |
| Relay.Reader.ReadSlice | internal/scope/relay.go:184-186 | the slice is a function of the bytes to come, whatever pieces they come in |
| Relay.Copy | internal/scope/relay.go:184-206 | what is sent is the body as far as the caller takes it, all flushed at the end if no write fails |
| Relay.Forward | internal/scope/relay.go:163-207 | an error sends nothing, a refusal passes up to 64 KiB, an answer is copied whole |
| Relay.FlushedExactlyBehindOneByte | internal/scope/relay.go:187-194 | an iteration leaves everything flushed if and only if its slice is one byte |
| Relay.BlankLineSlices | internal/scope/relay.go:184-194 | which slices a blank line of each of the three terminators ends with |
| Relay.BlankLinesAreFlushedExactlyWhenBare | internal/scope/relay.go:187-194 | while the stream goes on, within lines that fit the buffer, everything is flushed behind a blank line if and only if it is a bare newline |
| Relay.CrLfEventWaits | internal/scope/relay.go:187-194 | an event of any line with carriage returns is sent and not flushed |
| Relay.TracesAgree | internal/scope/relay.go:184-206 | the flush points depend on the body alone |
| Decimal.TextEqualityIsNumeric | internal/envelope/envelope.go:86-90 | canonical texts are equal exactly if their numbers are |

## Left out

- gRPC, HTTP, TLS, X.509 and PEM themselves: answers, parsed records and the decoders' results are parameters. Of URL parsing, `Spiffe.RecordOf` has what accepted texts need.
- Decoding of request bodies and of the envelope's JSON: the model begins with decoded records and raw bytes; the handlers' refusals of undecodable bodies are not part of it.
- The routes for progress, stages, accepted results, knowledge and tool calls: in the protocol they are one route that asks for authority and forwards; their own calls change nothing the model holds.
- Control, the object store, the Model Proxy, MCP and Knowledge: `Control` states what the sidecar relies on Control for, the others answer anything.
- Sequence numbers of Control's events and of accepted stages' artifacts: not part of this model.
- The key order of the Model Proxy's ExecutionBinding: its type lives in the contracts module, which is not part of this model; the members are taken in alphabetical order.
- Strings that are not valid UTF-8: media types and header values are taken to be Unicode texts.
- Header names that become the same after Go's canonicalization: a capability's headers are kept as they are named.
- Calendar time, RFC 3339 texts and the Proxy's deadline text: times are numbers.
- Request timeouts, write deadlines, constant-time comparison, shutdown and logging.
- The configuration loader: its checks that matter here (an input bound of at least one, the launch key of the envelope) are `Protocol.ValidPod`.
- The HTTP client transport of the identity package: its callback closes idle client connections only.
- Authz.Check: does not model the sorting of the two lists, which only orders an error text.
- Reloader.Reloader.Reload: takes every callback to be that of server credentials; in `Rotation` polls overlap and there is one tracker.
- Relay.Reader.ReadSlice: takes an upstream that never answers an empty read; Go gives up after a hundred of them.
- Relay.Copy: a failed write is taken to have sent what the caller still took.
