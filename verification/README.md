# Lotor Go SDK: verified model

A Dafny model of the parts of the Lotor Go SDK whose correctness depends on more than one function at a time:

- **At-most-once execution.** A caller dispatches a signed grant; any number of runtime replicas verify it, authorize it
  again, reserve it in a shared journal, run the handler, complete the journal row and sign a result. `Execution` is the
  transition system: the order of steps, clock readings, cancellation, handler outcomes, store errors (with the statement
  lost, done, or still to be done later) and crashes are chosen freely. `ExecutionSafety`, `ExecutionSteps` and
  `ExecutionRuns` prove its invariant and what follows for every run, `ExecutionBlocked` which reservations can never be
  completed, `ExecutionProgress` what happens when nothing goes wrong, `ExecutionReplay` what a later request for the same
  operation gets, `ExecutionAdmission` what must have come before an entry or an answer, and `ExecutionAnswers` what each
  answer means. `SqlJournal` replaces the journal by the PostgreSQL statements, with the insert and the select of
  `Reserve` as separate steps, and refines one to the other; `SqlRuns` carries the guarantees over. `Protocol` holds the
  messages, `JsonText` their texts, `Messages` what the texts determine, and `SizeBudget` shows that the size limits fit
  together. `Witness` exhibits concrete runs.
- **LWP/1.** `Varint`, `KeyOrder`, `ValueCodec`, `ValueLoops` and `ValueLaws` are the value codec, `Frames` and `ReadLoop`
  framing and reassembly, `ReceiveBuffer` the aliasing of decoded byte strings with the receive buffer, `Multiplexer` the
  pipelined client under every schedule of callers and reader, `WireVectors` fixed examples of the bytes.
- **Development connector.** `Connector` is the state machine of slots, connection generations and active requests;
  `ConnectorLoops` has its critical sections, the bounded response buffer, the reconnect loop and the renewal time.
- **Custody, owner discovery, canonical encodings.** `Custody`, `Ownership`, `Base64Url` and `Manifest`.

Code that updates state is modelled by classes and methods with loops, each proved equal to a specification function or
to a step of its state machine; the properties are then lemmas about those.

Foreign code is a parameter. `Messages.Lawful` collects what is assumed of it: SHA-256 digests are 64 hexadecimal
digits, compaction of JSON is idempotent, printable messages are written as the texts of `JsonText`, and a result with a
canonical or absent output is read back as written if the output is still valid JSON one level down (the decoder limits
the depth of nesting) and refused otherwise. `Messages.LawfulIsPossible` shows the assumptions can all be met, and
`Witness` has one concrete world with runs that reach success, an unreadable response and a blocked reservation.
The hash is otherwise an arbitrary function: a result that depends on distinct texts having distinct digests either
assumes it for the texts hashed in the run under discussion, or names the two colliding texts. A signature verifies when
it is in the log of signatures made, and nobody else signs results with a key that some caller expects of a runtime.
AES-GCM is any pair of functions meeting `Custody.Sound`; where authenticity matters, the alternative is a forgery named
in the conclusion. Clock readings, random bytes, network answers and map iteration orders are inputs.

Six places where the code does not give what one might expect, each with its exact condition:

- The ownership lifetime check subtracts in 64 bits, so it bounds the lifetime if and only if the difference does not
  overflow (`Ownership.WindowExact`, `Ownership.WindowOverflows`).
- Operations of two bindings can share a journal identity if and only if one binding name followed by a colon begins the
  other (`Protocol.IdentityExact`, `Protocol.IdentityShared`); this costs availability and not safety
  (`Protocol.IdentityInjective`).
- A reservation without a result is never completed if and only if its owner is finished and no write of its result is
  outstanding (`ExecutionBlocked.BlockedExact`, `SqlRuns.SqlBlockedExact`).
- A handler output nested exactly as deep as the JSON decoder allows passes the runtime's checks, is stored and signed,
  and then cannot be parsed inside the result: responses verify, callers accept and the SQL store replays if and only if
  the output nests (`ExecutionRuns.Verifiable`, `ExecutionRuns.AcceptedExactly`, `SqlJournal.SelectIsAtomic`,
  `Witness.DeepestIsUnreadable`). At most once, agreement and blocking do not depend on it.
- A grant within `verify`'s limits can be wrapped in a proof if and only if its encoded length leaves room, which
  `SignAuthorization` ensures and other signers need not (`SizeBudget.WrapExact`, `SizeBudget.LargestGrantDoesNotWrap`).
- Plain base64url decoding accepts many spellings of the same bytes, the three acceptors exactly the encoder's
  (`Base64Url.PlainIsAmbiguous`, `Base64Url.AcceptorsAgree`).

## Model

| member | source | states |
|---|---|---|
| `ExecutionRuns.EndToEnd` | bridge/client/client.go:88-119 | in every run, if an `Invoke` returned success then the handler was entered exactly once for that operation identity, with an authorization equal in all fields but issue and expiry time, and the returned output is that handler's canonical output |
| `ExecutionRuns.AtMostOnce` | bridge/runtime.go:184-229 | in every run, two handler entries with the same operation identity are the same entry |
| `ExecutionRuns.EveryStep` | bridge/runtime.go:143-236 | every step of callers, replicas, store, clock and crashes keeps the protocol invariant, and no row, entry, owner or answered request is ever changed back |
| `ExecutionRuns.EveryRun` | bridge/runtime.go:143-236 | the invariant holds after every run |
| `ExecutionBlocked.BlockedStep` | bridge/runtime.go:184-229 | no step enters the handler for, or writes the row of, a reservation that has no result, whose owner (if any) has responded or crashed, and for which no write is outstanding: expired, failed, crashed or with its completion lost |
| `ExecutionBlocked.BlockedForever` | bridge/runtime.go:184-229 | such a reservation stays blocked after any continuation of the run |
| `ExecutionBlocked.LateCompletes` | bridge/runtime.go:220-228 | while a write of the result is outstanding, one more step completes the row with the owner's result |
| `ExecutionBlocked.BlockedExact` | bridge/runtime.go:184-229 | a reservation without a result is blocked if and only if no continuation of the run completes it |
| `ExecutionRuns.Verifiable` | bridge/protocol.go:219-229 | every 200 response, executed, replayed or a challenge answer, is signed for results with the runtime's key and agrees with the exact grant that was sent on every field `VerifyResult` compares; it parses back to the result, and so passes, if and only if its output is still valid one level of nesting deeper |
| `ExecutionRuns.AcceptedExactly` | bridge/client/client.go:103-118 | the caller that sent the grant accepts a 200 response if and only if it reports no error, its output nests and its completion time is in range |
| `ExecutionRuns.AcceptedIsGenuine` | bridge/client/client.go:103-118 | a response a caller accepts was signed by some replica in answer to a request, and carries that request's result |
| `ExecutionReplay.Replayed` | bridge/runtime.go:202-236 | in every run, a renewed grant for a completed operation (equal to the owner's in every field but the two times) that asks the journal and is still active is answered 200 with the stored result under its own digest; journal, entries and all other requests stay as they are |
| `ExecutionReplay.ReplayDelivered` | bridge/client/client.go:103-118 | its caller then succeeds with the first handler's output if and only if the stored result reports no error, its output nests and its time is in range |
| `ExecutionReplay.RenewalAdmitted` | bridge/runtime.go:150-174 | a renewed grant that arrives and is allowed reaches the journal as one, with nothing else changed |
| `ExecutionReplay.BarredAnswered` | bridge/runtime.go:194-196 | in every run, a request whose row has no result yet, or belongs to a different authorization, is answered 409 and enters no handler |
| `ExecutionAdmission.EntryEarned` | bridge/runtime.go:143-190 | in every run, every handler entry was preceded by an arrival signed by a key its runtime trusts, addressed to that runtime and inside its window, by the callback's consent with an active grant, by an active grant after reserving and by a live context |
| `ExecutionAdmission.EveryRequestArrived` | bridge/runtime.go:143-152 | every request of a run arrived that way, field by field |
| `ExecutionAdmission.EveryRequestEarned` | bridge/runtime.go:161-190 | a request that reserved, owns a row, entered a handler or was answered, challenges included, was allowed by the callback with an active grant; past the journal only with a grant active then |
| `ExecutionAdmission.AnswerEarned` | bridge/runtime.go:161-172 | no result is signed without the callback's consent |
| `ExecutionAdmission.RefusedForever` | bridge/runtime.go:161-172 | a request the callback denied, could not decide or decided too late is answered 401 or 503, and in every continuation owns no row, enters no handler and gets no signature |
| `ExecutionAdmission.EveryCallExplained` | bridge/client/client.go:88-119 | in every run, every call was dispatched with a grant signed by a key its caller trusts, addressed to its binding and inside its window, and every success came from a response under the expected key name and key, without an error and in time |
| `ExecutionAnswers.StatusExact` | bridge/runtime.go:161-236 | a step answers a request with a status if and only if there is a reason for that status |
| `ExecutionAnswers.StatusExplained` | bridge/runtime.go:161-236 | in every run every answer has such a reason in the run |
| `ExecutionAnswers.OutcomeExplained` | bridge/runtime.go:205-221 | in every run a built result records the outcome and time of the step that built it: the canonical output if and only if the handler returned one in time, valid and within the limits |
| `ExecutionAnswers.AnswerExplained` | bridge/runtime.go:186 | the answer a request holds is the journal's at its own reserve step |
| `ExecutionAnswers.VerifyResultExact` | bridge/protocol.go:225-227 | the results that verify against a grant are exactly those the runtime could send for it, apart from outcome and time |
| `ExecutionProgress.Undisturbed` | bridge/runtime.go:143-236 | for every deployment, accepted grant and valid handler output, the run without failures enters the handler once and ends with the call succeeding with the canonical output if it nests, and with a 200 the caller cannot read otherwise |
| `ExecutionProgress.CrashBlocks` | bridge/runtime.go:184-200 | a crash right after reserving leaves the operation blocked with no handler entry |
| `ExecutionProgress.ExpiryBlocks` | bridge/runtime.go:187-194 | a grant that expires right after reserving does too |
| `ExecutionProgress.LostWriteBlocks` | bridge/runtime.go:220-228 | a lost completion leaves it blocked with one handler entry |
| `ExecutionProgress.AmbiguousReserveBlocks` | bridge/sqlstore/postgres.go:73-84 | a reservation reported as failed may still be committed; then nobody owns it, nothing was entered, and it is blocked |
| `ExecutionProgress.LateWriteLands` | bridge/runtime.go:220-228 | a completion whose owner crashed may still land and complete the row with the handler's outcome |
| `ExecutionProgress.ChallengeAnswered` | bridge/runtime.go:173-176 | a challenge that is allowed is answered 200 with the grant's nonce, the later clock reading, and no trace in the journal |
| `Witness.SuccessIsReachable` | bridge/client/client.go:88-119 | a concrete world and run that meet every hypothesis of the end-to-end theorem |
| `Witness.BlockedIsReachable` | bridge/runtime.go:220-228 | a concrete run that ends in a blocked reservation |
| `Witness.RenewalIsReachable` | bridge/runtime.go:202-204 | a concrete run in which a renewed grant for a completed operation asks the journal |
| `Witness.DeepestDoesNotNest` | bridge/runtime.go:213-218 | a list exactly as deep as the decoder's limit is valid and canonical, and not one level deeper |
| `Witness.DeepestIsUnreadable` | bridge/runtime.go:213-235 | a concrete run in which that list is signed in a 200 response which the caller cannot parse |
| `ExecutionRuns.Agreement` | bridge/runtime.go:173-236 | any two 200 responses for one operation identity agree on every result field but the authorization digest |
| `Messages.SemanticBinding` | bridge/runtime.go:177-185 | two grants have equal semantic digests if and only if they are equal in every field but issue and expiry time, down to the input bytes, unless the texts collide |
| `Messages.TextDetermines` | bridge/protocol.go:103-123 | the JSON text of an authorization with printable strings determines every field, omitted ones included |
| `Messages.ResultTextDetermines` | bridge/protocol.go:125-137 | and likewise the text of a result |
| `Messages.FieldsWritten` | bridge/protocol.go:103-123 | every field of an authorization that is not omitted appears in the text under its JSON name |
| `Messages.DigitsValue` | bridge/protocol.go:103-123 | numbers are written as their decimal digits |
| `Messages.LawfulIsPossible` | bridge/protocol.go:231-256 | for any hash and any compaction with their laws, whatever the compaction refuses, there are an encoder and a decoder meeting every assumption |
| `Protocol.PurposeSeparation` | bridge/protocol.go:231-256 | the signed bytes determine purpose and message: a signature for one purpose is never valid for another |
| `Protocol.IdentifierExact` | bridge/protocol.go:270-280 | an identifier is one to the maximum number of characters from `!` to `~` |
| `Protocol.DigestExact` | bridge/sqlstore/postgres.go:145-148 | a digest is the lower-case hexadecimal spelling of 32 bytes |
| `Protocol.IdentityExact` | bridge/runtime.go:184 | operations of two different bindings share a journal identity for some valid IDs if and only if one binding name followed by a colon begins the other |
| `Protocol.IdentityInjective` | bridge/runtime.go:184 | otherwise the identity determines binding and operation; and operations of different bindings never agree semantically |
| `Protocol.IdentityShared` | bridge/runtime.go:184 | two valid operations of different bindings that share an identity |
| `SqlJournal.Store.Reserve` | bridge/sqlstore/postgres.go:75-119 | whatever other clients do between insert and select, the answer is the atomic journal's for the table at one moment inside the call (a stored result too deep to be read back excepted), and the effect is the atomic effect at that moment |
| `SqlJournal.Store.Complete` | bridge/sqlstore/postgres.go:121-143 | succeeds exactly when identity and sizes are valid and the row is reserved with the same digest and no other result; otherwise changes nothing |
| `SqlJournal.Store.Others` | bridge/sqlstore/postgres.go:79-141 | any sequence of statements keeps every row's digest and every stored result |
| `SqlJournal.InterpretExact` | bridge/sqlstore/postgres.go:97-118 | what `Reserve` makes of a row that `Complete` wrote is the atomic answer: conflict, in progress or replay of that very result; unavailable exactly when the digest matches and the stored result is too deep |
| `SqlJournal.SelectIsAtomic` | bridge/sqlstore/postgres.go:91-118 | in every reachable state a select that succeeds gives exactly the atomic answer, with the same exception |
| `SqlJournal.UpdateMeaning` | bridge/sqlstore/postgres.go:129-141 | comparing stored bytes is comparing results: the guarded update is the atomic write-once step |
| `SqlJournal.RefinesSelect` | bridge/sqlstore/postgres.go:91-118 | a select is an atomic reserve at that moment, succeeding exactly when the select does and the stored result can be read back |
| `SqlJournal.Refines` | bridge/sqlstore/postgres.go:75-143 | each SQL statement is one step of the atomic protocol, or none, and a statement that succeeds is a call that succeeds, a select of a result too deep to be read back excepted; the identity and size guards never fire |
| `SqlJournal.SqlRefinement` | bridge/sqlstore/postgres.go:75-143 | every run on the SQL store is a run on the atomic journal ending in the same state |
| `SqlRuns.SqlAtMostOnce` | bridge/sqlstore/postgres.go:73-119 | at most one handler entry per identity in every run on the SQL store |
| `SqlRuns.SqlEndToEnd` | bridge/client/client.go:88-119 | the end-to-end statement in every run on the SQL store |
| `SqlRuns.SqlAgreement` | bridge/runtime.go:173-236 | agreement of all 200 responses for one identity in every run on the SQL store |
| `SqlRuns.SqlVerifiable` | bridge/protocol.go:219-229 | the same signature, fields and exact parsing condition in every run on the SQL store |
| `SqlRuns.SqlAcceptedExactly` | bridge/client/client.go:103-118 | exactly which responses the caller accepts, in every run on the SQL store |
| `SqlRuns.SqlReplayed` | bridge/sqlstore/postgres.go:75-119 | in every run on the SQL store, a renewed grant for a completed operation is answered 200 with the stored result, unless that is too deep to be read back |
| `SqlRuns.SqlTooDeepAnswered` | bridge/sqlstore/postgres.go:104-106 | a stored result too deep to be read back is answered 503, and nothing else changes |
| `SqlRuns.SqlReplayDelivered` | bridge/client/client.go:103-118 | the replay delivered to its caller from the SQL store |
| `SqlRuns.SqlBlockedForever` | bridge/sqlstore/postgres.go:73-119 | a blocked row stays blocked, and no handler is entered for it, in every continuation on the SQL store |
| `SqlRuns.SqlBlockedExact` | bridge/sqlstore/postgres.go:73-143 | an unfinished row is blocked if and only if no continuation of statements completes it |
| `SqlRuns.SqlResultsFit` | bridge/sqlstore/postgres.go:121-148 | in every run on the SQL store, every result about to be stored or signed passes all size limits |
| `JsonText.QuoteReadsBack` | bridge/protocol.go:231-241 | a quoted string reads back exactly and ends where it ended, whatever follows |
| `JsonText.QuoteGrowth` | bridge/protocol.go:231-241 | quoting grows a string at most sixfold plus the two quotes |
| `SizeBudget.AuthorizationFits` | bridge/runtime.go:243-271 | the text of an authorization within the field limits is at most 320,000 bytes longer than the input limit |
| `SizeBudget.AcceptedIsSmall` | bridge/runtime.go:243-271 | what `validAuthorization` accepts is within those field limits and printable |
| `SizeBudget.BudgetCloses` | bridge/protocol.go:177-256 | every grant from `SignAuthorization` that the runtime accepts can be sent, wrapped in both runtime proofs and sent again within 16 MiB, and its journal identity is within the store's bounds |
| `SizeBudget.SignedFits` | bridge/protocol.go:231-256 | whatever `sign` accepts passes the size checks of `verify` and its text is within the body limit |
| `SizeBudget.WrapExact` | bridge/protocol.go:90-92 | a signed grant can be wrapped if and only if its encoded length and quoted key name leave 143 bytes within half the body limit |
| `SizeBudget.LargestGrantDoesNotWrap` | bridge/protocol.go:243-256 | a grant of half the body limit passes `verify`'s size checks and cannot be wrapped |
| `SizeBudget.ResultsFit` | bridge/runtime.go:173-236 | in every run, every result about to be stored or signed passes the limits of `Complete`, of `SignResult` and of the response body |
| `Varint.PutUvarint` | lotor/wire.go:156-168 | appends the encoding of the number |
| `Varint.ReadUvarint` | lotor/wire.go:170-185 | reads an encoding of any length as its little-endian base-128 sum modulo 2^64, or fails at the end of the buffer; the cursor advances and never passes the end |
| `Varint.Accumulate` | lotor/wire.go:179-181 | one shift-and-or step with lost high bits adds the next base-128 digit modulo 2^64 |
| `Varint.ReadOfPut` | lotor/wire.go:156-185 | reading an encoded number followed by any bytes gives the number and those bytes |
| `Varint.PutIsShortest` | lotor/wire.go:156-185 | re-encoding a number read from any encoding is never longer |
| `Varint.ZigzagBijection` | lotor/wire.go:187-201 | zigzag and unzigzag are inverse bijections between int64 and uint64 |
| `KeyOrder.SortKeys` | lotor/wire.go:236-240 | sorting the keys in whatever order the map yields them gives the one listing in which every key is a proper prefix of the next or smaller in the first byte where they differ |
| `KeyOrder.LeqExact` | lotor/wire.go:240 | the comparison is the lexicographic order of bytes |
| `KeyOrder.ListingOrder` | lotor/wire.go:236-240 | consecutive keys of the listing are in that order |
| `KeyOrder.ListingUnique` | lotor/wire.go:236-240 | two ascending listings of the same keys are equal |
| `ValueCodec.ReadBytes` | lotor/wire.go:315-327 | a successful read consumes at least one byte and leaves a suffix |
| `ValueCodec.Decode` | lotor/wire.go:251-313 | a successful decode of any bytes strictly advances and leaves a suffix |
| `ValueCodec.DecodeItems` | lotor/wire.go:279-292 | a list of any announced count has exactly that many items and at least one byte for each |
| `ValueCodec.DecodeEntries` | lotor/wire.go:293-310 | a map of any announced count takes at least two bytes a pair, repeated keys included |
| `ValueLoops.EncodeValue` | lotor/wire.go:204-249 | appends exactly the encoding of the value |
| `ValueLoops.EncodeList` | lotor/wire.go:226-232 | appends the encodings of the items in order |
| `ValueLoops.EncodePairs` | lotor/wire.go:233-246 | appends the pairs in ascending byte order of their keys |
| `ValueLoops.DecodeValue` | lotor/wire.go:251-313 | the cursor-moving decoder agrees with the byte-level decoder on every buffer and position |
| `ValueLoops.DecodeList` | lotor/wire.go:279-292 | the list loop ends for every count up to 2^64 - 1 and agrees with the byte-level decoder |
| `ValueLoops.DecodePairs` | lotor/wire.go:293-310 | the map loop likewise, later pairs replacing earlier ones |
| `ValueLoops.ReadBytesAt` | lotor/wire.go:315-327 | the slice returned and the new cursor, or a short read, as the byte-level reader says |
| `ValueLaws.RoundTrip` | lotor/wire.go:204-313 | decoding an encoding followed by any bytes gives the value back and stops at its end |
| `ValueLaws.PrefixFree` | lotor/wire.go:204-313 | no encoding is a proper prefix of another |
| `ValueLaws.EncodeInjective` | lotor/wire.go:204-249 | encodings are equal exactly when the values are |
| `ValueLaws.NormalForm` | lotor/wire.go:204-327 | a value decoded from any accepted bytes re-encodes to no more bytes than were consumed |
| `ValueLaws.Normalize` | lotor/wire.go:204-327 | and that re-encoding decodes to the same value, whatever follows |
| `WireVectors.Scalars` | lotor/wire.go:204-225 | the bytes of scalar values |
| `WireVectors.Lists` | lotor/wire.go:226-232 | the bytes of lists |
| `WireVectors.Maps` | lotor/wire.go:233-246 | the bytes of a map with two keys, in ascending order |
| `WireVectors.OneFrame` | lotor/wire.go:338-350 | the bytes of a frame |
| `Frames.AppendFrame` | lotor/wire.go:338-350 | the bytes written are the frame's encoding |
| `Frames.TakeFrame` | lotor/wire.go:353-387 | the cursor-moving decoder agrees with the byte-level one |
| `Frames.FrameRoundTrip` | lotor/wire.go:338-387 | a frame at the front of the buffer is decoded exactly, whatever follows, and its length is consumed |
| `Frames.FrameShort` | lotor/wire.go:353-387 | less than a whole frame decodes to nothing, without a panic |
| `Frames.DrainPrefix` | lotor/client.go:99-118 | draining any prefix of a stream of frames yields exactly its whole frames and leaves the rest |
| `Frames.WholeIs` | lotor/client.go:99-118 | the number of frames delivered is the largest that fits in the bytes received |
| `ReadLoop.Reader.OnRead` | lotor/client.go:96-119 | one read appends its bytes and delivers every complete frame |
| `ReadLoop.Reassembly` | lotor/client.go:93-131 | for every stream and every way of cutting it into reads, the frames delivered so far are exactly those wholly received, in order, and the buffer is the remaining suffix |
| `ReceiveBuffer.Buffer.Append` | lotor/client.go:94-99 | appends to the contents, in place or into a new array, without disturbing any slice handed out |
| `ReceiveBuffer.Buffer.Advance` | lotor/client.go:105 | drops the consumed bytes from the contents, keeping every slice handed out |
| `ReceiveBuffer.Buffer.Lend` | lotor/wire.go:315-327 | the slice handed out shares the array and shows the contents at its position |
| `ReceiveBuffer.Schedule` | lotor/client.go:94-105 | under any later reads, reallocations, slicings and consumptions a slice still shows the same bytes |
| `Multiplexer.Client.Start` | lotor/client.go:134-140 | registers a fresh channel under the next request ID |
| `Multiplexer.Client.Abandon` | lotor/client.go:142-147 | a failed write removes the registration |
| `Multiplexer.Client.Accept` | lotor/client.go:106-113 | a response takes its registration out before sending |
| `Multiplexer.Client.Shutdown` | lotor/client.go:120-128 | closes every registered channel once, in whatever order the map yields them |
| `Multiplexer.InvStep` | lotor/client.go:93-168 | every step of callers and reader keeps the invariant |
| `Multiplexer.MultiplexingSafety` | lotor/client.go:93-168 | in every schedule each pending channel is open and empty, each channel gets at most one frame or one close, a send neither blocks nor panics, and a call returns only a frame with its own request ID |
| `Multiplexer.ResponseDelivered` | lotor/client.go:106-113 | in every schedule a response whose ID is registered reaches the channel of exactly that call, which then returns it unless it had timed out or failed to write, and is never told of a disconnection instead |
| `Multiplexer.NoCallLost` | lotor/client.go:93-168 | in every schedule of at most 2^32 requests, a call that has not returned is registered, or its frame is on its way or in its channel, or its channel is closed |
| `Multiplexer.RequestIdsUnique` | lotor/client.go:134-140 | two calls share a request ID exactly when their numbers differ by a multiple of 2^32 |
| `Connector.InvStep` | bridge/development/connector.go:212-257 | every step of any connection generation keeps the accounting |
| `Connector.SlotAccounting` | bridge/development/connector.go:212-257 | in every run over all generations, slots in use equal accepted requests not yet released and never exceed the maximum; each slot is released once and a release never blocks |
| `Connector.GenerationSafety` | bridge/development/connector.go:143-153 | at most one unfinished request per ID and generation, and ending a generation cancels all its requests |
| `Connector.OverExact` | bridge/development/connector.go:143-257 | in every run, a generation is over if and only if some step ended it: `Connect` returning, its context lapsing, a refused request or a failed response write |
| `Connector.CancelledExact` | bridge/development/connector.go:224-252 | in every run, a request is cancelled if and only if its generation is over, or a cancel frame named it while unfinished, its deadline passed, or it finished |
| `ConnectorLoops.Hub.OnRequest` | bridge/development/connector.go:231-252 | a request is accepted exactly when its ID is not active, its deadline is valid and a slot is free, and then starts cancelled only if its generation is over; otherwise the generation ends |
| `ConnectorLoops.Hub.OnCancel` | bridge/development/connector.go:226-230 | cancels the request with that ID, if any |
| `ConnectorLoops.Hub.OnEnd` | bridge/development/connector.go:143-153 | cancels every active request of the generation |
| `ConnectorLoops.Hub.Release` | bridge/development/connector.go:245-246 | gives the slot back, before and apart from forgetting the request |
| `ConnectorLoops.Hub.Forget` | bridge/development/connector.go:245-246 | then removes the request from its generation's active map and cancels it |
| `ConnectorLoops.BoundedResponse.WriteHeader` | bridge/development/connector.go:283-287 | the first status stays |
| `ConnectorLoops.BoundedResponse.Write` | bridge/development/connector.go:289-298 | accepts a chunk exactly when it fits and remembers an overflow; the buffer is all bytes written unless they overflow |
| `ConnectorLoops.Handle` | bridge/development/connector.go:300-322 | whatever the handler writes, and if it panics, the response is its status and full body when valid, else the fixed 502 |
| `ConnectorLoops.Run` | bridge/development/connector.go:67-98 | stops at the first final attempt; each wait is between half and all of the backoff for the current streak of short connections |
| `ConnectorLoops.DelayClosedForm` | bridge/development/connector.go:92-96 | the backoff doubles while below half the maximum and is the maximum afterwards, always within its bounds |
| `ConnectorLoops.RefreshInTime` | bridge/development/connector.go:263-265 | a renewal falls due before the lease ends: a minute away, or at the midpoint of what is left to within a nanosecond |
| `Custody.WithResourceKey` | bridge/custody.go:89-97 | operations succeed only before the callback ends and what they return decrypts under the provider's key; afterwards the shared buffer is zero, every copy refuses, and the provider's buffer is unchanged |
| `Custody.KeyState.EncryptValue` | bridge/custody.go:211-234 | refuses exactly when the key is gone or the caller is not entitled: a live context with an unexpired invocation that lists the resource and both capabilities and is the one the key was bound to; a value returned decrypts to the plaintext under its own context and under no other |
| `Custody.KeyState.Clear` | bridge/custody.go:95 | zeroes the buffer and drops the key |
| `Custody.SealedOpens` | bridge/custody.go:211-263 | every value sealed opens to the same plaintext under its own context |
| `Custody.RejectedElsewhere` | bridge/custody.go:238-263 | and is rejected under any other, relabelled or not, short of a forgery |
| `Custody.DecryptExact` | bridge/custody.go:238-263 | decryption succeeds if and only if format and context are the expected, valid ones, nonce and ciphertext are canonical spellings within their limits, and the cipher opens them |
| `Custody.MatchesExact` | bridge/custody.go:135-141 | what the invocation check amounts to |
| `Base64Url.DecodeResourceBase64` | bridge/custody.go:195-209 | the alphabet loop followed by the strict decode is the first of the three acceptors |
| `Base64Url.AcceptorsAgree` | lotorhttp/gateway_assertion.go:157-163 | all three acceptors take exactly the encoder's image among non-empty texts, with the same bytes |
| `Base64Url.StrictIsCanonical` | bridge/custody.go:195-209 | what the strict acceptor takes is the encoding of what it returns |
| `Base64Url.RoundTrip` | lotorhttp/resource_links.go:19-34 | decoding an encoding gives the bytes back |
| `Base64Url.PlainIsAmbiguous` | lotorhttp/gateway_assertion.go:157-163 | three spellings of one byte that plain or strict decoding accepts, of which the acceptors take one |
| `Base64Url.EncodedLengthIs` | bridge/protocol.go:240-245 | the encoder's output has exactly the length the size checks compute |
| `WireVectors.Base64` | bridge/custody.go:195-209 | the test vectors of section 10 of RFC 4648, and one text with the URL-safe characters |
| `Manifest.ManifestDigest` | bridge/protocol.go:144-175 | rejects exactly the malformed manifests and those where two functions share name and version; otherwise hashes the listing ascending by name, then version |
| `Manifest.SortFunctions` | bridge/protocol.go:149-155 | a permutation of the functions in which each precedes the next by name, or by version within one name |
| `Manifest.BeforeExact` | bridge/protocol.go:150-155 | the comparison is by name, then by version, each in lexicographic order |
| `Manifest.Scan` | bridge/protocol.go:156-163 | accepts exactly when every function is well formed and no neighbours share name and version |
| `Manifest.NeighboursSuffice` | bridge/protocol.go:156-163 | after sorting, distinct neighbours mean all distinct |
| `Manifest.OrderIrrelevant` | bridge/protocol.go:144-175 | permuted manifests get the same digest or the same rejection |
| `Manifest.TextNamesFunctions` | bridge/protocol.go:164-174 | the text hashed determines the functions and their order |
| `Manifest.DigestNamesSet` | bridge/protocol.go:144-175 | manifests with the same digest hold the same functions, or two named texts collide |
| `Ownership.Resolver.SigningKey` | lotor/ownership.go:286-324 | a key returned is filed under its fingerprint; an unknown key refreshes the whole set or changes nothing |
| `Ownership.Resolver.Resolve` | lotor/ownership.go:130-143 | serves the cache exactly while more than five seconds are left, else only a fetched assertion that is signed, complete and in its window; with a known signing key, every such one |
| `Ownership.Resolver.Invalidate` | lotor/ownership.go:146-150 | empties the cache and keeps the keys |
| `Ownership.Resolver.AcceptMoved` | lotor/ownership.go:215-240 | accepts and caches an assertion only when it is signed, complete and in its window, and has the same tenant, application and environment, a larger epoch and another endpoint; with a known signing key, every such one |
| `Ownership.Others` | lotor/ownership.go:130-150 | over any interleaving the cache is empty or verified, and everything served from it is within its time bounds |
| `Ownership.CacheWindow` | lotor/ownership.go:354-378 | with a non-negative issue time, a cached assertion is served with over 5 s left and under 115 s after it was verified |
| `Ownership.VerifiesExact` | lotor/ownership.go:354-378 | what verification accepts, without wrapped arithmetic |
| `Ownership.ServableExact` | lotor/ownership.go:134 | the cache is used exactly while more than five seconds are left |
| `Ownership.CollectExact` | lotor/ownership.go:299-318 | a published key list is taken if and only if every item is in order and no ID repeats, and then whole |
| `Ownership.WindowExact` | lotor/ownership.go:354-378 | the lifetime check bounds the lifetime by a minute if and only if the difference does not overflow |
| `Ownership.WindowOverflows` | lotor/ownership.go:354-378 | an assertion that verifies although its lifetime is over a million minutes |
| `Ownership.WithOwnerRetry` | lotor/ownership.go:173-213 | runs the operation at most twice, the second time exactly after an accepted MOVED with the same scope, a larger epoch and another endpoint |

## Left out

- The control HTTP clients, `lotorhttp/handler.go`, the organization relay and the browser adapter: request building and field validation.
- `lotor/key_access.go`, the per-operation client methods and `do`'s decoding of error statuses: positional field copying.
- Frames no encoder produces: beyond the incomplete and panicking outcomes of `decodeFrame` nothing is claimed about them.
- Values whose kind is outside the nine tags, which encode as null, and the memory a huge announced count allocates.
- `Initialize` and PostgreSQL internals: single statements are atomic and rows are never deleted; rows migrated from JSONB are not modelled.
- TLS, DNS, URL and MIME parsing, WebSocket and HTTP libraries, and the cryptographic primitives.
- JSON lexing: compaction and reading results back are assumptions, and `JsonText` covers printable ASCII strings only, which is all the checks admit.
- The execution timeout: the handler's context may end at any moment, which includes the deadline.
- `OpenPayload` and `WithPayloadCustody`: the same key lifetime as `EncryptValue`, with more field checks.
- The connector's handshake, session validation, heartbeat and renewal traffic; the renewal time is modelled, and the keepalive giving up may end a generation's context at any moment.
- `ownershipPayload`: signature verification takes the whole assertion as the signed content.
- Ownership clock readings before 1970 (negative) and at or above 0x7FFFFFFF00000000 microseconds.
- The rest of `gateway_assertion.go`: replay protection rests on a store outside the repository.
