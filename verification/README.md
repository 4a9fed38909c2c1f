# Worker Context Protocol: verified models

Dafny models of the parts of the Worker Context Protocol repository on which its guarantees
rest, with proofs of those guarantees. `dafny verify dfyconfig.toml` checks everything.

## What is modelled

**Canonical JSON** (`Doubles`, `JsonText`, `KeyOrder`, `Canonical`, `CanonicalTexts`,
`CanonicalEncoders`, `EncoderAgreement`). The printer used for every hash and signature, for the encoders of the
repository: the Python coordinator (`json.dumps`, ASCII only), Go 1.22 (escapes `<`, `>`, `&`,
U+2028, U+2029), TypeScript (keys by UTF-16 unit) and Rust. Escaping follows section 7 of
RFC 8259 and section 3.2.2.2 of RFC 8785. A number is an integer. Python prints it in full, and so
does Go for `int` and `int64` (encoder `Go`). Rust prints integers of 64 bits in full and holds
larger ones as `f64`, printed with an exponent. TypeScript and Go's `float64` (encoder
`GoDecoded`: every number that `encoding/json` decoded, so also what Go's re-encoding branch
prints) hold doubles and print the shortest decimal that rounds back to the double,
with an exponent from 10^21 on. A reader is given that undoes each printer, rounding to a double
where a number is held as one, so one text stands for one value. A dict is a map, so the order in
which its members are listed is not part of the value; the Go loop reads its keys in an arbitrary
order. The encoders' comments say that they match the coordinator's text. They do so exactly for
values whose characters both escape alike and whose numbers both print alike; `AgreementFails`,
`LargeIntegersDiffer` and `LargeRustIntegersDiffer` name values for which they do not.

**Audit log** (`AuditChain`, `AuditProofs`). A table of rows, the append that links a row to
the latest row of its claim, and the walk that re-checks a claim. The hash and the signer are
arbitrary functions, known only to give 64 characters and to verify what was signed. The hash
is not taken to be injective, which a 64-character digest cannot be. Some two strings always
collide, so a result that depends on the hash says which: its other outcome is a collision between
what is hashed of the rows at hand (`HashedIn`, `LinksCollide`).
Timestamps are integers. Rows with equal timestamps are read in the order they were added,
where SQL leaves the order open; the results hold for claims without such ties.

**Task lifecycle** (`Threshold`, `Lifecycle`, `LifecycleInvariants`, `LifecycleLog`,
`LifecycleRuns`, `LifecycleLaws`, `LifecycleEntries`, `TasksService`, `ObservedDecisions`). `Lifecycle` specifies each remote call as a step on the
tables of workers, tasks, claims, evidence and audit rows; `TasksService.Service` is the class
whose methods update those tables and take these steps; the other modules prove what every run
of calls keeps, and, without the steps, exactly when each call is accepted, what it changes and what
it writes to the log. A run is any sequence of calls with any arguments, refused ones included; a
service remembers (as a ghost) the calls its tables result from, so that what is proved of runs
holds of it. Signature checks, `verify_single`, the reasons verifiers give and whether a date can
be read are answers that come with the call or from arbitrary functions, the clock is an arbitrary
sequence of readings, and new ids that the database already holds are refused.
`LifecycleExamples` holds runs that reach the states named under the differences below.

**Base58 and identifiers** (`Radix`, `Base58`, `DidWcp`, `Multibase`). The coordinator's
big-integer encoder and decoder, the Go SDK's in-place long division over a byte array, the
`did:wcp` resolver and the multibase form. The multibase module's own base58 loops compute the
same two functions as the coordinator's.

**Clients** (`WcpLite`, `RpcClient`, `RpcClientRuns`, `RpcClientObject`). The offline audit buffer, whose replay
is split where it awaits the coordinator, and the JSON-RPC client with its bounded queue,
pending calls and replaceable sockets.

**Federation and matching** (`Federation`, `Revocation`, `Matching`, `Capabilities`). Export and
import of a claim's chain, trust anchors with forwards in flight, the worker matcher and the
registration of workers.

## Where code and documentation differ

- `tasks_service.py` says that a review verdict waits for a follow-up call that resolves it. No
  call does: `ReviewOnlyAborts` shows that only an abort ever leaves that state, and
  `ReviewReached` is a run that gets there.
- `execute_event` logs the worker's event type verbatim, so a worker can log a name that the
  coordinator uses. `EventExactly` says which names then mislead a reader of the log, and
  `LogMisleads` is a run whose log reads as completed while the task is executing.
- The encoders are documented to match the coordinator's text; see Canonical JSON above.
- `wcp_lite.py` clears the whole buffer after an accepted replay, so an entry appended while
  the submit was awaited is lost (`LateAppendIsLost`), and two replays awaited at once deliver
  the batch twice (`SecondReplayRepeats`); `RunConservesExactly` gives the condition on runs.
- The TypeScript client loses a pending call without settling its promise when it is closed, and
  when a reply carries the call's id and a null `error`, on whose `code` the handler throws
  (`AbandonsExactly`, `LostNeverSettles`; `NullErrorIsLost` is such a run).
- `router.py` checks before a forward that the anchor has not been revoked, but only that some
  anchor is stored for the peer: a call starts on an expired anchor (`ExpiredStillForwarded`), and
  to the URL of a removed one once the peer is added again (`RemovedUrlCalled`).
- The Go encoder writes one `1` too many when no byte of the input is non-zero
  (`GoBase58Encode`).
- An identifier made for the legacy form whose text starts with `z` is read by the multibase
  module as another key (`LegacyReading`), and there is a 32-byte key for which this happens
  (`LegacyMisread`).

## Model

| member | source | states |
|---|---|---|
| JsonText.EscapeInverts | wcp_sdk_typescript/src/canonical.ts:9 | whatever any of the encoders writes for a character, surrogate pairs included, reads back as that character |
| CanonicalTexts.LiteralExactly | wcp_sdk_typescript/src/canonical.ts:9 | which characters each encoder writes as themselves |
| CanonicalTexts.ShortEscapes | wcp_sdk_rust/src/canonical.rs:45-47 | the seven characters with an escape of two characters |
| CanonicalTexts.LongEscapes | wcp_sdk_rust/src/canonical.rs:45-47 | every other escape is `\u` and lower-case digits, twice for a character beyond U+FFFF |
| JsonText.QuoteInverts | wcp_sdk_rust/src/canonical.rs:45-47 | a quoted string reads back whole, and the reader stops exactly at its end |
| JsonText.NumberInverts | wcp_sdk_typescript/src/canonical.ts:9 | a number reads back from the text each encoder writes for it, rounded to a double where the encoder holds it as one |
| Doubles.DoubleExactly | wcp_sdk_typescript/src/canonical.ts:9 | the doubles are the products of a 53-bit integer and a power of two |
| Doubles.NearestExactly | wcp_sdk_typescript/src/canonical.ts:9 | rounding gives a double, none is closer, and a tie goes to the even one |
| CanonicalTexts.ExponentExactly | wcp_sdk_typescript/src/canonical.ts:9 | a double is printed with an exponent exactly from 10^21 on |
| CanonicalTexts.KnownNumbers | wcp_sdk_rust/src/canonical.rs:12 | the texts of 10^21 in TypeScript and of -2^64 in Rust |
| Doubles.DecimalShortest | wcp_sdk_go/canonical.go:17-18 | the decimal printed for a double has the most trailing zeros of all that round to it, and is the closest of those |
| Doubles.DecimalExactly | wcp_sdk_go/canonical.go:17-18 | a double is printed as the integer it is exactly when no decimal that rounds to it has more trailing zeros than it has |
| KeyOrder.BeforeTotal | wcp_sdk_typescript/src/canonical.ts:14 | the key order (code points, or UTF-16 units) is total and strict on strings |
| KeyOrder.BeforeExactly | wcp_sdk_go/canonical.go:53-57 | a key comes before those it is a prefix of; otherwise the first character that differs decides, by code point or by UTF-16 unit |
| KeyOrder.OrdersDiffer | wcp_sdk_typescript/src/canonical.ts:14 | U+FF61 and U+10000 are ordered one way by code point and the other by UTF-16 unit |
| KeyOrder.ListingIsUnique | wcp_sdk_go/canonical.go:53-57 | a key set has one sorted listing, so the order in which a map yields its keys cannot show |
| Canonical.CanonInverts | wcp_sdk_go/canonical.go:13-73 | reading a value's canonical text gives back the value, large doubles included, and leaves exactly what follows it |
| Canonical.CanonInjective | wcp_sdk_go/canonical.go:10-12 | two values that an encoder can hold have the same canonical text exactly when they are equal |
| CanonicalTexts.ObjectText | wcp_sdk_go/canonical.go:52-73 | an object is its members with ascending keys, key and value separated by a colon, members by commas, in braces |
| CanonicalTexts.ArrayText | wcp_sdk_go/canonical.go:37-50 | an array is its items in order, separated by commas, in brackets |
| CanonicalTexts.KnownText | wcp_sdk_typescript/src/canonical.ts:8-20 | one object in full, as every encoder writes it |
| CanonicalEncoders.CanonicalJson | wcp_sdk_go/canonical.go:13-35 | the recursive encoder returns the canonical text, whether numbers are integers or doubles |
| CanonicalEncoders.CanonicalArray | wcp_sdk_go/canonical.go:37-50 | the appending loop over items returns the canonical text of the array |
| CanonicalEncoders.CanonicalObject | wcp_sdk_rust/src/canonical.rs:29-43 | the appending loop over sorted keys returns the canonical text of the object |
| CanonicalEncoders.SortedKeyList | wcp_sdk_go/canonical.go:53-57 | collecting keys in any order and sorting them gives the one sorted listing |
| EncoderAgreement.AgreementExactly | wcp_sdk_go/canonical.go:10-12 | an SDK's text of a value it can hold equals the coordinator's exactly when every character of every string and key, and every number, is one that both write alike |
| EncoderAgreement.SafeNumbers | wcp_sdk_typescript/src/canonical.ts:1-6 | numbers below 2^53 in magnitude are always held and written alike, so there only characters can differ |
| EncoderAgreement.LargeIntegersDiffer | wcp_sdk_typescript/src/canonical.ts:9 | 2^60 and 10^21 make the documented equality fail for TypeScript and for Go's `float64`, and 2^60 as `float64` shares its text with another `int64` |
| EncoderAgreement.LargeRustIntegersDiffer | wcp_sdk_rust/src/canonical.rs:12 | the Rust text of every integer beyond 64 bits that it holds, 2^64 among them, differs from the coordinator's |
| EncoderAgreement.AgreementFails | wcp_sdk_typescript/src/canonical.ts:1-6 | an accented letter (every SDK) and `<` (Go) make the documented equality fail |
| Radix.Normalize | wcp_coordinator/did_resolver.py:40-47 | any notation is its leading zeros followed by the shortest notation of its value |
| Radix.ValueConcat | wcp_coordinator/did_resolver.py:40-47 | digits in front weigh by the number of digits behind |
| Base58.AlphabetIsCharOf | wcp_coordinator/did_resolver.py:25-26 | the digit-to-character map is the base58btc alphabet |
| Base58.DecodeEncode | wcp_coordinator/did_resolver.py:29-47 | decoding undoes encoding on every byte string, leading zeros included |
| Base58.EncodeDecode | wcp_coordinator/did_resolver.py:29-47 | exactly the texts over the alphabet decode, and encoding undoes that |
| Base58.KnownText | wcp_coordinator/did_resolver.py:29-47 | a published example, with leading zeros, in full both ways |
| Base58.MinimalBytes | wcp_coordinator/did_resolver.py:35 | the byte count computed from the bit length never overflows and leaves no leading zero byte |
| Base58.B58Encode | wcp_coordinator/did_resolver.py:40-47 | the divide-by-58 loop returns the base58 text of the bytes |
| Base58.B58Decode | wcp_coordinator/did_resolver.py:29-37 | the accumulating loop returns the bytes a text stands for, or fails on a foreign character |
| Base58.PassStep | wcp_sdk_go/identity.go:33-40 | each quotient digit of the in-place division fits a byte, and the prefix stays divided by 58 |
| Base58.DivideInPlace | wcp_sdk_go/identity.go:30-40 | one inner loop leaves the quotient by 58 in the array, returns the remainder, and tells whether the quotient is zero |
| Base58.GoBase58Encode | wcp_sdk_go/identity.go:17-53 | the in-place encoder ends and returns the coordinator's text, plus one extra `1` exactly when no byte is non-zero |
| DidWcp.ResolveExactly | wcp_coordinator/did_resolver.py:76-93 | a did resolves to a key and path exactly when it spells that 32-byte key's identifier followed by that path |
| DidWcp.ResolveErrors | wcp_coordinator/did_resolver.py:76-93 | an identifier is refused for a foreign character or for a key that has not 32 bytes |
| DidWcp.ResolveDidFromPubkey | wcp_coordinator/did_resolver.py:116-119 | the identifier made from a 32-byte key resolves back to that key |
| Multibase.CanonicalizeIdempotent | wcp_sdk_python/wcp_sdk/preview/multibase_identifier.py:145-153 | on every accepted identifier, canonicalizing keeps the key and is idempotent |
| Multibase.DecoderByLetter | wcp_sdk_python/wcp_sdk/preview/multibase_identifier.py:106-133 | the letter after the prefix selects the decoder of the rest |
| Multibase.CanonicalKeysIndex | wcp_sdk_python/wcp_sdk/preview/multibase_identifier.py:145-153 | two accepted identifiers share a canonical form exactly when they stand for the same key |
| Multibase.LegacyReading | wcp_sdk_python/wcp_sdk/preview/multibase_identifier.py:106-133 | a legacy identifier without a multibase letter in front is read as its key; one starting with `z` never is |
| Multibase.LegacyMisread | wcp_sdk_python/wcp_sdk/preview/multibase_identifier.py:106-133 | there is a 32-byte key whose legacy text starts with `z`, which is therefore never read back |
| Multibase.ResolverMisreadsMultibase | wcp_coordinator/did_resolver.py:76-93 | the coordinator's resolver never answers the key a multibase identifier was made from |
| AuditChain.AuditLog.Append | wcp_coordinator/audit_chain.py:76-131 | the table grows by exactly the row linked to the claim's latest row, hashed and signed |
| AuditChain.AuditLog.CheckRow | wcp_coordinator/audit_chain.py:157-195 | the four checks of one row, and nothing else, decide |
| AuditChain.AuditLog.VerifyChain | wcp_coordinator/audit_chain.py:142-198 | the walk answers yes exactly when every row of the claim, by timestamp, passes the checks against its predecessor |
| AuditProofs.ByTimePermutes | wcp_coordinator/audit_chain.py:149-155 | reading by timestamp loses no row and invents none |
| AuditProofs.AppendExactly | wcp_coordinator/audit_chain.py:96-140 | an append keeps a sound chain sound if its timestamp is the claim's latest; otherwise (no tie) it breaks it, or the link bytes of two of its rows collide |
| AuditProofs.AuthenticVerifies | wcp_coordinator/audit_chain.py:142-198 | in a table built by appends, however claims interleave, a claim with strictly increasing timestamps verifies |
| AuditProofs.VerifiesExactly | wcp_coordinator/audit_chain.py:142-198 | in a table built by appends, a claim without tied timestamps verifies exactly when its timestamps increase, or the link bytes of two of its rows collide |
| AuditProofs.LinkBinds | wcp_coordinator/audit_chain.py:173-183 | equal link bytes mean equal link fields, absent and empty ids being the same |
| AuditProofs.TamperEvident | wcp_coordinator/audit_chain.py:142-198 | two histories that verify and end in the same hash agree entry by entry on payload and every link field, or bytes hashed of the one collide with bytes hashed of the other |
| Threshold.EvaluateIgnoresOrder | wcp_coordinator/attestation_verifier/__init__.py:76-144 | the decision depends only on the multiset of mode and verdict |
| Threshold.EvaluateExactly | wcp_coordinator/attestation_verifier/__init__.py:76-144 | for every requirement and submission, exactly when it passes and exactly when it is left for review |
| Threshold.EvaluateMonotone | wcp_coordinator/attestation_verifier/__init__.py:76-144 | upgrading verdicts or adding passing ones never lowers the decision, for any requirement |
| Threshold.AllNeverReview | wcp_coordinator/attestation_verifier/__init__.py:101-120 | `all` over named modes never leaves a submission under review |
| LifecycleInvariants.PassIsBacked | wcp_coordinator/tasks_service.py:532-589 | when a call passes, the rows it stored hold the passing evidence the requirement asks for |
| LifecycleInvariants.StepKeeps | wcp_coordinator/tasks_service.py:92-752 | every call, accepted or refused, keeps the invariant: one claim per task past POSTED, attempts bounded by state, completion backed by stored evidence, rows made by appends |
| LifecycleInvariants.RunKeeps | wcp_coordinator/tasks_service.py:92-752 | every reachable state satisfies that invariant, so attempts are 0 before attestation, strictly between 0 and the maximum while rechecking, and max(1, maximum) when voided |
| LifecycleLog.EventExactly | wcp_coordinator/tasks_service.py:414-455 | after an accepted worker event the log still tells the state exactly when the event's name is not one of the coordinator's for leaving EXECUTING |
| LifecycleLog.StepLogs | wcp_coordinator/tasks_service.py:282-752 | every call keeps every claim's log telling the state, given harmless event names |
| LifecycleLog.LogRebuildsState | wcp_coordinator/tasks_service.py:372-751 | over every run whose accepted events have harmless names, folding a claim's entries rebuilds state and attempts, attempts are numbered 1..k, and a terminal entry is only ever last |
| LifecycleLog.LogsTellExactly | wcp_coordinator/tasks_service.py:372-751 | a run keeps every log telling the state after every call exactly when its accepted events have harmless names |
| LifecycleLog.RunVerifies | wcp_coordinator/audit_chain.py:142-198 | over every run, a claim with increasing timestamps verifies, and read by timestamp its log rebuilds the state |
| LifecycleLog.RunVerifiesExactly | wcp_coordinator/audit_chain.py:142-198 | over every run, a claim without tied timestamps verifies exactly when its timestamps increase, or the link bytes of two of its rows collide |
| LifecycleRuns.SweepExact | wcp_coordinator/tasks_service.py:457-498 | the sweep promotes exactly the executing claims whose heartbeat is over 45 s old, writes one timeout entry for each, and changes nothing else: no other claim's task or log, and no task without a claim |
| LifecycleLaws.HeartbeatExactly | wcp_coordinator/tasks_service.py:443-447 | over every run, a claim's recorded heartbeat is the time of its last accepted heartbeat event, or of the claim itself |
| LifecycleLaws.SweepByHeartbeats | wcp_coordinator/tasks_service.py:457-498 | over every run, a sweep promotes exactly the executing claims last shown alive more than 45 seconds ago |
| LifecycleEntries.SweepEntries | wcp_coordinator/tasks_service.py:479-494 | a sweep writes one timeout entry for each claim it promotes, in order, with that claim's last heartbeat |
| LifecycleRuns.SweepIdempotent | wcp_coordinator/tasks_service.py:457-498 | a second sweep at the same time promotes nothing and changes nothing |
| LifecycleRuns.StepEffect | wcp_coordinator/tasks_service.py:392-752 | whatever the call, each claim follows the lifecycle diagram, its log only grows, its counter moves by one with a judged attestation and otherwise not |
| LifecycleRuns.TerminalForever | wcp_coordinator/tasks_service.py:512-524 | once completed, voided or aborted, neither the task nor its claim's log ever changes again |
| LifecycleRuns.ReviewOnlyAborts | wcp_coordinator/tasks_service.py:654-655 | from a review verdict, whatever calls follow, the state is ATTESTING or ABORTED |
| LifecycleRuns.AttemptsCounted | wcp_coordinator/tasks_service.py:591-594 | the counter equals the attestations judged for the claim, and no run gets more than max(1, maximum) of them |
| LifecycleLaws.AttemptBound | wcp_coordinator/tasks_service.py:527-530 | over every run, attempts stay within the descriptor's maximum: 0 before attestation, below it while rechecking, at it when voided |
| LifecycleRuns.SecondPreemptionNeverFires | wcp_coordinator/tasks_service.py:354-360 | in a reachable state a posted task has no accepted claim |
| LifecycleRuns.CompletionIsEarned | wcp_coordinator/tasks_service.py:532-623 | whatever the call, if it completes a task it is an attestation, and the rows it stores are by themselves the passing evidence required |
| LifecycleRuns.CompletedRun | wcp_coordinator/tasks_service.py:532-623 | over every run, behind each completed task is one attestation call that completed it and by itself stored the passing evidence required |
| LifecycleEntries.AttestExactly | wcp_coordinator/tasks_service.py:532-655 | an attestation of storable evidence counts the attempt, stores the signed evidence, and completes the task exactly if the verdicts suffice; otherwise it waits, rechecks or voids |
| LifecycleEntries.AttestRefused | wcp_coordinator/tasks_service.py:512-587 | any other attestation changes nothing, but for the evidence before a piece that cannot be stored |
| LifecycleEntries.AttestEntries | wcp_coordinator/tasks_service.py:597-653 | the attempt entry and the completion, recheck or void entry that follows it, in full |
| ObservedDecisions.DecisionsTold | wcp_coordinator/tasks_service.py:814-829 | over every run with harmless events, the k-th attempt in a claim's log shows the decision the k-th judged attestation was answered with |
| LifecycleExamples.LogMisleads | wcp_coordinator/tasks_service.py:448-454 | a run of five accepted calls after which the log reads as completed, the task is executing and there is no new evidence |
| LifecycleExamples.ReviewReached | wcp_coordinator/tasks_service.py:654-655 | a run of five accepted calls that leaves a task under review |
| LifecycleRuns.TerminalEntry | wcp_coordinator/tasks_service.py:611-653 | a log has a terminal entry exactly when the state is terminal; it is the last entry and names the state |
| TasksService.Service.constructor | wcp_coordinator/tasks_service.py:78-88 | a service starts over whatever tables earlier calls have left |
| TasksService.Service.Post | wcp_coordinator/tasks_service.py:92-197 | takes the specified step, every refusal in its order, adds the call to those its tables result from, and counts the workers that match |
| LifecycleLaws.PostExactly | wcp_coordinator/tasks_service.py:92-197 | exactly when a post is accepted, and what it stores |
| LifecycleLaws.PostRefusals | wcp_coordinator/tasks_service.py:109-149 | a refused post names the first condition that fails |
| LifecycleEntries.PostEntries | wcp_coordinator/tasks_service.py:168-189 | the entry a post writes, in full |
| TasksService.EligibleExactly | wcp_coordinator/tasks_service.py:199-241 | a worker is counted exactly if it is of an allowed class, attests in every required mode, takes the type, holds the certifications and is at the venue |
| TasksService.Service.ClaimTask | wcp_coordinator/tasks_service.py:282-389 | takes the specified step, every refusal in its order, and adds the call to those its tables result from |
| LifecycleLaws.ClaimExactly | wcp_coordinator/tasks_service.py:291-377 | exactly when a claim is accepted, expiry and self-dealing among the conditions, and what it stores |
| LifecycleEntries.ClaimEntries | wcp_coordinator/tasks_service.py:376-382 | the entry a claim writes, in full |
| TasksService.Service.ExecuteOpen | wcp_coordinator/tasks_service.py:392-412 | takes the specified step and adds the call to those its tables result from |
| LifecycleLaws.OpenExactly | wcp_coordinator/tasks_service.py:392-412 | exactly when execution opens, and the one change it makes |
| TasksService.Service.ExecuteEvent | wcp_coordinator/tasks_service.py:414-455 | takes the specified step and adds the call to those its tables result from |
| LifecycleLaws.EventAcceptedExactly | wcp_coordinator/tasks_service.py:414-455 | exactly when an event is accepted; a heartbeat then records its time and nothing else changes |
| LifecycleEntries.EventEntries | wcp_coordinator/tasks_service.py:448-454 | an accepted event is logged as the worker sent it |
| TasksService.Service.CheckHeartbeats | wcp_coordinator/tasks_service.py:457-498 | sweeps the executing claims in whatever order the query lists them |
| TasksService.Service.ExamineAll | wcp_coordinator/tasks_service.py:532-587 | the loop stores a row for each verified item and stops where a row cannot be built, keeping the rows before it |
| TasksService.Service.Attest | wcp_coordinator/tasks_service.py:502-664 | takes the specified step and adds the call to those its tables result from |
| TasksService.Service.Decide | wcp_coordinator/tasks_service.py:591-664 | counts and logs the attempt and routes on the decision, with the reasons in the payloads that carry them |
| TasksService.Service.Supervise | wcp_coordinator/tasks_service.py:675-712 | takes the specified step and adds the call to those its tables result from |
| LifecycleLaws.SuperviseExactly | wcp_coordinator/tasks_service.py:675-712 | exactly when supervision toggles, and the one change it makes |
| LifecycleEntries.SuperviseEntries | wcp_coordinator/tasks_service.py:694-706 | the entry a handoff writes, in full |
| TasksService.Service.Abort | wcp_coordinator/tasks_service.py:716-752 | takes the specified step and adds the call to those its tables result from |
| LifecycleLaws.AbortExactly | wcp_coordinator/tasks_service.py:716-752 | exactly when a task can be aborted, and the one change it makes |
| LifecycleEntries.AbortEntries | wcp_coordinator/tasks_service.py:738-751 | the entry an abort writes, in full |
| TasksService.Service.ObserveAudit | wcp_coordinator/tasks_service.py:756-840 | answers for a claim or a task: its rows by time, whether the claim verifies, the terminal payloads and the decision of each attempt; refused without either id |
| TasksService.FirstPayloadExactly | wcp_coordinator/tasks_service.py:806-812 | the payload shown for a type is that of its first entry |
| TasksService.ObservationIsTruthful | wcp_coordinator/tasks_service.py:756-840 | over every run with harmless event names and increasing timestamps, the claim verifies, as many attempts show as were used, and a terminal payload is there exactly for the state the task is in |
| Federation.VerifyChainSegment | wcp_coordinator/federation/audit_export.py:33-67 | the loop accepts exactly the segments whose every entry links, hashes and binds its payload |
| Federation.AbsentIsEmpty | wcp_coordinator/federation/audit_export.py:44-61 | a missing payload, id or first link counts as an empty one, a missing hash never passes |
| Federation.ExportExactly | wcp_coordinator/router.py:212-240 | a peer accepts an export exactly when the full check would, but for signatures and for an empty-string first link |
| Federation.ExportSound | wcp_coordinator/federation/audit_export.py:33-67 | every prefix of a chain that verifies is accepted by a peer |
| Federation.AuditExport.ImportPeerChain | wcp_coordinator/federation/audit_export.py:79-130 | every outcome of an import, a last entry with a null hash among them, and the one row it adds to the local log |
| Federation.CompletionExactly | wcp_coordinator/federation/audit_export.py:104-109 | the completion event read is the type of the last entry that is one |
| Federation.ImportIsTruthful | wcp_coordinator/federation/audit_export.py:101-130 | the completion event read from an honest peer's export names the terminal state of the peer's task, and is absent exactly when it is not terminal |
| WcpLite.BufferedAuditChain.Append | wcp_sdk_python/wcp_sdk/preview/wcp_lite.py:95-141 | appends the linked entry, or refuses exactly at capacity and changes nothing |
| WcpLite.BufferedAuditChain.VerifyChainIntegrity | wcp_sdk_python/wcp_sdk/preview/wcp_lite.py:143-168 | answers yes exactly when every entry hashes its contents and links to the one before |
| WcpLite.BufferedAuditChain.BeginReplay | wcp_sdk_python/wcp_sdk/preview/wcp_lite.py:179-194 | submits the whole buffer exactly when it passes the check, and refuses a corrupted one |
| WcpLite.SubmitsExactly | wcp_sdk_python/wcp_sdk/preview/wcp_lite.py:179-194 | a replay submits the whole buffer exactly if it holds something and every entry hashes its contents and links back |
| WcpLite.BufferedAuditChain.FinishReplay | wcp_sdk_python/wcp_sdk/preview/wcp_lite.py:194-197 | an accepted replay clears the buffer, a rejected one keeps it |
| WcpLite.TamperExactly | wcp_sdk_python/wcp_sdk/preview/wcp_lite.py:143-168 | replacing an entry under its old hash passes exactly when no hashed field changed, or the bytes hashed of the two entries collide |
| WcpLite.RunSane | wcp_sdk_python/wcp_sdk/preview/wcp_lite.py:91-197 | in every run that changes entries only by these operations the buffer stays within capacity and passes the check, and so does every batch sent |
| WcpLite.ConservesExactly | wcp_sdk_python/wcp_sdk/preview/wcp_lite.py:174-197 | an operation conserves entries exactly unless it accepts a replay whose batch is no longer the buffer |
| WcpLite.RunConservesExactly | wcp_sdk_python/wcp_sdk/preview/wcp_lite.py:91-197 | a run conserves entries throughout exactly when every accepted replay finds its batch to be the whole buffer |
| WcpLite.RunConserves | wcp_sdk_python/wcp_sdk/preview/wcp_lite.py:91-197 | with neither an append nor a second replay while a replay is pending, accepted batches followed by the buffer are everything appended, in order |
| WcpLite.AppendedAreGiven | wcp_sdk_python/wcp_sdk/preview/wcp_lite.py:95-141 | over every run, the entries appended hold in order the drafts given to the appends that found room |
| WcpLite.GivenConserved | wcp_sdk_python/wcp_sdk/preview/wcp_lite.py:91-197 | with one replay at a time and no append meanwhile, accepted and buffered entries are, draft by draft, what the worker gave |
| WcpLite.LateAppendIsLost | wcp_sdk_python/wcp_sdk/preview/wcp_lite.py:193-196 | an entry appended while a submit is pending is lost when it is accepted |
| WcpLite.SecondReplayRepeats | wcp_sdk_python/wcp_sdk/preview/wcp_lite.py:179-197 | two replays pending at once and both accepted deliver the batch twice |
| RpcClient.StepKeeps | wcp_sdk_typescript/src/rpc-client.ts:36-126 | every call and socket event keeps the client's invariant |
| RpcClient.RunKeeps | wcp_sdk_typescript/src/rpc-client.ts:36-126 | over every run ids go out in increasing order, an open socket leaves nothing queued, the queue is the last 64 queued since it was empty, each id is sent, queued, dropped or used up by a call that cannot be serialised, once, and each call settles at most once |
| RpcClientRuns.PendingExactly | wcp_sdk_typescript/src/rpc-client.ts:101-126 | over every run, a call is pending exactly if it was issued, socket open or not, and since then neither the client was closed nor a reply carried its id |
| RpcClientRuns.MessagesExactly | wcp_sdk_typescript/src/rpc-client.ts:101-116 | over every run, the messages sent, queued or dropped are exactly the calls made, with their ids and bodies |
| RpcClientRuns.SocketExactly | wcp_sdk_typescript/src/rpc-client.ts:36-53 | over every run, the current socket is that of the last connect, until any socket is closed |
| RpcClientRuns.ReadyExactly | wcp_sdk_typescript/src/rpc-client.ts:36-53 | over every run, a socket is open exactly if it has opened and nothing has closed it since |
| RpcClientRuns.SendsExactly | wcp_sdk_typescript/src/rpc-client.ts:93-116 | nothing is sent but on an open current socket, and a call made on one goes out at once |
| RpcClientRuns.QueueExactly | wcp_sdk_typescript/src/rpc-client.ts:93-116 | over every run, the queue holds the last 64 calls queued since it was empty, and nothing while the current socket is open |
| RpcClientRuns.BackoffExactly | wcp_sdk_typescript/src/rpc-client.ts:41-91 | over every run, the backoff counts the sockets lost since one last opened |
| RpcClientRuns.StreamedExactly | wcp_sdk_typescript/src/rpc-client.ts:62-69 | over every run, the handler gets each message that is a stream event, once |
| RpcClient.SettlesOwnId | wcp_sdk_typescript/src/rpc-client.ts:55-81 | over every run, the calls settled are exactly those for which a message with their own id and no null error came while they were pending, settled as that message says |
| RpcClient.AbandonsExactly | wcp_sdk_typescript/src/rpc-client.ts:71-126 | a pending call is lost unsettled exactly by closing the client or by a reply with its id and a null error |
| RpcClient.LostNeverSettles | wcp_sdk_typescript/src/rpc-client.ts:71-126 | a call so lost never settles, whatever follows |
| RpcClient.NullErrorIsLost | wcp_sdk_typescript/src/rpc-client.ts:74-77 | the first call of a connected client, answered with a null error, is lost |
| RpcClient.DroppedNeverSent | wcp_sdk_typescript/src/rpc-client.ts:112-113 | a call dropped from the full queue is never sent |
| RpcClientObject.Client.FlushQueue | wcp_sdk_typescript/src/rpc-client.ts:93-99 | the loop sends the whole queue in order if the current socket is open, and nothing otherwise |
| RpcClientObject.Client.Call | wcp_sdk_typescript/src/rpc-client.ts:101-116 | numbers the call and sends, queues, or queues and drops the oldest; a call that cannot be serialised only uses up its number |
| RpcClientObject.Client.HandleOpen | wcp_sdk_typescript/src/rpc-client.ts:41-45 | any socket's open event flushes to the current socket |
| RpcClientObject.Client.HandleClose | wcp_sdk_typescript/src/rpc-client.ts:48-51 | any socket's close event drops the current socket |
| RpcClientObject.Client.HandleMessage | wcp_sdk_typescript/src/rpc-client.ts:55-81 | stream events, unknown ids, replies and replies with a null error, each in its branch |
| RpcClientObject.Client.Close | wcp_sdk_typescript/src/rpc-client.ts:118-126 | closes the socket and forgets the pending calls |
| Matching.MatchingWorkers | wcp_coordinator/capabilities_service.py:130-217 | the loops, with their shortcuts, select exactly the workers of an allowed class that satisfy the query, in table order |
| Matching.ExtensionIgnored | wcp_coordinator/capabilities_service.py:154-158 | tables that differ only in class extensions select the same positions |
| Matching.StrongerExactly | wcp_coordinator/capabilities_service.py:172-217 | a query asks for more, field by field, exactly when every worker that satisfies it satisfies the other |
| Matching.StrongerShrinks | wcp_coordinator/capabilities_service.py:172-217 | a query that asks for more, field by field, selects among what the weaker one selected |
| Capabilities.CapabilitiesService.UpsertCapabilities | wcp_coordinator/capabilities_service.py:29-90 | a registration is accepted exactly when the worker resolves and version and class are known; rows are those of the last accepted ones, with their number as revision |
| Revocation.TrustedPeers.AddAnchor | wcp_coordinator/federation/trust_anchor.py:144-151 | an anchor is stored exactly when its signature holds and it has not expired |
| Revocation.StoreExactly | wcp_coordinator/federation/trust_anchor.py:144-187 | over every run, an anchor is stored exactly if it was added signed and unexpired and neither replaced nor removed since |
| Revocation.TrustedPeers.RemoveAnchor | wcp_coordinator/federation/trust_anchor.py:162-187 | removal, and one revoked entry when there was an anchor and the store is audited |
| Revocation.TrustedPeers.BeginForwardTask | wcp_coordinator/federation/router.py:84-104 | a forward starts exactly when a forwarder is configured and the peer is still in the store; each refusal in its order |
| Revocation.TrustedPeers.PickPeer | wcp_coordinator/federation/router.py:44-67 | the first stored peer that allows discovery and accepts the descriptor type, or none exactly if no stored peer does |
| Revocation.ForwardsAccounted | wcp_coordinator/federation/router.py:69-123 | each forward started is in flight, cancelled or logged, once, and each removal on an audited store is logged once |
| Revocation.AnswersLogged | wcp_coordinator/federation/router.py:105-123 | over every run, the log shows each answered forward once, in order, with its peer, URL and answer |
| Revocation.NoForwardAfterRemoval | wcp_coordinator/federation/router.py:89-97 | after a removal no forward to that peer starts until its anchor is added again |
| Revocation.ExpiredStillForwarded | wcp_coordinator/federation/router.py:93-97 | a forward starts on an anchor that has expired and allows nothing |
| Revocation.RemovedUrlCalled | wcp_coordinator/federation/router.py:93-106 | once a peer is added again, a forward with its removed anchor calls the removed URL |

## Left out

- SHA-256, Ed25519 and base64 internals: arbitrary functions, as said above.
- The database session, commit and rollback: an operation that raises leaves the tables as the service methods left them.
- HTTP and WebSocket transport, adapters, integrations, the CLI and the conformance runners: input, output and thin wrappers.
- Numbers that are not integers, the negative zero, and doubles past the largest finite one: the number model has integers only, and its doubles have no largest exponent.
- Rust and Python floats of integers that Rust also holds in 64 bits: they are printed with `.0` and are other values than the integers.
- Python's refusal to print an integer of more than 4300 digits.
- A Go value that holds some numbers as `int64` and others as `float64`: each number then has one of the two texts modelled, which are the same for safe integers.
- Invalid Unicode such as lone surrogates: Dafny characters are Unicode scalar values.
- AuditProofs.AppendExactly: says nothing of a timestamp that ties with one of the claim's, because SQL leaves the order of tied rows open; the same holds of `VerifiesExactly` and `RunVerifiesExactly`.
- The residual and the reasons in the answer of `attest`: texts that no branch reads; the reasons written to the log are modelled.
- The session table: rows are written at `execute_open` and never read.
- ISO dates: timestamps are integers, and a date that cannot be read is an absent one.
- The 100 ms claim tie-break: a constant with no code behind it.
- WcpLite.RunSane: the operations of a run do not include a caller changing a payload dict that the buffer shares with it; what the check then answers is `TamperExactly`, and `BeginReplay` is proved for buffers so changed.
- `WcpLite` capability and constraint helpers, and `multibase_identifier.encode` for encodings other than base58btc: plain formatting.
- The reconnect delay and its timer in the RPC client: a reconnect is a `Connect` event that may come at any time.
- A URL that the WebSocket constructor refuses, and exceptions thrown by the caller's own stream handler.
