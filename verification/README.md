# ResearchOps delivery and evidence model

A Dafny model of the parts of ResearchOps that decide whether a research mail is sent, sent
again, or believed to have been sent, and of the bounded decoders and budgets around it. Each
file holds one module; `dafny verify dfyconfig.toml` checks them all.

**The delivery protocol.** `Queue` gives every transaction of the durable SMTP queue as a
function of the tables it finds. `DurableQueue.SmtpQueue` is the queue as an object whose
methods update those tables statement by statement, with savepoints and rollbacks, and each
method is proved to do what its transaction says. `Effects` says in rows and columns when each
transaction goes through and what it writes. `Chains` and `QueueInvariant` hold the
invariant that every transaction keeps. `Transport` is one SMTP exchange as an automaton.
`World` puts the tables, the process that owns the sending slot, the server, the clock and
everyone else who writes to the database into one machine: a run is any sequence of events,
replies and exceptions are arbitrary, the owner may die between any two steps, and the server
may take a body it was sent at any later moment. `WorldInvariant`, `WireInvariant` and `Backoff`
prove what each event keeps, and `Safety` and `Permanence` state what holds in every run.
`Dispatcher.SmtpDispatcher` drives the queue object through a whole dispatch and is proved to
perform only steps of that machine. `RetryGuard` is the retry-family guard, over arbitrary
parent graphs.

**The independent checker.** `History` re-derives the outcome of a handoff from attempts and
receipts alone and is proved to agree with the queue in every reachable state; `HistoryReport`
bounds the report, and `Ledger` reconciles a worker's ledger with it.

**Formats.** `DotStuffing` (section 4.5.2 of RFC 5321), `Mime` (section 6.8 of RFC 2045), `Gif`
(sections 15 to 22 and 27 of the GIF89a specification), `Jpeg`, `PngChunks`, `Png` and `Adam7`
(section 8.2 of the W3C PNG Specification), `Html`, `StrictJson`; `Bytes` and `Unicode`
are shared by them.

**Budgets, files, records.** `Acquisition` and `Acquirer` are the two phases of the media
budget, `Restore` the crash-safe offline restore, `Reconcile` the paged revisit of finished
attempts, `Dedupe` the exact deduplication.

## Assumptions

- A run has one business (non-alert) handoff; publication refuses a second one.
- Time is an integer clock that never goes back. The retry policy is constant over a run and
  its delays and limits are positive, as the configuration loader requires.
- A final 4xx or 5xx reply is a refusal, as section 4.2.5 of RFC 5321 demands: the server does
  not answer so to a body it has taken or takes later. Every other reply, and every exception,
  is possible at every step.
- In the machine, `recover_interrupted` reads an attempt's phase and probes its owner in one
  step. The original reads first and probes later; `Permanence.StaleRecovery` states exactly
  when that order records the right result.
- Operators' retries carry the mode `manual` and pass the acknowledgement they record.
- SHA-256 and canonical JSON are injective, so a digest is what was hashed. CRC-32 and zlib are
  parameters of the PNG validator. The MIME digest is part of the message.
- The media fetcher keeps to the allowance it is given and does not under-report a transfer
  it describes as definite.
- A restore runs alone, under the exclusive guard; services run only under the shared one.

## Where the original falls short of its promise

- `smtp_transport.py` doubles a dot after every LF, RFC 5321 lines end at CR LF only: a message
  arrives unchanged if and only if no dot follows a bare LF (`DotStuffing.RoundTrip`,
  `DotStuffing.DottedBareLf`).
- `message_validator.py` adds an empty region for an image whose own record marker is only white
  space, though it skips such markers on ancestors (`Html.RegionsAreTrees`,
  `Html.BlankMarkerCounts`).
- A chain of more than 500 attempts with an outcome is rejected by the history verifier
  (`History.CheckerAgrees` gives the exact condition).
- `artifact_acquirer.py` rebinds `known` at line 540, so line 400 may see a boolean; the model
  uses the set of line 248, as meant.

## Model

| member | source | states |
|---|---|---|
| Safety.NoSilentDuplicates | researchops/delivery/queue.py:127-191 | in every run, whatever the server answers and whoever crashes, the server takes one handoff's message at most 1 + (attempts created with the duplicate acknowledgement) times |
| Safety.TakenNeverFails | researchops/delivery/queue.py:338-403 | an attempt whose body the server took never ends as failed; an accepted attempt's body was really sent |
| Safety.UncertaintyIsNeverLost | researchops/delivery/queue.py:382-400 | with nothing pending, a handoff is uncertain exactly when some attempt is uncertain and none was accepted, whatever failed or was cancelled later |
| Safety.AutomaticFollowsFailures | researchops/delivery/queue.py:407-421 | every attempt before an automatic one plainly failed: no automatic attempt follows an uncertain one |
| Safety.ChainInvariant | researchops/delivery/queue.py:44-46 | in every run attempts are numbered 1..n, each is its predecessor's child, all carry one message, only the last can be open, and one attempt at most is sending anywhere |
| Safety.BackoffBound | researchops/delivery/queue.py:407-415 | in an automatic chain nobody pulled forward, attempt n is due no earlier than first.created + base*(2^(n-1)-1), and both the configured maximum and the expiry bound n |
| Safety.ExpiryHolds | researchops/delivery/queue.py:235-240 | all automatic attempts of a chain share one expiry and no body is authorised at or after it |
| Safety.EveryRun | researchops/delivery/smtp_dispatcher.py:425-502 | every run from an empty database keeps the invariants of tables, wire, owner and timing |
| WireInvariant.WireKeep | researchops/delivery/smtp_dispatcher.py:455-502 | every event keeps the agreement between an attempt's status and the fate of its body, and between the owner's local variables and its row |
| WorldInvariant.TablesKeep | researchops/delivery/queue.py:60-428 | every event of the machine keeps the table invariant |
| Backoff.TimingKeeps | researchops/delivery/queue.py:407-421 | every event keeps the due times, expiries and limits of automatic attempts |
| Permanence.EvidenceIsPermanent | researchops/delivery/queue.py:338-403 | no later run changes a closed attempt, a receipt or a recorded retry request |
| Permanence.FinishAllOrNothing | researchops/delivery/queue.py:338-428 | after `finish` there is the terminal result with its receipt alone, or that and one complete retry, never part of one |
| Permanence.StaleRecovery | researchops/delivery/queue.py:317-336 | recovery records the result of the phase it read; it is the right result if and only if that phase is still current |
| QueueInvariant.EnqueueKeeps | researchops/delivery/queue.py:60-74 | enqueueing keeps the table invariant, including for a handoff that already has attempts |
| QueueInvariant.RetryKeeps | researchops/delivery/queue.py:127-159 | a retry keeps the invariant in all its branches: cached, pulled forward, inserted, refused |
| QueueInvariant.InsertKeeps | researchops/delivery/queue.py:162-191 | inserting a follow-up attempt extends the chain and clears the handoff's evidence |
| QueueInvariant.ClaimKeeps | researchops/delivery/queue.py:222-233 | claiming keeps the single sending slot and the chain |
| QueueInvariant.StartDataKeeps | researchops/delivery/queue.py:235-266 | crossing the submission boundary keeps the invariant |
| QueueInvariant.FinishKeeps | researchops/delivery/queue.py:338-428 | finishing with any status, with or without a reschedule, leaves the handoff showing exactly the receipt that governs its chain |
| QueueInvariant.CancelKeeps | researchops/delivery/queue.py:277-315 | cancelling keeps the invariant, an earlier uncertain receipt included |
| QueueInvariant.RecoverKeeps | researchops/delivery/queue.py:317-336 | recovering a dead owner's attempt keeps the invariant |
| Chains.CloseStep | researchops/delivery/queue.py:338-400 | closing the last attempt with a receipt keeps one chain's invariant, where an earlier uncertain receipt outlives a failure |
| Chains.DropStep | researchops/delivery/queue.py:295-312 | closing the last attempt by cancellation leaves the surviving uncertain receipt as the handoff's evidence |
| Chains.AppendStep | researchops/delivery/queue.py:173-181 | appending an acknowledged attempt, or one after plain failures only, keeps one chain's invariant |
| DurableQueue.SmtpQueue.Enqueue | researchops/delivery/queue.py:60-74 | a known job is accepted with the same content only; a new one needs a handoff without attempts, is due at once and never expires; anything else changes nothing |
| DurableQueue.SmtpQueue.InsertRetry | researchops/delivery/queue.py:162-191 | the statements of an insertion succeed exactly when every guard and unique index allows it, and then produce its tables |
| DurableQueue.SmtpQueue.Retry | researchops/delivery/queue.py:127-159 | a used key answers for its own request alone; otherwise the newest attempt is pulled forward or repeated, exactly when the acknowledgement, the family, the controls and the run allow it; a failure rolls everything back |
| DurableQueue.SmtpQueue.Claim | researchops/delivery/queue.py:222-233 | succeeds if and only if the attempt is queued and due and nothing is being sent; then only its status, token, process and update time change |
| DurableQueue.SmtpQueue.StartData | researchops/delivery/queue.py:235-266 | the boundary is crossed if and only if the owner holds a prepared, unexpired attempt whose message is approved, live, not cancelled and still awaited; then only phase and update time change |
| DurableQueue.SmtpQueue.RecordStage | researchops/delivery/queue.py:268-275 | only the owner records a stage, and only the row's update time changes |
| DurableQueue.SmtpQueue.Finish | researchops/delivery/queue.py:338-428 | goes through exactly for the owner; then attempt, receipt, handoff and run show the result together, and one follow-up attempt is added if and only if policy, time, family and controls ask for it |
| DurableQueue.SmtpQueue.RecordResult | researchops/delivery/queue.py:342-403 | the part of `finish` before rescheduling produces exactly the terminal tables |
| DurableQueue.SmtpQueue.TryInsert | researchops/delivery/queue.py:416-428 | a failed automatic insertion is rolled back to the recorded result |
| DurableQueue.SmtpQueue.CancelPendingForRun | researchops/delivery/queue.py:277-315 | cancels if and only if the run waits, was cancelled and none of its mail is being sent; then its queued attempts are closed unsent and an unresolved uncertain result survives on handoff and run |
| DurableQueue.SmtpQueue.RecoverInterrupted | researchops/delivery/queue.py:317-336 | finds nothing if and only if every sending attempt has a living owner or none on record; an orphan is always closed, uncertain past the boundary and failed before it |
| DurableQueue.SmtpQueue.Latest | researchops/delivery/queue.py:95-101 | the row with the highest number is the last of the chain |
| DurableQueue.SmtpQueue.NewestUncertain | researchops/delivery/queue.py:300-305 | the newest uncertain attempt with a receipt is the last uncertain one of the chain |
| Effects.EnqueueEffect | researchops/delivery/queue.py:60-74 | when an enqueue goes through and what it writes, in columns |
| Effects.ClaimEffect | researchops/delivery/queue.py:222-233 | when a claim goes through and what it writes, in columns |
| Effects.StartDataEffect | researchops/delivery/queue.py:235-266 | when the submission boundary may be crossed and what that writes, in columns |
| Effects.FinishEffect | researchops/delivery/queue.py:338-428 | what a result does to attempt, receipt, handoff, run and follow-up: acceptance succeeds the run, doubt needs attention even when an older attempt is the uncertain one, another failure waits for its follow-up, is cancelled, or fails |
| Effects.InsertsIs | researchops/delivery/queue.py:407-428 | an automatic follow-up is inserted if and only if the policy retries, attempts and time are left, nothing is uncertain, the run is neither cancelled nor dry, its family is clear and key and job are new |
| Effects.RetryEffect | researchops/delivery/queue.py:127-191 | when a retry goes through, what it answers and what it writes, in columns |
| Effects.CancelEffect | researchops/delivery/queue.py:277-315 | when a cancellation goes through and what it leaves of attempts, handoffs and run |
| Effects.RecoverEffect | researchops/delivery/queue.py:325-335 | closing the attempt of a dead process cannot fail, and records it by its phase |
| Transport.ExchangeIsHonest | researchops/delivery/smtp_transport.py:163-220 | before the boundary every failure is definite; after it acceptance needs a positive final reply, definite failure an explicit refusal, and all else is uncertain and not retryable |
| Transport.SendMessage | researchops/delivery/smtp_transport.py:189-220 | accepted if and only if MAIL, RCPT for every recipient, DATA with 354, the boundary, the body and the final reply were each answered as they must be; any other end is that of the first answer that was not |
| Transport.ByPosition | researchops/delivery/smtp_transport.py:163-220 | the k-th answer is for the k-th operation, and the first one that is not as expected decides status and retryability |
| Transport.SubmitBody | researchops/delivery/smtp_transport.py:202-220 | DATA, boundary, body and final reply drive the automaton with the body flag in step |
| Dispatcher.SmtpDispatcher.DispatchJob | researchops/delivery/smtp_dispatcher.py:425-502 | reports acceptance if and only if the attempt was free, valid and unexpired, all recipients + 6 answers let it go on, submission still allowed at the boundary, and the result was recorded; in every other case the status it leaves says how far it got; all of it is a run of the protocol machine |
| Dispatcher.SmtpDispatcher.Exchange | researchops/delivery/smtp_dispatcher.py:455-483 | the exchange stops at the first answer that does not let it go on, with the boundary crossed exactly after it; it performs machine steps only |
| Dispatcher.SmtpDispatcher.Report | researchops/delivery/smtp_dispatcher.py:484-502 | the result is recorded, or uncertain when that fails after the boundary; both are machine steps |
| Dispatcher.DispatcherIsSafe | researchops/delivery/smtp_dispatcher.py:425-502 | wherever a dispatcher stops, the duplicate bound holds of the queue object's own tables |
| RetryGuard.RootWalk | researchops/delivery/retry_guard.py:7-13 | the walk to the root ends on every parent map, cycles and missing parents included |
| RetryGuard.CloseFamily | researchops/delivery/retry_guard.py:14-25 | the recursive query's family is exactly the runs from which the root can be reached |
| RetryGuard.FamilyIsCommonAncestor | researchops/delivery/retry_guard.py:7-15 | a family is what has an ancestor in common with the starting run, on cyclic graphs and with missing parents too |
| RetryGuard.RequireRetryFamilyClear | researchops/delivery/retry_guard.py:6-35 | passes if and only if no other run with a common ancestor, dry runs aside, is queued, running or awaiting a receipt or has mail that is published, queued or uncertain |
| RetryGuard.SelfInFamily | researchops/delivery/retry_guard.py:7-15 | a run belongs to its own family |
| RetryGuard.SameFamily | researchops/delivery/retry_guard.py:7-15 | every member of a family computes the same family |
| RetryGuard.ClearFamilyIsQuiet | researchops/delivery/retry_guard.py:26-35 | after a passing guard an open delivery seen from any member is the caller's own |
| History.CheckerAgrees | researchops/engine/delivery_history.py:203-239 | in every reachable state a handoff is verified if and only if it has at most 500 attempts or no outcome, and what is reported is the outcome of its chain and the receipt it is marked with |
| History.VerifiedRetryReceipts | researchops/engine/delivery_history.py:63-114 | the loop accepts exactly the chains that are proven up to the current receipt, and returns one item per attempt |
| History.PendingAgrees | researchops/engine/delivery_history.py:117-146 | a second or later pending attempt is reported as pending with the whole proven chain behind it |
| History.NothingOnTrust | researchops/engine/delivery_history.py:203-239 | for any tables, corrupt ones included, a reported outcome is that of a row whose receipt the handoff names and was marked with; that row and all before it agree with their receipts in every field, nothing before it was accepted, and a failure hides no uncertain attempt |
| History.NoRetryOnTrust | researchops/engine/delivery_history.py:117-146 | for any tables, a retry reported as pending is the only attempt in flight, carries the same message and follows a chain of agreeing receipts that ends without an acceptance |
| History.ListingIsChain | researchops/engine/delivery_history.py:67-73 | ordering by attempt number lists the chain in order of insertion |
| HistoryReport.BuildHistory | researchops/engine/delivery_history.py:242-297 | every handoff within the limits leaves its entry or its diagnostic, also after a corrupt one, and collecting stops early only at a verified entry that does not fit; entries are verified and distinct, a complete report omits no handoff, and the report fits its byte limit |
| HistoryReport.BoundedHistory | researchops/engine/delivery_history.py:300-315 | truncation drops no more than the limit forces, entries before diagnostics, and says that it did |
| Ledger.Idempotent | researchops/engine/delivery_history.py:344-417 | applying every suggestion and reconciling again suggests nothing and doubts the same messages |
| Ledger.NeverDowngrades | researchops/engine/delivery_history.py:365-410 | no accepted message changes status, an uncertain one moves only to pending or accepted, and a moved one takes the outcome of the only entry that agrees with it in every field of its identity |
| Ledger.Reconcile | researchops/engine/delivery_history.py:355-416 | a message with exactly one entry that agrees with it in task, series, run, revision, bodies and bindings, or in their older spelling, is moved, left or doubted as that entry says; any other stays, and is doubted when open or uncertain; one malformed row rejects the ledger |
| Ledger.ExactIs | researchops/engine/delivery_history.py:318-341 | matching is agreement in every identity field, where old ledgers must spell out the last product of each record and list each record and each product once |
| Ledger.EveryRowAnswered | researchops/engine/delivery_history.py:355-410 | each row gets exactly the update and the doubts its own evidence calls for, whatever the other rows hold |
| Ledger.MatchesStay | researchops/engine/delivery_history.py:318-341 | status and receipt play no part in exact matching |
| DotStuffing.EndOnlyAtEnd | researchops/delivery/smtp_transport.py:184-188 | the end-of-data sequence occurs in the bytes sent only at their very end, for every message |
| DotStuffing.WholeWireConsumed | researchops/delivery/smtp_transport.py:184-188 | a conforming receiver takes exactly the bytes of this message, for every message |
| DotStuffing.RoundTrip | researchops/delivery/smtp_transport.py:184-188 | the receiver gets the message back, with CR LF added if it was missing, if and only if no dot follows a bare LF |
| DotStuffing.DottedBareLf | researchops/delivery/smtp_transport.py:184-188 | the message LF dot arrives with two dots |
| Gif.ValidateGif | researchops/engine/message_validator.py:499-539 | accepts exactly the byte strings of the block grammar within the limits, in bounds and always ending |
| Gif.AcceptedIsWellFormed | researchops/engine/message_validator.py:499-539 | what the scanner accepts splits into header, blocks and trailer with nothing left over, and every serialised block list is accepted |
| Gif.SkipData | researchops/engine/message_validator.py:530-538 | the inner loop finds the end of the sub-blocks, or reports truncation |
| Gif.TableSizeIs | researchops/engine/message_validator.py:505 | the colour table has three bytes for each of 2^(bits+1) colours, or none |
| Jpeg.ValidateJpeg | researchops/engine/message_validator.py:454-496 | accepts exactly the files of the marker grammar with a frame before a scan and the end marker last, in bounds and always ending |
| Jpeg.ReadIsWellFormed | researchops/engine/message_validator.py:454-496 | reading is sound and complete for the marker grammar, coded data included |
| Jpeg.CheckHead | researchops/engine/message_validator.py:476-495 | a segment passes exactly when its length, frame or scan header is in order |
| PngChunks.ScanChunks | researchops/engine/message_validator.py:385-421 | the chunk loop succeeds exactly on ordered lists of well-formed chunks and collects header, image data and palette |
| PngChunks.SplitsIsRead | researchops/engine/message_validator.py:389-419 | a file splits into serialised ordered chunks if and only if the reader finds these chunks |
| Png.ValidatePng | researchops/engine/message_validator.py:385-451 | accepts exactly the files whose chunks are in order, whose header is a legal pixel format, and whose decoded size and filter bytes fit |
| Png.CheckFilters | researchops/engine/message_validator.py:446-451 | the loop inspects exactly the first byte of each scanline, in bounds, and ends at the decoded length |
| Png.RowsTile | researchops/engine/message_validator.py:431-436 | scanlines follow one another without gaps and fill the decoded data |
| Adam7.PassesFillImage | researchops/engine/message_validator.py:428-432 | for every width and height the pass sizes add up to width times height |
| Adam7.OnePassEach | researchops/engine/message_validator.py:428 | every pixel is in exactly one pass |
| Adam7.ExtentCounts | researchops/engine/message_validator.py:432 | the width and height formulas count the columns and rows a pass hits |
| Adam7.CarriedIs | researchops/engine/message_validator.py:431-434 | a pass carries exactly width times height pixels by its formulas |
| Html.RegionsAreTrees | researchops/engine/message_validator.py:79-114 | the regions computed for an image are the nonempty record markers on it and its ancestors over all occurrences, with an extra empty region if and only if one of those images has a white-space marker |
| Html.BalancedIsTree | researchops/engine/message_validator.py:112-128 | a tag stream leaves empty stacks and no error exactly when it spells an element forest |
| Html.Parser.Feed | researchops/engine/message_validator.py:59-128 | feeding the tags leaves the stacks and the region table of the machine |
| Html.BlankMarkerCounts | researchops/engine/message_validator.py:95-98 | an image with a blank marker in a marked cell gets the regions "r" and "" |
| Unicode.StripIs | researchops/engine/message_validator.py:96-97 | stripping takes all white space off both ends and nothing else |
| Acquisition.Session.Acquire | researchops/engine/research_acquisition.py:223-333 | a new source becomes available if and only if the guards pass, files and bytes are left, and a usable body arrived for a session still open; it is charged what arrived, or what was reported, or its whole allowance when in doubt; consumed bytes stay the sum of the charges; a known source costs nothing and a contradictory one fails the session |
| Acquisition.Session.Transfer | researchops/engine/research_acquisition.py:247-329 | the record is available exactly for a usable body of an open session, and its charge follows from how the transfer ended |
| Acquisition.ChargeCovers | researchops/engine/research_acquisition.py:317-325 | the charge of a failed transfer covers what it moved and stays within its reservation |
| Acquirer.Acquire | researchops/engine/artifact_acquirer.py:367-555 | goes ahead exactly when session, local files and limits admit it; session, local and later bytes together stay within the byte limit and cover every byte moved, all files within the file limit; a part is in the message if and only if it belongs there, was at hand and usable at its turn and still fitted |
| Acquirer.Select | researchops/engine/artifact_acquirer.py:397-555 | the totals of every turn follow from the turn before, and a part is chosen exactly when it was wanted, at hand, usable and still fitted |
| Acquirer.FetchLater | researchops/engine/artifact_acquirer.py:430-462 | a later fetch is counted before it is made, and the totals grow by exactly what it moved, reported, or may have moved |
| Acquirer.ExistingFiles | researchops/engine/artifact_acquirer.py:153-208 | local files are paid for exactly, or refused exactly when they exceed what is left |
| Mime.PartBytesExact | researchops/engine/artifact_acquirer.py:51-54 | the closed form equals the length of the base64 body in 76-column lines plus headers, for every content |
| Restore.EveryRun | researchops/operations.py:35-55 | in every run of services and interrupted restores, a service that passes the guard finds exactly the files the last service or the last finished restore left, and while it is kept out those files are complete in a safety directory |
| Restore.CrashSafe | researchops/operations.py:238-301 | a restore stopped anywhere leaves the old files, or the replacement alone, or a marker with all old files saved |
| Restore.Database.RestoreDatabase | researchops/operations.py:238-301 | the operations run in their order up to the point of failure, and an unmarked failure removes the staging file |
| Reconcile.Reconciler.ReconcileCompleted | researchops/delivery/smtp_dispatcher.py:559-592 | a round ends only when it has visited every row that was in the table when it began, whatever was added meanwhile; a page starts after the cursor, and a full pass takes the whole table |
| Reconcile.PageHolds | researchops/delivery/queue.py:200-218 | a page holds every row between two cursors |
| Dedupe.ValidateAliases | researchops/engine/dedupe.py:12-35 | aliases validate exactly when every group gives its grounds and two to eight identities that spell every key field, and no two identities agree on all of them |
| Dedupe.KeysAreValues | researchops/engine/dedupe.py:48-56 | a record has a key exactly when no key field is missing, null or blank, and equal keys are equal values of every key field |
| Dedupe.FingerprintsAreContents | researchops/engine/dedupe.py:59-68 | contents are comparable exactly when every content field is there, and equal fingerprints are equal values of every content field |
| Dedupe.SameIsEquivalence | researchops/engine/dedupe.py:12-45 | validated aliases make key sameness an equivalence relation |
| Dedupe.CandidatesAreTheClass | researchops/engine/dedupe.py:38-45 | the candidates' keys are exactly the keys declared the same as the record's |
| Dedupe.DecisionIgnoresAlias | researchops/engine/dedupe.py:121-141 | naming a record by a declared alias of its identity never changes the decision |
| Dedupe.LeftOutIs | researchops/engine/dedupe.py:106-136 | a record is left out if and only if it is comparable and some identity declared for its key, or its own key, was reported with the content it has under that identity |
| Dedupe.ProcessRecords | researchops/engine/dedupe.py:75-143 | both result lists are the input filtered in order, and nothing is filtered when the feature is off or incomplete |
| Dedupe.NothingLost | researchops/engine/dedupe.py:102-143 | the two lists together are the input, each record as often as it came |
| Dedupe.EachInItsPlace | researchops/engine/dedupe.py:106-141 | a record is left out if and only if it is comparable and an equivalent record was reported with its content |
| StrictJson.CheckValue | researchops/strict_json.py:86-101 | the worklist accepts exactly the values with at most 128 levels of containers and only encodable strings and keys, and always ends |
| StrictJson.UniqueObject | researchops/strict_json.py:17-23 | an object decodes exactly when its keys are distinct, to the dictionary of its pairs |

## Left out

- SQLite, migrations, file descriptors, fsync and link checks: transactions are atomic and files abstract.
- TLS, authentication, sockets, MIME headers and addresses: library calls before and after the exchange.
- Task, approval and recipient rows: `start_data` reads them as one `approved` answer.
- Audit rows, timeline events, diagnostics and message texts: they do not affect the protocol state.
- `_commit_reported`: the reported items it writes are a parameter of `Dedupe`.
- `prepared_email` in the retry guard: the orchestrator's branch, not part of email retries.
- `retry_status` and `retry_email`: their queue calls (claim, finish, retry) are events of the machine; the eligibility texts are not modelled.
- `_connection_job`: the connection test is an event of the machine (`Diagnose`) and not part of `DispatchJob`.
- `DurableQueue.SmtpQueue.RecoverInterrupted`: returns after the one sending attempt there can be, where the original goes on over a list that can hold no other.
- Composition, archive and body hashes in `_verified_message`: `History` models the delivery part of that function.
- JSON parsing itself, number limits and the byte limit: `StrictJson` starts from the parsed value.
- Elapsed time, deadlines and cancellation in the budgets: one answer of the environment per request; a cancellation ends the loops early, where all their bounds already hold.
- How a worker applies ledger suggestions: the model sets status, receipt and digest of the message they name.
- CSS, URL and attribute checks of the HTML parser, and the rule for one html, head and body: single-branch checks.
- Retired copies of the sidecars in `Restore`: only their removal from the live files matters to the properties.
- The operator's recovery from a marked restore: the original leaves it to a person.
- Configuration, deployment, orchestration and runner adapters: outside these modules.
