/**
 The rows of the delivery database, as values.

 Identifiers, message bytes and envelopes are only ever compared for equality by the
 protocol, so each is an integer; instants are integers on one clock. A SHA-256 digest is
 the constructor `Sha256` applied to what was hashed, which makes it injective.
 */
module DeliveryTypes {

  datatype Option<+T> = None | Some(value: T)

  datatype Result<+T> = Ok(value: T) | Err

  type JobId = int
  type HandoffId = int
  type RunId = int
  type Token = int
  type Instant = int

  datatype Status = Queued | Sending | Accepted | ConnectionOk | Failed | Uncertain

  datatype Phase = Prepared | DataStarted | Finished

  datatype Mode = Manual | Automatic

  /** An idempotency key of a retry. Operators may type a key of either form. */
  datatype Key = Typed(text: int) | AutoKey(after: JobId)

  datatype Request = Request(handoff: HandoffId, mode: Mode, allowUncertain: bool, reason: int)

  /** What is put on the wire; every attempt of one handoff must carry the same message. */
  datatype Message = Message(messageId: int, mime: int, envelope: int, diagnostic: bool)

  /** A row of smtp_attempts. */
  datatype Attempt = Attempt(
    job: JobId,
    handoff: Option<HandoffId>,
    status: Status,
    phase: Phase,
    token: Option<Token>,
    pid: Option<int>,
    message: Message,
    revision: int,
    created: Instant,
    updated: Instant,
    parent: Option<JobId>,
    number: int,
    key: Option<Key>,
    request: Option<Request>,
    due: Option<Instant>,
    expires: Option<Instant>,
    retryable: bool)

  /** A row of delivery_receipts written for a local SMTP attempt; its id is "smtp-" + job. */
  datatype Receipt = Receipt(
    job: JobId,
    handoff: HandoffId,
    idempotencyKey: int,
    requestSha: int,
    status: Status,
    messageId: int,
    occurred: Instant,
    retryable: bool)

  datatype Digest = Sha256(raw: Receipt)

  datatype HandoffStatus =
    | PreparedH | PublishedH | QueuedH | FailedH | UncertainH | AcceptedH

  /** A row of delivery_handoffs. */
  datatype Handoff = Handoff(
    run: RunId,
    alert: bool,
    idempotencyKey: int,
    requestSha: int,
    status: HandoffStatus,
    receipt: Option<JobId>,
    acknowledged: Option<Instant>,
    externalStatus: Option<Status>,
    receiptSha: Option<Digest>,
    trusted: bool)

  datatype RunStatus =
    | RunQueued | RunRunning | AwaitingReceipt | Succeeded | RunFailed | NeedsAttention | Cancelled | TimedOut

  /** A row of scheduled_runs. */
  datatype Run = Run(parent: Option<RunId>, status: RunStatus, candidateDryRun: bool)

  /** A row of execution_controls. */
  datatype Controls = Controls(cancelRequested: bool, forceDryRun: bool)

  /** A row of smtp_retry_requests. */
  datatype RetryRow = RetryRow(job: JobId, request: Request)

  datatype Tables = Tables(
    attempts: seq<Attempt>,
    handoffs: map<HandoffId, Handoff>,
    runs: map<RunId, Run>,
    controls: map<RunId, Controls>,
    receipts: map<JobId, Receipt>,
    requests: map<Key, RetryRow>)

  /** The automatic retry settings of settings.yaml; config.py accepts only positive values. */
  datatype Policy = Policy(auto: bool, maxAttempts: int, base: nat, expirySeconds: nat)

  predicate Pending(a: Attempt) {
    a.status.Queued? || a.status.Sending?
  }

  predicate OfHandoff(a: Attempt, h: HandoffId) {
    a.handoff == Some(h)
  }

  /** The attempts of one handoff, in the order in which they were inserted. */
  function Chain(rows: seq<Attempt>, h: HandoffId): seq<Attempt> {
    if rows == [] then []
    else
      var init := rows[..|rows| - 1];
      var last := rows[|rows| - 1];
      Chain(init, h) + (if OfHandoff(last, h) then [last] else [])
  }

  /** The position of a job, or |rows| when there is none. */
  function Find(rows: seq<Attempt>, job: JobId): (i: nat)
    ensures i <= |rows|
    ensures i < |rows| ==> rows[i].job == job
    ensures forall j :: 0 <= j < i ==> rows[j].job != job
  {
    if rows == [] then 0
    else if rows[0].job == job then 0
    else
      var k := Find(rows[1..], job);
      assert forall j :: 1 <= j < k + 1 ==> rows[j] == rows[1..][j - 1];
      k + 1
  }

  predicate HasJob(rows: seq<Attempt>, job: JobId) {
    exists i :: 0 <= i < |rows| && rows[i].job == job
  }
}
