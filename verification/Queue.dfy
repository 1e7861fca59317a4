/**
 The transactions of the durable queue, each as one function of the tables it finds.
 `Err` is a transaction that raised and was rolled back.
 */
module Queue {
  import opened DeliveryTypes
  import opened RetryGuard

  function Pow2(n: nat): (r: nat)
    ensures r > 0
  {
    if n == 0 then 1 else 2 * Pow2(n - 1)
  }

  /** The most recent uncertain attempt of a chain. */
  function LastUncertain(c: seq<Attempt>): Option<Attempt> {
    if c == [] then None
    else
      var last := c[|c| - 1];
      if last.status.Uncertain? then Some(last) else LastUncertain(c[..|c| - 1])
  }

  /** The position of a retry key among the attempts, or |rows|. */
  function FindKey(rows: seq<Attempt>, key: Key): (i: nat)
    ensures i <= |rows|
    ensures i < |rows| ==> rows[i].key == Some(key)
    ensures forall j :: 0 <= j < i ==> rows[j].key != Some(key)
  {
    if rows == [] then 0
    else if rows[0].key == Some(key) then 0
    else
      var k := FindKey(rows[1..], key);
      assert forall j :: 1 <= j < k + 1 ==> rows[j] == rows[1..][j - 1];
      k + 1
  }

  predicate SomeSending(rows: seq<Attempt>) {
    exists i :: 0 <= i < |rows| && rows[i].status.Sending?
  }

  predicate SomeUncertain(rows: seq<Attempt>, h: HandoffId) {
    exists a :: a in rows && OfHandoff(a, h) && a.status.Uncertain?
  }

  /** Some attempt of the handoff is pending or was accepted. */
  predicate SomeOpen(rows: seq<Attempt>, h: HandoffId) {
    exists a :: a in rows && OfHandoff(a, h) && (Pending(a) || a.status.Accepted?)
  }

  /** The index smtp_attempt_sequence. */
  predicate NumberTaken(rows: seq<Attempt>, h: HandoffId, number: int) {
    exists a :: a in rows && OfHandoff(a, h) && a.number == number
  }

  predicate SomePending(rows: seq<Attempt>, h: HandoffId) {
    exists a :: a in rows && OfHandoff(a, h) && Pending(a)
  }

  // ---------------------------------------------------------------- enqueue

  function FirstAttempt(job: JobId, handoff: Option<HandoffId>, message: Message, revision: int, now: Instant): Attempt {
    Attempt(job, handoff, Queued, Prepared, None, None, message, revision, now, now,
            None, 1, None, None, None, None, false)
  }

  function EnqueueTx(t: Tables, job: JobId, handoff: Option<HandoffId>, message: Message, revision: int, now: Instant)
    : Result<Tables>
  {
    var i := Find(t.attempts, job);
    if i < |t.attempts| then
      if t.attempts[i].message == message && t.attempts[i].revision == revision then Ok(t) else Err
    else if handoff.Some? && (|| handoff.value !in t.handoffs
                              || NumberTaken(t.attempts, handoff.value, 1)
                              || SomePending(t.attempts, handoff.value)) then Err
    else Ok(t.(attempts := t.attempts + [FirstAttempt(job, handoff, message, revision, now)]))
  }

  // ---------------------------------------------------------------- retry

  function RetryAttempt(row: Attempt, job: JobId, now: Instant, due: Instant, key: Key, request: Request,
                        revision: int, expires: Option<Instant>): Attempt
  {
    Attempt(job, row.handoff, Queued, Prepared, None, None, row.message, revision, now, now,
            Some(row.job), row.number + 1, Some(key), Some(request), Some(due), expires, false)
  }

  function Reopened(hd: Handoff): Handoff {
    hd.(status := QueuedH, receipt := None, acknowledged := None, externalStatus := None,
        receiptSha := None, trusted := false)
  }

  /** What must hold before a follow-up attempt is inserted. */
  ghost predicate MayInsert(t: Tables, row: Attempt, key: Key, job: JobId) {
    && row.handoff.Some? && row.handoff.value in t.handoffs
    && var h := row.handoff.value;
    && var hd := t.handoffs[h];
    && !hd.alert
    && FamilyClear(t, hd.run, true)
    && hd.run in t.controls && !t.controls[hd.run].cancelRequested && !t.controls[hd.run].forceDryRun
    && !SomeOpen(t.attempts, h)
    && !HasJob(t.attempts, job)
    && FindKey(t.attempts, key) == |t.attempts|
    && !NumberTaken(t.attempts, h, row.number + 1)
    && hd.run in t.runs && (t.runs[hd.run].status.RunFailed? || t.runs[hd.run].status.NeedsAttention?)
  }

  ghost function InsertTx(t: Tables, row: Attempt, job: JobId, now: Instant, due: Instant, key: Key,
                          request: Request, revision: int, expires: Option<Instant>): Result<Tables>
  {
    if !MayInsert(t, row, key, job) then Err
    else
      var h := row.handoff.value;
      var run := t.handoffs[h].run;
      Ok(t.(attempts := t.attempts + [RetryAttempt(row, job, now, due, key, request, revision, expires)],
            handoffs := t.handoffs[h := Reopened(t.handoffs[h])],
            runs := t.runs[run := t.runs[run].(status := AwaitingReceipt)]))
  }

  function Expedited(row: Attempt, now: Instant): Attempt {
    row.(due := Some(now), updated := now)
  }

  /** Whether a queued attempt can be pulled forward: a retry that is not due yet. */
  predicate Deferred(row: Attempt, now: Instant) {
    row.parent.Some? && row.due.Some? && row.due.value > now
  }

  ghost predicate MayRetry(t: Tables, i: nat, request: Request)
    requires i < |t.attempts|
  {
    && var row := t.attempts[i];
    && row.handoff.Some?
    && (row.status.Failed? || row.status.Uncertain? || row.status.Queued?)
    && var h := row.handoff.value;
    && (SomeUncertain(t.attempts, h) ==> request.allowUncertain)
    && var c := Chain(t.attempts, h);
    && c != [] && c[|c| - 1].job == row.job
  }

  /**
   `retry`: an idempotent request either returns the job it already produced, pulls a
   deferred attempt forward, or appends one. The acknowledgement the caller passes is the
   one recorded in the request.
   */
  ghost function RetryTx(t: Tables, job: JobId, key: Key, request: Request, revision: int, uuid: JobId, now: Instant)
    : Result<(Tables, JobId)>
  {
    if key in t.requests then
      if t.requests[key].request == request then Ok((t, t.requests[key].job)) else Err
    else
      var p := FindKey(t.attempts, key);
      if p < |t.attempts| then
        if t.attempts[p].request == Some(request) then Ok((t, t.attempts[p].job)) else Err
      else
        var i := Find(t.attempts, job);
        if i == |t.attempts| || !MayRetry(t, i, request) then Err
        else if t.attempts[i].status.Queued? then
          if Deferred(t.attempts[i], now) then
            Ok((t.(attempts := t.attempts[i := Expedited(t.attempts[i], now)],
                   requests := t.requests[key := RetryRow(job, request)]), job))
          else Err
        else
          match InsertTx(t, t.attempts[i], uuid, now, now, key, request, revision, None)
          case Err => Err
          case Ok(t') => Ok((t'.(requests := t'.requests[key := RetryRow(uuid, request)]), uuid))
  }

  // ---------------------------------------------------------------- claim and DATA

  predicate DueAt(row: Attempt, now: Instant) {
    row.due.None? || row.due.value <= now
  }

  function Claimed(row: Attempt, token: Token, pid: int, now: Instant): Attempt {
    row.(status := Sending, token := Some(token), pid := Some(pid), updated := now)
  }

  /** `None` when the job is not available or another dispatcher holds the single slot. */
  function ClaimTx(t: Tables, job: JobId, token: Token, pid: int, includeFuture: bool, now: Instant): Option<Tables> {
    var i := Find(t.attempts, job);
    if i < |t.attempts| && t.attempts[i].status.Queued? && (includeFuture || DueAt(t.attempts[i], now))
       && !SomeSending(t.attempts)
    then Some(t.(attempts := t.attempts[i := Claimed(t.attempts[i], token, pid, now)]))
    else None
  }

  predicate Owns(row: Attempt, token: Token) {
    row.status.Sending? && row.token == Some(token)
  }

  /** The policy facts start_data re-reads; `approved` stands for the task approval rows. */
  predicate Permitted(t: Tables, row: Attempt, approved: bool) {
    row.handoff.Some? ==>
      && row.handoff.value in t.handoffs
      && var hd := t.handoffs[row.handoff.value];
      && hd.run in t.runs && hd.run in t.controls
      && !t.controls[hd.run].forceDryRun && !t.runs[hd.run].candidateDryRun
      && (!hd.alert ==> !t.controls[hd.run].cancelRequested && t.runs[hd.run].status.AwaitingReceipt?)
      && approved
  }

  function StartDataTx(t: Tables, job: JobId, token: Token, approved: bool, now: Instant): Result<Tables> {
    var i := Find(t.attempts, job);
    if i == |t.attempts| then Err
    else
      var row := t.attempts[i];
      if row.expires.Some? && row.expires.value <= now then Err
      else if !Permitted(t, row, approved) then Err
      else if !Owns(row, token) || !row.phase.Prepared? then Err
      else Ok(t.(attempts := t.attempts[i := row.(phase := DataStarted, updated := now)]))
  }

  function RecordStageTx(t: Tables, job: JobId, token: Token, now: Instant): Result<Tables> {
    var i := Find(t.attempts, job);
    if i < |t.attempts| && Owns(t.attempts[i], token)
    then Ok(t.(attempts := t.attempts[i := t.attempts[i].(updated := now)]))
    else Err
  }

  // ---------------------------------------------------------------- finish

  function HandoffStatusOf(s: Status): HandoffStatus {
    match s
    case Accepted => AcceptedH
    case Uncertain => UncertainH
    case _ => FailedH
  }

  function ReceiptOf(row: Attempt, h: HandoffId, hd: Handoff, status: Status, retryable: bool, now: Instant): Receipt {
    Receipt(row.job, h, hd.idempotencyKey, hd.requestSha, status, row.message.messageId, now, retryable)
  }

  /** A handoff whose current evidence is the given receipt. */
  function Shown(hd: Handoff, r: Receipt): Handoff {
    hd.(status := HandoffStatusOf(r.status), receipt := Some(r.job), acknowledged := Some(r.occurred),
        externalStatus := Some(r.status), receiptSha := Some(Sha256(r)), trusted := true)
  }

  function Closed(row: Attempt, status: Status, retryable: bool, now: Instant): Attempt {
    row.(status := status, phase := Finished, updated := now, retryable := retryable)
  }

  function RunStatusAfter(row: Attempt, status: Status, prior: bool, cancelled: bool): RunStatus {
    if status.Accepted? then Succeeded
    else if status.Uncertain? then NeedsAttention
    else if prior then NeedsAttention
    else if !row.phase.DataStarted? && cancelled then Cancelled
    else RunFailed
  }

  /** The earlier uncertain attempt that still decides the handoff, if it left a receipt. */
  function PriorUncertain(t: Tables, h: HandoffId): Option<Receipt> {
    var u := LastUncertain(Chain(t.attempts, h));
    if u.Some? && u.value.job in t.receipts then Some(t.receipts[u.value.job]) else None
  }

  predicate CancelFlag(t: Tables, run: RunId) {
    run in t.controls && t.controls[run].cancelRequested
  }

  /** The terminal result and its receipt, before any rescheduling. */
  function FinishBase(t: Tables, i: nat, status: Status, retryable: bool, now: Instant): Tables
    requires i < |t.attempts|
    requires t.attempts[i].handoff.Some? ==> t.attempts[i].handoff.value in t.handoffs
  {
    var row := t.attempts[i];
    var rows := t.attempts[i := Closed(row, status, retryable, now)];
    if row.handoff.None? then t.(attempts := rows)
    else
      var h := row.handoff.value;
      var hd := t.handoffs[h];
      var r := ReceiptOf(row, h, hd, status, retryable, now);
      var receipts := t.receipts[row.job := r];
      var prior := PriorUncertain(t, h);
      if hd.alert then
        t.(attempts := rows, receipts := receipts, handoffs := t.handoffs[h := Shown(hd, r)])
      else
        var decided := if status.Failed? && prior.Some? then prior.value else r;
        var runs :=
          if hd.run in t.runs && (t.runs[hd.run].status.AwaitingReceipt? || t.runs[hd.run].status.RunRunning?)
          then t.runs[hd.run := t.runs[hd.run].(status := RunStatusAfter(row, status, prior.Some?, CancelFlag(t, hd.run)))]
          else t.runs;
        t.(attempts := rows, receipts := receipts, handoffs := t.handoffs[h := Shown(hd, decided)], runs := runs)
  }

  function DueAfter(number: int, base: nat, now: Instant): Instant
    requires number >= 1
  {
    now + base * Pow2(number - 1)
  }

  /** Whether `finish` tries to schedule the next automatic attempt. */
  predicate Reschedules(t: Tables, i: nat, status: Status, retryable: bool, policy: Option<Policy>, now: Instant)
    requires i < |t.attempts|
  {
    && var row := t.attempts[i];
    && policy.Some? && policy.value.auto && retryable && status.Failed?
    && row.handoff.Some? && row.handoff.value in t.handoffs
    && var h := row.handoff.value;
    && var hd := t.handoffs[h];
    && !hd.alert
    && PriorUncertain(t, h).None?
    && 1 <= row.number < policy.value.maxAttempts
    && hd.run in t.controls && !t.controls[hd.run].cancelRequested
    && Chain(t.attempts, h) != []
    && DueAfter(row.number, policy.value.base, now) <= Chain(t.attempts, h)[0].created + policy.value.expirySeconds
  }

  /** The automatic insertion that may follow a finished attempt. */
  ghost function AutoInsert(t: Tables, base: Tables, i: nat, policy: Policy, uuid: JobId, now: Instant): Result<Tables>
    requires i < |t.attempts| && t.attempts[i].handoff.Some? && t.attempts[i].number >= 1
    requires Chain(t.attempts, t.attempts[i].handoff.value) != []
  {
    var row := t.attempts[i];
    var h := row.handoff.value;
    InsertTx(base, row, uuid, now, DueAfter(row.number, policy.base, now), AutoKey(row.job),
             Request(h, Automatic, false, 0), row.revision,
             Some(Chain(t.attempts, h)[0].created + policy.expirySeconds))
  }

  predicate MayFinish(t: Tables, i: nat, token: Token, status: Status)
    requires i < |t.attempts|
  {
    && var row := t.attempts[i];
    && (status.Accepted? || status.ConnectionOk? || status.Failed? || status.Uncertain?)
    && Owns(row, token)
    && (status.Accepted? ==> row.phase.DataStarted?)
    && (status.ConnectionOk? ==> row.handoff.None? && row.message.diagnostic)
    && (row.handoff.Some? ==> row.handoff.value in t.handoffs && row.job !in t.receipts)
  }

  ghost function FinishTx(t: Tables, job: JobId, token: Token, status: Status, retryable: bool,
                          policy: Option<Policy>, uuid: JobId, now: Instant): Result<Tables>
  {
    var i := Find(t.attempts, job);
    if i == |t.attempts| || !MayFinish(t, i, token, status) then Err
    else
      var kept := retryable && status.Failed?;
      var base := FinishBase(t, i, status, kept, now);
      if !Reschedules(t, i, status, kept, policy, now) then Ok(base)
      else
        match AutoInsert(t, base, i, policy.value, uuid, now)
        case Ok(t') => Ok(t')
        case Err => Ok(base)
  }

  // ---------------------------------------------------------------- cancel and recover

  function CancelRow(a: Attempt, h: HandoffId, now: Instant): Attempt {
    if OfHandoff(a, h) && a.status.Queued? then a.(status := Failed, phase := Finished, updated := now) else a
  }

  function CancelRows(rows: seq<Attempt>, h: HandoffId, now: Instant): (r: seq<Attempt>)
    ensures |r| == |rows|
    ensures forall i :: 0 <= i < |rows| ==> r[i] == CancelRow(rows[i], h, now)
  {
    if rows == [] then []
    else CancelRows(rows[..|rows| - 1], h, now) + [CancelRow(rows[|rows| - 1], h, now)]
  }

  /** The business (non-alert) handoff of a run. */
  predicate Business(t: Tables, run: RunId, h: HandoffId) {
    h in t.handoffs && !t.handoffs[h].alert && t.handoffs[h].run == run
  }

  predicate RunSending(t: Tables, run: RunId) {
    exists i :: 0 <= i < |t.attempts| && t.attempts[i].status.Sending? && t.attempts[i].handoff.Some?
                && Business(t, run, t.attempts[i].handoff.value)
  }

  predicate MayCancel(t: Tables, run: RunId) {
    && !RunSending(t, run)
    && run in t.runs && t.runs[run].status.AwaitingReceipt?
    && CancelFlag(t, run)
  }

  function CancelledHandoff(hd: Handoff, governing: Option<Receipt>): Handoff {
    if governing.Some? then Shown(hd, governing.value)
    else if hd.status.PreparedH? || hd.status.PublishedH? || hd.status.QueuedH? then hd.(status := FailedH)
    else hd
  }

  /** The uncertain receipt that survives a cancelled retry; none once an attempt was accepted. */
  function SurvivingUncertain(t: Tables, h: HandoffId): Option<Receipt> {
    if exists a :: a in t.attempts && OfHandoff(a, h) && a.status.Accepted? then None else PriorUncertain(t, h)
  }

  /** `None` is the answer False: nothing was cancelled. */
  ghost function CancelTx(t: Tables, run: RunId, now: Instant): Option<Tables> {
    if !MayCancel(t, run) then None
    else if exists h :: Business(t, run, h) then
      var h :| Business(t, run, h);
      var governing := SurvivingUncertain(t, h);
      Some(t.(attempts := CancelRows(t.attempts, h, now),
              handoffs := t.handoffs[h := CancelledHandoff(t.handoffs[h], governing)],
              runs := t.runs[run := t.runs[run].(status := if governing.Some? then NeedsAttention else Cancelled)]))
    else Some(t.(runs := t.runs[run := t.runs[run].(status := Cancelled)]))
  }

  function RecoveredStatus(seen: Phase): Status {
    if seen.DataStarted? then Uncertain else Failed
  }

  /** One dead owner: a body that may have started is uncertain, any other attempt failed. */
  ghost function RecoverTx(t: Tables, job: JobId, seen: Phase, now: Instant): Result<Tables> {
    var i := Find(t.attempts, job);
    if i == |t.attempts| || !t.attempts[i].status.Sending? || t.attempts[i].token.None? then Err
    else FinishTx(t, job, t.attempts[i].token.value, RecoveredStatus(seen), false, None, 0, now)
  }
}
