/**
 What the transactions of the queue do, told in rows and columns alone: when each one goes
 through, what it writes, and that it writes nothing else. `Queue` defines the transactions
 without any of this.
 */
module Effects {
  import opened DeliveryTypes
  import opened RetryGuard
  import opened Queue
  import opened Chains
  import opened QueueInvariant
  import opened QueueQueries

  /** Row i is the attempt with this job. */
  predicate At(t: Tables, job: JobId, i: nat) {
    i < |t.attempts| && t.attempts[i].job == job
  }

  lemma AtFind(t: Tables, job: JobId)
    requires UniqueJobs(t.attempts)
    ensures forall i: nat :: At(t, job, i) <==> i == Find(t.attempts, job) < |t.attempts|
  {
  }

  /** The tables differ in row i, which is now r, and nowhere else. */
  ghost predicate OnlyRow(t: Tables, t': Tables, i: nat, r: Attempt) {
    i < |t.attempts| && t' == t.(attempts := t.attempts[i := r])
  }

  // ---------------------------------------------------------------- enqueue

  /** The job is known with the same content, or new and the first attempt of its handoff. */
  ghost predicate Enqueues(t: Tables, job: JobId, handoff: Option<HandoffId>, message: Message, revision: int) {
    if HasJob(t.attempts, job)
    then exists i: nat :: At(t, job, i) && t.attempts[i].message == message && t.attempts[i].revision == revision
    else handoff.Some? ==>
           && handoff.value in t.handoffs
           && forall k :: 0 <= k < |t.attempts| ==> t.attempts[k].handoff != handoff
  }

  /** A known job stays; a new one is due at once and never expires. */
  ghost predicate Enqueued(t: Tables, t': Tables, job: JobId, handoff: Option<HandoffId>, message: Message,
                           revision: int, now: Instant)
  {
    if HasJob(t.attempts, job) then t' == t
    else t' == t.(attempts := t.attempts + [
           Attempt(job, handoff, Queued, Prepared, None, None, message, revision, now, now,
                   None, 1, None, None, None, None, false)])
  }

  lemma EnqueueEffect(t: Tables, job: JobId, handoff: Option<HandoffId>, message: Message, revision: int, now: Instant)
    requires Inv(t)
    ensures var r := EnqueueTx(t, job, handoff, message, revision, now);
            && (r.Ok? <==> Enqueues(t, job, handoff, message, revision))
            && (r.Ok? ==> Enqueued(t, r.value, job, handoff, message, revision, now))
  {
    AtFind(t, job);
    HasJobFind(t.attempts, job);
    if handoff.Some? && handoff.value in t.handoffs {
      var h := handoff.value;
      assert HandoffHolds(t, h);
      if k :| 0 <= k < |t.attempts| && t.attempts[k].handoff == handoff {
        ChainMembers(t.attempts, h, t.attempts[k]);
        FirstTaken(t, h);
      }
    }
  }

  lemma HasJobFind(rows: seq<Attempt>, job: JobId)
    ensures HasJob(rows, job) <==> Find(rows, job) < |rows|
  {
    if i :| 0 <= i < |rows| && rows[i].job == job {
      assert Find(rows, job) <= i;
    }
  }

  lemma FirstTaken(t: Tables, h: HandoffId)
    requires Shape(h, Chain(t.attempts, h)) && Chain(t.attempts, h) != []
    ensures NumberTaken(t.attempts, h, 1)
  {
    ChainMembers(t.attempts, h, Chain(t.attempts, h)[0]);
  }

  // ---------------------------------------------------------------- claim

  /** The attempt waits, its time has come or does not matter, and nothing is being sent. */
  ghost predicate Claimable(t: Tables, job: JobId, includeFuture: bool, now: Instant) {
    && (exists i: nat :: At(t, job, i) && t.attempts[i].status.Queued?
                         && (includeFuture || t.attempts[i].due.None? || t.attempts[i].due.value <= now))
    && forall k :: 0 <= k < |t.attempts| ==> !t.attempts[k].status.Sending?
  }

  ghost predicate ClaimedBy(t: Tables, t': Tables, job: JobId, token: Token, pid: int, now: Instant) {
    exists i: nat :: At(t, job, i) &&
      OnlyRow(t, t', i, t.attempts[i].(status := Sending, token := Some(token), pid := Some(pid), updated := now))
  }

  lemma ClaimEffect(t: Tables, job: JobId, token: Token, pid: int, includeFuture: bool, now: Instant)
    requires Inv(t)
    ensures var r := ClaimTx(t, job, token, pid, includeFuture, now);
            && (r.Some? <==> Claimable(t, job, includeFuture, now))
            && (r.Some? ==> ClaimedBy(t, r.value, job, token, pid, now))
  {
    hide HandoffsInv, OneBusiness;
    AtFind(t, job);
  }

  // ---------------------------------------------------------------- the submission boundary

  ghost predicate OwnedRow(t: Tables, job: JobId, token: Token, i: nat) {
    At(t, job, i) && t.attempts[i].status.Sending? && t.attempts[i].token == Some(token)
  }

  /** The message may be submitted: unexpired, approved, not a dry run, and its run still waits for it. */
  ghost predicate Submittable(t: Tables, row: Attempt, approved: bool, now: Instant) {
    && (row.expires.Some? ==> now < row.expires.value)
    && (row.handoff.Some? ==>
          && row.handoff.value in t.handoffs && approved
          && var hd := t.handoffs[row.handoff.value];
          && hd.run in t.runs && hd.run in t.controls
          && !t.controls[hd.run].forceDryRun && !t.runs[hd.run].candidateDryRun
          && (hd.alert || (t.runs[hd.run].status.AwaitingReceipt? && !t.controls[hd.run].cancelRequested)))
  }

  ghost predicate Starts(t: Tables, job: JobId, token: Token, approved: bool, now: Instant) {
    exists i: nat :: OwnedRow(t, job, token, i) && t.attempts[i].phase.Prepared? && Submittable(t, t.attempts[i], approved, now)
  }

  ghost predicate Started(t: Tables, t': Tables, job: JobId, token: Token, now: Instant) {
    exists i: nat :: OwnedRow(t, job, token, i) && OnlyRow(t, t', i, t.attempts[i].(phase := DataStarted, updated := now))
  }

  lemma StartDataEffect(t: Tables, job: JobId, token: Token, approved: bool, now: Instant)
    requires Inv(t)
    ensures var r := StartDataTx(t, job, token, approved, now);
            && (r.Ok? <==> Starts(t, job, token, approved, now))
            && (r.Ok? ==> Started(t, r.value, job, token, now))
  {
    hide HandoffsInv, OneBusiness;
    AtFind(t, job);
    if StartDataTx(t, job, token, approved, now).Ok? {
      assert OwnedRow(t, job, token, Find(t.attempts, job));
    }
  }

  ghost predicate Owned(t: Tables, job: JobId, token: Token) {
    exists i: nat :: OwnedRow(t, job, token, i)
  }

  ghost predicate Stamped(t: Tables, t': Tables, job: JobId, token: Token, now: Instant) {
    exists i: nat :: OwnedRow(t, job, token, i) && OnlyRow(t, t', i, t.attempts[i].(updated := now))
  }

  lemma RecordStageEffect(t: Tables, job: JobId, token: Token, now: Instant)
    requires Inv(t)
    ensures var r := RecordStageTx(t, job, token, now);
            && (r.Ok? <==> Owned(t, job, token))
            && (r.Ok? ==> Stamped(t, r.value, job, token, now))
  {
    hide HandoffsInv, OneBusiness;
    AtFind(t, job);
    if RecordStageTx(t, job, token, now).Ok? {
      assert OwnedRow(t, job, token, Find(t.attempts, job));
    }
  }

  // ---------------------------------------------------------------- earlier uncertain attempts

  /** Some attempt of the handoff is uncertain. */
  ghost predicate HasUncertain(t: Tables, h: HandoffId) {
    exists k :: 0 <= k < |t.attempts| && t.attempts[k].handoff == Some(h) && t.attempts[k].status.Uncertain?
  }

  /** The receipt of the uncertain attempt with the highest number. */
  ghost predicate NewestUncertain(t: Tables, h: HandoffId, r: Receipt) {
    exists k :: 0 <= k < |t.attempts| && t.attempts[k].handoff == Some(h) && t.attempts[k].status.Uncertain?
      && t.attempts[k].job in t.receipts && t.receipts[t.attempts[k].job] == r
      && forall j :: 0 <= j < |t.attempts| && t.attempts[j].handoff == Some(h) && t.attempts[j].status.Uncertain? ==>
           t.attempts[j].number <= t.attempts[k].number
  }

  lemma PriorIs(t: Tables, h: HandoffId)
    requires Inv(t) && h in t.handoffs
    ensures PriorUncertain(t, h).Some? <==> HasUncertain(t, h)
    ensures PriorUncertain(t, h).Some? ==> NewestUncertain(t, h, PriorUncertain(t, h).value)
    ensures PriorUncertain(t, h).Some? ==> PriorUncertain(t, h).value.status.Uncertain?
  {
    var c := Chain(t.attempts, h);
    assert HandoffHolds(t, h);
    LastUncertainIs(c);
    if k :| 0 <= k < |t.attempts| && t.attempts[k].handoff == Some(h) && t.attempts[k].status.Uncertain? {
      ChainMembers(t.attempts, h, t.attempts[k]);
    }
    if LastUncertain(c).Some? {
      LastIsNewest(t, h);
    }
  }

  lemma LastIsNewest(t: Tables, h: HandoffId)
    requires h in t.handoffs && Shape(h, Chain(t.attempts, h)) && ReceiptRule(h, Chain(t.attempts, h), t.handoffs[h], t.receipts)
    requires LastUncertain(Chain(t.attempts, h)).Some?
    ensures var u := LastUncertain(Chain(t.attempts, h)).value;
            u.job in t.receipts && NewestUncertain(t, h, t.receipts[u.job]) && t.receipts[u.job].status.Uncertain?
  {
    hide Chain, Linked, PhaseFits;
    var c := Chain(t.attempts, h);
    LastUncertainIs(c);
    var u := LastUncertainAt(c);
    hide LastUncertain;
    assert c[u].job in t.receipts && ReceiptFits(c[u], h, t.handoffs[h], t.receipts[c[u].job]);
    ChainMembers(t.attempts, h, c[u]);
    NumbersAlong(h, c);
    var k :| 0 <= k < |t.attempts| && t.attempts[k] == c[u];
    hide Shape, ReceiptRule;
    forall j | 0 <= j < |t.attempts| && t.attempts[j].handoff == Some(h) && t.attempts[j].status.Uncertain?
      ensures t.attempts[j].number <= t.attempts[k].number
    {
      ChainMembers(t.attempts, h, t.attempts[j]);
      var m :| 0 <= m < |c| && c[m] == t.attempts[j];
    }
  }

  lemma NumbersAlong(h: HandoffId, c: seq<Attempt>)
    requires Shape(h, c)
    ensures forall k :: 0 <= k < |c| ==> c[k].number == k + 1
  {
  }

  // ---------------------------------------------------------------- finish

  /** Only the owner finishes an attempt; acceptance needs the boundary, a connection test its own kind of job. */
  ghost predicate Finishable(t: Tables, job: JobId, token: Token, status: Status) {
    && (status.Accepted? || status.ConnectionOk? || status.Failed? || status.Uncertain?)
    && exists i: nat :: OwnedRow(t, job, token, i)
         && (status.Accepted? ==> t.attempts[i].phase.DataStarted?)
         && (status.ConnectionOk? ==> t.attempts[i].handoff.None? && t.attempts[i].message.diagnostic)
  }

  /** A sending attempt has no receipt yet, so nothing else can stop `finish`. */
  lemma NoReceiptYet(t: Tables, i: nat)
    requires Inv(t) && i < |t.attempts| && Pending(t.attempts[i])
    ensures t.attempts[i].handoff.Some? ==> t.attempts[i].handoff.value in t.handoffs && t.attempts[i].job !in t.receipts
  {
    if t.attempts[i].handoff.Some? {
      var h := t.attempts[i].handoff.value;
      assert HandoffHolds(t, h);
      PendingIsLast(t.attempts, i, t.attempts[i], h);
      UncertainHasReceipt(h, Chain(t.attempts, h), t.handoffs[h], t.receipts);
    }
  }

  lemma FinishOk(t: Tables, job: JobId, token: Token, status: Status, retryable: bool,
                 policy: Option<Policy>, uuid: JobId, now: Instant)
    requires Inv(t)
    ensures FinishTx(t, job, token, status, retryable, policy, uuid, now).Ok? <==> Finishable(t, job, token, status)
  {
    AtFind(t, job);
    var i := Find(t.attempts, job);
    if i < |t.attempts| && t.attempts[i].status.Sending? {
      NoReceiptYet(t, i);
    }
    hide Inv, FinishBase, Reschedules, InsertTx;
    if i < |t.attempts| && MayFinish(t, i, token, status) {
      assert OwnedRow(t, job, token, i);
    }
  }

  /** One more attempt was appended. */
  predicate Followed(t: Tables, t': Tables) {
    |t'.attempts| == |t.attempts| + 1
  }

  /** The attempt is closed with its result; every other attempt stays, and at most one is added. */
  ghost predicate AttemptClosed(t: Tables, t': Tables, i: nat, status: Status, retryable: bool, now: Instant)
    requires i < |t.attempts|
  {
    && (|t'.attempts| == |t.attempts| || Followed(t, t'))
    && t'.attempts[..|t.attempts|] == t.attempts[i := t.attempts[i].(status := status, phase := Finished, updated := now,
                                                                       retryable := retryable && status.Failed?)]
    && t'.controls == t.controls && t'.requests == t.requests
  }

  /** A result for a handoff leaves its receipt; a connection test leaves nothing else. */
  ghost predicate ReceiptLeft(t: Tables, t': Tables, i: nat, status: Status, retryable: bool, now: Instant)
    requires i < |t.attempts|
  {
    var row := t.attempts[i];
    if row.handoff.None? then t' == t.(attempts := t'.attempts) && !Followed(t, t')
    else
      && row.handoff.value in t.handoffs
      && var hd := t.handoffs[row.handoff.value];
      && t'.receipts == t.receipts[row.job := Receipt(row.job, row.handoff.value, hd.idempotencyKey, hd.requestSha, status,
                                                      row.message.messageId, now, retryable && status.Failed?)]
  }

  predicate Shows(hd: Handoff, was: Handoff, status: HandoffStatus, external: Status, r: Receipt) {
    hd == was.(status := status, receipt := Some(r.job), acknowledged := Some(r.occurred),
               externalStatus := Some(external), receiptSha := Some(Sha256(r)), trusted := true)
  }

  /**
   The handoff waits again when a follow-up was added; after a failure it keeps showing an
   earlier uncertain result, the newest one; otherwise it shows this result.
   */
  ghost predicate HandoffSettled(t: Tables, t': Tables, i: nat, status: Status)
    requires i < |t.attempts|
  {
    var row := t.attempts[i];
    row.handoff.Some? ==>
      && row.handoff.value in t.handoffs && row.handoff.value in t'.handoffs
      && var was, hd := t.handoffs[row.handoff.value], t'.handoffs[row.handoff.value];
      && t'.handoffs == t.handoffs[row.handoff.value := hd]
      && if Followed(t, t') then
           hd == was.(status := QueuedH, receipt := None, acknowledged := None, externalStatus := None,
                      receiptSha := None, trusted := false)
         else if status.Failed? && !was.alert && HasUncertain(t, row.handoff.value) then
           exists r :: NewestUncertain(t, row.handoff.value, r) && Shows(hd, was, UncertainH, Uncertain, r)
         else
           && row.job in t'.receipts
           && Shows(hd, was, if status.Accepted? then AcceptedH else if status.Uncertain? then UncertainH else FailedH,
                    status, t'.receipts[row.job])
  }

  predicate Waiting(t: Tables, run: RunId) {
    run in t.runs && (t.runs[run].status.AwaitingReceipt? || t.runs[run].status.RunRunning?)
  }

  /** What becomes of a waiting run: an acceptance ends it well, doubt needs attention, a failure is final unless it is retried. */
  ghost predicate RunSettled(t: Tables, t': Tables, i: nat, status: Status)
    requires i < |t.attempts|
  {
    var row := t.attempts[i];
    row.handoff.Some? ==>
      && row.handoff.value in t.handoffs
      && var h, hd := row.handoff.value, t.handoffs[row.handoff.value];
      && t'.runs.Keys == t.runs.Keys
      && (forall x :: x in t.runs && (x != hd.run || hd.alert) ==> t'.runs[x] == t.runs[x])
      && (hd.run in t.runs ==> t'.runs[hd.run] == t.runs[hd.run].(status := t'.runs[hd.run].status))
      && (hd.run in t.runs && !hd.alert && !Waiting(t, hd.run) ==>
            t'.runs[hd.run].status == if Followed(t, t') then AwaitingReceipt else t.runs[hd.run].status)
      && (!hd.alert && Waiting(t, hd.run) ==>
            var after := t'.runs[hd.run].status;
            && (status.Accepted? ==> after.Succeeded?)
            && (status.Uncertain? ==> after.NeedsAttention?)
            && (status.Failed? && HasUncertain(t, h) ==> after.NeedsAttention?)
            && (status.Failed? && !HasUncertain(t, h) ==>
                  && (after.AwaitingReceipt? <==> Followed(t, t'))
                  && (after.Cancelled? <==> hd.run in t.controls && t.controls[hd.run].cancelRequested && row.phase.Prepared?)
                  && (after.AwaitingReceipt? || after.Cancelled? || after.RunFailed?)))
  }

  /**
   A follow-up is added exactly when the policy retries this failure, the handoff has no
   uncertain attempt, there is an attempt and time left, and no other guard of a retry objects.
   */
  ghost predicate FollowUpDue(t: Tables, i: nat, status: Status, retryable: bool, policy: Option<Policy>, uuid: JobId, now: Instant)
    requires i < |t.attempts|
  {
    && var row := t.attempts[i];
    && policy.Some? && policy.value.auto && retryable && status.Failed?
    && row.handoff.Some? && row.handoff.value in t.handoffs
    && var h, hd := row.handoff.value, t.handoffs[row.handoff.value];
    && !hd.alert && !HasUncertain(t, h)
    && 1 <= row.number < policy.value.maxAttempts
    && (forall k :: 0 <= k < |t.attempts| && t.attempts[k].handoff == Some(h) && t.attempts[k].number == 1 ==>
          now + policy.value.base * Pow2(row.number - 1) <= t.attempts[k].created + policy.value.expirySeconds)
    && hd.run in t.controls && !t.controls[hd.run].cancelRequested && !t.controls[hd.run].forceDryRun
    && hd.run in t.runs && (Waiting(t, hd.run) || t.runs[hd.run].status.RunFailed? || t.runs[hd.run].status.NeedsAttention?)
    && FamilyClear(t, hd.run, true)
    && (forall k :: 0 <= k < |t.attempts| ==> t.attempts[k].job != uuid && t.attempts[k].key != Some(AutoKey(row.job)))
  }

  /** The same message once more, after a delay that doubles, until the expiry counted from the first attempt. */
  ghost predicate FollowUp(t: Tables, i: nat, policy: Policy, uuid: JobId, now: Instant, a: Attempt)
    requires i < |t.attempts| && t.attempts[i].handoff.Some? && t.attempts[i].number >= 1
  {
    var row := t.attempts[i];
    exists k :: 0 <= k < |t.attempts| && t.attempts[k].handoff == row.handoff && t.attempts[k].number == 1
      && a == Attempt(uuid, row.handoff, Queued, Prepared, None, None, row.message, row.revision, now, now,
                      Some(row.job), row.number + 1, Some(AutoKey(row.job)),
                      Some(Request(row.handoff.value, Automatic, false, 0)),
                      Some(now + policy.base * Pow2(row.number - 1)),
                      Some(t.attempts[k].created + policy.expirySeconds), false)
  }

  ghost predicate Inserts(t: Tables, i: nat, status: Status, retryable: bool, policy: Option<Policy>, uuid: JobId, now: Instant)
    requires i < |t.attempts|
    requires t.attempts[i].handoff.Some? ==> t.attempts[i].handoff.value in t.handoffs
  {
    && Reschedules(t, i, status, retryable, policy, now)
    && MayInsert(FinishBase(t, i, status, retryable, now), t.attempts[i], AutoKey(t.attempts[i].job), uuid)
  }

  /** The tables after an insertion on top of the recorded result. */
  ghost predicate InsertedOn(base: Tables, t': Tables, row: Attempt, a: Attempt) {
    && row.handoff.Some? && row.handoff.value in base.handoffs && base.handoffs[row.handoff.value].run in base.runs
    && var h := row.handoff.value;
    && var run := base.handoffs[h].run;
    && t' == base.(attempts := base.attempts + [a],
                   handoffs := base.handoffs[h := Reopened(base.handoffs[h])],
                   runs := base.runs[run := base.runs[run].(status := AwaitingReceipt)])
  }

  /** Either the recorded result alone, or that and the follow-up. */
  lemma FinishCases(t: Tables, i: nat, token: Token, status: Status, retryable: bool,
                    policy: Option<Policy>, uuid: JobId, now: Instant, t': Tables)
    requires Inv(t) && i < |t.attempts|
    requires FinishTx(t, t.attempts[i].job, token, status, retryable, policy, uuid, now) == Ok(t')
    ensures MayFinish(t, i, token, status)
    ensures var kept := retryable && status.Failed?;
            var base := FinishBase(t, i, status, kept, now);
            if Inserts(t, i, status, kept, policy, uuid, now)
            then exists a :: InsertedOn(base, t', t.attempts[i], a) && FollowUp(t, i, policy.value, uuid, now, a)
            else t' == base
  {
    AtFind(t, t.attempts[i].job);
    var kept := retryable && status.Failed?;
    var base := FinishBase(t, i, status, kept, now);
    assert At(t, t.attempts[i].job, i);
    hide FinishBase;
    if Inserts(t, i, status, kept, policy, uuid, now) {
      InsertCase(t, i, base, policy.value, uuid, now, t');
    }
  }

  lemma InsertCase(t: Tables, i: nat, base: Tables, policy: Policy, uuid: JobId, now: Instant, t': Tables)
    requires Inv(t) && i < |t.attempts| && t.attempts[i].handoff.Some? && t.attempts[i].number >= 1
    requires Chain(t.attempts, t.attempts[i].handoff.value) != []
    requires t.attempts[i].handoff.value in t.handoffs
    requires MayInsert(base, t.attempts[i], AutoKey(t.attempts[i].job), uuid)
    requires AutoInsert(t, base, i, policy, uuid, now) == Ok(t')
    ensures exists a :: InsertedOn(base, t', t.attempts[i], a) && FollowUp(t, i, policy, uuid, now, a)
  {
    var row := t.attempts[i];
    var h := row.handoff.value;
    var first := Chain(t.attempts, h)[0];
    var a := RetryAttempt(row, uuid, now, DueAfter(row.number, policy.base, now), AutoKey(row.job),
                          Request(h, Automatic, false, 0), row.revision, Some(first.created + policy.expirySeconds));
    FirstIs(t, h);
    hide Inv, Chain, FamilyClear, SomeOpen, NumberTaken, HasJob, FindKey;
    assert InsertedOn(base, t', row, a) && FollowUp(t, i, policy, uuid, now, a);
  }

  // ---------------------------------------------------------------- the follow-up attempt

  /** What the recorded result leaves of the run it was for. */
  lemma BaseRuns(t: Tables, i: nat, status: Status, retryable: bool, now: Instant)
    requires i < |t.attempts| && t.attempts[i].handoff.Some? && t.attempts[i].handoff.value in t.handoffs
    ensures var base := FinishBase(t, i, status, retryable, now);
            var h, hd := t.attempts[i].handoff.value, t.handoffs[t.attempts[i].handoff.value];
            && base.controls == t.controls && base.runs.Keys == t.runs.Keys
            && base.handoffs.Keys == t.handoffs.Keys
            && base.handoffs[h].run == hd.run && base.handoffs[h].alert == hd.alert
            && (forall g :: g in t.handoffs && g != h ==> base.handoffs[g] == t.handoffs[g])
            && (forall x :: x in t.runs && x != hd.run ==> base.runs[x] == t.runs[x])
            && (hd.run in t.runs ==> base.runs[hd.run] == t.runs[hd.run].(status := base.runs[hd.run].status))
            && (hd.alert ==> base.runs == t.runs)
            && (hd.run in t.runs && !hd.alert ==>
                  base.runs[hd.run].status ==
                    if !Waiting(t, hd.run) then t.runs[hd.run].status
                    else if status.Accepted? then Succeeded
                    else if status.Uncertain? || PriorUncertain(t, h).Some? then NeedsAttention
                    else if hd.run in t.controls && t.controls[hd.run].cancelRequested && !t.attempts[i].phase.DataStarted? then Cancelled
                    else RunFailed)
  {
    hide PriorUncertain;
  }

  lemma BaseGuard(t: Tables, i: nat, status: Status, retryable: bool, now: Instant)
    requires i < |t.attempts| && t.attempts[i].handoff.Some? && t.attempts[i].handoff.value in t.handoffs
    ensures var run := t.handoffs[t.attempts[i].handoff.value].run;
            FamilyClear(FinishBase(t, i, status, retryable, now), run, true) <==> FamilyClear(t, run, true)
  {
    var run := t.handoffs[t.attempts[i].handoff.value].run;
    BaseRuns(t, i, status, retryable, now);
    hide FinishBase, PriorUncertain, FamilyClear;
    GuardFrame(t, FinishBase(t, i, status, retryable, now), run);
  }

  /** After a failure nothing of the handoff is open, and the next number is free. */
  lemma BaseRows(t: Tables, i: nat, retryable: bool, now: Instant, rows: seq<Attempt>)
    requires Inv(t) && i < |t.attempts| && t.attempts[i].status.Sending?
    requires t.attempts[i].handoff.Some? && t.attempts[i].handoff.value in t.handoffs
    requires rows == t.attempts[i := Closed(t.attempts[i], Failed, retryable, now)]
    ensures var h := t.attempts[i].handoff.value;
            && !SomeOpen(rows, h) && !NumberTaken(rows, h, t.attempts[i].number + 1)
            && t.attempts[i].number == |Chain(t.attempts, h)| >= 1
  {
    var row := t.attempts[i];
    var h := row.handoff.value;
    var c := Chain(t.attempts, h);
    assert HandoffHolds(t, h);
    PendingIsLast(t.attempts, i, row, h);
    forall k | 0 <= k < |rows| && OfHandoff(rows[k], h)
      ensures !Pending(rows[k]) && !rows[k].status.Accepted? && rows[k].number <= row.number
    {
      if k != i {
        ChainMembers(t.attempts, h, rows[k]);
        var m :| 0 <= m < |c| && c[m] == rows[k];
        assert rows[k].job != row.job;
      }
    }
  }

  lemma BaseFree(rows: seq<Attempt>, i: nat, r: Attempt, uuid: JobId, key: Key)
    requires i < |rows| && r.job == rows[i].job && r.key == rows[i].key
    ensures !HasJob(rows[i := r], uuid) && FindKey(rows[i := r], key) == |rows| <==>
              forall k :: 0 <= k < |rows| ==> rows[k].job != uuid && rows[k].key != Some(key)
  {
    var rows' := rows[i := r];
    assert forall k :: 0 <= k < |rows| ==> rows'[k].job == rows[k].job && rows'[k].key == rows[k].key;
    if !HasJob(rows', uuid) && FindKey(rows', key) == |rows| {
      forall k | 0 <= k < |rows| ensures rows[k].job != uuid && rows[k].key != Some(key) {
        assert rows'[k].job != uuid && rows'[k].key != Some(key);
      }
    }
  }

  /** The expiry is counted from attempt number 1. */
  lemma FirstIs(t: Tables, h: HandoffId)
    requires Inv(t) && h in t.handoffs && Chain(t.attempts, h) != []
    ensures var first := Chain(t.attempts, h)[0];
            forall k :: 0 <= k < |t.attempts| && t.attempts[k].handoff == Some(h) && t.attempts[k].number == 1 ==> t.attempts[k] == first
    ensures exists k :: 0 <= k < |t.attempts| && t.attempts[k].handoff == Some(h) && t.attempts[k].number == 1
  {
    var c := Chain(t.attempts, h);
    assert HandoffHolds(t, h);
    ChainMembers(t.attempts, h, c[0]);
    var k :| 0 <= k < |t.attempts| && t.attempts[k] == c[0];
    forall k | 0 <= k < |t.attempts| && t.attempts[k].handoff == Some(h) && t.attempts[k].number == 1
      ensures t.attempts[k] == c[0]
    {
      ChainMembers(t.attempts, h, t.attempts[k]);
      var m :| 0 <= m < |c| && c[m] == t.attempts[k];
    }
  }

  /** The guards of `finish` in front of the insertion. */
  lemma ReschedulesIs(t: Tables, i: nat, policy: Option<Policy>, now: Instant)
    requires Inv(t) && i < |t.attempts| && t.attempts[i].status.Sending?
    requires t.attempts[i].handoff.Some? && t.attempts[i].handoff.value in t.handoffs
    ensures var row, h := t.attempts[i], t.attempts[i].handoff.value;
            var hd := t.handoffs[h];
            Reschedules(t, i, Failed, true, policy, now) <==>
              && policy.Some? && policy.value.auto && !hd.alert && !HasUncertain(t, h)
              && 1 <= row.number < policy.value.maxAttempts
              && hd.run in t.controls && !t.controls[hd.run].cancelRequested
              && (forall k :: 0 <= k < |t.attempts| && t.attempts[k].handoff == Some(h) && t.attempts[k].number == 1 ==>
                    now + policy.value.base * Pow2(row.number - 1) <= t.attempts[k].created + policy.value.expirySeconds)
  {
    var h := t.attempts[i].handoff.value;
    PriorIs(t, h);
    assert HandoffHolds(t, h);
    PendingIsLast(t.attempts, i, t.attempts[i], h);
    FirstIs(t, h);
    hide Inv, HandoffHolds, Chain, PriorUncertain, HasUncertain, NewestUncertain;
  }

  /** The guards of the insertion itself, on the tables with the recorded failure. */
  lemma MayInsertIs(t: Tables, i: nat, uuid: JobId, now: Instant)
    requires Inv(t) && i < |t.attempts| && t.attempts[i].status.Sending?
    requires t.attempts[i].handoff.Some? && t.attempts[i].handoff.value in t.handoffs
    requires !t.handoffs[t.attempts[i].handoff.value].alert && !HasUncertain(t, t.attempts[i].handoff.value)
    requires var run := t.handoffs[t.attempts[i].handoff.value].run; run in t.controls && !t.controls[run].cancelRequested
    ensures var row, run := t.attempts[i], t.handoffs[t.attempts[i].handoff.value].run;
            MayInsert(FinishBase(t, i, Failed, true, now), row, AutoKey(row.job), uuid) <==>
              && !t.controls[run].forceDryRun && FamilyClear(t, run, true)
              && run in t.runs && (Waiting(t, run) || t.runs[run].status.RunFailed? || t.runs[run].status.NeedsAttention?)
              && (forall k :: 0 <= k < |t.attempts| ==> t.attempts[k].job != uuid && t.attempts[k].key != Some(AutoKey(row.job)))
  {
    var row := t.attempts[i];
    PriorIs(t, row.handoff.value);
    BaseRuns(t, i, Failed, true, now);
    BaseGuard(t, i, Failed, true, now);
    FinishBaseFields(t, i, Failed, true, now);
    BaseRows(t, i, true, now, FinishBase(t, i, Failed, true, now).attempts);
    BaseFree(t.attempts, i, Closed(row, Failed, true, now), uuid, AutoKey(row.job));
    hide Inv, FinishBase, FamilyClear, Chain, PriorUncertain, HasUncertain, HasJob, FindKey, SomeOpen, NumberTaken;
  }

  lemma InsertsIs(t: Tables, i: nat, status: Status, retryable: bool, policy: Option<Policy>, uuid: JobId, now: Instant)
    requires Inv(t) && i < |t.attempts| && t.attempts[i].status.Sending?
    requires t.attempts[i].handoff.Some? ==> t.attempts[i].handoff.value in t.handoffs
    ensures Inserts(t, i, status, retryable && status.Failed?, policy, uuid, now)
       <==> FollowUpDue(t, i, status, retryable, policy, uuid, now)
  {
    if retryable && status.Failed? && t.attempts[i].handoff.Some? {
      ReschedulesIs(t, i, policy, now);
      if Reschedules(t, i, Failed, true, policy, now) {
        MayInsertIs(t, i, uuid, now);
      }
    }
    hide Inv, Reschedules, MayInsert, FinishBase, FamilyClear, HasUncertain;
  }

  // ---------------------------------------------------------------- all that finish does

  /** The tables after a result: the attempt, its receipt, the handoff, the run, and the follow-up if one is due. */
  ghost predicate ResultRecorded(t: Tables, t': Tables, job: JobId, status: Status, retryable: bool,
                           policy: Option<Policy>, uuid: JobId, now: Instant)
  {
    exists i: nat :: At(t, job, i)
      && AttemptClosed(t, t', i, status, retryable, now)
      && ReceiptLeft(t, t', i, status, retryable, now)
      && HandoffSettled(t, t', i, status)
      && RunSettled(t, t', i, status)
      && (Followed(t, t') <==> FollowUpDue(t, i, status, retryable, policy, uuid, now))
      && (Followed(t, t') ==> FollowUp(t, i, policy.value, uuid, now, t'.attempts[|t.attempts|]))
  }

  lemma PlainResult(t: Tables, i: nat, token: Token, status: Status, retryable: bool, now: Instant, t': Tables)
    requires Inv(t) && i < |t.attempts| && MayFinish(t, i, token, status)
    requires t' == FinishBase(t, i, status, retryable && status.Failed?, now)
    ensures AttemptClosed(t, t', i, status, retryable, now) && !Followed(t, t')
    ensures ReceiptLeft(t, t', i, status, retryable, now)
    ensures HandoffSettled(t, t', i, status) && RunSettled(t, t', i, status)
  {
    FinishBaseFields(t, i, status, retryable && status.Failed?, now);
    if t.attempts[i].handoff.Some? {
      PlainHandoff(t, i, status, retryable && status.Failed?, now, t');
      PlainRun(t, i, status, retryable && status.Failed?, now, t');
      hide Inv, FinishBase, HandoffSettled, RunSettled;
    }
  }

  lemma PlainRun(t: Tables, i: nat, status: Status, retryable: bool, now: Instant, t': Tables)
    requires Inv(t) && i < |t.attempts| && t.attempts[i].handoff.Some? && t.attempts[i].handoff.value in t.handoffs
    requires status.Accepted? || status.Failed? || status.Uncertain?
    requires t.attempts[i].status.Sending? && t' == FinishBase(t, i, status, retryable, now)
    ensures RunSettled(t, t', i, status)
  {
    assert PhaseFits(t.attempts[i]);
    PriorIs(t, t.attempts[i].handoff.value);
    BaseRuns(t, i, status, retryable, now);
    FinishBaseFields(t, i, status, retryable, now);
    hide Inv, FinishBase, PriorUncertain, HasUncertain, NewestUncertain;
  }

  lemma PlainHandoff(t: Tables, i: nat, status: Status, retryable: bool, now: Instant, t': Tables)
    requires Inv(t) && i < |t.attempts| && t.attempts[i].handoff.Some? && t.attempts[i].handoff.value in t.handoffs
    requires status.Accepted? || status.Failed? || status.Uncertain?
    requires t' == FinishBase(t, i, status, retryable, now)
    ensures HandoffSettled(t, t', i, status)
  {
    PriorIs(t, t.attempts[i].handoff.value);
    BaseHandoff(t, i, status, retryable, now);
    FinishBaseFields(t, i, status, retryable, now);
    hide Inv, FinishBase, PriorUncertain, HasUncertain, NewestUncertain, Decided;
  }

  lemma BaseHandoff(t: Tables, i: nat, status: Status, retryable: bool, now: Instant)
    requires i < |t.attempts| && t.attempts[i].handoff.Some? && t.attempts[i].handoff.value in t.handoffs
    ensures var h, prior := t.attempts[i].handoff.value, PriorUncertain(t, t.attempts[i].handoff.value);
            FinishBase(t, i, status, retryable, now).handoffs == t.handoffs[h := Shown(t.handoffs[h],
              if !t.handoffs[h].alert && status.Failed? && prior.Some? then prior.value
              else ReceiptOf(t.attempts[i], h, t.handoffs[h], status, retryable, now))]
  {
    hide PriorUncertain;
  }

  lemma WithFollowUp(t: Tables, i: nat, base: Tables, t': Tables, now: Instant, a: Attempt)
    requires Inv(t) && i < |t.attempts| && t.attempts[i].handoff.Some? && t.attempts[i].handoff.value in t.handoffs
    requires base == FinishBase(t, i, Failed, true, now)
    requires !t.handoffs[t.attempts[i].handoff.value].alert && !HasUncertain(t, t.attempts[i].handoff.value)
    requires var run := t.handoffs[t.attempts[i].handoff.value].run;
             run in t.controls && !t.controls[run].cancelRequested
    requires InsertedOn(base, t', t.attempts[i], a)
    ensures AttemptClosed(t, t', i, Failed, true, now) && Followed(t, t') && t'.attempts[|t.attempts|] == a
    ensures ReceiptLeft(t, t', i, Failed, true, now)
    ensures HandoffSettled(t, t', i, Failed) && RunSettled(t, t', i, Failed)
  {
    FollowUpRun(t, i, base, t', now, a);
    FollowUpHandoff(t, i, base, t', now, a);
    FinishBaseFields(t, i, Failed, true, now);
    assert t'.attempts[..|t.attempts|] == base.attempts;
    hide Inv, FinishBase, HasUncertain, RunSettled, HandoffSettled, Decided;
  }

  lemma FollowUpHandoff(t: Tables, i: nat, base: Tables, t': Tables, now: Instant, a: Attempt)
    requires i < |t.attempts| && t.attempts[i].handoff.Some? && t.attempts[i].handoff.value in t.handoffs
    requires base == FinishBase(t, i, Failed, true, now) && InsertedOn(base, t', t.attempts[i], a)
    ensures HandoffSettled(t, t', i, Failed)
  {
    BaseHandoff(t, i, Failed, true, now);
    FinishBaseFields(t, i, Failed, true, now);
    hide FinishBase, PriorUncertain, HasUncertain, Decided, ReceiptOf;
  }

  lemma FollowUpRun(t: Tables, i: nat, base: Tables, t': Tables, now: Instant, a: Attempt)
    requires i < |t.attempts| && t.attempts[i].handoff.Some? && t.attempts[i].handoff.value in t.handoffs
    requires base == FinishBase(t, i, Failed, true, now)
    requires !t.handoffs[t.attempts[i].handoff.value].alert && !HasUncertain(t, t.attempts[i].handoff.value)
    requires var run := t.handoffs[t.attempts[i].handoff.value].run;
             run in t.controls && !t.controls[run].cancelRequested
    requires InsertedOn(base, t', t.attempts[i], a)
    ensures RunSettled(t, t', i, Failed)
  {
    BaseRuns(t, i, Failed, true, now);
    FinishBaseFields(t, i, Failed, true, now);
    hide FinishBase, PriorUncertain, HasUncertain;
  }

  /**
   `finish` goes through for the owner alone, and then the tables hold its whole result: the
   closed attempt and its receipt, a handoff and a run that tell the same story, and one
   follow-up exactly when it is due.
   */
  lemma FinishEffect(t: Tables, job: JobId, token: Token, status: Status, retryable: bool,
                     policy: Option<Policy>, uuid: JobId, now: Instant)
    requires Inv(t)
    ensures var r := FinishTx(t, job, token, status, retryable, policy, uuid, now);
            && (r.Ok? <==> Finishable(t, job, token, status))
            && (r.Ok? ==> ResultRecorded(t, r.value, job, status, retryable, policy, uuid, now))
  {
    FinishOk(t, job, token, status, retryable, policy, uuid, now);
    var r := FinishTx(t, job, token, status, retryable, policy, uuid, now);
    if r.Ok? {
      AtFind(t, job);
      var i := Find(t.attempts, job);
      FinishCases(t, i, token, status, retryable, policy, uuid, now, r.value);
      InsertsIs(t, i, status, retryable, policy, uuid, now);
      FinishedCase(t, i, token, status, retryable, policy, uuid, now, r.value);
    }
  }

  lemma FinishedCase(t: Tables, i: nat, token: Token, status: Status, retryable: bool,
                     policy: Option<Policy>, uuid: JobId, now: Instant, t': Tables)
    requires Inv(t) && i < |t.attempts| && MayFinish(t, i, token, status)
    requires var base := FinishBase(t, i, status, retryable && status.Failed?, now);
             if FollowUpDue(t, i, status, retryable, policy, uuid, now)
             then exists a :: InsertedOn(base, t', t.attempts[i], a) && FollowUp(t, i, policy.value, uuid, now, a)
             else t' == base
    ensures ResultRecorded(t, t', t.attempts[i].job, status, retryable, policy, uuid, now)
  {
    hide Inv, FinishBase, FamilyClear, HasUncertain;
    if FollowUpDue(t, i, status, retryable, policy, uuid, now) {
      var base := FinishBase(t, i, Failed, true, now);
      var a :| InsertedOn(base, t', t.attempts[i], a) && FollowUp(t, i, policy.value, uuid, now, a);
      WithFollowUp(t, i, base, t', now, a);
    } else {
      PlainResult(t, i, token, status, retryable, now, t');
    }
    assert At(t, t.attempts[i].job, i);
  }

  // ---------------------------------------------------------------- retry

  predicate HasKey(t: Tables, key: Key, k: nat) {
    k < |t.attempts| && t.attempts[k].key == Some(key)
  }

  /** The first attempt made for a request key. */
  ghost predicate MadeFor(t: Tables, key: Key, k: nat) {
    HasKey(t, key, k) && forall j: nat :: j < k ==> !HasKey(t, key, j)
  }

  /** No attempt of the handoff has a higher number. */
  ghost predicate Newest(t: Tables, i: nat)
    requires i < |t.attempts|
  {
    forall k :: 0 <= k < |t.attempts| && t.attempts[k].handoff == t.attempts[i].handoff ==> t.attempts[k].number <= t.attempts[i].number
  }

  /** A deferred retry is pulled forward. */
  predicate PullsForward(row: Attempt, now: Instant) {
    row.status.Queued? && row.parent.Some? && row.due.Some? && row.due.value > now
  }

  /** A closed attempt is followed by a new one: an ordinary, finished run of an idle family. */
  ghost predicate StartsOver(t: Tables, row: Attempt, uuid: JobId) {
    && (row.status.Failed? || row.status.Uncertain?)
    && row.handoff.Some? && row.handoff.value in t.handoffs
    && var hd := t.handoffs[row.handoff.value];
    && !hd.alert && FamilyClear(t, hd.run, true)
    && hd.run in t.controls && !t.controls[hd.run].cancelRequested && !t.controls[hd.run].forceDryRun
    && hd.run in t.runs && (t.runs[hd.run].status.RunFailed? || t.runs[hd.run].status.NeedsAttention?)
    && forall k :: 0 <= k < |t.attempts| ==> t.attempts[k].job != uuid
  }

  /** The newest attempt may be retried; where a result is uncertain only with the acknowledgement. */
  ghost predicate Repeatable(t: Tables, i: nat, request: Request, uuid: JobId, now: Instant)
    requires i < |t.attempts|
  {
    && t.attempts[i].handoff.Some? && Newest(t, i)
    && (HasUncertain(t, t.attempts[i].handoff.value) ==> request.allowUncertain)
    && (PullsForward(t.attempts[i], now) || StartsOver(t, t.attempts[i], uuid))
  }

  /** A key that was used answers for its own request only; a new one needs a repeatable attempt. */
  ghost predicate Retries(t: Tables, job: JobId, key: Key, request: Request, uuid: JobId, now: Instant) {
    if key in t.requests then t.requests[key].request == request
    else if exists k: nat :: HasKey(t, key, k) then exists k: nat :: MadeFor(t, key, k) && t.attempts[k].request == Some(request)
    else exists i: nat :: At(t, job, i) && Repeatable(t, i, request, uuid, now)
  }

  ghost predicate Retried(t: Tables, t': Tables, answer: JobId, job: JobId, key: Key, request: Request,
                          revision: int, uuid: JobId, now: Instant)
  {
    if key in t.requests then t' == t && answer == t.requests[key].job
    else if exists k: nat :: HasKey(t, key, k) then t' == t && exists k: nat :: MadeFor(t, key, k) && answer == t.attempts[k].job
    else exists i: nat :: At(t, job, i) && Repeated(t, t', i, answer, key, request, revision, uuid, now)
  }

  /** Pulled forward the attempt is due now; a new one repeats the message, is due now and never expires. */
  ghost predicate Repeated(t: Tables, t': Tables, i: nat, answer: JobId, key: Key, request: Request,
                           revision: int, uuid: JobId, now: Instant)
    requires i < |t.attempts|
  {
    var row := t.attempts[i];
    if row.status.Queued? then
      && answer == row.job
      && t' == t.(attempts := t.attempts[i := row.(due := Some(now), updated := now)],
                  requests := t.requests[key := RetryRow(row.job, request)])
    else
      && answer == uuid && row.handoff.Some? && row.handoff.value in t.handoffs
      && var h, hd := row.handoff.value, t.handoffs[row.handoff.value];
      && hd.run in t.runs
      && t' == t.(attempts := t.attempts + [
                    Attempt(uuid, row.handoff, Queued, Prepared, None, None, row.message, revision, now, now,
                            Some(row.job), row.number + 1, Some(key), Some(request), Some(now), None, false)],
                  handoffs := t.handoffs[h := hd.(status := QueuedH, receipt := None, acknowledged := None,
                                                  externalStatus := None, receiptSha := None, trusted := false)],
                  runs := t.runs[hd.run := t.runs[hd.run].(status := AwaitingReceipt)],
                  requests := t.requests[key := RetryRow(uuid, request)])
  }

  lemma FirstKey(t: Tables, key: Key)
    ensures forall k: nat :: MadeFor(t, key, k) <==> k == FindKey(t.attempts, key) < |t.attempts|
    ensures (exists k: nat :: HasKey(t, key, k)) <==> FindKey(t.attempts, key) < |t.attempts|
  {
    var p := FindKey(t.attempts, key);
    if p < |t.attempts| {
      assert HasKey(t, key, p);
    }
  }

  /** Numbers grow along a chain, so the row with the highest one is the last. */
  lemma NewestIsLatest(t: Tables, i: nat)
    requires Inv(t) && i < |t.attempts| && t.attempts[i].handoff.Some?
    ensures var c := Chain(t.attempts, t.attempts[i].handoff.value);
            c != [] && (c[|c| - 1].job == t.attempts[i].job <==> Newest(t, i))
  {
    var h := t.attempts[i].handoff.value;
    var c := Chain(t.attempts, h);
    assert HandoffHolds(t, h);
    ChainMembers(t.attempts, h, t.attempts[i]);
    var m :| 0 <= m < |c| && c[m] == t.attempts[i];
    var last := c[|c| - 1];
    ChainMembers(t.attempts, h, last);
    var l :| 0 <= l < |t.attempts| && t.attempts[l] == last;
    NumbersAlong(h, c);
    if last.job == t.attempts[i].job {
      assert l == i;
      forall k | 0 <= k < |t.attempts| && t.attempts[k].handoff == Some(h) ensures t.attempts[k].number <= t.attempts[i].number {
        ChainMembers(t.attempts, h, t.attempts[k]);
        var j :| 0 <= j < |c| && c[j] == t.attempts[k];
      }
    }
  }

  /** With its newest attempt closed and not accepted, a handoff has nothing open and the next number free. */
  lemma NewestClosed(t: Tables, i: nat)
    requires Inv(t) && i < |t.attempts| && t.attempts[i].handoff.Some? && Newest(t, i)
    requires t.attempts[i].status.Failed? || t.attempts[i].status.Uncertain?
    ensures !SomeOpen(t.attempts, t.attempts[i].handoff.value)
    ensures !NumberTaken(t.attempts, t.attempts[i].handoff.value, t.attempts[i].number + 1)
  {
    var h := t.attempts[i].handoff.value;
    var c := Chain(t.attempts, h);
    assert HandoffHolds(t, h);
    NewestIsLatest(t, i);
    LatestFollows(t, i);
    LatestRow(t, i);
    forall k | 0 <= k < |t.attempts| && OfHandoff(t.attempts[k], h)
      ensures !Pending(t.attempts[k]) && !t.attempts[k].status.Accepted?
    {
      ChainMembers(t.attempts, h, t.attempts[k]);
      var m :| 0 <= m < |c| && c[m] == t.attempts[k];
    }
  }

  lemma LatestRow(t: Tables, i: nat)
    requires Inv(t) && i < |t.attempts| && t.attempts[i].handoff.Some?
    requires var c := Chain(t.attempts, t.attempts[i].handoff.value); c != [] && c[|c| - 1].job == t.attempts[i].job
    ensures var c := Chain(t.attempts, t.attempts[i].handoff.value); c[|c| - 1] == t.attempts[i]
  {
    var c := Chain(t.attempts, t.attempts[i].handoff.value);
    ChainMembers(t.attempts, t.attempts[i].handoff.value, c[|c| - 1]);
    var l :| 0 <= l < |t.attempts| && t.attempts[l] == c[|c| - 1];
  }

  lemma UncertainIs(rows: seq<Attempt>, t: Tables, h: HandoffId)
    requires rows == t.attempts
    ensures SomeUncertain(rows, h) <==> HasUncertain(t, h)
  {
    if k :| 0 <= k < |rows| && rows[k].handoff == Some(h) && rows[k].status.Uncertain? {
      assert rows[k] in rows;
    }
  }

  lemma MayRetryIs(t: Tables, i: nat, request: Request)
    requires Inv(t) && i < |t.attempts|
    ensures MayRetry(t, i, request) <==>
              && t.attempts[i].handoff.Some? && Newest(t, i)
              && (HasUncertain(t, t.attempts[i].handoff.value) ==> request.allowUncertain)
              && (t.attempts[i].status.Failed? || t.attempts[i].status.Uncertain? || t.attempts[i].status.Queued?)
  {
    if t.attempts[i].handoff.Some? {
      NewestIsLatest(t, i);
      UncertainIs(t.attempts, t, t.attempts[i].handoff.value);
    }
    hide Inv, SomeUncertain, HasUncertain, Newest;
  }

  lemma StartsOverIs(t: Tables, i: nat, key: Key, uuid: JobId)
    requires Inv(t) && i < |t.attempts| && t.attempts[i].handoff.Some? && Newest(t, i)
    requires t.attempts[i].status.Failed? || t.attempts[i].status.Uncertain?
    requires FindKey(t.attempts, key) == |t.attempts|
    ensures MayInsert(t, t.attempts[i], key, uuid) <==> StartsOver(t, t.attempts[i], uuid)
  {
    NewestClosed(t, i);
    HasJobFind(t.attempts, uuid);
    hide Inv, FamilyClear, SomeOpen, NumberTaken;
  }

  lemma RepeatEffect(t: Tables, i: nat, key: Key, request: Request, revision: int, uuid: JobId, now: Instant)
    requires Inv(t) && i < |t.attempts| && Find(t.attempts, t.attempts[i].job) == i
    requires key !in t.requests && FindKey(t.attempts, key) == |t.attempts|
    ensures var r := RetryTx(t, t.attempts[i].job, key, request, revision, uuid, now);
            && (r.Ok? <==> Repeatable(t, i, request, uuid, now))
            && (r.Ok? ==> Repeated(t, r.value.0, i, r.value.1, key, request, revision, uuid, now))
  {
    MayRetryIs(t, i, request);
    if MayRetry(t, i, request) && !t.attempts[i].status.Queued? {
      StartsOverIs(t, i, key, uuid);
    }
    hide Inv, MayRetry, MayInsert, HasUncertain, Newest;
  }

  /** A retry answers from the record, pulls a deferred attempt forward, or starts over; else it changes nothing. */
  lemma RetryEffect(t: Tables, job: JobId, key: Key, request: Request, revision: int, uuid: JobId, now: Instant)
    requires Inv(t)
    ensures var r := RetryTx(t, job, key, request, revision, uuid, now);
            && (r.Ok? <==> Retries(t, job, key, request, uuid, now))
            && (r.Ok? ==> Retried(t, r.value.0, r.value.1, job, key, request, revision, uuid, now))
  {
    AtFind(t, job);
    FirstKey(t, key);
    var i := Find(t.attempts, job);
    if key !in t.requests && FindKey(t.attempts, key) == |t.attempts| && i < |t.attempts| {
      RepeatEffect(t, i, key, request, revision, uuid, now);
      assert At(t, job, i);
    }
    hide Inv, MayRetry, InsertTx, Repeatable, Repeated;
  }

  // ---------------------------------------------------------------- cancel

  /** The run waits and was cancelled, and none of its own mail is being sent. */
  ghost predicate Cancellable(t: Tables, run: RunId) {
    && run in t.runs && t.runs[run].status.AwaitingReceipt?
    && run in t.controls && t.controls[run].cancelRequested
    && forall k :: 0 <= k < |t.attempts| && t.attempts[k].status.Sending? ==> !MailOf(t, run, t.attempts[k].handoff)
  }

  /** The run's own mail; alerts about it are not. */
  predicate MailOf(t: Tables, run: RunId, handoff: Option<HandoffId>) {
    handoff.Some? && handoff.value in t.handoffs && !t.handoffs[handoff.value].alert && t.handoffs[handoff.value].run == run
  }

  /** An uncertain result nobody has resolved by an acceptance. */
  ghost predicate InDoubt(t: Tables, h: HandoffId) {
    && HasUncertain(t, h)
    && forall k :: 0 <= k < |t.attempts| && t.attempts[k].handoff == Some(h) ==> !t.attempts[k].status.Accepted?
  }

  /** What waits in the queue is closed unsent, the handoff fails or stays uncertain, and so the run. */
  ghost predicate CancelDone(t: Tables, t': Tables, run: RunId, now: Instant) {
    && t'.receipts == t.receipts && t'.controls == t.controls && t'.requests == t.requests
    && QueueClosed(t, run, t'.attempts, now)
    && t'.handoffs.Keys == t.handoffs.Keys
    && (forall h :: h in t.handoffs ==> HandoffCancelled(t, run, h, t'.handoffs[h]))
    && run in t.runs
    && t'.runs == t.runs[run := t.runs[run].(status := if RunInDoubt(t, run) then NeedsAttention else Cancelled)]
  }

  ghost predicate RunInDoubt(t: Tables, run: RunId) {
    exists h :: h in t.handoffs && MailOf(t, run, Some(h)) && InDoubt(t, h)
  }

  ghost predicate QueueClosed(t: Tables, run: RunId, rows: seq<Attempt>, now: Instant) {
    && |rows| == |t.attempts|
    && forall k :: 0 <= k < |rows| ==>
         rows[k] == if t.attempts[k].status.Queued? && MailOf(t, run, t.attempts[k].handoff)
                    then t.attempts[k].(status := Failed, phase := Finished, updated := now) else t.attempts[k]
  }

  ghost predicate HandoffCancelled(t: Tables, run: RunId, h: HandoffId, hd: Handoff)
    requires h in t.handoffs
  {
    var was := t.handoffs[h];
    if !MailOf(t, run, Some(h)) then hd == was
    else if InDoubt(t, h) then exists r :: NewestUncertain(t, h, r) && Shows(hd, was, UncertainH, Uncertain, r)
    else if was.status.PreparedH? || was.status.PublishedH? || was.status.QueuedH? then hd == was.(status := FailedH)
    else hd == was
  }

  lemma SurvivingIs(t: Tables, h: HandoffId)
    requires Inv(t) && h in t.handoffs
    ensures SurvivingUncertain(t, h).Some? <==> InDoubt(t, h)
    ensures SurvivingUncertain(t, h).Some? ==>
              NewestUncertain(t, h, SurvivingUncertain(t, h).value) && SurvivingUncertain(t, h).value.status.Uncertain?
  {
    PriorIs(t, h);
    hide Inv, PriorUncertain, HasUncertain, NewestUncertain;
    if k :| 0 <= k < |t.attempts| && t.attempts[k].handoff == Some(h) && t.attempts[k].status.Accepted? {
      assert t.attempts[k] in t.attempts && OfHandoff(t.attempts[k], h);
    }
  }

  lemma CancelEffect(t: Tables, run: RunId, now: Instant)
    requires Inv(t)
    ensures var r := CancelTx(t, run, now);
            && (r.Some? <==> Cancellable(t, run))
            && (r.Some? ==> CancelDone(t, r.value, run, now))
  {
    hide RowInv, HandoffsInv, SurvivingUncertain, InDoubt, NewestUncertain;
    if MayCancel(t, run) {
      if exists h :: Business(t, run, h) {
        var h :| Business(t, run, h);
        CancelTxIs(t, run, h, now);
        CancelOneDone(t, run, h, now, CancelTx(t, run, now).value);
      } else {
        NoMail(t, run);
      }
    }
  }

  lemma CancelOneDone(t: Tables, run: RunId, h: HandoffId, now: Instant, t': Tables)
    requires Inv(t) && Business(t, run, h) && run in t.runs
    requires var u := SurvivingUncertain(t, h);
             t' == t.(attempts := CancelRows(t.attempts, h, now),
                      handoffs := t.handoffs[h := CancelledHandoff(t.handoffs[h], u)],
                      runs := t.runs[run := t.runs[run].(status := if u.Some? then NeedsAttention else Cancelled)])
    ensures CancelDone(t, t', run, now)
  {
    hide Inv, SurvivingUncertain, InDoubt, NewestUncertain, MailOf, CancelRows, HandoffCancelled, QueueClosed, RunInDoubt,
         CancelledHandoff, OneBusiness;
    SurvivingIs(t, h);
    MailIs(t, run, h);
    RowsClosed(t, run, h, now);
    DoubtIs(t, run, h);
    forall g | g in t.handoffs ensures HandoffCancelled(t, run, g, t'.handoffs[g]) {
      OneCancelled(t, run, h, g, SurvivingUncertain(t, h));
    }
  }

  lemma MailIs(t: Tables, run: RunId, h: HandoffId)
    requires Inv(t) && Business(t, run, h)
    ensures forall x :: MailOf(t, run, x) <==> x == Some(h)
  {
    OnlyMail(t, run, h);
  }

  lemma DoubtIs(t: Tables, run: RunId, h: HandoffId)
    requires h in t.handoffs && forall x :: MailOf(t, run, x) <==> x == Some(h)
    ensures RunInDoubt(t, run) <==> InDoubt(t, h)
  {
    hide MailOf, InDoubt;
  }

  lemma RowsClosed(t: Tables, run: RunId, h: HandoffId, now: Instant)
    requires forall x :: MailOf(t, run, x) <==> x == Some(h)
    ensures QueueClosed(t, run, CancelRows(t.attempts, h, now), now)
  {
    hide MailOf;
  }

  lemma OneCancelled(t: Tables, run: RunId, h: HandoffId, g: HandoffId, u: Option<Receipt>)
    requires h in t.handoffs && g in t.handoffs && (MailOf(t, run, Some(g)) <==> g == h)
    requires u.Some? <==> InDoubt(t, h)
    requires u.Some? ==> NewestUncertain(t, h, u.value) && u.value.status.Uncertain?
    ensures HandoffCancelled(t, run, g, if g == h then CancelledHandoff(t.handoffs[h], u) else t.handoffs[g])
  {
    hide MailOf, InDoubt, NewestUncertain;
  }

  lemma OnlyMail(t: Tables, run: RunId, h: HandoffId)
    requires OneBusiness(t) && Business(t, run, h)
    ensures forall x :: MailOf(t, run, x) <==> x == Some(h)
  {
    forall x: Option<HandoffId> | x.Some? ensures MailOf(t, run, x) <==> Business(t, run, x.value) {
    }
  }

  lemma NoMail(t: Tables, run: RunId)
    requires !exists h :: Business(t, run, h)
    ensures forall x :: !MailOf(t, run, x)
  {
    forall x: Option<HandoffId> | x.Some? ensures MailOf(t, run, x) <==> Business(t, run, x.value) {
    }
  }

  // ---------------------------------------------------------------- recovery

  /** The attempt is being sent by a process that is gone. */
  predicate Orphaned(t: Tables, alive: set<int>, i: nat) {
    i < |t.attempts| && t.attempts[i].status.Sending? && t.attempts[i].pid.Some? && t.attempts[i].pid.value !in alive
  }

  /** A body that may have left is uncertain, any other attempt failed; nothing is sent again. */
  ghost predicate Recovered(t: Tables, t': Tables, alive: set<int>, job: JobId, now: Instant) {
    exists i: nat ::
      && At(t, job, i) && Orphaned(t, alive, i)
      && var status := if t.attempts[i].phase.DataStarted? then Uncertain else Failed;
      && t'.attempts == t.attempts[i := t.attempts[i].(status := status, phase := Finished, updated := now, retryable := false)]
      && ResultRecorded(t, t', job, status, false, None, 0, now)
  }

  /** Closing an orphan always succeeds. */
  lemma RecoverEffect(t: Tables, alive: set<int>, i: nat, now: Instant)
    requires Inv(t) && Orphaned(t, alive, i)
    ensures t.attempts[i].token.Some?
    ensures var r := FinishTx(t, t.attempts[i].job, t.attempts[i].token.value, RecoveredStatus(t.attempts[i].phase), false, None, 0, now);
            && r.Ok? && r == RecoverTx(t, t.attempts[i].job, t.attempts[i].phase, now)
            && Recovered(t, r.value, alive, t.attempts[i].job, now)
  {
    var row := t.attempts[i];
    var status := RecoveredStatus(row.phase);
    assert At(t, row.job, i) && PhaseFits(row);
    AtFind(t, row.job);
    FinishEffect(t, row.job, row.token.value, status, false, None, 0, now);
    assert OwnedRow(t, row.job, row.token.value, i);
    hide Inv, FinishTx, ReceiptLeft, HandoffSettled, RunSettled, FollowUp;
    var r := FinishTx(t, row.job, row.token.value, status, false, None, 0, now);
    assert r.value.attempts[..|t.attempts|] == r.value.attempts;
  }
}
