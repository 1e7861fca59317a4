/**
 The queue as an object over its tables. Each public method is one transaction; it is proved
 to do what the transaction of the same name in `Queue` says, on every outcome, and so it
 keeps `Valid`. The queries are the loops and lookups of the original, by attempt number.
 */
module DurableQueue {
  import opened DeliveryTypes
  import opened RetryGuard
  import opened Queue
  import opened Chains
  import opened QueueInvariant
  import opened QueueQueries
  import Effects

  class SmtpQueue {
    var attempts: seq<Attempt>
    var handoffs: map<HandoffId, Handoff>
    var runs: map<RunId, Run>
    var controls: map<RunId, Controls>
    var receipts: map<JobId, Receipt>
    var requests: map<Key, RetryRow>

    constructor (t: Tables)
      ensures State() == t
    {
      attempts, handoffs, runs := t.attempts, t.handoffs, t.runs;
      controls, receipts, requests := t.controls, t.receipts, t.requests;
    }

    function State(): Tables
      reads this
    {
      Tables(attempts, handoffs, runs, controls, receipts, requests)
    }

    ghost predicate Valid()
      reads this
    {
      Inv(State())
    }

    /** Rolling back to a remembered state. */
    method Restore(t: Tables)
      modifies this
      ensures State() == t
    {
      attempts, handoffs, runs := t.attempts, t.handoffs, t.runs;
      controls, receipts, requests := t.controls, t.receipts, t.requests;
    }

    // -------------------------------------------------------------- queries

    method Locate(job: JobId) returns (i: nat)
      ensures i == Find(attempts, job)
    {
      i := 0;
      while i < |attempts| && attempts[i].job != job
        invariant i <= |attempts|
        invariant forall j :: 0 <= j < i ==> attempts[j].job != job
      {
        i := i + 1;
      }
    }

    method LocateKey(key: Key) returns (i: nat)
      ensures i == FindKey(attempts, key)
    {
      i := 0;
      while i < |attempts| && attempts[i].key != Some(key)
        invariant i <= |attempts|
        invariant forall j :: 0 <= j < i ==> attempts[j].key != Some(key)
      {
        i := i + 1;
      }
    }

    /** ORDER BY attempt_number DESC LIMIT 1. */
    method Latest(h: HandoffId) returns (r: Option<Attempt>)
      requires Valid() && h in handoffs
      ensures var c := Chain(attempts, h); r == if c == [] then None else Some(c[|c| - 1])
    {
      r := None;
      var i := 0;
      while i < |attempts|
        invariant 0 <= i <= |attempts|
        invariant r.Some? ==> r.value in attempts && OfHandoff(r.value, h)
        invariant forall j :: 0 <= j < i && OfHandoff(attempts[j], h) ==> r.Some? && attempts[j].number <= r.value.number
      {
        if OfHandoff(attempts[i], h) && (r.None? || attempts[i].number > r.value.number) {
          r := Some(attempts[i]);
        }
        i := i + 1;
      }
      Extremes(State(), h, r, true);
    }

    /** ORDER BY attempt_number LIMIT 1. */
    method First(h: HandoffId) returns (r: Option<Attempt>)
      requires Valid() && h in handoffs
      ensures var c := Chain(attempts, h); r == if c == [] then None else Some(c[0])
    {
      r := None;
      var i := 0;
      while i < |attempts|
        invariant 0 <= i <= |attempts|
        invariant r.Some? ==> r.value in attempts && OfHandoff(r.value, h)
        invariant forall j :: 0 <= j < i && OfHandoff(attempts[j], h) ==> r.Some? && attempts[j].number >= r.value.number
      {
        if OfHandoff(attempts[i], h) && (r.None? || attempts[i].number < r.value.number) {
          r := Some(attempts[i]);
        }
        i := i + 1;
      }
      Extremes(State(), h, r, false);
    }

    /** The newest uncertain attempt of a handoff joined with its receipt. */
    method NewestUncertain(h: HandoffId) returns (r: Option<Receipt>)
      requires Shape(h, Chain(attempts, h)) && UncertainReceipted(State(), h)
      ensures r == PriorUncertain(State(), h)
    {
      var best: Option<Attempt> := None;
      var i := 0;
      while i < |attempts|
        invariant 0 <= i <= |attempts|
        invariant best.Some? ==> best.value in attempts && UncertainRow(best.value, h) && best.value.job in receipts
        invariant forall j :: 0 <= j < i && UncertainRow(attempts[j], h) && attempts[j].job in receipts ==>
                    best.Some? && attempts[j].number <= best.value.number
      {
        if UncertainRow(attempts[i], h) && attempts[i].job in receipts
           && (best.None? || attempts[i].number > best.value.number) {
          best := Some(attempts[i]);
        }
        i := i + 1;
      }
      NewestIsLast(State(), h, best);
      r := if best.Some? then Some(receipts[best.value.job]) else None;
    }

    // -------------------------------------------------------------- enqueue

    method Enqueue(job: JobId, handoff: Option<HandoffId>, message: Message, revision: int, now: Instant)
      returns (ok: bool)
      requires Valid()
      modifies this
      ensures EnqueueTx(old(State()), job, handoff, message, revision, now) == if ok then Ok(State()) else Err
      ensures !ok ==> State() == old(State())
      ensures ok <==> Effects.Enqueues(old(State()), job, handoff, message, revision)
      ensures ok ==> Effects.Enqueued(old(State()), State(), job, handoff, message, revision, now)
      ensures Valid()
    {
      ghost var before := State();
      hide Effects.Enqueues, Effects.Enqueued;
      Effects.EnqueueEffect(before, job, handoff, message, revision, now);
      var i := Locate(job);
      if i < |attempts| {
        return attempts[i].message == message && attempts[i].revision == revision;
      }
      if handoff.Some? {
        var h := handoff.value;
        if h !in handoffs || NumberTaken(attempts, h, 1) || SomePending(attempts, h) {
          return false;
        }
      }
      attempts := attempts + [FirstAttempt(job, handoff, message, revision, now)];
      ok := true;
      EnqueueKeeps(before, job, handoff, message, revision, now);
    }

    // -------------------------------------------------------------- retry

    /**
     The statements of `_insert_retry` in their order. The last one may find that the run has
     moved on, after the attempt was inserted and the handoff reopened: on `false` the caller
     must roll back, and only the other tables are promised untouched.
     */
    method InsertRetry(row: Attempt, job: JobId, now: Instant, due: Instant, key: Key, request: Request,
                       revision: int, expires: Option<Instant>) returns (ok: bool)
      modifies this`attempts, this`handoffs, this`runs
      ensures InsertTx(old(State()), row, job, now, due, key, request, revision, expires)
           == if ok then Ok(State()) else Err
    {
      if row.handoff.None? || row.handoff.value !in handoffs || handoffs[row.handoff.value].alert {
        return false;
      }
      var h := row.handoff.value;
      var run := handoffs[h].run;
      var clear := RequireRetryFamilyClear(State(), run, true);
      if !clear {
        return false;
      }
      if run !in controls || controls[run].cancelRequested || controls[run].forceDryRun {
        return false;
      }
      if SomeOpen(attempts, h) {
        return false;
      }
      var k := LocateKey(key);
      if HasJob(attempts, job) || k < |attempts| || NumberTaken(attempts, h, row.number + 1) {
        return false;
      }
      attempts := attempts + [RetryAttempt(row, job, now, due, key, request, revision, expires)];
      handoffs := handoffs[h := Reopened(handoffs[h])];
      if run !in runs || !(runs[run].status.RunFailed? || runs[run].status.NeedsAttention?) {
        return false;
      }
      runs := runs[run := runs[run].(status := AwaitingReceipt)];
      ok := true;
    }

    /** The two lookups by request key; a hit with another request is refused. */
    method Cached(key: Key, request: Request) returns (hit: bool, answer: Option<JobId>)
      ensures hit <==> key in requests || FindKey(attempts, key) < |attempts|
      ensures hit ==> answer == if key in requests
                                then (if requests[key].request == request then Some(requests[key].job) else None)
                                else var a := attempts[FindKey(attempts, key)];
                                     if a.request == Some(request) then Some(a.job) else None
    {
      if key in requests {
        return true, if requests[key].request == request then Some(requests[key].job) else None;
      }
      var p := LocateKey(key);
      if p < |attempts| {
        return true, if attempts[p].request == Some(request) then Some(attempts[p].job) else None;
      }
      return false, None;
    }

    method Retryable(i: nat, request: Request) returns (may: bool)
      requires Valid() && i <= |attempts|
      ensures may <==> i < |attempts| && MayRetry(State(), i, request)
    {
      if i == |attempts| || attempts[i].handoff.None? {
        return false;
      }
      var row := attempts[i];
      if !(row.status.Failed? || row.status.Uncertain? || row.status.Queued?) {
        return false;
      }
      var h := row.handoff.value;
      if SomeUncertain(attempts, h) && !request.allowUncertain {
        return false;
      }
      assert h in handoffs;
      var latest := Latest(h);
      may := latest.Some? && latest.value.job == row.job;
    }

    method Retry(job: JobId, key: Key, request: Request, revision: int, uuid: JobId, now: Instant)
      returns (result: Option<JobId>)
      requires Valid()
      modifies this
      ensures RetryTx(old(State()), job, key, request, revision, uuid, now)
           == if result.Some? then Ok((State(), result.value)) else Err
      ensures result.None? ==> State() == old(State())
      ensures result.Some? <==> Effects.Retries(old(State()), job, key, request, uuid, now)
      ensures result.Some? ==> Effects.Retried(old(State()), State(), result.value, job, key, request, revision, uuid, now)
      ensures Valid()
    {
      ghost var before := State();
      hide Effects.Retries, Effects.Retried;
      Effects.RetryEffect(before, job, key, request, revision, uuid, now);
      var hit, answer := Cached(key, request);
      if hit {
        return answer;
      }
      var i := Locate(job);
      var may := Retryable(i, request);
      if !may {
        return None;
      }
      result := Append(i, key, request, revision, uuid, now);
      if result.Some? {
        RetryKeeps(before, job, key, request, revision, uuid, now);
      }
    }

    /** Pulling a deferred attempt forward, or inserting a new one; rolled back on failure. */
    method Append(i: nat, key: Key, request: Request, revision: int, uuid: JobId, now: Instant)
      returns (result: Option<JobId>)
      requires i < |attempts| && Find(attempts, attempts[i].job) == i && MayRetry(State(), i, request)
      requires key !in requests && FindKey(attempts, key) == |attempts|
      modifies this
      ensures RetryTx(old(State()), old(attempts)[i].job, key, request, revision, uuid, now)
           == if result.Some? then Ok((State(), result.value)) else Err
      ensures result.None? ==> State() == old(State())
    {
      var row := attempts[i];
      if row.status.Queued? {
        if !Deferred(row, now) {
          return None;
        }
        attempts := attempts[i := Expedited(row, now)];
        requests := requests[key := RetryRow(row.job, request)];
        return Some(row.job);
      }
      var savepoint := State();
      var ok := InsertRetry(row, uuid, now, now, key, request, revision, None);
      if !ok {
        Restore(savepoint);
        return None;
      }
      requests := requests[key := RetryRow(uuid, request)];
      result := Some(uuid);
    }

    // -------------------------------------------------------------- claim and DATA

    method Claim(job: JobId, token: Token, pid: int, includeFuture: bool, now: Instant) returns (ok: bool)
      requires Valid()
      modifies this`attempts
      ensures ClaimTx(old(State()), job, token, pid, includeFuture, now) == if ok then Some(State()) else None
      ensures !ok ==> State() == old(State())
      ensures ok <==> Effects.Claimable(old(State()), job, includeFuture, now)
      ensures ok ==> Effects.ClaimedBy(old(State()), State(), job, token, pid, now)
      ensures Valid()
    {
      ghost var before := State();
      hide Effects.Claimable, Effects.ClaimedBy;
      Effects.ClaimEffect(before, job, token, pid, includeFuture, now);
      var i := Locate(job);
      if i == |attempts| || !attempts[i].status.Queued? || !(includeFuture || DueAt(attempts[i], now)) {
        return false;
      }
      if SomeSending(attempts) {
        return false;
      }
      attempts := attempts[i := Claimed(attempts[i], token, pid, now)];
      ok := true;
      ClaimKeeps(before, job, token, pid, includeFuture, now);
    }

    method StartData(job: JobId, token: Token, approved: bool, now: Instant) returns (ok: bool)
      requires Valid()
      modifies this`attempts
      ensures StartDataTx(old(State()), job, token, approved, now) == if ok then Ok(State()) else Err
      ensures !ok ==> State() == old(State())
      ensures ok <==> Effects.Starts(old(State()), job, token, approved, now)
      ensures ok ==> Effects.Started(old(State()), State(), job, token, now)
      ensures Valid()
    {
      ghost var before := State();
      hide Effects.Starts, Effects.Started;
      Effects.StartDataEffect(before, job, token, approved, now);
      var i := Locate(job);
      if i == |attempts| {
        return false;
      }
      var row := attempts[i];
      if row.expires.Some? && row.expires.value <= now {
        return false;
      }
      if !Permitted(State(), row, approved) || !Owns(row, token) || !row.phase.Prepared? {
        return false;
      }
      attempts := attempts[i := row.(phase := DataStarted, updated := now)];
      ok := true;
      StartDataKeeps(before, job, token, approved, now);
    }

    method RecordStage(job: JobId, token: Token, now: Instant) returns (ok: bool)
      requires Valid()
      modifies this`attempts
      ensures RecordStageTx(old(State()), job, token, now) == if ok then Ok(State()) else Err
      ensures !ok ==> State() == old(State())
      ensures ok <==> Effects.Owned(old(State()), job, token)
      ensures ok ==> Effects.Stamped(old(State()), State(), job, token, now)
      ensures Valid()
    {
      ghost var before := State();
      hide Effects.Owned, Effects.Stamped;
      Effects.RecordStageEffect(before, job, token, now);
      var i := Locate(job);
      ok := i < |attempts| && Owns(attempts[i], token);
      if ok {
        attempts := attempts[i := attempts[i].(updated := now)];
        RecordStageKeeps(before, job, token, now);
      }
    }

    // -------------------------------------------------------------- finish

    /** UPDATE scheduled_runs, for a run that is still waiting for this result. */
    method SettleRun(run: RunId, row: Attempt, status: Status, prior: bool)
      modifies this`runs
      ensures runs == if run in old(runs) && (old(runs)[run].status.AwaitingReceipt? || old(runs)[run].status.RunRunning?)
                      then old(runs)[run := old(runs)[run].(status := RunStatusAfter(row, status, prior, CancelFlag(old(State()), run)))]
                      else old(runs)
    {
      if run in runs && (runs[run].status.AwaitingReceipt? || runs[run].status.RunRunning?) {
        var after := RunStatusAfter(row, status, prior, CancelFlag(State(), run));
        runs := runs[run := runs[run].(status := after)];
      }
    }

    /** The result, its receipt, the handoff and the run; no rescheduling. */
    method RecordResult(i: nat, token: Token, status: Status, retryable: bool, now: Instant)
      returns (prior: Option<Receipt>)
      requires i < |attempts| && MayFinish(State(), i, token, status)
      requires attempts[i].handoff.Some? ==>
                 Shape(attempts[i].handoff.value, Chain(attempts, attempts[i].handoff.value))
                 && UncertainReceipted(State(), attempts[i].handoff.value)
      modifies this`attempts, this`receipts, this`handoffs, this`runs
      ensures State() == FinishBase(old(State()), i, status, retryable, now)
      ensures old(attempts)[i].handoff.Some? ==> prior == PriorUncertain(old(State()), old(attempts)[i].handoff.value)
    {
      var row := attempts[i];
      if row.handoff.None? {
        attempts := attempts[i := Closed(row, status, retryable, now)];
        return None;
      }
      var h := row.handoff.value;
      var hd := handoffs[h];
      prior := NewestUncertain(h);
      attempts := attempts[i := Closed(row, status, retryable, now)];
      var receipt := ReceiptOf(row, h, hd, status, retryable, now);
      receipts := receipts[row.job := receipt];
      handoffs := handoffs[h := Shown(hd, receipt)];
      if !hd.alert {
        if status.Failed? && prior.Some? {
          handoffs := handoffs[h := Shown(handoffs[h], prior.value)];
        }
        SettleRun(hd.run, row, status, prior.Some?);
      }
    }

    /** The savepoint: an insertion that fails half way leaves the recorded result alone. */
    method TryInsert(row: Attempt, uuid: JobId, now: Instant, due: Instant, request: Request, expiry: Instant)
      modifies this
      ensures var next := InsertTx(old(State()), row, uuid, now, due, AutoKey(row.job), request, row.revision, Some(expiry));
              State() == if next.Ok? then next.value else old(State())
    {
      var savepoint := State();
      var inserted := InsertRetry(row, uuid, now, due, AutoKey(row.job), request, row.revision, Some(expiry));
      if !inserted {
        Restore(savepoint);
      }
    }

    method Finish(job: JobId, token: Token, status: Status, retryable: bool, policy: Option<Policy>,
                  uuid: JobId, now: Instant) returns (ok: bool)
      requires Valid()
      modifies this
      ensures FinishTx(old(State()), job, token, status, retryable, policy, uuid, now) == if ok then Ok(State()) else Err
      ensures !ok ==> State() == old(State())
      ensures ok <==> Effects.Finishable(old(State()), job, token, status)
      ensures ok ==> Effects.ResultRecorded(old(State()), State(), job, status, retryable, policy, uuid, now)
      ensures Valid()
    {
      ghost var before := State();
      hide Effects.Finishable, Effects.ResultRecorded;
      Effects.FinishEffect(before, job, token, status, retryable, policy, uuid, now);
      var i := Locate(job);
      if i == |attempts| || !MayFinish(State(), i, token, status) {
        return false;
      }
      RecordAndSchedule(i, token, status, retryable && status.Failed?, policy, uuid, now);
      ok := true;
      FinishKeeps(before, job, token, status, retryable, policy, uuid, now);
    }

    method RecordAndSchedule(i: nat, token: Token, status: Status, retryable: bool, policy: Option<Policy>,
                             uuid: JobId, now: Instant)
      requires Valid() && i < |attempts| && MayFinish(State(), i, token, status) && Find(attempts, attempts[i].job) == i
      requires retryable ==> status.Failed?
      modifies this
      ensures FinishTx(old(State()), old(attempts)[i].job, token, status, retryable, policy, uuid, now) == Ok(State())
    {
      ghost var before := State();
      var row := attempts[i];
      if row.handoff.None? {
        var _ := RecordResult(i, token, status, retryable, now);
        return;
      }
      var h := row.handoff.value;
      var hd := handoffs[h];
      var first := First(h);
      InvReceipted(before, h);
      var prior := RecordResult(i, token, status, retryable, now);
      ghost var base := State();
      Reschedule(row, h, hd, first, prior, retryable, policy, uuid, now);
      ScheduleIs(before, i, status, retryable, policy, first, prior, now);
      FinishTxIs(before, i, token, status, retryable, policy, first, uuid, now, base, State());
    }

    /** The guards of the automatic retry, and the insertion with its growing delay. */
    method Reschedule(row: Attempt, h: HandoffId, hd: Handoff, first: Option<Attempt>, prior: Option<Receipt>,
                      retryable: bool, policy: Option<Policy>, uuid: JobId, now: Instant)
      modifies this
      ensures if Schedules(row, hd, old(controls), first, prior, retryable, policy, now)
              then var next := AutoTx(old(State()), row, h, first.value, policy.value, uuid, now);
                   State() == if next.Ok? then next.value else old(State())
              else State() == old(State())
    {
      if Schedules(row, hd, controls, first, prior, retryable, policy, now) {
        var expiry := first.value.created + policy.value.expirySeconds;
        TryInsert(row, uuid, now, DueAfter(row.number, policy.value.base, now), Request(h, Automatic, false, 0), expiry);
      }
    }

    // -------------------------------------------------------------- cancel and recover

    method CancelPendingForRun(run: RunId, now: Instant) returns (done: bool)
      requires Valid()
      modifies this
      ensures CancelTx(old(State()), run, now) == if done then Some(State()) else None
      ensures !done ==> State() == old(State())
      ensures done <==> Effects.Cancellable(old(State()), run)
      ensures done ==> Effects.CancelDone(old(State()), State(), run, now)
      ensures Valid()
    {
      ghost var before := State();
      hide Effects.Cancellable, Effects.CancelDone;
      Effects.CancelEffect(before, run, now);
      done := MayCancel(State(), run);
      if done {
        CloseRun(run, now);
        CancelKeeps(before, run, now);
      }
    }

    /** The updates of a permitted cancellation. */
    method CloseRun(run: RunId, now: Instant)
      requires Valid() && MayCancel(State(), run)
      modifies this
      ensures CancelTx(old(State()), run, now) == Some(State())
    {
      ghost var before := State();
      CancelRowsOf(run, now);
      if exists h :: h in handoffs && Business(State(), run, h) {
        var h: HandoffId :| h in handoffs && Business(State(), run, h);
        ghost var mid := State();
        CancelOne(before, run, h, now, mid);
        SurvivingKept(before, run, h, now, mid);
        KeepUncertain(run, h);
        CancelOneIs(before, run, h, now, mid, State());
      } else {
        CancelNoneIs(before, run, now, State());
      }
    }

    /** Closing the run, its queued attempts and its open handoffs. */
    method CancelRowsOf(run: RunId, now: Instant)
      requires run in runs
      modifies this`attempts, this`handoffs, this`runs
      ensures runs == old(runs)[run := old(runs)[run].(status := Cancelled)]
      ensures |attempts| == |old(attempts)|
      ensures forall k :: 0 <= k < |attempts| ==> attempts[k] == CancelOfRun(old(State()), run, old(attempts)[k], now)
      ensures handoffs == HandoffsCancelled(old(State()), run)
    {
      runs := runs[run := runs[run].(status := Cancelled)];
      CloseQueued(run, now);
      handoffs := HandoffsCancelled(State(), run);
    }

    /** The last two updates: an earlier uncertain result outlives the cancellation. */
    method KeepUncertain(run: RunId, h: HandoffId)
      requires h in handoffs && run in runs
      requires Shape(h, Chain(attempts, h)) && UncertainReceipted(State(), h)
      modifies this`handoffs, this`runs
      ensures var u := SurvivingUncertain(old(State()), h);
              && handoffs == (if u.Some? then old(handoffs)[h := Shown(old(handoffs)[h], u.value)] else old(handoffs))
              && runs == (if u.Some? then old(runs)[run := old(runs)[run].(status := NeedsAttention)] else old(runs))
    {
      if !exists a :: a in attempts && OfHandoff(a, h) && a.status.Accepted? {
        var uncertain := NewestUncertain(h);
        if uncertain.Some? {
          handoffs := handoffs[h := Shown(handoffs[h], uncertain.value)];
          runs := runs[run := runs[run].(status := NeedsAttention)];
        }
      }
    }

    /** UPDATE smtp_attempts: the queued attempts of the run's own mail. */
    method CloseQueued(run: RunId, now: Instant)
      modifies this`attempts
      ensures |attempts| == |old(attempts)|
      ensures forall k :: 0 <= k < |attempts| ==> attempts[k] == CancelOfRun(old(State()), run, old(attempts)[k], now)
    {
      var i := 0;
      while i < |attempts|
        invariant 0 <= i <= |attempts| == |old(attempts)|
        invariant forall k :: 0 <= k < i ==> attempts[k] == CancelOfRun(old(State()), run, old(attempts)[k], now)
        invariant forall k :: i <= k < |attempts| ==> attempts[k] == old(attempts)[k]
      {
        if attempts[i].status.Queued? && OfRun(State(), run, attempts[i]) {
          attempts := attempts[i := attempts[i].(status := Failed, phase := Finished, updated := now)];
        }
        i := i + 1;
      }
    }

    /**
     One attempt at most is being sent; its owner is probed by process id. An orphan is always
     closed, by the phase it reached: uncertain once its body may have left, failed before.
     */
    method RecoverInterrupted(alive: set<int>, now: Instant) returns (recovered: Option<JobId>)
      requires Valid()
      modifies this
      ensures recovered.None? ==> State() == old(State())
      ensures recovered.None? <==>
                forall i :: 0 <= i < |old(attempts)| && old(attempts)[i].status.Sending? ==>
                  old(attempts)[i].pid.None? || old(attempts)[i].pid.value in alive
      ensures recovered.Some? ==>
                exists i :: 0 <= i < |old(attempts)| && old(attempts)[i].job == recovered.value
                  && old(attempts)[i].status.Sending?
                  && old(attempts)[i].pid.Some? && old(attempts)[i].pid.value !in alive
                  && RecoverTx(old(State()), recovered.value, old(attempts)[i].phase, now) == Ok(State())
                  && attempts == old(attempts)[i := old(attempts)[i].(
                       status := if old(attempts)[i].phase.DataStarted? then Uncertain else Failed,
                       phase := Finished, updated := now, retryable := false)]
      ensures recovered.Some? ==> Effects.Recovered(old(State()), State(), alive, recovered.value, now)
      ensures Valid()
    {
      recovered := None;
      var i := 0;
      while i < |attempts|
        invariant 0 <= i <= |attempts|
        invariant State() == old(State())
        invariant forall k :: 0 <= k < i && attempts[k].status.Sending? ==> attempts[k].pid.None? || attempts[k].pid.value in alive
      {
        var row := attempts[i];
        if row.status.Sending? && row.pid.Some? && row.pid.value !in alive {
          Effects.RecoverEffect(State(), alive, i, now);
          FoundAt(attempts, i);
          var status := RecoveredStatus(row.phase);
          var ok := Finish(row.job, row.token.value, status, false, None, 0, now);
          return Some(row.job);
        }
        i := i + 1;
      }
    }
  }
}
