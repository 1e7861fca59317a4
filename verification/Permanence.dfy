/** What is never rewritten: closed attempts, receipts, and the identity of every attempt. */
module Permanence {
  import opened DeliveryTypes
  import opened RetryGuard
  import opened Queue
  import opened Chains
  import opened QueueInvariant
  import opened Transport
  import opened World
  import opened WorldInvariant
  import opened WireInvariant
  import opened Safety

  /** An attempt may only move forward, and not at all once it is closed. */
  predicate Advances(a: Attempt, b: Attempt) {
    && SameAttempt(a, b) && a.revision == b.revision && a.created == b.created && a.expires == b.expires && a.key == b.key
    && (Terminal(a) ==> b == a)
  }

  ghost predicate RowsAdvance(rows: seq<Attempt>, rows': seq<Attempt>) {
    |rows| <= |rows'| && forall i :: 0 <= i < |rows| ==> Advances(rows[i], rows'[i])
  }

  ghost predicate Preserves(t: Tables, t': Tables) {
    && RowsAdvance(t.attempts, t'.attempts)
    && (forall j :: j in t.receipts ==> j in t'.receipts && t'.receipts[j] == t.receipts[j])
    && (forall key :: key in t.requests ==> key in t'.requests && t'.requests[key] == t.requests[key])
  }

  lemma PreservesTrans(a: Tables, b: Tables, c: Tables)
    requires Preserves(a, b) && Preserves(b, c)
    ensures Preserves(a, c)
  {
    forall i | 0 <= i < |a.attempts| ensures Advances(a.attempts[i], c.attempts[i]) {
      assert Advances(a.attempts[i], b.attempts[i]) && Advances(b.attempts[i], c.attempts[i]);
    }
  }

  lemma FinishPreserves(t: Tables, job: JobId, token: Token, status: Status, retryable: bool,
                        policy: Option<Policy>, uuid: JobId, now: Instant)
    requires FinishTx(t, job, token, status, retryable, policy, uuid, now).Ok?
    ensures Preserves(t, FinishTx(t, job, token, status, retryable, policy, uuid, now).value)
  {
    var i := Find(t.attempts, job);
    var kept := retryable && status.Failed?;
    FinishBaseFields(t, i, status, kept, now);
    var base := FinishBase(t, i, status, kept, now);
    assert Preserves(t, base);
    if Reschedules(t, i, status, kept, policy, now) {
      AutoPreserves(t, base, i, policy.value, uuid, now, AutoInsert(t, base, i, policy.value, uuid, now));
    }
  }

  lemma AutoPreserves(t: Tables, base: Tables, i: nat, policy: Policy, uuid: JobId, now: Instant, next: Result<Tables>)
    requires i < |t.attempts| && t.attempts[i].handoff.Some? && t.attempts[i].number >= 1
    requires Chain(t.attempts, t.attempts[i].handoff.value) != []
    requires next == AutoInsert(t, base, i, policy, uuid, now) && Preserves(t, base)
    ensures next.Ok? ==> Preserves(t, next.value)
  {
    if next.Ok? {
      assert Preserves(base, next.value);
      PreservesTrans(t, base, next.value);
    }
  }

  /** One pending row moves and nothing recorded is touched. */
  lemma MovePreserves(t: Tables, t': Tables, i: nat)
    requires i < |t.attempts| && |t'.attempts| == |t.attempts|
    requires t'.attempts == t.attempts[i := t'.attempts[i]] && Advances(t.attempts[i], t'.attempts[i])
    requires t'.receipts == t.receipts
    requires forall key :: key in t.requests ==> key in t'.requests && t'.requests[key] == t.requests[key]
    ensures Preserves(t, t')
  {
  }

  lemma AppendPreserves(t: Tables, t': Tables)
    requires |t.attempts| < |t'.attempts| && t'.attempts[..|t.attempts|] == t.attempts && t'.receipts == t.receipts
    requires forall key :: key in t.requests ==> key in t'.requests && t'.requests[key] == t.requests[key]
    ensures Preserves(t, t')
  {
    assert forall i :: 0 <= i < |t.attempts| ==> t'.attempts[i] == t'.attempts[..|t.attempts|][i];
  }

  lemma EnqueuePreserves(w: World, job: JobId, handoff: Option<HandoffId>, message: Message, revision: int)
    ensures Preserves(w.t, NextEnqueue(w, job, handoff, message, revision).t)
  {
    if EnqueueTx(w.t, job, handoff, message, revision, w.now).Ok? && Find(w.t.attempts, job) == |w.t.attempts| {
      AppendPreserves(w.t, NextEnqueue(w, job, handoff, message, revision).t);
    }
  }

  lemma ClaimPreserves(w: World, job: JobId, token: Token, pid: int, recipients: nat, purpose: Purpose)
    ensures Preserves(w.t, NextClaim(w, job, token, pid, recipients, purpose).t)
  {
    if ClaimTx(w.t, job, token, pid, purpose.Retire?, w.now).Some? {
      MovePreserves(w.t, NextClaim(w, job, token, pid, recipients, purpose).t, Find(w.t.attempts, job));
    }
  }

  lemma StagePreserves(w: World)
    ensures Preserves(w.t, NextRecordStage(w).t)
  {
  }

  lemma ExchangePreserves(w: World, p: Holder, stage: Stage, r: Response, flag: bool)
    ensures Preserves(w.t, NextExchange(w, p, stage, r, flag).t)
  {
    if stage.Authorize? && r.Returned? && StartDataTx(w.t, p.job, p.token, flag, w.now).Ok? {
      MovePreserves(w.t, NextExchange(w, p, stage, r, flag).t, Find(w.t.attempts, p.job));
    }
  }

  lemma ReportPreserves(w: World, p: Holder, o: Outcome, uuid: JobId)
    ensures Preserves(w.t, NextReport(w, p, o, uuid).t)
  {
    if FinishTx(w.t, p.job, p.token, o.status, o.retryable, Some(w.policy), uuid, w.now).Ok? {
      FinishPreserves(w.t, p.job, p.token, o.status, o.retryable, Some(w.policy), uuid, w.now);
    }
  }

  lemma OwnerPreserves(w: World, e: Event)
    requires e.DoExchange? || e.DoReport? || e.ReportFails?
    ensures Preserves(w.t, NextOwner(w, e).t)
  {
    if w.holder.Some? {
      var p := w.holder.value;
      match e
      case DoExchange(r, flag) =>
        if p.pc.Exchanging? {
          ExchangePreserves(w, p, p.pc.stage, r, flag);
        }
      case DoReport(uuid) =>
        if p.pc.Reporting? {
          ReportPreserves(w, p, p.pc.outcome, uuid);
        }
      case ReportFails(_) =>
    }
  }

  lemma RecoverPreserves(w: World, job: JobId)
    ensures Preserves(w.t, NextRecover(w, job).t)
  {
    var i := Find(w.t.attempts, job);
    if w.holder.None? && i < |w.t.attempts| && RecoverTx(w.t, job, w.t.attempts[i].phase, w.now).Ok? {
      FinishPreserves(w.t, job, w.t.attempts[i].token.value, RecoveredStatus(w.t.attempts[i].phase), false, None, 0, w.now);
    }
  }

  lemma RetryPreserves(w: World, job: JobId, key: Key, request: Request, revision: int, uuid: JobId)
    ensures Preserves(w.t, NextRetry(w, job, key, request, revision, uuid).t)
  {
    var t' := NextRetry(w, job, key, request, revision, uuid).t;
    if t' != w.t {
      var i := Find(w.t.attempts, job);
      if w.t.attempts[i].status.Queued? {
        MovePreserves(w.t, t', i);
      } else {
        AppendPreserves(w.t, t');
      }
    }
  }

  lemma CancelPreserves(w: World, run: RunId)
    ensures Preserves(w.t, NextCancel(w, run).t)
  {
  }

  lemma StepPreserves(w: World, e: Event)
    ensures Preserves(w.t, Next(w, e).t)
  {
    match e
    case DoRetry(job, key, request, revision, uuid) => RetryPreserves(w, job, key, request, revision, uuid);
    case DoExchange(_, _) => OwnerPreserves(w, e);
    case DoReport(_) => OwnerPreserves(w, e);
    case ReportFails(_) => OwnerPreserves(w, e);
    case DoRecover(job) => RecoverPreserves(w, job);
    case DoCancel(run) => CancelPreserves(w, run);
    case DoEnqueue(job, handoff, message, revision) => EnqueuePreserves(w, job, handoff, message, revision);
    case DoClaim(job, token, pid, n, purpose) => ClaimPreserves(w, job, token, pid, n, purpose);
    case DoRecordStage => StagePreserves(w);
    case _ =>
  }

  /** Nothing that any later run does changes a closed attempt, a receipt or a recorded request. */
  lemma {:induction false} EvidenceIsPermanent(w: World, events: seq<Event>)
    ensures Preserves(w.t, Reached(w, events).t)
    decreases |events|
  {
    if events != [] {
      var n := |events| - 1;
      EvidenceIsPermanent(w, events[..n]);
      StepPreserves(Reached(w, events[..n]), events[n]);
      PreservesTrans(w.t, Reached(w, events[..n]).t, Reached(w, events).t);
    }
  }

  // ---------------------------------------------------------------- finish is all or nothing

  /** A follow-up complete in every table, made from the given terminal result. */
  ghost predicate CompleteRetry(base: Tables, row: Attempt, t': Tables) {
    && row.handoff.Some? && row.handoff.value in base.handoffs
    && var h := row.handoff.value;
    && var run := base.handoffs[h].run;
    && run in base.runs
    && |t'.attempts| == |base.attempts| + 1
    && var a := t'.attempts[|base.attempts|];
    && t'.attempts == base.attempts + [a]
    && Continues(row, a) && a.request.value.mode.Automatic? && a.key == Some(AutoKey(row.job))
    && a.due.Some? && a.expires.Some? && a.due.value <= a.expires.value
    && t' == base.(attempts := t'.attempts,
                   handoffs := base.handoffs[h := Reopened(base.handoffs[h])],
                   runs := base.runs[run := base.runs[run].(status := AwaitingReceipt)])
  }

  /**
   After `finish` the tables hold the terminal result with its receipt and nothing else, or
   that result followed by one complete retry; never a result without its receipt, never a
   partly inserted retry.
   */
  lemma FinishAllOrNothing(t: Tables, job: JobId, token: Token, status: Status, retryable: bool,
                           policy: Option<Policy>, uuid: JobId, now: Instant, t': Tables)
    requires FinishTx(t, job, token, status, retryable, policy, uuid, now) == Ok(t')
    ensures var i := Find(t.attempts, job);
            && i < |t.attempts| && MayFinish(t, i, token, status)
            && var row := t.attempts[i];
            && var base := FinishBase(t, i, status, retryable && status.Failed?, now);
            && base.attempts == t.attempts[i := Closed(row, status, retryable && status.Failed?, now)]
            && (row.handoff.Some? ==> row.job in base.receipts && base.receipts[row.job].status == status)
            && (t' == base || CompleteRetry(base, row, t'))
  {
    var i := Find(t.attempts, job);
    var kept := retryable && status.Failed?;
    var base := FinishBase(t, i, status, kept, now);
    FinishBaseFields(t, i, status, kept, now);
    if Reschedules(t, i, status, kept, policy, now) && AutoInsert(t, base, i, policy.value, uuid, now).Ok? {
      RetryIsComplete(t, base, i, status, policy.value, uuid, now, t');
    }
  }

  lemma RetryIsComplete(t: Tables, base: Tables, i: nat, status: Status, policy: Policy, uuid: JobId, now: Instant, t': Tables)
    requires i < |t.attempts| && Reschedules(t, i, status, true, Some(policy), now)
    requires AutoInsert(t, base, i, policy, uuid, now) == Ok(t')
    ensures CompleteRetry(base, t.attempts[i], t')
  {
  }

  // ---------------------------------------------------------------- recovery from a stale read

  /**
   `recover_interrupted` reads the phase first and probes the owner afterwards. Recording the
   result is right exactly when the phase it read is still the phase of the row: an owner that
   crossed the boundary between the read and its death is recorded as a definite failure.
   */
  lemma StaleRecovery(t: Tables, job: JobId, seen: Phase, now: Instant)
    requires Inv(t) && Find(t.attempts, job) < |t.attempts|
    requires var row := t.attempts[Find(t.attempts, job)]; row.status.Sending? && !seen.Finished?
    ensures RecoverTx(t, job, seen, now).Ok?
    ensures var i := Find(t.attempts, job);
            && (RecoverTx(t, job, seen, now).value.attempts[i].status.Uncertain? <==> seen.DataStarted?)
            && (RecoverTx(t, job, seen, now) == RecoverTx(t, job, t.attempts[i].phase, now) <==> seen == t.attempts[i].phase)
  {
    var i := Find(t.attempts, job);
    var row := t.attempts[i];
    if row.handoff.Some? {
      var h := row.handoff.value;
      assert HandoffHolds(t, h);
      PendingIsLast(t.attempts, i, row, h);
      UncertainHasReceipt(h, Chain(t.attempts, h), t.handoffs[h], t.receipts);
    }
    FinishBaseFields(t, i, RecoveredStatus(seen), false, now);
    FinishBaseFields(t, i, RecoveredStatus(row.phase), false, now);
    RecoverIs(t, job, seen, now);
    RecoverIs(t, job, row.phase, now);
  }

  lemma RecoverIs(t: Tables, job: JobId, seen: Phase, now: Instant)
    requires var i := Find(t.attempts, job);
             && i < |t.attempts| && t.attempts[i].status.Sending? && t.attempts[i].token.Some?
             && MayFinish(t, i, t.attempts[i].token.value, RecoveredStatus(seen))
    ensures RecoverTx(t, job, seen, now) == Ok(FinishBase(t, Find(t.attempts, job), RecoveredStatus(seen), false, now))
  {
  }
}
