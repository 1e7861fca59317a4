/** Every event keeps the invariant of the world. */
module WorldInvariant {
  import opened DeliveryTypes
  import opened RetryGuard
  import opened Queue
  import opened Chains
  import opened QueueInvariant
  import opened Transport
  import opened World

  // ---------------------------------------------------------------- the tables

  lemma AddHandoffKeeps(w: World, h: HandoffId, hd: Handoff)
    requires Inv(w.t)
    ensures Inv(NextAddHandoff(w, h, hd).t)
  {
    var t, t' := w.t, NextAddHandoff(w, h, hd).t;
    if t' != t {
      NoRows(t, h);
      forall g | g in t'.handoffs ensures HandoffHolds(t', g) {
        if g != h {
          HandoffFrame(t, t', g);
        } else {
          assert Shape(h, []);
        }
      }
      assert forall run, g :: Business(t', run, g) && g != h ==> Business(t, run, g);
    }
  }

  /** Nothing is queued for a handoff that does not exist. */
  lemma NoRows(t: Tables, h: HandoffId)
    requires RowsFit(t) && h !in t.handoffs
    ensures Chain(t.attempts, h) == []
  {
    var c := Chain(t.attempts, h);
    if c != [] {
      ChainMembers(t.attempts, h, c[0]);
      assert false;
    }
  }

  lemma MoveHandoffKeeps(w: World, h: HandoffId, status: HandoffStatus)
    requires Inv(w.t)
    ensures Inv(NextMoveHandoff(w, h, status).t)
  {
    var t, t' := w.t, NextMoveHandoff(w, h, status).t;
    if t' != t {
      MoveOwn(t, t', h);
      forall g | g in t.handoffs && g != h ensures HandoffHolds(t', g) {
        HandoffFrame(t, t', g);
      }
      OneHandoffStep(t, t', h);
    }
  }

  lemma MoveOwn(t: Tables, t': Tables, h: HandoffId)
    requires h in t.handoffs && h in t'.handoffs && HandoffHolds(t, h)
    requires t.handoffs[h].status.PreparedH? || t.handoffs[h].status.PublishedH?
    requires t'.handoffs[h].status.PublishedH? || t'.handoffs[h].status.FailedH?
    requires t'.handoffs[h] == t.handoffs[h].(status := t'.handoffs[h].status)
    requires t'.attempts == t.attempts && t'.receipts == t.receipts && t'.controls == t.controls
    ensures HandoffHolds(t', h)
  {
    var c := Chain(t.attempts, h);
    assert Idle(c);
  }

  lemma ControlsKeep(w: World, run: RunId, cancel: bool, dry: bool)
    requires Inv(w.t)
    ensures Inv(NextSetControls(w, run, cancel, dry).t)
  {
    var t, t' := w.t, NextSetControls(w, run, cancel, dry).t;
    forall g | g in t'.handoffs ensures HandoffHolds(t', g) {
      assert HandoffHolds(t, g);
      assert CancelFlag(t, t.handoffs[g].run) ==> CancelFlag(t', t.handoffs[g].run);
    }
    BusinessFrame(t, t');
  }

  lemma RunsFrame(t: Tables, runs: map<RunId, DeliveryTypes.Run>)
    requires Inv(t)
    ensures Inv(t.(runs := runs))
  {
    var t' := t.(runs := runs);
    forall g | g in t'.handoffs ensures HandoffHolds(t', g) {
      HandoffFrame(t, t', g);
    }
    BusinessFrame(t, t');
  }

  lemma OwnerTables(w: World, e: Event)
    requires Inv(w.t) && (e.DoExchange? || e.DoReport? || e.ReportFails?)
    ensures Inv(NextOwner(w, e).t)
  {
    if w.holder.Some? {
      var p := w.holder.value;
      match e
      case DoExchange(r, flag) =>
        if p.pc == Exchanging(Authorize) && r.Returned? && StartDataTx(w.t, p.job, p.token, flag, w.now).Ok? {
          StartDataKeeps(w.t, p.job, p.token, flag, w.now);
        }
      case DoReport(uuid) =>
        if p.pc.Reporting? {
          ReportTables(w, p, p.pc.outcome, uuid);
        }
      case ReportFails(_) =>
    }
  }

  lemma ReportTables(w: World, p: Holder, o: Outcome, uuid: JobId)
    requires Inv(w.t)
    ensures Inv(NextReport(w, p, o, uuid).t)
  {
    if FinishTx(w.t, p.job, p.token, o.status, o.retryable, Some(w.policy), uuid, w.now).Ok? {
      FinishKeeps(w.t, p.job, p.token, o.status, o.retryable, Some(w.policy), uuid, w.now);
    }
  }

  lemma RecoverTables(w: World, job: JobId)
    requires Inv(w.t)
    ensures Inv(NextRecover(w, job).t)
  {
    var i := Find(w.t.attempts, job);
    if w.holder.None? && i < |w.t.attempts| && RecoverTx(w.t, job, w.t.attempts[i].phase, w.now).Ok? {
      RecoverKeeps(w.t, job, w.t.attempts[i].phase, w.now);
    }
  }

  lemma RetryTables(w: World, job: JobId, key: Key, request: Request, revision: int, uuid: JobId)
    requires Inv(w.t)
    ensures Inv(NextRetry(w, job, key, request, revision, uuid).t)
  {
    if RetryTx(w.t, job, key, request, revision, uuid, w.now).Ok? {
      RetryKeeps(w.t, job, key, request, revision, uuid, w.now);
    }
  }

  lemma CancelTables(w: World, run: RunId)
    requires Inv(w.t)
    ensures Inv(NextCancel(w, run).t)
  {
    if CancelTx(w.t, run, w.now).Some? {
      CancelKeeps(w.t, run, w.now);
    }
  }

  lemma EnqueueTables(w: World, job: JobId, handoff: Option<HandoffId>, message: Message, revision: int)
    requires Inv(w.t)
    ensures Inv(NextEnqueue(w, job, handoff, message, revision).t)
  {
    if EnqueueTx(w.t, job, handoff, message, revision, w.now).Ok? {
      EnqueueKeeps(w.t, job, handoff, message, revision, w.now);
    }
  }

  lemma ClaimTables(w: World, job: JobId, token: Token, pid: int, recipients: nat, purpose: Purpose)
    requires Inv(w.t)
    ensures Inv(NextClaim(w, job, token, pid, recipients, purpose).t)
  {
    if ClaimTx(w.t, job, token, pid, purpose.Retire?, w.now).Some? {
      ClaimKeeps(w.t, job, token, pid, purpose.Retire?, w.now);
    }
  }

  lemma StageTables(w: World)
    requires Inv(w.t)
    ensures Inv(NextRecordStage(w).t)
  {
    if w.holder.Some? && RecordStageTx(w.t, w.holder.value.job, w.holder.value.token, w.now).Ok? {
      RecordStageKeeps(w.t, w.holder.value.job, w.holder.value.token, w.now);
    }
  }

  /** The chain invariant is kept by every event. */
  lemma TablesKeep(w: World, e: Event)
    requires Inv(w.t)
    ensures Inv(Next(w, e).t)
  {
    match e
    case Tick(_) =>
    case SetRun(run, row) => RunsFrame(w.t, w.t.runs[run := row]);
    case SetControls(run, cancel, dry) => ControlsKeep(w, run, cancel, dry);
    case AddHandoff(h, hd) => AddHandoffKeeps(w, h, hd);
    case MoveHandoff(h, status) => MoveHandoffKeeps(w, h, status);
    case DoEnqueue(job, handoff, message, revision) =>
      EnqueueTables(w, job, handoff, message, revision);
    case DoRetry(job, key, request, revision, uuid) => RetryTables(w, job, key, request, revision, uuid);
    case DoClaim(job, token, pid, n, purpose) => ClaimTables(w, job, token, pid, n, purpose);
    case DoExchange(_, _) => OwnerTables(w, e);
    case DoRecordStage => StageTables(w);
    case ServerTakes(_) =>
    case DoReport(_) => OwnerTables(w, e);
    case ReportFails(_) => OwnerTables(w, e);
    case Crash =>
    case DoRecover(job) => RecoverTables(w, job);
    case DoCancel(run) => CancelTables(w, run);
  }
}
