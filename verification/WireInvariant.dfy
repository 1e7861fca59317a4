/**
 The record and the wire never disagree: a failed attempt's body was never sent or was
 refused, a taken body is on record as sending, accepted or uncertain.
 */
module WireInvariant {
  import opened DeliveryTypes
  import opened Queue
  import opened Chains
  import opened Transport
  import opened World

  // ---------------------------------------------------------------- how rows may change

  lemma FindAgain(rows: seq<Attempt>, rows': seq<Attempt>, job: JobId)
    requires Find(rows, job) < |rows| <= |rows'|
    requires forall k :: 0 <= k < |rows| ==> rows'[k].job == rows[k].job
    ensures Find(rows', job) == Find(rows, job)
  {
    assert rows'[Find(rows, job)].job == job;
  }

  /** The rows `finish` leaves: the closed row, and perhaps one queued follow-up. */
  ghost predicate Finished(rows: seq<Attempt>, rows': seq<Attempt>, i: nat, r: Attempt)
    requires i < |rows|
  {
    || rows' == rows[i := r]
    || (|rows'| == |rows| + 1 && rows' == rows[i := r] + [rows'[|rows|]]
        && rows'[|rows|].status.Queued? && !HasJob(rows[i := r], rows'[|rows|].job))
  }

  lemma FinishShape(t: Tables, job: JobId, token: Token, status: Status, retryable: bool,
                    policy: Option<Policy>, uuid: JobId, now: Instant)
    requires FinishTx(t, job, token, status, retryable, policy, uuid, now).Ok?
    ensures var i := Find(t.attempts, job);
            && i < |t.attempts| && MayFinish(t, i, token, status)
            && Finished(t.attempts, FinishTx(t, job, token, status, retryable, policy, uuid, now).value.attempts, i,
                        Closed(t.attempts[i], status, retryable && status.Failed?, now))
  {
    var i := Find(t.attempts, job);
    var kept := retryable && status.Failed?;
    var base := FinishBase(t, i, status, kept, now);
    assert base.attempts == t.attempts[i := Closed(t.attempts[i], status, kept, now)];
    if Reschedules(t, i, status, kept, policy, now) {
      AutoShape(t, base, i, policy.value, uuid, now, AutoInsert(t, base, i, policy.value, uuid, now));
    }
  }

  lemma AutoShape(t: Tables, base: Tables, i: nat, policy: Policy, uuid: JobId, now: Instant, next: Result<Tables>)
    requires i < |t.attempts| && t.attempts[i].handoff.Some? && t.attempts[i].number >= 1
    requires Chain(t.attempts, t.attempts[i].handoff.value) != []
    requires next == AutoInsert(t, base, i, policy, uuid, now)
    ensures next.Ok? ==>
              && |next.value.attempts| == |base.attempts| + 1
              && next.value.attempts[|base.attempts|].status.Queued?
              && next.value.attempts[|base.attempts|].job == uuid
              && next.value.attempts == base.attempts + [next.value.attempts[|base.attempts|]]
              && !HasJob(base.attempts, uuid)
  {
  }

  // ---------------------------------------------------------------- the wire

  lemma WireAppend(w: World, w': World, a: Attempt)
    requires WireInv(w) && w'.t.attempts == w.t.attempts + [a] && w'.wire == w.wire
    requires a.status.Queued? && !HasJob(w.t.attempts, a.job)
    ensures WireInv(w')
  {
    var rows' := w'.t.attempts;
    forall i | 0 <= i < |rows'| ensures WireFits(rows'[i], WireOf(w', rows'[i].job)) {
      if i < |w.t.attempts| {
        assert WireFits(w.t.attempts[i], WireOf(w, w.t.attempts[i].job));
      }
    }
    forall j | j in w'.wire ensures HasJob(rows', j) {
      var k :| 0 <= k < |w.t.attempts| && w.t.attempts[k].job == j;
      assert rows'[k].job == j;
    }
  }

  /** One row moves, together with what the wire says of its job. */
  lemma WireTouch(w: World, w': World, i: nat, r: Attempt)
    requires WireInv(w) && UniqueJobs(w.t.attempts) && i < |w.t.attempts| && r.job == w.t.attempts[i].job
    requires w'.t.attempts == w.t.attempts[i := r]
    requires w'.wire == w.wire || (r.job in w'.wire && w'.wire == w.wire[r.job := w'.wire[r.job]])
    requires WireFits(r, WireOf(w', r.job))
    ensures WireInv(w')
  {
    var rows' := w'.t.attempts;
    forall k | 0 <= k < |rows'| ensures WireFits(rows'[k], WireOf(w', rows'[k].job)) {
      if k != i {
        assert rows'[k].job != r.job;
        assert WireFits(w.t.attempts[k], WireOf(w, w.t.attempts[k].job));
      }
    }
    forall j | j in w'.wire ensures HasJob(rows', j) {
      if j == r.job {
        assert rows'[i].job == j;
      } else {
        var k :| 0 <= k < |w.t.attempts| && w.t.attempts[k].job == j;
        assert rows'[k].job == j;
      }
    }
  }

  lemma WireFinish(w: World, w': World, i: nat, r: Attempt)
    requires WireInv(w) && UniqueJobs(w.t.attempts) && i < |w.t.attempts| && r.job == w.t.attempts[i].job
    requires Finished(w.t.attempts, w'.t.attempts, i, r) && w'.wire == w.wire
    requires WireFits(r, WireOf(w, r.job))
    ensures WireInv(w')
  {
    var mid := w.(t := w.t.(attempts := w.t.attempts[i := r]));
    WireTouch(w, mid, i, r);
    if w'.t.attempts != mid.t.attempts {
      WireAppend(mid, w', w'.t.attempts[|w.t.attempts|]);
    } else {
      assert forall k :: 0 <= k < |mid.t.attempts| ==> WireFits(mid.t.attempts[k], WireOf(mid, mid.t.attempts[k].job));
      assert forall job :: WireOf(w', job) == WireOf(mid, job);
    }
  }

  lemma WireCancel(w: World, w': World, h: HandoffId)
    requires WireInv(w) && w'.t.attempts == CancelRows(w.t.attempts, h, w.now) && w'.wire == w.wire
    ensures WireInv(w')
  {
    var rows' := w'.t.attempts;
    forall k | 0 <= k < |rows'| ensures WireFits(rows'[k], WireOf(w', rows'[k].job)) {
      assert WireFits(w.t.attempts[k], WireOf(w, w.t.attempts[k].job));
    }
    forall j | j in w'.wire ensures HasJob(rows', j) {
      var k :| 0 <= k < |w.t.attempts| && w.t.attempts[k].job == j;
      assert rows'[k].job == j;
    }
  }

  lemma WireSame(w: World, w': World)
    requires WireInv(w) && w'.t.attempts == w.t.attempts && w'.wire == w.wire
    ensures WireInv(w')
  {
    assert forall job :: WireOf(w', job) == WireOf(w, job);
  }

  // ---------------------------------------------------------------- the owner

  /** Nothing the owner relies on has changed. */
  predicate SameForOwner(a: Attempt, b: Attempt) {
    a.status == b.status && a.token == b.token && a.phase == b.phase && a.due == b.due
  }

  /** A body only ever moves from sent to taken behind the owner's back. */
  predicate Progress(x: Wire, y: Wire) {
    x == y || (x.Sent? && y == Taken(x.at))
  }

  lemma HolderFrame(w: World, w': World, p: Holder)
    requires HolderFits(w, p) && w.now <= w'.now && |w.t.attempts| <= |w'.t.attempts|
    requires forall k :: 0 <= k < |w.t.attempts| ==> w'.t.attempts[k].job == w.t.attempts[k].job
    requires var i := Find(w.t.attempts, p.job); SameForOwner(w.t.attempts[i], w'.t.attempts[i])
    requires Progress(WireOf(w, p.job), WireOf(w', p.job))
    ensures HolderFits(w', p)
  {
    FindAgain(w.t.attempts, w'.t.attempts, p.job);
  }

  /** A row somebody else may touch is not the owner's, which is sending. */
  lemma OwnerRow(w: World, p: Holder, i: nat)
    requires HolderFits(w, p) && i < |w.t.attempts| && !w.t.attempts[i].status.Sending?
    ensures i != Find(w.t.attempts, p.job)
  {
  }

  ghost predicate BothInv(w: World) {
    WireInv(w) && HolderInv(w)
  }

  lemma TickBoth(w: World, d: nat)
    requires BothInv(w)
    ensures BothInv(w.(now := w.now + d))
  {
    var w' := w.(now := w.now + d);
    WireSame(w, w');
    if w.holder.Some? {
      HolderFrame(w, w', w.holder.value);
    }
  }

  /** Events that touch neither the attempts nor the wire nor the owner. */
  lemma RestBoth(w: World, w': World)
    requires BothInv(w) && w'.t.attempts == w.t.attempts && w'.wire == w.wire && w'.now == w.now
    requires w'.holder == w.holder || w'.holder.None?
    ensures BothInv(w')
  {
    WireSame(w, w');
    if w'.holder.Some? {
      HolderFrame(w, w', w.holder.value);
    }
  }

  lemma AppendBoth(w: World, w': World, a: Attempt)
    requires BothInv(w) && w'.t.attempts == w.t.attempts + [a] && w'.wire == w.wire && w'.now == w.now
    requires w'.holder == w.holder && a.status.Queued? && !HasJob(w.t.attempts, a.job)
    ensures BothInv(w')
  {
    WireAppend(w, w', a);
    if w'.holder.Some? {
      HolderFrame(w, w', w.holder.value);
    }
  }

  lemma NotFound(rows: seq<Attempt>, job: JobId)
    requires Find(rows, job) == |rows|
    ensures !HasJob(rows, job)
  {
  }

  lemma EnqueueBoth(w: World, job: JobId, handoff: Option<HandoffId>, message: Message, revision: int)
    requires BothInv(w)
    ensures BothInv(NextEnqueue(w, job, handoff, message, revision))
  {
    var w' := NextEnqueue(w, job, handoff, message, revision);
    if w'.t.attempts != w.t.attempts {
      NotFound(w.t.attempts, job);
      AppendBoth(w, w', FirstAttempt(job, handoff, message, revision, w.now));
    } else {
      RestBoth(w, w');
    }
  }

  lemma ExpediteBoth(w: World, w': World, i: nat)
    requires BothInv(w) && UniqueJobs(w.t.attempts) && i < |w.t.attempts| && w.t.attempts[i].status.Queued?
    requires w'.t.attempts == w.t.attempts[i := Expedited(w.t.attempts[i], w.now)] && w'.wire == w.wire && w'.now == w.now
    requires w'.holder == w.holder
    ensures BothInv(w')
  {
    assert WireFits(w.t.attempts[i], WireOf(w, w.t.attempts[i].job));
    WireTouch(w, w', i, Expedited(w.t.attempts[i], w.now));
    if w.holder.Some? {
      OwnerRow(w, w.holder.value, i);
      HolderFrame(w, w', w.holder.value);
    }
  }

  lemma RetryBoth(w: World, job: JobId, key: Key, request: Request, revision: int, uuid: JobId)
    requires BothInv(w) && UniqueJobs(w.t.attempts)
    ensures BothInv(NextRetry(w, job, key, request, revision, uuid))
  {
    var w' := NextRetry(w, job, key, request, revision, uuid);
    if w'.t == w.t {
      RestBoth(w, w');
    } else {
      var i := Find(w.t.attempts, job);
      var row := w.t.attempts[i];
      if row.status.Queued? {
        ExpediteBoth(w, w', i);
      } else {
        AppendBoth(w, w', RetryAttempt(row, uuid, w.now, w.now, key, request, revision, None));
      }
    }
  }

  lemma ClaimBoth(w: World, job: JobId, token: Token, pid: int, recipients: nat, purpose: Purpose)
    requires BothInv(w) && RowInv(w.t)
    ensures BothInv(NextClaim(w, job, token, pid, recipients, purpose))
  {
    var w' := NextClaim(w, job, token, pid, recipients, purpose);
    if ClaimTx(w.t, job, token, pid, purpose.Retire?, w.now).Some? {
      var i := Find(w.t.attempts, job);
      var r := Claimed(w.t.attempts[i], token, pid, w.now);
      assert WireFits(w.t.attempts[i], WireOf(w, job));
      WireTouch(w, w', i, r);
      FindAgain(w.t.attempts, w'.t.attempts, job);
      assert HolderFits(w', w'.holder.value);
    }
  }

  lemma TakesBoth(w: World, job: JobId)
    requires BothInv(w) && UniqueJobs(w.t.attempts)
    ensures BothInv(NextServerTakes(w, job))
  {
    var w' := NextServerTakes(w, job);
    if WireOf(w, job).Sent? {
      var i :| 0 <= i < |w.t.attempts| && w.t.attempts[i].job == job;
      assert WireFits(w.t.attempts[i], WireOf(w, job));
      assert w.t.attempts[i := w.t.attempts[i]] == w.t.attempts;
      WireTouch(w, w', i, w.t.attempts[i]);
      if w.holder.Some? {
        HolderFrame(w, w', w.holder.value);
      }
    }
  }

  lemma StageBoth(w: World)
    requires BothInv(w) && UniqueJobs(w.t.attempts)
    ensures BothInv(NextRecordStage(w))
  {
    var w' := NextRecordStage(w);
    if w.holder.Some? && RecordStageTx(w.t, w.holder.value.job, w.holder.value.token, w.now).Ok? {
      var i := Find(w.t.attempts, w.holder.value.job);
      assert WireFits(w.t.attempts[i], WireOf(w, w.t.attempts[i].job));
      WireTouch(w, w', i, w.t.attempts[i].(updated := w.now));
      HolderFrame(w, w', w.holder.value);
    }
  }

  lemma AuthorizeBoth(w: World, r: Response, approved: bool)
    requires BothInv(w) && UniqueJobs(w.t.attempts) && w.holder.Some? && w.holder.value.pc == Exchanging(Authorize)
    ensures BothInv(NextAuthorize(w, w.holder.value, r, approved))
  {
    var p := w.holder.value;
    var w' := NextAuthorize(w, p, r, approved);
    var i := Find(w.t.attempts, p.job);
    if r.Returned? && StartDataTx(w.t, p.job, p.token, approved, w.now).Ok? {
      WireTouch(w, w', i, w.t.attempts[i].(phase := DataStarted, updated := w.now));
      FindAgain(w.t.attempts, w'.t.attempts, p.job);
    } else {
      WireSame(w, w');
    }
  }

  /** A step of the exchange away from the boundary. */
  lemma ExchangeBoth(w: World, r: Response, flag: bool)
    requires BothInv(w) && UniqueJobs(w.t.attempts) && w.holder.Some? && w.holder.value.pc.Exchanging?
    ensures BothInv(NextExchange(w, w.holder.value, w.holder.value.pc.stage, r, flag))
  {
    var p := w.holder.value;
    var stage := p.pc.stage;
    var w' := NextExchange(w, p, stage, r, flag);
    var i := Find(w.t.attempts, p.job);
    if stage.Authorize? {
      AuthorizeBoth(w, r, flag);
    } else {
      assert WireFits(w.t.attempts[i], WireOf(w, p.job));
      if w'.wire == w.wire {
        WireSame(w, w');
      } else {
        assert w.t.attempts[i := w.t.attempts[i]] == w.t.attempts;
        WireTouch(w, w', i, w.t.attempts[i]);
      }
    }
  }

  lemma ReportBoth(w: World, o: Outcome, uuid: JobId)
    requires BothInv(w) && UniqueJobs(w.t.attempts) && w.holder.Some? && w.holder.value.pc == Reporting(o)
    ensures BothInv(NextReport(w, w.holder.value, o, uuid))
  {
    var p := w.holder.value;
    var w' := NextReport(w, p, o, uuid);
    if FinishTx(w.t, p.job, p.token, o.status, o.retryable, Some(w.policy), uuid, w.now).Ok? {
      FinishShape(w.t, p.job, p.token, o.status, o.retryable, Some(w.policy), uuid, w.now);
      var i := Find(w.t.attempts, p.job);
      assert WireFits(w.t.attempts[i], WireOf(w, p.job));
      WireFinish(w, w', i, Closed(w.t.attempts[i], o.status, o.retryable && o.status.Failed?, w.now));
    }
  }

  lemma RecoverBoth(w: World, job: JobId)
    requires BothInv(w) && UniqueJobs(w.t.attempts)
    ensures BothInv(NextRecover(w, job))
  {
    var w' := NextRecover(w, job);
    var i := Find(w.t.attempts, job);
    if w.holder.None? && i < |w.t.attempts| && RecoverTx(w.t, job, w.t.attempts[i].phase, w.now).Ok? {
      var status := RecoveredStatus(w.t.attempts[i].phase);
      FinishShape(w.t, job, w.t.attempts[i].token.value, status, false, None, 0, w.now);
      assert WireFits(w.t.attempts[i], WireOf(w, job));
      WireFinish(w, w', i, Closed(w.t.attempts[i], status, false, w.now));
    }
  }

  lemma CancelBoth(w: World, run: RunId)
    requires BothInv(w)
    ensures BothInv(NextCancel(w, run))
  {
    var w' := NextCancel(w, run);
    if w'.t.attempts == w.t.attempts {
      RestBoth(w, w');
    } else {
      var h :| w'.t.attempts == CancelRows(w.t.attempts, h, w.now);
      WireCancel(w, w', h);
      if w.holder.Some? {
        HolderFrame(w, w', w.holder.value);
      }
    }
  }

  lemma OwnerBoth(w: World, e: Event)
    requires BothInv(w) && UniqueJobs(w.t.attempts) && (e.DoExchange? || e.DoReport? || e.ReportFails?)
    ensures BothInv(NextOwner(w, e))
  {
    if w.holder.Some? {
      var p := w.holder.value;
      match e
      case DoExchange(r, flag) =>
        if p.pc.Exchanging? {
          ExchangeBoth(w, r, flag);
        }
      case DoReport(uuid) =>
        if p.pc.Reporting? {
          ReportBoth(w, p.pc.outcome, uuid);
        }
      case ReportFails(giveUp) =>
        WireSame(w, NextOwner(w, e));
    }
  }

  /** The wire and owner invariants are kept by every event. */
  lemma WireKeep(w: World, e: Event)
    requires BothInv(w) && RowInv(w.t)
    ensures BothInv(Next(w, e))
  {
    match e
    case Tick(d) => TickBoth(w, d);
    case SetRun(_, _) => RestBoth(w, Next(w, e));
    case SetControls(_, _, _) => RestBoth(w, Next(w, e));
    case AddHandoff(_, _) => RestBoth(w, Next(w, e));
    case MoveHandoff(_, _) => RestBoth(w, Next(w, e));
    case DoEnqueue(job, handoff, message, revision) => EnqueueBoth(w, job, handoff, message, revision);
    case DoRetry(job, key, request, revision, uuid) => RetryBoth(w, job, key, request, revision, uuid);
    case DoClaim(job, token, pid, n, purpose) => ClaimBoth(w, job, token, pid, n, purpose);
    case DoExchange(_, _) => OwnerBoth(w, e);
    case DoRecordStage => StageBoth(w);
    case ServerTakes(job) => TakesBoth(w, job);
    case DoReport(_) => OwnerBoth(w, e);
    case ReportFails(_) => OwnerBoth(w, e);
    case Crash => RestBoth(w, Next(w, e));
    case DoRecover(job) => RecoverBoth(w, job);
    case DoCancel(run) => CancelBoth(w, run);
  }
}
