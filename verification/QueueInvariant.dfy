/** Every transaction of the queue keeps `Chains.Inv`, whatever its arguments. */
module QueueInvariant {
  import opened DeliveryTypes
  import opened RetryGuard
  import opened Queue
  import opened Chains

  // ---------------------------------------------------------------- frames

  lemma {:induction false} ChainUnique(rows: seq<Attempt>, h: HandoffId)
    requires UniqueJobs(rows)
    ensures UniqueChain(Chain(rows, h))
  {
    if rows != [] {
      var n := |rows| - 1;
      var init := rows[..n];
      assert UniqueJobs(init) by {
        forall i, j | 0 <= i < j < |init| ensures init[i].job != init[j].job {
          assert rows[i].job != rows[j].job;
        }
      }
      ChainUnique(init, h);
      forall a | a in Chain(init, h) ensures a.job != rows[n].job {
        ChainMembers(init, h, a);
        var i :| 0 <= i < |init| && init[i] == a;
        assert rows[i] == a;
      }
    }
  }

  /** Rows of one handoff never carry a job of another handoff. */
  lemma OtherJobs(rows: seq<Attempt>, i: nat, g: HandoffId, a: Attempt)
    requires UniqueJobs(rows) && i < |rows| && !OfHandoff(rows[i], g) && a in Chain(rows, g)
    ensures a.job != rows[i].job
  {
    ChainMembers(rows, g, a);
    var j :| 0 <= j < |rows| && rows[j] == a;
    assert j != i;
  }

  /** A handoff does not notice changes to receipts of other jobs. */
  lemma ReceiptFrame(h: HandoffId, c: seq<Attempt>, hd: Handoff, receipts: map<JobId, Receipt>, cancelled: bool,
                     job: JobId, rec: Receipt)
    requires HandoffInv(h, c, hd, receipts, cancelled)
    requires forall a :: a in c ==> a.job != job
    ensures HandoffInv(h, c, hd, receipts[job := rec], cancelled)
  {
    if c != [] {
      assert c[|c| - 1] in c;
      LastUncertainIs(c);
      assert Governing(c, receipts[job := rec]) == Governing(c, receipts);
    }
  }

  lemma BusinessFrame(t: Tables, t': Tables)
    requires OneBusiness(t) && t'.handoffs.Keys == t.handoffs.Keys
    requires forall g :: g in t.handoffs ==> t'.handoffs[g].run == t.handoffs[g].run && t'.handoffs[g].alert == t.handoffs[g].alert
    ensures OneBusiness(t')
  {
    assert forall run, g :: Business(t', run, g) ==> Business(t, run, g);
  }

  /** A handoff whose chain, row and control flag are untouched still satisfies its invariant. */
  lemma HandoffFrame(t: Tables, t': Tables, g: HandoffId)
    requires g in t.handoffs && HandoffHolds(t, g)
    requires g in t'.handoffs && t'.handoffs[g] == t.handoffs[g] && t'.receipts == t.receipts
    requires Chain(t'.attempts, g) == Chain(t.attempts, g) && t'.controls == t.controls
    ensures HandoffHolds(t', g)
  {
  }

  /** A step that rewrites one handoff row and leaves the identity of every handoff alone. */
  ghost predicate RewritesOne(t: Tables, t': Tables, h: HandoffId) {
    && h in t.handoffs && h in t'.handoffs
    && t'.handoffs == t.handoffs[h := t'.handoffs[h]]
    && t'.handoffs[h].run == t.handoffs[h].run && t'.handoffs[h].alert == t.handoffs[h].alert
    && t'.controls == t.controls
  }

  lemma OneHandoffStep(t: Tables, t': Tables, h: HandoffId)
    requires Inv(t) && RowInv(t') && RewritesOne(t, t', h) && HandoffHolds(t', h)
    requires forall g :: g in t.handoffs && g != h ==> HandoffHolds(t', g)
    ensures Inv(t')
  {
    BusinessFrame(t, t');
  }

  // ---------------------------------------------------------------- updates of one pending row

  /** The shared skeleton of claim, start_data, record_stage and expedite. */
  lemma TouchKeeps(t: Tables, t': Tables, i: nat, r: Attempt)
    requires Inv(t) && i < |t.attempts|
    requires Pending(t.attempts[i]) && Pending(r) && SameAttempt(t.attempts[i], r) && PhaseFits(r)
    requires r.status.Sending? ==> t.attempts[i].status.Sending? || !SomeSending(t.attempts)
    requires t' == t.(attempts := t.attempts[i := r], requests := t'.requests)
    ensures Inv(t')
  {
    forall g | g in t'.handoffs ensures HandoffHolds(t', g) {
      assert HandoffHolds(t, g);
      if OfHandoff(r, g) {
        PendingIsLast(t.attempts, i, r, g);
        TouchStep(g, Chain(t.attempts, g), r, t.handoffs[g], t.receipts, CancelFlag(t, t.handoffs[g].run));
      } else {
        ChainElsewhere(t.attempts, i, r, g);
        HandoffFrame(t, t', g);
      }
    }
    SameJobs(t.attempts, i, r);
    BusinessFrame(t, t');
  }

  lemma SameJobs(rows: seq<Attempt>, i: nat, r: Attempt)
    requires i < |rows| && r.job == rows[i].job
    ensures forall j :: HasJob(rows[i := r], j) <==> HasJob(rows, j)
    ensures UniqueJobs(rows) ==> UniqueJobs(rows[i := r])
  {
    var rows' := rows[i := r];
    assert forall k :: 0 <= k < |rows| ==> rows'[k].job == rows[k].job;
    forall j ensures HasJob(rows', j) <==> HasJob(rows, j) {
      if HasJob(rows', j) {
        var k :| 0 <= k < |rows'| && rows'[k].job == j;
        assert rows[k].job == j;
      }
      if HasJob(rows, j) {
        var k :| 0 <= k < |rows| && rows[k].job == j;
        assert rows'[k].job == j;
      }
    }
  }

  lemma ClaimKeeps(t: Tables, job: JobId, token: Token, pid: int, includeFuture: bool, now: Instant)
    requires Inv(t) && ClaimTx(t, job, token, pid, includeFuture, now).Some?
    ensures Inv(ClaimTx(t, job, token, pid, includeFuture, now).value)
  {
    var i := Find(t.attempts, job);
    TouchKeeps(t, ClaimTx(t, job, token, pid, includeFuture, now).value, i, Claimed(t.attempts[i], token, pid, now));
  }

  lemma StartDataKeeps(t: Tables, job: JobId, token: Token, approved: bool, now: Instant)
    requires Inv(t) && StartDataTx(t, job, token, approved, now).Ok?
    ensures Inv(StartDataTx(t, job, token, approved, now).value)
  {
    var i := Find(t.attempts, job);
    TouchKeeps(t, StartDataTx(t, job, token, approved, now).value, i, t.attempts[i].(phase := DataStarted, updated := now));
  }

  lemma RecordStageKeeps(t: Tables, job: JobId, token: Token, now: Instant)
    requires Inv(t) && RecordStageTx(t, job, token, now).Ok?
    ensures Inv(RecordStageTx(t, job, token, now).value)
  {
    var i := Find(t.attempts, job);
    TouchKeeps(t, RecordStageTx(t, job, token, now).value, i, t.attempts[i].(updated := now));
  }

  // ---------------------------------------------------------------- insertions

  lemma AppendJobs(rows: seq<Attempt>, a: Attempt)
    requires !HasJob(rows, a.job)
    ensures UniqueJobs(rows) ==> UniqueJobs(rows + [a])
    ensures forall j :: HasJob(rows, j) ==> HasJob(rows + [a], j)
  {
    var rows' := rows + [a];
    assert forall k :: 0 <= k < |rows| ==> rows'[k] == rows[k];
    forall j | HasJob(rows, j) ensures HasJob(rows', j) {
      var k :| 0 <= k < |rows| && rows[k].job == j;
      assert rows'[k].job == j;
    }
  }

  lemma EnqueueKeeps(t: Tables, job: JobId, handoff: Option<HandoffId>, message: Message, revision: int, now: Instant)
    requires Inv(t) && EnqueueTx(t, job, handoff, message, revision, now).Ok?
    ensures Inv(EnqueueTx(t, job, handoff, message, revision, now).value)
  {
    var t' := EnqueueTx(t, job, handoff, message, revision, now).value;
    if Find(t.attempts, job) == |t.attempts| {
      var a := FirstAttempt(job, handoff, message, revision, now);
      AppendJobs(t.attempts, a);
      forall g | g in t'.handoffs ensures HandoffHolds(t', g) {
        assert HandoffHolds(t, g);
        ChainAppend(t.attempts, a, g);
        if OfHandoff(a, g) {
          NoFirst(t, g);
          assert Chain(t'.attempts, g) == [a];
          FirstStep(g, a, t.handoffs[g], t.receipts, CancelFlag(t, t.handoffs[g].run));
        } else {
          HandoffFrame(t, t', g);
        }
      }
      BusinessFrame(t, t');
    }
  }

  /** No attempt number 1 means no attempt at all. */
  lemma NoFirst(t: Tables, g: HandoffId)
    requires g in t.handoffs && HandoffHolds(t, g) && !NumberTaken(t.attempts, g, 1)
    ensures Chain(t.attempts, g) == []
  {
    var c := Chain(t.attempts, g);
    if c != [] {
      ChainMembers(t.attempts, g, c[0]);
    }
  }

  /** The row a follow-up attempt is copied from: the last of its chain, up to its state. */
  ghost predicate Follows(t: Tables, row: Attempt) {
    && row.handoff.Some?
    && var c := Chain(t.attempts, row.handoff.value);
    && c != [] && c[|c| - 1].job == row.job && c[|c| - 1].number == row.number && c[|c| - 1].message == row.message
  }

  lemma InsertKeeps(t: Tables, row: Attempt, job: JobId, now: Instant, due: Instant, key: Key, request: Request,
                    revision: int, expires: Option<Instant>)
    requires Inv(t) && MayInsert(t, row, key, job) && Follows(t, row)
    requires SomeUncertain(t.attempts, row.handoff.value) ==> request.allowUncertain
    ensures Inv(InsertTx(t, row, job, now, due, key, request, revision, expires).value)
  {
    var t' := InsertTx(t, row, job, now, due, key, request, revision, expires).value;
    InsertStep(t, t', row, RetryAttempt(row, job, now, due, key, request, revision, expires));
  }

  /** A queued attempt that continues the chain `row` ends. */
  predicate Continues(row: Attempt, a: Attempt) {
    && a.handoff == row.handoff && a.number == row.number + 1 && a.message == row.message
    && a.parent == Some(row.job) && a.request.Some? && a.status.Queued? && a.phase.Prepared?
  }

  lemma InsertStep(t: Tables, t': Tables, row: Attempt, a: Attempt)
    requires Inv(t) && Follows(t, row) && Continues(row, a) && !HasJob(t.attempts, a.job)
    requires row.handoff.value in t.handoffs
    requires var hd := t.handoffs[row.handoff.value]; !hd.alert && !CancelFlag(t, hd.run)
    requires !SomeOpen(t.attempts, row.handoff.value)
    requires SomeUncertain(t.attempts, row.handoff.value) ==> Acked(a)
    requires t'.attempts == t.attempts + [a] && t'.receipts == t.receipts && t'.controls == t.controls
    requires t'.handoffs == t.handoffs[row.handoff.value := Reopened(t.handoffs[row.handoff.value])]
    ensures Inv(t')
  {
    var h := row.handoff.value;
    AppendJobs(t.attempts, a);
    assert RowInv(t');
    InsertOwn(t, row, a);
    hide RowInv, OneBusiness, Follows, Continues, SomeOpen, SomeUncertain;
    ChainAppend(t.attempts, a, h);
    assert CancelFlag(t', t'.handoffs[h].run) == false;
    forall g | g in t.handoffs && g != h ensures HandoffHolds(t', g) {
      ChainAppend(t.attempts, a, g);
      HandoffFrame(t, t', g);
    }
    OneHandoffStep(t, t', h);
  }

  lemma InsertOwn(t: Tables, row: Attempt, a: Attempt)
    requires Follows(t, row) && row.handoff.value in t.handoffs && HandoffHolds(t, row.handoff.value)
    requires var hd := t.handoffs[row.handoff.value]; !hd.alert && !CancelFlag(t, hd.run)
    requires !SomeOpen(t.attempts, row.handoff.value) && a.job !in t.receipts && Continues(row, a)
    requires SomeUncertain(t.attempts, row.handoff.value) ==> Acked(a)
    ensures var h := row.handoff.value;
            HandoffInv(h, Chain(t.attempts, h) + [a], Reopened(t.handoffs[h]), t.receipts, false)
  {
    var h := row.handoff.value;
    var c := Chain(t.attempts, h);
    AllClosed(t, h);
    forall k | 0 <= k < |c| && !Acked(a) ensures c[k].status.Failed? {
      ChainMembers(t.attempts, h, c[k]);
    }
    AppendStep(h, c, a, t.handoffs[h], t.receipts);
  }

  lemma AllClosed(t: Tables, h: HandoffId)
    requires h in t.handoffs && HandoffHolds(t, h) && !SomeOpen(t.attempts, h)
    ensures forall k :: 0 <= k < |Chain(t.attempts, h)| ==>
              Chain(t.attempts, h)[k].status.Failed? || Chain(t.attempts, h)[k].status.Uncertain?
  {
    var c := Chain(t.attempts, h);
    forall k | 0 <= k < |c| ensures c[k].status.Failed? || c[k].status.Uncertain? {
      ChainMembers(t.attempts, h, c[k]);
      assert !Pending(c[k]) && !c[k].status.Accepted?;
    }
  }

  lemma RetryKeeps(t: Tables, job: JobId, key: Key, request: Request, revision: int, uuid: JobId, now: Instant)
    requires Inv(t) && RetryTx(t, job, key, request, revision, uuid, now).Ok?
    ensures Inv(RetryTx(t, job, key, request, revision, uuid, now).value.0)
  {
    var t' := RetryTx(t, job, key, request, revision, uuid, now).value.0;
    if t' != t {
      var i := Find(t.attempts, job);
      var row := t.attempts[i];
      if row.status.Queued? {
        TouchKeeps(t, t', i, Expedited(row, now));
      } else {
        LatestFollows(t, i);
        InsertKeeps(t, row, uuid, now, now, key, request, revision, None);
        RequestsFrame(InsertTx(t, row, uuid, now, now, key, request, revision, None).value, t');
      }
    }
  }

  lemma RequestsFrame(t: Tables, t': Tables)
    requires Inv(t) && t' == t.(requests := t'.requests)
    ensures Inv(t')
  {
    forall g | g in t'.handoffs ensures HandoffHolds(t', g) {
      HandoffFrame(t, t', g);
    }
    BusinessFrame(t, t');
  }

  /** The row that carries the latest job is the last of its chain. */
  lemma LatestFollows(t: Tables, i: nat)
    requires Inv(t) && i < |t.attempts| && t.attempts[i].handoff.Some?
    requires var c := Chain(t.attempts, t.attempts[i].handoff.value); c != [] && c[|c| - 1].job == t.attempts[i].job
    ensures Follows(t, t.attempts[i])
  {
    var h := t.attempts[i].handoff.value;
    var c := Chain(t.attempts, h);
    ChainMembers(t.attempts, h, c[|c| - 1]);
    var j :| 0 <= j < |t.attempts| && t.attempts[j] == c[|c| - 1];
    assert i == j;
  }

  // ---------------------------------------------------------------- finish

  /** What the plain part of `finish` does, field by field. */
  lemma FinishBaseFields(t: Tables, i: nat, status: Status, retryable: bool, now: Instant)
    requires i < |t.attempts|
    requires t.attempts[i].handoff.Some? ==> t.attempts[i].handoff.value in t.handoffs
    ensures var t' := FinishBase(t, i, status, retryable, now);
            var row := t.attempts[i];
            && t'.attempts == t.attempts[i := Closed(row, status, retryable, now)]
            && t'.controls == t.controls && t'.requests == t.requests
            && (row.handoff.None? ==> t'.receipts == t.receipts && t'.handoffs == t.handoffs)
            && (row.handoff.Some? ==>
                  var h := row.handoff.value;
                  var hd := t.handoffs[h];
                  var rec := ReceiptOf(row, h, hd, status, retryable, now);
                  && t'.receipts == t.receipts[row.job := rec]
                  && t'.handoffs == t.handoffs[h := Shown(hd, if hd.alert then rec
                       else Decided(Chain(t.attempts, h), Closed(row, status, retryable, now), t.receipts, rec))])
  {
  }

  lemma CloseRows(t: Tables, t': Tables, i: nat, r: Attempt)
    requires RowInv(t) && i < |t.attempts| && r.job == t.attempts[i].job && r.handoff == t.attempts[i].handoff
    requires t'.attempts == t.attempts[i := r] && PhaseFits(r) && !r.status.Sending?
    requires t'.handoffs.Keys == t.handoffs.Keys && t'.receipts.Keys <= t.receipts.Keys + {r.job}
    ensures RowInv(t')
  {
    SameJobs(t.attempts, i, r);
    assert HasJob(t.attempts, r.job);
  }

  /** A handoff that `finish` does not act on. */
  lemma CloseElsewhere(t: Tables, t': Tables, i: nat, r: Attempt, g: HandoffId, rec: Receipt)
    requires UniqueJobs(t.attempts) && i < |t.attempts| && r.job == t.attempts[i].job && r.handoff == t.attempts[i].handoff
    requires t'.attempts == t.attempts[i := r] && t'.receipts == t.receipts[r.job := rec] && t'.controls == t.controls
    requires !OfHandoff(r, g) && g in t.handoffs && g in t'.handoffs && t'.handoffs[g] == t.handoffs[g]
    requires HandoffHolds(t, g)
    ensures HandoffHolds(t', g)
  {
    ChainElsewhere(t.attempts, i, r, g);
    forall a | a in Chain(t.attempts, g) ensures a.job != r.job {
      OtherJobs(t.attempts, i, g, a);
    }
    ReceiptFrame(g, Chain(t.attempts, g), t.handoffs[g], t.receipts, CancelFlag(t, t.handoffs[g].run), r.job, rec);
  }

  /** The handoff that `finish` acts on. */
  lemma CloseOwn(t: Tables, t': Tables, i: nat, r: Attempt, h: HandoffId, rec: Receipt)
    requires UniqueJobs(t.attempts) && i < |t.attempts| && OfHandoff(t.attempts[i], h)
    requires h in t.handoffs && HandoffHolds(t, h) && Pending(t.attempts[i])
    requires SameAttempt(t.attempts[i], r) && PhaseFits(r) && (r.status.Failed? || r.status.Uncertain? || r.status.Accepted?)
    requires ReceiptFits(r, h, t.handoffs[h], rec)
    requires t'.attempts == t.attempts[i := r] && t'.receipts == t.receipts[r.job := rec] && t'.controls == t.controls
    requires h in t'.handoffs
    requires t'.handoffs[h] == Shown(t.handoffs[h], if t.handoffs[h].alert then rec
                                 else Decided(Chain(t.attempts, h), r, t.receipts, rec))
    ensures HandoffHolds(t', h)
  {
    var c := Chain(t.attempts, h);
    var hd := t.handoffs[h];
    PendingIsLast(t.attempts, i, r, h);
    ChainUnique(t.attempts, h);
    CloseStep(h, c, r, hd, t.receipts, CancelFlag(t, hd.run), rec);
    if hd.alert {
      assert Shape(h, c);
      SingleCertain(c);
    }
    assert CancelFlag(t', hd.run) == CancelFlag(t, hd.run);
  }

  lemma FinishBaseKeeps(t: Tables, i: nat, token: Token, status: Status, retryable: bool, now: Instant)
    requires Inv(t) && i < |t.attempts| && MayFinish(t, i, token, status)
    ensures Inv(FinishBase(t, i, status, retryable, now))
  {
    var row := t.attempts[i];
    FinishBaseFields(t, i, status, retryable, now);
    var r := Closed(row, status, retryable, now);
    if row.handoff.None? {
      CloseUnbound(t, FinishBase(t, i, status, retryable, now), i, r);
    } else {
      var h := row.handoff.value;
      CloseBound(t, FinishBase(t, i, status, retryable, now), i, r, h,
                 ReceiptOf(row, h, t.handoffs[h], status, retryable, now));
    }
  }

  lemma CloseUnbound(t: Tables, t': Tables, i: nat, r: Attempt)
    requires Inv(t) && i < |t.attempts| && SameAttempt(t.attempts[i], r) && r.handoff.None?
    requires PhaseFits(r) && !r.status.Sending?
    requires t'.attempts == t.attempts[i := r] && t'.receipts == t.receipts && t'.controls == t.controls
    requires t'.handoffs == t.handoffs
    ensures Inv(t')
  {
    CloseRows(t, t', i, r);
    forall g | g in t.handoffs ensures HandoffHolds(t', g) {
      ChainElsewhere(t.attempts, i, r, g);
      HandoffFrame(t, t', g);
    }
    BusinessFrame(t, t');
  }

  lemma CloseBound(t: Tables, t': Tables, i: nat, r: Attempt, h: HandoffId, rec: Receipt)
    requires Inv(t) && i < |t.attempts| && OfHandoff(t.attempts[i], h) && h in t.handoffs
    requires Pending(t.attempts[i]) && SameAttempt(t.attempts[i], r) && PhaseFits(r)
    requires r.status.Failed? || r.status.Uncertain? || r.status.Accepted?
    requires ReceiptFits(r, h, t.handoffs[h], rec)
    requires t'.attempts == t.attempts[i := r] && t'.receipts == t.receipts[r.job := rec] && t'.controls == t.controls
    requires t'.handoffs == t.handoffs[h := Shown(t.handoffs[h], if t.handoffs[h].alert then rec
                                            else Decided(Chain(t.attempts, h), r, t.receipts, rec))]
    ensures Inv(t')
  {
    CloseRows(t, t', i, r);
    CloseOwn(t, t', i, r, h, rec);
    forall g | g in t.handoffs && g != h ensures HandoffHolds(t', g) {
      CloseElsewhere(t, t', i, r, g, rec);
    }
    OneHandoffStep(t, t', h);
  }

  /** A chain of at most one attempt has no uncertain one before a pending last. */
  lemma SingleCertain(c: seq<Attempt>)
    requires |c| == 1 && Pending(c[0])
    ensures LastUncertain(c).None?
  {
    assert c[..0] == [];
  }

  /** After a finish that may be rescheduled, the finished row is still the one to follow. */
  lemma FinishedFollows(t: Tables, i: nat, status: Status, retryable: bool, now: Instant)
    requires Inv(t) && i < |t.attempts| && Pending(t.attempts[i]) && status.Failed?
    requires t.attempts[i].handoff.Some? && t.attempts[i].handoff.value in t.handoffs
    requires PriorUncertain(t, t.attempts[i].handoff.value).None?
    ensures Follows(FinishBase(t, i, status, retryable, now), t.attempts[i])
    ensures !SomeUncertain(FinishBase(t, i, status, retryable, now).attempts, t.attempts[i].handoff.value)
  {
    var h := t.attempts[i].handoff.value;
    var c := Chain(t.attempts, h);
    var r := Closed(t.attempts[i], status, retryable, now);
    assert HandoffHolds(t, h);
    PendingIsLast(t.attempts, i, r, h);
    UncertainHasReceipt(h, c, t.handoffs[h], t.receipts);
    LastUncertainPrefix(c, r);
    LastUncertainIs(WithLast(c, r));
    var rows := t.attempts[i := r];
    forall a | a in rows && OfHandoff(a, h) ensures !a.status.Uncertain? {
      ChainMembers(rows, h, a);
    }
  }

  lemma FinishKeeps(t: Tables, job: JobId, token: Token, status: Status, retryable: bool,
                    policy: Option<Policy>, uuid: JobId, now: Instant)
    requires Inv(t) && FinishTx(t, job, token, status, retryable, policy, uuid, now).Ok?
    ensures Inv(FinishTx(t, job, token, status, retryable, policy, uuid, now).value)
  {
    var i := Find(t.attempts, job);
    var kept := retryable && status.Failed?;
    FinishBaseKeeps(t, i, token, status, kept, now);
    if Reschedules(t, i, status, kept, policy, now) {
      AutoInsertKeeps(t, i, status, policy.value, uuid, now);
    }
  }

  lemma AutoInsertKeeps(t: Tables, i: nat, status: Status, policy: Policy, uuid: JobId, now: Instant)
    requires Inv(t) && i < |t.attempts| && Pending(t.attempts[i])
    requires Reschedules(t, i, status, true, Some(policy), now)
    requires Inv(FinishBase(t, i, status, true, now))
    ensures var next := AutoInsert(t, FinishBase(t, i, status, true, now), i, policy, uuid, now);
            next.Ok? ==> Inv(next.value)
  {
    FinishedFollows(t, i, status, true, now);
    var base := FinishBase(t, i, status, true, now);
    AutoInsertStep(t, base, i, policy, uuid, now, AutoInsert(t, base, i, policy, uuid, now));
  }

  lemma AutoInsertStep(t: Tables, base: Tables, i: nat, policy: Policy, uuid: JobId, now: Instant, next: Result<Tables>)
    requires i < |t.attempts| && t.attempts[i].handoff.Some? && t.attempts[i].number >= 1
    requires Chain(t.attempts, t.attempts[i].handoff.value) != []
    requires Inv(base) && Follows(base, t.attempts[i]) && !SomeUncertain(base.attempts, t.attempts[i].handoff.value)
    requires next == AutoInsert(t, base, i, policy, uuid, now)
    ensures next.Ok? ==> Inv(next.value)
  {
    var row := t.attempts[i];
    var h := row.handoff.value;
    InsertResultKeeps(base, row, uuid, now, DueAfter(row.number, policy.base, now), AutoKey(row.job),
                      Request(h, Automatic, false, 0), row.revision,
                      Some(Chain(t.attempts, h)[0].created + policy.expirySeconds), next);
  }

  lemma InsertResultKeeps(t: Tables, row: Attempt, job: JobId, now: Instant, due: Instant, key: Key, request: Request,
                          revision: int, expires: Option<Instant>, next: Result<Tables>)
    requires Inv(t) && Follows(t, row)
    requires SomeUncertain(t.attempts, row.handoff.value) ==> request.allowUncertain
    requires next == InsertTx(t, row, job, now, due, key, request, revision, expires)
    ensures next.Ok? ==> Inv(next.value)
  {
    if MayInsert(t, row, key, job) {
      InsertKeeps(t, row, job, now, due, key, request, revision, expires);
    }
  }

  lemma RecoverKeeps(t: Tables, job: JobId, seen: Phase, now: Instant)
    requires Inv(t) && RecoverTx(t, job, seen, now).Ok?
    ensures Inv(RecoverTx(t, job, seen, now).value)
  {
    var token := t.attempts[Find(t.attempts, job)].token.value;
    FinishKeeps(t, job, token, RecoveredStatus(seen), false, None, 0, now);
  }

  // ---------------------------------------------------------------- cancel

  /** A chain whose last attempt is not queued is not changed by cancellation. */
  lemma CancelNothing(h: HandoffId, c: seq<Attempt>, now: Instant)
    requires Shape(h, c) && (c == [] || !c[|c| - 1].status.Queued?)
    ensures CancelRows(c, h, now) == c
  {
  }

  lemma CancelLast(h: HandoffId, c: seq<Attempt>, now: Instant)
    requires Shape(h, c) && c != [] && c[|c| - 1].status.Queued?
    ensures CancelRows(c, h, now) == WithLast(c, CancelRow(c[|c| - 1], h, now))
  {
  }

  lemma CancelOther(g: HandoffId, c: seq<Attempt>, h: HandoffId, now: Instant)
    requires Shape(g, c) && g != h
    ensures CancelRows(c, h, now) == c
  {
  }

  lemma NoAccepted(t: Tables, h: HandoffId)
    requires h in t.handoffs && HandoffHolds(t, h)
    requires Idle(Chain(t.attempts, h))
    ensures SurvivingUncertain(t, h) == PriorUncertain(t, h)
  {
    var c := Chain(t.attempts, h);
    forall a | a in t.attempts && OfHandoff(a, h) ensures !a.status.Accepted? {
      ChainMembers(t.attempts, h, a);
      var k :| 0 <= k < |c| && c[k] == a;
    }
  }

  lemma CancelOwn(t: Tables, h: HandoffId, now: Instant, d: seq<Attempt>)
    requires h in t.handoffs && HandoffHolds(t, h) && CancelFlag(t, t.handoffs[h].run)
    requires forall a :: a in Chain(t.attempts, h) ==> !a.status.Sending?
    requires d == CancelRows(Chain(t.attempts, h), h, now)
    ensures HandoffInv(h, d, CancelledHandoff(t.handoffs[h], SurvivingUncertain(t, h)), t.receipts, true)
  {
    var c := Chain(t.attempts, h);
    var hd := t.handoffs[h];
    if c != [] && c[|c| - 1].status.Queued? {
      CancelLast(h, c, now);
      NoAccepted(t, h);
      UncertainHasReceipt(h, c, hd, t.receipts);
      DropStep(h, c, CancelRow(c[|c| - 1], h, now), hd, t.receipts);
    } else {
      CancelNothing(h, c, now);
      if c == [] {
        NoAccepted(t, h);
      } else {
        assert c[|c| - 1] in c;
        ShownAgain(t, h);
      }
    }
  }

  /** Cancelling with nothing queued rewrites a handoff with what it already shows. */
  lemma ShownAgain(t: Tables, h: HandoffId)
    requires h in t.handoffs && HandoffHolds(t, h)
    requires var c := Chain(t.attempts, h); c != [] && !Pending(c[|c| - 1])
    ensures CancelledHandoff(t.handoffs[h], SurvivingUncertain(t, h)) == t.handoffs[h]
  {
    var c := Chain(t.attempts, h);
    var last := c[|c| - 1];
    if last.status.Accepted? {
      ChainMembers(t.attempts, h, last);
      assert last in c;
      var r := t.receipts[last.job];
      assert t.handoffs[h].status == HandoffStatusOf(r.status);
    } else {
      forall a | a in t.attempts && OfHandoff(a, h) ensures !a.status.Accepted? {
        ChainMembers(t.attempts, h, a);
        var k :| 0 <= k < |c| && c[k] == a;
      }
    }
  }

  lemma CancelKeeps(t: Tables, run: RunId, now: Instant)
    requires Inv(t) && CancelTx(t, run, now).Some?
    ensures Inv(CancelTx(t, run, now).value)
  {
    var t' := CancelTx(t, run, now).value;
    if exists h :: Business(t, run, h) {
      var h :| Business(t, run, h) && t' == Cancelling(t, run, h, now, t'.runs);
      CancelHandoffs(t, run, h, now, t'.runs);
    } else {
      forall g | g in t'.handoffs ensures HandoffHolds(t', g) {
        HandoffFrame(t, t', g);
      }
      BusinessFrame(t, t');
    }
  }

  function Cancelling(t: Tables, run: RunId, h: HandoffId, now: Instant, runs: map<RunId, Run>): Tables
    requires Business(t, run, h)
  {
    t.(attempts := CancelRows(t.attempts, h, now),
       handoffs := t.handoffs[h := CancelledHandoff(t.handoffs[h], SurvivingUncertain(t, h))],
       runs := runs)
  }

  lemma CancelHandoffs(t: Tables, run: RunId, h: HandoffId, now: Instant, runs: map<RunId, Run>)
    requires Inv(t) && Business(t, run, h) && !RunSending(t, run) && CancelFlag(t, run)
    ensures Inv(Cancelling(t, run, h, now, runs))
  {
    forall a | a in Chain(t.attempts, h) ensures !a.status.Sending? {
      ChainMembers(t.attempts, h, a);
    }
    CancelStep(t, Cancelling(t, run, h, now, runs), h, now);
  }

  lemma CancelRowInv(t: Tables, t': Tables, h: HandoffId, now: Instant)
    requires RowInv(t)
    requires t'.attempts == CancelRows(t.attempts, h, now) && t'.receipts == t.receipts
    requires t'.handoffs.Keys == t.handoffs.Keys
    ensures RowInv(t')
  {
    CancelJobs(t.attempts, h, now);
  }

  lemma CancelElsewhere(t: Tables, t': Tables, h: HandoffId, now: Instant, g: HandoffId)
    requires g in t.handoffs && HandoffHolds(t, g) && g != h
    requires t'.attempts == CancelRows(t.attempts, h, now) && t'.receipts == t.receipts && t'.controls == t.controls
    requires g in t'.handoffs && t'.handoffs[g] == t.handoffs[g]
    ensures HandoffHolds(t', g)
  {
    ChainCancelled(t.attempts, h, g, now);
    CancelOther(g, Chain(t.attempts, g), h, now);
    HandoffFrame(t, t', g);
  }

  lemma CancelHere(t: Tables, t': Tables, h: HandoffId, now: Instant)
    requires h in t.handoffs && HandoffHolds(t, h) && CancelFlag(t, t.handoffs[h].run)
    requires forall a :: a in Chain(t.attempts, h) ==> !a.status.Sending?
    requires t'.attempts == CancelRows(t.attempts, h, now) && t'.receipts == t.receipts && t'.controls == t.controls
    requires h in t'.handoffs && t'.handoffs[h] == CancelledHandoff(t.handoffs[h], SurvivingUncertain(t, h))
    ensures HandoffHolds(t', h)
  {
    ChainCancelled(t.attempts, h, h, now);
    CancelOwn(t, h, now, Chain(t'.attempts, h));
    assert t'.handoffs[h].run == t.handoffs[h].run;
  }

  lemma CancelStep(t: Tables, t': Tables, h: HandoffId, now: Instant)
    requires Inv(t) && h in t.handoffs && CancelFlag(t, t.handoffs[h].run)
    requires forall a :: a in Chain(t.attempts, h) ==> !a.status.Sending?
    requires t'.attempts == CancelRows(t.attempts, h, now) && t'.receipts == t.receipts && t'.controls == t.controls
    requires t'.handoffs == t.handoffs[h := CancelledHandoff(t.handoffs[h], SurvivingUncertain(t, h))]
    ensures Inv(t')
  {
    hide RowInv, OneBusiness, HandoffHolds, CancelRows, SurvivingUncertain, Chain;
    CancelRowInv(t, t', h, now);
    CancelHere(t, t', h, now);
    forall g | g in t.handoffs && g != h ensures HandoffHolds(t', g) {
      CancelElsewhere(t, t', h, now, g);
    }
    OneHandoffStep(t, t', h);
  }

  lemma CancelJobs(rows: seq<Attempt>, h: HandoffId, now: Instant)
    ensures forall j :: HasJob(rows, j) ==> HasJob(CancelRows(rows, h, now), j)
    ensures UniqueJobs(rows) ==> UniqueJobs(CancelRows(rows, h, now))
  {
    var rows' := CancelRows(rows, h, now);
    assert forall k :: 0 <= k < |rows| ==> rows'[k].job == rows[k].job;
    forall j | HasJob(rows, j) ensures HasJob(rows', j) {
      var k :| 0 <= k < |rows| && rows[k].job == j;
      assert rows'[k].job == j;
    }
  }
}
