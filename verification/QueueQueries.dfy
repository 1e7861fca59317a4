/** Why the queue's queries, which go by attempt number, answer for the chain. */
module QueueQueries {
  import opened DeliveryTypes
  import opened RetryGuard
  import opened Queue
  import opened Chains
  import opened QueueInvariant

  /** The row with the greatest (or least) number is the last (or first) of the chain. */
  lemma Extremes(t: Tables, h: HandoffId, r: Option<Attempt>, newest: bool)
    requires Inv(t) && h in t.handoffs
    requires r.Some? ==> r.value in t.attempts && OfHandoff(r.value, h)
    requires forall j :: 0 <= j < |t.attempts| && OfHandoff(t.attempts[j], h) ==>
               r.Some? && if newest then t.attempts[j].number <= r.value.number else t.attempts[j].number >= r.value.number
    ensures var c := Chain(t.attempts, h);
            r == if c == [] then None else if newest then Some(c[|c| - 1]) else Some(c[0])
  {
    var c := Chain(t.attempts, h);
    assert HandoffHolds(t, h);
    if r.Some? {
      ChainMembers(t.attempts, h, r.value);
    }
    if c != [] {
      var e := if newest then c[|c| - 1] else c[0];
      assert e in c;
      ChainMembers(t.attempts, h, e);
      var j :| 0 <= j < |t.attempts| && t.attempts[j] == e;
      var k :| 0 <= k < |c| && c[k] == r.value;
    }
  }

  predicate UncertainRow(a: Attempt, h: HandoffId) {
    OfHandoff(a, h) && a.status.Uncertain?
  }

  lemma {:induction false} LastUncertainAt(c: seq<Attempt>) returns (k: nat)
    requires LastUncertain(c).Some?
    ensures k < |c| && c[k] == LastUncertain(c).value
    ensures forall j :: k < j < |c| ==> !c[j].status.Uncertain?
  {
    if c[|c| - 1].status.Uncertain? {
      k := |c| - 1;
    } else {
      k := LastUncertainAt(c[..|c| - 1]);
    }
  }

  ghost predicate UncertainReceipted(t: Tables, h: HandoffId) {
    forall a :: a in Chain(t.attempts, h) && a.status.Uncertain? ==> a.job in t.receipts
  }

  /** The uncertain row with the greatest number is the last uncertain one of the chain. */
  lemma NewestIsLast(t: Tables, h: HandoffId, best: Option<Attempt>)
    requires Shape(h, Chain(t.attempts, h)) && UncertainReceipted(t, h)
    requires best.Some? ==> best.value in t.attempts && UncertainRow(best.value, h) && best.value.job in t.receipts
    requires forall j :: 0 <= j < |t.attempts| && UncertainRow(t.attempts[j], h) && t.attempts[j].job in t.receipts ==>
               best.Some? && t.attempts[j].number <= best.value.number
    ensures best == LastUncertain(Chain(t.attempts, h))
  {
    var c := Chain(t.attempts, h);
    LastUncertainIs(c);
    if best.Some? {
      ChainMembers(t.attempts, h, best.value);
    }
    if LastUncertain(c).Some? {
      var u := LastUncertainAt(c);
      ChainMembers(t.attempts, h, c[u]);
      var j :| 0 <= j < |t.attempts| && t.attempts[j] == c[u];
      var k :| 0 <= k < |c| && c[k] == best.value;
    }
  }

  lemma InvReceipted(t: Tables, h: HandoffId)
    requires Inv(t) && h in t.handoffs
    ensures Shape(h, Chain(t.attempts, h)) && UncertainReceipted(t, h)
  {
    assert HandoffHolds(t, h);
  }

  // ---------------------------------------------------------------- rescheduling

  /** The guards in front of the automatic insertion, on what the transaction has read. */
  predicate Schedules(row: Attempt, hd: Handoff, controls: map<RunId, Controls>, first: Option<Attempt>,
                      prior: Option<Receipt>, retryable: bool, policy: Option<Policy>, now: Instant)
  {
    && retryable && policy.Some? && policy.value.auto && !hd.alert && prior.None?
    && 1 <= row.number < policy.value.maxAttempts
    && hd.run in controls && !controls[hd.run].cancelRequested
    && first.Some?
    && DueAfter(row.number, policy.value.base, now) <= first.value.created + policy.value.expirySeconds
  }

  lemma ScheduleIs(t: Tables, i: nat, status: Status, retryable: bool, policy: Option<Policy>,
                   first: Option<Attempt>, prior: Option<Receipt>, now: Instant)
    requires i < |t.attempts| && t.attempts[i].handoff.Some? && t.attempts[i].handoff.value in t.handoffs
    requires retryable ==> status.Failed?
    requires var c := Chain(t.attempts, t.attempts[i].handoff.value);
             first == if c == [] then None else Some(c[0])
    requires prior == PriorUncertain(t, t.attempts[i].handoff.value)
    ensures Schedules(t.attempts[i], t.handoffs[t.attempts[i].handoff.value], t.controls, first, prior, retryable, policy, now)
       <==> Reschedules(t, i, status, retryable, policy, now)
  {
  }

  /** The insertion, from the first attempt that `finish` has read. */
  ghost function AutoTx(base: Tables, row: Attempt, h: HandoffId, first: Attempt, policy: Policy, uuid: JobId, now: Instant)
    : Result<Tables>
    requires row.number >= 1
  {
    InsertTx(base, row, uuid, now, DueAfter(row.number, policy.base, now), AutoKey(row.job),
             Request(h, Automatic, false, 0), row.revision, Some(first.created + policy.expirySeconds))
  }

  /** The base, then the insertion when it is due and succeeds. */
  lemma FinishTxIs(t: Tables, i: nat, token: Token, status: Status, retryable: bool, policy: Option<Policy>,
                   first: Option<Attempt>, uuid: JobId, now: Instant, base: Tables, t': Tables)
    requires i < |t.attempts| && MayFinish(t, i, token, status) && Find(t.attempts, t.attempts[i].job) == i
    requires (retryable ==> status.Failed?) && base == FinishBase(t, i, status, retryable, now)
    requires t.attempts[i].handoff.Some?
    requires var c := Chain(t.attempts, t.attempts[i].handoff.value);
             first == if c == [] then None else Some(c[0])
    requires if Reschedules(t, i, status, retryable, policy, now)
             then var next := AutoTx(base, t.attempts[i], t.attempts[i].handoff.value, first.value, policy.value, uuid, now);
                  t' == if next.Ok? then next.value else base
             else t' == base
    ensures FinishTx(t, t.attempts[i].job, token, status, retryable, policy, uuid, now) == Ok(t')
  {
  }

  // ---------------------------------------------------------------- cancellation, row by row

  /** UPDATE smtp_attempts ... WHERE status='queued' AND handoff_id IN (the run's handoffs). */
  predicate OfRun(t: Tables, run: RunId, a: Attempt) {
    a.handoff.Some? && Business(t, run, a.handoff.value)
  }

  function CancelOfRun(t: Tables, run: RunId, a: Attempt, now: Instant): Attempt {
    if a.status.Queued? && OfRun(t, run, a) then a.(status := Failed, phase := Finished, updated := now) else a
  }

  lemma CancelRowsIs(t: Tables, run: RunId, h: HandoffId, rows: seq<Attempt>, now: Instant)
    requires OneBusiness(t) && Business(t, run, h) && |rows| == |t.attempts|
    requires forall k :: 0 <= k < |rows| ==> rows[k] == CancelOfRun(t, run, t.attempts[k], now)
    ensures rows == CancelRows(t.attempts, h, now)
  {
    forall k | 0 <= k < |rows| ensures rows[k] == CancelRow(t.attempts[k], h, now) {
      var a := t.attempts[k];
      assert OfRun(t, run, a) <==> OfHandoff(a, h);
    }
  }

  lemma CancelNone(t: Tables, run: RunId, rows: seq<Attempt>, now: Instant)
    requires !exists h :: Business(t, run, h)
    requires |rows| == |t.attempts|
    requires forall k :: 0 <= k < |rows| ==> rows[k] == CancelOfRun(t, run, t.attempts[k], now)
    ensures rows == t.attempts
  {
    assert forall k :: 0 <= k < |rows| ==> !OfRun(t, run, t.attempts[k]);
  }

  /** Cancelling does not move the evidence of earlier attempts. */
  lemma CancelLater(t: Tables, run: RunId, h: HandoffId, now: Instant, t': Tables)
    requires Inv(t) && Business(t, run, h)
    requires t'.attempts == CancelRows(t.attempts, h, now) && t'.receipts == t.receipts
    ensures Shape(h, Chain(t'.attempts, h)) && UncertainReceipted(t', h)
    ensures PriorUncertain(t', h) == PriorUncertain(t, h)
  {
    assert HandoffHolds(t, h);
    ChainCancelled(t.attempts, h, h, now);
    InvReceipted(t, h);
    CancelledChain(h, Chain(t.attempts, h), now);
  }

  lemma CancelledChain(h: HandoffId, c: seq<Attempt>, now: Instant)
    requires Shape(h, c) && AckRule(c)
    ensures var d := CancelRows(c, h, now);
            && Shape(h, d) && LastUncertain(d) == LastUncertain(c)
            && forall a :: a in d && a.status.Uncertain? ==> a in c
  {
    var d := CancelRows(c, h, now);
    if c != [] && c[|c| - 1].status.Queued? {
      CancelLast(h, c, now);
      WithLastShape(h, c, CancelRow(c[|c| - 1], h, now));
      LastUncertainPrefix(c, CancelRow(c[|c| - 1], h, now));
    } else {
      CancelNothing(h, c, now);
    }
  }

  lemma AcceptedKept(rows: seq<Attempt>, rows': seq<Attempt>, h: HandoffId, now: Instant)
    requires rows' == CancelRows(rows, h, now)
    ensures (exists a :: a in rows' && OfHandoff(a, h) && a.status.Accepted?)
       <==> (exists a :: a in rows && OfHandoff(a, h) && a.status.Accepted?)
  {
    if a :| a in rows && OfHandoff(a, h) && a.status.Accepted? {
      var k :| 0 <= k < |rows| && rows[k] == a;
      assert rows'[k] == a;
    }
    if a :| a in rows' && OfHandoff(a, h) && a.status.Accepted? {
      var k :| 0 <= k < |rows'| && rows'[k] == a;
      assert rows[k] == a;
    }
  }

  /** UPDATE delivery_handoffs ... WHERE run_id=? AND the handoff is still open. */
  function HandoffsCancelled(t: Tables, run: RunId): map<HandoffId, Handoff> {
    map h | h in t.handoffs :: if Business(t, run, h) then CancelledHandoff(t.handoffs[h], None) else t.handoffs[h]
  }

  /** With one business handoff per run, the set updates touch one chain and one handoff. */
  lemma CancelOne(t: Tables, run: RunId, h: HandoffId, now: Instant, t': Tables)
    requires OneBusiness(t) && Business(t', run, h) && |t'.attempts| == |t.attempts|
    requires forall k :: 0 <= k < |t.attempts| ==> t'.attempts[k] == CancelOfRun(t, run, t.attempts[k], now)
    requires t'.handoffs == HandoffsCancelled(t, run)
    ensures Business(t, run, h)
    ensures t'.attempts == CancelRows(t.attempts, h, now)
    ensures t'.handoffs == t.handoffs[h := CancelledHandoff(t.handoffs[h], None)]
  {
    assert Business(t, run, h);
    CancelRowsIs(t, run, h, t'.attempts, now);
    assert forall g :: g in t.handoffs && g != h ==> !Business(t, run, g);
  }

  lemma SurvivingKept(t: Tables, run: RunId, h: HandoffId, now: Instant, t': Tables)
    requires Inv(t) && Business(t, run, h)
    requires t'.attempts == CancelRows(t.attempts, h, now) && t'.receipts == t.receipts
    ensures Shape(h, Chain(t'.attempts, h)) && UncertainReceipted(t', h)
    ensures SurvivingUncertain(t', h) == SurvivingUncertain(t, h)
  {
    CancelLater(t, run, h, now, t');
    AcceptedKept(t.attempts, t'.attempts, h, now);
  }

  lemma CancelOneIs(t: Tables, run: RunId, h: HandoffId, now: Instant, mid: Tables, t': Tables)
    requires OneBusiness(t) && Business(t, run, h) && MayCancel(t, run)
    requires mid == t.(attempts := CancelRows(t.attempts, h, now),
                       handoffs := t.handoffs[h := CancelledHandoff(t.handoffs[h], None)],
                       runs := t.runs[run := t.runs[run].(status := Cancelled)])
    requires SurvivingUncertain(mid, h) == SurvivingUncertain(t, h)
    requires var u := SurvivingUncertain(mid, h);
             t' == if u.None? then mid
                   else mid.(handoffs := mid.handoffs[h := Shown(mid.handoffs[h], u.value)],
                             runs := mid.runs[run := mid.runs[run].(status := NeedsAttention)])
    ensures CancelTx(t, run, now) == Some(t')
  {
    hide OneBusiness, CancelTx, CancelRows, SurvivingUncertain;
    CancelTxIs(t, run, h, now);
    var u := SurvivingUncertain(t, h);
    assert mid.handoffs[h] == CancelledHandoff(t.handoffs[h], None);
    if u.Some? {
      assert t'.handoffs == t.handoffs[h := Shown(t.handoffs[h], u.value)];
      assert t'.runs == t.runs[run := t.runs[run].(status := NeedsAttention)];
    }
  }

  lemma CancelNoneIs(t: Tables, run: RunId, now: Instant, t': Tables)
    requires MayCancel(t, run) && !exists h :: h in t'.handoffs && Business(t', run, h)
    requires |t'.attempts| == |t.attempts|
    requires forall k :: 0 <= k < |t.attempts| ==> t'.attempts[k] == CancelOfRun(t, run, t.attempts[k], now)
    requires t' == t.(attempts := t'.attempts, handoffs := HandoffsCancelled(t, run),
                      runs := t.runs[run := t.runs[run].(status := Cancelled)])
    ensures CancelTx(t, run, now) == Some(t')
  {
    assert forall g :: Business(t, run, g) ==> Business(t', run, g);
    CancelNone(t, run, t'.attempts, now);
    assert t'.handoffs == t.handoffs;
  }

  /** With one business handoff per run, the transaction is determined. */
  lemma CancelTxIs(t: Tables, run: RunId, h: HandoffId, now: Instant)
    requires OneBusiness(t) && Business(t, run, h) && MayCancel(t, run)
    ensures var u := SurvivingUncertain(t, h);
            CancelTx(t, run, now) == Some(t.(
              attempts := CancelRows(t.attempts, h, now),
              handoffs := t.handoffs[h := CancelledHandoff(t.handoffs[h], u)],
              runs := t.runs[run := t.runs[run].(status := if u.Some? then NeedsAttention else Cancelled)]))
  {
  }

  lemma FoundAt(rows: seq<Attempt>, i: nat)
    requires UniqueJobs(rows) && i < |rows|
    ensures Find(rows, rows[i].job) == i
  {
  }
}
