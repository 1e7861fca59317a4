/**
 Automatic retries: exponential spacing, one shared expiry, a bounded number. The spacing is
 promised for the attempts nobody pulled forward; pulling one forward leaves a row in
 smtp_retry_requests that names it.
 */
module Backoff {
  import opened DeliveryTypes
  import opened RetryGuard
  import opened Queue
  import opened Chains
  import opened QueueInvariant
  import opened Transport
  import opened World
  import opened WireInvariant

  predicate Auto(a: Attempt) {
    a.request.Some? && a.request.value.mode.Automatic?
  }

  ghost predicate Targeted(requests: map<Key, RetryRow>, job: JobId) {
    exists key :: key in requests && requests[key].job == job
  }

  /** Attempts 2 to k+1 are automatic and none was pulled forward. */
  ghost predicate Clean(requests: map<Key, RetryRow>, c: seq<Attempt>, k: nat)
    requires k < |c|
  {
    forall j :: 1 <= j <= k ==> Auto(c[j]) && !Targeted(requests, c[j].job)
  }

  /** The total delay before the attempt at position k. */
  function Delay(base: nat, k: nat): nat {
    base * (Pow2(k) - 1)
  }

  lemma DelayStep(base: nat, k: nat)
    ensures Delay(base, k + 1) == Delay(base, k) + base * Pow2(k)
  {
    assert Pow2(k + 1) == 2 * Pow2(k);
  }

  predicate AutoFits(a: Attempt, first: Instant, policy: Policy) {
    && !Acked(a)
    && a.expires == Some(first + policy.expirySeconds)
    && a.number <= policy.maxAttempts
    && a.due.Some? && a.due.value <= first + policy.expirySeconds
  }

  ghost predicate AutoRule(requests: map<Key, RetryRow>, c: seq<Attempt>, policy: Policy, now: Instant) {
    && (forall k :: 0 <= k < |c| ==> c[k].created <= now)
    && (forall k :: 1 <= k < |c| && Auto(c[k]) ==> AutoFits(c[k], c[0].created, policy))
    && (forall k :: 1 <= k < |c| && Clean(requests, c, k) ==> c[k].due.Some? && c[k].due.value >= c[0].created + Delay(policy.base, k))
  }

  ghost predicate AutoHolds(w: World, h: HandoffId) {
    AutoRule(w.t.requests, Chain(w.t.attempts, h), w.policy, w.now)
  }

  ghost predicate AutoInv(w: World) {
    forall h :: AutoHolds(w, h)
  }

  // ---------------------------------------------------------------- chains that keep their timing

  predicate SameTiming(a: Attempt, b: Attempt) {
    a.job == b.job && a.handoff == b.handoff && a.number == b.number && a.created == b.created
    && a.expires == b.expires && a.due == b.due && a.request == b.request
  }

  ghost predicate Timed(c: seq<Attempt>, d: seq<Attempt>) {
    |c| == |d| && forall k :: 0 <= k < |c| ==> SameTiming(c[k], d[k])
  }

  lemma {:induction false} ChainTimed(rows: seq<Attempt>, rows': seq<Attempt>, h: HandoffId)
    requires Timed(rows, rows')
    ensures Timed(Chain(rows, h), Chain(rows', h))
  {
    if rows != [] {
      var n := |rows| - 1;
      assert SameTiming(rows[n], rows'[n]);
      ChainTimed(rows[..n], rows'[..n], h);
    }
  }

  ghost predicate Grows(requests: map<Key, RetryRow>, requests': map<Key, RetryRow>) {
    forall key :: key in requests ==> key in requests' && requests'[key] == requests[key]
  }

  lemma RuleTimed(requests: map<Key, RetryRow>, requests': map<Key, RetryRow>, c: seq<Attempt>, d: seq<Attempt>,
                  policy: Policy, now: Instant, now': Instant)
    requires AutoRule(requests, c, policy, now) && Timed(c, d) && Grows(requests, requests') && now <= now'
    ensures AutoRule(requests', d, policy, now')
  {
    forall k | 1 <= k < |d| && Clean(requests', d, k)
      ensures d[k].due.Some? && d[k].due.value >= d[0].created + Delay(policy.base, k)
    {
      forall j | 1 <= j <= k ensures Auto(c[j]) && !Targeted(requests, c[j].job) {
        assert SameTiming(c[j], d[j]) && Auto(d[j]) && !Targeted(requests', d[j].job);
      }
      assert Clean(requests, c, k);
    }
  }

  /** Events that keep the timing of every row. */
  lemma TimedKeeps(w: World, w': World)
    requires AutoInv(w) && Timed(w.t.attempts, w'.t.attempts) && Grows(w.t.requests, w'.t.requests)
    requires w.now <= w'.now && w'.policy == w.policy
    ensures AutoInv(w')
  {
    forall h ensures AutoHolds(w', h) {
      assert AutoHolds(w, h);
      ChainTimed(w.t.attempts, w'.t.attempts, h);
      RuleTimed(w.t.requests, w'.t.requests, Chain(w.t.attempts, h), Chain(w'.t.attempts, h), w.policy, w.now, w'.now);
    }
  }

  /** Appending an attempt that no rule constrains: a first one, or a manual one. */
  lemma AppendManual(w: World, w': World, a: Attempt)
    requires AutoInv(w) && w'.t.attempts == w.t.attempts + [a] && Grows(w.t.requests, w'.t.requests)
    requires w.now == w'.now && w'.policy == w.policy && a.created == w.now && !Auto(a)
    ensures AutoInv(w')
  {
    forall h ensures AutoHolds(w', h) {
      assert AutoHolds(w, h);
      var c := Chain(w.t.attempts, h);
      ChainAppend(w.t.attempts, a, h);
      RuleTimed(w.t.requests, w'.t.requests, c, c, w.policy, w.now, w'.now);
      if OfHandoff(a, h) {
        RuleAppend(w'.t.requests, c, a, w.policy, w.now);
      } else {
        assert Chain(w'.t.attempts, h) == c;
      }
    }
  }

  lemma RuleAppend(requests: map<Key, RetryRow>, c: seq<Attempt>, a: Attempt, policy: Policy, now: Instant)
    requires AutoRule(requests, c, policy, now) && a.created <= now
    requires c != [] && Auto(a) ==> AutoFits(a, c[0].created, policy)
    requires c != [] && Auto(a) && Clean(requests, c, |c| - 1) ==> a.due.value >= c[0].created + Delay(policy.base, |c|)
    ensures AutoRule(requests, c + [a], policy, now)
  {
    var d := c + [a];
    forall k | 1 <= k < |d| && Clean(requests, d, k)
      ensures d[k].due.Some? && d[k].due.value >= d[0].created + Delay(policy.base, k)
    {
      assert Auto(d[k]);
      var m := if k < |c| then k else k - 1;
      forall j | 1 <= j <= m ensures Auto(c[j]) && !Targeted(requests, c[j].job) {
        assert d[j] == c[j];
      }
      assert Clean(requests, c, m);
    }
  }

  // ---------------------------------------------------------------- the automatic attempt

  /**
   Closing the last attempt of a chain, which was due, and appending an automatic one after
   the next delay.
   */
  lemma AutoAppend(requests: map<Key, RetryRow>, c: seq<Attempt>, a: Attempt, policy: Policy, now: Instant)
    requires AutoRule(requests, c, policy, now) && c != [] && DueAt(c[|c| - 1], now)
    requires a.created == now && AutoFits(a, c[0].created, policy)
    requires a.due == Some(now + policy.base * Pow2(|c| - 1))
    ensures AutoRule(requests, c + [a], policy, now)
  {
    DelayStep(policy.base, |c| - 1);
    RuleAppend(requests, c, a, policy, now);
  }

  /** The automatic attempt itself. */
  ghost predicate IsAuto(t: Tables, i: nat, a: Attempt, policy: Policy, now: Instant)
    requires i < |t.attempts| && t.attempts[i].handoff.Some?
  {
    && var row := t.attempts[i];
    && var c := Chain(t.attempts, row.handoff.value);
    && c != [] && row.number >= 1
    && a.handoff == row.handoff && a.created == now && a.request == Some(Request(row.handoff.value, Automatic, false, 0))
    && a.due == Some(DueAfter(row.number, policy.base, now))
    && a.expires == Some(c[0].created + policy.expirySeconds)
    && a.number == row.number + 1 <= policy.maxAttempts
    && a.due.value <= a.expires.value
  }

  lemma AutoAttemptIs(t: Tables, base: Tables, i: nat, status: Status, policy: Policy, uuid: JobId, now: Instant,
                      next: Result<Tables>)
    requires i < |t.attempts| && Reschedules(t, i, status, true, Some(policy), now)
    requires next == AutoInsert(t, base, i, policy, uuid, now) && next.Ok?
    ensures |next.value.attempts| == |base.attempts| + 1
    ensures var a := next.value.attempts[|base.attempts|];
            next.value.attempts == base.attempts + [a] && IsAuto(t, i, a, policy, now)
    ensures next.value.requests == base.requests
  {
  }

  lemma FinishTimed(w: World, p: Holder, o: Outcome, uuid: JobId)
    requires AutoInv(w) && Inv(w.t) && HolderFits(w, p) && p.pc == Reporting(o)
    ensures AutoInv(NextReport(w, p, o, uuid))
  {
    var w' := NextReport(w, p, o, uuid);
    if FinishTx(w.t, p.job, p.token, o.status, o.retryable, Some(w.policy), uuid, w.now).Ok? {
      var i := Find(w.t.attempts, p.job);
      var kept := o.retryable && o.status.Failed?;
      var base := FinishBase(w.t, i, o.status, kept, w.now);
      FinishBaseFields(w.t, i, o.status, kept, w.now);
      var mid := w.(t := base);
      TimedKeeps(w, mid);
      if Reschedules(w.t, i, o.status, kept, Some(w.policy), w.now) {
        var next := AutoInsert(w.t, base, i, w.policy, uuid, w.now);
        if next.Ok? {
          AutoAttemptIs(w.t, base, i, o.status, w.policy, uuid, w.now, next);
          RescheduleTimed(w, mid, w', i, next.value.attempts[|base.attempts|]);
        } else {
          TimedKeeps(mid, w');
        }
      } else {
        TimedKeeps(mid, w');
      }
    }
  }

  lemma RescheduleTimed(w: World, mid: World, w': World, i: nat, a: Attempt)
    requires AutoInv(mid) && Inv(w.t) && i < |w.t.attempts|
    requires w.t.attempts[i].handoff.Some? && w.t.attempts[i].handoff.value in w.t.handoffs
    requires Pending(w.t.attempts[i]) && DueAt(w.t.attempts[i], w.now) && IsAuto(w.t, i, a, w.policy, w.now)
    requires Timed(w.t.attempts, mid.t.attempts) && mid.policy == w.policy && mid.now == w.now
    requires w'.t.attempts == mid.t.attempts + [a] && w'.t.requests == mid.t.requests
    requires w'.policy == w.policy && w'.now == w.now
    ensures AutoInv(w')
  {
    hide Inv, Chain, AutoRule, Clean;
    var own := a.handoff.value;
    LastIs(w.t, i, own);
    ChainTimed(w.t.attempts, mid.t.attempts, own);
    SameEnds(Chain(w.t.attempts, own), Chain(mid.t.attempts, own));
    forall h ensures AutoHolds(w', h) {
      assert AutoHolds(mid, h);
      ChainAppend(mid.t.attempts, a, h);
      if h == own {
        AutoAppend(mid.t.requests, Chain(mid.t.attempts, h), a, w.policy, w.now);
      } else {
        assert Chain(w'.t.attempts, h) == Chain(mid.t.attempts, h);
      }
    }
  }

  lemma SameEnds(c: seq<Attempt>, d: seq<Attempt>)
    requires Timed(c, d) && c != []
    ensures |d| == |c| && d[0].created == c[0].created && d[|d| - 1].due == c[|c| - 1].due
  {
    assert SameTiming(c[|c| - 1], d[|d| - 1]) && SameTiming(c[0], d[0]);
  }

  lemma LastIs(t: Tables, i: nat, h: HandoffId)
    requires Inv(t) && i < |t.attempts| && h in t.handoffs && OfHandoff(t.attempts[i], h) && Pending(t.attempts[i])
    ensures var c := Chain(t.attempts, h); c != [] && c[|c| - 1] == t.attempts[i] && t.attempts[i].number == |c|
  {
    assert HandoffHolds(t, h);
    PendingIsLast(t.attempts, i, t.attempts[i], h);
  }

  // ---------------------------------------------------------------- the other events

  lemma ExpediteTimed(w: World, w': World, i: nat, key: Key, request: Request)
    requires AutoInv(w) && Inv(w.t) && i < |w.t.attempts| && key !in w.t.requests
    requires w.t.attempts[i].status.Queued? && Deferred(w.t.attempts[i], w.now)
    requires w'.t.attempts == w.t.attempts[i := Expedited(w.t.attempts[i], w.now)]
    requires w'.t.requests == w.t.requests[key := RetryRow(w.t.attempts[i].job, request)]
    requires w'.policy == w.policy && w'.now == w.now
    ensures AutoInv(w')
  {
    var row := w.t.attempts[i];
    var r := Expedited(row, w.now);
    forall h ensures AutoHolds(w', h) {
      assert AutoHolds(w, h);
      if OfHandoff(row, h) {
        assert RowsFit(w.t);
        LastIs(w.t, i, h);
        PendingIsLast(w.t.attempts, i, r, h);
        assert w'.t.requests[key].job == r.job;
        ExpediteRule(w.t.requests, w'.t.requests, Chain(w.t.attempts, h), r, w.policy, w.now);
      } else {
        ChainElsewhere(w.t.attempts, i, r, h);
        var c := Chain(w.t.attempts, h);
        RuleTimed(w.t.requests, w'.t.requests, c, c, w.policy, w.now, w'.now);
      }
    }
  }

  lemma ExpediteRule(requests: map<Key, RetryRow>, requests': map<Key, RetryRow>, c: seq<Attempt>, r: Attempt,
                     policy: Policy, now: Instant)
    requires AutoRule(requests, c, policy, now) && c != [] && Grows(requests, requests') && Targeted(requests', r.job)
    requires Deferred(c[|c| - 1], now) && r == Expedited(c[|c| - 1], now)
    ensures AutoRule(requests', WithLast(c, r), policy, now)
  {
    var n := |c| - 1;
    var d := WithLast(c, r);
    forall k | 1 <= k < |d| && Clean(requests', d, k)
      ensures d[k].due.Some? && d[k].due.value >= d[0].created + Delay(policy.base, k)
    {
      assert !Targeted(requests', d[k].job);
      assert k < n;
      forall j | 1 <= j <= k ensures Auto(c[j]) && !Targeted(requests, c[j].job) {
        assert d[j] == c[j] && Auto(d[j]) && !Targeted(requests', d[j].job);
      }
      assert Clean(requests, c, k);
    }
  }

  lemma RetryTimed(w: World, job: JobId, key: Key, request: Request, revision: int, uuid: JobId)
    requires AutoInv(w) && Inv(w.t)
    ensures AutoInv(NextRetry(w, job, key, request, revision, uuid))
  {
    var w' := NextRetry(w, job, key, request, revision, uuid);
    if w'.t != w.t {
      var i := Find(w.t.attempts, job);
      var row := w.t.attempts[i];
      if row.status.Queued? {
        ExpediteTimed(w, w', i, key, request);
      } else {
        AppendManual(w, w', RetryAttempt(row, uuid, w.now, w.now, key, request, revision, None));
      }
    } else {
      TimedKeeps(w, w');
    }
  }

  lemma RecoverTimed(w: World, job: JobId)
    requires AutoInv(w)
    ensures AutoInv(NextRecover(w, job))
  {
    var w' := NextRecover(w, job);
    var i := Find(w.t.attempts, job);
    if w.holder.None? && i < |w.t.attempts| && RecoverTx(w.t, job, w.t.attempts[i].phase, w.now).Ok? {
      FinishBaseFields(w.t, i, RecoveredStatus(w.t.attempts[i].phase), false, w.now);
    }
    TimedKeeps(w, w');
  }

  lemma CancelTimed(w: World, run: RunId)
    requires AutoInv(w)
    ensures AutoInv(NextCancel(w, run))
  {
    TimedKeeps(w, NextCancel(w, run));
  }

  lemma ExchangeTimed(w: World, p: Holder, stage: Stage, r: Response, flag: bool)
    requires AutoInv(w)
    ensures AutoInv(NextExchange(w, p, stage, r, flag))
  {
    TimedKeeps(w, NextExchange(w, p, stage, r, flag));
  }

  lemma OwnerTimed(w: World, e: Event)
    requires AutoInv(w) && Inv(w.t) && HolderInv(w) && (e.DoExchange? || e.DoReport? || e.ReportFails?)
    ensures AutoInv(NextOwner(w, e))
  {
    if w.holder.Some? {
      var p := w.holder.value;
      match e
      case DoExchange(r, flag) =>
        if p.pc.Exchanging? {
          ExchangeTimed(w, p, p.pc.stage, r, flag);
        }
      case DoReport(uuid) =>
        if p.pc.Reporting? {
          FinishTimed(w, p, p.pc.outcome, uuid);
        }
      case ReportFails(giveUp) => SameRowsTimed(w, NextOwner(w, e));
    }
  }

  lemma SameRowsTimed(w: World, w': World)
    requires AutoInv(w) && w'.t.attempts == w.t.attempts && w'.t.requests == w.t.requests
    requires w.now <= w'.now && w'.policy == w.policy
    ensures AutoInv(w')
  {
    TimedKeeps(w, w');
  }

  lemma ClaimTimed(w: World, job: JobId, token: Token, pid: int, recipients: nat, purpose: Purpose)
    requires AutoInv(w)
    ensures AutoInv(NextClaim(w, job, token, pid, recipients, purpose))
  {
    TimedKeeps(w, NextClaim(w, job, token, pid, recipients, purpose));
  }

  lemma StageTimed(w: World)
    requires AutoInv(w)
    ensures AutoInv(NextRecordStage(w))
  {
    TimedKeeps(w, NextRecordStage(w));
  }

  lemma EnqueueTimed(w: World, job: JobId, handoff: Option<HandoffId>, message: Message, revision: int)
    requires AutoInv(w)
    ensures AutoInv(NextEnqueue(w, job, handoff, message, revision))
  {
    var w' := NextEnqueue(w, job, handoff, message, revision);
    if w'.t.attempts != w.t.attempts {
      AppendManual(w, w', FirstAttempt(job, handoff, message, revision, w.now));
    } else {
      TimedKeeps(w, w');
    }
  }

  /** The timing invariant is kept by every event. */
  lemma TimingKeeps(w: World, e: Event)
    requires AutoInv(w) && Inv(w.t) && HolderInv(w)
    ensures AutoInv(Next(w, e))
  {
    match e
    case DoEnqueue(job, handoff, message, revision) => EnqueueTimed(w, job, handoff, message, revision);
    case DoRetry(job, key, request, revision, uuid) => RetryTimed(w, job, key, request, revision, uuid);
    case DoExchange(_, _) => OwnerTimed(w, e);
    case DoReport(_) => OwnerTimed(w, e);
    case ReportFails(_) => OwnerTimed(w, e);
    case DoRecover(job) => RecoverTimed(w, job);
    case DoCancel(run) => CancelTimed(w, run);
    case DoClaim(job, token, pid, n, purpose) => ClaimTimed(w, job, token, pid, n, purpose);
    case DoRecordStage => StageTimed(w);
    case _ => SameRowsTimed(w, Next(w, e));
  }
}
