/**
 The dispatcher: it joins the durable queue and one SMTP exchange. Beside it runs the
 protocol machine; everything the dispatcher does is a run of that machine, so what holds in
 every run of the machine holds whenever the dispatcher stops, wherever that is.
 */
module Dispatcher {
  import opened DeliveryTypes
  import opened RetryGuard
  import opened Queue
  import opened Chains
  import opened Transport
  import opened World
  import opened DurableQueue
  import Effects
  import Safety
  import WireInvariant

  /** How an operation is answered after a wait; `flag` as in the machine's exchange step. */
  datatype Answer = Answer(wait: nat, response: Response, flag: bool)

  lemma ReachedStep(w: World, events: seq<Event>, e: Event)
    ensures Reached(w, events + [e]) == Next(Reached(w, events), e)
  {
    assert (events + [e])[..|events|] == events;
  }

  /** Without a retry the policy makes no difference to a finished attempt. */
  lemma PolicyUnused(t: Tables, job: JobId, token: Token, status: Status, policy: Policy, uuid: JobId, now: Instant)
    ensures FinishTx(t, job, token, status, false, None, uuid, now) == FinishTx(t, job, token, status, false, Some(policy), uuid, now)
  {
  }

  // ---------------------------------------------------------------- the machine's steps, from the queue's answers

  lemma NextClaims(w: World, job: JobId, token: Token, pid: int, recipients: nat, purpose: Purpose, t: Option<Tables>)
    requires t == ClaimTx(w.t, job, token, pid, purpose.Retire?, w.now)
    ensures Next(w, DoClaim(job, token, pid, recipients, purpose))
         == if t.None? then w else w.(t := t.value, holder := Some(Claimant(job, token, recipients, purpose)))
  {
    hide ClaimTx;
  }

  lemma NextReports(w: World, p: Holder, o: Outcome, uuid: JobId, t: Result<Tables>)
    requires w.holder == Some(p) && p.pc == Reporting(o)
    requires t == FinishTx(w.t, p.job, p.token, o.status, o.retryable, Some(w.policy), uuid, w.now)
    ensures Next(w, DoReport(uuid)) == if t.Err? then w else w.(t := t.value, holder := None)
  {
    hide FinishTx;
  }

  lemma NextAuthorizes(w: World, p: Holder, r: Response, approved: bool, t: Result<Tables>)
    requires w.holder == Some(p) && p.pc == Exchanging(Authorize) && r.Returned?
    requires t == StartDataTx(w.t, p.job, p.token, approved, w.now)
    ensures Next(w, DoExchange(r, approved))
         == if t.Err? then w.(holder := Some(p.(pc := AfterStep(Ended(FailureResult(false, false))))))
            else w.(t := t.value, wire := SetWire(w, p.job, Authorized(w.now)),
                    holder := Some(p.(started := true, pc := Exchanging(Transfer))))
  {
    hide StartDataTx;
  }

  /** Any other step leaves the tables alone and moves the exchange on. */
  lemma NextExchanges(w: World, p: Holder, stage: Stage, r: Response, flag: bool)
    requires w.holder == Some(p) && p.pc == Exchanging(stage) && !(stage.Authorize? && r.Returned?)
    requires stage.Transfer? ==> WireOf(w, p.job).Authorized?
    requires stage.FinalReply? ==> WireOf(w, p.job).Sent?
    ensures var w' := Next(w, DoExchange(r, flag));
            && w'.t == w.t && w'.now == w.now && w'.policy == w.policy
            && w'.holder == Some(p.(pc := AfterStep(Step(stage, p.recipients, r))))
            && (stage.Transfer? && r.Returned? ==> WireOf(w', p.job).Sent?)
  {
    hide StartDataTx;
  }

  lemma NextReportsFailure(w: World, p: Holder, o: Outcome)
    requires w.holder == Some(p) && p.pc == Reporting(o)
    ensures Next(w, ReportFails(false))
         == w.(holder := Some(p.(pc := if p.started then Reporting(Outcome(Uncertain, false)) else Stuck)))
  {
    hide FinishTx;
  }

  lemma StageAfter(stage: Stage, recipients: nat, r: Response)
    requires !(stage.Authorize? && r.Returned?)
    ensures var s := Step(stage, recipients, r);
            s.At? ==> !s.stage.Transfer? && (s.stage.FinalReply? ==> stage.Transfer? && r.Returned?)
                      && (BodyStarted(stage) ==> BodyStarted(s.stage))
  {
  }

  // ---------------------------------------------------------------- a dispatch, answer by answer

  /** When the k-th answer arrives. */
  function ClockAt(answers: seq<Answer>, start: Instant, k: nat): Instant
    requires k < |answers|
  {
    (if k == 0 then start else ClockAt(answers, start, k - 1)) + answers[k].wait
  }

  /**
   The k-th answer lets the dispatch go on: the connection stands and there are recipients,
   then MAIL, each RCPT, DATA, the boundary, the body and the final reply; at the boundary
   the message must still be submittable.
   */
  ghost predicate GoesOn(t: Tables, row: Attempt, recipients: nat, answers: seq<Answer>, start: Instant, k: nat)
    requires k < |answers|
  {
    var a := answers[k];
    if k == 0 then a.response.Returned? && recipients > 0
    else
      && Expected(k - 1, recipients, a.response)
      && (k == recipients + 3 ==> Effects.Submittable(t, row, a.flag, ClockAt(answers, start, k)))
  }

  ghost predicate AllGo(t: Tables, row: Attempt, recipients: nat, answers: seq<Answer>, start: Instant, k: nat)
    requires k <= |answers|
  {
    forall j :: 0 <= j < k ==> GoesOn(t, row, recipients, answers, start, j)
  }

  /** What a dispatch stopped by its k-th answer reports; past the boundary only the server can say that it failed. */
  function StoppedBy(recipients: nat, k: nat, r: Response): Outcome {
    match r
    case Raised(transient) => if k > recipients + 3 then Outcome(Uncertain, false) else Outcome(Failed, transient)
    case Returned(code) =>
      if k == 0 || k == recipients + 3 then Outcome(Failed, false)
      else if code.Some? && 400 <= code.value <= 599 then Outcome(Failed, code.value < 500)
      else Outcome(if k > recipients + 3 then Uncertain else Failed, false)
  }

  /** The stage the k-th answer is for. */
  function StageOf(k: nat, recipients: nat): Stage {
    if k == 0 then Connect else Planned(k - 1, recipients)
  }

  /** The first k answers let it go on; `None` is a dispatch that is still waiting. */
  ghost predicate StopsAt(t: Tables, row: Attempt, recipients: nat, answers: seq<Answer>, start: Instant, k: nat,
                          outcome: Option<Outcome>)
  {
    && k <= |answers| && k <= recipients + 6
    && AllGo(t, row, recipients, answers, start, k)
    && if k == recipients + 6 then outcome == Some(Outcome(Accepted, false))
       else if k == |answers| then outcome == None
       else !GoesOn(t, row, recipients, answers, start, k) && outcome == Some(StoppedBy(recipients, k, answers[k].response))
  }

  lemma StepIs(k: nat, recipients: nat, r: Response)
    requires k <= recipients + 5 && (k > 0 ==> recipients > 0)
    ensures k == 0 ==> Step(Connect, recipients, r)
                       == if r.Returned? && recipients > 0 then At(StageOf(1, recipients)) else Ended(StoppedBy(recipients, 0, r))
    ensures k > 0 ==> Step(StageOf(k, recipients), recipients, r)
                      == if !Expected(k - 1, recipients, r) then Ended(StoppedBy(recipients, k, r))
                         else if k == recipients + 5 then Ended(Outcome(Accepted, false)) else At(StageOf(k + 1, recipients))
  {
  }

  /** The attempt is owned, and past the boundary or not. */
  ghost predicate Held(t: Tables, i: nat, token: Token, started: bool) {
    && i < |t.attempts| && t.attempts[i].status.Sending? && t.attempts[i].token == Some(token)
    && t.attempts[i].phase == if started then DataStarted else Prepared
  }

  /** At the boundary the queue decides by what the message's submission needs. */
  lemma BoundaryIs(t: Tables, job: JobId, i: nat, token: Token, approved: bool, now: Instant)
    requires Inv(t) && Held(t, i, token, false) && t.attempts[i].job == job
    ensures Effects.Starts(t, job, token, approved, now) <==> Effects.Submittable(t, t.attempts[i], approved, now)
    ensures forall t' :: Effects.Started(t, t', job, token, now) ==>
              t' == t.(attempts := t.attempts[i := t.attempts[i].(phase := DataStarted, updated := now)])
  {
    Effects.AtFind(t, job);
    assert Effects.At(t, job, i);
    hide Inv, Effects.Submittable;
    if Effects.Submittable(t, t.attempts[i], approved, now) {
      assert Effects.OwnedRow(t, job, token, i);
    }
  }

  /** Claiming changes nothing the boundary looks at. */
  lemma ClaimedRow(t: Tables, t': Tables, job: JobId, token: Token, pid: int, now: Instant)
    requires Inv(t) && Effects.Claimable(t, job, false, now) && Effects.ClaimedBy(t, t', job, token, pid, now)
    ensures var i := Find(t.attempts, job);
            && i < |t.attempts| && t.attempts[i].job == job && |t'.attempts| == |t.attempts|
            && t'.attempts[i].job == job && Held(t', i, token, false)
            && forall flag, at :: Effects.Submittable(t', t'.attempts[i], flag, at) <==> Effects.Submittable(t, t.attempts[i], flag, at)
  {
    Effects.AtFind(t, job);
    assert PhaseFits(t.attempts[Find(t.attempts, job)]);
    hide Inv;
  }

  lemma SameGoing(t: Tables, row: Attempt, t': Tables, row': Attempt, recipients: nat, answers: seq<Answer>, start: Instant,
                  k: nat, outcome: Option<Outcome>)
    requires forall flag, at :: Effects.Submittable(t', row', flag, at) <==> Effects.Submittable(t, row, flag, at)
    requires StopsAt(t', row', recipients, answers, start, k, outcome)
    ensures StopsAt(t, row, recipients, answers, start, k, outcome)
  {
    hide Effects.Submittable;
    forall j: nat | j < |answers|
      ensures GoesOn(t', row', recipients, answers, start, j) <==> GoesOn(t, row, recipients, answers, start, j)
    {
    }
  }

  ghost predicate HasStatus(t: Tables, job: JobId, s: Status) {
    exists i :: 0 <= i < |t.attempts| && t.attempts[i].job == job && t.attempts[i].status == s
  }

  lemma RecordedStatus(t: Tables, t': Tables, job: JobId, status: Status, retryable: bool,
                       policy: Option<Policy>, uuid: JobId, now: Instant)
    requires Effects.ResultRecorded(t, t', job, status, retryable, policy, uuid, now)
    ensures HasStatus(t', job, status)
  {
    var i: nat :| Effects.At(t, job, i) && Effects.AttemptClosed(t, t', i, status, retryable, now);
    hide Effects.ResultRecorded;
    assert t'.attempts[i] == t'.attempts[..|t.attempts|][i];
  }

  /** An owner past the boundary can report anything, any owner a failure. */
  lemma CanReport(t: Tables, job: JobId, i: nat, token: Token, started: bool, status: Status)
    requires Held(t, i, token, started) && t.attempts[i].job == job
    requires status.Failed? || status.Uncertain? || (status.Accepted? && started)
    ensures Effects.Finishable(t, job, token, status)
  {
    assert Effects.OwnedRow(t, job, token, i);
  }

  ghost predicate Unexpired(t: Tables, job: JobId, now: Instant) {
    forall i: nat :: Effects.At(t, job, i) && t.attempts[i].expires.Some? ==> now < t.attempts[i].expires.value
  }

  ghost predicate IsRetry(t: Tables, job: JobId) {
    exists i: nat :: Effects.At(t, job, i) && t.attempts[i].parent.Some?
  }

  lemma Known(t: Tables, job: JobId, now: Instant)
    requires Inv(t)
    ensures var i := Find(t.attempts, job);
            && (i < |t.attempts| ==> Effects.At(t, job, i))
            && (Effects.Claimable(t, job, false, now) ==> i < |t.attempts| && t.attempts[i].status.Queued?)
            && (i < |t.attempts| ==> (Unexpired(t, job, now) <==> t.attempts[i].expires.None? || now < t.attempts[i].expires.value))
            && (i < |t.attempts| ==> (IsRetry(t, job) <==> t.attempts[i].parent.Some?))
  {
    Effects.AtFind(t, job);
    hide Inv;
  }

  /** What a stop says: acceptance is the one outcome with every answer as hoped. */
  lemma Stopping(t: Tables, row: Attempt, recipients: nat, answers: seq<Answer>, start: Instant, k: nat, o: Option<Outcome>)
    requires StopsAt(t, row, recipients, answers, start, k, o)
    ensures k == recipients + 6 ==> o.Some?
    ensures o.Some? ==> (o.value.status.Accepted? <==> k == recipients + 6)
                        && (o.value.status.Failed? || o.value.status.Uncertain? || o.value.status.Accepted?)
  {
    hide GoesOn, AllGo;
  }

  class SmtpDispatcher {
    const queue: SmtpQueue
    const policy: Policy
    var clock: Instant
    ghost const origin: World
    ghost var events: seq<Event>
    ghost var world: World

    /** The queue is where the machine's run has led. */
    ghost predicate Valid()
      reads this, queue
    {
      && queue.Valid()
      && world == Reached(origin, events)
      && world.t == queue.State() && world.now == clock && world.policy == policy
    }

    constructor (q: SmtpQueue, p: Policy, now: Instant, ghost w: World)
      requires q.Valid() && w.t == q.State() && w.now == now && w.policy == p
      ensures Valid() && queue == q && world == w && events == []
    {
      queue, policy, clock := q, p, now;
      origin, world, events := w, w, [];
    }

    /** The machine takes the step the dispatcher has just taken. */
    ghost method Did(e: Event)
      requires world == Reached(origin, events)
      modifies this`events, this`world
      ensures world == Next(old(world), e) == Reached(origin, events) && events == old(events) + [e]
    {
      ReachedStep(origin, events, e);
      events, world := events + [e], Next(world, e);
    }

    method Wait(d: nat)
      requires Valid()
      modifies this`clock, this`events, this`world
      ensures Valid() && world == old(world).(now := clock) && clock == old(clock) + d
      ensures old(events) <= events
    {
      hide Inv;
      clock := clock + d;
      Did(Tick(d));
    }

    /** This process holds the job and is about to do what `pc` says. */
    ghost predicate Holds(job: JobId, token: Token, recipients: nat, started: bool, pc: Pc)
      reads this
    {
      world.holder == Some(Holder(job, token, recipients, started, pc))
    }

    /**
     `_dispatch_job` for a message; `preflight` is the answer of `_prepare_job`. It reports an
     acceptance exactly when the attempt was free to be claimed and valid, every answer up to
     the final reply let it go on, and the result was recorded. In every other case the status
     it leaves says how far it got: `k` answers, or `None` when it claimed nothing to send.
     */
    method DispatchJob(job: JobId, token: Token, pid: int, recipients: nat, preflight: bool, answers: seq<Answer>,
                       commits: bool, uuid: JobId)
      returns (accepted: bool, ghost k: Option<nat>, ghost o: Option<Outcome>)
      requires Valid() && world.holder.None?
      modifies this`clock, this`events, this`world, queue
      ensures Valid() && old(events) <= events
      ensures k.Some? <==> Effects.Claimable(old(queue.State()), job, false, old(clock)) && preflight
                           && Unexpired(old(queue.State()), job, old(clock))
      ensures k.Some? ==>
                && (exists i: nat :: Effects.At(old(queue.State()), job, i)
                      && StopsAt(old(queue.State()), old(queue.attempts)[i], recipients, answers, old(clock), k.value, o))
                && (accepted <==> commits && k.value == recipients + 6)
                && HasStatus(queue.State(), job,
                             if o.Some? && commits then o.value.status
                             else if o.Some? && k.value > recipients + 3 then Uncertain else Sending)
      ensures accepted ==> HasStatus(queue.State(), job, Accepted)
      ensures k.None? ==>
                && !accepted
                && if Effects.Claimable(old(queue.State()), job, false, old(clock))
                      && (!Unexpired(old(queue.State()), job, old(clock)) || IsRetry(old(queue.State()), job))
                   then HasStatus(queue.State(), job, Failed)
                   else queue.State() == old(queue.State())
    {
      hide Inv, ClaimTx, Next, StopsAt, Effects.Claimable, Effects.ClaimedBy, Effects.Submittable;
      ghost var t, start := queue.State(), clock;
      Known(t, job, clock);
      k, o := None, None;
      var i := queue.Locate(job);
      if i == |queue.attempts| || !queue.attempts[i].status.Queued? {
        return false, None, None;
      }
      var row := queue.attempts[i];
      if row.expires.Some? && row.expires.value <= clock {
        CloseUnsentJob(job, token, pid, recipients, uuid);
        return false, None, None;
      }
      if !preflight {
        if row.parent.Some? {
          CloseUnsentJob(job, token, pid, recipients, uuid);
        }
        return false, None, None;
      }
      ghost var w := world;
      var claimed := queue.Claim(job, token, pid, false, clock);
      NextClaims(w, job, token, pid, recipients, Dispatch, if claimed then Some(queue.State()) else None);
      Did(DoClaim(job, token, pid, recipients, Dispatch));
      if !claimed {
        return false, None, None;
      }
      ghost var claimedState := queue.State();
      ClaimedRow(t, claimedState, job, token, pid, start);
      ghost var n;
      accepted, n, o := Deliver(job, token, recipients, answers, commits, uuid, i);
      k := Some(n);
      assert Effects.At(t, job, i);
      SameGoing(t, t.attempts[i], claimedState, claimedState.attempts[i], recipients, answers, start, n, o);
    }

    /** The exchange of a claimed attempt, and its report. */
    method Deliver(job: JobId, token: Token, recipients: nat, answers: seq<Answer>, commits: bool, uuid: JobId, ghost i: nat)
      returns (accepted: bool, ghost k: nat, ghost o: Option<Outcome>)
      requires Valid() && Holds(job, token, recipients, false, Exchanging(Connect))
      requires Held(queue.State(), i, token, false) && queue.attempts[i].job == job
      modifies this`clock, this`events, this`world, queue
      ensures Valid() && old(events) <= events
      ensures StopsAt(old(queue.State()), old(queue.attempts)[i], recipients, answers, old(clock), k, o)
      ensures accepted <==> commits && k == recipients + 6
      ensures HasStatus(queue.State(), job,
                        if o.Some? && commits then o.value.status else if o.Some? && k > recipients + 3 then Uncertain else Sending)
      ensures accepted ==> HasStatus(queue.State(), job, Accepted)
    {
      hide Inv, Next, StopsAt, Effects.ResultRecorded, Effects.Submittable;
      ghost var t, start := queue.State(), clock;
      var outcome, started;
      outcome, started, k := Exchange(job, token, recipients, answers, i);
      o := outcome;
      Stopping(t, t.attempts[i], recipients, answers, start, k, outcome);
      if outcome.None? {
        assert queue.State().attempts[i].status.Sending?;
        return false, k, o;
      }
      ghost var before := queue.State();
      accepted := Report(job, token, recipients, started, outcome.value, commits, uuid, i);
      if commits {
        RecordedStatus(before, queue.State(), job, outcome.value.status, outcome.value.retryable, Some(policy), uuid, clock);
      } else if started {
        RecordedStatus(before, queue.State(), job, Uncertain, false, None, uuid, clock);
      } else {
        assert queue.State().attempts[i].status.Sending?;
      }
    }

    /** An expired or invalid attempt is claimed only to be closed. */
    method CloseUnsentJob(job: JobId, token: Token, pid: int, recipients: nat, uuid: JobId)
      requires Valid() && world.holder.None?
      modifies this`events, this`world, queue
      ensures Valid() && old(events) <= events
      ensures if Effects.Claimable(old(queue.State()), job, false, clock) then HasStatus(queue.State(), job, Failed)
              else queue.State() == old(queue.State())
    {
      hide Inv, ClaimTx, FinishTx, Next, Effects.Claimable, Effects.ClaimedBy, Effects.Finishable, Effects.ResultRecorded;
      ghost var w := world;
      var claimed := queue.Claim(job, token, pid, false, clock);
      NextClaims(w, job, token, pid, recipients, CloseUnsent, if claimed then Some(queue.State()) else None);
      Did(DoClaim(job, token, pid, recipients, CloseUnsent));
      if claimed {
        ClaimedRow(w.t, queue.State(), job, token, pid, clock);
        CanReport(queue.State(), job, Find(w.t.attempts, job), token, false, Failed);
        w := world;
        PolicyUnused(w.t, job, token, Failed, policy, uuid, clock);
        var done := queue.Finish(job, token, Failed, false, None, uuid, clock);
        RecordedStatus(w.t, queue.State(), job, Failed, false, None, uuid, clock);
        NextReports(w, w.holder.value, Outcome(Failed, false), uuid, if done then Ok(queue.State()) else Err);
        Did(DoReport(uuid));
      }
    }

    /** Connecting and `send_message`; None when the answers run out with the process still waiting. */
    method Exchange(job: JobId, token: Token, recipients: nat, answers: seq<Answer>, ghost i: nat)
      returns (outcome: Option<Outcome>, started: bool, ghost k: nat)
      requires Valid() && Holds(job, token, recipients, false, Exchanging(Connect))
      requires Held(queue.State(), i, token, false) && queue.attempts[i].job == job
      modifies this`clock, this`events, this`world, queue
      ensures Valid() && old(events) <= events
      ensures outcome.Some? ==> Holds(job, token, recipients, started, Reporting(outcome.value))
      ensures StopsAt(old(queue.State()), old(queue.attempts)[i], recipients, answers, old(clock), k, outcome)
      ensures started <==> k > recipients + 3
      ensures Held(queue.State(), i, token, started) && queue.attempts[i].job == job
    {
      hide Inv, StartDataTx, Next, Step, FailureResult, Expected, StoppedBy, StageOf, AllGo, StopsAt, ClockAt,
           Effects.Starts, Effects.Started, Effects.Submittable;
      started := false;
      var sender := At(Connect);
      var n := 0;
      k := 0;
      ghost var t, row, start := queue.State(), queue.attempts[i], clock;
      Beginning(t, row, recipients, answers, start);
      while sender.At? && n < |answers|
        invariant 0 <= n <= |answers|
        invariant Valid() && old(events) <= events
        invariant Holds(job, token, recipients, started, AfterStep(sender))
        invariant sender.At? && !BodyStarted(sender.stage) ==> !started
        invariant sender.At? && sender.stage.Transfer? ==> WireOf(world, job).Authorized?
        invariant sender.At? && sender.stage.FinalReply? ==> WireOf(world, job).Sent?
        invariant k <= n && k <= recipients + 6 && AllGo(t, row, recipients, answers, start, k)
        invariant sender.At? ==> k == n <= recipients + 5 && sender.stage == StageOf(n, recipients) && (n > 0 ==> recipients > 0)
        invariant sender.At? && n < |answers| ==> clock + answers[n].wait == ClockAt(answers, start, n)
        invariant sender.Ended? ==> StopsAt(t, row, recipients, answers, start, k, Some(sender.outcome))
        invariant started <==> k > recipients + 3
        invariant Held(queue.State(), i, token, started) && queue.attempts[i].job == job
        invariant !started ==> queue.State() == t
      {
        Wait(answers[n].wait);
        ghost var w, was := world, started;
        StageKnown(n, recipients);
        if sender.stage.Authorize? && answers[n].response.Returned? {
          BoundaryIs(queue.State(), job, i, token, answers[n].flag, clock);
          started := queue.StartData(job, token, answers[n].flag, clock);
          sender := if started then At(Transfer) else Ended(FailureResult(false, false));
          NextAuthorizes(w, w.holder.value, answers[n].response, answers[n].flag, if started then Ok(queue.State()) else Err);
        } else {
          NextExchanges(w, w.holder.value, sender.stage, answers[n].response, answers[n].flag);
          StageAfter(sender.stage, recipients, answers[n].response);
          sender := Step(sender.stage, recipients, answers[n].response);
        }
        OneStep(t, row, recipients, answers, start, n, was, sender, started);
        Did(DoExchange(answers[n].response, answers[n].flag));
        n := n + 1;
        if sender.At? || sender.outcome.status.Accepted? {
          k := n;
        }
      }
      outcome := if sender.Ended? then Some(sender.outcome) else None;
      Waits(t, row, recipients, answers, start, k);
    }

    /** Recording the result; `commits` is whether the first attempt to do so goes through. */
    method Report(job: JobId, token: Token, recipients: nat, started: bool, o: Outcome, commits: bool, uuid: JobId, ghost i: nat)
      returns (accepted: bool)
      requires Valid() && Holds(job, token, recipients, started, Reporting(o))
      requires Held(queue.State(), i, token, started) && queue.attempts[i].job == job
      requires o.status.Failed? || o.status.Uncertain? || (o.status.Accepted? && started)
      modifies this`events, this`world, queue
      ensures Valid() && old(events) <= events
      ensures accepted <==> commits && o.status.Accepted?
      ensures commits ==>
                Effects.ResultRecorded(old(queue.State()), queue.State(), job, o.status, o.retryable, Some(policy), uuid, clock)
      ensures !commits && started ==>
                Effects.ResultRecorded(old(queue.State()), queue.State(), job, Uncertain, false, None, uuid, clock)
      ensures !commits && !started ==> queue.State() == old(queue.State())
    {
      hide Inv, FinishTx, Next, Effects.Finishable, Effects.ResultRecorded;
      ghost var w := world;
      CanReport(queue.State(), job, i, token, started, o.status);
      var done := false;
      if commits {
        done := queue.Finish(job, token, o.status, o.retryable, Some(policy), uuid, clock);
      }
      if done {
        NextReports(w, w.holder.value, o, uuid, Ok(queue.State()));
        Did(DoReport(uuid));
        return o.status.Accepted?;
      }
      NextReportsFailure(w, w.holder.value, o);
      Did(ReportFails(false));
      if started {
        w := world;
        CanReport(queue.State(), job, i, token, started, Uncertain);
        PolicyUnused(w.t, job, token, Uncertain, policy, uuid, clock);
        var fallback := queue.Finish(job, token, Uncertain, false, None, uuid, clock);
        NextReports(w, w.holder.value, Outcome(Uncertain, false), uuid, if fallback then Ok(queue.State()) else Err);
        Did(DoReport(uuid));
      }
      return false;
    }
  }

  lemma Beginning(t: Tables, row: Attempt, recipients: nat, answers: seq<Answer>, start: Instant)
    ensures StageOf(0, recipients) == Connect && AllGo(t, row, recipients, answers, start, 0)
    ensures answers != [] ==> ClockAt(answers, start, 0) == start + answers[0].wait
  {
  }

  /** One answer more: the dispatch goes on to the next stage, or stops here. */
  lemma OneStep(t: Tables, row: Attempt, recipients: nat, answers: seq<Answer>, start: Instant, n: nat, was: bool,
                next: Sender, started: bool)
    requires n < |answers| && n <= recipients + 5 && (n > 0 ==> recipients > 0)
    requires AllGo(t, row, recipients, answers, start, n) && (was <==> n > recipients + 3)
    requires if n == recipients + 3 && answers[n].response.Returned?
             then && (started <==> Effects.Submittable(t, row, answers[n].flag, ClockAt(answers, start, n)))
                  && next == (if started then At(Transfer) else Ended(FailureResult(false, false)))
             else next == Step(StageOf(n, recipients), recipients, answers[n].response) && started == was
    ensures var k := if next.At? || next.outcome.status.Accepted? then n + 1 else n;
            && AllGo(t, row, recipients, answers, start, k) && (started <==> k > recipients + 3)
            && (next.Ended? ==> StopsAt(t, row, recipients, answers, start, k, Some(next.outcome)))
            && k <= recipients + 6
    ensures next.At? ==> n + 1 <= recipients + 5 && next.stage == StageOf(n + 1, recipients) && recipients > 0
    ensures n + 1 < |answers| ==> ClockAt(answers, start, n + 1) == ClockAt(answers, start, n) + answers[n + 1].wait
  {
    StepIs(n, recipients, answers[n].response);
    StageKnown(n, recipients);
    GoesOnIs(t, row, recipients, answers, start, n);
    GoesOnFirst(t, row, recipients, answers, start);
    Denied(recipients, answers[n].response);
    StoppedShort(recipients, n, answers[n].response);
    hide Step, StageOf, Expected, StoppedBy, FailureResult, GoesOn, Effects.Submittable;
  }

  /** Out of answers before the end, the dispatch is still waiting. */
  lemma Waits(t: Tables, row: Attempt, recipients: nat, answers: seq<Answer>, start: Instant, k: nat)
    ensures k == |answers| && k <= recipients + 5 && AllGo(t, row, recipients, answers, start, k) ==>
              StopsAt(t, row, recipients, answers, start, k, None)
  {
  }

  lemma GoesOnFirst(t: Tables, row: Attempt, recipients: nat, answers: seq<Answer>, start: Instant)
    requires answers != []
    ensures GoesOn(t, row, recipients, answers, start, 0) <==> answers[0].response.Returned? && recipients > 0
  {
  }

  lemma StoppedShort(recipients: nat, k: nat, r: Response)
    ensures !StoppedBy(recipients, k, r).status.Accepted?
  {
  }

  /** The boundary is stage recipients + 3, and what follows it is past it. */
  lemma StageKnown(n: nat, recipients: nat)
    ensures StageOf(n, recipients).Authorize? <==> n == recipients + 3
    ensures StageOf(recipients + 4, recipients) == Transfer
    ensures BodyStarted(StageOf(n, recipients)) <==> n > recipients + 3
  {
  }

  lemma GoesOnIs(t: Tables, row: Attempt, recipients: nat, answers: seq<Answer>, start: Instant, k: nat)
    requires k < |answers|
    ensures k != 0 && k != recipients + 3 ==>
              (GoesOn(t, row, recipients, answers, start, k) <==> Expected(k - 1, recipients, answers[k].response))
    ensures k == recipients + 3 ==>
              (GoesOn(t, row, recipients, answers, start, k) <==>
                 answers[k].response.Returned? && Effects.Submittable(t, row, answers[k].flag, ClockAt(answers, start, k)))
    ensures k == recipients + 3 ==> (Expected(k - 1, recipients, answers[k].response) <==> answers[k].response.Returned?)
  {
    hide Effects.Submittable;
  }

  lemma Denied(recipients: nat, r: Response)
    ensures r.Returned? ==> FailureResult(false, false) == StoppedBy(recipients, recipients + 3, r)
  {
  }

  // ---------------------------------------------------------------- wherever it stops

  lemma PolicyStays(w: World, e: Event)
    ensures Next(w, e).policy == w.policy
  {
    hide ClaimTx, StartDataTx, RecordStageTx, EnqueueTx, RetryTx, CancelTx, RecoverTx, FinishTx;
  }

  lemma {:induction false} PolicyStaysAlong(w: World, events: seq<Event>)
    ensures Reached(w, events).policy == w.policy
    decreases |events|
  {
    if events != [] {
      hide Next;
      PolicyStaysAlong(w, events[..|events| - 1]);
      PolicyStays(Reached(w, events[..|events| - 1]), events[|events| - 1]);
    }
  }

  lemma {:induction false} ReachedConcat(w: World, a: seq<Event>, b: seq<Event>)
    ensures Reached(w, a + b) == Reached(Reached(w, a), b)
    decreases |b|
  {
    hide Next;
    if b == [] {
      assert a + b == a;
    } else {
      ReachedConcat(w, a, b[..|b| - 1]);
      assert (a + b)[..|a + b| - 1] == a + b[..|b| - 1];
    }
  }

  /** Wherever a dispatcher stops, the machine can be there too, and its safety holds of the real queue. */
  lemma DispatcherIsSafe(d: SmtpDispatcher, h: HandoffId)
    requires d.Valid() && Safety.Reachable(d.origin)
    ensures Safety.Reachable(d.world)
    ensures Safety.TakenCount(Chain(d.queue.attempts, h), d.world.wire) <= 1 + Safety.AckCount(Chain(d.queue.attempts, h))
  {
    hide Next, Inv;
    var start, before :| d.origin == Reached(Start(d.origin.policy, start), before);
    ReachedConcat(Start(d.origin.policy, start), before, d.events);
    PolicyStaysAlong(d.origin, d.events);
    assert d.world == Reached(Start(d.world.policy, start), before + d.events);
    Safety.NoSilentDuplicates(d.world, h);
  }
}
