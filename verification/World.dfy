/**
 The delivery protocol as a whole: the tables, the process that owns the single sending slot,
 the server, the clock, and everyone else who writes to the database. A run of the system is
 any sequence of events; an event that is not enabled changes nothing.

 The adversary decides every reply and exception, may crash the owner between any two steps,
 and may take a body it was sent at any later moment, even after the owner died. One thing is
 asked of the server: it does not answer 4xx or 5xx to a body it has taken or takes later.
 */
module World {
  import opened DeliveryTypes
  import opened RetryGuard
  import opened Queue
  import opened Chains
  import opened Transport

  /** What became of an attempt's body; `at` is when submission was authorised. */
  datatype Wire =
    | Untouched
    | Authorized(at: Instant)
    | Sent(at: Instant)
    | Taken(at: Instant)
    | Refused(at: Instant)

  datatype Pc = Exchanging(stage: Stage) | Reporting(outcome: Outcome) | Stuck

  /** The owner of the sending slot, with its local variables. */
  datatype Holder = Holder(job: JobId, token: Token, recipients: nat, started: bool, pc: Pc)

  datatype World = World(t: Tables, holder: Option<Holder>, wire: map<JobId, Wire>, now: Instant, policy: Policy)

  /** Why a process claims a job: to send it, to close it unsent because it expired or failed
      its preflight checks, to retire it before its time, or to test the connection. */
  datatype Purpose = Dispatch | CloseUnsent | Retire | Diagnose(ok: bool)

  datatype Event =
    | Tick(d: nat)
    | SetRun(run: RunId, row: Run)
    | SetControls(run: RunId, cancel: bool, dry: bool)
    | AddHandoff(h: HandoffId, hd: Handoff)
    | MoveHandoff(h: HandoffId, status: HandoffStatus)
    | DoEnqueue(job: JobId, handoff: Option<HandoffId>, message: Message, revision: int)
    | DoRetry(job: JobId, key: Key, request: Request, revision: int, uuid: JobId)
    | DoClaim(job: JobId, token: Token, pid: int, recipients: nat, purpose: Purpose)
    | DoExchange(r: Response, flag: bool)
    | DoRecordStage
    | ServerTakes(job: JobId)
    | DoReport(uuid: JobId)
    | ReportFails(giveUp: bool)
    | Crash
    | DoRecover(job: JobId)
    | DoCancel(run: RunId)

  function WireOf(w: World, job: JobId): Wire {
    if job in w.wire then w.wire[job] else Untouched
  }

  function Claimant(job: JobId, token: Token, recipients: nat, purpose: Purpose): Holder {
    Holder(job, token, recipients, false,
           match purpose
           case Dispatch => Exchanging(Connect)
           case Diagnose(ok) => Reporting(Outcome(if ok then ConnectionOk else Failed, false))
           case _ => Reporting(Outcome(Failed, false)))
  }

  function NextClaim(w: World, job: JobId, token: Token, pid: int, recipients: nat, purpose: Purpose): World {
    match ClaimTx(w.t, job, token, pid, purpose.Retire?, w.now)
    case None => w
    case Some(t) => w.(t := t, holder := Some(Claimant(job, token, recipients, purpose)))
  }

  function AfterStep(s: Sender): Pc {
    match s
    case At(stage) => Exchanging(stage)
    case Ended(o) => Reporting(o)
  }

  function SetWire(w: World, job: JobId, x: Wire): map<JobId, Wire> {
    w.wire[job := x]
  }

  /** `before_body`: the durable boundary, with every check repeated inside the transaction. */
  function NextAuthorize(w: World, p: Holder, r: Response, approved: bool): World {
    match (if r.Raised? then Err else StartDataTx(w.t, p.job, p.token, approved, w.now))
    case Err => w.(holder := Some(p.(pc := AfterStep(Ended(FailureResult(r.Raised? && r.transient, false))))))
    case Ok(t) => w.(t := t, wire := SetWire(w, p.job, Authorized(w.now)),
                     holder := Some(p.(started := true, pc := Exchanging(Transfer))))
  }

  /** One step of the exchange. At `Transfer`, `flag` tells whether the body left before a raise;
      at `Authorize`, whether the task is approved. */
  function NextExchange(w: World, p: Holder, stage: Stage, r: Response, flag: bool): World {
    var next := p.(pc := AfterStep(Step(stage, p.recipients, r)));
    var x := WireOf(w, p.job);
    if stage.Authorize? then NextAuthorize(w, p, r, flag)
    else if stage.Transfer? then
      w.(holder := Some(next),
         wire := if (r.Returned? || flag) && x.Authorized? then SetWire(w, p.job, Sent(x.at)) else w.wire)
    else if stage.FinalReply? && r.Returned? && Refusal(r.code) then
      if x.Sent? then w.(holder := Some(next), wire := SetWire(w, p.job, Refused(x.at))) else w
    else w.(holder := Some(next))
  }

  ghost function NextReport(w: World, p: Holder, o: Outcome, uuid: JobId): World {
    match FinishTx(w.t, p.job, p.token, o.status, o.retryable, Some(w.policy), uuid, w.now)
    case Err => w
    case Ok(t) => w.(t := t, holder := None)
  }

  /** Recording the result raised. After the boundary the fallback is uncertain, never a retry. */
  function NextReportFails(w: World, p: Holder, giveUp: bool): World {
    w.(holder := Some(p.(pc := if p.started && !giveUp then Reporting(Outcome(Uncertain, false)) else Stuck)))
  }

  ghost function NextRecover(w: World, job: JobId): World {
    var i := Find(w.t.attempts, job);
    if w.holder.Some? || i == |w.t.attempts| then w
    else
      match RecoverTx(w.t, job, w.t.attempts[i].phase, w.now)
      case Err => w
      case Ok(t) => w.(t := t)
  }

  ghost function NextAddHandoff(w: World, h: HandoffId, hd: Handoff): World {
    if h in w.t.handoffs || !Blank(hd) || hd.status.QueuedH?
       || (!hd.alert && exists g :: Business(w.t, hd.run, g)) then w
    else w.(t := w.t.(handoffs := w.t.handoffs[h := hd]))
  }

  /** Publication, and the orchestrator giving up on a handoff that was not queued yet. */
  function NextMoveHandoff(w: World, h: HandoffId, status: HandoffStatus): World {
    if h in w.t.handoffs && (w.t.handoffs[h].status.PreparedH? || w.t.handoffs[h].status.PublishedH?)
       && (status.PublishedH? || status.FailedH?)
    then w.(t := w.t.(handoffs := w.t.handoffs[h := w.t.handoffs[h].(status := status)]))
    else w
  }

  function NextSetControls(w: World, run: RunId, cancel: bool, dry: bool): World {
    w.(t := w.t.(controls := w.t.controls[run := Controls(cancel || CancelFlag(w.t, run), dry)]))
  }

  /** Only `finish` creates automatic requests; everything asked for by an operator is manual. */
  ghost function NextRetry(w: World, job: JobId, key: Key, request: Request, revision: int, uuid: JobId): World {
    if request.mode.Automatic? then w
    else
      match RetryTx(w.t, job, key, request, revision, uuid, w.now)
      case Err => w
      case Ok(r) => w.(t := r.0)
  }

  function NextEnqueue(w: World, job: JobId, handoff: Option<HandoffId>, message: Message, revision: int): World {
    match EnqueueTx(w.t, job, handoff, message, revision, w.now)
    case Err => w
    case Ok(t) => w.(t := t)
  }

  function NextRecordStage(w: World): World {
    if w.holder.None? then w
    else
      match RecordStageTx(w.t, w.holder.value.job, w.holder.value.token, w.now)
      case Err => w
      case Ok(t) => w.(t := t)
  }

  function NextServerTakes(w: World, job: JobId): World {
    if WireOf(w, job).Sent? then w.(wire := SetWire(w, job, Taken(WireOf(w, job).at))) else w
  }

  ghost function NextCancel(w: World, run: RunId): World {
    match CancelTx(w.t, run, w.now)
    case None => w
    case Some(t) => w.(t := t)
  }

  ghost function NextOwner(w: World, e: Event): World
    requires e.DoExchange? || e.DoReport? || e.ReportFails?
  {
    if w.holder.None? then w
    else
      var p := w.holder.value;
      match e
      case DoExchange(r, flag) => if p.pc.Exchanging? then NextExchange(w, p, p.pc.stage, r, flag) else w
      case DoReport(uuid) => if p.pc.Reporting? then NextReport(w, p, p.pc.outcome, uuid) else w
      case ReportFails(giveUp) => if p.pc.Reporting? then NextReportFails(w, p, giveUp) else w
  }

  ghost function Next(w: World, e: Event): World {
    match e
    case Tick(d) => w.(now := w.now + d)
    case SetRun(run, row) => w.(t := w.t.(runs := w.t.runs[run := row]))
    case SetControls(run, cancel, dry) => NextSetControls(w, run, cancel, dry)
    case AddHandoff(h, hd) => NextAddHandoff(w, h, hd)
    case MoveHandoff(h, status) => NextMoveHandoff(w, h, status)
    case DoEnqueue(job, handoff, message, revision) => NextEnqueue(w, job, handoff, message, revision)
    case DoRetry(job, key, request, revision, uuid) => NextRetry(w, job, key, request, revision, uuid)
    case DoClaim(job, token, pid, recipients, purpose) => NextClaim(w, job, token, pid, recipients, purpose)
    case DoExchange(_, _) => NextOwner(w, e)
    case DoRecordStage => NextRecordStage(w)
    case ServerTakes(job) => NextServerTakes(w, job)
    case DoReport(_) => NextOwner(w, e)
    case ReportFails(_) => NextOwner(w, e)
    case Crash => w.(holder := None)
    case DoRecover(job) => NextRecover(w, job)
    case DoCancel(run) => NextCancel(w, run)
  }

  ghost function Reached(w: World, events: seq<Event>): World
    decreases |events|
  {
    if events == [] then w
    else Next(Reached(w, events[..|events| - 1]), events[|events| - 1])
  }

  function Start(policy: Policy, now: Instant): World {
    World(Tables([], map[], map[], map[], map[], map[]), None, map[], now, policy)
  }

  // ---------------------------------------------------------------- the invariant

  /** How the record of an attempt and the fate of its body must agree. */
  predicate WireFits(a: Attempt, x: Wire) {
    && (match a.status
        case Queued => x.Untouched?
        case Sending => a.phase.DataStarted? <==> !x.Untouched?
        case Accepted => x.Sent? || x.Taken?
        case Uncertain => !x.Untouched?
        case Failed => x.Untouched? || x.Refused?
        case ConnectionOk => x.Untouched?)
    && (a.expires.Some? && !x.Untouched? ==> x.at < a.expires.value)
  }

  ghost predicate WireInv(w: World) {
    && (forall i :: 0 <= i < |w.t.attempts| ==> WireFits(w.t.attempts[i], WireOf(w, w.t.attempts[i].job)))
    && (forall j :: j in w.wire ==> HasJob(w.t.attempts, j))
  }

  predicate PcFits(p: Holder, a: Attempt, x: Wire, now: Instant) {
    match p.pc
    case Exchanging(stage) =>
      DueAt(a, now) && (p.started <==> BodyStarted(stage))
      && (stage.Transfer? ==> x.Authorized?) && (stage.FinalReply? ==> x.Sent? || x.Taken?)
    case Reporting(o) =>
      && (o.status.Failed? ==> !p.started || x.Refused?)
      && (o.status.Accepted? ==> x.Sent? || x.Taken?)
      && (o.status.Uncertain? || o.status.Accepted? ==> p.started)
      && (o.retryable ==> DueAt(a, now))
      && (o.status.ConnectionOk? ==> !p.started)
    case Stuck => true
  }

  ghost predicate HolderFits(w: World, p: Holder) {
    && var i := Find(w.t.attempts, p.job);
    && i < |w.t.attempts|
    && var a := w.t.attempts[i];
    && Owns(a, p.token)
    && (p.started <==> a.phase.DataStarted?)
    && PcFits(p, a, WireOf(w, p.job), w.now)
  }

  ghost predicate HolderInv(w: World) {
    w.holder.Some? ==> HolderFits(w, w.holder.value)
  }
}
