/**
 One SMTP exchange, as an automaton driven by whatever the server or the callbacks answer.
 A response is either a value (with the reply code, if it was well formed) or an exception,
 which the classifier calls transient or not.
 */
module Transport {
  import opened DeliveryTypes

  datatype Stage = Connect | Mail | Rcpt(i: nat) | DataCommand | Authorize | Transfer | FinalReply

  datatype Response = Returned(code: Option<int>) | Raised(transient: bool)

  datatype Outcome = Outcome(status: Status, retryable: bool)

  datatype Sender = At(stage: Stage) | Ended(outcome: Outcome)

  predicate BodyStarted(stage: Stage) {
    stage.Transfer? || stage.FinalReply?
  }

  /** An explicit permanent or transient refusal. */
  predicate Refusal(code: Option<int>) {
    code.Some? && 400 <= code.value <= 599
  }

  predicate Positive(code: Option<int>) {
    code.Some? && 200 <= code.value < 300
  }

  function Rejected(code: Option<int>, bodyStarted: bool): Outcome {
    Outcome(if Refusal(code) || !bodyStarted then Failed else Uncertain, Refusal(code) && code.value < 500)
  }

  function FailureResult(transient: bool, bodyStarted: bool): Outcome {
    Outcome(if bodyStarted then Uncertain else Failed, transient && !bodyStarted)
  }

  /** The operation after a stage that went well. */
  function Following(stage: Stage, recipients: nat): Stage {
    match stage
    case Connect => Mail
    case Mail => Rcpt(0)
    case Rcpt(i) => if i + 1 < recipients then Rcpt(i + 1) else DataCommand
    case DataCommand => Authorize
    case Authorize => Transfer
    case Transfer => FinalReply
    case FinalReply => FinalReply
  }

  function Step(stage: Stage, recipients: nat, r: Response): Sender {
    match r
    case Raised(transient) => Ended(FailureResult(transient, BodyStarted(stage)))
    case Returned(code) =>
      match stage
      case Connect => if recipients == 0 then Ended(FailureResult(false, false)) else At(Mail)
      case Mail => if Positive(code) then At(Following(stage, recipients)) else Ended(Rejected(code, false))
      case Rcpt(_) => if Positive(code) then At(Following(stage, recipients)) else Ended(Rejected(code, false))
      case DataCommand => if code == Some(354) then At(Authorize) else Ended(Rejected(code, false))
      case Authorize => At(Transfer)
      case Transfer => At(FinalReply)
      case FinalReply => if Positive(code) then Ended(Outcome(Accepted, false)) else Ended(Rejected(code, true))
  }

  /** The whole exchange; responses after its end are not consumed. */
  function Drive(s: Sender, recipients: nat, script: seq<Response>): Sender
    decreases |script|
  {
    if s.Ended? || script == [] then s
    else Drive(Step(s.stage, recipients, script[0]), recipients, script[1..])
  }

  lemma {:induction false} DriveSplit(s: Sender, recipients: nat, script: seq<Response>, k: nat)
    requires k <= |script|
    ensures Drive(s, recipients, script) == Drive(Drive(s, recipients, script[..k]), recipients, script[k..])
    decreases k
  {
    if k == 0 {
      assert script[0..] == script;
    } else if s.At? {
      DriveSplit(Step(s.stage, recipients, script[0]), recipients, script[1..], k - 1);
      assert script[..k][1..] == script[1..][..k - 1];
      assert script[1..][k - 1..] == script[k..];
    } else {
      assert Drive(s, recipients, script[..k]) == s;
    }
  }

  // ---------------------------------------------------------------- the exchange, response by response

  /** What the k-th response answers, counted from MAIL: one RCPT for each recipient, in order. */
  function Planned(k: nat, recipients: nat): Stage {
    if k == 0 then Mail
    else if k <= recipients then Rcpt(k - 1)
    else if k == recipients + 1 then DataCommand
    else if k == recipients + 2 then Authorize
    else if k == recipients + 3 then Transfer
    else FinalReply
  }

  /** The k-th response lets the exchange go on, or at the end accepts the message. */
  predicate Expected(k: nat, recipients: nat, r: Response) {
    && r.Returned?
    && (k <= recipients || k == recipients + 4 ==> r.code.Some? && 200 <= r.code.value < 300)
    && (k == recipients + 1 ==> r.code == Some(354))
  }

  /** What the k-th response means when it is not as expected: the body leaves with response recipients + 2. */
  function Unexpected(k: nat, recipients: nat, r: Response): Outcome {
    match r
    case Raised(transient) => if k > recipients + 2 then Outcome(Uncertain, false) else Outcome(Failed, transient)
    case Returned(code) =>
      if code.Some? && 400 <= code.value <= 599 then Outcome(Failed, code.value < 500)
      else Outcome(if k > recipients + 2 then Uncertain else Failed, false)
  }

  /**
   The first k responses are as expected and the next one, if any, is not: it ends the
   exchange. With recipients + 5 expected responses, and in no other way, it is accepted.
   */
  lemma {:induction false} ByPosition(recipients: nat, script: seq<Response>, at: nat) returns (k: nat)
    requires recipients > 0 && at <= recipients + 4
    ensures at <= k <= at + |script| && k <= recipients + 5
    ensures forall i :: 0 <= i < k - at ==> Expected(at + i, recipients, script[i])
    ensures k < at + |script| && k < recipients + 5 ==> !Expected(k, recipients, script[k - at])
    ensures Drive(At(Planned(at, recipients)), recipients, script)
         == if k == recipients + 5 then Ended(Outcome(Accepted, false))
            else if k == at + |script| then At(Planned(k, recipients))
            else Ended(Unexpected(k, recipients, script[k - at]))
    decreases |script|
  {
    k := at;
    if script != [] && Expected(at, recipients, script[0]) {
      if at == recipients + 4 {
        k := recipients + 5;
      } else {
        k := ByPosition(recipients, script[1..], at + 1);
        forall i | 0 <= i < k - at ensures Expected(at + i, recipients, script[i]) {
          if i > 0 {
            assert script[i] == script[1..][i - 1] && Expected(at + 1 + (i - 1), recipients, script[1..][i - 1]);
          }
        }
      }
    }
  }

  /**
   Where an exchange that started at MAIL stands: waiting for the answer to its next operation
   when all answers were as expected, and otherwise ended by the first that was not.
   */
  ghost predicate InOrder(recipients: nat, script: seq<Response>, result: Sender) {
    && (forall k :: 0 <= k <= recipients + 4 ==>
          (result == At(Planned(k, recipients)) <==> k == |script| && Went(recipients, script, k)))
    && (result.Ended? && !result.outcome.status.Accepted? ==>
          exists k :: 0 <= k < |script| && k <= recipients + 4 && Went(recipients, script, k)
            && !Expected(k, recipients, script[k]) && result.outcome == Unexpected(k, recipients, script[k]))
  }

  /** The first k responses were as expected. */
  predicate Went(recipients: nat, script: seq<Response>, k: nat)
    requires k <= |script|
  {
    forall j :: 0 <= j < k ==> Expected(j, recipients, script[j])
  }

  lemma Answered(recipients: nat, script: seq<Response>, result: Sender)
    requires recipients > 0 && result == Drive(At(Mail), recipients, script)
    ensures result.Ended? && result.outcome.status.Accepted? <==>
              && |script| >= recipients + 5
              && (forall j :: 0 <= j <= recipients ==> script[j].Returned? && script[j].code.Some? && 200 <= script[j].code.value < 300)
              && script[recipients + 1] == Returned(Some(354))
              && script[recipients + 2].Returned? && script[recipients + 3].Returned?
              && script[recipients + 4].Returned? && script[recipients + 4].code.Some?
              && 200 <= script[recipients + 4].code.value < 300
    ensures InOrder(recipients, script, result)
  {
    var n := ByPosition(recipients, script, 0);
    hide Drive;
    forall j | 0 <= j < n ensures Expected(j, recipients, script[j]) {
      assert Expected(0 + j, recipients, script[j]);
    }
  }

  /**
   `send_message` after the preflight checks: MAIL, every RCPT, DATA, the callback that
   persists the submission boundary, the body, the final reply. `script` answers the
   operations in order; when it runs out the process is hanging at the returned stage.
   */
  method SendMessage(recipients: nat, script: seq<Response>) returns (result: Sender)
    requires recipients > 0
    ensures result == Drive(At(Mail), recipients, script)
    ensures result.Ended? && result.outcome.status.Accepted? <==>
              && |script| >= recipients + 5
              && (forall j :: 0 <= j <= recipients ==> script[j].Returned? && script[j].code.Some? && 200 <= script[j].code.value < 300)
              && script[recipients + 1] == Returned(Some(354))
              && script[recipients + 2].Returned? && script[recipients + 3].Returned?
              && script[recipients + 4].Returned? && script[recipients + 4].code.Some?
              && 200 <= script[recipients + 4].code.value < 300
    ensures InOrder(recipients, script, result)
  {
    Answered(recipients, script, Drive(At(Mail), recipients, script));
    hide InOrder;
    if script == [] {
      return At(Mail);
    }
    if script[0].Raised? {
      return Ended(FailureResult(script[0].transient, false));
    }
    if !Positive(script[0].code) {
      return Ended(Rejected(script[0].code, false));
    }
    var used := 1;
    DriveSplit(At(Mail), recipients, script, 1);
    var i := 0;
    while i < recipients
      invariant 0 <= i <= recipients && used <= |script|
      invariant Drive(At(Mail), recipients, script)
             == Drive(At(if i < recipients then Rcpt(i) else DataCommand), recipients, script[used..])
    {
      if used == |script| {
        return At(Rcpt(i));
      }
      var r := script[used];
      assert script[used..][1..] == script[used + 1..];
      if r.Raised? {
        return Ended(FailureResult(r.transient, false));
      }
      if !Positive(r.code) {
        return Ended(Rejected(r.code, false));
      }
      used := used + 1;
      i := i + 1;
    }
    result := SubmitBody(recipients, script[used..]);
  }

  method SubmitBody(recipients: nat, script: seq<Response>) returns (result: Sender)
    ensures result == Drive(At(DataCommand), recipients, script)
  {
    if |script| == 0 {
      return At(DataCommand);
    }
    if script[0].Raised? {
      return Ended(FailureResult(script[0].transient, false));
    }
    if script[0].code != Some(354) {
      return Ended(Rejected(script[0].code, false));
    }
    var bodyStarted := false;
    var stage := Authorize;
    var rest := script[1..];
    while !stage.FinalReply? && rest != []
      invariant stage.Authorize? || stage.Transfer? || stage.FinalReply?
      invariant bodyStarted == BodyStarted(stage)
      invariant Drive(At(DataCommand), recipients, script) == Drive(At(stage), recipients, rest)
      decreases |rest|
    {
      if rest[0].Raised? {
        return Ended(FailureResult(rest[0].transient, bodyStarted));
      }
      if stage.Authorize? {
        bodyStarted := true;
        stage := Transfer;
      } else {
        stage := FinalReply;
      }
      rest := rest[1..];
    }
    if rest == [] {
      return At(stage);
    }
    if rest[0].Raised? {
      return Ended(FailureResult(rest[0].transient, bodyStarted));
    }
    if Positive(rest[0].code) {
      return Ended(Outcome(Accepted, false));
    }
    result := Ended(Rejected(rest[0].code, bodyStarted));
  }

  /** The submission boundary was crossed: `before_body` returned. */
  ghost predicate Crossed(s: Sender, recipients: nat, script: seq<Response>) {
    exists k: nat :: k <= |script| && Drive(s, recipients, script[..k]) == At(Transfer)
  }

  /** An ended exchange, cut before the response that ended it. */
  lemma {:induction false} LastStep(s: Sender, recipients: nat, script: seq<Response>) returns (k: nat)
    requires s.At? && Drive(s, recipients, script).Ended?
    ensures k < |script|
    ensures Drive(s, recipients, script[..k]).At? && Drive(s, recipients, script[..k + 1]).Ended?
    ensures Drive(s, recipients, script) == Step(Drive(s, recipients, script[..k]).stage, recipients, script[k])
    decreases |script|
  {
    var next := Step(s.stage, recipients, script[0]);
    if next.Ended? {
      k := 0;
    } else {
      var j := LastStep(next, recipients, script[1..]);
      k := j + 1;
      assert script[..k][1..] == script[1..][..j];
      assert script[..k + 1][1..] == script[1..][..j + 1];
    }
  }

  /** Once the boundary is crossed, the exchange stays past it. */
  lemma {:induction false} StaysPast(s: Sender, recipients: nat, script: seq<Response>)
    requires s.At? && BodyStarted(s.stage)
    ensures var e := Drive(s, recipients, script); e.At? ==> BodyStarted(e.stage)
    decreases |script|
  {
    if script != [] && Step(s.stage, recipients, script[0]).At? {
      StaysPast(Step(s.stage, recipients, script[0]), recipients, script[1..]);
    }
  }

  /** An exchange still going after j responses was still going before. */
  lemma AtPrefix(s: Sender, recipients: nat, script: seq<Response>, m: nat, j: nat)
    requires m <= j <= |script| && Drive(s, recipients, script[..j]).At?
    ensures Drive(s, recipients, script[..m]).At?
  {
    DriveSplit(s, recipients, script[..j], m);
    assert script[..j][..m] == script[..m];
  }

  lemma {:induction false} NotPast(s: Sender, recipients: nat, script: seq<Response>)
    requires s.At? && !BodyStarted(s.stage)
    requires var e := Drive(s, recipients, script); e.At? && BodyStarted(e.stage)
    ensures Crossed(s, recipients, script)
    decreases |script|
  {
    var next := Step(s.stage, recipients, script[0]);
    if next == At(Transfer) {
      assert script[..1][1..] == [];
      assert Drive(s, recipients, script[..1]) == At(Transfer);
    } else {
      NotPast(next, recipients, script[1..]);
      var k: nat :| k <= |script[1..]| && Drive(next, recipients, script[1..][..k]) == At(Transfer);
      assert script[..k + 1][1..] == script[1..][..k];
      assert Drive(s, recipients, script[..k + 1]) == At(Transfer);
    }
  }

  /**
   The result is honest about the boundary. Before it, every failure is definite. After it,
   acceptance needs a positive final reply and definite failure an explicit final refusal;
   anything else, including every exception, is uncertain and never retried by itself.
   */
  lemma ExchangeIsHonest(recipients: nat, script: seq<Response>, o: Outcome) returns (k: nat)
    requires Drive(At(Connect), recipients, script) == Ended(o)
    ensures k < |script|
    ensures !Crossed(At(Connect), recipients, script) ==> o.status.Failed?
    ensures Crossed(At(Connect), recipients, script) ==>
              && (o.status.Failed? || o.status.Accepted? || o.status.Uncertain?)
              && (o.status.Accepted? <==> Drive(At(Connect), recipients, script[..k]) == At(FinalReply)
                                          && script[k].Returned? && Positive(script[k].code))
              && (o.status.Failed? <==> Drive(At(Connect), recipients, script[..k]) == At(FinalReply)
                                        && script[k].Returned? && Refusal(script[k].code))
              && (o.retryable <==> o.status.Failed? && script[k].Returned? && script[k].code.value < 500)
  {
    var s := At(Connect);
    k := LastStep(s, recipients, script);
    var e := Drive(s, recipients, script[..k]);
    if BodyStarted(e.stage) {
      NotPast(s, recipients, script[..k]);
      var j: nat :| j <= k && Drive(s, recipients, script[..k][..j]) == At(Transfer);
      assert script[..k][..j] == script[..j];
    }
    if Crossed(s, recipients, script) {
      var j: nat :| j <= |script| && Drive(s, recipients, script[..j]) == At(Transfer);
      if j <= k {
        DriveSplit(s, recipients, script[..k], j);
        assert script[..k][..j] == script[..j];
        StaysPast(At(Transfer), recipients, script[..k][j..]);
      } else {
        AtPrefix(s, recipients, script, k + 1, j);
      }
    }
  }
}
