/**
 What every transaction keeps. The attempts of a handoff form one chain: numbered 1, 2, 3...
 without gaps, linked to their predecessor, carrying one message, with nothing open before
 the last one; and the handoff row shows exactly the evidence that governs its chain.
 */
module Chains {
  import opened DeliveryTypes
  import opened RetryGuard
  import opened Queue

  // ---------------------------------------------------------------- chains and rows

  lemma {:induction false} ChainConcat(a: seq<Attempt>, b: seq<Attempt>, h: HandoffId)
    ensures Chain(a + b, h) == Chain(a, h) + Chain(b, h)
  {
    if b == [] {
      assert a + b == a;
    } else {
      var n := |b| - 1;
      assert (a + b)[..|a + b| - 1] == a + b[..n];
      ChainConcat(a, b[..n], h);
    }
  }

  lemma ChainAppend(rows: seq<Attempt>, a: Attempt, h: HandoffId)
    ensures Chain(rows + [a], h) == Chain(rows, h) + (if OfHandoff(a, h) then [a] else [])
  {
    assert (rows + [a])[..|rows|] == rows;
  }

  lemma {:induction false} ChainMembers(rows: seq<Attempt>, h: HandoffId, a: Attempt)
    ensures a in Chain(rows, h) <==> a in rows && OfHandoff(a, h)
  {
    if rows != [] {
      var n := |rows| - 1;
      ChainMembers(rows[..n], h, a);
      assert rows == rows[..n] + [rows[n]];
    }
  }

  /** Splitting a chain at one of its rows. */
  lemma ChainAt(rows: seq<Attempt>, i: nat, r: Attempt, h: HandoffId)
    requires i < |rows|
    ensures Chain(rows[i := r], h)
         == Chain(rows[..i], h) + (if OfHandoff(r, h) then [r] else []) + Chain(rows[i + 1..], h)
  {
    assert rows[i := r] == rows[..i] + [r] + rows[i + 1..];
    ChainAppend(rows[..i], r, h);
    ChainConcat(rows[..i] + [r], rows[i + 1..], h);
  }

  lemma ChainElsewhere(rows: seq<Attempt>, i: nat, r: Attempt, h: HandoffId)
    requires i < |rows| && r.handoff == rows[i].handoff && !OfHandoff(r, h)
    ensures Chain(rows[i := r], h) == Chain(rows, h)
  {
    ChainAt(rows, i, r, h);
    ChainAt(rows, i, rows[i], h);
    assert rows[i := rows[i]] == rows;
  }

  /** A chain with its last attempt replaced. */
  function WithLast(c: seq<Attempt>, r: Attempt): seq<Attempt>
    requires c != []
  {
    c[..|c| - 1] + [r]
  }

  /** A pending row is the last of its chain, so replacing it replaces the last attempt. */
  lemma PendingIsLast(rows: seq<Attempt>, i: nat, r: Attempt, h: HandoffId)
    requires i < |rows| && OfHandoff(rows[i], h) && Pending(rows[i]) && r.handoff == rows[i].handoff
    requires Shape(h, Chain(rows, h))
    ensures Chain(rows, h) != [] && Chain(rows, h)[|Chain(rows, h)| - 1] == rows[i]
    ensures Chain(rows[i := r], h) == WithLast(Chain(rows, h), r)
  {
    var c := Chain(rows, h);
    ChainAt(rows, i, rows[i], h);
    ChainAt(rows, i, r, h);
    assert rows[i := rows[i]] == rows;
    var k := |Chain(rows[..i], h)|;
    assert c[k] == rows[i];
    assert k == |c| - 1;
  }

  lemma CancelAppend(rows: seq<Attempt>, a: Attempt, h: HandoffId, now: Instant)
    ensures CancelRows(rows + [a], h, now) == CancelRows(rows, h, now) + [CancelRow(a, h, now)]
  {
    assert (rows + [a])[..|rows|] == rows;
  }

  lemma {:induction false} ChainCancelled(rows: seq<Attempt>, h: HandoffId, g: HandoffId, now: Instant)
    ensures Chain(CancelRows(rows, h, now), g) == CancelRows(Chain(rows, g), h, now)
  {
    if rows != [] {
      var init, last := rows[..|rows| - 1], rows[|rows| - 1];
      ChainCancelled(init, h, g, now);
      ChainAppend(CancelRows(init, h, now), CancelRow(last, h, now), g);
      CancelAppend(Chain(init, g), last, h, now);
    }
  }

  // ---------------------------------------------------------------- the invariant of one chain

  predicate Terminal(a: Attempt) {
    !Pending(a)
  }

  predicate PhaseFits(a: Attempt) {
    match a.status
    case Queued => a.phase.Prepared?
    case Sending => !a.phase.Finished? && a.token.Some?
    case _ => a.phase.Finished?
  }

  predicate Linked(c: seq<Attempt>, k: nat)
    requires k < |c|
  {
    c[k].parent == if k == 0 then None else Some(c[k - 1].job)
  }

  /** The stated chain invariant. */
  ghost predicate Shape(h: HandoffId, c: seq<Attempt>) {
    && (forall k :: 0 <= k < |c| ==> Linked(c, k))
    && (forall k :: 0 <= k < |c| ==>
          && c[k].handoff == Some(h)
          && c[k].number == k + 1
          && c[k].message == c[0].message
          && PhaseFits(c[k])
          && !c[k].status.ConnectionOk?
          && (k < |c| - 1 ==> c[k].status.Failed? || c[k].status.Uncertain?)
          && (k > 0 ==> c[k].request.Some?))
  }

  /** Created with the operator's acknowledgement that a duplicate may result. */
  predicate Acked(a: Attempt) {
    a.request.Some? && a.request.value.allowUncertain
  }

  /** Only an acknowledged attempt may follow one that is not a plain failure. */
  ghost predicate AckRule(c: seq<Attempt>) {
    forall i, j :: 0 <= i < j < |c| && !Acked(c[j]) ==> c[i].status.Failed?
  }

  predicate ReceiptFits(a: Attempt, h: HandoffId, hd: Handoff, r: Receipt) {
    r.job == a.job && r.handoff == h && r.idempotencyKey == hd.idempotencyKey && r.requestSha == hd.requestSha
    && r.status == a.status && r.messageId == a.message.messageId
  }

  ghost predicate ReceiptRule(h: HandoffId, c: seq<Attempt>, hd: Handoff, receipts: map<JobId, Receipt>) {
    forall k :: 0 <= k < |c| ==>
      && (c[k].job in receipts ==> Terminal(c[k]) && ReceiptFits(c[k], h, hd, receipts[c[k].job]))
      && (k < |c| - 1 || c[k].status.Accepted? || c[k].status.Uncertain? ==> c[k].job in receipts)
  }

  /** The attempt whose receipt decides a handoff with nothing pending. */
  function Governing(c: seq<Attempt>, receipts: map<JobId, Receipt>): Option<Attempt> {
    if c == [] then None
    else
      var last := c[|c| - 1];
      if last.status.Accepted? then Some(last)
      else if LastUncertain(c).Some? then LastUncertain(c)
      else if last.job in receipts then Some(last)
      else None
  }

  predicate Idle(c: seq<Attempt>) {
    c == [] || Pending(c[|c| - 1])
  }

  predicate Blank(hd: Handoff) {
    hd.receipt.None? && hd.externalStatus.None? && hd.receiptSha.None?
    && !hd.status.UncertainH? && !hd.status.AcceptedH?
  }

  ghost predicate EvidenceRule(c: seq<Attempt>, hd: Handoff, receipts: map<JobId, Receipt>) {
    if Idle(c) then Blank(hd) && (|c| >= 2 ==> hd.status.QueuedH?)
    else
      var g := Governing(c, receipts);
      if g.None? then Blank(hd) && hd.status.FailedH?
      else g.value.job in receipts && hd == Shown(hd, receipts[g.value.job])
  }

  /** A terminal attempt without a receipt was cancelled, and its run stays cancelled. */
  ghost predicate CancelRule(c: seq<Attempt>, receipts: map<JobId, Receipt>, cancelled: bool) {
    c != [] && Terminal(c[|c| - 1]) && c[|c| - 1].job !in receipts ==> cancelled
  }

  ghost predicate HandoffInv(h: HandoffId, c: seq<Attempt>, hd: Handoff, receipts: map<JobId, Receipt>, cancelled: bool) {
    && Shape(h, c)
    && AckRule(c)
    && ReceiptRule(h, c, hd, receipts)
    && EvidenceRule(c, hd, receipts)
    && CancelRule(c, receipts, cancelled)
    && (hd.alert ==> |c| <= 1)
  }

  // ---------------------------------------------------------------- the invariant of the tables

  ghost predicate UniqueJobs(rows: seq<Attempt>) {
    forall i, j :: 0 <= i < j < |rows| ==> rows[i].job != rows[j].job
  }

  ghost predicate OneSending(rows: seq<Attempt>) {
    forall i, j :: 0 <= i < j < |rows| ==> !(rows[i].status.Sending? && rows[j].status.Sending?)
  }

  ghost predicate RowsFit(t: Tables) {
    forall i :: 0 <= i < |t.attempts| ==>
      && PhaseFits(t.attempts[i])
      && (t.attempts[i].handoff.Some? ==> t.attempts[i].handoff.value in t.handoffs)
  }

  ghost predicate ReceiptsKnown(t: Tables) {
    forall j :: j in t.receipts ==> HasJob(t.attempts, j)
  }

  /** Assumed of the publisher: a run has one business handoff. */
  ghost predicate OneBusiness(t: Tables) {
    forall run, h, g :: Business(t, run, h) && Business(t, run, g) ==> h == g
  }

  ghost predicate HandoffHolds(t: Tables, h: HandoffId)
    requires h in t.handoffs
  {
    HandoffInv(h, Chain(t.attempts, h), t.handoffs[h], t.receipts, CancelFlag(t, t.handoffs[h].run))
  }

  ghost predicate RowInv(t: Tables) {
    && UniqueJobs(t.attempts)
    && OneSending(t.attempts)
    && RowsFit(t)
    && ReceiptsKnown(t)
  }

  ghost predicate HandoffsInv(t: Tables) {
    forall h :: h in t.handoffs ==> HandoffHolds(t, h)
  }

  ghost predicate Inv(t: Tables) {
    RowInv(t) && OneBusiness(t) && HandoffsInv(t)
  }

  // ---------------------------------------------------------------- steps on one chain

  /** Appending a queued attempt to a chain whose last attempt failed or is uncertain. */
  lemma AppendStep(h: HandoffId, c: seq<Attempt>, a: Attempt, hd: Handoff, receipts: map<JobId, Receipt>)
    requires HandoffInv(h, c, hd, receipts, false) && !hd.alert
    requires c != [] && (c[|c| - 1].status.Failed? || c[|c| - 1].status.Uncertain?)
    requires a.handoff == Some(h) && a.number == |c| + 1 && a.message == c[0].message && a.request.Some?
    requires a.parent == Some(c[|c| - 1].job) && a.status.Queued? && a.phase.Prepared? && a.job !in receipts
    requires !Acked(a) ==> forall k :: 0 <= k < |c| ==> c[k].status.Failed?
    ensures HandoffInv(h, c + [a], Reopened(hd), receipts, false)
  {
    var d := c + [a];
    forall k | 0 <= k < |d| ensures Linked(d, k) {
      if k < |c| {
        assert Linked(c, k);
      }
    }
    assert d[|d| - 1] == a;
    assert d[0] == c[0];
  }

  lemma FirstStep(h: HandoffId, a: Attempt, hd: Handoff, receipts: map<JobId, Receipt>, cancelled: bool)
    requires HandoffInv(h, [], hd, receipts, cancelled)
    requires a.handoff == Some(h) && a.number == 1 && a.parent.None? && a.status.Queued? && a.phase.Prepared?
    requires a.job !in receipts
    ensures HandoffInv(h, [a], hd, receipts, cancelled)
  {
    assert Linked([a], 0);
  }

  /** Same attempt, possibly further along. */
  predicate SameAttempt(a: Attempt, b: Attempt) {
    && a.job == b.job && a.handoff == b.handoff && a.message == b.message && a.parent == b.parent
    && a.number == b.number && a.request == b.request
  }

  /** Replacing a pending last attempt by a later state of itself keeps the chain a chain. */
  lemma WithLastShape(h: HandoffId, c: seq<Attempt>, r: Attempt)
    requires Shape(h, c) && AckRule(c) && c != []
    requires Pending(c[|c| - 1]) && SameAttempt(c[|c| - 1], r) && PhaseFits(r) && !r.status.ConnectionOk?
    ensures Shape(h, WithLast(c, r)) && AckRule(WithLast(c, r))
  {
    var d := WithLast(c, r);
    forall k | 0 <= k < |d| ensures Linked(d, k) {
      assert Linked(c, k);
    }
    assert d[0].message == c[0].message;
  }

  /** Moving the last attempt among its pending states, or pulling it forward. */
  lemma TouchStep(h: HandoffId, c: seq<Attempt>, r: Attempt, hd: Handoff, receipts: map<JobId, Receipt>, cancelled: bool)
    requires HandoffInv(h, c, hd, receipts, cancelled) && c != []
    requires Pending(c[|c| - 1]) && Pending(r) && SameAttempt(c[|c| - 1], r) && PhaseFits(r)
    ensures HandoffInv(h, WithLast(c, r), hd, receipts, cancelled)
  {
    WithLastShape(h, c, r);
  }

  lemma LastUncertainPrefix(c: seq<Attempt>, r: Attempt)
    requires c != [] && !c[|c| - 1].status.Uncertain?
    ensures LastUncertain(c) == LastUncertain(c[..|c| - 1])
    ensures LastUncertain(WithLast(c, r)) == if r.status.Uncertain? then Some(r) else LastUncertain(c)
  {
    assert WithLast(c, r)[..|c| - 1] == c[..|c| - 1];
  }

  lemma {:induction false} LastUncertainIs(c: seq<Attempt>)
    ensures var u := LastUncertain(c);
            && (u.Some? ==> u.value in c && u.value.status.Uncertain?)
            && (u.None? <==> forall a :: a in c ==> !a.status.Uncertain?)
  {
    if c != [] {
      var n := |c| - 1;
      LastUncertainIs(c[..n]);
      assert c == c[..n] + [c[n]];
    }
  }

  /** Every uncertain attempt of a chain left a receipt; a pending last attempt left none. */
  lemma UncertainHasReceipt(h: HandoffId, c: seq<Attempt>, hd: Handoff, receipts: map<JobId, Receipt>)
    requires ReceiptRule(h, c, hd, receipts) && c != [] && Pending(c[|c| - 1])
    ensures c[|c| - 1].job !in receipts
    ensures var u := LastUncertain(c);
            u.Some? ==> u.value.job in receipts && receipts[u.value.job].status.Uncertain? && receipts[u.value.job].job == u.value.job
  {
    LastUncertainIs(c);
    var u := LastUncertain(c);
    if u.Some? {
      var k :| 0 <= k < |c| && c[k] == u.value;
    }
  }

  lemma CloseReceipts(h: HandoffId, c: seq<Attempt>, r: Attempt, hd: Handoff, receipts: map<JobId, Receipt>, rec: Receipt)
    requires ReceiptRule(h, c, hd, receipts) && c != []
    requires UniqueChain(c) && Terminal(r) && r.job == c[|c| - 1].job && ReceiptFits(r, h, hd, rec)
    ensures ReceiptRule(h, WithLast(c, r), hd, receipts[r.job := rec])
  {
  }

  /** The receipt a closed handoff shows: an earlier uncertain one outlives a failure. */
  function Decided(c: seq<Attempt>, r: Attempt, receipts: map<JobId, Receipt>, rec: Receipt): Receipt {
    var u := LastUncertain(c);
    if r.status.Failed? && u.Some? && u.value.job in receipts then receipts[u.value.job] else rec
  }

  lemma CloseEvidence(h: HandoffId, c: seq<Attempt>, r: Attempt, hd: Handoff, receipts: map<JobId, Receipt>, rec: Receipt)
    requires ReceiptRule(h, c, hd, receipts) && c != [] && Pending(c[|c| - 1])
    requires r.job == c[|c| - 1].job && rec.job == r.job
    requires r.status.Failed? || r.status.Uncertain? || r.status.Accepted?
    ensures EvidenceRule(WithLast(c, r), Shown(hd, Decided(c, r, receipts, rec)), receipts[r.job := rec])
  {
    var d := WithLast(c, r);
    LastUncertainPrefix(c, r);
    UncertainHasReceipt(h, c, hd, receipts);
    assert d[|c| - 1] == r && |d| == |c|;
    var g := if r.status.Failed? && LastUncertain(c).Some? then LastUncertain(c).value else r;
    assert Governing(d, receipts[r.job := rec]) == Some(g);
    assert receipts[r.job := rec][g.job] == Decided(c, r, receipts, rec);
  }

  /** Closing the last attempt with a receipt. */
  lemma CloseStep(h: HandoffId, c: seq<Attempt>, r: Attempt, hd: Handoff, receipts: map<JobId, Receipt>,
                  cancelled: bool, rec: Receipt)
    requires HandoffInv(h, c, hd, receipts, cancelled) && c != [] && UniqueChain(c)
    requires Pending(c[|c| - 1]) && SameAttempt(c[|c| - 1], r) && PhaseFits(r)
    requires r.status.Failed? || r.status.Uncertain? || r.status.Accepted?
    requires ReceiptFits(r, h, hd, rec)
    ensures HandoffInv(h, WithLast(c, r), Shown(hd, Decided(c, r, receipts, rec)), receipts[r.job := rec], cancelled)
  {
    WithLastShape(h, c, r);
    CloseReceipts(h, c, r, hd, receipts, rec);
    CloseEvidence(h, c, r, hd, receipts, rec);
  }

  /** Jobs of a chain are distinct. */
  ghost predicate UniqueChain(c: seq<Attempt>) {
    forall i, j :: 0 <= i < j < |c| ==> c[i].job != c[j].job
  }

  /** Closing the last attempt without a receipt, by cancellation. */
  lemma DropStep(h: HandoffId, c: seq<Attempt>, r: Attempt, hd: Handoff, receipts: map<JobId, Receipt>)
    requires HandoffInv(h, c, hd, receipts, true) && c != []
    requires c[|c| - 1].status.Queued? && SameAttempt(c[|c| - 1], r) && r.status.Failed? && r.phase.Finished?
    ensures LastUncertain(c).Some? ==> LastUncertain(c).value.job in receipts
    ensures var u := LastUncertain(c);
            HandoffInv(h, WithLast(c, r),
                       CancelledHandoff(hd, if u.Some? then Some(receipts[u.value.job]) else None), receipts, true)
  {
    WithLastShape(h, c, r);
    LastUncertainPrefix(c, r);
    UncertainHasReceipt(h, c, hd, receipts);
    assert WithLast(c, r)[|c| - 1] == r;
  }
}
