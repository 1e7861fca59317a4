/**
 The independent checker: it trusts no status column, re-derives what happened to a message
 from its attempts and their receipts, and rejects whatever does not fit together. It agrees
 with the queue in every reachable state.
 */
module History {
  import opened DeliveryTypes
  import opened RetryGuard
  import opened Queue
  import opened Chains
  import opened QueueQueries
  import World
  import Safety

  const MAX_HISTORY_ENTRIES: nat := 500

  datatype EntryStatus = Unresolved | PendingRetry | SmtpAccepted | FailedNotSent | UncertainResult

  /** One verified receipt of the chain. */
  datatype Item = Item(job: JobId, sha: Digest, status: EntryStatus, number: int, occurred: Instant)

  datatype PendingAttempt = PendingAttempt(number: int, sending: bool, due: Option<Instant>)

  datatype Entry = Entry(
    handoff: HandoffId,
    status: EntryStatus,
    receipt: Option<JobId>,
    sha: Option<Digest>,
    occurred: Option<Instant>,
    pending: Option<PendingAttempt>,
    items: seq<Item>)

  /** SELECT ... WHERE handoff_id=? ORDER BY attempt_number. */
  ghost predicate Listing(t: Tables, h: HandoffId, rows: seq<Attempt>) {
    && (forall a :: a in rows <==> a in t.attempts && OfHandoff(a, h))
    && (forall i, j :: 0 <= i < j < |rows| ==> rows[i].number < rows[j].number)
  }

  // ---------------------------------------------------------------- the receipts of a chain

  predicate SameMessage(a: Attempt, b: Attempt) {
    && a.message.mime == b.message.mime && a.message.envelope == b.message.envelope
    && a.message.messageId == b.message.messageId
  }

  function OutcomeName(s: Status): EntryStatus {
    match s
    case Failed => FailedNotSent
    case Uncertain => UncertainResult
    case Accepted => SmtpAccepted
    case _ => Unresolved
  }

  /** Row k continues the chain and left a receipt that matches it in every field. */
  predicate RowProven(t: Tables, h: HandoffId, hd: Handoff, rows: seq<Attempt>, k: nat)
    requires k < |rows|
  {
    var row := rows[k];
    && row.number == k + 1
    && row.parent == (if k == 0 then None else Some(rows[k - 1].job))
    && SameMessage(row, rows[0])
    && row.job in t.receipts && row.phase.Finished?
    && ReceiptFits(row, h, hd, t.receipts[row.job])
    && !OutcomeName(row.status).Unresolved?
  }

  predicate AcceptedBefore(rows: seq<Attempt>, k: nat)
    requires k <= |rows|
  {
    exists j :: 0 <= j < k && rows[j].status.Accepted?
  }

  /** The first n rows are a chain of proofs in which nothing follows an acceptance. */
  predicate Proven(t: Tables, h: HandoffId, hd: Handoff, rows: seq<Attempt>, n: nat)
    requires n <= |rows|
  {
    && (forall k :: 0 <= k < n ==> RowProven(t, h, hd, rows, k))
    && Receipted(t.receipts, rows, n)
    && (forall j :: 0 <= j < n - 1 ==> !rows[j].status.Accepted?)
  }

  function ItemOf(receipts: map<JobId, Receipt>, row: Attempt, number: int): Item
    requires row.job in receipts
  {
    Item(row.job, Sha256(receipts[row.job]), OutcomeName(row.status), number, receipts[row.job].occurred)
  }

  predicate Receipted(receipts: map<JobId, Receipt>, rows: seq<Attempt>, n: nat)
    requires n <= |rows|
  {
    forall k :: 0 <= k < n ==> rows[k].job in receipts
  }

  function Items(receipts: map<JobId, Receipt>, rows: seq<Attempt>, n: nat): (r: seq<Item>)
    requires n <= |rows| && Receipted(receipts, rows, n)
    ensures |r| == n
    ensures forall k :: 0 <= k < n ==> r[k] == ItemOf(receipts, rows[k], k + 1)
  {
    if n == 0 then [] else Items(receipts, rows, n - 1) + [ItemOf(receipts, rows[n - 1], n)]
  }

  predicate UncertainBefore(rows: seq<Attempt>, k: nat)
    requires k <= |rows|
  {
    exists j :: 0 <= j < k && rows[j].status.Uncertain?
  }

  /** A failure may not hide an uncertain attempt at or before row n. */
  predicate HidesUncertain(rows: seq<Attempt>, n: nat)
    requires n < |rows|
  {
    rows[n].status.Failed? && UncertainBefore(rows, n + 1)
  }

  /** The verified receipts up to the current one. */
  function RetryReceipts(t: Tables, h: HandoffId, hd: Handoff, rows: seq<Attempt>, current: JobId, strict: bool)
    : Result<seq<Item>>
  {
    var n := Find(rows, current);
    if |rows| > MAX_HISTORY_ENTRIES || n == |rows| || !Proven(t, h, hd, rows, n + 1)
       || (strict && HidesUncertain(rows, n))
    then Err
    else Ok(Items(t.receipts, rows, n + 1))
  }

  method VerifiedRetryReceipts(t: Tables, h: HandoffId, hd: Handoff, rows: seq<Attempt>, current: JobId, strict: bool)
    returns (r: Result<seq<Item>>)
    ensures r == RetryReceipts(t, h, hd, rows, current, strict)
  {
    if |rows| > MAX_HISTORY_ENTRIES {
      return Err;
    }
    var chain: seq<Item> := [];
    var previous: Option<JobId> := None;
    var n := 0;
    while n < |rows|
      invariant 0 <= n <= |rows|
      invariant forall j :: 0 <= j < n ==> rows[j].job != current
      invariant Proven(t, h, hd, rows, n) && chain == Items(t.receipts, rows, n)
      invariant previous == if n == 0 then None else Some(rows[n - 1].job)
    {
      var item := CheckRow(t, h, hd, rows, n, previous, chain);
      if item.None? {
        RefusedAt(t, h, hd, rows, current, strict, n);
        return Err;
      }
      chain := chain + [item.value];
      if rows[n].job == current {
        FirstAt(rows, current, n);
        r := Conclude(t, h, hd, rows, current, strict, chain);
        return;
      }
      previous := Some(rows[n].job);
      n := n + 1;
    }
    return Err;
  }

  /** The current receipt is reached: its outcome may not discard an uncertain one. */
  method Conclude(t: Tables, h: HandoffId, hd: Handoff, rows: seq<Attempt>, current: JobId, strict: bool, chain: seq<Item>)
    returns (r: Result<seq<Item>>)
    requires var n := Find(rows, current);
             n < |rows| <= MAX_HISTORY_ENTRIES && Proven(t, h, hd, rows, n + 1) && chain == Items(t.receipts, rows, n + 1)
    ensures r == RetryReceipts(t, h, hd, rows, current, strict)
  {
    ghost var n := Find(rows, current);
    ItemsShow(t.receipts, rows, n + 1);
    assert RowProven(t, h, hd, rows, n) && chain[|chain| - 1].status.FailedNotSent? <==> rows[n].status.Failed?;
    if strict && chain[|chain| - 1].status.FailedNotSent? && AnyItem(chain, UncertainResult) {
      return Err;
    }
    return Ok(chain);
  }

  lemma RefusedAt(t: Tables, h: HandoffId, hd: Handoff, rows: seq<Attempt>, current: JobId, strict: bool, n: nat)
    requires n < |rows| && !Proven(t, h, hd, rows, n + 1)
    requires forall j :: 0 <= j < n ==> rows[j].job != current
    ensures RetryReceipts(t, h, hd, rows, current, strict) == Err
  {
    assert Find(rows, current) >= n;
  }

  lemma FirstAt(rows: seq<Attempt>, job: JobId, n: nat)
    requires n < |rows| && rows[n].job == job
    requires forall j :: 0 <= j < n ==> rows[j].job != job
    ensures Find(rows, job) == n
  {
  }

  /** The body of the loop: the identity checks, the receipt checks and the state checks. */
  method CheckRow(t: Tables, h: HandoffId, hd: Handoff, rows: seq<Attempt>, n: nat, previous: Option<JobId>,
                  chain: seq<Item>) returns (item: Option<Item>)
    requires n < |rows| && Proven(t, h, hd, rows, n) && chain == Items(t.receipts, rows, n)
    requires previous == if n == 0 then None else Some(rows[n - 1].job)
    ensures item.Some? <==> Proven(t, h, hd, rows, n + 1)
    ensures item.Some? ==> RowProven(t, h, hd, rows, n) && item.value == ItemOf(t.receipts, rows[n], n + 1)
    ensures item.Some? ==> chain + [item.value] == Items(t.receipts, rows, n + 1)
  {
    var row := rows[n];
    assert Proven(t, h, hd, rows, n + 1) ==> RowProven(t, h, hd, rows, n);
    if row.number != n + 1 || row.parent != previous || !SameMessage(row, rows[0]) {
      return None;
    }
    if row.job !in t.receipts || !row.phase.Finished? {
      return None;
    }
    if !ReceiptFits(row, h, hd, t.receipts[row.job]) {
      return None;
    }
    ItemsShow(t.receipts, rows, n);
    if OutcomeName(row.status).Unresolved? || AnyItem(chain, SmtpAccepted) {
      return None;
    }
    return Some(ItemOf(t.receipts, row, n + 1));
  }

  predicate AnyItem(chain: seq<Item>, status: EntryStatus) {
    exists k :: 0 <= k < |chain| && chain[k].status == status
  }

  lemma ItemsShow(receipts: map<JobId, Receipt>, rows: seq<Attempt>, n: nat)
    requires n <= |rows| && Receipted(receipts, rows, n)
    ensures AcceptedBefore(rows, n) <==> AnyItem(Items(receipts, rows, n), SmtpAccepted)
    ensures UncertainBefore(rows, n) <==> AnyItem(Items(receipts, rows, n), UncertainResult)
  {
    var chain := Items(receipts, rows, n);
    forall k | 0 <= k < n ensures chain[k].status == OutcomeName(rows[k].status) {
      assert chain[k] == ItemOf(receipts, rows[k], k + 1);
    }
    hide Items;
    if AcceptedBefore(rows, n) {
      var k :| 0 <= k < n && rows[k].status.Accepted?;
      assert chain[k].status == SmtpAccepted;
    }
    if UncertainBefore(rows, n) {
      var k :| 0 <= k < n && rows[k].status.Uncertain?;
      assert chain[k].status == UncertainResult;
    }
    if AnyItem(chain, SmtpAccepted) {
      var k :| 0 <= k < |chain| && chain[k].status == SmtpAccepted;
      assert rows[k].status.Accepted?;
    }
    if AnyItem(chain, UncertainResult) {
      var k :| 0 <= k < |chain| && chain[k].status == UncertainResult;
      assert rows[k].status.Uncertain?;
    }
  }

  // ---------------------------------------------------------------- a pending retry

  function Pendings(rows: seq<Attempt>): seq<Attempt> {
    if rows == [] then []
    else Pendings(rows[..|rows| - 1]) + (if Pending(rows[|rows| - 1]) then [rows[|rows| - 1]] else [])
  }

  /** The number of the parent, when that is an attempt of the same handoff. */
  function ParentNumber(rows: seq<Attempt>, a: Attempt): Option<int> {
    if a.parent.None? then None
    else
      var p := Find(rows, a.parent.value);
      if p == |rows| then None else Some(rows[p].number)
  }

  /** `Ok(None)` when no retry is pending. */
  function PendingEntry(t: Tables, h: HandoffId, hd: Handoff, rows: seq<Attempt>): Result<Option<Entry>> {
    var pending := Pendings(rows);
    if |pending| == 0 || (|pending| == 1 && pending[0].number == 1) then Ok(None)
    else if |pending| != 1 then Err
    else
      var row := pending[0];
      var parent := ParentNumber(rows, row);
      if rows[0].number != 1 || !SameMessage(row, rows[0]) || parent.None? || row.number != parent.value + 1 then Err
      else if row.parent.value !in t.receipts then Err
      else
        match RetryReceipts(t, h, hd, rows, row.parent.value, false)
        case Err => Err
        case Ok(chain) =>
          if chain == [] || chain[|chain| - 1].status.SmtpAccepted? then Err
          else Ok(Some(Entry(h, PendingRetry, None, None, None,
                             Some(PendingAttempt(row.number, row.status.Sending?, row.due)), chain)))
  }

  // ---------------------------------------------------------------- one message

  /** Handoff and receipt statuses are compared as text. */
  predicate SameName(s: Status, hs: HandoffStatus) {
    match s
    case Queued => hs.QueuedH?
    case Failed => hs.FailedH?
    case Uncertain => hs.UncertainH?
    case Accepted => hs.AcceptedH?
    case _ => false
  }

  /** The receipt the handoff names is the one it was marked with, and its attempt agrees. */
  predicate ReceiptBound(h: HandoffId, hd: Handoff, rows: seq<Attempt>, receipt: Receipt) {
    && hd.trusted
    && receipt.handoff == h && receipt.idempotencyKey == hd.idempotencyKey && receipt.requestSha == hd.requestSha
    && hd.externalStatus == Some(receipt.status) && SameName(receipt.status, hd.status)
    && hd.receiptSha == Some(Sha256(receipt))
    && var i := Find(rows, receipt.job);
    && i < |rows| && rows[i].status == receipt.status && rows[i].phase.Finished?
    && !OutcomeName(receipt.status).Unresolved?
  }

  function UnresolvedEntry(h: HandoffId): Entry {
    Entry(h, Unresolved, None, None, None, None, [])
  }

  /** The delivery part of `_verified_message`; the composition is bound elsewhere. */
  function VerifiedMessage(t: Tables, h: HandoffId, hd: Handoff, rows: seq<Attempt>): Result<Entry> {
    match PendingEntry(t, h, hd, rows)
    case Err => Err
    case Ok(Some(entry)) => Ok(entry)
    case Ok(None) =>
      if hd.receipt.None? || hd.receipt.value !in t.receipts then Ok(UnresolvedEntry(h))
      else
        var receipt := t.receipts[hd.receipt.value];
        if !ReceiptBound(h, hd, rows, receipt) then Err
        else
          match RetryReceipts(t, h, hd, rows, hd.receipt.value, true)
          case Err => Err
          case Ok(chain) =>
            Ok(Entry(h, OutcomeName(receipt.status), hd.receipt, hd.receiptSha, Some(receipt.occurred),
                     None, if |chain| > 1 then chain else []))
  }

  /** Row k continues the rows before it with the same message, and its receipt says the same in every field. */
  ghost predicate RowBacked(t: Tables, h: HandoffId, hd: Handoff, rows: seq<Attempt>, k: nat)
    requires k < |rows|
  {
    && rows[k].number == k + 1
    && (if k == 0 then rows[k].parent.None? else rows[k].parent == Some(rows[k - 1].job))
    && rows[k].message.messageId == rows[0].message.messageId
    && rows[k].message.mime == rows[0].message.mime && rows[k].message.envelope == rows[0].message.envelope
    && rows[k].phase.Finished?
    && (rows[k].status.Accepted? || rows[k].status.Failed? || rows[k].status.Uncertain?)
    && rows[k].job in t.receipts
    && var r := t.receipts[rows[k].job];
    && r.job == rows[k].job && r.handoff == h && r.idempotencyKey == hd.idempotencyKey && r.requestSha == hd.requestSha
    && r.status == rows[k].status && r.messageId == rows[k].message.messageId
  }

  /** The first n rows are backed, and nothing before the last of them was accepted. */
  ghost predicate Backed(t: Tables, h: HandoffId, hd: Handoff, rows: seq<Attempt>, n: nat) {
    && n <= |rows| <= 500
    && (forall k :: 0 <= k < n ==> RowBacked(t, h, hd, rows, k))
    && (forall k :: 0 <= k < n - 1 ==> !rows[k].status.Accepted?)
  }

  /** The items tell of each backed row, in order. */
  ghost predicate TellsOf(t: Tables, rows: seq<Attempt>, items: seq<Item>, n: nat) {
    && |items| == n <= |rows|
    && forall k :: 0 <= k < n ==>
         && rows[k].job in t.receipts
         && items[k] == Item(rows[k].job, Sha256(t.receipts[rows[k].job]),
                             if rows[k].status.Accepted? then SmtpAccepted
                             else if rows[k].status.Uncertain? then UncertainResult else FailedNotSent,
                             k + 1, t.receipts[rows[k].job].occurred)
  }

  lemma ProvenIsBacked(t: Tables, h: HandoffId, hd: Handoff, rows: seq<Attempt>, n: nat)
    requires n <= |rows| <= MAX_HISTORY_ENTRIES && Proven(t, h, hd, rows, n)
    ensures Backed(t, h, hd, rows, n) && TellsOf(t, rows, Items(t.receipts, rows, n), n)
  {
    forall k | 0 <= k < n
      ensures RowBacked(t, h, hd, rows, k)
      ensures rows[k].status.Accepted? || rows[k].status.Failed? || rows[k].status.Uncertain?
    {
      assert RowProven(t, h, hd, rows, k);
      ProvenRow(t, h, hd, rows, k);
    }
    hide RowBacked, RowProven;
    var items := Items(t.receipts, rows, n);
    forall k | 0 <= k < n ensures items[k] == ItemOf(t.receipts, rows[k], k + 1) {
    }
    hide Items;
  }

  lemma ProvenRow(t: Tables, h: HandoffId, hd: Handoff, rows: seq<Attempt>, k: nat)
    requires k < |rows| && RowProven(t, h, hd, rows, k)
    ensures RowBacked(t, h, hd, rows, k)
  {
  }

  /**
   Whatever the tables hold, corrupt ones included: a reported outcome is that of row n, whose
   receipt the handoff names, was marked with and still shows; that row and everything before
   it is backed, nothing before it was accepted, and a failure hides no uncertain attempt.
   */
  lemma {:induction false} NothingOnTrust(t: Tables, h: HandoffId, hd: Handoff, rows: seq<Attempt>, e: Entry, n: nat)
    requires VerifiedMessage(t, h, hd, rows) == Ok(e) && e.receipt.Some? && n == Find(rows, e.receipt.value)
    ensures n < |rows| && rows[n].job == e.receipt.value && Backed(t, h, hd, rows, n + 1)
    ensures e.status == if rows[n].status.Accepted? then SmtpAccepted
                        else if rows[n].status.Uncertain? then UncertainResult else FailedNotSent
    ensures rows[n].status.Failed? ==> forall k :: 0 <= k <= n ==> !rows[k].status.Uncertain?
    ensures hd.trusted && hd.receipt == e.receipt && hd.receiptSha == e.sha == Some(Sha256(t.receipts[rows[n].job]))
    ensures hd.externalStatus == Some(rows[n].status)
    ensures hd.status == if rows[n].status.Accepted? then AcceptedH else if rows[n].status.Uncertain? then UncertainH else FailedH
    ensures e.occurred == Some(t.receipts[rows[n].job].occurred) && e.pending.None?
    ensures if n == 0 then e.items == [] else TellsOf(t, rows, e.items, n + 1)
  {
    assert RetryReceipts(t, h, hd, rows, e.receipt.value, true).Ok?;
    assert RowProven(t, h, hd, rows, n);
    ProvenIsBacked(t, h, hd, rows, n + 1);
    hide Items, Pendings;
  }

  lemma {:induction false} OnePending(rows: seq<Attempt>, a: Attempt) returns (p: nat)
    requires Pendings(rows) == [a]
    ensures p < |rows| && rows[p] == a && Pending(a)
    ensures forall q :: 0 <= q < |rows| && q != p ==> !Pending(rows[q])
  {
    var n := |rows| - 1;
    if Pending(rows[n]) {
      p := n;
      assert (Pendings(rows[..n]) + [rows[n]])[|Pendings(rows[..n])|] == rows[n];
      NonePending(rows[..n]);
      assert forall q :: 0 <= q < n ==> rows[q] == rows[..n][q];
    } else {
      p := OnePending(rows[..n], a);
      assert forall q :: 0 <= q < n ==> rows[q] == rows[..n][q];
    }
  }

  lemma {:induction false} NonePending(rows: seq<Attempt>)
    requires Pendings(rows) == []
    ensures forall q :: 0 <= q < |rows| ==> !Pending(rows[q])
  {
    if rows != [] {
      NonePending(rows[..|rows| - 1]);
    }
  }

  /**
   A retry reported as pending is the only attempt in flight, follows a backed row that was not
   accepted, carries the same message, and is reported with every row up to that one.
   */
  lemma {:induction false} NoRetryOnTrust(t: Tables, h: HandoffId, hd: Handoff, rows: seq<Attempt>, e: Entry) returns (p: nat, n: nat)
    requires VerifiedMessage(t, h, hd, rows) == Ok(e) && e.status.PendingRetry?
    ensures p < |rows| && (rows[p].status.Queued? || rows[p].status.Sending?) && rows[p].number != 1
    ensures forall q :: 0 <= q < |rows| && q != p ==> !rows[q].status.Queued? && !rows[q].status.Sending?
    ensures n < |rows| && rows[p].parent == Some(rows[n].job) && rows[p].number == rows[n].number + 1
    ensures rows[p].message.messageId == rows[0].message.messageId
    ensures rows[p].message.mime == rows[0].message.mime && rows[p].message.envelope == rows[0].message.envelope
    ensures Backed(t, h, hd, rows, n + 1) && !rows[n].status.Accepted? && TellsOf(t, rows, e.items, n + 1)
    ensures e.receipt.None? && e.sha.None?
    ensures e.pending == Some(PendingAttempt(rows[p].number, rows[p].status.Sending?, rows[p].due))
  {
    var pending := Pendings(rows);
    assert |pending| == 1 ==> pending == [pending[0]];
    p := OnePending(rows, pending[0]);
    n := Find(rows, rows[p].parent.value);
    assert RetryReceipts(t, h, hd, rows, rows[p].parent.value, false).Ok?;
    assert RowProven(t, h, hd, rows, n);
    ProvenIsBacked(t, h, hd, rows, n + 1);
    hide Items, Pendings;
  }

  // ---------------------------------------------------------------- agreement with the queue

  /** What happened to the message, read off its chain alone. */
  ghost function Outcome(c: seq<Attempt>, receipts: map<JobId, Receipt>): EntryStatus {
    if c == [] then Unresolved
    else
      var last := c[|c| - 1];
      if Pending(last) then if |c| >= 2 then PendingRetry else Unresolved
      else if last.status.Accepted? then SmtpAccepted
      else if exists a :: a in c && a.status.Uncertain? then UncertainResult
      else if last.job in receipts then FailedNotSent
      else Unresolved
  }

  /** In a chain, ORDER BY attempt_number is the order of insertion. */
  lemma ListingIsChain(t: Tables, h: HandoffId, rows: seq<Attempt>)
    requires Shape(h, Chain(t.attempts, h)) && Listing(t, h, rows)
    ensures rows == Chain(t.attempts, h)
  {
    var c := Chain(t.attempts, h);
    if |rows| >= |c| {
      ListingPrefix(t, h, rows, |c|);
      if |rows| > |c| {
        ChainMembers(t.attempts, h, rows[|c|]);
      }
    } else {
      ListingPrefix(t, h, rows, |rows|);
      ChainMembers(t.attempts, h, c[|rows|]);
    }
  }

  lemma {:induction false} ListingPrefix(t: Tables, h: HandoffId, rows: seq<Attempt>, n: nat)
    requires Shape(h, Chain(t.attempts, h)) && Listing(t, h, rows)
    requires n <= |rows| && n <= |Chain(t.attempts, h)|
    ensures forall m :: 0 <= m < n ==> rows[m] == Chain(t.attempts, h)[m]
  {
    var c := Chain(t.attempts, h);
    if n > 0 {
      var k := n - 1;
      ListingPrefix(t, h, rows, k);
      ChainMembers(t.attempts, h, rows[k]);
      ChainMembers(t.attempts, h, c[k]);
      var i :| 0 <= i < |c| && c[i] == rows[k];
      var j :| 0 <= j < |rows| && rows[j] == c[k];
      assert i >= k && j >= k;
    }
  }

  /** Every terminal prefix of a chain is proven. */
  lemma ChainProven(t: Tables, h: HandoffId, c: seq<Attempt>, hd: Handoff, n: nat)
    requires Shape(h, c) && ReceiptRule(h, c, hd, t.receipts) && n <= |c|
    requires forall k :: 0 <= k < n ==> c[k].job in t.receipts
    ensures Proven(t, h, hd, c, n)
  {
    forall k | 0 <= k < n ensures RowProven(t, h, hd, c, k) {
      assert Linked(c, k);
      assert Terminal(c[k]) && ReceiptFits(c[k], h, hd, t.receipts[c[k].job]);
    }
  }

  lemma {:induction false} PendingsOf(h: HandoffId, c: seq<Attempt>, n: nat)
    requires Shape(h, c) && n <= |c|
    ensures Pendings(c[..n]) == if n == |c| && n > 0 && Pending(c[n - 1]) then [c[n - 1]] else []
  {
    if n > 0 {
      PendingsOf(h, c, n - 1);
      assert c[..n][..n - 1] == c[..n - 1];
      if n - 1 < |c| - 1 {
        assert !Pending(c[n - 1]);
      }
    }
  }

  lemma FindInChain(c: seq<Attempt>, k: nat)
    requires UniqueChain(c) && k < |c|
    ensures Find(c, c[k].job) == k
  {
  }

  lemma PendingRow(t: Tables, h: HandoffId, c: seq<Attempt>, hd: Handoff)
    requires HandoffInv(h, c, hd, t.receipts, CancelFlag(t, hd.run)) && UniqueChain(c)
    requires |c| >= 2 && Pending(c[|c| - 1])
    ensures var n := |c| - 1;
            && Pendings(c) == [c[n]] && c[n].number == |c| && c[0].number == 1 && SameMessage(c[n], c[0])
            && c[n].parent == Some(c[n - 1].job) && ParentNumber(c, c[n]) == Some(n)
  {
    PendingsOf(h, c, |c|);
    assert c[..|c|] == c;
    assert Linked(c, |c| - 1);
    FindInChain(c, |c| - 2);
  }

  lemma PendingChain(t: Tables, h: HandoffId, c: seq<Attempt>, hd: Handoff)
    requires HandoffInv(h, c, hd, t.receipts, CancelFlag(t, hd.run)) && UniqueChain(c)
    requires |c| >= 2 && Pending(c[|c| - 1])
    ensures c[|c| - 2].job in t.receipts
    ensures var r := RetryReceipts(t, h, hd, c, c[|c| - 2].job, false);
            && (r.Ok? <==> |c| <= MAX_HISTORY_ENTRIES)
            && (r.Ok? ==> |r.value| == |c| - 1 && !r.value[|c| - 2].status.SmtpAccepted?)
  {
    var n := |c| - 1;
    FindInChain(c, n - 1);
    ChainProven(t, h, c, hd, n);
    var chain := Items(t.receipts, c, n);
    assert RowProven(t, h, hd, c, n - 1);
    assert chain[n - 1] == ItemOf(t.receipts, c[n - 1], n);
  }

  /** A retry in flight is reported as such, with the whole proven chain behind it. */
  lemma PendingAgrees(t: Tables, h: HandoffId, c: seq<Attempt>, hd: Handoff)
    requires HandoffInv(h, c, hd, t.receipts, CancelFlag(t, hd.run)) && UniqueChain(c)
    requires |c| >= 2 && Pending(c[|c| - 1])
    ensures var r := PendingEntry(t, h, hd, c);
            && (r.Ok? <==> |c| <= MAX_HISTORY_ENTRIES)
            && (r.Ok? ==> r.value.Some? && r.value.value.handoff == h
                          && r.value.value.status.PendingRetry? && |r.value.value.items| == |c| - 1
                          && r.value.value.pending == Some(PendingAttempt(|c|, c[|c| - 1].status.Sending?, c[|c| - 1].due)))
  {
    PendingRow(t, h, c, hd);
    PendingChain(t, h, c, hd);
  }

  /** With nothing in flight, the governing receipt is found and verified. */
  lemma SettledAgrees(t: Tables, h: HandoffId, c: seq<Attempt>, hd: Handoff)
    requires HandoffInv(h, c, hd, t.receipts, CancelFlag(t, hd.run)) && UniqueChain(c)
    requires !Idle(c) && Governing(c, t.receipts).Some?
    ensures var r := VerifiedMessage(t, h, hd, c);
            var g := Governing(c, t.receipts).value;
            && !OutcomeName(g.status).Unresolved?
            && (r.Ok? <==> |c| <= MAX_HISTORY_ENTRIES)
            && hd.receipt == Some(g.job) && hd.receiptSha.Some?
            && (r.Ok? ==> r.value.handoff == h && r.value.receipt == Some(g.job) && r.value.sha == hd.receiptSha
                          && r.value.status == OutcomeName(g.status)
                          && g.job in t.receipts && r.value.sha == Some(Sha256(t.receipts[g.job])))
  {
    PendingsOf(h, c, |c|);
    assert c[..|c|] == c;
    var g := Governing(c, t.receipts).value;
    var k := GoverningAt(t, h, c, hd);
    FindInChain(c, k);
    ChainProven(t, h, c, hd, k + 1);
  }

  lemma GoverningAt(t: Tables, h: HandoffId, c: seq<Attempt>, hd: Handoff) returns (k: nat)
    requires HandoffInv(h, c, hd, t.receipts, CancelFlag(t, hd.run))
    requires !Idle(c) && Governing(c, t.receipts).Some?
    ensures k < |c| && c[k] == Governing(c, t.receipts).value
    ensures c[k].job in t.receipts && hd == Shown(hd, t.receipts[c[k].job])
    ensures ReceiptFits(c[k], h, hd, t.receipts[c[k].job]) && c[k].phase.Finished? && !OutcomeName(c[k].status).Unresolved?
    ensures forall j :: 0 <= j <= k ==> c[j].job in t.receipts
    ensures !HidesUncertain(c, k)
  {
    LastUncertainIs(c);
    if !c[|c| - 1].status.Accepted? && LastUncertain(c).Some? {
      k := LastUncertainAt(c);
    } else {
      k := |c| - 1;
    }
  }

  lemma OutcomeIsGoverning(h: HandoffId, c: seq<Attempt>, receipts: map<JobId, Receipt>)
    requires Shape(h, c) && !Idle(c)
    ensures var g := Governing(c, receipts);
            Outcome(c, receipts) == if g.None? then Unresolved else OutcomeName(g.value.status)
  {
    LastUncertainIs(c);
    assert c[|c| - 1] in c;
  }

  lemma ChainUnique(rows: seq<Attempt>, h: HandoffId)
    requires UniqueJobs(rows)
    ensures UniqueChain(Chain(rows, h))
    decreases |rows|
  {
    if rows != [] {
      var n := |rows| - 1;
      ChainUnique(rows[..n], h);
      forall a | a in Chain(rows[..n], h) ensures a.job != rows[n].job {
        ChainMembers(rows[..n], h, a);
        var i :| 0 <= i < n && rows[i] == a;
      }
    }
  }

  lemma ChainAgrees(t: Tables, h: HandoffId, c: seq<Attempt>, hd: Handoff)
    requires HandoffInv(h, c, hd, t.receipts, CancelFlag(t, hd.run)) && UniqueChain(c)
    ensures Agrees(t, h, c, hd)
  {
    hide RetryReceipts, ReceiptBound, Pendings, AckRule, ReceiptRule, CancelRule;
    if |c| >= 2 && Pending(c[|c| - 1]) {
      PendingAgrees(t, h, c, hd);
    } else {
      PendingsOf(h, c, |c|);
      assert c[..|c|] == c;
      if !Idle(c) {
        OutcomeIsGoverning(h, c, t.receipts);
        if Governing(c, t.receipts).Some? {
          SettledAgrees(t, h, c, hd);
        }
      }
    }
  }

  ghost predicate Agrees(t: Tables, h: HandoffId, c: seq<Attempt>, hd: Handoff) {
    var r := VerifiedMessage(t, h, hd, c);
    var outcome := Outcome(c, t.receipts);
    && (r.Ok? <==> |c| <= MAX_HISTORY_ENTRIES || outcome.Unresolved?)
    && (r.Ok? ==> r.value.handoff == h && r.value.status == outcome)
    && (r.Ok? && !outcome.PendingRetry? ==> r.value.receipt == hd.receipt && r.value.sha == hd.receiptSha)
  }

  /**
   The checker and the queue agree. A handoff with at most 500 attempts is never rejected,
   a longer one exactly when there is an outcome to report, and what is reported is the
   outcome of the chain, with the receipt the handoff is marked with.
   */
  lemma CheckerAgrees(w: World.World, h: HandoffId, rows: seq<Attempt>)
    requires Safety.Reachable(w) && h in w.t.handoffs && !w.t.handoffs[h].alert && Listing(w.t, h, rows)
    ensures var r := VerifiedMessage(w.t, h, w.t.handoffs[h], rows);
            var outcome := Outcome(Chain(w.t.attempts, h), w.t.receipts);
            && (r.Ok? <==> |rows| <= 500 || outcome.Unresolved?)
            && (r.Ok? ==> r.value.handoff == h && r.value.status == outcome)
            && (r.Ok? && !outcome.PendingRetry? ==>
                  r.value.receipt == w.t.handoffs[h].receipt && r.value.sha == w.t.handoffs[h].receiptSha)
  {
    Safety.ReachableInv(w);
    assert HandoffHolds(w.t, h);
    ListingIsChain(w.t, h, rows);
    ChainUnique(w.t.attempts, h);
    ChainAgrees(w.t, h, rows, w.t.handoffs[h]);
  }
}
