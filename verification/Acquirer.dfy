/**
 The second phase of the media budget: local files, receipts of the session and later
 fetches share its bytes and its file count, and the parts chosen for the message fit it.
 */
module Acquirer {
  import opened Acquisition
  import opened DeliveryTypes
  import opened Mime

  datatype Policy = Policy(limits: Limits, reserve: nat, headerBytes: nat, maxMessage: nat)

  datatype Scope = OfRecord | OfRun | Legacy

  datatype Role = Attachment | Inline | Evidence

  /** What the session says of a remote source: its bytes are already paid for. */
  datatype Paid = Paid(available: bool, size: nat)

  /** An artifact that passed the structural checks. */
  datatype Entry = Entry(
    source: Option<Source>,
    receipt: Option<Paid>,
    local: Option<nat>,
    scope: Scope,
    recordIds: set<int>,
    role: Role)

  /** How the world answers one entry: the guards besides bytes, a transfer under an allowance, the content checks. */
  datatype Answer = Answer(clear: bool, network: bool, fetch: nat -> Fetch, usable: bool)

  /** The fetcher keeps its promise whatever it is allowed; other exceptions end the whole phase. */
  ghost predicate Trusted(a: Answer) {
    forall allowance :: Honest(a.fetch(allowance), allowance) && !a.fetch(allowance).Raised?
  }

  // ---------------------------------------------------------------- what belongs in the message

  /** `known` is the set of all record ids of the research result. */
  predicate Wanted(e: Entry, known: set<int>, selected: set<int>, dedupe: bool) {
    && !(e.scope.OfRecord? && e.recordIds * selected == {})
    && !(e.scope.Legacy? && dedupe && known - selected != {} && !e.role.Evidence?)
  }

  // ---------------------------------------------------------------- the local files

  function LocalSize(e: Entry): nat {
    if e.source.None? && e.local.Some? then e.local.value else 0
  }

  function LocalBytes(entries: seq<Entry>): nat {
    if entries == [] then 0 else LocalBytes(entries[..|entries| - 1]) + LocalSize(entries[|entries| - 1])
  }

  /** Every original file is paid for before anything is fetched. */
  method ExistingFiles(entries: seq<Entry>, limits: Limits, reserved: nat) returns (total: Option<nat>)
    requires reserved <= limits.maxTotal
    ensures total.Some? <==> reserved + LocalBytes(entries) <= limits.maxTotal
    ensures total.Some? ==> total.value == reserved + LocalBytes(entries)
  {
    var sum, n := reserved, 0;
    while n < |entries|
      invariant 0 <= n <= |entries| && sum == reserved + LocalBytes(entries[..n]) <= limits.maxTotal
    {
      assert entries[..n + 1][..n] == entries[..n];
      var e := entries[n];
      if e.source.None? && e.local.Some? {
        if sum + e.local.value > limits.maxTotal {
          LocalGrows(entries, n + 1);
          return None;
        }
        sum := sum + e.local.value;
      }
      n := n + 1;
    }
    assert entries[..n] == entries;
    total := Some(sum);
  }

  lemma {:induction false} LocalGrows(entries: seq<Entry>, n: nat)
    requires n <= |entries|
    ensures LocalBytes(entries[..n]) <= LocalBytes(entries)
  {
    if n < |entries| {
      LocalGrows(entries[..|entries| - 1], n);
      assert entries[..|entries| - 1][..n] == entries[..n];
    } else {
      assert entries[..n] == entries;
    }
  }

  function LocalCount(entries: seq<Entry>): nat {
    if entries == [] then 0
    else LocalCount(entries[..|entries| - 1]) + (if entries[|entries| - 1].source.None? then 1 else 0)
  }

  // ---------------------------------------------------------------- one entry

  /** Totals after some entries; `fetches` and `moved` are only counted here. */
  datatype Tally = Tally(total: nat, count: nat, fetches: nat, moved: nat)

  /** The content of one entry, once it is at hand. */
  datatype Obtained = Obtained(tally: Tally, size: Option<nat>)

  predicate Fetches(p: Policy, e: Entry, a: Answer, message: nat, t: Tally) {
    && e.source.Some? && e.receipt.None? && a.clear
    && t.count < p.limits.maxFiles && a.network && t.total <= p.limits.maxTotal
    && Affordable(e.source.value, p.limits.maxTotal - t.total)
    && (e.source.value.Pdf? ==> message + PartBytes(e.source.value.size, p.headerBytes) <= p.maxMessage)
  }

  /** The answer to the request an entry makes when it is its turn. */
  function Transferred(p: Policy, e: Entry, a: Answer, t: Tally): Fetch
    requires e.source.Some? && t.total <= p.limits.maxTotal
  {
    a.fetch(Allowance(p.limits, e.source.value, p.limits.maxTotal - t.total))
  }

  predicate Arrives(p: Policy, e: Entry, a: Answer, message: nat, t: Tally) {
    Fetches(p, e, a, message, t) && Transferred(p, e, a, t).Body? && Transferred(p, e, a, t).usable
  }

  /** What a transfer costs: what arrived, or what was reported, or its whole allowance when that is in doubt. */
  function Bill(p: Policy, source: Source, f: Fetch, left: nat): nat {
    match f
    case Body(length, _) => length
    case Raised(_) => 0
    case Refused(kind, reported, _) =>
      var charge := if kind.UncertainTransfer? || (kind.OtherError? && reported.None?)
                    then (if source.Pdf? then source.size else if left < p.limits.maxImage then left else p.limits.maxImage)
                    else if reported.Some? then reported.value else 0;
      if charge < left then charge else left
  }

  /** The totals after a request: an attempt to fetch counts as a file even if a guard stops it. */
  function After(p: Policy, e: Entry, a: Answer, message: nat, t: Tally): Tally
    requires e.source.Some? && t.total <= p.limits.maxTotal
  {
    if t.count >= p.limits.maxFiles then t
    else if !Fetches(p, e, a, message, t) then t.(count := t.count + 1)
    else
      var f := Transferred(p, e, a, t);
      Tally(t.total + Bill(p, e.source.value, f, p.limits.maxTotal - t.total), t.count + 1, t.fetches + 1, t.moved + Moved(f))
  }

  /** A later fetch: counted before it is made, and charged by what it moved or may have moved. */
  method FetchLater(p: Policy, e: Entry, a: Answer, message: nat, t: Tally) returns (r: Obtained)
    requires e.source.Some? && e.receipt.None? && a.clear && t.total <= p.limits.maxTotal && Trusted(a)
    ensures r.size == if Arrives(p, e, a, message, t) then Some(Transferred(p, e, a, t).length) else None
    ensures t.total <= r.tally.total <= p.limits.maxTotal
    ensures t.count <= r.tally.count <= t.count + 1 && (r.tally.count > t.count ==> t.count < p.limits.maxFiles)
    ensures Fetches(p, e, a, message, t) ==>
              r.tally.fetches == t.fetches + 1 && r.tally.count == t.count + 1
              && r.tally.moved == t.moved + Moved(Transferred(p, e, a, t))
    ensures !Fetches(p, e, a, message, t) ==>
              r.tally.fetches == t.fetches && r.tally.moved == t.moved && r.tally.total == t.total
    ensures r.tally.moved - t.moved <= r.tally.total - t.total
    ensures r.tally == After(p, e, a, message, t)
  {
    var source := e.source.value;
    if t.count >= p.limits.maxFiles {
      return Obtained(t, None);
    }
    var u := t.(count := t.count + 1);
    if !a.network {
      return Obtained(u, None);
    }
    var budget := p.limits.maxTotal - t.total;
    if !Affordable(source, budget) {
      return Obtained(u, None);
    }
    if source.Pdf? && message + PartBytes(source.size, p.headerBytes) > p.maxMessage {
      return Obtained(u, None);
    }
    var allowance := Allowance(p.limits, source, budget);
    var fetched := a.fetch(allowance);
    ghost var cost := Cost(p.limits, source, fetched, budget);
    u := u.(fetches := u.fetches + 1, moved := u.moved + Moved(fetched));
    match fetched
    case Body(length, usable) =>
      u := u.(total := u.total + length);
      return Obtained(u, if usable then Some(length) else None);
    case Refused(kind, reported, _) =>
      var charge := Charge(kind, reported, allowance);
      var left := if p.limits.maxTotal > u.total then p.limits.maxTotal - u.total else 0;
      u := u.(total := u.total + (if charge < left then charge else left));
      return Obtained(u, None);
  }

  /** Whether the bytes of an entry are at hand, and how many they are. */
  predicate AtHand(p: Policy, e: Entry, a: Answer, message: nat, t: Tally) {
    && a.clear
    && (if e.receipt.Some? then e.source.Some? && e.receipt.value.available
        else if e.source.Some? then Arrives(p, e, a, message, t)
        else e.local.Some?)
  }

  function SizeOf(p: Policy, e: Entry, a: Answer, message: nat, t: Tally): nat {
    if e.receipt.Some? then e.receipt.value.size
    else if e.source.Some? then if Arrives(p, e, a, message, t) then Transferred(p, e, a, t).length else 0
    else LocalSize(e)
  }

  method Obtain(p: Policy, e: Entry, a: Answer, message: nat, t: Tally) returns (r: Obtained)
    requires t.total <= p.limits.maxTotal && Trusted(a)
    requires e.receipt.Some? ==> e.source.Some?
    ensures r.size == if AtHand(p, e, a, message, t) then Some(SizeOf(p, e, a, message, t)) else None
    ensures t.total <= r.tally.total <= p.limits.maxTotal
    ensures t.count <= r.tally.count && (r.tally.count > t.count ==> r.tally.count <= p.limits.maxFiles)
    ensures r.tally.fetches - t.fetches == (if Fetches(p, e, a, message, t) then 1 else 0) <= r.tally.count - t.count
    ensures 0 <= r.tally.moved - t.moved <= r.tally.total - t.total
    ensures r.tally == if a.clear && e.source.Some? && e.receipt.None? then After(p, e, a, message, t) else t
  {
    if !a.clear {
      return Obtained(t, None);
    }
    if e.receipt.Some? {
      return Obtained(t, if e.receipt.value.available then Some(e.receipt.value.size) else None);
    }
    if e.source.Some? {
      r := FetchLater(p, e, a, message, t);
      return;
    }
    return Obtained(t, e.local);
  }

  // ---------------------------------------------------------------- the selection

  /** A part that goes into the message. */
  datatype Part = Part(index: nat, size: nat)

  function PartsBytes(p: Policy, chosen: seq<Part>): nat {
    if chosen == [] then 0
    else PartsBytes(p, chosen[..|chosen| - 1]) + PartBytes(chosen[|chosen| - 1].size, p.headerBytes)
  }

  lemma PartsAppend(p: Policy, chosen: seq<Part>, part: Part)
    ensures PartsBytes(p, chosen + [part]) == PartsBytes(p, chosen) + PartBytes(part.size, p.headerBytes)
  {
    assert (chosen + [part])[..|chosen|] == chosen;
  }

  predicate InOrder(chosen: seq<Part>) {
    forall i, j :: 0 <= i < j < |chosen| ==> chosen[i].index < chosen[j].index
  }

  /** Why an entry is or is not in the message, given the totals when it was its turn. */
  datatype Turn = Turn(message: nat, tally: Tally)

  function TurnSize(p: Policy, e: Entry, a: Answer, turn: Turn): nat {
    SizeOf(p, e, a, turn.message, turn.tally)
  }

  predicate Eligible(p: Policy, e: Entry, a: Answer, turn: Turn, wanted: bool) {
    wanted && !e.role.Evidence? && AtHand(p, e, a, turn.message, turn.tally) && a.usable
  }

  predicate Chosen(chosen: seq<Part>, index: nat) {
    exists k :: 0 <= k < |chosen| && chosen[k].index == index
  }

  /** Entry n is chosen exactly when it is eligible and still fits. */
  ghost predicate Decided(p: Policy, entries: seq<Entry>, answers: seq<Answer>, wanted: seq<bool>,
                          turns: seq<Turn>, chosen: seq<Part>, n: nat)
    requires n < |entries| == |answers| == |wanted| && n < |turns|
  {
    Chosen(chosen, n) <==>
      && Eligible(p, entries[n], answers[n], turns[n], wanted[n])
      && turns[n].message + PartBytes(TurnSize(p, entries[n], answers[n], turns[n]), p.headerBytes) <= p.maxMessage
  }

  ghost predicate Within(p: Policy, t0: Tally, t: Tally) {
    && t.total <= p.limits.maxTotal && t.count <= Max(t0.count, p.limits.maxFiles)
    && t.fetches - t0.fetches <= t.count - t0.count
    && 0 <= t.moved - t0.moved <= t.total - t0.total
  }

  /** Each chosen part has the size its entry had at its turn. */
  ghost predicate SizesFit(p: Policy, entries: seq<Entry>, answers: seq<Answer>, turns: seq<Turn>, chosen: seq<Part>) {
    |turns| <= |entries| == |answers| &&
    forall k :: 0 <= k < |chosen| ==>
      && chosen[k].index < |turns|
      && var i := chosen[k].index; chosen[k].size == TurnSize(p, entries[i], answers[i], turns[i])
  }

  /** Only a wanted source that nobody fetched before costs anything now. */
  function Next(p: Policy, e: Entry, a: Answer, wanted: bool, turn: Turn): Tally
    requires turn.tally.total <= p.limits.maxTotal
  {
    if a.clear && e.source.Some? && e.receipt.None? && wanted then After(p, e, a, turn.message, turn.tally) else turn.tally
  }

  /** The totals of every turn follow from those of the turn before. */
  ghost predicate Billed(p: Policy, entries: seq<Entry>, answers: seq<Answer>, wanted: seq<bool>, t0: Tally,
                         turns: seq<Turn>, t: Tally)
    requires |turns| <= |entries| == |answers| == |wanted|
  {
    && (forall m :: 0 <= m < |turns| ==> turns[m].tally.total <= p.limits.maxTotal)
    && (if turns == [] then t == t0 else turns[0].tally == t0)
    && (forall m, n :: 0 <= m && n == m + 1 < |turns| ==> turns[n].tally == Next(p, entries[m], answers[m], wanted[m], turns[m]))
    && (turns != [] ==> var m := |turns| - 1; t == Next(p, entries[m], answers[m], wanted[m], turns[m]))
  }

  /** The message at every turn holds the parts chosen before it, and no other. */
  ghost predicate Totalled(p: Policy, turns: seq<Turn>, chosen: seq<Part>) {
    forall m :: 0 <= m < |turns| ==> TotalAt(p, turns[m].message, chosen, m)
  }

  ghost predicate TotalAt(p: Policy, message: nat, chosen: seq<Part>, m: nat) {
    exists c :: 0 <= c <= |chosen| && message == p.reserve + PartsBytes(p, chosen[..c])
      && (forall k :: 0 <= k < c ==> chosen[k].index < m) && (forall k :: c <= k < |chosen| ==> chosen[k].index >= m)
  }

  lemma BilledStep(p: Policy, entries: seq<Entry>, answers: seq<Answer>, wanted: seq<bool>, t0: Tally,
                   turns: seq<Turn>, t: Tally, turn: Turn, t': Tally)
    requires |turns| < |entries| == |answers| == |wanted| && Billed(p, entries, answers, wanted, t0, turns, t)
    requires turn.tally == t && t.total <= p.limits.maxTotal
    requires t' == Next(p, entries[|turns|], answers[|turns|], wanted[|turns|], turn)
    ensures Billed(p, entries, answers, wanted, t0, turns + [turn], t')
  {
    hide Next;
  }

  /** Choosing a part with the newest index leaves the earlier totals as they were. */
  lemma TotalledStep(p: Policy, turns: seq<Turn>, chosen: seq<Part>, turn: Turn, more: seq<Part>)
    requires Totalled(p, turns, chosen) && turn.message == p.reserve + PartsBytes(p, chosen)
    requires forall k :: 0 <= k < |chosen| ==> chosen[k].index < |turns|
    requires more == chosen || (|more| == |chosen| + 1 && more[..|chosen|] == chosen && more[|chosen|].index == |turns|)
    ensures Totalled(p, turns + [turn], more)
  {
    hide TotalAt, PartsBytes;
    TotalNow(p, turn.message, chosen, |turns|);
    var next := turns + [turn];
    forall m | 0 <= m < |next| ensures TotalAt(p, next[m].message, more, m) {
      assert m < |turns| ==> next[m] == turns[m];
      assert TotalAt(p, next[m].message, chosen, m);
      if more != chosen {
        TotalKept(p, next[m].message, chosen, more, m);
      }
    }
  }

  lemma TotalNow(p: Policy, message: nat, chosen: seq<Part>, m: nat)
    requires message == p.reserve + PartsBytes(p, chosen) && forall k :: 0 <= k < |chosen| ==> chosen[k].index < m
    ensures TotalAt(p, message, chosen, m)
  {
    assert chosen[..|chosen|] == chosen;
  }

  lemma TotalKept(p: Policy, message: nat, chosen: seq<Part>, more: seq<Part>, m: nat)
    requires TotalAt(p, message, chosen, m)
    requires |more| == |chosen| + 1 && more[..|chosen|] == chosen && more[|chosen|].index >= m
    ensures TotalAt(p, message, more, m)
  {
    hide PartsBytes;
    var c :| 0 <= c <= |chosen| && message == p.reserve + PartsBytes(p, chosen[..c])
             && (forall k :: 0 <= k < c ==> chosen[k].index < m) && (forall k :: c <= k < |chosen| ==> chosen[k].index >= m);
    assert more[..c] == chosen[..c];
    forall k | 0 <= k < |chosen| ensures more[k] == chosen[k] {
      assert more[k] == more[..|chosen|][k];
    }
  }

  /** What holds after the first |turns| entries. */
  ghost predicate Progress(p: Policy, entries: seq<Entry>, answers: seq<Answer>, wanted: seq<bool>, t0: Tally,
                           turns: seq<Turn>, t: Tally, chosen: seq<Part>, message: nat)
  {
    && |turns| <= |entries| == |answers| == |wanted|
    && Within(p, t0, t)
    && message == p.reserve + PartsBytes(p, chosen) && (chosen != [] ==> message <= p.maxMessage)
    && InOrder(chosen)
    && SizesFit(p, entries, answers, turns, chosen)
    && AllDecided(p, entries, answers, wanted, turns, chosen, |turns|)
    && AllWithin(p, t0, turns, message)
  }

  ghost predicate AllDecided(p: Policy, entries: seq<Entry>, answers: seq<Answer>, wanted: seq<bool>,
                             turns: seq<Turn>, chosen: seq<Part>, n: nat)
    requires n <= |turns| <= |entries| == |answers| == |wanted|
  {
    forall m :: 0 <= m < n ==> Decided(p, entries, answers, wanted, turns, chosen, m)
  }

  /** The totals at every turn were within the limits, and the message only grew. */
  ghost predicate AllWithin(p: Policy, t0: Tally, turns: seq<Turn>, message: nat) {
    forall m :: 0 <= m < |turns| ==> Within(p, t0, turns[m].tally) && turns[m].message <= message
  }

  /** One more entry, chosen or not. */
  lemma Advance(p: Policy, entries: seq<Entry>, answers: seq<Answer>, wanted: seq<bool>, t0: Tally,
                turns: seq<Turn>, t: Tally, chosen: seq<Part>, message: nat, t': Tally, taken: bool)
    requires Progress(p, entries, answers, wanted, t0, turns, t, chosen, message) && |turns| < |entries|
    requires Within(p, t0, t')
    requires var n, turn := |turns|, Turn(message, t);
             taken <==> Eligible(p, entries[n], answers[n], turn, wanted[n])
                        && message + PartBytes(TurnSize(p, entries[n], answers[n], turn), p.headerBytes) <= p.maxMessage
    ensures var n, turn := |turns|, Turn(message, t);
            var size := TurnSize(p, entries[n], answers[n], turn);
            Progress(p, entries, answers, wanted, t0, turns + [turn], t',
                     if taken then chosen + [Part(n, size)] else chosen,
                     if taken then message + PartBytes(size, p.headerBytes) else message)
  {
    var n, turn := |turns|, Turn(message, t);
    var more := turns + [turn];
    hide PartBytes, TurnSize, Eligible, Decided, AllDecided, SizesFit, Within, InOrder;
    TurnAppend(p, entries, answers, wanted, turns, more, chosen);
    if taken {
      var part := Part(n, TurnSize(p, entries[n], answers[n], turn));
      PartsAppend(p, chosen, part);
      PartKept(p, entries, answers, wanted, more, chosen, part);
    } else {
      PartLeft(p, entries, answers, wanted, more, chosen);
    }
  }

  /** A new turn changes no earlier decision. */
  lemma TurnAppend(p: Policy, entries: seq<Entry>, answers: seq<Answer>, wanted: seq<bool>,
                   turns: seq<Turn>, more: seq<Turn>, chosen: seq<Part>)
    requires |more| == |turns| + 1 <= |entries| == |answers| == |wanted| && more[..|turns|] == turns
    requires SizesFit(p, entries, answers, turns, chosen)
    requires AllDecided(p, entries, answers, wanted, turns, chosen, |turns|)
    ensures SizesFit(p, entries, answers, more, chosen) && !Chosen(chosen, |turns|)
    ensures AllDecided(p, entries, answers, wanted, more, chosen, |turns|)
  {
    hide PartBytes, TurnSize, Eligible;
    forall m | 0 <= m < |turns| ensures more[m] == turns[m] && Decided(p, entries, answers, wanted, more, chosen, m) {
      assert more[m] == more[..|turns|][m];
      assert Decided(p, entries, answers, wanted, turns, chosen, m);
    }
  }

  /** The newest entry is chosen: it was eligible and fitted, and earlier decisions stand. */
  lemma PartKept(p: Policy, entries: seq<Entry>, answers: seq<Answer>, wanted: seq<bool>,
                 turns: seq<Turn>, chosen: seq<Part>, part: Part)
    requires 0 < |turns| <= |entries| == |answers| == |wanted| && part.index == |turns| - 1
    requires SizesFit(p, entries, answers, turns, chosen) && InOrder(chosen) && !Chosen(chosen, part.index)
    requires part.size == TurnSize(p, entries[part.index], answers[part.index], turns[part.index])
    requires Eligible(p, entries[part.index], answers[part.index], turns[part.index], wanted[part.index])
    requires turns[part.index].message + PartBytes(part.size, p.headerBytes) <= p.maxMessage
    requires AllDecided(p, entries, answers, wanted, turns, chosen, part.index)
    ensures SizesFit(p, entries, answers, turns, chosen + [part]) && InOrder(chosen + [part])
    ensures AllDecided(p, entries, answers, wanted, turns, chosen + [part], |turns|)
  {
    hide PartBytes, TurnSize, Eligible;
    var more := chosen + [part];
    forall k | 0 <= k < |chosen| ensures more[k] == chosen[k] && chosen[k].index < part.index {
      assert chosen[k].index == part.index ==> Chosen(chosen, part.index);
    }
    forall m | 0 <= m < |turns| ensures Decided(p, entries, answers, wanted, turns, more, m) {
      ChosenAppend(chosen, part, m);
      assert m < part.index ==> Decided(p, entries, answers, wanted, turns, chosen, m);
    }
  }

  /** The newest entry is left out. */
  lemma PartLeft(p: Policy, entries: seq<Entry>, answers: seq<Answer>, wanted: seq<bool>, turns: seq<Turn>, chosen: seq<Part>)
    requires 0 < |turns| <= |entries| == |answers| == |wanted| && !Chosen(chosen, |turns| - 1)
    requires var n := |turns| - 1;
             !(&& Eligible(p, entries[n], answers[n], turns[n], wanted[n])
               && turns[n].message + PartBytes(TurnSize(p, entries[n], answers[n], turns[n]), p.headerBytes) <= p.maxMessage)
    requires AllDecided(p, entries, answers, wanted, turns, chosen, |turns| - 1)
    ensures AllDecided(p, entries, answers, wanted, turns, chosen, |turns|)
  {
  }

  /**
   The loop of `acquire`, from the totals of the earlier phases. The bytes stay within the
   limit and cover what was moved; each fetch was counted against the file limit first;
   the message is its reserve plus exactly the chosen parts, and an entry that was wanted,
   available and usable is left out only when it no longer fitted at its turn.
   */
  method Select(p: Policy, entries: seq<Entry>, answers: seq<Answer>, wanted: seq<bool>, t0: Tally)
    returns (t: Tally, chosen: seq<Part>, message: nat, ghost turns: seq<Turn>)
    requires |entries| == |answers| == |wanted| && t0.total <= p.limits.maxTotal
    requires forall n :: 0 <= n < |entries| ==> Trusted(answers[n])
    requires forall n :: 0 <= n < |entries| && entries[n].receipt.Some? ==> entries[n].source.Some?
    ensures Within(p, t0, t) && InOrder(chosen)
    ensures message == p.reserve + PartsBytes(p, chosen) && (chosen != [] ==> message <= p.maxMessage)
    ensures |turns| == |entries| && AllWithin(p, t0, turns, message)
    ensures SizesFit(p, entries, answers, turns, chosen) && AllDecided(p, entries, answers, wanted, turns, chosen, |entries|)
    ensures Billed(p, entries, answers, wanted, t0, turns, t) && Totalled(p, turns, chosen)
  {
    hide PartBytes, PartsBytes, Arrives, SizeOf, Trusted, InOrder, Decided, SizesFit, Billed, Totalled, After;
    t, chosen, message, turns := t0, [], p.reserve, [];
    NothingYet(p, entries, answers, wanted, t0);
    var n := 0;
    while n < |entries|
      invariant 0 <= n <= |entries| && |turns| == n
      invariant Progress(p, entries, answers, wanted, t0, turns, t, chosen, message)
      invariant Billed(p, entries, answers, wanted, t0, turns, t) && Totalled(p, turns, chosen)
    {
      var e, a := entries[n], answers[n];
      var u, taken, size := t, false, 0;
      if !(e.source.Some? && !wanted[n]) {
        var r := Obtain(p, e, a, message, t);
        u := r.tally;
        if r.size.Some? && a.usable && wanted[n] && !e.role.Evidence? {
          size := r.size.value;
          taken := message + PartBytes(size, p.headerBytes) <= p.maxMessage;
        }
      }
      BilledStep(p, entries, answers, wanted, t0, turns, t, Turn(message, t), u);
      PartsSoFar(p, entries, answers, turns, chosen);
      TotalledStep(p, turns, chosen, Turn(message, t), if taken then chosen + [Part(n, size)] else chosen);
      Advance(p, entries, answers, wanted, t0, turns, t, chosen, message, u, taken);
      turns := turns + [Turn(message, t)];
      if taken {
        chosen := chosen + [Part(n, size)];
        message := message + PartBytes(size, p.headerBytes);
      }
      t := u;
      n := n + 1;
    }
  }

  lemma NothingYet(p: Policy, entries: seq<Entry>, answers: seq<Answer>, wanted: seq<bool>, t0: Tally)
    requires |entries| == |answers| == |wanted| && t0.total <= p.limits.maxTotal
    ensures Progress(p, entries, answers, wanted, t0, [], t0, [], p.reserve)
    ensures Billed(p, entries, answers, wanted, t0, [], t0) && Totalled(p, [], [])
  {
  }

  lemma PartsSoFar(p: Policy, entries: seq<Entry>, answers: seq<Answer>, turns: seq<Turn>, chosen: seq<Part>)
    requires SizesFit(p, entries, answers, turns, chosen)
    ensures forall k :: 0 <= k < |chosen| ==> chosen[k].index < |turns|
  {
  }

  lemma ChosenAppend(chosen: seq<Part>, part: Part, m: nat)
    ensures Chosen(chosen + [part], m) <==> Chosen(chosen, m) || m == part.index
  {
    var more := chosen + [part];
    assert more[|chosen|] == part;
    if k :| 0 <= k < |chosen| && chosen[k].index == m {
      assert more[k].index == m;
    }
  }

  // ---------------------------------------------------------------- both phases

  /** The session's record of a source becomes the entry's receipt. */
  function WithReceipt(e: Entry, records: seq<Record>): Entry {
    e.(receipt := if e.source.None? then None else ReceiptFor(e.source.value, records))
  }

  function ReceiptFor(source: Source, records: seq<Record>): Option<Paid> {
    if records == [] then None
    else if records[0].source == source then Some(Paid(records[0].status.Available?, records[0].charged))
    else ReceiptFor(source, records[1..])
  }

  lemma {:induction false} ReceiptAt(source: Source, records: seq<Record>, k: nat)
    requires k <= |records| && (k < |records| ==> records[k].source == source)
    requires forall j :: 0 <= j < k ==> records[j].source != source
    ensures ReceiptFor(source, records)
         == if k < |records| then Some(Paid(records[k].status.Available?, records[k].charged)) else None
  {
    if k > 0 {
      ReceiptAt(source, records[1..], k - 1);
    }
  }

  /** The loop over the prepared artifacts; a source described in two ways is refused. */
  method LookUp(session: Session, entries: seq<Entry>) returns (prepared: Option<seq<Entry>>)
    requires session.Valid()
    ensures prepared.Some? ==> |prepared.value| == |entries|
                               && forall n :: 0 <= n < |entries| ==> prepared.value[n] == WithReceipt(entries[n], session.records)
    ensures prepared.None? <==> exists n :: 0 <= n < |entries| && Disputed(entries[n], session.identities)
  {
    var done: seq<Entry> := [];
    var n := 0;
    while n < |entries|
      invariant 0 <= n == |done| <= |entries|
      invariant forall m :: 0 <= m < n ==> done[m] == WithReceipt(entries[m], session.records)
      invariant forall m :: 0 <= m < n ==> !Disputed(entries[m], session.identities)
    {
      var e := entries[n];
      if e.source.None? {
        done := done + [e.(receipt := None)];
      } else {
        if Disputed(e, session.identities) {
          return None;
        }
        var k := session.Known(e.source.value);
        ReceiptAt(e.source.value, session.records, k);
        var receipt := if k < |session.records|
                       then Some(Paid(session.records[k].status.Available?, session.records[k].charged)) else None;
        done := done + [e.(receipt := receipt)];
      }
      n := n + 1;
    }
    prepared := Some(done);
  }

  predicate Disputed(e: Entry, identities: map<Identity, Source>) {
    && e.source.Some? && IdentityOf(e.source.value) in identities
    && identities[IdentityOf(e.source.value)] != e.source.value
  }

  lemma {:induction false} SameLocals(a: seq<Entry>, b: seq<Entry>)
    requires |a| == |b| && forall n :: 0 <= n < |a| ==> a[n].source == b[n].source && a[n].local == b[n].local
    ensures LocalBytes(a) == LocalBytes(b) && LocalCount(a) == LocalCount(b)
  {
    if a != [] {
      SameLocals(a[..|a| - 1], b[..|b| - 1]);
    }
  }

  datatype Acquired = Acquired(tally: Tally, chosen: seq<Part>, message: nat)

  /** A record's media go with the record; media without a scope only when nothing was left out, unless they are evidence. */
  predicate Belongs(e: Entry, known: set<int>, selected: set<int>, dedupe: bool) {
    match e.scope
    case OfRun => true
    case OfRecord => exists id :: id in e.recordIds && id in selected
    case Legacy => !dedupe || e.role.Evidence? || forall id :: id in known ==> id in selected
  }

  lemma WantedIs(e: Entry, known: set<int>, selected: set<int>, dedupe: bool)
    ensures Wanted(e, known, selected, dedupe) <==> Belongs(e, known, selected, dedupe)
  {
    var both, left := e.recordIds * selected, known - selected;
    if forall id :: id !in both {
      assert both == {};
    }
    if forall id :: id !in left {
      assert left == {};
    }
    if id :| id in e.recordIds && id in selected {
      assert id in both;
    }
    if id :| id in known && id !in selected {
      assert id in left;
    }
  }

  /** The entries as the session knows them. */
  ghost function Prepared(entries: seq<Entry>, records: seq<Record>): (r: seq<Entry>)
    ensures |r| == |entries|
  {
    seq(|entries|, n requires 0 <= n < |entries| => WithReceipt(entries[n], records))
  }

  ghost function Belonging(entries: seq<Entry>, known: set<int>, selected: set<int>, dedupe: bool): (r: seq<bool>)
    ensures |r| == |entries|
  {
    seq(|entries|, n requires 0 <= n < |entries| => Belongs(entries[n], known, selected, dedupe))
  }

  /** Nothing before the selection stands in its way. */
  ghost predicate Admissible(p: Policy, session: Session, entries: seq<Entry>)
    reads session
  {
    && !session.failed
    && (forall n :: 0 <= n < |entries| && entries[n].source.Some? ==> !Contradicts(session.records, entries[n].source.value))
    && session.consumedCount + LocalCount(entries) <= p.limits.maxFiles
    && session.consumedBytes + LocalBytes(entries) <= p.limits.maxTotal
  }

  lemma NoDispute(session: Session, entries: seq<Entry>)
    requires session.Valid()
    ensures (exists n :: 0 <= n < |entries| && Disputed(entries[n], session.identities)) <==>
              exists n :: 0 <= n < |entries| && entries[n].source.Some? && Contradicts(session.records, entries[n].source.value)
  {
    hide Bound, Contradicts, IdentityOf;
    forall n | 0 <= n < |entries| && entries[n].source.Some?
      ensures Disputed(entries[n], session.identities) <==> Contradicts(session.records, entries[n].source.value)
    {
      ConflictIs(session.records, session.identities, entries[n].source.value);
    }
  }

  /** Entry by entry: the totals at its turn, what it cost, and whether it was chosen. */
  ghost predicate Selected(p: Policy, entries: seq<Entry>, answers: seq<Answer>, wanted: seq<bool>, t0: Tally,
                           turns: seq<Turn>, r: Acquired)
  {
    && |turns| == |entries| == |answers| == |wanted|
    && Billed(p, entries, answers, wanted, t0, turns, r.tally)
    && Totalled(p, turns, r.chosen)
    && SizesFit(p, entries, answers, turns, r.chosen)
    && AllDecided(p, entries, answers, wanted, turns, r.chosen, |turns|)
  }

  /**
   The whole budget. What the session was charged, the local files and the later fetches
   together stay within the byte limit, and that covers every byte really moved; the
   session's fetches, the local files and the later fetches stay within the file limit. A
   part is in the message exactly when it belongs there, was at hand and usable at its turn,
   and still fitted; `turns` are the totals each entry met.
   */
  method Acquire(p: Policy, session: Session, entries: seq<Entry>, answers: seq<Answer>, known: set<int>, selected: set<int>,
                 dedupe: bool) returns (r: Option<Acquired>, ghost turns: seq<Turn>)
    requires session.Valid() && session.limits == p.limits && |entries| == |answers|
    requires forall n :: 0 <= n < |entries| ==> Trusted(answers[n])
    ensures r.Some? <==> Admissible(p, session, entries)
    ensures r.Some? ==>
              && session.consumedBytes + LocalBytes(entries) <= r.value.tally.total <= p.limits.maxTotal
              && session.moved + LocalBytes(entries) + r.value.tally.moved <= r.value.tally.total
              && session.fetches + LocalCount(entries) + r.value.tally.fetches <= p.limits.maxFiles
    ensures r.Some? ==>
              && r.value.message == p.reserve + PartsBytes(p, r.value.chosen)
              && (r.value.chosen != [] ==> r.value.message <= p.maxMessage)
              && InOrder(r.value.chosen)
              && forall k :: 0 <= k < |r.value.chosen| ==>
                   var i := r.value.chosen[k].index;
                   i < |entries| && Belongs(entries[i], known, selected, dedupe) && !entries[i].role.Evidence?
    ensures r.Some? ==>
              Selected(p, Prepared(entries, session.records), answers, Belonging(entries, known, selected, dedupe),
                       Tally(session.consumedBytes + LocalBytes(entries), session.consumedCount + LocalCount(entries), 0, 0),
                       turns, r.value)
  {
    hide Billed, Totalled, SizesFit, AllDecided, Progress, PartsBytes, LocalBytes, LocalCount, InOrder, Contradicts,
         Bound, Charged, Wanted, Trusted;
    turns := [];
    NoDispute(session, entries);
    if session.failed {
      return None, [];
    }
    var prepared := LookUp(session, entries);
    if prepared.None? {
      return None, [];
    }
    SameLocals(prepared.value, entries);
    var count := session.consumedCount + LocalCount(prepared.value);
    if count > p.limits.maxFiles {
      return None, [];
    }
    var total := ExistingFiles(prepared.value, p.limits, session.consumedBytes);
    if total.None? {
      return None, [];
    }
    assert prepared.value == Prepared(entries, session.records);
    var wanted := seq(|entries|, n requires 0 <= n < |entries| => Wanted(entries[n], known, selected, dedupe));
    AllWanted(entries, known, selected, dedupe, wanted);
    var t, chosen, message;
    t, chosen, message, turns := Select(p, prepared.value, answers, wanted, Tally(total.value, count, 0, 0));
    ChosenAreWanted(p, prepared.value, answers, wanted, turns, chosen);
    r := Some(Acquired(t, chosen, message));
  }

  lemma AllWanted(entries: seq<Entry>, known: set<int>, selected: set<int>, dedupe: bool, wanted: seq<bool>)
    requires |wanted| == |entries| && forall n :: 0 <= n < |entries| ==> wanted[n] == Wanted(entries[n], known, selected, dedupe)
    ensures wanted == Belonging(entries, known, selected, dedupe)
  {
    forall n | 0 <= n < |entries| ensures wanted[n] == Belongs(entries[n], known, selected, dedupe) {
      WantedIs(entries[n], known, selected, dedupe);
    }
  }

  lemma ChosenAreWanted(p: Policy, entries: seq<Entry>, answers: seq<Answer>, wanted: seq<bool>, turns: seq<Turn>, chosen: seq<Part>)
    requires |turns| == |entries| == |answers| == |wanted|
    requires AllDecided(p, entries, answers, wanted, turns, chosen, |turns|) && SizesFit(p, entries, answers, turns, chosen)
    ensures forall k :: 0 <= k < |chosen| ==>
              chosen[k].index < |entries| && wanted[chosen[k].index] && !entries[chosen[k].index].role.Evidence?
  {
    forall k | 0 <= k < |chosen|
      ensures chosen[k].index < |entries| && wanted[chosen[k].index] && !entries[chosen[k].index].role.Evidence?
    {
      assert Chosen(chosen, chosen[k].index);
      assert Decided(p, entries, answers, wanted, turns, chosen, chosen[k].index);
    }
  }
}
