/**
 Reconciling a worker's own ledger against verified delivery evidence. The result is a list
 of suggested transitions; only the worker applies them.
 */
module Ledger {
  import opened DeliveryTypes
  import opened History

  /** What a message is about: the evidence never changes these fields of a ledger. */
  datatype Bodies = Bodies(html: Option<int>, text: Option<int>)

  datatype Binding = Binding(record: int, product: Option<int>)

  datatype Identity = Identity(
    task: Option<int>,
    series: Option<int>,
    run: Option<int>,
    revision: Option<int>,
    body: Option<Bodies>,
    bindings: Option<seq<Binding>>)

  /** The field names of ledgers written before series were bound. */
  datatype Legacy = Legacy(
    testSeries: Option<int>,
    bodies: Bodies,
    productMap: Option<map<int, int>>,
    includedIds: Option<seq<int>>,
    productKeys: Option<seq<int>>)

  datatype LedgerStatus = Known(status: EntryStatus) | Prepared | Other(text: int)

  datatype Message = Message(
    identity: Identity,
    legacy: Legacy,
    status: LedgerStatus,
    receipt: Option<JobId>,
    sha: Option<Digest>)

  /** A verified entry together with the composition it is bound to. */
  datatype Evidence = Evidence(identity: Identity, entry: Entry)

  /** A key-value pair of the ledger's messages object. */
  datatype Row = Row(key: int, wellFormed: bool, message: Message)

  datatype Update = Update(
    key: int,
    status: EntryStatus,
    receipt: Option<JobId>,
    sha: Option<Digest>,
    previous: Option<Item>)

  datatype Reason = PreviousDeliveryConflict | NoExactVerifiedMessage

  datatype Doubt = Doubt(key: int, reason: Reason)

  datatype Suggestions = Suggestions(updates: seq<Update>, unresolved: seq<Doubt>)

  // ---------------------------------------------------------------- exact matching

  function ProductMap(bindings: seq<Binding>): (m: map<int, int>)
    requires forall k :: 0 <= k < |bindings| ==> bindings[k].product.Some?
    ensures m.Keys == set k | 0 <= k < |bindings| :: bindings[k].record
  {
    if bindings == [] then map[]
    else
      var n := |bindings| - 1;
      ProductMap(bindings[..n])[bindings[n].record := bindings[n].product.value]
  }

  function BindingsOf(ev: Evidence): seq<Binding> {
    if ev.identity.bindings.Some? then ev.identity.bindings.value else []
  }

  /** The explicit aliases of an old ledger, fully materialised. */
  predicate LegacyMatch(identity: Identity, legacy: Legacy, ev: Evidence) {
    && identity.series.None? && identity.body.None? && identity.bindings.None?
    && var bindings := BindingsOf(ev);
    && (forall k :: 0 <= k < |bindings| ==> bindings[k].product.Some?)
    && var products := ProductMap(bindings);
    && identity.task == ev.identity.task && identity.run == ev.identity.run
    && identity.revision == ev.identity.revision
    && legacy.testSeries == ev.identity.series
    && Some(legacy.bodies) == ev.identity.body
    && legacy.productMap == Some(products)
    && legacy.includedIds.Some? && multiset(legacy.includedIds.value) == multiset(products.Keys)
    && legacy.productKeys.Some? && multiset(legacy.productKeys.value) == multiset(products.Values)
  }

  /** `matching_delivery_entry`: nothing short of every identity field will do. */
  predicate Matching(m: Message, ev: Evidence) {
    && m.identity.revision.Some?
    && !ev.entry.status.Unresolved?
    && (m.identity == ev.identity || LegacyMatch(m.identity, m.legacy, ev))
  }

  function Matches(m: Message, history: seq<Evidence>): (r: seq<Evidence>)
    ensures forall ev :: ev in r <==> ev in history && Candidate(m, ev) && Matching(m, ev)
  {
    if history == [] then []
    else
      var ev := history[|history| - 1];
      assert history == history[..|history| - 1] + [ev];
      Matches(m, history[..|history| - 1]) + (if Candidate(m, ev) && Matching(m, ev) then [ev] else [])
  }

  predicate Candidate(m: Message, ev: Evidence) {
    m.identity.run == ev.identity.run && m.identity.revision == ev.identity.revision
  }

  // ---------------------------------------------------------------- one message

  datatype Decision = Keep | Conflict | Move(status: EntryStatus, receipt: Option<JobId>, sha: Option<Digest>, previous: Option<Item>)

  /** The message already carries this receipt with this outcome. */
  predicate Carries(m: Message, item: Item) {
    m.receipt == Some(item.job) && m.sha == Some(item.sha) && m.status == Known(item.status)
  }

  predicate Open(s: LedgerStatus) {
    s.Prepared? || s == Known(PendingRetry) || s == Known(Unresolved)
  }

  /** A failed or uncertain attempt before the retry now in flight. */
  predicate BeforeRetry(m: Message, item: Item) {
    Carries(m, item) && (item.status.FailedNotSent? || item.status.UncertainResult?)
  }

  /** A failed attempt, or an uncertain one that a verified acceptance has overtaken. */
  predicate Overtaken(m: Message, item: Item, outcome: EntryStatus) {
    Carries(m, item) && (item.status.FailedNotSent? || (item.status.UncertainResult? && outcome.SmtpAccepted?))
  }

  /** The first of the items for which `p` holds. */
  function FirstItem(items: seq<Item>, p: Item -> bool): (r: Option<Item>)
    ensures r.Some? ==> r.value in items && p(r.value)
    ensures r.None? ==> forall i :: i in items ==> !p(i)
  {
    if items == [] then None
    else if p(items[0]) then Some(items[0])
    else
      assert items == [items[0]] + items[1..];
      FirstItem(items[1..], p)
  }

  function Earlier(items: seq<Item>): seq<Item> {
    if items == [] then [] else items[..|items| - 1]
  }

  function Decide(m: Message, e: Entry): Decision {
    if e.status.PendingRetry? then
      var prior := FirstItem(e.items, item => BeforeRetry(m, item));
      if prior.None? && !(m.receipt.None? && m.sha.None? && Open(m.status)) then Conflict
      else if m.status != Known(PendingRetry) || prior.Some? then Move(PendingRetry, None, None, prior)
      else Keep
    else if m.receipt == e.receipt && m.sha == e.sha && m.status == Known(e.status) then Keep
    else
      var previous := FirstItem(Earlier(e.items), item => Overtaken(m, item, e.status));
      if (m.receipt.Some? && m.receipt != e.receipt) || (m.sha.Some? && m.sha != e.sha)
         || !(Open(m.status) || m.status == Known(e.status))
      then if previous.None? then Conflict else Move(e.status, e.receipt, e.sha, previous)
      else Move(e.status, e.receipt, e.sha, previous)
  }

  /** What one row adds to the suggestions. */
  function RowResult(history: seq<Evidence>, row: Row): Suggestions {
    var matches := Matches(row.message, history);
    if |matches| == 1 then
      match Decide(row.message, matches[0].entry)
      case Keep => Suggestions([], [])
      case Conflict => Suggestions([], [Doubt(row.key, PreviousDeliveryConflict)])
      case Move(status, receipt, sha, previous) => Suggestions([Update(row.key, status, receipt, sha, previous)], [])
    else if Open(row.message.status) || row.message.status == Known(UncertainResult) then
      Suggestions([], [Doubt(row.key, NoExactVerifiedMessage)])
    else Suggestions([], [])
  }

  // ---------------------------------------------------------------- what a row is owed, field by field

  /** An old ledger spells the bindings out: the last product of each record, all records, all products. */
  ghost predicate SpeltOut(legacy: Legacy, bindings: seq<Binding>) {
    && (forall k :: 0 <= k < |bindings| ==> bindings[k].product.Some?)
    && legacy.productMap.Some?
    && var products := legacy.productMap.value;
    && (forall r :: r in products <==> exists k :: 0 <= k < |bindings| && bindings[k].record == r)
    && (forall k :: 0 <= k < |bindings| && LastOf(bindings, k) ==> products[bindings[k].record] == bindings[k].product.value)
    && legacy.includedIds.Some?
    && (forall r :: multiset(legacy.includedIds.value)[r] == if r in products then 1 else 0)
    && legacy.productKeys.Some?
    && (forall q :: multiset(legacy.productKeys.value)[q] == if exists r :: r in products && products[r] == q then 1 else 0)
  }

  ghost predicate LastOf(bindings: seq<Binding>, k: nat)
    requires k < |bindings|
  {
    forall j :: k < j < |bindings| ==> bindings[j].record != bindings[k].record
  }

  /** The entry is about this message: it agrees with it in every field of its identity. */
  ghost predicate Exact(m: Message, ev: Evidence) {
    && m.identity.revision.Some? && !ev.entry.status.Unresolved?
    && m.identity.task == ev.identity.task && m.identity.run == ev.identity.run && m.identity.revision == ev.identity.revision
    && (|| (&& m.identity.series == ev.identity.series && m.identity.body == ev.identity.body
            && m.identity.bindings == ev.identity.bindings)
        || (&& m.identity.series.None? && m.identity.body.None? && m.identity.bindings.None?
            && m.legacy.testSeries == ev.identity.series && Some(m.legacy.bodies) == ev.identity.body
            && SpeltOut(m.legacy, if ev.identity.bindings.Some? then ev.identity.bindings.value else [])))
  }

  ghost predicate OnlyExact(m: Message, history: seq<Evidence>, i: nat) {
    && i < |history| && Exact(m, history[i])
    && forall j :: 0 <= j < |history| && j != i ==> !Exact(m, history[j])
  }

  /** Item j is an earlier result that the entry supersedes, and the message still shows it. */
  ghost predicate Outdated(m: Message, e: Entry, j: nat)
    requires j < |e.items|
  {
    && m.receipt == Some(e.items[j].job) && m.sha == Some(e.items[j].sha) && m.status == Known(e.items[j].status)
    && (if e.status.PendingRetry? then e.items[j].status.FailedNotSent? || e.items[j].status.UncertainResult?
        else && j < |e.items| - 1
             && (e.items[j].status.FailedNotSent? || (e.items[j].status.UncertainResult? && e.status.SmtpAccepted?)))
  }

  /** The first such item, if there is one. */
  ghost predicate Supersedes(m: Message, e: Entry, p: Option<Item>) {
    if p.None? then forall j :: 0 <= j < |e.items| ==> !Outdated(m, e, j)
    else exists j :: 0 <= j < |e.items| && Outdated(m, e, j) && e.items[j] == p.value
                     && forall i :: 0 <= i < j ==> !Outdated(m, e, i)
  }

  /** Nothing the message says contradicts a final outcome. */
  ghost predicate Compatible(m: Message, e: Entry) {
    && (m.receipt.None? || m.receipt == e.receipt) && (m.sha.None? || m.sha == e.sha)
    && (m.status.Prepared? || m.status == Known(PendingRetry) || m.status == Known(Unresolved) || m.status == Known(e.status))
  }

  ghost predicate Fresh(m: Message) {
    && m.receipt.None? && m.sha.None?
    && (m.status.Prepared? || m.status == Known(PendingRetry) || m.status == Known(Unresolved))
  }

  ghost predicate Agreed(m: Message, e: Entry) {
    m.receipt == e.receipt && m.sha == e.sha && m.status == Known(e.status)
  }

  /** What the only exact entry asks for: `p` is the earlier result it supersedes. */
  ghost function Owed(key: int, m: Message, e: Entry, p: Option<Item>): Option<Update> {
    if e.status.PendingRetry? then
      if p.Some? || (Fresh(m) && m.status != Known(PendingRetry)) then Some(Update(key, PendingRetry, None, None, p)) else None
    else if !Agreed(m, e) && (p.Some? || Compatible(m, e)) then Some(Update(key, e.status, e.receipt, e.sha, p))
    else None
  }

  ghost predicate Contradicted(m: Message, e: Entry, p: Option<Item>) {
    && p.None?
    && if e.status.PendingRetry? then !Fresh(m) else !Agreed(m, e) && !Compatible(m, e)
  }

  /** The suggestions hold exactly this update for the key, and exactly these doubts. */
  ghost predicate Holds(s: Suggestions, key: int, u: Option<Update>, conflict: bool, missing: bool) {
    && (forall v :: v in s.updates && v.key == key <==> u == Some(v))
    && (Doubt(key, PreviousDeliveryConflict) in s.unresolved <==> conflict)
    && (Doubt(key, NoExactVerifiedMessage) in s.unresolved <==> missing)
  }

  /**
   A message with exactly one exact entry is moved, left or doubted as that entry says; any
   other message stays as it is, and is doubted when its own status is open or uncertain.
   */
  ghost predicate Answered(history: seq<Evidence>, row: Row, s: Suggestions) {
    var m := row.message;
    && (forall i: nat, p :: OnlyExact(m, history, i) && Supersedes(m, history[i].entry, p) ==>
          Holds(s, row.key, Owed(row.key, m, history[i].entry, p), Contradicted(m, history[i].entry, p), false))
    && ((forall i: nat :: !OnlyExact(m, history, i)) ==>
          Holds(s, row.key, None, false,
                || m.status.Prepared? || m.status == Known(PendingRetry) || m.status == Known(Unresolved)
                || m.status == Known(UncertainResult)))
  }

  lemma {:induction false} ProductMapIs(bindings: seq<Binding>, r: int, k: nat)
    requires forall k :: 0 <= k < |bindings| ==> bindings[k].product.Some?
    ensures r in ProductMap(bindings) <==> exists k :: 0 <= k < |bindings| && bindings[k].record == r
    ensures k < |bindings| && LastOf(bindings, k) ==> ProductMap(bindings)[bindings[k].record] == bindings[k].product.value
  {
    if bindings != [] {
      var n := |bindings| - 1;
      var init := bindings[..n];
      ProductMapIs(init, r, k);
      assert ProductMap(bindings) == ProductMap(init)[bindings[n].record := bindings[n].product.value];
      hide ProductMap;
      if k < n && LastOf(bindings, k) {
        assert LastOf(init, k) && init[k] == bindings[k];
      }
    }
  }

  /** For every record some binding is the last one. */
  lemma {:induction false} LastBinding(bindings: seq<Binding>, r: int, k: nat) returns (l: nat)
    requires k < |bindings| && bindings[k].record == r
    ensures k <= l < |bindings| && bindings[l].record == r && LastOf(bindings, l)
    decreases |bindings| - k
  {
    if j :| k < j < |bindings| && bindings[j].record == r {
      l := LastBinding(bindings, r, j);
    } else {
      l := k;
    }
  }

  lemma SpeltOutMap(legacy: Legacy, bindings: seq<Binding>, products: map<int, int>)
    requires forall k :: 0 <= k < |bindings| ==> bindings[k].product.Some?
    requires legacy.productMap == Some(products)
    ensures (&& (forall r :: r in products <==> exists k :: 0 <= k < |bindings| && bindings[k].record == r)
             && (forall k :: 0 <= k < |bindings| && LastOf(bindings, k) ==> products[bindings[k].record] == bindings[k].product.value))
       <==> products == ProductMap(bindings)
  {
    var m := ProductMap(bindings);
    forall r, k: nat
      ensures r in m <==> exists k :: 0 <= k < |bindings| && bindings[k].record == r
      ensures k < |bindings| && LastOf(bindings, k) ==> m[bindings[k].record] == bindings[k].product.value
    {
      ProductMapIs(bindings, r, k);
    }
    hide ProductMap;
    if && (forall r :: r in products <==> exists k :: 0 <= k < |bindings| && bindings[k].record == r)
       && (forall k :: 0 <= k < |bindings| && LastOf(bindings, k) ==> products[bindings[k].record] == bindings[k].product.value)
    {
      forall r ensures (r in products <==> r in m) && (r in m ==> products[r] == m[r]) {
        if r in m {
          var k :| 0 <= k < |bindings| && bindings[k].record == r;
          var l := LastBinding(bindings, r, k);
        }
      }
      assert products == m;
    }
  }

  lemma IsSetOf(s: seq<int>, all: set<int>)
    ensures multiset(s) == multiset(all) <==> forall x :: multiset(s)[x] == if x in all then 1 else 0
  {
    if forall x :: multiset(s)[x] == if x in all then 1 else 0 {
      forall x ensures multiset(s)[x] == multiset(all)[x] {
      }
      assert multiset(s) == multiset(all);
    }
  }

  lemma SpeltOutIs(legacy: Legacy, bindings: seq<Binding>)
    requires forall k :: 0 <= k < |bindings| ==> bindings[k].product.Some?
    ensures SpeltOut(legacy, bindings) <==>
              && legacy.productMap == Some(ProductMap(bindings))
              && legacy.includedIds.Some? && multiset(legacy.includedIds.value) == multiset(ProductMap(bindings).Keys)
              && legacy.productKeys.Some? && multiset(legacy.productKeys.value) == multiset(ProductMap(bindings).Values)
  {
    if legacy.productMap.Some? {
      var products := legacy.productMap.value;
      SpeltOutMap(legacy, bindings, products);
      hide ProductMap;
      if legacy.includedIds.Some? {
        IsSetOf(legacy.includedIds.value, products.Keys);
      }
      if legacy.productKeys.Some? {
        IsSetOf(legacy.productKeys.value, products.Values);
      }
    }
  }

  lemma LegacyIs(m: Message, ev: Evidence)
    ensures LegacyMatch(m.identity, m.legacy, ev) <==>
              && m.identity.series.None? && m.identity.body.None? && m.identity.bindings.None?
              && m.identity.task == ev.identity.task && m.identity.run == ev.identity.run
              && m.identity.revision == ev.identity.revision
              && m.legacy.testSeries == ev.identity.series && Some(m.legacy.bodies) == ev.identity.body
              && SpeltOut(m.legacy, BindingsOf(ev))
  {
    var bindings := BindingsOf(ev);
    if forall k :: 0 <= k < |bindings| ==> bindings[k].product.Some? {
      SpeltOutIs(m.legacy, bindings);
    }
    hide ProductMap;
  }

  lemma ExactIs(m: Message, ev: Evidence)
    ensures Exact(m, ev) <==> Candidate(m, ev) && Matching(m, ev)
  {
    LegacyIs(m, ev);
    hide SpeltOut, LegacyMatch;
    assert m.identity == ev.identity <==>
             && m.identity.task == ev.identity.task && m.identity.run == ev.identity.run
             && m.identity.revision == ev.identity.revision && m.identity.series == ev.identity.series
             && m.identity.body == ev.identity.body && m.identity.bindings == ev.identity.bindings;
  }

  /** A single match is a single exact entry. */
  lemma {:induction false} MatchesOne(m: Message, history: seq<Evidence>, i: nat)
    requires OnlyExact(m, history, i)
    ensures Matches(m, history) == [history[i]]
  {
    var n := |history| - 1;
    hide Exact, Matching;
    ExactIs(m, history[n]);
    if i < n {
      assert OnlyExact(m, history[..n], i);
      MatchesOne(m, history[..n], i);
    } else {
      forall ev | ev in history[..n] ensures !(Candidate(m, ev) && Matching(m, ev)) {
        ExactIs(m, ev);
      }
      NoMatch(m, history[..n]);
    }
  }

  lemma {:induction false} NoMatch(m: Message, history: seq<Evidence>)
    requires forall ev :: ev in history ==> !(Candidate(m, ev) && Matching(m, ev))
    ensures Matches(m, history) == []
  {
    if history != [] {
      NoMatch(m, history[..|history| - 1]);
    }
  }

  lemma {:induction false} OneMatch(m: Message, history: seq<Evidence>) returns (i: nat)
    requires |Matches(m, history)| == 1
    ensures OnlyExact(m, history, i) && Matches(m, history) == [history[i]]
  {
    var n := |history| - 1;
    hide Exact, Matching;
    ExactIs(m, history[n]);
    if Matches(m, history[..n]) == [] {
      i := n;
      forall j | 0 <= j < n ensures !Exact(m, history[j]) {
        ExactIs(m, history[j]);
        assert history[j] in history[..n];
      }
    } else {
      i := OneMatch(m, history[..n]);
      forall j | 0 <= j < n && j != i ensures !Exact(m, history[j]) {
        assert history[..n][j] == history[j];
      }
    }
  }

  lemma {:induction false} FirstItemAt(items: seq<Item>, p: Item -> bool) returns (j: nat)
    requires FirstItem(items, p).Some?
    ensures j < |items| && items[j] == FirstItem(items, p).value && p(items[j])
    ensures forall i :: 0 <= i < j ==> !p(items[i])
  {
    if p(items[0]) {
      j := 0;
    } else {
      var k := FirstItemAt(items[1..], p);
      j := k + 1;
      assert forall i :: 1 <= i < j ==> items[i] == items[1..][i - 1];
    }
  }

  /** What the decision found in the entry is what the entry supersedes. */
  lemma FoundIs(m: Message, e: Entry, p: Option<Item>)
    ensures Supersedes(m, e, p) <==>
              p == if e.status.PendingRetry? then FirstItem(e.items, item => BeforeRetry(m, item))
                   else FirstItem(Earlier(e.items), item => Overtaken(m, item, e.status))
  {
    var items := if e.status.PendingRetry? then e.items else Earlier(e.items);
    var test := if e.status.PendingRetry? then (item => BeforeRetry(m, item)) else (item => Overtaken(m, item, e.status));
    assert forall j :: 0 <= j < |items| ==> (Outdated(m, e, j) <==> test(items[j]));
    assert forall j :: |items| <= j < |e.items| ==> !Outdated(m, e, j);
    var found := FirstItem(items, test);
    if found.Some? {
      var j := FirstItemAt(items, test);
      assert Outdated(m, e, j) && e.items[j] == found.value;
    } else {
      forall j | 0 <= j < |e.items| ensures !Outdated(m, e, j) {
        assert j < |items| ==> items[j] in items;
      }
    }
    assert Supersedes(m, e, found);
  }

  // ---------------------------------------------------------------- the whole ledger

  function Suggest(history: seq<Evidence>, rows: seq<Row>): Suggestions {
    if rows == [] then Suggestions([], [])
    else
      var n := |rows| - 1;
      var before, last := Suggest(history, rows[..n]), RowResult(history, rows[n]);
      Suggestions(before.updates + last.updates, before.unresolved + last.unresolved)
  }

  /** The loop body: what evidence there is for one message, and what follows from it. */
  method ReconcileRow(history: seq<Evidence>, row: Row) returns (s: Suggestions)
    ensures s == RowResult(history, row)
  {
    s := Suggestions([], []);
    var m := row.message;
    var matches := Matches(m, history);
    if |matches| == 1 {
      match Decide(m, matches[0].entry)
      case Keep =>
      case Conflict =>
        s := s.(unresolved := [Doubt(row.key, PreviousDeliveryConflict)]);
      case Move(status, receipt, sha, previous) =>
        s := s.(updates := [Update(row.key, status, receipt, sha, previous)]);
    } else if Open(m.status) || m.status == Known(UncertainResult) {
      s := s.(unresolved := [Doubt(row.key, NoExactVerifiedMessage)]);
    }
  }

  /** One malformed row makes the whole ledger unusable, whatever was found before it. */
  method Reconcile(history: seq<Evidence>, headerFits: bool, rows: seq<Row>) returns (result: Result<Suggestions>)
    ensures result == if headerFits && forall k :: 0 <= k < |rows| ==> rows[k].wellFormed
                      then Ok(Suggest(history, rows)) else Err
    ensures result.Ok? && UniqueKeys(rows) ==> forall k :: 0 <= k < |rows| ==> Answered(history, rows[k], result.value)
  {
    hide Answered, UniqueKeys;
    if !headerFits {
      return Err;
    }
    var found := Suggestions([], []);
    var n := 0;
    while n < |rows|
      invariant 0 <= n <= |rows|
      invariant forall k :: 0 <= k < n ==> rows[k].wellFormed
      invariant Suggest(history, rows[..n]) == found
    {
      assert rows[..n + 1][..n] == rows[..n];
      if !rows[n].wellFormed {
        return Err;
      }
      var more := ReconcileRow(history, rows[n]);
      found := Suggestions(found.updates + more.updates, found.unresolved + more.unresolved);
      n := n + 1;
    }
    assert rows[..n] == rows;
    result := Ok(found);
    AllAnswered(history, rows);
  }

  // ---------------------------------------------------------------- applying the suggestions

  function UpdateFor(updates: seq<Update>, key: int): (r: Option<Update>)
    ensures r.Some? ==> r.value in updates && r.value.key == key
    ensures r.None? <==> forall u :: u in updates ==> u.key != key
  {
    if updates == [] then None
    else if updates[0].key == key then Some(updates[0])
    else
      assert updates == [updates[0]] + updates[1..];
      UpdateFor(updates[1..], key)
  }

  function Applied(m: Message, u: Option<Update>): Message {
    if u.None? then m else m.(status := Known(u.value.status), receipt := u.value.receipt, sha := u.value.sha)
  }

  function Apply(rows: seq<Row>, updates: seq<Update>): (r: seq<Row>)
    ensures |r| == |rows|
    ensures forall k :: 0 <= k < |rows| ==>
              r[k] == rows[k].(message := Applied(rows[k].message, UpdateFor(updates, rows[k].key)))
  {
    seq(|rows|, k requires 0 <= k < |rows| => rows[k].(message := Applied(rows[k].message, UpdateFor(updates, rows[k].key))))
  }

  /** The messages object is a dictionary. */
  ghost predicate UniqueKeys(rows: seq<Row>) {
    forall i, j :: 0 <= i < j < |rows| ==> rows[i].key != rows[j].key
  }

  /** The update a row asks for by itself. */
  function OwnUpdate(history: seq<Evidence>, row: Row): (r: Option<Update>)
    ensures r.Some? ==> r.value.key == row.key
  {
    var u := RowResult(history, row).updates;
    if u == [] then None else Some(u[0])
  }

  /** What a row adds is filed under its own key. */
  lemma RowKeys(history: seq<Evidence>, row: Row)
    ensures forall u :: u in RowResult(history, row).updates ==> u.key == row.key
    ensures forall d :: d in RowResult(history, row).unresolved ==> d.key == row.key
  {
    hide Matches, Decide;
  }

  lemma {:induction false} Elsewhere(history: seq<Evidence>, rows: seq<Row>, key: int)
    requires forall j :: 0 <= j < |rows| ==> rows[j].key != key
    ensures forall u :: u in Suggest(history, rows).updates ==> u.key != key
    ensures forall d :: d in Suggest(history, rows).unresolved ==> d.key != key
  {
    if rows != [] {
      hide RowResult;
      Elsewhere(history, rows[..|rows| - 1], key);
      RowKeys(history, rows[|rows| - 1]);
    }
  }

  /** Among rows with distinct keys, what the whole ledger is told about a key is what its own row is told. */
  lemma {:induction false} OwnRow(history: seq<Evidence>, rows: seq<Row>, k: nat)
    requires UniqueKeys(rows) && k < |rows|
    ensures var s, own := Suggest(history, rows), RowResult(history, rows[k]);
            && (forall u: Update :: u.key == rows[k].key ==> (u in s.updates <==> u in own.updates))
            && (forall d: Doubt :: d.key == rows[k].key ==> (d in s.unresolved <==> d in own.unresolved))
  {
    hide RowResult;
    var n := |rows| - 1;
    RowKeys(history, rows[n]);
    if k == n {
      Elsewhere(history, rows[..n], rows[k].key);
    } else {
      OwnRow(history, rows[..n], k);
    }
  }

  /** And so the update found for a row is its own. */
  lemma RowUpdate(history: seq<Evidence>, rows: seq<Row>, k: nat)
    requires UniqueKeys(rows) && k < |rows|
    ensures UpdateFor(Suggest(history, rows).updates, rows[k].key) == OwnUpdate(history, rows[k])
  {
    OwnRow(history, rows, k);
    RowKeys(history, rows[k]);
    OwnOnly(history, rows[k]);
    hide Suggest, RowResult;
  }

  lemma OwnOnly(history: seq<Evidence>, row: Row)
    ensures forall u :: u in RowResult(history, row).updates <==> OwnUpdate(history, row) == Some(u)
  {
    hide Matches, Decide;
    var u := RowResult(history, row).updates;
    assert u == [] || u == [u[0]];
  }

  /** The decision is what the one exact entry asks for. */
  lemma DecisionIs(key: int, m: Message, e: Entry, p: Option<Item>)
    requires Supersedes(m, e, p) && !e.status.Unresolved?
    ensures var d := Decide(m, e);
            && Owed(key, m, e, p) == (if d.Move? then Some(Update(key, d.status, d.receipt, d.sha, d.previous)) else None)
            && (Contradicted(m, e, p) <==> d.Conflict?)
  {
    FoundIs(m, e, p);
    hide Supersedes;
    if p.Some? && !e.status.PendingRetry? {
      assert Overtaken(m, p.value, e.status);
    }
  }

  lemma RowAnswered(history: seq<Evidence>, row: Row)
    ensures Answered(history, row, RowResult(history, row))
  {
    hide Exact, Matching, Supersedes, Decide, Owed, Contradicted;
    var m, s := row.message, RowResult(history, row);
    forall i: nat, p | OnlyExact(m, history, i) && Supersedes(m, history[i].entry, p)
      ensures Holds(s, row.key, Owed(row.key, m, history[i].entry, p), Contradicted(m, history[i].entry, p), false)
    {
      MatchesOne(m, history, i);
      ExactEnds(m, history[i]);
      DecisionIs(row.key, m, history[i].entry, p);
    }
    if forall i: nat :: !OnlyExact(m, history, i) {
      if |Matches(m, history)| == 1 {
        var i := OneMatch(m, history);
        assert false;
      }
    }
  }

  lemma ExactEnds(m: Message, ev: Evidence)
    ensures Exact(m, ev) ==> !ev.entry.status.Unresolved?
  {
  }

  /** Every row of the ledger gets the answer it is owed, and no other row interferes. */
  lemma EveryRowAnswered(history: seq<Evidence>, rows: seq<Row>, k: nat)
    requires UniqueKeys(rows) && k < |rows|
    ensures Answered(history, rows[k], Suggest(history, rows))
  {
    RowAnswered(history, rows[k]);
    OwnRow(history, rows, k);
    hide OnlyExact, Supersedes, Owed, Contradicted, Suggest, RowResult;
  }

  lemma AllAnswered(history: seq<Evidence>, rows: seq<Row>)
    ensures UniqueKeys(rows) ==> forall k :: 0 <= k < |rows| ==> Answered(history, rows[k], Suggest(history, rows))
  {
    hide Answered, Suggest;
    if UniqueKeys(rows) {
      forall k | 0 <= k < |rows| ensures Answered(history, rows[k], Suggest(history, rows)) {
        EveryRowAnswered(history, rows, k);
      }
    }
  }

  /** Status and receipt play no part in matching. */
  lemma {:induction false} MatchesStay(m: Message, m': Message, history: seq<Evidence>)
    requires m'.identity == m.identity && m'.legacy == m.legacy
    ensures Matches(m', history) == Matches(m, history)
  {
    if history != [] {
      MatchesStay(m, m', history[..|history| - 1]);
    }
  }

  /** Once moved, a message stays where it is. */
  lemma DecideSettles(m: Message, e: Entry)
    requires Decide(m, e).Move?
    ensures Decide(Applied(m, Some(Update(0, Decide(m, e).status, Decide(m, e).receipt, Decide(m, e).sha, None))), e) == Keep
  {
  }

  lemma SettledRow(history: seq<Evidence>, row: Row)
    ensures var row' := row.(message := Applied(row.message, OwnUpdate(history, row)));
            RowResult(history, row') == Suggestions([], RowResult(history, row).unresolved)
  {
    var m := row.message;
    var m' := Applied(m, OwnUpdate(history, row));
    MatchesStay(m, m', history);
    var matches := Matches(m, history);
    if |matches| == 1 && Decide(m, matches[0].entry).Move? {
      DecideSettles(m, matches[0].entry);
    }
  }

  lemma {:induction false} SuggestPointwise(history: seq<Evidence>, rows: seq<Row>, rows': seq<Row>)
    requires |rows'| == |rows|
    requires forall k :: 0 <= k < |rows| ==>
               RowResult(history, rows'[k]) == Suggestions([], RowResult(history, rows[k]).unresolved)
    ensures Suggest(history, rows') == Suggestions([], Suggest(history, rows).unresolved)
  {
    if rows != [] {
      var n := |rows| - 1;
      SuggestPointwise(history, rows[..n], rows'[..n]);
    }
  }

  /** Applying every suggestion and asking again suggests nothing, and doubts the same rows. */
  lemma {:induction false} Idempotent(history: seq<Evidence>, rows: seq<Row>)
    requires UniqueKeys(rows)
    ensures var s := Suggest(history, rows);
            Suggest(history, Apply(rows, s.updates)) == Suggestions([], s.unresolved)
  {
    var s := Suggest(history, rows);
    var rows' := Apply(rows, s.updates);
    forall k | 0 <= k < |rows|
      ensures RowResult(history, rows'[k]) == Suggestions([], RowResult(history, rows[k]).unresolved)
    {
      RowUpdate(history, rows, k);
      SettledRow(history, rows[k]);
    }
    SuggestPointwise(history, rows, rows');
  }

  /** The moves the reconciliation may make. */
  ghost predicate MayMove(from: LedgerStatus, to: LedgerStatus) {
    && (from == Known(SmtpAccepted) ==> to == from)
    && (from == Known(UncertainResult) ==> to == from || to == Known(PendingRetry) || to == Known(SmtpAccepted))
    && (from.Other? ==> to == from)
  }

  lemma DecideMoves(m: Message, e: Entry)
    ensures Decide(m, e).Move? ==> MayMove(m.status, Known(Decide(m, e).status)) && Decide(m, e).status == e.status
  {
  }

  /**
   No accepted message is moved to another status, an uncertain one only to a retry in
   flight or to an acceptance; and whatever moves takes the outcome of the one entry that
   agrees with it in every field of its identity.
   */
  lemma {:induction false} NeverDowngrades(history: seq<Evidence>, rows: seq<Row>, k: nat)
    requires UniqueKeys(rows) && k < |rows|
    ensures var before, after := rows[k].message, Apply(rows, Suggest(history, rows).updates)[k].message;
            && MayMove(before.status, after.status)
            && (after != before ==>
                  exists i: nat :: OnlyExact(before, history, i) && after.status == Known(history[i].entry.status))
  {
    RowUpdate(history, rows, k);
    var m := rows[k].message;
    var matches := Matches(m, history);
    if |matches| == 1 {
      var i := OneMatch(m, history);
      DecideMoves(m, matches[0].entry);
    }
  }
}
