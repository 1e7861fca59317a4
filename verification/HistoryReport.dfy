/**
 The bounded report over many handoffs: what it may leave out, and how it says so. How an
 entry is verified and how long the serialised report is are parameters.
 */
module HistoryReport {
  import opened DeliveryTypes
  import opened History

  const MAX_HISTORY_BYTES: nat := 256 * 1024

  /** What is found for a handoff id before its message is verified. */
  datatype Lookup = Broken | NoSeries | InSeries(series: int)

  datatype Candidate = Candidate(handoff: HandoffId, lookup: Lookup)

  datatype Reason = EntryLimit | ByteLimit | BindingFailed(handoff: HandoffId) | SeriesUnavailable(handoff: HandoffId)

  datatype Report = Report(entries: seq<Entry>, unresolved: seq<Reason>, complete: bool, truncated: bool)

  /** Two entries with one receipt are one delivery. */
  datatype EntryKey = ByReceipt(job: JobId) | ByHandoff(handoff: HandoffId)

  function Key(e: Entry): EntryKey {
    if e.receipt.Some? then ByReceipt(e.receipt.value) else ByHandoff(e.handoff)
  }

  function Cut(r: Report, entries: nat, unresolved: nat): Report
    requires entries <= |r.entries| && unresolved <= |r.unresolved|
  {
    Report(r.entries[..entries], r.unresolved[..unresolved], false, true)
  }

  /** Entries go first and diagnostics last, and no more of either than the limit forces. */
  method BoundedHistory(r: Report, size: Report -> nat) returns (result: Result<Report>)
    ensures size(r) <= MAX_HISTORY_BYTES ==> result == Ok(r)
    ensures size(r) > MAX_HISTORY_BYTES && result.Ok? ==>
              exists e, u :: 0 <= e <= |r.entries| && 0 <= u <= |r.unresolved|
                && result.value == Cut(r, e, u) && size(Cut(r, e, u)) <= MAX_HISTORY_BYTES
                && (u < |r.unresolved| ==> e == 0)
                && (forall k :: e < k <= |r.entries| ==> size(Cut(r, k, |r.unresolved|)) > MAX_HISTORY_BYTES)
                && (forall k :: u < k <= |r.unresolved| ==> size(Cut(r, e, k)) > MAX_HISTORY_BYTES)
    ensures result.Err? ==> size(Cut(r, 0, 0)) > MAX_HISTORY_BYTES
  {
    if size(r) <= MAX_HISTORY_BYTES {
      return Ok(r);
    }
    var bounded := r.(complete := false, truncated := true);
    ghost var e, u := |r.entries|, |r.unresolved|;
    assert r.entries[..e] == r.entries && r.unresolved[..u] == r.unresolved;
    while size(bounded) > MAX_HISTORY_BYTES
      invariant 0 <= e <= |r.entries| && 0 <= u <= |r.unresolved| && bounded == Cut(r, e, u)
      invariant u < |r.unresolved| ==> e == 0
      invariant forall k :: e < k <= |r.entries| ==> size(Cut(r, k, |r.unresolved|)) > MAX_HISTORY_BYTES
      invariant forall k :: u < k <= |r.unresolved| ==> size(Cut(r, e, k)) > MAX_HISTORY_BYTES
      decreases e + u
    {
      if bounded.entries != [] {
        bounded := bounded.(entries := bounded.entries[..|bounded.entries| - 1]);
        e := e - 1;
        assert bounded.entries == r.entries[..e];
      } else if bounded.unresolved != [] {
        bounded := bounded.(unresolved := bounded.unresolved[..|bounded.unresolved| - 1]);
        u := u - 1;
        assert bounded.unresolved == r.unresolved[..u];
      } else {
        return Err;
      }
    }
    result := Ok(bounded);
  }

  ghost predicate HasKey(r: Report, key: EntryKey) {
    exists k :: 0 <= k < |r.entries| && Key(r.entries[k]) == key
  }

  /** The same delivery is in the report: the same receipt or, without one, the same handoff. */
  ghost predicate Listed(r: Report, e: Entry) {
    exists k :: 0 <= k < |r.entries| && SameDelivery(r.entries[k], e)
  }

  predicate SameDelivery(a: Entry, b: Entry) {
    a.receipt == b.receipt && (b.receipt.None? ==> a.handoff == b.handoff)
  }

  lemma ListedIs(r: Report, e: Entry)
    ensures Listed(r, e) <==> HasKey(r, Key(e))
  {
    forall k | 0 <= k < |r.entries| ensures SameDelivery(r.entries[k], e) <==> Key(r.entries[k]) == Key(e) {
    }
  }

  /** Handoff k belongs to the series and is accounted for by an entry. */
  ghost predicate Covered(rows: seq<Candidate>, k: nat, series: int, verify: HandoffId -> Result<Entry>, r: Report)
    requires k < |rows|
  {
    rows[k].lookup == InSeries(series) ==>
      verify(rows[k].handoff).Ok? && Listed(r, verify(rows[k].handoff).value)
  }

  /** What a report that claims to be complete owes its reader. */
  ghost predicate Honest(rows: seq<Candidate>, n: nat, series: int, verify: HandoffId -> Result<Entry>, r: Report)
    requires n <= |rows|
  {
    r.complete ==>
      && r.unresolved == []
      && (forall k :: 0 <= k < n ==> rows[k].lookup.InSeries? && Covered(rows, k, series, verify, r))
  }

  ghost predicate Backed(rows: seq<Candidate>, series: int, verify: HandoffId -> Result<Entry>, e: Entry) {
    exists k :: 0 <= k < |rows| && rows[k].lookup == InSeries(series) && verify(rows[k].handoff) == Ok(e)
  }

  ghost predicate Sound(rows: seq<Candidate>, series: int, verify: HandoffId -> Result<Entry>, r: Report) {
    && (forall k :: 0 <= k < |r.entries| ==> Backed(rows, series, verify, r.entries[k]))
    && (forall i, j :: 0 <= i < j < |r.entries| ==> !SameDelivery(r.entries[i], r.entries[j]))
  }

  /** Handoff k left its trace: its entry or, when it could not be verified, its diagnostic. */
  ghost predicate Accounted(rows: seq<Candidate>, k: nat, series: int, verify: HandoffId -> Result<Entry>, r: Report)
    requires k < |rows|
  {
    match rows[k].lookup
    case Broken => BindingFailed(rows[k].handoff) in r.unresolved
    case NoSeries => SeriesUnavailable(rows[k].handoff) in r.unresolved
    case InSeries(s) =>
      s == series ==>
        if verify(rows[k].handoff).Err? then BindingFailed(rows[k].handoff) in r.unresolved
        else Listed(r, verify(rows[k].handoff).value)
  }

  ghost predicate AllAccounted(rows: seq<Candidate>, n: nat, series: int, verify: HandoffId -> Result<Entry>, r: Report)
    requires n <= |rows|
  {
    forall k :: 0 <= k < n ==> Accounted(rows, k, series, verify, r)
  }

  /** The entry of handoff n, which was verified, made the report too long. */
  ghost predicate StoppedAt(rows: seq<Candidate>, n: nat, series: int, verify: HandoffId -> Result<Entry>,
                            size: Report -> nat, r: Report)
    requires n < |rows|
  {
    && rows[n].lookup == InSeries(series) && verify(rows[n].handoff).Ok?
    && !Listed(r, verify(rows[n].handoff).value)
    && r.unresolved != [] && r.unresolved[|r.unresolved| - 1] == ByteLimit
    && var before := r.unresolved[..|r.unresolved| - 1];
       size(Report(r.entries + [verify(rows[n].handoff).value], before, before == [], false)) > MAX_HISTORY_BYTES - 1024
  }

  /** How far the collection got, and why not further. */
  ghost predicate Collected(rows: seq<Candidate>, n: nat, series: int, verify: HandoffId -> Result<Entry>,
                            size: Report -> nat, r: Report)
  {
    && n <= |rows| && n <= MAX_HISTORY_ENTRIES && !r.truncated
    && Sound(rows, series, verify, r)
    && AllAccounted(rows, n, series, verify, r)
    && (r.complete <==> r.unresolved == [])
    && (EntryLimit in r.unresolved <==> |rows| > MAX_HISTORY_ENTRIES)
  }

  /**
   Every handoff up to the limits is accounted for, also after one that could not be verified:
   collecting stops early only at a verified entry that does not fit. Every entry was verified
   and appears once; a report marked complete leaves out no handoff of the series; and the
   report, cut when it must be, fits its byte limit.
   */
  method BuildHistory(rows: seq<Candidate>, series: int, verify: HandoffId -> Result<Entry>, size: Report -> nat)
    returns (result: Result<Report>, ghost full: Report, ghost n: nat)
    ensures Collected(rows, n, series, verify, size, full)
    ensures n < |rows| && n < MAX_HISTORY_ENTRIES ==> StoppedAt(rows, n, series, verify, size, full)
    ensures size(full) <= MAX_HISTORY_BYTES ==> result == Ok(full)
    ensures size(full) > MAX_HISTORY_BYTES && result.Ok? ==>
              exists e, u :: 0 <= e <= |full.entries| && 0 <= u <= |full.unresolved| && result.value == Cut(full, e, u)
    ensures result.Ok? ==> Sound(rows, series, verify, result.value)
    ensures result.Ok? ==> Honest(rows, |rows|, series, verify, result.value)
    ensures result.Ok? ==> size(result.value) <= MAX_HISTORY_BYTES
    ensures result.Ok? && result.value.complete ==> |rows| <= MAX_HISTORY_ENTRIES
  {
    hide Sound, AllAccounted, StoppedAt, HasKey;
    var r := Report([], [], true, false);
    var limit := |rows|;
    if |rows| > MAX_HISTORY_ENTRIES {
      r := r.(complete := false, unresolved := [EntryLimit]);
      limit := MAX_HISTORY_ENTRIES;
    }
    var seen: set<EntryKey> := {};
    var i := 0;
    var more := true;
    Nothing(rows, series, verify, r);
    while i < limit && more
      invariant 0 <= i <= limit <= |rows|
      invariant more ==> forall key :: key in seen <==> HasKey(r, key)
      invariant Collected(rows, i, series, verify, size, r)
      invariant !more ==> i < limit && !r.complete && StoppedAt(rows, i, series, verify, size, r)
      decreases limit - i, more
    {
      var c := rows[i];
      var was := r;
      if c.lookup.Broken? {
        r := r.(complete := false, unresolved := r.unresolved + [BindingFailed(c.handoff)]);
        Noted(rows, i, series, verify, was, r);
      } else if c.lookup.NoSeries? {
        r := r.(complete := false, unresolved := r.unresolved + [SeriesUnavailable(c.handoff)]);
        Noted(rows, i, series, verify, was, r);
      } else if c.lookup.series == series {
        match verify(c.handoff)
        case Err =>
          r := r.(complete := false, unresolved := r.unresolved + [BindingFailed(c.handoff)]);
          Noted(rows, i, series, verify, was, r);
        case Ok(entry) =>
          if Key(entry) !in seen {
            seen := seen + {Key(entry)};
            var longer := r.(entries := r.entries + [entry]);
            Appended(rows, series, verify, r, entry, i);
            if size(longer) > MAX_HISTORY_BYTES - 1024 {
              r := r.(complete := false, unresolved := r.unresolved + [ByteLimit]);
              more := false;
              Stopped(rows, i, series, verify, size, was, r);
            } else {
              r := longer;
            }
          } else {
            Passed(rows, i, series, verify, r);
          }
      } else {
        Passed(rows, i, series, verify, r);
      }
      if more {
        i := i + 1;
      }
    }
    full, n := r, i;
    result := BoundedHistory(r, size);
    Cuts(rows, series, verify, full);
    CompleteIsHonest(rows, n, series, verify, full);
  }

  lemma Nothing(rows: seq<Candidate>, series: int, verify: HandoffId -> Result<Entry>, r: Report)
    requires r.entries == []
    ensures Sound(rows, series, verify, r) && AllAccounted(rows, 0, series, verify, r) && forall key :: !HasKey(r, key)
  {
  }

  /** A diagnostic for handoff n disturbs nothing that was collected before. */
  lemma Noted(rows: seq<Candidate>, n: nat, series: int, verify: HandoffId -> Result<Entry>, was: Report, r: Report)
    requires n < |rows| && Sound(rows, series, verify, was) && AllAccounted(rows, n, series, verify, was)
    requires r.entries == was.entries && was.unresolved < r.unresolved && |r.unresolved| == |was.unresolved| + 1
    requires r.unresolved[|was.unresolved|]
          == if rows[n].lookup.NoSeries? then SeriesUnavailable(rows[n].handoff) else BindingFailed(rows[n].handoff)
    requires rows[n].lookup.InSeries? ==> rows[n].lookup.series == series && verify(rows[n].handoff).Err?
    ensures Sound(rows, series, verify, r) && AllAccounted(rows, n + 1, series, verify, r)
    ensures forall key :: HasKey(r, key) <==> HasKey(was, key)
    ensures EntryLimit in r.unresolved <==> EntryLimit in was.unresolved
  {
    SameTrace(rows, n, series, verify, was, r);
    assert r.unresolved[|was.unresolved|] in r.unresolved;
  }

  /** More diagnostics, same entries: every trace is still there. */
  lemma SameTrace(rows: seq<Candidate>, n: nat, series: int, verify: HandoffId -> Result<Entry>, was: Report, r: Report)
    requires n <= |rows| && AllAccounted(rows, n, series, verify, was)
    requires r.entries == was.entries && was.unresolved <= r.unresolved
    ensures AllAccounted(rows, n, series, verify, r) && forall key :: HasKey(r, key) <==> HasKey(was, key)
  {
    assert forall e :: Listed(was, e) ==> Listed(r, e);
    assert forall x :: x in was.unresolved ==> x in r.unresolved;
    forall k | 0 <= k < n ensures Accounted(rows, k, series, verify, r) {
      assert Accounted(rows, k, series, verify, was);
    }
  }

  /** A handoff of another series, or a second one with the same receipt, needs no entry of its own. */
  lemma Passed(rows: seq<Candidate>, n: nat, series: int, verify: HandoffId -> Result<Entry>, r: Report)
    requires n < |rows| && AllAccounted(rows, n, series, verify, r) && rows[n].lookup.InSeries?
    requires rows[n].lookup.series == series ==> verify(rows[n].handoff).Ok? && HasKey(r, Key(verify(rows[n].handoff).value))
    ensures AllAccounted(rows, n + 1, series, verify, r)
  {
    if rows[n].lookup.series == series {
      ListedIs(r, verify(rows[n].handoff).value);
    }
  }

  lemma Stopped(rows: seq<Candidate>, n: nat, series: int, verify: HandoffId -> Result<Entry>, size: Report -> nat,
                was: Report, r: Report)
    requires n < |rows| && rows[n].lookup == InSeries(series) && verify(rows[n].handoff).Ok?
    requires !was.truncated && (was.complete <==> was.unresolved == [])
    requires !HasKey(was, Key(verify(rows[n].handoff).value))
    requires r == was.(complete := false, unresolved := was.unresolved + [ByteLimit])
    requires size(was.(entries := was.entries + [verify(rows[n].handoff).value])) > MAX_HISTORY_BYTES - 1024
    requires Sound(rows, series, verify, was) && AllAccounted(rows, n, series, verify, was)
    ensures StoppedAt(rows, n, series, verify, size, r)
    ensures Sound(rows, series, verify, r) && AllAccounted(rows, n, series, verify, r)
    ensures EntryLimit in r.unresolved <==> EntryLimit in was.unresolved
  {
    SameTrace(rows, n, series, verify, was, r);
    ListedIs(r, verify(rows[n].handoff).value);
    assert r.unresolved[..|r.unresolved| - 1] == was.unresolved;
    assert Report(r.entries + [verify(rows[n].handoff).value], was.unresolved, was.unresolved == [], false)
        == was.(entries := was.entries + [verify(rows[n].handoff).value]);
  }

  /** A new entry accounts for its own handoff and disturbs no other. */
  lemma Appended(rows: seq<Candidate>, series: int, verify: HandoffId -> Result<Entry>, r: Report, entry: Entry, n: nat)
    requires n < |rows| && rows[n].lookup == InSeries(series) && verify(rows[n].handoff) == Ok(entry)
    requires Sound(rows, series, verify, r) && AllAccounted(rows, n, series, verify, r)
    requires !HasKey(r, Key(entry))
    ensures var longer := r.(entries := r.entries + [entry]);
            && Sound(rows, series, verify, longer) && AllAccounted(rows, n + 1, series, verify, longer)
            && (forall key :: HasKey(longer, key) <==> key == Key(entry) || HasKey(r, key))
  {
    var longer := r.(entries := r.entries + [entry]);
    assert Backed(rows, series, verify, entry);
    assert longer.entries[|r.entries|] == entry;
    forall key ensures HasKey(longer, key) <==> key == Key(entry) || HasKey(r, key) {
      if HasKey(r, key) {
        var k :| 0 <= k < |r.entries| && Key(r.entries[k]) == key;
        assert longer.entries[k] == r.entries[k];
      }
    }
    ListedIs(r, entry);
    assert forall k :: 0 <= k < |r.entries| ==> longer.entries[k] == r.entries[k];
    assert forall e :: Listed(r, e) ==> Listed(longer, e);
    forall k | 0 <= k < n + 1 ensures Accounted(rows, k, series, verify, longer) {
      if k < n {
        assert Accounted(rows, k, series, verify, r);
      } else {
        assert SameDelivery(longer.entries[|r.entries|], entry);
      }
    }
  }

  /** What is cut off takes nothing from the soundness of the rest. */
  lemma Cuts(rows: seq<Candidate>, series: int, verify: HandoffId -> Result<Entry>, r: Report)
    requires Sound(rows, series, verify, r)
    ensures forall e, u :: 0 <= e <= |r.entries| && 0 <= u <= |r.unresolved| ==> Sound(rows, series, verify, Cut(r, e, u))
  {
  }

  lemma CompleteIsHonest(rows: seq<Candidate>, n: nat, series: int, verify: HandoffId -> Result<Entry>, r: Report)
    requires n <= |rows| && (r.complete ==> r.unresolved == [] && n == |rows|) && AllAccounted(rows, n, series, verify, r)
    ensures Honest(rows, |rows|, series, verify, r)
  {
    if r.complete {
      forall k | 0 <= k < n ensures rows[k].lookup.InSeries? && Covered(rows, k, series, verify, r) {
        assert Accounted(rows, k, series, verify, r);
      }
    }
  }
}
