/**
 The first phase of the media budget: a session that fetches on a worker's request, one
 source at a time, and charges what it cannot account for at its full allowance.
 */
module Acquisition {
  import opened DeliveryTypes

  /** The media limits of settings.yaml. */
  datatype Limits = Limits(maxFiles: nat, maxTotal: nat, maxImage: nat)

  /** A normalised descriptor; its digest is the key, and the descriptor itself stands for it. */
  datatype Source =
    | Pdf(connection: int, document: int, size: nat, sha: int)
    | Image(url: int)

  /** What a source may be described as only once. */
  datatype Identity = OfPdf(connection: int, document: int) | OfImage(url: int)

  function IdentityOf(s: Source): Identity {
    match s
    case Pdf(connection, document, _, _) => OfPdf(connection, document)
    case Image(url) => OfImage(url)
  }

  datatype ErrorKind = NoTransfer | UncertainTransfer | OtherError

  /** How a transfer ends. `moved` is what really came over the wire, which nobody here sees. */
  datatype Fetch =
    | Body(length: nat, usable: bool)
    | Refused(kind: ErrorKind, reported: Option<nat>, moved: nat)
    | Raised(moved: nat)

  function Moved(f: Fetch): nat {
    match f
    case Body(length, _) => length
    case Refused(_, _, moved) => moved
    case Raised(moved) => moved
  }

  /** A fetcher that keeps to its allowance, and whose definite reports are true. */
  predicate Honest(f: Fetch, allowance: nat) {
    && Moved(f) <= allowance
    && (f.Refused? ==>
          && (f.reported.Some? ==> f.reported.value <= allowance)
          && (f.kind.NoTransfer? ==> f.moved <= (if f.reported.Some? then f.reported.value else 0))
          && (f.kind.OtherError? && f.reported.Some? ==> f.moved <= f.reported.value))
  }

  function Max(a: nat, b: nat): nat {
    if a > b then a else b
  }

  predicate Uncertain(kind: ErrorKind, reported: Option<nat>) {
    !kind.NoTransfer? && (reported.None? || kind.UncertainTransfer?)
  }

  /** A failed transfer costs what it reported, or its whole reservation when that is in doubt. */
  function Charge(kind: ErrorKind, reported: Option<nat>, reserved: nat): nat {
    Max(if reported.Some? then reported.value else 0, if Uncertain(kind, reported) then reserved else 0)
  }

  lemma ChargeCovers(f: Fetch, reserved: nat)
    requires Honest(f, reserved) && f.Refused?
    ensures Moved(f) <= Charge(f.kind, f.reported, reserved) <= reserved
  {
  }

  datatype Outcome = Available | Unavailable

  datatype Record = Record(source: Source, status: Outcome, charged: nat)

  /** The sum of what the records were charged. */
  function Charged(records: seq<Record>): nat {
    if records == [] then 0 else Charged(records[..|records| - 1]) + records[|records| - 1].charged
  }

  /** Bytes a request may use up: a PDF its declared size, an image what is left. */
  function Allowance(limits: Limits, source: Source, budget: nat): nat {
    match source
    case Pdf(_, _, size, _) => size
    case Image(_) => if budget < limits.maxImage then budget else limits.maxImage
  }

  predicate Affordable(source: Source, budget: int) {
    budget >= 1 && (source.Pdf? ==> source.size <= budget)
  }

  ghost predicate OnePerIdentity(records: seq<Record>) {
    forall i, j :: 0 <= i < j < |records| ==> IdentityOf(records[i].source) != IdentityOf(records[j].source)
  }

  ghost predicate HasIdentity(records: seq<Record>, i: Identity) {
    exists k :: 0 <= k < |records| && IdentityOf(records[k].source) == i
  }

  /** The identities are those of the records, and each belongs to one source. */
  ghost predicate Bound(records: seq<Record>, identities: map<Identity, Source>) {
    && OnePerIdentity(records)
    && (forall k :: 0 <= k < |records| ==>
          IdentityOf(records[k].source) in identities && identities[IdentityOf(records[k].source)] == records[k].source)
    && (forall i :: i in identities ==> HasIdentity(records, i))
  }

  lemma BoundAppend(records: seq<Record>, identities: map<Identity, Source>, r: Record)
    requires Bound(records, identities) && IdentityOf(r.source) !in identities
    ensures Bound(records + [r], identities[IdentityOf(r.source) := r.source])
  {
    var more := records + [r];
    assert forall k :: 0 <= k < |records| ==> more[k] == records[k];
    assert more[|records|] == r;
    forall i | i in identities ensures HasIdentity(more, i) {
      var k :| 0 <= k < |records| && IdentityOf(records[k].source) == i;
      assert IdentityOf(more[k].source) == i;
    }
  }

  lemma BoundSettle(before: seq<Record>, identities: map<Identity, Source>, was: Record, r: Record)
    requires Bound(before + [was], identities) && r.source == was.source
    ensures Bound(before + [r], identities)
  {
    var a, b := before + [was], before + [r];
    assert forall k :: 0 <= k < |a| ==> a[k].source == b[k].source;
    forall i | i in identities ensures HasIdentity(b, i) {
      var k :| 0 <= k < |a| && IdentityOf(a[k].source) == i;
      assert IdentityOf(b[k].source) == i;
    }
  }

  /** A source without a record has an identity of its own, unless another source claims it. */
  lemma FreshIdentity(records: seq<Record>, identities: map<Identity, Source>, source: Source)
    requires Bound(records, identities)
    requires IdentityOf(source) in identities ==> identities[IdentityOf(source)] == source
    requires forall j :: 0 <= j < |records| ==> records[j].source != source
    ensures IdentityOf(source) !in identities
  {
    assert IdentityOf(source) in identities ==> HasIdentity(records, IdentityOf(source));
  }

  /** The same card document with another size or hash, or nothing of the kind: an image is its URL. */
  ghost predicate Contradicts(records: seq<Record>, source: Source) {
    exists k :: 0 <= k < |records| && records[k].source.Pdf? && source.Pdf? && records[k].source != source
      && records[k].source.connection == source.connection && records[k].source.document == source.document
  }

  ghost predicate Recorded(records: seq<Record>, source: Source) {
    exists k :: 0 <= k < |records| && records[k].source == source
  }

  /** The identities of a session answer for its records. */
  lemma ConflictIs(records: seq<Record>, identities: map<Identity, Source>, source: Source)
    requires Bound(records, identities)
    ensures IdentityOf(source) in identities && identities[IdentityOf(source)] != source <==> Contradicts(records, source)
    ensures Contradicts(records, source) ==> !Recorded(records, source)
  {
    if IdentityOf(source) in identities && identities[IdentityOf(source)] != source {
      assert HasIdentity(records, IdentityOf(source));
    }
  }

  class Session {
    const limits: Limits
    var records: seq<Record>
    var identities: map<Identity, Source>
    var consumedBytes: nat
    var consumedCount: nat
    /** A failure that keeps later phases from using this session. */
    var failed: bool
    ghost var fetches: nat
    ghost var moved: nat

    ghost predicate Valid()
      reads this
    {
      && Bound(records, identities)
      && consumedBytes == Charged(records) && consumedCount == |records|
      && consumedBytes <= limits.maxTotal
      && fetches <= consumedCount && fetches <= limits.maxFiles
      && (!failed ==> moved <= consumedBytes)
    }

    constructor (l: Limits)
      ensures Valid() && limits == l && records == [] && !failed
    {
      limits := l;
      records, identities := [], map[];
      consumedBytes, consumedCount, failed := 0, 0, false;
      fetches, moved := 0, 0;
    }

    /** The position of a source's record, or the number of records. */
    method Known(source: Source) returns (k: nat)
      ensures k <= |records|
      ensures k < |records| ==> records[k].source == source
      ensures k == |records| ==> forall j :: 0 <= j < |records| ==> records[j].source != source
    {
      k := 0;
      while k < |records| && records[k].source != source
        invariant k <= |records|
        invariant forall j :: 0 <= j < k ==> records[j].source != source
      {
        k := k + 1;
      }
    }

    /** A record for a source that has none: nothing is charged yet. */
    method Open(source: Source)
      requires Valid() && (IdentityOf(source) in identities ==> identities[IdentityOf(source)] == source)
      requires forall j :: 0 <= j < |records| ==> records[j].source != source
      modifies this`records, this`identities, this`consumedCount
      ensures Valid() && records == old(records) + [Record(source, Unavailable, 0)]
      ensures consumedCount == old(consumedCount) + 1
    {
      hide Bound, Charged, IdentityOf;
      FreshIdentity(records, identities, source);
      var r := Record(source, Unavailable, 0);
      BoundAppend(records, identities, r);
      ChargedAppend(records, r);
      records, identities := records + [r], identities[IdentityOf(source) := source];
      consumedCount := consumedCount + 1;
    }

    /**
     One request. `clear` stands for the guards that have nothing to do with bytes, and
     `orphaned` for a session closed while the transfer was under way.
     */
    method Acquire(source: Source, clear: bool, fetch: Fetch, orphaned: bool) returns (result: Option<Record>)
      requires Valid() && !failed
      requires Honest(fetch, Allowance(limits, source, limits.maxTotal - consumedBytes))
      modifies this
      ensures Valid()
      ensures old(records) <= records
      ensures result.None? ==> failed && consumedBytes == old(consumedBytes)
      ensures result.Some? ==> result.value in records && result.value.source == source
      ensures Contradicts(old(records), source) ==> result.None? && records == old(records)
      ensures !Contradicts(old(records), source) && !Recorded(old(records), source) ==>
                var left := limits.maxTotal - old(consumedBytes);
                var reached := && clear && old(consumedCount) < limits.maxFiles
                               && left >= 1 && (source.Pdf? ==> source.size <= left);
                && fetches == old(fetches) + (if reached then 1 else 0)
                && moved == old(moved) + (if reached then Moved(fetch) else 0)
                && (result.None? <==> reached && fetch.Raised?)
                && (failed <==> reached && (fetch.Raised? || orphaned))
                && (result.Some? && result.value.status.Available? <==> reached && fetch.Body? && fetch.usable && !orphaned)
                && (result.Some? && !(reached && !orphaned) ==> result.value.charged == 0)
                && (reached && fetch.Body? && !orphaned ==> result.value.charged == fetch.length)
                && (reached && fetch.Refused? && !orphaned ==>
                      result.value.charged ==
                        if fetch.kind.UncertainTransfer? || (fetch.kind.OtherError? && fetch.reported.None?)
                        then (if source.Pdf? then source.size else if left < limits.maxImage then left else limits.maxImage)
                        else if fetch.reported.Some? then fetch.reported.value else 0)
                && (result.Some? ==> records == old(records) + [result.value]
                                     && consumedBytes == old(consumedBytes) + result.value.charged)
      ensures Recorded(old(records), source) ==> result.Some? && unchanged(this)
      ensures fetches <= old(fetches) + 1
      ensures result.Some? && result.value.status.Available? && fetches != old(fetches) ==>
                fetch.Body? && result.value.charged == fetch.length == consumedBytes - old(consumedBytes)
    {
      hide Bound, Charged, Honest, Allowance, Contradicts, IdentityOf;
      ConflictIs(records, identities, source);
      var identity := IdentityOf(source);
      if identity in identities && identities[identity] != source {
        failed := true;
        return None;
      }
      var k := Known(source);
      if k < |records| {
        return Some(records[k]);
      }
      Open(source);
      if !clear || consumedCount > limits.maxFiles {
        return Some(records[k]);
      }
      var budget := limits.maxTotal - consumedBytes;
      if !Affordable(source, budget) {
        return Some(records[k]);
      }
      Transfer(source, fetch, orphaned, budget);
      if fetch.Raised? {
        return None;
      }
      return Some(records[k]);
    }

    /** The transfer of the newest record, and what it costs. */
    method Transfer(source: Source, fetch: Fetch, orphaned: bool, budget: nat)
      requires Valid() && !failed && records != [] && records[|records| - 1] == Record(source, Unavailable, 0)
      requires budget == limits.maxTotal - consumedBytes && Affordable(source, budget)
      requires Honest(fetch, Allowance(limits, source, budget))
      requires fetches < limits.maxFiles && fetches < consumedCount
      modifies this`records, this`consumedBytes, this`failed, this`fetches, this`moved
      ensures Valid() && |records| == |old(records)| && records[..|records| - 1] == old(records)[..|records| - 1]
      ensures records[|records| - 1].source == source
      ensures fetches == old(fetches) + 1 && moved == old(moved) + Moved(fetch)
      ensures failed <==> fetch.Raised? || orphaned
      ensures consumedBytes == old(consumedBytes) + records[|records| - 1].charged
      ensures records[|records| - 1].status.Available? <==> fetch.Body? && fetch.usable && !orphaned
      ensures records[|records| - 1].charged ==
                if orphaned || fetch.Raised? then 0
                else if fetch.Body? then fetch.length
                else if fetch.kind.UncertainTransfer? || (fetch.kind.OtherError? && fetch.reported.None?)
                then (if source.Pdf? then source.size else if budget < limits.maxImage then budget else limits.maxImage)
                else if fetch.reported.Some? then fetch.reported.value else 0
    {
      hide Bound, Charged, Honest, Affordable;
      fetches, moved := fetches + 1, moved + Moved(fetch);
      if orphaned || fetch.Raised? {
        failed := true;
        return;
      }
      var charge := Cost(limits, source, fetch, budget);
      Settle(Record(source, if fetch.Body? && fetch.usable then Available else Unavailable, charge));
    }

    method Settle(r: Record)
      requires records != [] && records[|records| - 1] == Record(r.source, Unavailable, 0)
      requires consumedBytes == Charged(records) && Bound(records, identities)
      modifies this`records, this`consumedBytes
      ensures Bound(records, identities)
      ensures records == old(records)[..|old(records)| - 1] + [r]
      ensures consumedBytes == Charged(records) == old(consumedBytes) + r.charged
    {
      hide Bound, Charged;
      ghost var before := records[..|records| - 1];
      assert records == before + [Record(r.source, Unavailable, 0)];
      ChargedAppend(before, Record(r.source, Unavailable, 0));
      ChargedAppend(before, r);
      BoundSettle(before, identities, Record(r.source, Unavailable, 0), r);
      consumedBytes := consumedBytes + r.charged;
      records := records[|records| - 1 := r];
      assert records == before + [r];
    }
  }

  /** What a transfer is charged: all it moved, at most what was left. */
  function Cost(limits: Limits, source: Source, fetch: Fetch, budget: nat): (c: nat)
    requires Affordable(source, budget) && Honest(fetch, Allowance(limits, source, budget)) && !fetch.Raised?
    ensures Moved(fetch) <= c <= budget
    ensures fetch.Body? ==> c == fetch.length
    ensures fetch.Refused? ==>
              c == if fetch.kind.UncertainTransfer? || (fetch.kind.OtherError? && fetch.reported.None?)
                   then Allowance(limits, source, budget)
                   else if fetch.reported.Some? then fetch.reported.value else 0
  {
    if fetch.Body? then fetch.length else Charge(fetch.kind, fetch.reported, Allowance(limits, source, budget))
  }

  lemma ChargedAppend(records: seq<Record>, r: Record)
    ensures Charged(records + [r]) == Charged(records) + r.charged
  {
    assert (records + [r])[..|records|] == records;
  }
}
