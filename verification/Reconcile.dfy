/**
 Revisiting finished attempts page by page: a cursor on (updated, job) that wraps around.
 The table may grow anywhere between two calls; no row that was there when a round began is
 passed over in that round.
 */
module Reconcile {
  import opened DeliveryTypes

  /** The columns the query orders by. */
  datatype Row = Row(updated: Instant, job: JobId)

  predicate Less(a: Row, b: Row) {
    a.updated < b.updated || (a.updated == b.updated && a.job < b.job)
  }

  /** In the order of the query: by time of update, then by job. */
  predicate Later(a: Row, b: Row) {
    a.updated <= b.updated && (a.updated == b.updated ==> a.job < b.job)
  }

  /** ORDER BY updated_at, job_id over a table with unique jobs. */
  ghost predicate Ordered(rows: seq<Row>) {
    forall i, j :: 0 <= i < j < |rows| ==> Less(rows[i], rows[j])
  }

  /** WHERE updated_at > ? OR (updated_at = ? AND job_id > ?). */
  predicate Past(cursor: Option<Row>, r: Row) {
    cursor.None? || Less(cursor.value, r)
  }

  /** How many rows of an ordered table are not past the cursor. */
  function Skip(table: seq<Row>, cursor: Option<Row>): (n: nat)
    ensures n <= |table|
    ensures forall k :: 0 <= k < n ==> !Past(cursor, table[k])
    ensures n < |table| ==> Past(cursor, table[n])
  {
    if table == [] || Past(cursor, table[0]) then 0
    else
      var n := Skip(table[1..], cursor);
      assert forall k :: 1 <= k < n + 1 ==> table[k] == table[1..][k - 1];
      n + 1
  }

  /** `completed`: the rows past the cursor, in order, at most `limit` of them. */
  function Page(table: seq<Row>, cursor: Option<Row>, limit: Option<nat>): seq<Row> {
    var rest := table[Skip(table, cursor)..];
    if limit.Some? && limit.value < |rest| then rest[..limit.value] else rest
  }

  /** A page holds every row between two cursors. */
  lemma PageHolds(table: seq<Row>, cursor: Option<Row>, limit: Option<nat>, r: Row)
    requires Ordered(table) && r in table && Past(cursor, r)
    ensures var page := Page(table, cursor, limit);
            && (page == [] ==> limit == Some(0))
            && (page != [] && !Past(Some(page[|page| - 1]), r) ==> r in page)
            && (limit.None? || |page| < limit.value ==> r in page)
  {
    var n := Skip(table, cursor);
    var k :| 0 <= k < |table| && table[k] == r;
    var page := Page(table, cursor, limit);
    assert k >= n;
    assert table[n..][k - n] == r;
    if page != [] {
      var last := n + |page| - 1;
      assert page[|page| - 1] == table[last];
      if k <= last {
        assert page[k - n] == r;
      } else {
        assert Less(table[last], table[k]);
      }
    }
  }

  /** The rows of a finished round when it began, and the rows it visited. */
  datatype Round = Round(present: set<Row>, visited: set<Row>)

  class Reconciler {
    var cursor: Option<Row>
    var lastAt: Option<Instant>
    ghost var round: Round
    ghost var finished: seq<Round>

    ghost predicate Valid()
      reads this
    {
      && (cursor.Some? ==> forall r :: r in round.present && !Past(cursor, r) ==> r in round.visited)
      && (forall k :: 0 <= k < |finished| ==> finished[k].present <= finished[k].visited)
    }

    constructor ()
      ensures Valid() && cursor.None? && finished == []
    {
      cursor, lastAt := None, None;
      round, finished := Round({}, {}), [];
    }

    /**
     One call. Rows are never removed or changed, so those of the open round are still in
     the table; a round is finished only when it has visited every row it began with.
     */
    method ReconcileCompleted(now: Instant, interval: int, force: bool, full: bool, limit: nat, table: seq<Row>)
      returns (batch: seq<Row>)
      requires Valid() && limit >= 1 && Ordered(table)
      requires forall r :: r in round.present ==> r in table
      modifies this
      ensures Valid() && old(finished) <= finished
      ensures forall r :: r in round.present ==> r in table
      ensures batch == [] || batch == Page(table, None, if full then None else Some(limit))
              || (!full && batch == Page(table, old(cursor), Some(limit)))
      ensures batch != [] && cursor.None? ==>
                |finished| > |old(finished)| && finished[|finished| - 1] == round
                && forall r :: r in batch ==> r in round.visited
      ensures cursor.Some? && batch != [] ==> batch[|batch| - 1] == cursor.value && |batch| == limit
      ensures !full && old(cursor).Some? && batch != [] && batch != Page(table, None, Some(limit)) ==>
                forall r :: r in batch ==> Later(old(cursor).value, r)
      ensures full && (force || old(lastAt).None? || now - old(lastAt).value >= interval) ==> batch == table
      ensures force && table != [] ==> batch != []
    {
      batch := [];
      if !force && lastAt.Some? && now - lastAt.value < interval {
        return;
      }
      lastAt := Some(now);
      var from := if full then None else cursor;
      var size := if full then None else Some(limit);
      batch := Page(table, from, size);
      if batch == [] && from.Some? {
        Exhausted(table, from, size);
        finished := finished + [round];
        cursor := None;
        from := None;
        batch := Page(table, None, size);
      }
      if from.None? {
        round := Round(set r | r in table, {});
      }
      Visit(table, from, size, batch);
    }

    /** Remembering the page, and where it ended. */
    method Visit(table: seq<Row>, from: Option<Row>, size: Option<nat>, batch: seq<Row>)
      requires Ordered(table) && batch == Page(table, from, size) && (size.Some? ==> size.value >= 1)
      requires forall r :: r in round.present ==> r in table
      requires forall r :: r in round.present && !Past(from, r) ==> r in round.visited
      requires forall k :: 0 <= k < |finished| ==> finished[k].present <= finished[k].visited
      modifies this`cursor, this`round, this`finished
      ensures Valid() && old(finished) <= finished && round.present == old(round.present)
      ensures batch != [] && cursor.None? ==>
                |finished| > |old(finished)| && finished[|finished| - 1] == round
                && forall r :: r in batch ==> r in round.visited
      ensures cursor.Some? ==> batch != [] && batch[|batch| - 1] == cursor.value && size == Some(|batch|)
    {
      round := round.(visited := round.visited + (set r | r in batch));
      forall r | r in round.present && Past(from, r)
        ensures batch != [] && !Past(Some(batch[|batch| - 1]), r) ==> r in batch
        ensures size.None? || |batch| < size.value ==> r in batch
      {
        PageHolds(table, from, size, r);
      }
      if batch != [] && size.Some? && |batch| >= size.value {
        cursor := Some(batch[|batch| - 1]);
      } else {
        cursor := None;
        finished := finished + [round];
      }
    }
  }

  lemma Exhausted(table: seq<Row>, cursor: Option<Row>, size: Option<nat>)
    requires Ordered(table) && Page(table, cursor, size) == [] && (size.Some? ==> size.value >= 1)
    ensures forall r :: r in table ==> !Past(cursor, r)
  {
    forall r | r in table ensures !Past(cursor, r) {
      if Past(cursor, r) {
        PageHolds(table, cursor, size, r);
      }
    }
  }
}
