/**
 Retries are serialised against every run of the same family: the runs connected through
 parent_run_id. The parent column is free text, so the graph may be cyclic and parents may
 be missing; nothing here assumes otherwise.
 */
module RetryGuard {
  import opened DeliveryTypes

  function Parent(runs: map<RunId, Run>, x: RunId): Option<RunId> {
    if x in runs then runs[x].parent else None
  }

  /** The n-th ancestor. */
  function Up(runs: map<RunId, Run>, x: RunId, n: nat): Option<RunId> {
    if n == 0 then Some(x)
    else
      match Up(runs, x, n - 1)
      case None => None
      case Some(y) => Parent(runs, y)
  }

  ghost predicate Reaches(runs: map<RunId, Run>, x: RunId, y: RunId) {
    exists n: nat :: Up(runs, x, n) == Some(y)
  }

  /** Where the upward walk stops: a run without a parent row, or the first repeated run. */
  function Root(runs: map<RunId, Run>, x: RunId, seen: set<RunId>): RunId
    decreases runs.Keys - seen
  {
    if x in seen then x
    else
      match Parent(runs, x)
      case None => x
      case Some(p) => Root(runs, p, seen + {x})
  }

  ghost predicate InFamily(runs: map<RunId, Run>, start: RunId, x: RunId) {
    Reaches(runs, x, Root(runs, start, {}))
  }

  /** Nothing lies above x except, on a cycle, x itself. */
  ghost predicate Top(runs: map<RunId, Run>, x: RunId) {
    Parent(runs, x) == None || exists k: nat :: k > 0 && Up(runs, x, k) == Some(x)
  }

  predicate DryRun(t: Tables, x: RunId) {
    (x in t.runs && t.runs[x].candidateDryRun) || (x in t.controls && t.controls[x].forceDryRun)
  }

  predicate LiveRun(s: RunStatus) {
    s.RunQueued? || s.RunRunning? || s.AwaitingReceipt?
  }

  predicate OpenDelivery(s: HandoffStatus) {
    s.PublishedH? || s.QueuedH? || s.UncertainH?
  }

  /** A real run that is still going, or whose mail is pending or uncertain. */
  predicate Blocks(t: Tables, x: RunId) {
    && x in t.runs
    && !DryRun(t, x)
    && (|| LiveRun(t.runs[x].status)
        || exists h :: h in t.handoffs && !t.handoffs[h].alert && t.handoffs[h].run == x
                       && OpenDelivery(t.handoffs[h].status))
  }

  ghost predicate FamilyClear(t: Tables, run: RunId, emailOnly: bool) {
    forall x :: InFamily(t.runs, run, x) && !(emailOnly && x == run) ==> !Blocks(t, x)
  }

  // ---------------------------------------------------------------- ancestors

  lemma {:induction false} UpAdd(runs: map<RunId, Run>, x: RunId, m: nat, y: RunId, n: nat)
    requires Up(runs, x, m) == Some(y)
    ensures Up(runs, x, m + n) == Up(runs, y, n)
  {
    if n > 0 {
      UpAdd(runs, x, m, y, n - 1);
      assert m + n - 1 == m + (n - 1);
    }
  }

  lemma {:induction false} UpPrefix(runs: map<RunId, Run>, x: RunId, m: nat, n: nat)
    requires m <= n && Up(runs, x, n).Some?
    ensures Up(runs, x, m).Some?
  {
    if m < n {
      UpPrefix(runs, x, m, n - 1);
    }
  }

  /** Going round a cycle any number of times. */
  lemma {:induction false} UpCycle(runs: map<RunId, Run>, x: RunId, k: nat, turns: nat)
    requires Up(runs, x, k) == Some(x)
    ensures Up(runs, x, turns * k) == Some(x)
  {
    if turns > 0 {
      UpCycle(runs, x, k, turns - 1);
      UpAdd(runs, x, (turns - 1) * k, x, k);
      assert (turns - 1) * k + k == turns * k;
    }
  }

  /** From a top run one can only reach runs that reach it back. */
  lemma ReachBack(runs: map<RunId, Run>, a: RunId, d: nat, b: RunId)
    requires Top(runs, a) && Up(runs, a, d) == Some(b)
    ensures Reaches(runs, b, a)
  {
    if d == 0 {
      assert Up(runs, b, 0) == Some(a);
    } else {
      UpPrefix(runs, a, 1, d);
      assert Up(runs, a, 1) == Parent(runs, a) by {
        assert Up(runs, a, 0) == Some(a);
      }
      var k: nat :| k > 0 && Up(runs, a, k) == Some(a);
      UpCycle(runs, a, k, d);
      assert d <= d * k;
      UpAdd(runs, a, d, b, d * k - d);
    }
  }

  lemma {:induction false} ReachesTrans(runs: map<RunId, Run>, a: RunId, b: RunId, c: RunId)
    requires Reaches(runs, a, b) && Reaches(runs, b, c)
    ensures Reaches(runs, a, c)
  {
    var m: nat :| Up(runs, a, m) == Some(b);
    var n: nat :| Up(runs, b, n) == Some(c);
    UpAdd(runs, a, m, b, n);
  }

  // ---------------------------------------------------------------- the root walk

  /** Every run already seen leads to the current one. */
  ghost predicate AllReach(runs: map<RunId, Run>, seen: set<RunId>, x: RunId) {
    forall s :: s in seen ==> exists n: nat :: n > 0 && Up(runs, s, n) == Some(x)
  }

  lemma AllReachNext(runs: map<RunId, Run>, seen: set<RunId>, x: RunId, p: RunId)
    requires AllReach(runs, seen, x) && Parent(runs, x) == Some(p)
    ensures AllReach(runs, seen + {x}, p)
  {
    assert Up(runs, x, 0) == Some(x);
    assert Up(runs, x, 1) == Some(p);
    forall s | s in seen ensures exists n: nat :: n > 0 && Up(runs, s, n) == Some(p) {
      var n: nat :| n > 0 && Up(runs, s, n) == Some(x);
      assert Up(runs, s, n + 1) == Some(p);
    }
  }

  lemma {:induction false} RootProperties(runs: map<RunId, Run>, x: RunId, seen: set<RunId>)
    requires AllReach(runs, seen, x)
    ensures Reaches(runs, x, Root(runs, x, seen)) && Top(runs, Root(runs, x, seen))
    decreases runs.Keys - seen
  {
    assert Up(runs, x, 0) == Some(x);
    if x !in seen && Parent(runs, x).Some? {
      var p := Parent(runs, x).value;
      AllReachNext(runs, seen, x, p);
      RootProperties(runs, p, seen + {x});
      assert Up(runs, x, 1) == Some(p);
      ReachesTrans(runs, x, p, Root(runs, x, seen));
    }
  }

  /** A run belongs to its own family. */
  lemma SelfInFamily(runs: map<RunId, Run>, x: RunId)
    ensures InFamily(runs, x, x)
  {
    RootProperties(runs, x, {});
  }

  lemma RootsMeet(runs: map<RunId, Run>, y: RunId, a: RunId, b: RunId)
    requires Top(runs, a) && Top(runs, b) && Reaches(runs, y, a) && Reaches(runs, y, b)
    ensures Reaches(runs, a, b) && Reaches(runs, b, a)
  {
    var m: nat :| Up(runs, y, m) == Some(a);
    var n: nat :| Up(runs, y, n) == Some(b);
    if m <= n {
      UpAdd(runs, y, m, a, n - m);
      ReachBack(runs, a, n - m, b);
    } else {
      UpAdd(runs, y, n, b, m - n);
      ReachBack(runs, b, m - n, a);
    }
  }

  /** Families partition the runs: every member computes the same family. */
  lemma SameFamily(runs: map<RunId, Run>, x: RunId, y: RunId, z: RunId)
    requires InFamily(runs, x, y)
    ensures InFamily(runs, x, z) <==> InFamily(runs, y, z)
  {
    var a, b := Root(runs, x, {}), Root(runs, y, {});
    RootProperties(runs, x, {});
    RootProperties(runs, y, {});
    RootsMeet(runs, y, a, b);
    if Reaches(runs, z, a) {
      ReachesTrans(runs, z, a, b);
    }
    if Reaches(runs, z, b) {
      ReachesTrans(runs, z, b, a);
    }
  }

  // ---------------------------------------------------------------- what a family is

  /** The runs have an ancestor in common; each counts as its own. */
  ghost predicate Related(runs: map<RunId, Run>, a: RunId, b: RunId) {
    exists y :: Reaches(runs, a, y) && Reaches(runs, b, y)
  }

  /** A family is what has an ancestor in common with the starting run, on cyclic graphs too. */
  lemma FamilyIsCommonAncestor(runs: map<RunId, Run>, start: RunId, x: RunId)
    ensures InFamily(runs, start, x) <==> Related(runs, start, x)
  {
    var root := Root(runs, start, {});
    RootProperties(runs, start, {});
    if y :| Reaches(runs, start, y) && Reaches(runs, x, y) {
      var m: nat :| Up(runs, start, m) == Some(root);
      var n: nat :| Up(runs, start, n) == Some(y);
      if n <= m {
        UpAdd(runs, start, n, y, m - n);
      } else {
        UpAdd(runs, start, m, root, n - m);
        ReachBack(runs, root, n - m, y);
      }
      ReachesTrans(runs, x, y, root);
    }
  }

  ghost predicate SameParents(a: map<RunId, Run>, b: map<RunId, Run>) {
    a.Keys == b.Keys && forall x :: x in a ==> a[x].parent == b[x].parent
  }

  lemma {:induction false} UpSame(a: map<RunId, Run>, b: map<RunId, Run>, x: RunId, n: nat)
    requires SameParents(a, b)
    ensures Up(a, x, n) == Up(b, x, n)
  {
    if n > 0 {
      UpSame(a, b, x, n - 1);
    }
  }

  /** Families depend on the parents alone. */
  lemma FamilySame(a: map<RunId, Run>, b: map<RunId, Run>, start: RunId, x: RunId)
    requires SameParents(a, b)
    ensures InFamily(a, start, x) <==> InFamily(b, start, x)
  {
    FamilyIsCommonAncestor(a, start, x);
    FamilyIsCommonAncestor(b, start, x);
    forall y, z ensures Reaches(a, y, z) <==> Reaches(b, y, z) {
      if n: nat :| Up(a, y, n) == Some(z) {
        UpSame(a, b, y, n);
      }
      if n: nat :| Up(b, y, n) == Some(z) {
        UpSame(a, b, y, n);
      }
    }
  }

  /** Nothing a guard looks at, apart from the run it is asked for, has changed. */
  ghost predicate SameRelatives(t: Tables, t': Tables, run: RunId) {
    && SameParents(t.runs, t'.runs) && t'.controls == t.controls && t'.handoffs.Keys == t.handoffs.Keys
    && (forall x :: x in t.runs && x != run ==> t'.runs[x] == t.runs[x])
    && (forall h :: h in t.handoffs ==> t'.handoffs[h] == t.handoffs[h] || (t.handoffs[h].run == run == t'.handoffs[h].run))
  }

  lemma GuardFrame(t: Tables, t': Tables, run: RunId)
    requires SameRelatives(t, t', run)
    ensures FamilyClear(t, run, true) <==> FamilyClear(t', run, true)
  {
    forall x | x != run ensures Blocks(t, x) <==> Blocks(t', x) {
      assert forall h :: h in t.handoffs && t.handoffs[h].run == x ==> t'.handoffs[h] == t.handoffs[h];
      assert forall h :: h in t'.handoffs && t'.handoffs[h].run == x ==> t'.handoffs[h] == t.handoffs[h];
    }
    forall x ensures InFamily(t.runs, run, x) <==> InFamily(t'.runs, run, x) {
      FamilySame(t.runs, t'.runs, run, x);
    }
  }

  // ---------------------------------------------------------------- the guard itself

  method RootWalk(runs: map<RunId, Run>, start: RunId) returns (root: RunId)
    ensures root == Root(runs, start, {})
  {
    root := start;
    var seen: set<RunId> := {};
    while root !in seen
      invariant Root(runs, root, seen) == Root(runs, start, {})
      decreases runs.Keys - seen
    {
      var row := Parent(runs, root);
      if row.None? {
        break;
      }
      seen := seen + {root};
      root := row.value;
    }
  }

  lemma {:induction false} ClosedContains(runs: map<RunId, Run>, root: RunId, family: set<RunId>, x: RunId, n: nat)
    requires root in family
    requires forall y :: y in runs && runs[y].parent.Some? && runs[y].parent.value in family ==> y in family
    requires Up(runs, x, n) == Some(root)
    ensures x in family
    decreases n
  {
    if n > 0 {
      UpPrefix(runs, x, 1, n);
      assert Up(runs, x, 0) == Some(x);
      var p := Parent(runs, x).value;
      UpAdd(runs, x, 1, p, n - 1);
      ClosedContains(runs, root, family, p, n - 1);
    }
  }

  lemma HasElement(s: set<RunId>)
    ensures s != {} ==> exists x :: x in s
  {
    if forall x :: x !in s {
      assert s == {};
    }
  }

  lemma Shrinks(all: set<RunId>, family: set<RunId>, next: set<RunId>)
    requires next != {} && next <= all && next !! family
    ensures all - (family + next) < all - family
  {
    HasElement(next);
    var y :| y in next;
    assert y in all - family;
  }

  /** The recursive query: the least set that holds the root and the children of its members. */
  method CloseFamily(runs: map<RunId, Run>, root: RunId) returns (family: set<RunId>)
    ensures forall x :: x in family <==> Reaches(runs, x, root)
  {
    family := {root};
    assert Up(runs, root, 0) == Some(root);
    var next := set x | x in runs && x !in family && runs[x].parent == Some(root);
    while next != {}
      invariant root in family
      invariant forall x :: x in family ==> Reaches(runs, x, root)
      invariant next == set x | x in runs && x !in family && runs[x].parent.Some? && runs[x].parent.value in family
      decreases runs.Keys - family
    {
      forall x | x in next ensures Reaches(runs, x, root) {
        assert Up(runs, x, 0) == Some(x);
        assert Up(runs, x, 1) == runs[x].parent;
        ReachesTrans(runs, x, runs[x].parent.value, root);
      }
      Shrinks(runs.Keys, family, next);
      family := family + next;
      next := set x | x in runs && x !in family && runs[x].parent.Some? && runs[x].parent.value in family;
    }
    assert forall y :: y in runs && runs[y].parent.Some? && runs[y].parent.value in family && y !in family ==> y in next;
    forall x | Reaches(runs, x, root) ensures x in family {
      var n: nat :| Up(runs, x, n) == Some(root);
      ClosedContains(runs, root, family, x, n);
    }
  }

  lemma GuardMeans(t: Tables, run: RunId, emailOnly: bool)
    ensures FamilyClear(t, run, emailOnly) <==>
              forall x :: x in t.runs && Related(t.runs, run, x) && !(emailOnly && x == run)
                          && !t.runs[x].candidateDryRun && !(x in t.controls && t.controls[x].forceDryRun) ==>
                && !t.runs[x].status.RunQueued? && !t.runs[x].status.RunRunning? && !t.runs[x].status.AwaitingReceipt?
                && forall h :: h in t.handoffs && t.handoffs[h].run == x && !t.handoffs[h].alert ==>
                     !t.handoffs[h].status.PublishedH? && !t.handoffs[h].status.QueuedH? && !t.handoffs[h].status.UncertainH?
  {
    forall x ensures InFamily(t.runs, run, x) <==> Related(t.runs, run, x) {
      FamilyIsCommonAncestor(t.runs, run, x);
    }
  }

  method RequireRetryFamilyClear(t: Tables, run: RunId, emailOnly: bool) returns (clear: bool)
    ensures clear <==> FamilyClear(t, run, emailOnly)
    ensures clear <==>
              forall x :: x in t.runs && Related(t.runs, run, x) && !(emailOnly && x == run)
                          && !t.runs[x].candidateDryRun && !(x in t.controls && t.controls[x].forceDryRun) ==>
                && !t.runs[x].status.RunQueued? && !t.runs[x].status.RunRunning? && !t.runs[x].status.AwaitingReceipt?
                && forall h :: h in t.handoffs && t.handoffs[h].run == x && !t.handoffs[h].alert ==>
                     !t.handoffs[h].status.PublishedH? && !t.handoffs[h].status.QueuedH? && !t.handoffs[h].status.UncertainH?
  {
    GuardMeans(t, run, emailOnly);
    var root := RootWalk(t.runs, run);
    var family := CloseFamily(t.runs, root);
    var rows := family;
    clear := true;
    while rows != {}
      invariant forall x :: x in family - rows && !(emailOnly && x == run) ==> !Blocks(t, x)
      invariant clear
      decreases rows
    {
      HasElement(rows);
      var x :| x in rows;
      if !(emailOnly && x == run) && Blocks(t, x) {
        assert InFamily(t.runs, run, x);
        return false;
      }
      rows := rows - {x};
    }
  }

  /** After a passing guard, an open delivery anywhere in the family is the caller's own. */
  lemma ClearFamilyIsQuiet(t: Tables, run: RunId, member: RunId, x: RunId)
    requires FamilyClear(t, run, true) && InFamily(t.runs, run, member) && InFamily(t.runs, member, x)
    ensures Blocks(t, x) ==> x == run
  {
    SameFamily(t.runs, run, member, x);
  }
}
