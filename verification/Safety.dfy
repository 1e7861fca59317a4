/** What holds in every run of the delivery protocol, from an empty database on. */
module Safety {
  import opened DeliveryTypes
  import opened RetryGuard
  import opened Queue
  import opened Chains
  import opened QueueInvariant
  import opened Transport
  import opened World
  import opened WorldInvariant
  import opened WireInvariant
  import opened Backoff

  ghost predicate WorldInv(w: World) {
    Inv(w.t) && BothInv(w) && AutoInv(w)
  }

  /** A state some run of the system gets to, from an empty database. */
  ghost predicate Reachable(w: World) {
    exists start, events :: w == Reached(Start(w.policy, start), events)
  }

  lemma NextKeeps(w: World, e: Event)
    requires WorldInv(w)
    ensures WorldInv(Next(w, e))
  {
    TablesKeep(w, e);
    WireKeep(w, e);
    TimingKeeps(w, e);
  }

  lemma {:induction false} EveryRun(policy: Policy, start: Instant, events: seq<Event>)
    ensures WorldInv(Reached(Start(policy, start), events))
    decreases |events|
  {
    if events != [] {
      var n := |events| - 1;
      EveryRun(policy, start, events[..n]);
      NextKeeps(Reached(Start(policy, start), events[..n]), events[n]);
    }
  }

  lemma ReachableInv(w: World)
    requires Reachable(w)
    ensures WorldInv(w)
  {
    var start, events :| w == Reached(Start(w.policy, start), events);
    EveryRun(w.policy, start, events);
  }

  // ---------------------------------------------------------------- the chain

  lemma ChainShape(t: Tables, h: HandoffId)
    requires Inv(t)
    ensures Shape(h, Chain(t.attempts, h)) && AckRule(Chain(t.attempts, h))
  {
    if h in t.handoffs {
      assert HandoffHolds(t, h);
    } else {
      NoRows(t, h);
    }
  }

  lemma ShapeMeans(h: HandoffId, c: seq<Attempt>, k: nat)
    requires Shape(h, c) && k < |c|
    ensures c[k].number == k + 1 && c[k].message == c[0].message
    ensures c[k].parent == (if k == 0 then None else Some(c[k - 1].job))
    ensures k < |c| - 1 ==> c[k].status.Failed? || c[k].status.Uncertain?
  {
    assert Linked(c, k);
  }

  /** Attempts 1, 2, 3... of one message, each a child of the one before; nothing open but the
      last; and one attempt sending in the whole database. */
  lemma ChainInvariant(w: World, h: HandoffId, c: seq<Attempt>)
    requires Reachable(w) && c == Chain(w.t.attempts, h)
    ensures forall k :: 0 <= k < |c| ==> c[k].number == k + 1 && c[k].message == c[0].message
    ensures forall k, j :: 0 <= k && j == k + 1 < |c| ==> c[j].parent == Some(c[k].job)
    ensures c != [] ==> c[0].parent.None?
    ensures forall k :: 0 <= k < |c| - 1 ==> c[k].status.Failed? || c[k].status.Uncertain?
    ensures forall i, j :: 0 <= i < j < |w.t.attempts| ==>
              !(w.t.attempts[i].status.Sending? && w.t.attempts[j].status.Sending?)
  {
    ReachableInv(w);
    ChainShape(w.t, h);
    forall k | 0 <= k < |c|
      ensures c[k].number == k + 1 && c[k].message == c[0].message
      ensures c[k].parent == (if k == 0 then None else Some(c[k - 1].job))
    {
      ShapeMeans(h, c, k);
    }
    if c != [] {
      ShapeMeans(h, c, 0);
    }
  }

  // ---------------------------------------------------------------- no silent duplicates

  function TakenCount(c: seq<Attempt>, wire: map<JobId, Wire>): nat {
    if c == [] then 0
    else
      var a := c[|c| - 1];
      TakenCount(c[..|c| - 1], wire) + (if a.job in wire && wire[a.job].Taken? then 1 else 0)
  }

  function AckCount(c: seq<Attempt>): nat {
    if c == [] then 0 else AckCount(c[..|c| - 1]) + (if Acked(c[|c| - 1]) then 1 else 0)
  }

  lemma {:induction false} NoneTaken(c: seq<Attempt>, wire: map<JobId, Wire>)
    requires forall a :: a in c ==> a.job in wire ==> !wire[a.job].Taken?
    ensures TakenCount(c, wire) == 0
  {
    if c != [] {
      NoneTaken(c[..|c| - 1], wire);
    }
  }

  lemma {:induction false} CountBound(c: seq<Attempt>, wire: map<JobId, Wire>)
    requires AckRule(c)
    requires forall a :: a in c && a.status.Failed? ==> a.job in wire ==> !wire[a.job].Taken?
    ensures TakenCount(c, wire) <= 1 + AckCount(c)
  {
    if c != [] {
      var n := |c| - 1;
      var init := c[..n];
      if Acked(c[n]) || n == 0 {
        assert AckRule(init);
        CountBound(init, wire);
      } else {
        forall a | a in init ensures a.job in wire ==> !wire[a.job].Taken? {
          var k :| 0 <= k < n && init[k] == a;
          assert c[k] == a && c[k].status.Failed?;
          assert a in c;
        }
        NoneTaken(init, wire);
      }
    }
  }

  lemma RowOnWire(w: World, h: HandoffId, a: Attempt)
    requires WireInv(w) && a in Chain(w.t.attempts, h)
    ensures WireFits(a, WireOf(w, a.job))
  {
    ChainMembers(w.t.attempts, h, a);
    var i :| 0 <= i < |w.t.attempts| && w.t.attempts[i] == a;
  }

  /**
   Whatever the server answers, whichever call raises, whenever a process dies: the server
   takes one handoff's message at most once, plus once for every attempt the operator created
   with the acknowledgement that it may be a duplicate.
   */
  lemma NoSilentDuplicates(w: World, h: HandoffId)
    requires Reachable(w)
    ensures TakenCount(Chain(w.t.attempts, h), w.wire) <= 1 + AckCount(Chain(w.t.attempts, h))
  {
    ReachableInv(w);
    var c := Chain(w.t.attempts, h);
    ChainShape(w.t, h);
    forall a | a in c && a.status.Failed? ensures a.job in w.wire ==> !w.wire[a.job].Taken? {
      RowOnWire(w, h, a);
    }
    CountBound(c, w.wire);
  }

  /** A taken message ends accepted or uncertain, never as a failure; an accepted one was sent. */
  lemma TakenNeverFails(w: World, i: nat)
    requires Reachable(w) && i < |w.t.attempts|
    ensures var a := w.t.attempts[i];
            && (WireOf(w, a.job).Taken? && Terminal(a) ==> a.status.Accepted? || a.status.Uncertain?)
            && (a.status.Accepted? ==> WireOf(w, a.job).Sent? || WireOf(w, a.job).Taken?)
  {
    ReachableInv(w);
    assert WireFits(w.t.attempts[i], WireOf(w, w.t.attempts[i].job));
  }

  // ---------------------------------------------------------------- uncertainty is never lost

  predicate HasStatus(c: seq<Attempt>, s: Status) {
    exists a :: a in c && a.status == s
  }

  lemma OutcomeOfChain(t: Tables, h: HandoffId)
    requires Inv(t) && h in t.handoffs
    requires forall a :: a in Chain(t.attempts, h) ==> !Pending(a)
    ensures var c := Chain(t.attempts, h);
            t.handoffs[h].status.UncertainH? <==> HasStatus(c, Uncertain) && !HasStatus(c, Accepted)
    ensures t.handoffs[h].status.AcceptedH? <==> HasStatus(Chain(t.attempts, h), Accepted)
  {
    var c := Chain(t.attempts, h);
    assert HandoffHolds(t, h);
    LastUncertainIs(c);
    if c != [] {
      assert c[|c| - 1] in c;
      AcceptedIsLast(h, c);
      var g := Governing(c, t.receipts);
      if g.Some? {
        var k :| 0 <= k < |c| && c[k] == g.value;
        assert ReceiptFits(c[k], h, t.handoffs[h], t.receipts[c[k].job]);
      }
    }
  }

  lemma AcceptedIsLast(h: HandoffId, c: seq<Attempt>)
    requires Shape(h, c) && c != []
    ensures HasStatus(c, Accepted) <==> c[|c| - 1].status.Accepted?
  {
    if HasStatus(c, Accepted) {
      var a :| a in c && a.status == Accepted;
      var k :| 0 <= k < |c| && c[k] == a;
    }
    assert c[|c| - 1] in c;
  }

  /** With nothing pending, a handoff is uncertain exactly when some attempt is and none was
      accepted, whatever failed or was cancelled afterwards. */
  lemma UncertaintyIsNeverLost(w: World, h: HandoffId)
    requires Reachable(w) && h in w.t.handoffs
    requires forall a :: a in Chain(w.t.attempts, h) ==> !Pending(a)
    ensures var c := Chain(w.t.attempts, h);
            w.t.handoffs[h].status.UncertainH? <==> HasStatus(c, Uncertain) && !HasStatus(c, Accepted)
  {
    ReachableInv(w);
    OutcomeOfChain(w.t, h);
  }

  /** An automatic attempt is only ever created when everything before it plainly failed. */
  lemma AutomaticFollowsFailures(w: World, h: HandoffId, i: nat, j: nat)
    requires Reachable(w) && i < j < |Chain(w.t.attempts, h)| && Auto(Chain(w.t.attempts, h)[j])
    ensures Chain(w.t.attempts, h)[i].status.Failed?
  {
    ReachableInv(w);
    ChainShape(w.t, h);
    var c := Chain(w.t.attempts, h);
    assert AutoHolds(w, h);
    assert AutoFits(c[j], c[0].created, w.policy);
  }

  // ---------------------------------------------------------------- bounded automatic retry

  /**
   In a purely automatic chain that nobody pulled forward, attempt n = k + 1 is due no earlier
   than the sum of the delays before it, and no later than the shared expiry: so both the
   configured maximum and the expiry bound n.
   */
  lemma BackoffBound(w: World, h: HandoffId, c: seq<Attempt>, k: nat)
    requires Reachable(w) && c == Chain(w.t.attempts, h) && 1 <= k < |c| && Clean(w.t.requests, c, k)
    ensures c[k].due.Some? && c[k].due.value >= c[0].created + w.policy.base * (Pow2(k) - 1)
    ensures w.policy.base * (Pow2(k) - 1) <= w.policy.expirySeconds
    ensures k + 1 == c[k].number <= w.policy.maxAttempts
  {
    ReachableInv(w);
    ChainShape(w.t, h);
    assert AutoHolds(w, h);
    assert Auto(c[k]);
    assert AutoFits(c[k], c[0].created, w.policy);
    assert c[k].due.value >= c[0].created + Delay(w.policy.base, k);
  }

  /** All automatic attempts share one expiry, and no body is authorised at or after it. */
  lemma ExpiryHolds(w: World, h: HandoffId, c: seq<Attempt>, k: nat)
    requires Reachable(w) && c == Chain(w.t.attempts, h) && 1 <= k < |c| && Auto(c[k])
    ensures c[k].expires == Some(c[0].created + w.policy.expirySeconds)
    ensures var x := WireOf(w, c[k].job); !x.Untouched? ==> x.at < c[0].created + w.policy.expirySeconds
  {
    ReachableInv(w);
    assert AutoHolds(w, h);
    assert AutoFits(c[k], c[0].created, w.policy);
    RowOnWire(w, h, c[k]);
  }
}
