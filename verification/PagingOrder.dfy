/**
 * While the Redis keys of a transaction live, the paging protocol requests the pages one by
 * one, each once (src/services/search.rs, the trigger block).
 */
module PagingOrder {
  import opened Prelude
  import opened PagingProtocol

  ghost predicate NoExpiry(steps: seq<Step>) {
    forall x :: x in steps ==> !x.ExpireReceived? && !x.ExpireTrigger?
  }

  /** The snapshot is 1..m and was taken after the handler's own page was marked. */
  ghost predicate PrefixSeen(n: Net, page: nat, seen: set<nat>) {
    Prefix(seen) && page <= |seen| <= |n.received|
  }

  ghost predicate HandlerOrdered(n: Net, h: Handler) {
    1 <= h.page <= |n.sent| &&
    (h.at.Marked? ==> h.page <= |n.received|) &&
    (h.at.Snapshot? ==> PrefixSeen(n, h.page, h.at.seen)) &&
    (h.at.Won? ==> PrefixSeen(n, h.page, h.at.seen) && h.at.next == |n.triggers| + 1 && |n.sent| == |n.triggers|) &&
    (h.at.Deciding? ==> PrefixSeen(n, h.page, h.at.seen))
  }

  ghost predicate OneWinner(n: Net) {
    forall h, g :: h in n.handlers && g in n.handlers && n.handlers[h].at.Won? && n.handlers[g].at.Won? ==> h == g
  }

  /** Received 1..r, requested 1..q in this order, triggered 2..t, with r <= q <= t <= r + 1. */
  ghost predicate SharedOrdered(T: nat, n: Net)
  {
    Prefix(n.received) &&
    (forall p: nat :: p in n.triggers <==> 2 <= p <= |n.triggers| + 1) &&
    (forall i :: 0 <= i < |n.sent| ==> n.sent[i] == i + 1) &&
    1 <= |n.sent| &&
    |n.received| <= |n.sent| <= |n.triggers| + 1 <= |n.received| + 1 &&
    (n.triggers != {} ==> |n.triggers| + 1 <= T)
  }

  ghost predicate Ordered(T: nat, n: Net)
  {
    SharedOrdered(T, n) && OneWinner(n) && forall h :: h in n.handlers ==> HandlerOrdered(n, n.handlers[h])
  }

  lemma MaxOfPrefix(seen: set<nat>)
    requires Prefix(seen)
    ensures MaxPage(seen) == |seen|
  {
    if seen != {} {
      assert |seen| in seen;
    }
  }

  /** The page a snapshot-holding handler would trigger: already triggered, or the very next one. */
  lemma TriggerTarget(T: nat, n: Net, h: nat)
    requires Ordered(T, n) && h in n.handlers && n.handlers[h].at.Snapshot?
    ensures var seen := n.handlers[h].at.seen;
      MaxPage(seen) == |seen| >= 1 &&
      (|seen| + 1 !in n.triggers ==> |seen| == |n.triggers| + 1 == |n.received| == |n.sent|)
  {
    assert HandlerOrdered(n, n.handlers[h]);
    MaxOfPrefix(n.handlers[h].at.seen);
  }

  /** Handlers that do not move keep their place while the counters only grow. */
  lemma OthersOrdered(n: Net, n': Net, h: nat, moved: Handler)
    requires forall g :: g in n.handlers ==> HandlerOrdered(n, n.handlers[g])
    requires n'.handlers == n.handlers[h := moved] && HandlerOrdered(n', moved)
    requires |n.received| <= |n'.received| && |n.sent| <= |n'.sent|
    requires (|n.sent| == |n'.sent| && |n.triggers| == |n'.triggers|) ||
             forall g :: g in n.handlers && g != h ==> !n.handlers[g].at.Won?
    ensures forall g :: g in n'.handlers ==> HandlerOrdered(n', n'.handlers[g])
  {
    forall g | g in n'.handlers ensures HandlerOrdered(n', n'.handlers[g]) {
      if g != h {
        assert HandlerOrdered(n, n.handlers[g]);
      }
    }
  }

  lemma MarkOrdered(T: nat, n: Net, h: nat)
    requires Ordered(T, n)
    ensures Ordered(T, OnMark(n, h))
  {
    if h in n.handlers && n.handlers[h].at.Stored? {
      var n', p := OnMark(n, h), n.handlers[h].page;
      assert HandlerOrdered(n, n.handlers[h]);
      if p in n.received {
        assert n'.received == n.received;
      } else {
        assert p == |n.received| + 1 == |n'.received|;
      }
      assert Prefix(n'.received);
      OthersOrdered(n, n', h, n'.handlers[h]);
    }
  }

  lemma TriggerOrdered(T: nat, n: Net, h: nat)
    requires Ordered(T, n)
    ensures Ordered(T, OnTrigger(T, n, h))
  {
    if h in n.handlers && n.handlers[h].at.Snapshot? {
      var n' := OnTrigger(T, n, h);
      assert HandlerOrdered(n, n.handlers[h]);
      TriggerTarget(T, n, h);
      if n'.handlers[h].at.Won? {
        forall g | g in n.handlers && g != h ensures !n.handlers[g].at.Won? {
          assert HandlerOrdered(n, n.handlers[g]);
        }
      }
      OthersOrdered(n, n', h, n'.handlers[h]);
    }
  }

  lemma SendOrdered(T: nat, n: Net, h: nat, ok: bool)
    requires Ordered(T, n)
    ensures Ordered(T, OnSend(n, h, ok))
  {
    if h in n.handlers && n.handlers[h].at.Won? {
      var n' := OnSend(n, h, ok);
      assert HandlerOrdered(n, n.handlers[h]);
      OthersOrdered(n, n', h, n'.handlers[h]);
    }
  }

  lemma OrderedStep(T: nat, n: Net, step: Step)
    requires Ordered(T, n) && !step.ExpireReceived? && !step.ExpireTrigger?
    ensures Ordered(T, Apply(T, n, step))
  {
    var n' := Apply(T, n, step);
    if step.Mark? {
      MarkOrdered(T, n, step.h);
    } else if step.Trigger? {
      TriggerOrdered(T, n, step.h);
    } else if step.Send? {
      SendOrdered(T, n, step.h, step.ok);
    } else if n' != n {
      if step.h in n.handlers {
        assert HandlerOrdered(n, n.handlers[step.h]);
      }
      OthersOrdered(n, n', step.h, n'.handlers[step.h]);
    }
  }

  lemma {:induction false} OrderedRun(T: nat, n: Net, steps: seq<Step>)
    requires Ordered(T, n) && NoExpiry(steps)
    ensures Ordered(T, Exec(T, n, steps))
    decreases |steps|
  {
    if steps != [] {
      assert steps[0] in steps && forall x :: x in steps[1..] ==> x in steps;
      OrderedStep(T, n, steps[0]);
      OrderedRun(T, Apply(T, n, steps[0]), steps[1..]);
    }
  }

  lemma InitOrdered(T: nat)
    ensures Ordered(T, Init())
  {
  }

  /**
   * In every interleaving without key expiry, stale snapshots and duplicates included:
   * the received pages are a prefix 1..r, the requests made are exactly 1, 2, .., q in
   * this order, each once, and q is r or r + 1 and never beyond the last page.
   */
  lemma PagesAreRequestedOnceAndInOrder(T: nat, steps: seq<Step>)
    requires NoExpiry(steps)
    ensures var n := Exec(T, Init(), steps);
      Prefix(n.received) &&
      (forall i :: 0 <= i < |n.sent| ==> n.sent[i] == i + 1) && Distinct(n.sent) &&
      |n.received| <= |n.sent| <= |n.received| + 1 &&
      (|n.sent| <= T || n.sent == [1])
  {
    InitOrdered(T);
    OrderedRun(T, Init(), steps);
    var n := Exec(T, Init(), steps);
    if n.triggers == {} {
      assert n.sent == [1];
    }
  }
}
