/**
 * The paging protocol cannot stall as long as the received set of a transaction lives
 * (src/services/search.rs, the trigger and cleanup blocks). Trigger keys may expire, in which
 * case a page may be requested again.
 */
module PagingLiveness {
  import opened Prelude
  import opened PagingProtocol
  import opened PagingOrder

  ghost predicate ReceivedLives(steps: seq<Step>) {
    forall x :: x in steps ==> !x.ExpireReceived?
  }

  ghost predicate NoFailedSend(steps: seq<Step>) {
    forall x :: x in steps && x.Send? ==> x.ok
  }

  // ------------------------------------------------ what trigger expiry cannot break

  ghost predicate HandlerLoose(n: Net, h: Handler) {
    1 <= h.page <= |n.received| + 1 &&
    (h.at.Marked? ==> h.page <= |n.received|) &&
    (h.at.Snapshot? ==> PrefixSeen(n, h.page, h.at.seen)) &&
    (h.at.Won? ==> PrefixSeen(n, h.page, h.at.seen) && h.at.next == |h.at.seen| + 1) &&
    (h.at.Deciding? ==> PrefixSeen(n, h.page, h.at.seen))
  }

  /** The received pages are a prefix, and nothing beyond the page after it is asked for. */
  ghost predicate Loose(n: Net) {
    Prefix(n.received) && 1 in n.sent &&
    (forall p :: p in n.sent ==> 1 <= p <= |n.received| + 1) &&
    (forall h :: h in n.handlers ==> HandlerLoose(n, n.handlers[h]))
  }

  /** Handlers that do not move keep their place while the received set only grows. */
  lemma OthersLoose(n: Net, n': Net, h: nat, moved: Handler)
    requires forall g :: g in n.handlers ==> HandlerLoose(n, n.handlers[g])
    requires n'.handlers == n.handlers[h := moved] && HandlerLoose(n', moved) && |n.received| <= |n'.received|
    ensures forall g :: g in n'.handlers ==> HandlerLoose(n', n'.handlers[g])
  {
    forall g | g in n'.handlers ensures HandlerLoose(n', n'.handlers[g]) {
      if g != h {
        assert HandlerLoose(n, n.handlers[g]);
      }
    }
  }

  lemma MarkLoose(n: Net, h: nat)
    requires Loose(n)
    ensures Loose(OnMark(n, h))
  {
    if h in n.handlers && n.handlers[h].at.Stored? {
      var n', p := OnMark(n, h), n.handlers[h].page;
      assert HandlerLoose(n, n.handlers[h]);
      if p in n.received {
        assert n'.received == n.received;
      } else {
        assert p == |n.received| + 1 == |n'.received|;
      }
      OthersLoose(n, n', h, n'.handlers[h]);
    }
  }

  lemma LooseStep(T: nat, n: Net, step: Step)
    requires Loose(n) && !step.ExpireReceived?
    ensures Loose(Apply(T, n, step))
  {
    var n' := Apply(T, n, step);
    if step.Mark? {
      MarkLoose(n, step.h);
    } else if !step.ExpireTrigger? && n' != n {
      if step.h in n.handlers {
        assert HandlerLoose(n, n.handlers[step.h]);
        if n.handlers[step.h].at.Snapshot? {
          MaxOfPrefix(n.handlers[step.h].at.seen);
        }
      }
      OthersLoose(n, n', step.h, n'.handlers[step.h]);
    } else if step.ExpireTrigger? {
      forall h | h in n.handlers ensures HandlerLoose(n', n.handlers[h]) {
        assert HandlerLoose(n, n.handlers[h]);
      }
    }
  }

  // ------------------------------------------------------------------ what is owed

  /** An in-flight handler that will look at the page after the last received one. */
  ghost predicate WillTrigger(n: Net, h: nat) {
    h in n.handlers &&
    (n.handlers[h].at.Marked? || (n.handlers[h].at.Snapshot? && |n.handlers[h].at.seen| == |n.received|))
  }

  ghost predicate WillSend(n: Net, h: nat, page: nat) {
    h in n.handlers && n.handlers[h].at.Won? && n.handlers[h].at.next == page
  }

  /** An in-flight handler that will count all pages and clean up. */
  ghost predicate WillClean(T: nat, n: Net, h: nat) {
    h in n.handlers &&
    (n.handlers[h].at.Marked? ||
     (n.handlers[h].at.Snapshot? && |n.handlers[h].at.seen| == T) ||
     (n.handlers[h].at.Deciding? && |n.handlers[h].at.seen| == T))
  }

  ghost predicate Requested(n: Net, page: nat) {
    page in n.sent || exists h :: WillSend(n, h, page)
  }

  ghost predicate Live(T: nat, n: Net) {
    (forall p :: p in n.triggers ==> Requested(n, p)) &&
    (|n.received| < T ==> Requested(n, |n.received| + 1) || exists h :: WillTrigger(n, h)) &&
    (|n.received| == T && T >= 1 && !n.cleaned ==> exists h :: WillClean(T, n, h))
  }

  /** A step moves no handler but its own. */
  lemma OthersStay(T: nat, n: Net, step: Step, w: nat)
    requires w in n.handlers && (step.ExpireReceived? || step.ExpireTrigger? || step.h != w)
    ensures var n' := Apply(T, n, step); w in n'.handlers && n'.handlers[w] == n.handlers[w]
  {}

  /** Once requested or about to be requested, a page stays so when sends succeed. */
  lemma RequestStays(T: nat, n: Net, step: Step, page: nat)
    requires Requested(n, page) && (step.Send? ==> step.ok)
    ensures Requested(Apply(T, n, step), page)
  {
    var n' := Apply(T, n, step);
    if page !in n.sent {
      var w :| WillSend(n, w, page);
      if step.Send? && step.h == w {
        assert page in n'.sent;
      } else {
        if step.ExpireReceived? || step.ExpireTrigger? || step.h != w {
          OthersStay(T, n, step, w);
        }
        assert WillSend(n', w, page);
      }
    }
  }

  lemma TriggersStayRequested(T: nat, n: Net, step: Step)
    requires Live(T, n) && (step.Send? ==> step.ok)
    ensures forall p :: p in Apply(T, n, step).triggers ==> Requested(Apply(T, n, step), p)
  {
    var n' := Apply(T, n, step);
    forall p | p in n'.triggers ensures Requested(n', p) {
      if p in n.triggers {
        RequestStays(T, n, step, p);
      } else {
        assert WillSend(n', step.h, p);
      }
    }
  }

  /** A handler with a current snapshot finds the next page requested, or wins its request. */
  lemma TriggerRequests(T: nat, n: Net, w: nat)
    requires Loose(n) && Live(T, n) && |n.received| < T
    requires w in n.handlers && n.handlers[w].at.Snapshot? && |n.handlers[w].at.seen| == |n.received|
    ensures Requested(Apply(T, n, Trigger(w)), |n.received| + 1)
  {
    var n', next := Apply(T, n, Trigger(w)), |n.received| + 1;
    assert HandlerLoose(n, n.handlers[w]);
    MaxOfPrefix(n.handlers[w].at.seen);
    if next in n.triggers {
      RequestStays(T, n, Trigger(w), next);
    } else {
      assert WillSend(n', w, next);
    }
  }

  /** The next page stays requested, or owed by the handler that brought in the last page. */
  lemma NextStaysOwed(T: nat, n: Net, step: Step)
    requires Loose(n) && Live(T, n) && !step.ExpireReceived? && (step.Send? ==> step.ok)
    ensures var n' := Apply(T, n, step);
      |n'.received| < T ==> Requested(n', |n'.received| + 1) || exists h :: WillTrigger(n', h)
  {
    var n' := Apply(T, n, step);
    if |n'.received| < T {
      if n'.received != n.received {
        assert WillTrigger(n', step.h);
      } else if Requested(n, |n.received| + 1) {
        RequestStays(T, n, step, |n.received| + 1);
      } else {
        var w :| WillTrigger(n, w);
        if step.ExpireTrigger? || step.h != w {
          OthersStay(T, n, step, w);
          assert WillTrigger(n', w);
        } else if step.Trigger? && n.handlers[w].at.Snapshot? {
          TriggerRequests(T, n, w);
        } else {
          assert WillTrigger(n', w);
        }
      }
    }
  }

  /** Once all pages are in, the cleanup stays owed until it has run. */
  lemma CleanupStaysOwed(T: nat, n: Net, step: Step)
    requires Loose(n) && Live(T, n) && !step.ExpireReceived?
    ensures var n' := Apply(T, n, step);
      |n'.received| == T && T >= 1 && !n'.cleaned ==> exists h :: WillClean(T, n', h)
  {
    var n' := Apply(T, n, step);
    if |n'.received| == T && T >= 1 && !n'.cleaned {
      if n'.received != n.received {
        assert WillClean(T, n', step.h);
      } else {
        var w :| WillClean(T, n, w);
        if step.ExpireTrigger? || step.h != w {
          OthersStay(T, n, step, w);
        } else if step.Trigger? && n.handlers[w].at.Snapshot? {
          assert HandlerLoose(n, n.handlers[w]);
          MaxOfPrefix(n.handlers[w].at.seen);
        }
        assert WillClean(T, n', w);
      }
    }
  }

  lemma {:induction false} LiveRun(T: nat, n: Net, steps: seq<Step>)
    requires Loose(n) && Live(T, n) && ReceivedLives(steps) && NoFailedSend(steps)
    ensures Loose(Exec(T, n, steps)) && Live(T, Exec(T, n, steps))
    decreases |steps|
  {
    if steps != [] {
      assert steps[0] in steps && forall x :: x in steps[1..] ==> x in steps;
      LooseStep(T, n, steps[0]);
      TriggersStayRequested(T, n, steps[0]);
      NextStaysOwed(T, n, steps[0]);
      CleanupStaysOwed(T, n, steps[0]);
      LiveRun(T, Apply(T, n, steps[0]), steps[1..]);
    }
  }

  lemma InitLive(T: nat)
    ensures Loose(Init()) && Live(T, Init())
  {}

  /**
   * No reachable state is stuck, trigger keys may expire: either all pages are in and the
   * cleanup ran or is owed by a handler in flight, or the next page has been requested, or a
   * handler in flight still owes its request.
   */
  lemma PagingNeverStalls(T: nat, steps: seq<Step>)
    requires T >= 1 && ReceivedLives(steps) && NoFailedSend(steps)
    ensures var n := Exec(T, Init(), steps);
      Prefix(n.received) && |n.received| <= T &&
      if |n.received| == T then n.cleaned || exists h :: WillClean(T, n, h)
      else Requested(n, |n.received| + 1) || exists h :: WillTrigger(n, h)
  {
    InitLive(T);
    LiveRun(T, Init(), steps);
    SafeRun(T, Init(), steps);
    Pigeonhole(Exec(T, Init(), steps).received, T);
  }

  // ------------------------------------------------------------------- completion

  /** A handler number nobody uses. */
  lemma FreshHandler(m: map<nat, Handler>) returns (h: nat)
    ensures h !in m
  {
    h := MaxPage(m.Keys) + 1;
  }

  ghost predicate Orderly(steps: seq<Step>) {
    NoExpiry(steps) && NoFailedSend(steps) && forall x :: x in steps && x.Store? ==> x.ok
  }

  /** The owed request of page r + 1 can be made within three steps. */
  lemma RequestNext(T: nat, n: Net) returns (steps: seq<Step>)
    requires Loose(n) && Live(T, n) && |n.received| < T
    ensures Orderly(steps) && |steps| <= 3
    ensures Exec(T, n, steps).received == n.received && |n.received| + 1 in Exec(T, n, steps).sent
  {
    var next := |n.received| + 1;
    if Requested(n, next) {
      steps := SendNow(T, n, next);
    } else {
      var w :| WillTrigger(n, w);
      if n.handlers[w].at.Marked? {
        var n1 := Apply(T, n, Read(w));
        LooseStep(T, n, Read(w));
        TriggersStayRequested(T, n, Read(w));
        assert Live(T, n1) by { NextStaysOwed(T, n, Read(w)); }
        TriggerRequests(T, n1, w);
        steps := SendNow(T, Apply(T, n1, Trigger(w)), next);
        Exec2(T, n, Read(w), Trigger(w));
        ExecAppend(T, n, [Read(w), Trigger(w)], steps);
        steps := [Read(w), Trigger(w)] + steps;
      } else {
        TriggerRequests(T, n, w);
        steps := SendNow(T, Apply(T, n, Trigger(w)), next);
        Exec1(T, n, Trigger(w));
        ExecAppend(T, n, [Trigger(w)], steps);
        steps := [Trigger(w)] + steps;
      }
    }
  }

  lemma SendNow(T: nat, n: Net, page: nat) returns (steps: seq<Step>)
    requires Requested(n, page)
    ensures Orderly(steps) && |steps| <= 1
    ensures Exec(T, n, steps).received == n.received && page in Exec(T, n, steps).sent
  {
    steps := [];
    if page !in n.sent {
      var w :| WillSend(n, w, page);
      steps := [Send(w, true)];
      Exec1(T, n, Send(w, true));
    }
  }

  /** The answer to the latest request can be taken in within three steps. */
  lemma ReceiveNext(T: nat, n: Net) returns (steps: seq<Step>)
    requires Loose(n) && |n.received| < T && |n.received| + 1 in n.sent
    ensures Orderly(steps) && |steps| <= 3
    ensures |Exec(T, n, steps).received| == |n.received| + 1
  {
    var h := FreshHandler(n.handlers);
    var p := |n.received| + 1;
    steps := [Deliver(h, p), Store(h, true), Mark(h)];
    Exec3(T, n, Deliver(h, p), Store(h, true), Mark(h));
  }

  lemma CleanUpNow(T: nat, n: Net) returns (steps: seq<Step>)
    requires Loose(n) && Live(T, n) && |n.received| == T >= 1
    ensures Orderly(steps) && |steps| <= 3
    ensures Exec(T, n, steps).received == n.received && Exec(T, n, steps).cleaned
  {
    if n.cleaned {
      steps := [];
    } else {
      var w :| WillClean(T, n, w);
      MaxOfPrefix(n.received);
      assert HandlerLoose(n, n.handlers[w]);
      match n.handlers[w].at {
        case Marked =>
          steps := [Read(w), Trigger(w), Finish(w)];
          Exec3(T, n, Read(w), Trigger(w), Finish(w));
        case Snapshot(_) =>
          MaxOfPrefix(n.handlers[w].at.seen);
          steps := [Trigger(w), Finish(w)];
          Exec2(T, n, Trigger(w), Finish(w));
        case _ =>
          steps := [Finish(w)];
          Exec1(T, n, Finish(w));
      }
    }
  }

  /**
   * T minus the received count measures the work left: from any such state at most six
   * steps per missing page, and three for the cleanup, finish the transaction.
   */
  lemma {:induction false} CanAlwaysComplete(T: nat, n: Net) returns (steps: seq<Step>)
    requires T >= 1 && Loose(n) && Live(T, n) && |n.received| <= T
    ensures Orderly(steps) && |steps| <= 6 * (T - |n.received|) + 3
    ensures Covers(Exec(T, n, steps).received, T) && Exec(T, n, steps).cleaned
    decreases T - |n.received|
  {
    if |n.received| == T {
      steps := CleanUpNow(T, n);
    } else {
      var request := RequestNext(T, n);
      LiveRun(T, n, request);
      var n1 := Exec(T, n, request);
      var receive := ReceiveNext(T, n1);
      LiveRun(T, n1, receive);
      ExecAppend(T, n, request, receive);
      var rest := CanAlwaysComplete(T, Exec(T, n1, receive));
      ExecAppend(T, n, request + receive, rest);
      steps := request + receive + rest;
    }
  }

  /**
   * Every run in which the received set lives and sends succeed extends to one that receives all
   * pages and cleans up.
   */
  lemma EveryRunCanComplete(T: nat, steps: seq<Step>) returns (more: seq<Step>)
    requires T >= 1 && ReceivedLives(steps) && NoFailedSend(steps)
    ensures Orderly(more)
    ensures |more| <= 6 * (T - |Exec(T, Init(), steps).received|) + 3
    ensures var n := Exec(T, Init(), steps + more); Covers(n.received, T) && n.cleaned
  {
    InitLive(T);
    LiveRun(T, Init(), steps);
    var n := Exec(T, Init(), steps);
    SafeRun(T, Init(), steps);
    Pigeonhole(n.received, T);
    more := CanAlwaysComplete(T, n);
    ExecAppend(T, Init(), steps, more);
  }
}
