/**
 * What expiry of the received set does to the cleanup (src/services/search.rs, the block that
 * counts the received pages): when exactly the cleanup runs, when it is lost, and what
 * brings it back.
 */
module PagingExpiry {
  import opened Prelude
  import opened PagingProtocol
  import opened PagingLiveness

  lemma ExecSnoc(T: nat, steps: seq<Step>, x: Step)
    ensures Exec(T, Init(), steps + [x]) == Apply(T, Exec(T, Init(), steps), x)
  {
    ExecAppend(T, Init(), steps, [x]);
    Exec1(T, Exec(T, Init(), steps), x);
  }

  /** The state before step i of a run. */
  ghost function Before(T: nat, steps: seq<Step>, i: nat): Net
    requires i <= |steps|
  {
    Exec(T, Init(), steps[..i])
  }

  lemma StepAt(T: nat, steps: seq<Step>, i: nat)
    requires i < |steps|
    ensures Before(T, steps, i + 1) == Apply(T, Before(T, steps, i), steps[i])
  {
    assert steps[..i + 1] == steps[..i] + [steps[i]];
    ExecSnoc(T, steps[..i], steps[i]);
  }

  // ------------------------------------------------------------ what is received

  ghost predicate MarksPage(T: nat, steps: seq<Step>, i: nat, p: nat) {
    i < |steps| && steps[i].Mark? &&
    var n := Before(T, steps, i);
    steps[i].h in n.handlers && n.handlers[steps[i].h].at.Stored? && n.handlers[steps[i].h].page == p
  }

  /** Among the first m steps page p was marked, and the received set has not expired since. */
  ghost predicate MarkedSinceExpiry(T: nat, steps: seq<Step>, m: nat, p: nat) {
    exists i :: 0 <= i < m && MarksPage(T, steps, i, p) && LivesFrom(steps, i + 1, m)
  }

  ghost predicate LivesFrom(steps: seq<Step>, i: nat, m: nat) {
    forall j :: i <= j < m && j < |steps| ==> !steps[j].ExpireReceived?
  }

  lemma {:induction false} ReceivedIffMarked(T: nat, steps: seq<Step>, m: nat, p: nat)
    requires m <= |steps|
    ensures p in Before(T, steps, m).received <==> MarkedSinceExpiry(T, steps, m, p)
  {
    if m > 0 {
      var n := Before(T, steps, m - 1);
      ReceivedIffMarked(T, steps, m - 1, p);
      StepAt(T, steps, m - 1);
      if MarksPage(T, steps, m - 1, p) {
        assert LivesFrom(steps, m, m);
      }
      if MarkedSinceExpiry(T, steps, m - 1, p) && !steps[m - 1].ExpireReceived? {
        var i :| 0 <= i < m - 1 && MarksPage(T, steps, i, p) && LivesFrom(steps, i + 1, m - 1);
        assert LivesFrom(steps, i + 1, m);
      }
      if MarkedSinceExpiry(T, steps, m, p) && !MarksPage(T, steps, m - 1, p) {
        var i :| 0 <= i < m && MarksPage(T, steps, i, p) && LivesFrom(steps, i + 1, m);
        assert i < m - 1 && LivesFrom(steps, i + 1, m - 1);
      }
    }
  }

  ghost predicate WinsPage(T: nat, steps: seq<Step>, i: nat, p: nat) {
    i < |steps| && steps[i].Trigger? &&
    var n := Before(T, steps, i);
    steps[i].h in n.handlers && n.handlers[steps[i].h].at.Snapshot? && p !in n.triggers && p <= T &&
    p == MaxPage(n.handlers[steps[i].h].at.seen) + 1
  }

  ghost predicate KeyLivesFrom(steps: seq<Step>, i: nat, m: nat, p: nat) {
    forall j :: i <= j < m && j < |steps| ==> steps[j] != ExpireTrigger(p)
  }

  /** Among the first m steps a handler won the key of page p, and the key has not expired since. */
  ghost predicate WonSinceExpiry(T: nat, steps: seq<Step>, m: nat, p: nat) {
    exists i :: 0 <= i < m && WinsPage(T, steps, i, p) && KeyLivesFrom(steps, i + 1, m, p)
  }

  lemma TriggersChange(T: nat, steps: seq<Step>, i: nat, p: nat)
    requires i < |steps|
    ensures p in Before(T, steps, i + 1).triggers <==>
      WinsPage(T, steps, i, p) || (p in Before(T, steps, i).triggers && steps[i] != ExpireTrigger(p))
  {
    StepAt(T, steps, i);
    hide Before;
  }

  /** A page's trigger key is set if and only if a handler won it and it has not expired since. */
  lemma {:induction false} TriggeredIffWon(T: nat, steps: seq<Step>, m: nat, p: nat)
    requires m <= |steps|
    ensures p in Before(T, steps, m).triggers <==> WonSinceExpiry(T, steps, m, p)
  {
    if m > 0 {
      TriggeredIffWon(T, steps, m - 1, p);
      TriggersChange(T, steps, m - 1, p);
      hide Before;
      hide WinsPage;
      if WinsPage(T, steps, m - 1, p) {
        assert KeyLivesFrom(steps, m, m, p);
      }
      if WonSinceExpiry(T, steps, m - 1, p) && steps[m - 1] != ExpireTrigger(p) {
        var i :| 0 <= i < m - 1 && WinsPage(T, steps, i, p) && KeyLivesFrom(steps, i + 1, m - 1, p);
        assert KeyLivesFrom(steps, i + 1, m, p);
      }
      if WonSinceExpiry(T, steps, m, p) && !WinsPage(T, steps, m - 1, p) {
        var i :| 0 <= i < m && WinsPage(T, steps, i, p) && KeyLivesFrom(steps, i + 1, m, p);
        assert i < m - 1 && KeyLivesFrom(steps, i + 1, m - 1, p);
      }
    }
  }

  // ------------------------------------------------------ from snapshot to cleanup

  predicate HasSeen(at: Progress) {
    at.Snapshot? || at.Won? || at.Deciding?
  }

  function SeenBy(at: Progress): set<nat>
    requires HasSeen(at)
  {
    match at
    case Snapshot(seen) => seen
    case Won(seen, _) => seen
    case Deciding(seen) => seen
  }

  ghost predicate ReadsAt(T: nat, steps: seq<Step>, i: nat, h: nat) {
    i < |steps| && steps[i] == Read(h) &&
    h in Before(T, steps, i).handlers && Before(T, steps, i).handlers[h].at.Marked?
  }

  ghost predicate FinishesAt(T: nat, steps: seq<Step>, i: nat, h: nat) {
    i < |steps| && steps[i] == Finish(h) &&
    h in Before(T, steps, i).handlers && Before(T, steps, i).handlers[h].at.Deciding?
  }

  /** Every snapshot comes from an earlier read of the handler. */
  lemma {:induction false} SnapshotOrigin(T: nat, steps: seq<Step>, m: nat, h: nat) returns (i: nat)
    requires m <= |steps| && h in Before(T, steps, m).handlers && HasSeen(Before(T, steps, m).handlers[h].at)
    ensures i < m && ReadsAt(T, steps, i, h)
    ensures SeenBy(Before(T, steps, m).handlers[h].at) == Before(T, steps, i).received
  {
    if m > 0 {
      StepAt(T, steps, m - 1);
      if ReadsAt(T, steps, m - 1, h) {
        i := m - 1;
      } else {
        i := SnapshotOrigin(T, steps, m - 1, h);
      }
    }
  }

  /** After its read a handler keeps its snapshot until it is done. */
  lemma {:induction false} SnapshotFate(T: nat, steps: seq<Step>, i: nat, m: nat, h: nat)
    requires i < m <= |steps| && ReadsAt(T, steps, i, h)
    ensures var n := Before(T, steps, m);
      h in n.handlers &&
      (n.handlers[h].at.Done? ||
       (HasSeen(n.handlers[h].at) && SeenBy(n.handlers[h].at) == Before(T, steps, i).received))
    decreases m
  {
    var n := Before(T, steps, m - 1);
    if i < m - 1 {
      SnapshotFate(T, steps, i, m - 1, h);
    }
    StepAt(T, steps, m - 1);
    hide Before;
    hide MaxPage;
    KeepsSnapshot(T, n, steps[m - 1], h);
  }

  lemma KeepsSnapshot(T: nat, n: Net, step: Step, h: nat)
    requires h in n.handlers
    ensures var n' := Apply(T, n, step);
      h in n'.handlers &&
      (n.handlers[h].at.Done? ==> n'.handlers[h].at.Done?) &&
      (HasSeen(n.handlers[h].at) && !n'.handlers[h].at.Done? ==>
        HasSeen(n'.handlers[h].at) && SeenBy(n'.handlers[h].at) == SeenBy(n.handlers[h].at)) &&
      (step == Read(h) && n.handlers[h].at.Marked? ==> n'.handlers[h].at == Snapshot(n.received))
  {
    hide MaxPage;
  }

  /** The handler read the received set when every page had been marked since its last expiry. */
  ghost predicate ReadsAll(T: nat, steps: seq<Step>, i: nat, h: nat) {
    ReadsAt(T, steps, i, h) && forall p: nat :: 1 <= p <= T ==> MarkedSinceExpiry(T, steps, i, p)
  }

  /** The received set counts T pages exactly when all of 1..T have been marked since its last expiry. */
  lemma FullCountIff(T: nat, steps: seq<Step>, m: nat)
    requires m <= |steps|
    ensures |Before(T, steps, m).received| == T <==> forall p: nat :: 1 <= p <= T ==> MarkedSinceExpiry(T, steps, m, p)
  {
    var r := Before(T, steps, m).received;
    SafeRun(T, Init(), steps[..m]);
    Pigeonhole(r, T);
    forall p: nat ensures p in r <==> MarkedSinceExpiry(T, steps, m, p) {
      ReceivedIffMarked(T, steps, m, p);
    }
    if Covers(r, T) {
      CoversCounts(r, T);
    }
  }

  lemma {:induction false} CleanedBy(T: nat, steps: seq<Step>, m: nat) returns (i: nat, j: nat, h: nat)
    requires m <= |steps| && Before(T, steps, m).cleaned
    ensures i < j < m && ReadsAll(T, steps, i, h) && FinishesAt(T, steps, j, h)
  {
    if m > 0 {
      StepAt(T, steps, m - 1);
      if Before(T, steps, m - 1).cleaned {
        i, j, h := CleanedBy(T, steps, m - 1);
      } else {
        j, h := m - 1, steps[m - 1].h;
        i := SnapshotOrigin(T, steps, m - 1, h);
        FullCountIff(T, steps, i);
      }
    }
  }

  lemma {:induction false} CleanedStays(T: nat, steps: seq<Step>, i: nat, m: nat)
    requires i <= m <= |steps| && Before(T, steps, i).cleaned
    ensures Before(T, steps, m).cleaned
    decreases m
  {
    if i < m {
      CleanedStays(T, steps, i, m - 1);
      StepAt(T, steps, m - 1);
    }
  }

  /**
   * The exact condition for the cleanup, key expiry, failures and duplicates included: some
   * handler read the received set at a moment when each page 1..T had been marked since the last
   * expiry of that set, and later finished.
   */
  lemma CleanupRunsIff(T: nat, steps: seq<Step>)
    ensures Exec(T, Init(), steps).cleaned <==>
      exists i, j, h :: 0 <= i < j < |steps| && ReadsAll(T, steps, i, h) && FinishesAt(T, steps, j, h)
  {
    assert steps[..|steps|] == steps;
    if Exec(T, Init(), steps).cleaned {
      var i, j, h := CleanedBy(T, steps, |steps|);
    }
    forall i, j, h | 0 <= i < j < |steps| && ReadsAll(T, steps, i, h) && FinishesAt(T, steps, j, h)
      ensures Exec(T, Init(), steps).cleaned
    {
      SnapshotFate(T, steps, i, j, h);
      FullCountIff(T, steps, i);
      StepAt(T, steps, j);
      CleanedStays(T, steps, j + 1, |steps|);
    }
  }

  // ------------------------------------------------------------------- lost pages

  ghost predicate HandlerWithout(h: Handler, p: nat) {
    (h.page == p ==> !h.at.Arrived? && !h.at.Stored?) && (HasSeen(h.at) ==> p !in SeenBy(h.at))
  }

  /** Page p is not in the received set, nobody is about to mark it, and no snapshot holds it. */
  ghost predicate Lost(n: Net, p: nat) {
    p !in n.received && forall h :: h in n.handlers ==> HandlerWithout(n.handlers[h], p)
  }

  ghost predicate NeverDelivered(steps: seq<Step>, p: nat) {
    forall x :: x in steps && x.Deliver? ==> x.p != p
  }

  lemma LostStep(T: nat, n: Net, step: Step, p: nat)
    requires Safe(T, n) && Lost(n, p) && 1 <= p <= T && (step.Deliver? ==> step.p != p)
    ensures Lost(Apply(T, n, step), p) && Apply(T, n, step).cleaned == n.cleaned
  {
    var n' := Apply(T, n, step);
    if step.Finish? && AboutToClean(T, n, step.h) {
      assert HandlerSafe(T, n, n.handlers[step.h]) && HandlerWithout(n.handlers[step.h], p);
      FullSnapshot(T, n, n.handlers[step.h].at.seen);
    }
    forall h | h in n'.handlers ensures HandlerWithout(n'.handlers[h], p) {
      if h in n.handlers {
        assert HandlerWithout(n.handlers[h], p);
      }
    }
  }

  lemma {:induction false} LostStays(T: nat, n: Net, steps: seq<Step>, p: nat)
    requires Safe(T, n) && Lost(n, p) && 1 <= p <= T && NeverDelivered(steps, p)
    ensures Lost(Exec(T, n, steps), p) && Exec(T, n, steps).cleaned == n.cleaned
    decreases |steps|
  {
    if steps != [] {
      assert steps[0] in steps && forall x :: x in steps[1..] ==> x in steps;
      LostStep(T, n, steps[0], p);
      SafeStep(T, n, steps[0]);
      LostStays(T, Apply(T, n, steps[0]), steps[1..], p);
    }
  }

  /** Once a page is lost the cleanup does not run any more, until that page is delivered again. */
  lemma LostPageBlocksCleanup(T: nat, steps: seq<Step>, later: seq<Step>, p: nat)
    requires Lost(Exec(T, Init(), steps), p) && 1 <= p <= T && NeverDelivered(later, p)
    ensures Exec(T, Init(), steps + later).cleaned == Exec(T, Init(), steps).cleaned
  {
    SafeRun(T, Init(), steps);
    LostStays(T, Exec(T, Init(), steps), later, p);
    ExecAppend(T, Init(), steps, later);
  }

  // ---------------------------------------------------------------------- repair

  /** Whatever arrives, is attempted or received was asked for. */
  ghost predicate Asked(n: Net) {
    1 in n.sent && (forall h :: h in n.handlers ==> n.handlers[h].page in n.sent) &&
    (forall p :: p in n.attempted ==> p in n.sent)
  }

  lemma {:induction false} AskedRun(T: nat, n: Net, steps: seq<Step>)
    requires Asked(n)
    ensures Asked(Exec(T, n, steps))
    decreases |steps|
  {
    if steps != [] {
      AskedStep(T, n, steps[0]);
      AskedRun(T, Apply(T, n, steps[0]), steps[1..]);
    }
  }

  lemma AskedStep(T: nat, n: Net, step: Step)
    requires Asked(n)
    ensures Asked(Apply(T, n, step))
  {
    hide MaxPage;
  }

  /** The key of page p is set, but the request was lost: p was not sent and nobody will send it. */
  ghost predicate Stuck(T: nat, n: Net, p: nat) {
    p in n.triggers && p <= T && !Requested(n, p)
  }

  ghost predicate TriggersHonoured(T: nat, n: Net) {
    forall p :: p in n.triggers && p <= T ==> Requested(n, p)
  }

  lemma HonouredStep(T: nat, n: Net, step: Step)
    requires TriggersHonoured(T, n) && (step.Send? ==> step.ok)
    ensures TriggersHonoured(T, Apply(T, n, step))
  {
    var n' := Apply(T, n, step);
    forall p | p in n'.triggers && p <= T ensures Requested(n', p) {
      if p in n.triggers {
        RequestStays(T, n, step, p);
      } else {
        assert WillSend(n', step.h, p);
      }
    }
  }

  lemma {:induction false} HonouredRun(T: nat, n: Net, steps: seq<Step>)
    requires TriggersHonoured(T, n) && NoFailedSend(steps)
    ensures TriggersHonoured(T, Exec(T, n, steps))
    decreases |steps|
  {
    if steps != [] {
      assert steps[0] in steps && forall x :: x in steps[1..] ==> x in steps;
      HonouredStep(T, n, steps[0]);
      HonouredRun(T, Apply(T, n, steps[0]), steps[1..]);
    }
  }

  /** All that is known of a reachable state in which no request was lost. */
  ghost predicate Sound(T: nat, n: Net) {
    Safe(T, n) && InOrder(n) && Asked(n) && TriggersHonoured(T, n)
  }

  lemma SoundRun(T: nat, n: Net, steps: seq<Step>)
    requires Sound(T, n) && NoFailedSend(steps)
    ensures Sound(T, Exec(T, n, steps))
  {
    SafeRun(T, n, steps);
    InOrderRun(T, n, steps);
    AskedRun(T, n, steps);
    HonouredRun(T, n, steps);
  }

  /** One page more delivered, stored and marked. */
  lemma DeliverPage(T: nat, n: Net, p: nat) returns (h: nat, steps: seq<Step>)
    requires T >= 1 && p in n.sent
    ensures Orderly(steps) && |steps| == 3
    ensures var n' := Exec(T, n, steps);
      n'.received == n.received + {p} && h in n'.handlers && n'.handlers[h].at == Marked
  {
    h := FreshHandler(n.handlers);
    steps := [Deliver(h, p), Store(h, true), Mark(h)];
    Exec3(T, n, Deliver(h, p), Store(h, true), Mark(h));
  }

  /** Nothing beyond a page that was not asked for is received. */
  lemma HighestReceived(T: nat, n: Net, q: nat)
    requires InOrder(n) && Asked(n) && q >= 1 && Covers(n.received, q) && q + 1 !in n.sent
    ensures MaxPage(n.received) == q
  {
    assert q in n.received;
    forall p | p in n.received ensures p <= q {
      assert AttemptedBefore(n, p + 1);
    }
  }

  /** A handler that has just marked its page brings about the request of page q + 1. */
  lemma AskForNext(T: nat, n: Net, h: nat, q: nat) returns (steps: seq<Step>)
    requires Sound(T, n) && 1 <= q < T && Covers(n.received, q) && h in n.handlers && n.handlers[h].at == Marked
    ensures Orderly(steps) && |steps| <= 3
    ensures Exec(T, n, steps).received == n.received && q + 1 in Exec(T, n, steps).sent
    ensures q + 1 in n.sent ==> steps == []
  {
    if q + 1 in n.sent {
      steps := [];
    } else {
      HighestReceived(T, n, q);
      var n1 := Apply(T, n, Read(h));
      var n2 := Apply(T, n1, Trigger(h));
      HonouredStep(T, n, Read(h));
      HonouredStep(T, n1, Trigger(h));
      assert q + 1 in n2.triggers;
      var rest := SendNow(T, n2, q + 1);
      Exec2(T, n, Read(h), Trigger(h));
      ExecAppend(T, n, [Read(h), Trigger(h)], rest);
      steps := [Read(h), Trigger(h)] + rest;
    }
  }

  ghost predicate AllSent(n: Net, q: nat) {
    forall p: nat :: 1 <= p <= q ==> p in n.sent
  }

  lemma {:induction false} SentStays(T: nat, n: Net, steps: seq<Step>, p: nat)
    requires p in n.sent
    ensures p in Exec(T, n, steps).sent
    decreases |steps|
  {
    if steps != [] {
      SentStays(T, Apply(T, n, steps[0]), steps[1..], p);
    }
  }

  lemma SoundAsks(T: nat, n: Net)
    requires Sound(T, n)
    ensures 1 in n.sent
  {}

  lemma OrderlySends(steps: seq<Step>)
    requires Orderly(steps)
    ensures NoFailedSend(steps)
  {}

  /** The pages 1..q delivered once more, each asked for if it was not. */
  lemma {:induction false} CatchUp(T: nat, n: Net, q: nat) returns (h: nat, steps: seq<Step>)
    requires Sound(T, n) && 1 <= q <= T
    ensures Orderly(steps) && |steps| <= 6 * q - 3 && (AllSent(n, q) ==> |steps| == 3 * q)
    ensures var n' := Exec(T, n, steps); Covers(n'.received, q) && h in n'.handlers && n'.handlers[h].at == Marked
  {
    hide Apply;
    hide Exec;
    hide Orderly;
    hide Sound;
    if q == 1 {
      assert 1 in n.sent by { SoundAsks(T, n); }
      h, steps := DeliverPage(T, n, 1);
    } else {
      var g, before := CatchUp(T, n, q - 1);
      OrderlySends(before);
      SoundRun(T, n, before);
      var n1 := Exec(T, n, before);
      if q in n.sent {
        SentStays(T, n, before, q);
      }
      var ask := AskForNext(T, n1, g, q - 1);
      var n2 := Exec(T, n1, ask);
      var last;
      h, last := DeliverPage(T, n2, q);
      ThreeParts(T, n, before, ask, last);
      steps := before + ask + last;
    }
  }

  lemma ThreeParts(T: nat, n: Net, a: seq<Step>, b: seq<Step>, c: seq<Step>)
    requires Orderly(a) && Orderly(b) && Orderly(c)
    ensures Orderly(a + b + c) && Exec(T, n, a + b + c) == Exec(T, Exec(T, Exec(T, n, a), b), c)
  {
    hide Apply;
    ExecAppend(T, n, a, b);
    ExecAppend(T, n, a + b, c);
  }

  lemma CleanupFollows(T: nat, n: Net, h: nat)
    requires Safe(T, n) && T >= 1 && Covers(n.received, T) && h in n.handlers && n.handlers[h].at == Marked
    ensures Exec(T, n, [Read(h), Trigger(h), Finish(h)]).cleaned
  {
    Pigeonhole(n.received, T);
    CoversCounts(n.received, T);
    assert MaxPage(n.received) in n.received && T in n.received;
    Exec3(T, n, Read(h), Trigger(h), Finish(h));
  }

  lemma RepairFrom(T: nat, n: Net) returns (more: seq<Step>)
    requires T >= 1 && Sound(T, n)
    ensures Orderly(more) && |more| <= 6 * T && Exec(T, n, more).cleaned
    ensures AllSent(n, T) ==> |more| == 3 * T + 3
  {
    var h, pages := CatchUp(T, n, T);
    SoundRun(T, n, pages);
    var last := [Read(h), Trigger(h), Finish(h)];
    CleanupFollows(T, Exec(T, n, pages), h);
    ExecAppend(T, n, pages, last);
    more := pages + last;
  }

  lemma Reachable(T: nat, steps: seq<Step>)
    ensures var n := Exec(T, Init(), steps); Safe(T, n) && InOrder(n) && Asked(n)
  {
    SafeRun(T, Init(), steps);
    InOrderRun(T, Init(), steps);
    AskedRun(T, Init(), steps);
  }

  /** A page whose trigger key is set is not won a second time. */
  lemma RequestOrigin(T: nat, n: Net, step: Step, p: nat)
    requires p in n.triggers && Requested(Apply(T, n, step), p)
    ensures Requested(n, p)
  {
    var n' := Apply(T, n, step);
    if p in n'.sent {
      assert p in n.sent || WillSend(n, step.h, p);
    } else {
      var h :| WillSend(n', h, p);
      assert WillSend(n, h, p);
    }
  }

  lemma StuckStep(T: nat, n: Net, step: Step, p: nat)
    requires Stuck(T, n, p) && !step.ExpireTrigger?
    ensures Stuck(T, Apply(T, n, step), p)
  {
    if Requested(Apply(T, n, step), p) {
      RequestOrigin(T, n, step, p);
    }
  }

  lemma {:induction false} StuckStays(T: nat, n: Net, steps: seq<Step>, p: nat)
    requires Stuck(T, n, p) && Asked(n) && NoTriggerExpiry(steps)
    ensures Stuck(T, Exec(T, n, steps), p) && Asked(Exec(T, n, steps))
    decreases |steps|
  {
    if steps != [] {
      assert steps[0] in steps && forall x :: x in steps[1..] ==> x in steps;
      StuckStep(T, n, steps[0], p);
      AskedStep(T, n, steps[0]);
      StuckStays(T, Apply(T, n, steps[0]), steps[1..], p);
    }
  }

  ghost predicate NoTriggerExpiry(steps: seq<Step>) {
    forall x :: x in steps ==> !x.ExpireTrigger?
  }

  /** A page whose request was lost, and whose key lives, keeps the transaction from being cleaned up. */
  lemma LostRequestBlocksCleanup(T: nat, steps: seq<Step>, later: seq<Step>, p: nat)
    requires T >= 1 && Stuck(T, Exec(T, Init(), steps), p) && NoTriggerExpiry(later)
    ensures !Exec(T, Init(), steps + later).cleaned
  {
    Reachable(T, steps);
    StuckStays(T, Exec(T, Init(), steps), later, p);
    ExecAppend(T, Init(), steps, later);
    Reachable(T, steps + later);
    TriggersAreLater(T, steps);
    var n := Exec(T, Init(), steps + later);
    assert n.cleaned ==> p in n.attempted;
  }

  lemma {:induction false} TriggersAreLater(T: nat, steps: seq<Step>)
    ensures forall p :: p in Exec(T, Init(), steps).triggers ==> p >= 1
    decreases |steps|
  {
    if steps != [] {
      var last := |steps| - 1;
      TriggersAreLater(T, steps[..last]);
      assert steps == steps[..last] + [steps[last]];
      ExecSnoc(T, steps[..last], steps[last]);
    }
  }

  /**
   * A reachable state, whatever expired, was lost or failed before, can be brought to the cleanup
   * without any key expiring if and only if no request was lost: each page whose trigger key is set
   * was sent or is about to be. Then 6 * T steps suffice.
   */
  lemma CanBeRepairedIff(T: nat, steps: seq<Step>)
    requires T >= 1
    ensures (exists more :: Orderly(more) && |more| <= 6 * T && Exec(T, Init(), steps + more).cleaned) <==>
      TriggersHonoured(T, Exec(T, Init(), steps))
    ensures (exists more :: Orderly(more) && Exec(T, Init(), steps + more).cleaned) <==>
      TriggersHonoured(T, Exec(T, Init(), steps))
  {
    var n := Exec(T, Init(), steps);
    Reachable(T, steps);
    if TriggersHonoured(T, n) {
      var more := RepairFrom(T, n);
      ExecAppend(T, Init(), steps, more);
      assert Orderly(more) && |more| <= 6 * T && Exec(T, Init(), steps + more).cleaned;
    } else {
      var p :| p in n.triggers && p <= T && !Requested(n, p);
      forall more | Orderly(more) ensures !Exec(T, Init(), steps + more).cleaned {
        LostRequestBlocksCleanup(T, steps, more, p);
      }
    }
  }

  /** The trigger keys of these pages expire, one after the other. */
  ghost function Expiries(pages: seq<nat>): seq<Step> {
    if pages == [] then [] else [ExpireTrigger(pages[0])] + Expiries(pages[1..])
  }

  lemma {:induction false} KeysGone(T: nat, n: Net, pages: seq<nat>)
    ensures Exec(T, n, Expiries(pages)) == n.(triggers := n.triggers - Elements(pages))
    decreases |pages|
  {
    if pages == [] {
      assert n.triggers - Elements(pages) == n.triggers;
    } else {
      var rest := Expiries(pages[1..]);
      assert ([ExpireTrigger(pages[0])] + rest)[1..] == rest;
      KeysGone(T, Apply(T, n, ExpireTrigger(pages[0])), pages[1..]);
      assert n.triggers - {pages[0]} - Elements(pages[1..]) == n.triggers - Elements(pages);
    }
  }

  /**
   * Lost requests are made good by time: once the trigger keys of all pages with a lost request have
   * expired, the transaction can be brought to the cleanup, whatever happened before.
   */
  lemma LostRequestsAreRetried(T: nat, steps: seq<Step>, pages: seq<nat>)
    requires T >= 1 && forall p :: Stuck(T, Exec(T, Init(), steps), p) ==> p in pages
    ensures exists more ::
      Orderly(more) && |more| <= 6 * T && Exec(T, Init(), (steps + Expiries(pages)) + more).cleaned
  {
    var n := Exec(T, Init(), steps);
    var expired := n.(triggers := n.triggers - Elements(pages));
    ExecAppend(T, Init(), steps, Expiries(pages));
    KeysGone(T, n, pages);
    assert TriggersHonoured(T, expired) by {
      forall p | p in expired.triggers && p <= T ensures Requested(expired, p) {
        assert p in n.triggers && !Stuck(T, n, p);
        if p !in n.sent {
          var h :| WillSend(n, h, p);
          assert WillSend(expired, h, p);
        }
      }
    }
    CanBeRepairedIff(T, steps + Expiries(pages));
  }

  /** If all sends succeed every run can be repaired, whatever keys have expired. */
  lemma EveryRunCanBeRepaired(T: nat, steps: seq<Step>) returns (more: seq<Step>)
    requires T >= 1 && NoFailedSend(steps)
    ensures Orderly(more) && |more| <= 6 * T && Exec(T, Init(), steps + more).cleaned
  {
    Reachable(T, steps);
    HonouredRun(T, Init(), steps);
    more := RepairFrom(T, Exec(T, Init(), steps));
    ExecAppend(T, Init(), steps, more);
  }

  /** So can every run in which all pages have been requested, lost sends included. */
  lemma RedeliveryRepairs(T: nat, steps: seq<Step>) returns (more: seq<Step>)
    requires T >= 1 && forall q :: 1 <= q <= T ==> q in Exec(T, Init(), steps).sent
    ensures Orderly(more) && |more| == 3 * T + 3 && Exec(T, Init(), steps + more).cleaned
  {
    Reachable(T, steps);
    TriggersAreLater(T, steps);
    more := RepairFrom(T, Exec(T, Init(), steps));
    ExecAppend(T, Init(), steps, more);
  }

  // ------------------------------------------------------------------- an example

  // A run with two pages in which the received set expires between the pages.
  ghost const FIRST := [Deliver(0, 1), Store(0, true), Mark(0)]
  ghost const SECOND := [Read(0), Trigger(0), Send(0, true)]
  ghost const THIRD := [Finish(0), ExpireReceived, Deliver(1, 2)]
  ghost const FOURTH := [Store(1, true), Mark(1), Read(1)]
  ghost const FIFTH := [Trigger(1), Finish(1)]

  ghost const AFTER1 := Net({1}, {}, [1], map[0 := Handler(1, Marked)], {1}, {1}, false)
  ghost const AFTER2 := Net({1}, {2}, [1, 2], map[0 := Handler(1, Deciding({1}))], {1}, {1}, false)
  ghost const AFTER3 := Net({}, {2}, [1, 2], map[0 := Handler(1, Done), 1 := Handler(2, Arrived)], {1}, {1}, false)
  ghost const AFTER4 :=
    Net({2}, {2}, [1, 2], map[0 := Handler(1, Done), 1 := Handler(2, Snapshot({2}))], {1, 2}, {1, 2}, false)
  ghost const AFTER5 := Net({2}, {2}, [1, 2], map[0 := Handler(1, Done), 1 := Handler(2, Done)], {1, 2}, {1, 2}, false)

  lemma FirstPageOfTwo()
    ensures Exec(2, Init(), FIRST) == AFTER1 && Exec(2, AFTER1, SECOND) == AFTER2
  {
    Exec3(2, Init(), FIRST[0], FIRST[1], FIRST[2]);
    assert MaxPage({1}) == 1;
    Exec3(2, AFTER1, SECOND[0], SECOND[1], SECOND[2]);
  }

  lemma SecondPageOfTwo()
    ensures Exec(2, AFTER2, THIRD) == AFTER3 && Exec(2, AFTER3, FOURTH) == AFTER4
  {
    Exec3(2, AFTER2, THIRD[0], THIRD[1], THIRD[2]);
    Exec3(2, AFTER3, FOURTH[0], FOURTH[1], FOURTH[2]);
  }

  lemma LastStepsOfTwo()
    ensures Exec(2, AFTER4, FIFTH) == AFTER5
  {
    assert MaxPage({2}) == 2;
    Exec2(2, AFTER4, FIFTH[0], FIFTH[1]);
  }

  /**
   * Expiry can lose the cleanup: with two pages, if the received set expires before page 2 is
   * marked, both pages are stored, every handler is finished, every request was answered, and
   * the cleanup has not run; and it never runs unless page 1 is delivered again.
   */
  lemma ExpiryCanLoseTheCleanup() returns (steps: seq<Step>)
    ensures var n := Exec(2, Init(), steps);
      n.sent == [1, 2] && n.stored == {1, 2} && !n.cleaned && forall h :: h in n.handlers ==> n.handlers[h].at == Done
    ensures forall later :: NeverDelivered(later, 1) ==> !Exec(2, Init(), steps + later).cleaned
  {
    hide Exec;
    FirstPageOfTwo();
    SecondPageOfTwo();
    LastStepsOfTwo();
    steps := FIRST + (SECOND + (THIRD + (FOURTH + FIFTH)));
    ExecAppend(2, Init(), FIRST, SECOND + (THIRD + (FOURTH + FIFTH)));
    ExecAppend(2, AFTER1, SECOND, THIRD + (FOURTH + FIFTH));
    ExecAppend(2, AFTER2, THIRD, FOURTH + FIFTH);
    ExecAppend(2, AFTER3, FOURTH, FIFTH);
    forall later | NeverDelivered(later, 1) ensures !Exec(2, Init(), steps + later).cleaned {
      LostPageBlocksCleanup(2, steps, later, 1);
    }
  }
}
