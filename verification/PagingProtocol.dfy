/**
 * The paging protocol of one transaction with one BPP (handle_cron_on_search_v2 in
 * src/services/search.rs), without the table: webhook handlers run concurrently, may be
 * duplicated and delayed, and each Redis or SQL command is one atomic step. A step that
 * is not enabled leaves the state alone, so a statement about every sequence of steps is
 * a statement about every interleaving.
 */
module PagingProtocol {
  import opened Prelude

  /** Where a handler stands; `seen` is its private, possibly stale, answer to SMEMBERS. */
  datatype Progress =
    | Arrived
    | Stored
    | Marked
    | Snapshot(seen: set<nat>)
    | Won(seen: set<nat>, next: nat)
    | Deciding(seen: set<nat>)
    | Done

  datatype Handler = Handler(page: nat, at: Progress)

  /** The Redis keys, the requests sent so far, the handlers in flight, and a history of what was done. */
  datatype Net = Net(
    received: set<nat>, triggers: set<nat>, sent: seq<nat>, handlers: map<nat, Handler>,
    attempted: set<nat>, stored: set<nat>, cleaned: bool)

  datatype Step =
    | Deliver(h: nat, p: nat)
    | Store(h: nat, ok: bool)
    | Mark(h: nat)
    | Read(h: nat)
    | Trigger(h: nat)
    | Send(h: nat, ok: bool)
    | Finish(h: nat)
    | ExpireReceived
    | ExpireTrigger(n: nat)

  /** Page 1 has been requested; nothing has come back yet. */
  function Init(): Net {
    Net({}, {}, [1], map[], {}, {}, false)
  }

  /** total_pages = (total + limit - 1) / limit. */
  function TotalPages(total: nat, limit: nat): nat
    requires limit >= 1
  {
    (total + limit - 1) / limit
  }

  /** The page count is the ceiling of total / limit. */
  lemma PageCountIsCeiling(total: nat, limit: nat)
    requires limit >= 1
    ensures total <= TotalPages(total, limit) * limit < total + limit
    ensures total > 0 <==> TotalPages(total, limit) >= 1
  {
    var n := total + limit - 1;
    assert n == (n / limit) * limit + n % limit;
  }

  /** received_pages.iter().max().unwrap_or(0) */
  ghost function MaxPage(s: set<nat>): (m: nat)
    ensures s == {} ==> m == 0
    ensures s != {} ==> m in s
    ensures forall x :: x in s ==> x <= m
    decreases |s|
  {
    if s == {} then 0
    else
      var x :| x in s;
      var rest := MaxPage(s - {x});
      assert forall y :: y in s ==> y == x || y in s - {x};
      if x > rest then x else rest
  }

  ghost function Move(n: Net, h: nat, at: Progress): map<nat, Handler>
    requires h in n.handlers
  {
    n.handlers[h := n.handlers[h].(at := at)]
  }

  /** store_jobs, whose failure is only logged; a catalogue of zero items (T == 0) ends the handler here. */
  ghost function OnStore(T: nat, n: Net, h: nat, ok: bool): Net {
    if h in n.handlers && n.handlers[h].at.Arrived? then
      var p := n.handlers[h].page;
      n.(attempted := n.attempted + {p},
         stored := if ok then n.stored + {p} else n.stored,
         handlers := Move(n, h, if T == 0 then Done else Stored))
    else n
  }

  /** SADD of the handler's page. */
  ghost function OnMark(n: Net, h: nat): Net {
    if h in n.handlers && n.handlers[h].at.Stored?
    then n.(received := n.received + {n.handlers[h].page}, handlers := Move(n, h, Marked)) else n
  }

  /** SET NX on the key of the page after the highest one seen. */
  ghost function OnTrigger(T: nat, n: Net, h: nat): Net {
    if h in n.handlers && n.handlers[h].at.Snapshot? then
      var seen := n.handlers[h].at.seen;
      var next := MaxPage(seen) + 1;
      if next <= T && next !in n.triggers
      then n.(triggers := n.triggers + {next}, handlers := Move(n, h, Won(seen, next)))
      else n.(handlers := Move(n, h, Deciding(seen)))
    else n
  }

  ghost function OnSend(n: Net, h: nat, ok: bool): Net {
    if h in n.handlers && n.handlers[h].at.Won?
    then n.(sent := if ok then n.sent + [n.handlers[h].at.next] else n.sent,
            handlers := Move(n, h, Deciding(n.handlers[h].at.seen))) else n
  }

  /** A handler about to run the stale cleanup: it counted all pages. */
  ghost predicate AboutToClean(T: nat, n: Net, h: nat) {
    h in n.handlers && n.handlers[h].at.Deciding? && |n.handlers[h].at.seen| == T
  }

  ghost function OnFinish(T: nat, n: Net, h: nat): Net {
    if h in n.handlers && n.handlers[h].at.Deciding?
    then n.(cleaned := n.cleaned || AboutToClean(T, n, h), handlers := Move(n, h, Done)) else n
  }

  ghost function Apply(T: nat, n: Net, step: Step): Net {
    match step
    case Deliver(h, p) =>
      if h !in n.handlers && p in n.sent then n.(handlers := n.handlers[h := Handler(p, Arrived)]) else n
    case Store(h, ok) => OnStore(T, n, h, ok)
    case Mark(h) => OnMark(n, h)
    case Read(h) =>
      if h in n.handlers && n.handlers[h].at.Marked? then n.(handlers := Move(n, h, Snapshot(n.received))) else n
    case Trigger(h) => OnTrigger(T, n, h)
    case Send(h, ok) => OnSend(n, h, ok)
    case Finish(h) => OnFinish(T, n, h)
    case ExpireReceived => n.(received := {})
    case ExpireTrigger(p) => n.(triggers := n.triggers - {p})
  }

  ghost function Exec(T: nat, n: Net, steps: seq<Step>): Net
    decreases |steps|
  {
    if steps == [] then n else Exec(T, Apply(T, n, steps[0]), steps[1..])
  }

  lemma {:induction false} ExecAppend(T: nat, n: Net, a: seq<Step>, b: seq<Step>)
    ensures Exec(T, n, a + b) == Exec(T, Exec(T, n, a), b)
    decreases |a|
  {
    if a == [] {
      assert a + b == b;
    } else {
      assert (a + b)[0] == a[0] && (a + b)[1..] == a[1..] + b;
      ExecAppend(T, Apply(T, n, a[0]), a[1..], b);
    }
  }

  lemma Exec1(T: nat, n: Net, x: Step)
    ensures Exec(T, n, [x]) == Apply(T, n, x)
  {
    assert [x][1..] == [];
  }

  lemma Exec2(T: nat, n: Net, x: Step, y: Step)
    ensures Exec(T, n, [x, y]) == Apply(T, Apply(T, n, x), y)
  {
    assert [x, y][1..] == [y];
    Exec1(T, Apply(T, n, x), y);
  }

  lemma Exec3(T: nat, n: Net, x: Step, y: Step, z: Step)
    ensures Exec(T, n, [x, y, z]) == Apply(T, Apply(T, Apply(T, n, x), y), z)
  {
    assert [x, y, z][1..] == [y, z];
    Exec2(T, Apply(T, n, x), y, z);
  }

  lemma Exec4(T: nat, n: Net, x: Step, y: Step, z: Step, u: Step)
    ensures Exec(T, n, [x, y, z, u]) == Apply(T, Apply(T, Apply(T, Apply(T, n, x), y), z), u)
  {
    hide Apply;
    assert [x, y, z, u] == [x, y] + [z, u];
    ExecAppend(T, n, [x, y], [z, u]);
    Exec2(T, n, x, y);
    Exec2(T, Apply(T, Apply(T, n, x), y), z, u);
  }

  // ------------------------------------------- safety, key expiry and failures allowed

  ghost predicate Requestable(T: nat, p: nat) {
    p == 1 || 1 <= p <= T
  }

  ghost predicate SeenOk(T: nat, n: Net, seen: set<nat>) {
    forall p :: p in seen ==> 1 <= p <= T && p in n.attempted
  }

  ghost predicate HandlerSafe(T: nat, n: Net, h: Handler) {
    Requestable(T, h.page) &&
    (!h.at.Arrived? && !h.at.Done? ==> h.page in n.attempted && T > 0) &&
    (h.at.Snapshot? ==> SeenOk(T, n, h.at.seen)) &&
    (h.at.Won? ==> SeenOk(T, n, h.at.seen) && 1 <= h.at.next <= T) &&
    (h.at.Deciding? ==> SeenOk(T, n, h.at.seen))
  }

  ghost predicate Safe(T: nat, n: Net) {
    (forall p :: p in n.sent ==> Requestable(T, p)) &&
    (forall p :: p in n.attempted ==> Requestable(T, p)) &&
    n.stored <= n.attempted &&
    SeenOk(T, n, n.received) &&
    (forall h :: h in n.handlers ==> HandlerSafe(T, n, n.handlers[h])) &&
    (n.cleaned ==> T > 0 && Covers(n.attempted, T))
  }

  /** Seeing T pages among 1..T is seeing them all. */
  lemma FullSnapshot(T: nat, n: Net, seen: set<nat>)
    requires SeenOk(T, n, seen) && |seen| == T
    ensures Covers(seen, T) && Covers(n.attempted, T)
  {
    Pigeonhole(seen, T);
  }

  /** Handlers that do not move stay safe while pages only accumulate. */
  lemma OthersSafe(T: nat, n: Net, n': Net)
    requires forall h :: h in n.handlers ==> HandlerSafe(T, n, n.handlers[h])
    requires n.attempted <= n'.attempted
    ensures forall h :: h in n.handlers ==> HandlerSafe(T, n', n.handlers[h])
  {
    forall h | h in n.handlers ensures HandlerSafe(T, n', n.handlers[h]) {
      assert HandlerSafe(T, n, n.handlers[h]);
    }
  }

  lemma SafeStep(T: nat, n: Net, step: Step)
    requires Safe(T, n)
    ensures Safe(T, Apply(T, n, step))
  {
    var n' := Apply(T, n, step);
    OthersSafe(T, n, n');
    if !step.ExpireReceived? && !step.ExpireTrigger? && step.h in n.handlers {
      assert HandlerSafe(T, n, n.handlers[step.h]);
      if step.Finish? && AboutToClean(T, n, step.h) {
        FullSnapshot(T, n, n.handlers[step.h].at.seen);
      }
      assert HandlerSafe(T, n', n'.handlers[step.h]);
    }
  }

  lemma {:induction false} SafeRun(T: nat, n: Net, steps: seq<Step>)
    requires Safe(T, n)
    ensures Safe(T, Exec(T, n, steps))
    decreases |steps|
  {
    if steps != [] {
      SafeStep(T, n, steps[0]);
      SafeRun(T, Apply(T, n, steps[0]), steps[1..]);
    }
  }

  // --------------------------------------------- pages are first stored in order

  /** store_jobs was run for all pages before p. */
  ghost predicate AttemptedBefore(n: Net, p: nat) {
    forall q: nat :: 1 <= q < p ==> q in n.attempted
  }

  ghost predicate SeenInOrder(n: Net, seen: set<nat>) {
    forall p :: p in seen ==> AttemptedBefore(n, p + 1)
  }

  ghost predicate HandlerInOrder(n: Net, h: Handler) {
    AttemptedBefore(n, h.page) &&
    (h.at.Stored? ==> h.page in n.attempted) &&
    (h.at.Snapshot? ==> SeenInOrder(n, h.at.seen)) &&
    (h.at.Won? ==> AttemptedBefore(n, h.at.next))
  }

  ghost predicate InOrder(n: Net) {
    (forall p :: p in n.sent ==> AttemptedBefore(n, p)) && SeenInOrder(n, n.received) &&
    (forall h :: h in n.handlers ==> HandlerInOrder(n, n.handlers[h]))
  }

  lemma InOrderStep(T: nat, n: Net, step: Step)
    requires InOrder(n)
    ensures InOrder(Apply(T, n, step))
  {
    var n' := Apply(T, n, step);
    forall p | AttemptedBefore(n, p) ensures AttemptedBefore(n', p) {}
    forall h | h in n'.handlers ensures HandlerInOrder(n', n'.handlers[h]) {
      if h in n.handlers {
        assert HandlerInOrder(n, n.handlers[h]);
      }
    }
  }

  /**
   * In every interleaving, expiry and failures included, a page is requested, delivered and
   * stored only after store_jobs was run for all pages before it.
   */
  lemma {:induction false} InOrderRun(T: nat, n: Net, steps: seq<Step>)
    requires InOrder(n)
    ensures InOrder(Exec(T, n, steps))
    decreases |steps|
  {
    if steps != [] {
      InOrderStep(T, n, steps[0]);
      InOrderRun(T, Apply(T, n, steps[0]), steps[1..]);
    }
  }

  ghost predicate NoFailedStore(steps: seq<Step>) {
    forall x :: x in steps && x.Store? ==> x.ok
  }

  lemma {:induction false} AttemptedMeansStored(T: nat, n: Net, steps: seq<Step>)
    requires n.attempted == n.stored && NoFailedStore(steps)
    ensures Exec(T, n, steps).attempted == Exec(T, n, steps).stored
    decreases |steps|
  {
    if steps != [] {
      assert steps[0] in steps && forall x :: x in steps[1..] ==> x in steps;
      AttemptedMeansStored(T, Apply(T, n, steps[0]), steps[1..]);
    }
  }

  /**
   * In every interleaving, with duplicates, lost sends and key expiry, whoever runs the
   * cleanup does so after store_jobs was run for every page, and after it succeeded for
   * every page unless some store_jobs call failed.
   */
  lemma CleanupComesAfterEveryPage(T: nat, steps: seq<Step>, h: nat)
    requires AboutToClean(T, Exec(T, Init(), steps), h)
    ensures Covers(Exec(T, Init(), steps).attempted, T)
    ensures NoFailedStore(steps) ==> Covers(Exec(T, Init(), steps).stored, T)
  {
    var n := Exec(T, Init(), steps);
    SafeRun(T, Init(), steps);
    assert HandlerSafe(T, n, n.handlers[h]);
    FullSnapshot(T, n, n.handlers[h].at.seen);
    if NoFailedStore(steps) {
      AttemptedMeansStored(T, Init(), steps);
    }
  }
}
