/**
 * Which catalogues can be stored: store_jobs fails on the unique hash index, the paging
 * protocol goes on all the same (src/services/search.rs, src/db/job.rs). Here every call of
 * store_jobs succeeds or fails as the table decides.
 */
module CatalogueStores {
  import opened Prelude
  import opened JsonValue
  import opened Jobs
  import opened PagingProtocol
  import opened PagingRuns
  import opened CatalogueSync

  /** The pages a transaction can deliver: 1..last, and page 1 of an empty catalogue. */
  function LastPage(c: Catalogue): nat {
    if c.last == 0 then 1 else c.last
  }

  ghost predicate Listed(c: Catalogue, k: JobKey) {
    exists p :: 1 <= p <= LastPage(c) && k in Keys(c.page(p))
  }

  /** The catalogue mentions k before its i-th entry of page p. */
  ghost predicate Earlier(c: Catalogue, p: nat, i: nat, k: JobKey)
    requires i <= |c.page(p)|
  {
    k in Keys(c.page(p)[..i]) || exists q :: 1 <= q < p && k in Keys(c.page(q))
  }

  ghost predicate NoListedTwins(c: Catalogue) {
    forall j, k :: Listed(c, j) && Listed(c, k) && j in c.listing && k in c.listing && j != k ==>
      c.listing[j].hash != c.listing[k].hash
  }

  /** The row k holds the digest of entry i of page p under another key. */
  ghost predicate Holds(c: Catalogue, p: nat, i: nat, k: JobKey) {
    1 <= p <= LastPage(c) && i < |c.page(p)| && k in c.initial && k != c.page(p)[i].key &&
    c.initial[k].hash == c.page(p)[i].hash
  }

  ghost predicate NoHeldDigest(c: Catalogue) {
    forall p: nat, i: nat, k :: Holds(c, p, i, k) ==> Earlier(c, p, i, k)
  }

  /**
   * No two listed jobs share a digest, and no row found at the start holds the digest of a
   * listed job under another key, unless the catalogue rewrites that row earlier.
   */
  ghost predicate FitsInOrder(c: Catalogue) {
    NoListedTwins(c) && NoHeldDigest(c)
  }

  /** In every interleaving every call of store_jobs succeeds. */
  ghost predicate StoresNeverFail(c: Catalogue) {
    forall events :: Honest(c, Start(c), events) ==> NoneFails(c, Start(c), events)
  }

  // --------------------------------------------------------------------- sufficiency

  /** A moment of a run in which everything attempted was stored. */
  ghost predicate Fine(c: Catalogue, w: World) {
    Safe(c.last, w.net) && InOrder(w.net) && w.net.attempted == w.net.stored && forall k :: KeyInv(c, w, k)
  }

  lemma StartIsFine(c: Catalogue)
    requires WellFormed(c)
    ensures Fine(c, Start(c))
  {
    forall k ensures KeyInv(c, Start(c), k) {
      assert KeyOk(c, k);
    }
  }

  lemma FineStep(c: Catalogue, w: World, e: Event)
    requires WellFormed(c) && Fine(c, w)
    requires e.Protocol? && CallsStore(w.net, e.step) ==> e.step.ok
    ensures Fine(c, Happen(c, w, e))
  {
    if e.Protocol? {
      SafeStep(c.last, w.net, e.step);
      InOrderStep(c.last, w.net, e.step);
    }
    forall k ensures KeyInv(c, Happen(c, w, e), k) {
      EventKeepsKey(c, w, e, k);
    }
  }

  lemma ListedHashesDiffer(c: Catalogue, j: JobKey, k: JobKey)
    requires WellFormed(c) && FitsInOrder(c) && Listed(c, j) && Listed(c, k) && j != k
    ensures j in c.listing && k in c.listing && c.listing[j].hash != c.listing[k].hash
  {
    var p, _ := ListedOnAPage(c, j);
    var q, _ := ListedOnAPage(c, k);
  }

  lemma StoredRowsDiffer(c: Catalogue, w: World, k: JobKey, j: JobKey)
    requires WellFormed(c) && FitsInOrder(c) && Fine(c, w) && On(c, w.net.stored, k) && Listed(c, j) && k != j
    ensures j in c.listing && k in w.table && w.table[k].hash != c.listing[j].hash
  {
    var q :| q in w.net.stored && k in Keys(c.page(q));
    assert Requestable(c.last, q) && Listed(c, k);
    assert KeyInv(c, w, k) && KeyOk(c, k);
    ListedHashesDiffer(c, k, j);
  }

  /** What a row of the table can hold while everything attempted was stored. */
  lemma HolderIsKnown(c: Catalogue, w: World, p: nat, i: nat, k: JobKey)
    requires WellFormed(c) && FitsInOrder(c) && Fine(c, w) && 1 <= p <= LastPage(c) && AttemptedBefore(w.net, p)
    requires i < |c.page(p)| && k in w.table && k != c.page(p)[i].key && w.table[k].hash == c.page(p)[i].hash
    ensures k in Keys(c.page(p)[..i])
  {
    var j := c.page(p)[i];
    assert KeyInv(c, w, k) && KeyOk(c, k) && PageOk(c, p);
    assert j in c.page(p) && j.key in Keys(c.page(p)) && Listed(c, j.key);
    if On(c, w.net.stored, k) {
      StoredRowsDiffer(c, w, k, j.key);
    } else {
      assert Holds(c, p, i, k);
      forall q | 1 <= q < p ensures k !in Keys(c.page(q)) {
        assert q in w.net.stored;
      }
    }
  }

  lemma NextPageIsStorable(c: Catalogue, w: World, p: nat)
    requires WellFormed(c) && FitsInOrder(c) && Fine(c, w) && 1 <= p <= LastPage(c) && AttemptedBefore(w.net, p)
    ensures Storable(w.table, c.page(p))
  {
    var jobs := c.page(p);
    assert PageOk(c, p);
    forall i, j | 0 <= i < j < |jobs| ensures jobs[i].hash != jobs[j].hash {
      assert jobs[i] in jobs && jobs[j] in jobs && jobs[i].key in Keys(jobs) && jobs[j].key in Keys(jobs);
      assert Listed(c, jobs[i].key) && Listed(c, jobs[j].key);
    }
    forall i, k | 0 <= i < |jobs| && k in w.table && k != jobs[i].key && w.table[k].hash == jobs[i].hash
      ensures k in Keys(jobs[..i])
    {
      HolderIsKnown(c, w, p, i, k);
    }
    HashesFitIff(w.table, jobs);
  }

  lemma {:induction false} FineRun(c: Catalogue, w: World, events: seq<Event>)
    requires WellFormed(c) && FitsInOrder(c) && Fine(c, w) && Honest(c, w, events)
    ensures NoneFails(c, w, events)
    decreases |events|
  {
    if events != [] {
      var e := events[0];
      if e.Protocol? && CallsStore(w.net, e.step) {
        var h := w.net.handlers[e.step.h];
        assert HandlerSafe(c.last, w.net, h) && HandlerInOrder(w.net, h);
        NextPageIsStorable(c, w, h.page);
      }
      FineStep(c, w, e);
      FineRun(c, Happen(c, w, e), events[1..]);
    }
  }

  // ----------------------------------------------------------------------- necessity

  function Events(steps: seq<Step>): seq<Event> {
    if steps == [] then [] else [Protocol(steps[0])] + Events(steps[1..])
  }

  /** Events only feed the protocol with their steps. */
  lemma {:induction false} NetOfRun(c: Catalogue, w: World, steps: seq<Step>)
    ensures Run(c, w, Events(steps)).net == Exec(c.last, w.net, steps)
    decreases |steps|
  {
    if steps != [] {
      assert Events(steps)[0] == Protocol(steps[0]) && Events(steps)[1..] == Events(steps[1..]);
      NetOfRun(c, Happen(c, w, Protocol(steps[0])), steps[1..]);
    }
  }

  lemma {:induction false} HonestAppend(c: Catalogue, w: World, a: seq<Event>, b: seq<Event>)
    ensures Honest(c, w, a + b) <==> Honest(c, w, a) && Honest(c, Run(c, w, a), b)
    ensures NoneFails(c, w, a + b) <==> NoneFails(c, w, a) && NoneFails(c, Run(c, w, a), b)
    decreases |a|
  {
    hide HonestEvent;
    hide CallsStore;
    hide Happen;
    if a == [] {
      assert a + b == b;
    } else {
      assert (a + b)[0] == a[0] && (a + b)[1..] == a[1..] + b;
      HonestAppend(c, Happen(c, w, a[0]), a[1..], b);
    }
  }

  /** Handler p takes page p, undisturbed, and its store ends as the table decides. */
  ghost function PageEvents(c: Catalogue, w: World, p: nat): seq<Event> {
    Events(Uninterrupted(p, p, Storable(w.table, c.page(p)), true))
  }

  /** The first m pages, one after the other. */
  ghost function FirstPages(c: Catalogue, m: nat): seq<Event> {
    if m == 0 then []
    else
      var before := FirstPages(c, m - 1);
      before + PageEvents(c, Run(c, Start(c), before), m)
  }

  ghost predicate Ready(n: Net, m: nat) {
    (forall h :: h in n.handlers ==> 1 <= h <= m) && m + 1 in n.sent &&
    (forall p: nat :: p in n.received <==> 1 <= p <= m) && (forall p :: p in n.triggers ==> p <= m + 1)
  }

  lemma PageIsHonest(c: Catalogue, w: World, p: nat)
    requires p !in w.net.handlers && p in w.net.sent
    ensures Honest(c, w, PageEvents(c, w, p))
    ensures NoneFails(c, w, PageEvents(c, w, p)) ==> Storable(w.table, c.page(p))
  {
    hide Storable;
    var ok := Storable(w.table, c.page(p));
    var a, b := Protocol(Deliver(p, p)), Protocol(Store(p, ok));
    var rest := [Mark(p), Read(p), Trigger(p), Send(p, true), Finish(p)];
    assert Uninterrupted(p, p, ok, true) == [Deliver(p, p)] + ([Store(p, ok)] + rest);
    EventsCons(Deliver(p, p), [Store(p, ok)] + rest);
    EventsCons(Store(p, ok), rest);
    var w1 := Happen(c, w, a);
    assert w1.net.handlers[p] == Handler(p, Arrived) && w1.table == w.table;
    NoStoreEvents(rest);
    WithoutStoresHonest(c, Happen(c, w1, b), Events(rest));
    var tail := [b] + Events(rest);
    assert PageEvents(c, w, p) == [a] + tail;
    assert tail[1..] == Events(rest) && ([a] + tail)[1..] == tail;
    assert Honest(c, w1, tail);
    assert CallsStore(w1.net, b.step);
    assert NoneFails(c, w, [a] + tail) ==> NoneFails(c, w1, tail);
  }

  lemma EventsCons(x: Step, rest: seq<Step>)
    ensures Events([x] + rest) == [Protocol(x)] + Events(rest)
  {
    assert ([x] + rest)[1..] == rest;
  }

  lemma {:induction false} NoStoreEvents(steps: seq<Step>)
    requires forall x :: x in steps ==> !x.Store?
    ensures forall e :: e in Events(steps) ==> e.Protocol? && !e.step.Store?
  {
    if steps != [] {
      NoStoreEvents(steps[1..]);
    }
  }

  /** One page more in turn: the next one has been requested. */
  lemma ReadyForNext(T: nat, n: Net, m: nat, ok: bool)
    requires 1 <= m < T && Ready(n, m - 1)
    ensures Ready(Exec(T, n, Uninterrupted(m, m, ok, true)), m)
  {
    hide Exec;
    hide Uninterrupted;
    hide RanAlone;
    RunAlone(T, n, m, m, ok, true);
    NowReady(T, n, Exec(T, n, Uninterrupted(m, m, ok, true)), m);
  }

  /** The handler won the request of page m + 1. */
  lemma NextIsRequested(T: nat, n: Net, n': Net, m: nat)
    requires 1 <= m < T && RanAlone(T, n, n', m, m, true)
    requires MaxPage(n.received + {m}) == m && m + 1 !in n.triggers
    ensures n'.received == n.received + {m} && n'.triggers == n.triggers + {m + 1} && n'.sent == n.sent + [m + 1]
    ensures n'.handlers.Keys == n.handlers.Keys + {m}
  {
    hide MaxPage;
  }

  lemma NowReady(T: nat, n: Net, n': Net, m: nat)
    requires 1 <= m < T && Ready(n, m - 1) && RanAlone(T, n, n', m, m, true)
    ensures Ready(n', m)
  {
    hide MaxPage;
    hide RanAlone;
    HighestOf(n.received + {m}, m);
    NextIsRequested(T, n, n', m);
    PagesGrow(n.received, m);
    TriggersGrow(n.triggers, n'.triggers, m);
    SentGrows(n.sent, m + 1);
    HandlersGrow(n, n', m);
  }

  lemma TriggersGrow(triggers: set<nat>, grown: set<nat>, m: nat)
    requires grown == triggers + {m + 1} && forall p :: p in triggers ==> p <= m
    ensures forall p :: p in grown ==> p <= m + 1
  {}

  lemma PagesGrow(pages: set<nat>, m: nat)
    requires m >= 1 && forall p: nat :: p in pages <==> 1 <= p < m
    ensures forall p: nat :: p in pages + {m} <==> 1 <= p <= m
  {}

  lemma SentGrows(sent: seq<nat>, next: nat)
    ensures next in sent + [next]
  {
    assert (sent + [next])[|sent|] == next;
  }

  lemma HandlersGrow(n: Net, n': Net, m: nat)
    requires m >= 1 && (forall h :: h in n.handlers ==> 1 <= h < m) && n'.handlers.Keys == n.handlers.Keys + {m}
    ensures forall h :: h in n'.handlers ==> 1 <= h <= m
  {
    forall h | h in n'.handlers ensures 1 <= h <= m {
      assert h in n'.handlers.Keys;
    }
  }

  lemma HighestOf(s: set<nat>, m: nat)
    requires m in s && forall p :: p in s ==> p <= m
    ensures MaxPage(s) == m
  {}

  lemma {:induction false} FirstPagesReady(c: Catalogue, m: nat)
    requires m < LastPage(c)
    ensures Ready(Run(c, Start(c), FirstPages(c, m)).net, m) && Honest(c, Start(c), FirstPages(c, m))
    decreases m
  {
    hide Happen;
    hide Storable;
    hide Uninterrupted;
    if m > 0 {
      FirstPagesReady(c, m - 1);
      var before := FirstPages(c, m - 1);
      var w := Run(c, Start(c), before);
      PageIsHonest(c, w, m);
      HonestAppend(c, Start(c), before, PageEvents(c, w, m));
      RunAppend(c, Start(c), before, PageEvents(c, w, m));
      NetOfRun(c, w, Uninterrupted(m, m, Storable(w.table, c.page(m)), true));
      ReadyForNext(c.last, w.net, m, Storable(w.table, c.page(m)));
    }
  }

  /** If no honest run has a failing store, page p fits after the pages before it were stored. */
  lemma PageFitsInTurn(c: Catalogue, p: nat) returns (w: World)
    requires WellFormed(c) && 1 <= p <= LastPage(c)
    requires StoresNeverFail(c)
    ensures Storable(w.table, c.page(p)) && Fine(c, w)
    ensures forall q: nat :: q in w.net.stored <==> 1 <= q < p
  {
    var before := FirstPages(c, p - 1);
    w := Run(c, Start(c), before);
    FirstPagesReady(c, p - 1);
    PageIsHonest(c, w, p);
    HonestAppend(c, Start(c), before, PageEvents(c, w, p));
    StartIsFine(c);
    FineWhileNoneFails(c, Start(c), before);
    forall q: nat ensures q in w.net.stored <==> 1 <= q < p {
      StoredOfFirstPages(c, p - 1, q);
    }
  }

  lemma {:induction false} FineWhileNoneFails(c: Catalogue, w: World, events: seq<Event>)
    requires WellFormed(c) && Fine(c, w) && NoneFails(c, w, events)
    ensures Fine(c, Run(c, w, events))
    decreases |events|
  {
    if events != [] {
      FineStep(c, w, events[0]);
      FineWhileNoneFails(c, Happen(c, w, events[0]), events[1..]);
    }
  }

  /** The pages stored after one more attempt. */
  function StoredWith(n: Net, p: nat, stored: bool): set<nat> {
    if stored then n.stored + {p} else n.stored
  }

  lemma AttemptsOf(c: Catalogue, n: Net, h: nat, p: nat, stored: bool)
    requires h !in n.handlers && p in n.sent
    ensures var n' := Exec(c.last, n, Uninterrupted(h, p, stored, true));
      n'.attempted == n.attempted + {p} && n'.stored == StoredWith(n, p, stored)
  {
    ExecSeven(c.last, n, Uninterrupted(h, p, stored, true));
    AttemptOfTwo(c.last, n, h, p, stored);
    var n2 := Apply(c.last, Apply(c.last, n, Deliver(h, p)), Store(h, stored));
    AttemptsStay(c.last, n2, Mark(h));
    AttemptsStay(c.last, Apply(c.last, n2, Mark(h)), Read(h));
    var n4 := Apply(c.last, Apply(c.last, n2, Mark(h)), Read(h));
    AttemptsStay(c.last, n4, Trigger(h));
    AttemptsStay(c.last, Apply(c.last, n4, Trigger(h)), Send(h, true));
    AttemptsStay(c.last, Apply(c.last, Apply(c.last, n4, Trigger(h)), Send(h, true)), Finish(h));
  }

  lemma AttemptOfTwo(T: nat, n: Net, h: nat, p: nat, stored: bool)
    requires h !in n.handlers && p in n.sent
    ensures var n' := Apply(T, Apply(T, n, Deliver(h, p)), Store(h, stored));
      n'.attempted == n.attempted + {p} && n'.stored == StoredWith(n, p, stored)
  {}

  lemma AttemptsStay(T: nat, n: Net, step: Step)
    requires !step.Store?
    ensures Apply(T, n, step).attempted == n.attempted && Apply(T, n, step).stored == n.stored
  {}

  lemma AttemptedByPage(c: Catalogue, w: World, p: nat)
    requires p !in w.net.handlers && p in w.net.sent
    ensures var n := Run(c, w, PageEvents(c, w, p)).net;
      n.attempted == w.net.attempted + {p} && n.stored == StoredWith(w.net, p, Storable(w.table, c.page(p)))
  {
    hide Run;
    hide Exec;
    hide Storable;
    hide Uninterrupted;
    NetOfRun(c, w, Uninterrupted(p, p, Storable(w.table, c.page(p)), true));
    AttemptsOf(c, w.net, p, p, Storable(w.table, c.page(p)));
  }

  lemma {:induction false} AttemptedByFirstPages(c: Catalogue, m: nat)
    requires m < LastPage(c)
    ensures forall q: nat :: q in Run(c, Start(c), FirstPages(c, m)).net.attempted <==> 1 <= q <= m
    decreases m
  {
    if m > 0 {
      var before := FirstPages(c, m - 1);
      var w := Run(c, Start(c), before);
      AttemptedByFirstPages(c, m - 1);
      FirstPagesReady(c, m - 1);
      AttemptedByPage(c, w, m);
      RunAppend(c, Start(c), before, PageEvents(c, w, m));
      hide PageEvents;
      hide Run;
    }
  }

  lemma StoredOfFirstPages(c: Catalogue, m: nat, q: nat)
    requires m < LastPage(c) && WellFormed(c) && StoresNeverFail(c)
    ensures q in Run(c, Start(c), FirstPages(c, m)).net.stored <==> 1 <= q <= m
  {
    FirstPagesReady(c, m);
    AttemptedByFirstPages(c, m);
    AllAttemptsStored(c, Start(c), FirstPages(c, m));
  }

  lemma ListedOnAPage(c: Catalogue, k: JobKey) returns (p: nat, i: nat)
    requires WellFormed(c) && Listed(c, k)
    ensures 1 <= p <= LastPage(c) && i < |c.page(p)| && c.page(p)[i].key == k && k in c.listing
    ensures c.page(p)[i] == c.listing[k]
  {
    p :| 1 <= p <= LastPage(c) && k in Keys(c.page(p));
    var j :| j in c.page(p) && j.key == k;
    i :| 0 <= i < |c.page(p)| && c.page(p)[i] == j;
    assert PageOk(c, p);
  }

  /** When no store fails, two listed jobs differ in their digest: the later one would be refused. */
  lemma TwinsWouldBeRefused(c: Catalogue, p: nat, i: nat, q: nat, m: nat)
    requires WellFormed(c) && StoresNeverFail(c) && 1 <= p <= q <= LastPage(c)
    requires i < |c.page(p)| && m < |c.page(q)| && c.page(p)[i].key != c.page(q)[m].key
    ensures c.page(p)[i].hash != c.page(q)[m].hash
  {
    var w := PageFitsInTurn(c, q);
    var jobs, j := c.page(q), c.page(p)[i].key;
    assert PageOk(c, p) && PageOk(c, q) && c.page(p)[i] in c.page(p) && jobs[m] in jobs;
    HashesFitIff(w.table, jobs);
    if p < q {
      assert j in Keys(c.page(p)) && p in w.net.stored && On(c, w.net.stored, j);
      assert KeyInv(c, w, j);
      if j in Keys(jobs[..m]) {
        var b :| 0 <= b < m && jobs[..m][b].key == j;
        assert jobs[b] in jobs && c.listing[j] == jobs[b] == c.page(p)[i];
      }
    }
  }

  /** And a row that holds a listed digest under another key is rewritten before. */
  lemma HolderIsRewritten(c: Catalogue, p: nat, i: nat, k: JobKey)
    requires WellFormed(c) && StoresNeverFail(c) && Holds(c, p, i, k)
    ensures Earlier(c, p, i, k)
  {
    var w := PageFitsInTurn(c, p);
    HashesFitIff(w.table, c.page(p));
    assert KeyInv(c, w, k);
  }

  /**
   * In every interleaving every store_jobs call succeeds if and only if no two listed jobs
   * share a digest and no row found at the start holds a listed digest under another key, unless
   * the catalogue rewrites that row before.
   */
  lemma StoresSucceedIff(c: Catalogue)
    requires WellFormed(c)
    ensures StoresNeverFail(c) <==> FitsInOrder(c)
  {
    if FitsInOrder(c) {
      StartIsFine(c);
      forall events | Honest(c, Start(c), events) ensures NoneFails(c, Start(c), events) {
        FineRun(c, Start(c), events);
      }
    }
    if StoresNeverFail(c) {
      forall j, k | Listed(c, j) && Listed(c, k) && j in c.listing && k in c.listing && j != k
        ensures c.listing[j].hash != c.listing[k].hash
      {
        var p, i := ListedOnAPage(c, j);
        var q, m := ListedOnAPage(c, k);
        if p <= q {
          TwinsWouldBeRefused(c, p, i, q, m);
        } else {
          TwinsWouldBeRefused(c, q, m, p, i);
        }
      }
      forall p: nat, i: nat, k | Holds(c, p, i, k) ensures Earlier(c, p, i, k) {
        HolderIsRewritten(c, p, i, k);
      }
    }
  }

  /** So for such a catalogue the cleaned table is the catalogue, in every interleaving. */
  lemma FittingCatalogueIsMirrored(c: Catalogue, events: seq<Event>, k: JobKey)
    requires WellFormed(c) && FitsInOrder(c) && Honest(c, Start(c), events)
    requires Run(c, Start(c), events).net.cleaned
    ensures var t := Run(c, Start(c), events).table;
      (Active(t, c.bpp, k) <==> InCatalogue(c, k)) &&
      (InCatalogue(c, k) ==> k in c.listing && Present(t, c.listing[k]))
  {
    StartIsFine(c);
    FineRun(c, Start(c), events);
    CleanedTableIsTheCatalogue(c, events, k);
  }

  // -------------------------------------------------------- an item that has moved

  /** A row the catalogue never mentions holds the digest of the listed job k. */
  ghost predicate Blocked(c: Catalogue, k: JobKey, holder: JobKey) {
    k in c.listing && holder != k && holder in c.initial && holder !in c.listing &&
    c.initial[holder].hash == c.listing[k].hash
  }

  lemma BlockedPageFails(c: Catalogue, w: World, k: JobKey, holder: JobKey, p: nat)
    requires WellFormed(c) && Blocked(c, k, holder) && KeyInv(c, w, holder) && k in Keys(c.page(p))
    ensures !Storable(w.table, c.page(p))
  {
    var jobs := c.page(p);
    assert PageOk(c, p);
    var j :| j in jobs && j.key == k;
    var i :| 0 <= i < |jobs| && jobs[i] == j;
    NotStoredWhenUnlisted(c, w, holder);
    HashesFitIff(w.table, jobs);
    assert forall x :: x in jobs[..i] ==> x in jobs && x.key != holder;
  }

  lemma NotStoredWhenUnlisted(c: Catalogue, w: World, k: JobKey)
    requires WellFormed(c) && k !in c.listing
    ensures !On(c, w.net.stored, k)
  {
    forall p ensures k !in Keys(c.page(p)) {
      assert PageOk(c, p);
    }
  }

  ghost predicate NeverStored(c: Catalogue, n: Net, k: JobKey) {
    forall p :: p in n.stored ==> k !in Keys(c.page(p))
  }

  lemma {:induction false} BlockedRun(c: Catalogue, w: World, events: seq<Event>, k: JobKey, holder: JobKey)
    requires WellFormed(c) && Blocked(c, k, holder) && Honest(c, w, events)
    requires KeyInv(c, w, holder) && NeverStored(c, w.net, k)
    ensures NeverStored(c, Run(c, w, events).net, k)
    decreases |events|
  {
    if events != [] {
      var e := events[0];
      if e.Protocol? && CallsStore(w.net, e.step) && k in Keys(c.page(w.net.handlers[e.step.h].page)) {
        BlockedPageFails(c, w, k, holder, w.net.handlers[e.step.h].page);
      }
      EventKeepsKey(c, w, e, holder);
      BlockedRun(c, Happen(c, w, e), events[1..], k, holder);
    }
  }

  /**
   * A listed job whose digest is held by a row that the catalogue does not mention is not stored
   * by the transaction: every page with it is refused, the cleanup leaves it inactive, and the row
   * goes on holding the digest.
   */
  lemma HeldDigestIsNeverStored(c: Catalogue, events: seq<Event>, k: JobKey, holder: JobKey)
    requires WellFormed(c) && Blocked(c, k, holder) && Honest(c, Start(c), events)
    ensures var w := Run(c, Start(c), events);
      NeverStored(c, w.net, k) && (w.net.cleaned ==> !Active(w.table, c.bpp, k)) &&
      holder in w.table && w.table[holder].hash == c.listing[k].hash
  {
    KeyAfter(c, [], holder);
    assert Run(c, Start(c), []) == Start(c);
    BlockedRun(c, Start(c), events, k, holder);
    KeyAfter(c, events, holder);
    NotStoredWhenUnlisted(c, Run(c, Start(c), events), holder);
    if Run(c, Start(c), events).net.cleaned {
      ActiveAfterCleanup(c, events, k);
    }
  }

  /**
   * An item that moves from provider A to provider B: the inactive row of A holds its digest,
   * so a well-formed catalogue of one page with one job is refused.
   */
  lemma MovedItemIsRefused(bpp: string, uri: string, txn: string, was: string, item: Json, id: string)
    returns (c: Catalogue, k: JobKey, holder: JobKey)
    requires was != txn && AsStr(Get(item, "id")) == Some(id)
    ensures WellFormed(c) && c.bpp == bpp && c.last == 1 && |c.page(1)| == 1 && c.page(1)[0].content == Some(item)
    ensures Blocked(c, k, holder) && k in Keys(c.page(1)) && !c.initial[holder].active
    ensures !FitsInOrder(c) && !Storable(c.initial, c.page(1))
  {
    k, holder := JobKey(id, "B"), JobKey(id, "A");
    var job := NewJob(k, txn, bpp, uri, Some(item), Sha256(item));
    var row := JobRow(was, bpp, uri, Some(item), Sha256(item), None, false);
    c := Catalogue(bpp, txn, uri, map[k := job], 1, p => if p == 1 then [job] else [], map[holder := row]);
    assert job in c.page(1) && c.page(1)[0] == job;
    assert forall p :: PageOk(c, p);
    assert WellFormed(c);
    KeyAfter(c, [], holder);
    assert Run(c, Start(c), []) == Start(c);
    BlockedPageFails(c, Start(c), k, holder, 1);
    assert !Earlier(c, 1, 0, holder);
  }
}
