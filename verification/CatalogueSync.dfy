/**
 * The paging protocol acting on the jobs table: what a finished catalogue transaction
 * leaves behind (handle_cron_on_search_v2 with store_jobs and deactivate_stale_jobs).
 */
module CatalogueSync {
  import opened Prelude
  import opened VectorMath
  import opened Jobs
  import opened PagingProtocol

  /**
   * One transaction: its BPP, the jobs the BPP lists, their distribution over the pages
   * 1..last as extracted rows, and the table the transaction found.
   */
  datatype Catalogue = Catalogue(bpp: string, txn: string, uri: string, listing: map<JobKey, NewJob>,
                                 last: nat, page: nat -> seq<NewJob>, initial: Table)

  datatype World = World(net: Net, table: Table)

  /** A protocol step, or the embedding job writing to a row of this BPP. */
  datatype Event = Protocol(step: Step) | WriteEmbedding(k: JobKey, e: Vec)

  ghost function Start(c: Catalogue): World {
    World(Init(), c.initial)
  }

  ghost function TableEffect(c: Catalogue, w: World, step: Step): Table {
    if step.Store? && step.h in w.net.handlers && w.net.handlers[step.h].at.Arrived? && step.ok
    then StoreAll(w.table, c.page(w.net.handlers[step.h].page))
    else if step.Finish? && AboutToClean(c.last, w.net, step.h)
    then Deactivate(w.table, c.bpp, c.txn)
    else w.table
  }

  ghost function Happen(c: Catalogue, w: World, e: Event): World {
    match e
    case Protocol(step) => World(Apply(c.last, w.net, step), TableEffect(c, w, step))
    case WriteEmbedding(k, v) =>
      if k in w.table && w.table[k].bpp == c.bpp
      then w.(table := w.table[k := w.table[k].(embedding := Some(v))]) else w
  }

  ghost function Run(c: Catalogue, w: World, events: seq<Event>): World
    decreases |events|
  {
    if events == [] then w else Run(c, Happen(c, w, events[0]), events[1..])
  }

  /** The listed row comes from extraction; no other BPP owns its key; the transaction is new to this BPP. */
  ghost predicate KeyOk(c: Catalogue, k: JobKey) {
    (k in c.listing ==> c.listing[k].key == k && Extracted(c.listing[k], c.txn, c.bpp, c.uri)) &&
    (k in c.initial ==> RowHashed(c.initial[k])) &&
    (k in c.initial && k in c.listing ==> c.initial[k].bpp == c.bpp) &&
    (k in c.initial && c.initial[k].bpp == c.bpp ==> c.initial[k].txn != c.txn)
  }

  /** A page repeats no key and shows listed rows only, so pages that share a job agree on it. */
  ghost predicate PageOk(c: Catalogue, p: nat) {
    DistinctKeys(c.page(p)) && forall j :: j in c.page(p) ==> j.key in c.listing && c.listing[j.key] == j
  }

  ghost predicate WellFormed(c: Catalogue) {
    (forall k :: KeyOk(c, k)) && (forall p :: PageOk(c, p))
  }

  ghost predicate On(c: Catalogue, pages: set<nat>, k: JobKey) {
    exists p :: p in pages && k in Keys(c.page(p))
  }

  /** A delivered row is there, current and active. */
  ghost predicate Present(t: Table, j: NewJob) {
    UpToDate(t, j) && t[j.key].content == j.content
  }

  /** A row no stored page mentions: as found, but inactive after the cleanup if it is this BPP's. */
  ghost predicate LeftAlone(c: Catalogue, was: JobRow, now: JobRow, cleaned: bool) {
    now.(embedding := was.embedding) == was.(active := was.active && !(cleaned && was.bpp == c.bpp)) &&
    (was.bpp != c.bpp ==> now == was)
  }

  /** What the table holds under one key, at any moment of the transaction. */
  ghost predicate KeyInv(c: Catalogue, w: World, k: JobKey) {
    (k in w.table ==> RowHashed(w.table[k])) &&
    if On(c, w.net.stored, k) then k in c.listing && Present(w.table, c.listing[k])
    else if k in c.initial then k in w.table && LeftAlone(c, c.initial[k], w.table[k], w.net.cleaned)
    else k !in w.table
  }

  /** What one page does to one key. */
  lemma PageAt(c: Catalogue, t: Table, p: nat, k: JobKey)
    requires PageOk(c, p)
    ensures var t' := StoreAll(t, c.page(p));
      if k in Keys(c.page(p)) then k in c.listing && k in t' && t'[k] == MergedRow(t, c.listing[k])
      else (k in t' <==> k in t) && (k in t ==> t'[k] == t[k])
  {
    StoreAllAt(t, c.page(p), k);
    if k in Keys(c.page(p)) {
      var j :| j in c.page(p) && j.key == k;
    }
  }

  lemma StoreKeepsKey(c: Catalogue, w: World, p: nat, n: Net, k: JobKey)
    requires PageOk(c, p) && KeyOk(c, k) && KeyInv(c, w, k)
    requires n.stored == w.net.stored + {p} && n.cleaned == w.net.cleaned
    ensures KeyInv(c, World(n, StoreAll(w.table, c.page(p))), k)
  {
    PageAt(c, w.table, p, k);
    if On(c, w.net.stored, k) {
      var q :| q in w.net.stored && k in Keys(c.page(q));
      assert q in n.stored;
    }
    if k in Keys(c.page(p)) {
      assert p in n.stored;
    }
  }

  lemma EventKeepsKey(c: Catalogue, w: World, e: Event, k: JobKey)
    requires WellFormed(c) && KeyInv(c, w, k)
    ensures KeyInv(c, Happen(c, w, e), k)
  {
    var w' := Happen(c, w, e);
    assert KeyOk(c, k);
    if e.Protocol? {
      var step := e.step;
      if step.Store? && step.h in w.net.handlers && w.net.handlers[step.h].at.Arrived? && step.ok {
        assert PageOk(c, w.net.handlers[step.h].page);
        StoreKeepsKey(c, w, w.net.handlers[step.h].page, w'.net, k);
      } else {
        assert w'.net.stored == w.net.stored;
      }
    }
  }

  lemma {:induction false} RunKeepsKey(c: Catalogue, w: World, events: seq<Event>, k: JobKey)
    requires WellFormed(c) && KeyInv(c, w, k)
    ensures KeyInv(c, Run(c, w, events), k)
    decreases |events|
  {
    if events != [] {
      EventKeepsKey(c, w, events[0], k);
      RunKeepsKey(c, Happen(c, w, events[0]), events[1..], k);
    }
  }

  lemma {:induction false} RunKeepsSafe(c: Catalogue, w: World, events: seq<Event>)
    requires Safe(c.last, w.net)
    ensures Safe(c.last, Run(c, w, events).net)
    decreases |events|
  {
    if events != [] {
      if events[0].Protocol? {
        SafeStep(c.last, w.net, events[0].step);
      }
      RunKeepsSafe(c, Happen(c, w, events[0]), events[1..]);
    }
  }

  /** What every run from the start guarantees about one key. */
  lemma KeyAfter(c: Catalogue, events: seq<Event>, k: JobKey)
    requires WellFormed(c)
    ensures KeyInv(c, Run(c, Start(c), events), k) && Safe(c.last, Run(c, Start(c), events).net)
  {
    assert KeyOk(c, k);
    RunKeepsKey(c, Start(c), events, k);
    RunKeepsSafe(c, Start(c), events);
  }

  /** The step is a handler's call of store_jobs. */
  ghost predicate CallsStore(n: Net, step: Step) {
    step.Store? && step.h in n.handlers && n.handlers[step.h].at.Arrived?
  }

  /** No call of store_jobs in the run fails. */
  ghost predicate NoneFails(c: Catalogue, w: World, events: seq<Event>)
    decreases |events|
  {
    events == [] ||
    ((events[0].Protocol? && CallsStore(w.net, events[0].step) ==> events[0].step.ok) &&
     NoneFails(c, Happen(c, w, events[0]), events[1..]))
  }

  ghost predicate HonestEvent(c: Catalogue, w: World, e: Event) {
    e.Protocol? && CallsStore(w.net, e.step) ==>
      e.step.ok == Storable(w.table, c.page(w.net.handlers[e.step.h].page))
  }

  /** Every store_jobs call ends as the table decides: the database itself is up. */
  ghost predicate Honest(c: Catalogue, w: World, events: seq<Event>)
    decreases |events|
  {
    events == [] || (HonestEvent(c, w, events[0]) && Honest(c, Happen(c, w, events[0]), events[1..]))
  }

  lemma {:induction false} AllAttemptsStored(c: Catalogue, w: World, events: seq<Event>)
    requires w.net.attempted == w.net.stored && NoneFails(c, w, events)
    ensures Run(c, w, events).net.attempted == Run(c, w, events).net.stored
    decreases |events|
  {
    if events != [] {
      AllAttemptsStored(c, Happen(c, w, events[0]), events[1..]);
    }
  }

  ghost predicate Active(t: Table, bpp: string, k: JobKey) {
    k in t && t[k].bpp == bpp && t[k].active
  }

  ghost predicate InCatalogue(c: Catalogue, k: JobKey) {
    exists p :: 1 <= p <= c.last && k in Keys(c.page(p))
  }

  lemma StoredMeansListed(c: Catalogue, w: World, k: JobKey)
    requires Safe(c.last, w.net) && w.net.cleaned && On(c, w.net.stored, k)
    ensures InCatalogue(c, k)
  {
    var p :| p in w.net.stored && k in Keys(c.page(p));
    assert Requestable(c.last, p);
  }

  /**
   * After the cleanup, and whatever happens later in the transaction, a job of the BPP is
   * active exactly if some store_jobs call stored a page with it.
   */
  lemma ActiveAfterCleanup(c: Catalogue, events: seq<Event>, k: JobKey)
    requires WellFormed(c) && Run(c, Start(c), events).net.cleaned
    ensures var w := Run(c, Start(c), events);
      (Active(w.table, c.bpp, k) <==> On(c, w.net.stored, k)) && (On(c, w.net.stored, k) ==> InCatalogue(c, k))
  {
    KeyAfter(c, events, k);
    var w := Run(c, Start(c), events);
    assert KeyOk(c, k);
    if On(c, w.net.stored, k) {
      StoredMeansListed(c, w, k);
    }
  }

  /** Without failed stores the cleaned table is the catalogue: who is active, and with what content. */
  lemma CleanedTableIsTheCatalogue(c: Catalogue, events: seq<Event>, k: JobKey)
    requires WellFormed(c) && Run(c, Start(c), events).net.cleaned && NoneFails(c, Start(c), events)
    ensures var t := Run(c, Start(c), events).table;
      (Active(t, c.bpp, k) <==> InCatalogue(c, k)) &&
      (InCatalogue(c, k) ==> k in c.listing && Present(t, c.listing[k]))
  {
    var w := Run(c, Start(c), events);
    ActiveAfterCleanup(c, events, k);
    KeyAfter(c, events, k);
    AllAttemptsStored(c, Start(c), events);
    if InCatalogue(c, k) {
      var p :| 1 <= p <= c.last && k in Keys(c.page(p));
      assert p in w.net.stored;
    }
  }

  /** Rows of other BPPs are never touched and never created, in any run. */
  lemma OtherBppsUntouched(c: Catalogue, events: seq<Event>, k: JobKey)
    requires WellFormed(c)
    ensures var t := Run(c, Start(c), events).table;
      (k in c.initial && c.initial[k].bpp != c.bpp ==> k in t && t[k] == c.initial[k]) &&
      (k in t && t[k].bpp != c.bpp ==> k in c.initial && t[k] == c.initial[k])
  {
    KeyAfter(c, events, k);
    var w := Run(c, Start(c), events);
    assert KeyOk(c, k);
    if On(c, w.net.stored, k) {
      var p :| p in w.net.stored && k in Keys(c.page(p));
    }
  }

  ghost predicate NoEmbeddingWrites(events: seq<Event>) {
    forall e :: e in events ==> e.Protocol?
  }

  /** A finished transaction: cleaned up with every page stored. */
  ghost predicate Settled(c: Catalogue, w: World) {
    (forall k :: KeyInv(c, w, k)) && Safe(c.last, w.net) && w.net.cleaned && Covers(w.net.stored, c.last)
  }

  lemma SettledEvent(c: Catalogue, w: World, step: Step)
    requires WellFormed(c) && Settled(c, w)
    ensures TableEffect(c, w, step) == w.table
  {
    if step.Store? && step.h in w.net.handlers && w.net.handlers[step.h].at.Arrived? && step.ok {
      var p := w.net.handlers[step.h].page;
      assert HandlerSafe(c.last, w.net, w.net.handlers[step.h]);
      assert p in w.net.stored && PageOk(c, p);
      forall j | j in c.page(p) ensures UpToDate(w.table, j) {
        assert j.key in Keys(c.page(p));
        assert KeyInv(c, w, j.key);
      }
      RedeliveryIsNoop(w.table, c.page(p));
    } else if step.Finish? && AboutToClean(c.last, w.net, step.h) {
      forall k | k in w.table ensures k !in StaleKeys(w.table, c.bpp, c.txn) {
        assert KeyInv(c, w, k) && KeyOk(c, k);
      }
      assert Deactivate(w.table, c.bpp, c.txn) == w.table;
    }
  }

  lemma {:induction false} SettledStays(c: Catalogue, w: World, events: seq<Event>)
    requires WellFormed(c) && Settled(c, w) && NoEmbeddingWrites(events)
    ensures Run(c, w, events).table == w.table
    decreases |events|
  {
    if events != [] {
      assert events[0] in events && forall e :: e in events[1..] ==> e in events;
      var w' := Happen(c, w, events[0]);
      SettledEvent(c, w, events[0].step);
      SafeStep(c.last, w.net, events[0].step);
      forall k ensures KeyInv(c, w', k) {
        EventKeepsKey(c, w, events[0], k);
      }
      StoredGrows(c.last, w.net, events[0].step);
      SettledStays(c, w', events[1..]);
    }
  }

  lemma StoredGrows(T: nat, n: Net, step: Step)
    ensures n.stored <= Apply(T, n, step).stored && (n.cleaned ==> Apply(T, n, step).cleaned)
  {}

  /**
   * Once a transaction without failed stores has been cleaned up, nothing the protocol can
   * still do (late handlers, redelivered pages, repeated cleanups, expired keys, failed
   * stores) changes any row, its content, its activity or its embedding.
   */
  lemma RedeliveryChangesNothing(c: Catalogue, events: seq<Event>, later: seq<Event>)
    requires WellFormed(c) && NoneFails(c, Start(c), events) && NoEmbeddingWrites(later)
    requires Run(c, Start(c), events).net.cleaned
    ensures Run(c, Run(c, Start(c), events), later).table == Run(c, Start(c), events).table
  {
    var w := Run(c, Start(c), events);
    forall k ensures KeyInv(c, w, k) && Safe(c.last, w.net) {
      KeyAfter(c, events, k);
    }
    AllAttemptsStored(c, Start(c), events);
    assert Safe(c.last, w.net) by { KeyAfter(c, events, JobKey("", "")); }
    SettledStays(c, w, later);
  }

  /** An embedding written after such a cleanup stays where it was written, whatever the protocol still does. */
  lemma WrittenEmbeddingStays(c: Catalogue, events: seq<Event>, k: JobKey, v: Vec, later: seq<Event>)
    requires WellFormed(c) && NoneFails(c, Start(c), events + [WriteEmbedding(k, v)]) && NoEmbeddingWrites(later)
    requires var w := Run(c, Start(c), events); w.net.cleaned && k in w.table && w.table[k].bpp == c.bpp
    ensures var w := Run(c, Start(c), events);
      var t := Run(c, Run(c, Start(c), events + [WriteEmbedding(k, v)]), later).table;
      k in t && t[k] == w.table[k].(embedding := Some(v)) && t == w.table[k := t[k]]
  {
    var w := Run(c, Start(c), events);
    RunAppend(c, Start(c), events, [WriteEmbedding(k, v)]);
    assert Run(c, w, [WriteEmbedding(k, v)]) == Happen(c, w, WriteEmbedding(k, v)) by {
      assert [WriteEmbedding(k, v)][1..] == [];
    }
    RedeliveryChangesNothing(c, events + [WriteEmbedding(k, v)], later);
  }

  lemma Run3(c: Catalogue, w: World, a: Event, b: Event, d: Event)
    ensures Run(c, w, [a, b, d]) == Happen(c, Happen(c, Happen(c, w, a), b), d)
  {
    assert [a, b, d][1..] == [b, d] && [b, d][1..] == [d] && [d][1..] == [];
    var w1 := Happen(c, w, a);
    assert Run(c, w, [a, b, d]) == Run(c, w1, [b, d]);
    assert Run(c, w1, [b, d]) == Run(c, Happen(c, w1, b), [d]);
  }

  lemma {:induction false} RunAppend(c: Catalogue, w: World, a: seq<Event>, b: seq<Event>)
    ensures Run(c, w, a + b) == Run(c, Run(c, w, a), b)
    decreases |a|
  {
    if a == [] {
      assert a + b == b;
    } else {
      assert (a + b)[0] == a[0] && (a + b)[1..] == a[1..] + b;
      RunAppend(c, Happen(c, w, a[0]), a[1..], b);
    }
  }

  /**
   * A page is marked received even when store_jobs failed for it. So a one-page
   * transaction whose store fails switches off every previously active job of the BPP,
   * although the BPP has just listed it.
   */
  lemma FailedStoreDropsListedJobs(c: Catalogue, k: JobKey) returns (events: seq<Event>)
    requires WellFormed(c) && c.last == 1 && k in Keys(c.page(1)) && k in c.initial && c.initial[k].active
    ensures var w := Run(c, Start(c), events);
      w.net.cleaned && w.net.received == {1} && InCatalogue(c, k) && k in w.table && !w.table[k].active
    ensures !Storable(c.initial, c.page(1)) ==> Honest(c, Start(c), events)
  {
    var a, b, d := Protocol(Deliver(0, 1)), Protocol(Store(0, false)), Protocol(Mark(0));
    var w1 := World(Net({1}, {}, [1], map[0 := Handler(1, Marked)], {1}, {}, false), c.initial);
    Run3(c, Start(c), a, b, d);
    assert Run(c, Start(c), [a, b, d]) == w1;
    var e, f, g := Protocol(Read(0)), Protocol(Trigger(0)), Protocol(Finish(0));
    assert MaxPage({1}) == 1;
    Run3(c, w1, e, f, g);
    assert Run(c, w1, [e, f, g]).table == Deactivate(c.initial, c.bpp, c.txn);
    events := [a, b, d] + [e, f, g];
    RunAppend(c, Start(c), [a, b, d], [e, f, g]);
    assert PageOk(c, 1) && KeyOk(c, k);
    if !Storable(c.initial, c.page(1)) {
      HonestStart(c, a, b, [d, e, f, g]);
      assert events == [a, b] + [d, e, f, g];
    }
  }

  lemma {:induction false} WithoutStoresHonest(c: Catalogue, w: World, events: seq<Event>)
    requires forall e :: e in events && e.Protocol? ==> !e.step.Store?
    ensures Honest(c, w, events) && NoneFails(c, w, events)
    decreases |events|
  {
    if events != [] {
      assert events[0] in events && forall e :: e in events[1..] ==> e in events;
      WithoutStoresHonest(c, Happen(c, w, events[0]), events[1..]);
    }
  }

  lemma HonestStart(c: Catalogue, deliver: Event, store: Event, rest: seq<Event>)
    requires deliver == Protocol(Deliver(0, 1)) && store == Protocol(Store(0, false))
    requires !Storable(c.initial, c.page(1)) && forall e :: e in rest && e.Protocol? ==> !e.step.Store?
    ensures Honest(c, Start(c), [deliver, store] + rest)
  {
    hide Storable;
    var events := [deliver, store] + rest;
    var w1 := Happen(c, Start(c), deliver);
    WithoutStoresHonest(c, Happen(c, w1, store), rest);
    assert events[1..] == [store] + rest && events[1..][1..] == rest;
    assert w1.net.handlers[0] == Handler(1, Arrived) && w1.table == c.initial;
    assert Honest(c, w1, events[1..]);
  }
}
