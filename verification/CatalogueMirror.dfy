/**
 * When exactly the jobs table mirrors a catalogue (src/services/search.rs, src/db/job.rs), with
 * every store_jobs call ending as the table decides; and what becomes of a held digest over
 * many transactions.
 */
module CatalogueMirror {
  import opened Prelude
  import opened Jobs
  import opened PagingProtocol
  import opened PagingRuns
  import opened CatalogueSync
  import opened CatalogueStores

  ghost predicate Mirrored(c: Catalogue, t: Table) {
    forall k :: Active(t, c.bpp, k) <==> InCatalogue(c, k)
  }

  /** After the cleanup of any interleaving the active jobs of the BPP are the listed jobs. */
  ghost predicate AlwaysMirrored(c: Catalogue) {
    forall events :: Honest(c, Start(c), events) && Run(c, Start(c), events).net.cleaned ==>
      Mirrored(c, Run(c, Start(c), events).table)
  }

  // ------------------------------------------------------------- the data condition

  /** Every found row that holds a digest of page p is rewritten by a stored page, or earlier on page p. */
  ghost predicate FitsAfter(c: Catalogue, stored: set<nat>, p: nat) {
    forall i: nat, k :: Holds(c, p, i, k) ==> k in Keys(c.page(p)[..i]) || On(c, stored, k)
  }

  /** The pages among 1..m that fit when the pages are tried in turn. */
  ghost function StoredInTurn(c: Catalogue, m: nat): set<nat> {
    if m == 0 then {}
    else
      var before := StoredInTurn(c, m - 1);
      if FitsAfter(c, before, m) then before + {m} else before
  }

  /** No two listed jobs share a digest, and every listed job is on a page that fits in its turn. */
  ghost predicate MirrorsInTurn(c: Catalogue) {
    NoListedTwins(c) && forall k :: InCatalogue(c, k) ==> On(c, StoredInTurn(c, c.last), k)
  }

  lemma {:induction false} TurnMembers(c: Catalogue, p: nat, m: nat)
    requires p <= m
    ensures p in StoredInTurn(c, m) <==> p >= 1 && FitsAfter(c, StoredInTurn(c, p - 1), p)
    ensures forall q :: q in StoredInTurn(c, m) ==> 1 <= q <= m
    ensures StoredInTurn(c, p) <= StoredInTurn(c, m)
    decreases m
  {
    hide FitsAfter;
    if p < m {
      TurnMembers(c, p, m - 1);
    } else if m > 0 {
      TurnMembers(c, m - 1, m - 1);
    }
  }

  lemma FitsAfterMore(c: Catalogue, fewer: set<nat>, more: set<nat>, p: nat)
    requires FitsAfter(c, fewer, p) && fewer <= more
    ensures FitsAfter(c, more, p)
  {
    forall i: nat, k | Holds(c, p, i, k) ensures k in Keys(c.page(p)[..i]) || On(c, more, k) {
      if On(c, fewer, k) {
        var q :| q in fewer && k in Keys(c.page(q));
        assert q in more;
      }
    }
  }

  // --------------------------------------------------------- what a page meets in a run

  /** A moment of a run from the start. */
  ghost predicate Midway(c: Catalogue, w: World) {
    Safe(c.last, w.net) && InOrder(w.net) && forall k :: KeyInv(c, w, k)
  }

  lemma StoredJobsAreListed(c: Catalogue, w: World, k: JobKey)
    requires WellFormed(c) && Midway(c, w) && On(c, w.net.stored, k)
    ensures Listed(c, k) && k in c.listing && k in w.table && w.table[k].hash == c.listing[k].hash
  {
    var q :| q in w.net.stored && k in Keys(c.page(q));
    assert Requestable(c.last, q);
    assert KeyInv(c, w, k) && KeyOk(c, k);
  }

  lemma EntriesAreListed(c: Catalogue, p: nat, i: nat)
    requires WellFormed(c) && 1 <= p <= LastPage(c) && i < |c.page(p)|
    ensures var j := c.page(p)[i]; Listed(c, j.key) && j.key in c.listing && c.listing[j.key] == j
  {
    assert PageOk(c, p) && c.page(p)[i] in c.page(p);
  }

  /** A row that holds a digest of the page while it is stored: found at the start and not rewritten since. */
  lemma HolderWasFound(c: Catalogue, w: World, p: nat, i: nat, k: JobKey)
    requires WellFormed(c) && NoListedTwins(c) && Midway(c, w) && 1 <= p <= LastPage(c) && i < |c.page(p)|
    requires k in w.table && k != c.page(p)[i].key && w.table[k].hash == c.page(p)[i].hash
    ensures Holds(c, p, i, k) && !On(c, w.net.stored, k)
  {
    EntriesAreListed(c, p, i);
    if On(c, w.net.stored, k) {
      StoredJobsAreListed(c, w, k);
    }
    assert KeyInv(c, w, k);
  }

  /** And the other way round. */
  lemma FoundHolderStays(c: Catalogue, w: World, p: nat, i: nat, k: JobKey)
    requires WellFormed(c) && Midway(c, w) && Holds(c, p, i, k) && !On(c, w.net.stored, k)
    ensures k in w.table && w.table[k].hash == c.page(p)[i].hash
  {
    assert KeyInv(c, w, k);
  }

  lemma PageHasNoTwins(c: Catalogue, p: nat)
    requires WellFormed(c) && NoListedTwins(c) && 1 <= p <= LastPage(c)
    ensures DistinctKeys(c.page(p)) && NoTwinsIn(c.page(p))
  {
    var jobs := c.page(p);
    assert PageOk(c, p);
    forall i, j | 0 <= i < j < |jobs| ensures jobs[i].hash != jobs[j].hash {
      EntriesAreListed(c, p, i);
      EntriesAreListed(c, p, j);
    }
  }

  /** At any moment store_jobs accepts a page if and only if it fits after the pages stored so far. */
  lemma StorableIffFits(c: Catalogue, w: World, p: nat)
    requires WellFormed(c) && NoListedTwins(c) && Midway(c, w) && 1 <= p <= LastPage(c)
    ensures Storable(w.table, c.page(p)) <==> FitsAfter(c, w.net.stored, p)
  {
    PageHasNoTwins(c, p);
    HashesFitIff(w.table, c.page(p));
    hide HashesFit;
    hide NoTwinsIn;
    if FitsAfter(c, w.net.stored, p) {
      forall i, k | 0 <= i < |c.page(p)| && k in w.table && k != c.page(p)[i].key &&
        w.table[k].hash == c.page(p)[i].hash
        ensures k in Keys(c.page(p)[..i])
      {
        HolderWasFound(c, w, p, i, k);
      }
    }
    if NoTwinRows(w.table, c.page(p)) {
      forall i: nat, k | Holds(c, p, i, k) ensures k in Keys(c.page(p)[..i]) || On(c, w.net.stored, k) {
        if !On(c, w.net.stored, k) {
          FoundHolderStays(c, w, p, i, k);
        }
      }
    }
  }

  // -------------------------------------------------------------------- sufficiency

  /** Every attempted page that fits in its turn has been stored. */
  ghost predicate KeepsUp(c: Catalogue, n: Net) {
    forall p :: p in n.attempted && p in StoredInTurn(c, LastPage(c)) ==> p in n.stored
  }

  lemma MidwayStep(c: Catalogue, w: World, e: Event)
    requires WellFormed(c) && Midway(c, w)
    ensures Midway(c, Happen(c, w, e))
  {
    if e.Protocol? {
      SafeStep(c.last, w.net, e.step);
      InOrderStep(c.last, w.net, e.step);
    }
    forall k ensures KeyInv(c, Happen(c, w, e), k) {
      EventKeepsKey(c, w, e, k);
    }
  }

  lemma InTurnBounds(c: Catalogue, p: nat)
    requires p in StoredInTurn(c, LastPage(c))
    ensures 1 <= p <= LastPage(c)
  {
    TurnMembers(c, LastPage(c), LastPage(c));
  }

  /** A page that fits in its turn is accepted whenever it comes. */
  lemma TurnPageIsStorable(c: Catalogue, w: World, p: nat)
    requires WellFormed(c) && NoListedTwins(c) && Midway(c, w) && KeepsUp(c, w.net)
    requires AttemptedBefore(w.net, p) && p in StoredInTurn(c, LastPage(c))
    ensures Storable(w.table, c.page(p))
  {
    hide FitsAfter;
    InTurnBounds(c, p);
    var before := StoredInTurn(c, p - 1);
    TurnMembers(c, p, LastPage(c));
    TurnMembers(c, p - 1, LastPage(c));
    TurnMembers(c, p - 1, p - 1);
    forall q | q in before ensures q in w.net.stored {
      assert 1 <= q < p;
    }
    FitsAfterMore(c, before, w.net.stored, p);
    StorableIffFits(c, w, p);
  }

  lemma KeepsUpStep(c: Catalogue, w: World, e: Event)
    requires WellFormed(c) && NoListedTwins(c) && Midway(c, w) && KeepsUp(c, w.net) && HonestEvent(c, w, e)
    ensures KeepsUp(c, Happen(c, w, e).net)
  {
    if e.Protocol? && CallsStore(w.net, e.step) {
      var h := w.net.handlers[e.step.h];
      assert HandlerInOrder(w.net, h);
      if h.page in StoredInTurn(c, LastPage(c)) {
        TurnPageIsStorable(c, w, h.page);
      }
    }
  }

  lemma {:induction false} KeepsUpRun(c: Catalogue, w: World, events: seq<Event>)
    requires WellFormed(c) && NoListedTwins(c) && Midway(c, w) && KeepsUp(c, w.net) && Honest(c, w, events)
    ensures Midway(c, Run(c, w, events)) && KeepsUp(c, Run(c, w, events).net)
    decreases |events|
  {
    hide KeepsUp;
    hide Midway;
    hide HonestEvent;
    hide Happen;
    if events != [] {
      KeepsUpStep(c, w, events[0]);
      MidwayStep(c, w, events[0]);
      KeepsUpRun(c, Happen(c, w, events[0]), events[1..]);
    }
  }

  lemma StartIsMidway(c: Catalogue)
    requires WellFormed(c)
    ensures Midway(c, Start(c)) && KeepsUp(c, Start(c).net)
  {
    StartIsFine(c);
  }

  lemma InTurnMeansMirrored(c: Catalogue, events: seq<Event>)
    requires WellFormed(c) && c.last >= 1 && MirrorsInTurn(c)
    requires Honest(c, Start(c), events) && Run(c, Start(c), events).net.cleaned
    ensures Mirrored(c, Run(c, Start(c), events).table)
  {
    var w := Run(c, Start(c), events);
    StartIsMidway(c);
    KeepsUpRun(c, Start(c), events);
    TurnMembers(c, c.last, c.last);
    forall k ensures Active(w.table, c.bpp, k) <==> InCatalogue(c, k) {
      ActiveAfterCleanup(c, events, k);
      if InCatalogue(c, k) {
        var p :| p in StoredInTurn(c, c.last) && k in Keys(c.page(p));
        assert p in w.net.attempted && p in w.net.stored;
      }
    }
  }

  // ---------------------------------------------------------------------- necessity

  ghost predicate UniqueHashes(t: Table) {
    forall j, k :: j in t && k in t && j != k ==> t[j].hash != t[k].hash
  }

  lemma {:induction false} StoreKeepsUnique(t: Table, jobs: seq<NewJob>)
    requires UniqueHashes(t) && HashesFit(t, jobs)
    ensures UniqueHashes(StoreAll(t, jobs))
    decreases |jobs|
  {
    if jobs != [] {
      StoreKeepsUnique(t[jobs[0].key := MergedRow(t, jobs[0])], jobs[1..]);
    }
  }

  lemma EventKeepsUnique(c: Catalogue, w: World, e: Event)
    requires UniqueHashes(w.table) && HonestEvent(c, w, e)
    ensures UniqueHashes(Happen(c, w, e).table)
  {
    if e.Protocol? && CallsStore(w.net, e.step) && e.step.ok {
      StoreKeepsUnique(w.table, c.page(w.net.handlers[e.step.h].page));
    }
  }

  lemma {:induction false} RunKeepsUnique(c: Catalogue, w: World, events: seq<Event>)
    requires UniqueHashes(w.table) && Honest(c, w, events)
    ensures UniqueHashes(Run(c, w, events).table)
    decreases |events|
  {
    hide UniqueHashes;
    hide HonestEvent;
    hide Happen;
    if events != [] {
      EventKeepsUnique(c, w, events[0]);
      RunKeepsUnique(c, Happen(c, w, events[0]), events[1..]);
    }
  }

  lemma MidwayAfter(c: Catalogue, events: seq<Event>)
    requires WellFormed(c)
    ensures Midway(c, Run(c, Start(c), events))
  {
    StartIsMidway(c);
    MidwayRun(c, Start(c), events);
  }

  lemma {:induction false} MidwayRun(c: Catalogue, w: World, events: seq<Event>)
    requires WellFormed(c) && Midway(c, w)
    ensures Midway(c, Run(c, w, events))
    decreases |events|
  {
    hide Midway;
    hide Happen;
    if events != [] {
      MidwayStep(c, w, events[0]);
      MidwayRun(c, Happen(c, w, events[0]), events[1..]);
    }
  }

  /** The run that takes the pages in turn stores exactly those that fit in their turn. */
  lemma {:induction false} TurnRunStores(c: Catalogue, m: nat)
    requires WellFormed(c) && NoListedTwins(c) && m <= LastPage(c)
    ensures Run(c, Start(c), FirstPages(c, m)).net.stored == StoredInTurn(c, m)
    decreases m
  {
    hide PageEvents;
    hide FitsAfter;
    if m > 0 {
      var before := FirstPages(c, m - 1);
      var w := Run(c, Start(c), before);
      TurnRunStores(c, m - 1);
      FirstPagesReady(c, m - 1);
      MidwayAfter(c, before);
      StorableIffFits(c, w, m);
      AttemptedByPage(c, w, m);
      RunAppend(c, Start(c), before, PageEvents(c, w, m));
      hide Run;
      hide Storable;
    }
  }

  /** That run is honest and ends with the cleanup. */
  lemma TurnRunCleans(c: Catalogue)
    requires c.last >= 1
    ensures Honest(c, Start(c), FirstPages(c, c.last)) && Run(c, Start(c), FirstPages(c, c.last)).net.cleaned
  {
    var before := FirstPages(c, c.last - 1);
    var w := Run(c, Start(c), before);
    var ok := Storable(w.table, c.page(c.last));
    FirstPagesReady(c, c.last - 1);
    PageIsHonest(c, w, c.last);
    HonestAppend(c, Start(c), before, PageEvents(c, w, c.last));
    RunAppend(c, Start(c), before, PageEvents(c, w, c.last));
    hide Run;
    hide Storable;
    hide Uninterrupted;
    NetOfRun(c, w, Uninterrupted(c.last, c.last, ok, true));
    RunAlone(c.last, w.net, c.last, c.last, ok, true);
    PagesGrow(w.net.received, c.last);
    CoversCounts(w.net.received + {c.last}, c.last);
  }

  /** A mirrored table holds every listed digest once. */
  lemma MirroredHasNoTwins(c: Catalogue, events: seq<Event>)
    requires WellFormed(c) && c.last >= 1 && UniqueHashes(c.initial) && Honest(c, Start(c), events)
    requires Run(c, Start(c), events).net.cleaned && Mirrored(c, Run(c, Start(c), events).table)
    ensures NoListedTwins(c)
  {
    var w := Run(c, Start(c), events);
    RunKeepsUnique(c, Start(c), events);
    MidwayAfter(c, events);
    forall j, k | Listed(c, j) && Listed(c, k) && j in c.listing && k in c.listing && j != k
      ensures c.listing[j].hash != c.listing[k].hash
    {
      ActiveAfterCleanup(c, events, j);
      ActiveAfterCleanup(c, events, k);
      StoredJobsAreListed(c, w, j);
      StoredJobsAreListed(c, w, k);
    }
  }

  /**
   * After the cleanup of every interleaving the active jobs of the BPP are exactly the listed jobs,
   * if and only if no two listed jobs share a digest and every listed job is on a page that fits in
   * its turn: each found row that holds one of the page's digests under another key is rewritten by a
   * page before that fits, or earlier on the page.
   */
  lemma CatalogueIsMirroredIff(c: Catalogue)
    requires WellFormed(c) && c.last >= 1 && UniqueHashes(c.initial)
    ensures AlwaysMirrored(c) <==> MirrorsInTurn(c)
  {
    if MirrorsInTurn(c) {
      forall events | Honest(c, Start(c), events) && Run(c, Start(c), events).net.cleaned
        ensures Mirrored(c, Run(c, Start(c), events).table)
      {
        InTurnMeansMirrored(c, events);
      }
    }
    if AlwaysMirrored(c) {
      var events := FirstPages(c, c.last);
      TurnRunCleans(c);
      assert Mirrored(c, Run(c, Start(c), events).table);
      MirroredHasNoTwins(c, events);
      TurnRunStores(c, c.last);
      forall k | InCatalogue(c, k) ensures On(c, StoredInTurn(c, c.last), k) {
        ActiveAfterCleanup(c, events, k);
      }
    }
  }

  // ------------------------------------------------ pages with a job of their own

  ghost predicate OwnJob(c: Catalogue, p: nat, k: JobKey) {
    k in Keys(c.page(p)) && forall q :: 1 <= q <= c.last && q != p ==> k !in Keys(c.page(q))
  }

  /** Every page that is not empty lists some job no other page lists, as disjoint pages do. */
  ghost predicate OwnJobs(c: Catalogue) {
    forall p :: 1 <= p <= c.last && c.page(p) != [] ==> exists k :: OwnJob(c, p, k)
  }

  lemma {:induction false} FittingPagesAreStored(c: Catalogue, m: nat)
    requires FitsInOrder(c) && m <= LastPage(c)
    ensures forall p: nat :: p in StoredInTurn(c, m) <==> 1 <= p <= m
    decreases m
  {
    if m > 0 {
      FittingPagesAreStored(c, m - 1);
      forall i: nat, k | Holds(c, m, i, k) ensures k in Keys(c.page(m)[..i]) || On(c, StoredInTurn(c, m - 1), k) {
        assert Earlier(c, m, i, k);
        if q :| 1 <= q < m && k in Keys(c.page(q)) {
          assert q in StoredInTurn(c, m - 1);
        }
      }
    }
  }

  lemma OwnPageInTurn(c: Catalogue, p: nat)
    requires OwnJobs(c) && MirrorsInTurn(c) && 1 <= p <= c.last && c.page(p) != []
    ensures p in StoredInTurn(c, c.last)
  {
    hide FitsAfter;
    TurnMembers(c, c.last, c.last);
    var own :| OwnJob(c, p, own);
    assert InCatalogue(c, own);
    var q :| q in StoredInTurn(c, c.last) && own in Keys(c.page(q));
    assert q == p;
  }

  lemma OwnJobsFit(c: Catalogue, p: nat, i: nat, k: JobKey)
    requires c.last >= 1 && OwnJobs(c) && MirrorsInTurn(c) && Holds(c, p, i, k)
    ensures Earlier(c, p, i, k)
  {
    OwnPageInTurn(c, p);
    TurnMembers(c, p, c.last);
    TurnMembers(c, p - 1, p - 1);
    hide StoredInTurn;
    var before := StoredInTurn(c, p - 1);
    assert k in Keys(c.page(p)[..i]) || On(c, before, k);
    if On(c, before, k) {
      var r :| r in before && k in Keys(c.page(r));
      assert 1 <= r < p;
    }
  }

  /** Then the condition is the one under which no store ever fails. */
  lemma MirroredIffNoStoreFails(c: Catalogue)
    requires WellFormed(c) && c.last >= 1 && UniqueHashes(c.initial) && OwnJobs(c)
    ensures AlwaysMirrored(c) <==> FitsInOrder(c)
    ensures AlwaysMirrored(c) <==> StoresNeverFail(c)
  {
    CatalogueIsMirroredIff(c);
    StoresSucceedIff(c);
    if FitsInOrder(c) {
      FittingPagesAreStored(c, c.last);
      forall k | InCatalogue(c, k) ensures On(c, StoredInTurn(c, c.last), k) {
        var p :| 1 <= p <= c.last && k in Keys(c.page(p));
        assert p in StoredInTurn(c, c.last);
      }
    }
    if MirrorsInTurn(c) {
      forall p: nat, i: nat, k | Holds(c, p, i, k) ensures Earlier(c, p, i, k) {
        OwnJobsFit(c, p, i, k);
      }
    }
  }

  // ----------------------------------------------------------- many transactions

  datatype Transaction = Transaction(c: Catalogue, events: seq<Event>)

  ghost function Outcome(tr: Transaction): World {
    Run(tr.c, Start(tr.c), tr.events)
  }

  /** Transactions of any BPPs, one after the other, each starting from the table the last one left. */
  ghost predicate Chain(t: Table, trs: seq<Transaction>)
    decreases |trs|
  {
    trs == [] ||
    (trs[0].c.initial == t && WellFormed(trs[0].c) && Honest(trs[0].c, Start(trs[0].c), trs[0].events) &&
     Chain(Outcome(trs[0]).table, trs[1..]))
  }

  /** The catalogue does not mention the holder, and lists k, if at all, with the held digest. */
  ghost predicate LeavesHolder(c: Catalogue, k: JobKey, holder: JobKey, digest: Digest) {
    holder !in c.listing && (k in c.listing ==> c.listing[k].hash == digest)
  }

  lemma HolderBlocksOnce(c: Catalogue, events: seq<Event>, k: JobKey, holder: JobKey)
    requires WellFormed(c) && Honest(c, Start(c), events) && holder in c.initial && holder != k
    requires LeavesHolder(c, k, holder, c.initial[holder].hash)
    ensures var w := Run(c, Start(c), events);
      !On(c, w.net.stored, k) && (w.net.cleaned ==> !Active(w.table, c.bpp, k)) &&
      holder in w.table && w.table[holder].hash == c.initial[holder].hash
  {
    if k in c.listing {
      HeldDigestIsNeverStored(c, events, k, holder);
    } else {
      NotStoredWhenUnlisted(c, Run(c, Start(c), events), k);
      NotStoredWhenUnlisted(c, Run(c, Start(c), events), holder);
      KeyAfter(c, events, holder);
      if Run(c, Start(c), events).net.cleaned {
        ActiveAfterCleanup(c, events, k);
      }
    }
  }

  /**
   * As long as no catalogue mentions the row that holds the digest, and none lists the job with
   * other content, the job is stored by no transaction and no cleanup leaves it active.
   */
  lemma {:induction false} HeldForManyTransactions(t: Table, trs: seq<Transaction>, k: JobKey, holder: JobKey)
    requires Chain(t, trs) && holder in t && holder != k
    requires forall tr :: tr in trs ==> LeavesHolder(tr.c, k, holder, t[holder].hash)
    ensures forall tr :: tr in trs ==>
      !On(tr.c, Outcome(tr).net.stored, k) &&
      (Outcome(tr).net.cleaned ==> !Active(Outcome(tr).table, tr.c.bpp, k))
    decreases |trs|
  {
    if trs != [] {
      var tr, rest := trs[0], trs[1..];
      assert tr in trs && forall x :: x in rest ==> x in trs;
      assert forall x :: x in trs ==> x == tr || x in rest;
      HolderBlocksOnce(tr.c, tr.events, k, holder);
      HeldForManyTransactions(Outcome(tr).table, rest, k, holder);
    }
  }
}
