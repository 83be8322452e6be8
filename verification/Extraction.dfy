/**
 * What a catalogue page lists, said on the members of its message, and what extraction
 * (src/utils/search.rs) makes of it: one row for each listed item, in the order of the catalogue.
 */
module Extraction {
  import opened Prelude
  import opened JsonValue
  import opened Jobs

  /** An item by the index of its provider and its own index there. */
  datatype Position = Position(provider: nat, item: nat)

  ghost predicate Before(p: Position, q: Position) {
    p.provider < q.provider || (p.provider == q.provider && p.item < q.item)
  }

  ghost predicate Member(doc: Json, name: string, value: Json) {
    doc.Obj? && name in doc.fields && doc.fields[name] == value
  }

  /** The message has a catalogue with this array of providers. */
  ghost predicate HasProviders(message: Json, providers: seq<Json>) {
    exists catalog :: Member(message, "catalog", catalog) && Member(catalog, "providers", Arr(providers))
  }

  ghost predicate HasItems(provider: Json, items: seq<Json>) {
    Member(provider, "items", Arr(items))
  }

  /** The item stands at this position, and both it and its provider have a text as id. */
  ghost predicate Listed(providers: seq<Json>, p: Position, key: JobKey, item: Json) {
    p.provider < |providers| && Member(providers[p.provider], "id", Str(key.providerId)) &&
    Member(item, "id", Str(key.jobId)) &&
    exists items :: HasItems(providers[p.provider], items) && p.item < |items| && items[p.item] == item
  }

  ghost predicate Increasing(at: seq<Position>) {
    forall i, j :: 0 <= i < j < |at| ==> Before(at[i], at[j])
  }

  /** One row for each position, with the ids and the content found there. */
  ghost predicate RowsAt(providers: seq<Json>, at: seq<Position>, jobs: seq<NewJob>) {
    |at| == |jobs| &&
    forall i :: 0 <= i < |jobs| ==>
      jobs[i].content.Some? && Listed(providers, at[i], jobs[i].key, jobs[i].content.value) &&
      jobs[i].hash == Sha256(jobs[i].content.value)
  }

  /** Every position from the given provider on that lists something is used. */
  ghost predicate UsesAll(providers: seq<Json>, from: nat, at: seq<Position>) {
    forall p, key, item :: Listed(providers, p, key, item) && p.provider >= from ==> p in at
  }

  /** The rows of all listed items, in the order of the catalogue. */
  ghost predicate RowsInOrder(providers: seq<Json>, at: seq<Position>, jobs: seq<NewJob>) {
    Increasing(at) && RowsAt(providers, at, jobs) && UsesAll(providers, 0, at)
  }

  lemma ProvidersOfMessage(message: Json)
    ensures forall ps :: HasProviders(message, ps) ==> Providers(message) == ps
    ensures (forall ps :: !HasProviders(message, ps)) ==> Providers(message) == []
  {
    if message.Obj? && "catalog" in message.fields {
      var catalog := message.fields["catalog"];
      assert Member(message, "catalog", catalog);
      if catalog.Obj? && "providers" in catalog.fields && catalog.fields["providers"].Arr? {
        assert HasProviders(message, catalog.fields["providers"].elems);
      }
    }
  }

  /** The rows of some positions follow those of earlier positions. */
  lemma InSequence(providers: seq<Json>, a: seq<Position>, jobs: seq<NewJob>, b: seq<Position>, more: seq<NewJob>)
    requires Increasing(a) && RowsAt(providers, a, jobs) && Increasing(b) && RowsAt(providers, b, more)
    requires forall p, q :: p in a && q in b ==> Before(p, q)
    ensures Increasing(a + b) && RowsAt(providers, a + b, jobs + more)
  {
    hide Listed;
    hide Before;
  }

  /** The row of one item with an id. */
  lemma OneRow(providers: seq<Json>, p: nat, pid: string, items: seq<Json>, i: nat, id: string, txn: string,
               bpp: string, uri: string)
    requires p < |providers| && Member(providers[p], "id", Str(pid)) && HasItems(providers[p], items)
    requires i < |items| && Member(items[i], "id", Str(id))
    ensures ItemJob(pid, items[i], txn, bpp, uri) ==
      [NewJob(JobKey(id, pid), txn, bpp, uri, Some(items[i]), Sha256(items[i]))]
    ensures Increasing([Position(p, i)]) && RowsAt(providers, [Position(p, i)], ItemJob(pid, items[i], txn, bpp, uri))
  {
    assert Listed(providers, Position(p, i), JobKey(id, pid), items[i]);
    hide Listed;
  }

  /** The rows of one provider's items from the given one on, with their positions. */
  lemma {:induction false} ItemsInOrder(providers: seq<Json>, p: nat, pid: string, items: seq<Json>, from: nat,
                                        txn: string, bpp: string, uri: string) returns (at: seq<Position>)
    requires p < |providers| && Member(providers[p], "id", Str(pid)) && HasItems(providers[p], items)
    requires from <= |items|
    ensures Increasing(at) && RowsAt(providers, at, ItemJobs(pid, items[from..], txn, bpp, uri))
    ensures forall q :: q in at ==> q.provider == p && q.item >= from
    ensures forall i, id :: from <= i < |items| && Member(items[i], "id", Str(id)) ==> Position(p, i) in at
    decreases |items| - from
  {
    hide HasItems;
    hide Listed;
    at := [];
    if from < |items| {
      var rest := ItemsInOrder(providers, p, pid, items, from + 1, txn, bpp, uri);
      hide RowsAt;
      hide Increasing;
      var more := ItemJobs(pid, items[from + 1..], txn, bpp, uri);
      assert items[from..][0] == items[from] && items[from..][1..] == items[from + 1..];
      assert ItemJobs(pid, items[from..], txn, bpp, uri) == ItemJob(pid, items[from], txn, bpp, uri) + more;
      var id := AsStr(Get(items[from], "id"));
      if id.Some? {
        OneRow(providers, p, pid, items, from, id.value, txn, bpp, uri);
        InSequence(providers, [Position(p, from)], ItemJob(pid, items[from], txn, bpp, uri), rest, more);
        at := [Position(p, from)] + rest;
      } else {
        assert [] + more == more;
        at := rest;
      }
    }
  }

  /** What is listed under a provider has its id and is one of its items. */
  lemma ListedUnder(providers: seq<Json>, p: Position, key: JobKey, item: Json)
    requires Listed(providers, p, key, item)
    ensures p.provider < |providers| && AsStr(Get(providers[p.provider], "id")) == Some(key.providerId)
    ensures var items := AsSlice(Get(providers[p.provider], "items"));
      p.item < |items| && Member(items[p.item], "id", Str(key.jobId))
  {}

  /** The rows of one provider, none without an id. */
  function RowsUnder(provider: Json, txn: string, bpp: string, uri: string): seq<NewJob> {
    match AsStr(Get(provider, "id"))
    case None => []
    case Some(pid) => ItemJobs(pid, AsSlice(Get(provider, "items")), txn, bpp, uri)
  }

  lemma OneProvider(providers: seq<Json>, p: nat, txn: string, bpp: string, uri: string) returns (at: seq<Position>)
    requires p < |providers|
    ensures Increasing(at) && RowsAt(providers, at, RowsUnder(providers[p], txn, bpp, uri))
    ensures forall q :: q in at ==> q.provider == p
    ensures forall q, key, item :: Listed(providers, q, key, item) && q.provider == p ==> q in at
  {
    hide Listed;
    at := [];
    var pid, items := AsStr(Get(providers[p], "id")), AsSlice(Get(providers[p], "items"));
    if pid.Some? && items != [] {
      at := ItemsInOrder(providers, p, pid.value, items, 0, txn, bpp, uri);
      assert items[0..] == items;
    }
    hide RowsAt;
    hide Increasing;
    forall q, key, item | Listed(providers, q, key, item) && q.provider == p ensures q in at {
      ListedUnder(providers, q, key, item);
      assert q == Position(p, q.item);
    }
  }

  /** The same for the providers from the given one on. */
  lemma {:induction false} ProvidersInOrder(providers: seq<Json>, from: nat, txn: string, bpp: string, uri: string)
    returns (at: seq<Position>)
    requires from <= |providers|
    ensures Increasing(at) && RowsAt(providers, at, ProviderJobs(providers[from..], txn, bpp, uri))
    ensures forall q :: q in at ==> q.provider >= from
    ensures UsesAll(providers, from, at)
    decreases |providers| - from
  {
    at := [];
    if from < |providers| {
      hide Listed;
      hide RowsAt;
      hide Increasing;
      var rest := ProvidersInOrder(providers, from + 1, txn, bpp, uri);
      var here := OneProvider(providers, from, txn, bpp, uri);
      var rows, more := RowsUnder(providers[from], txn, bpp, uri), ProviderJobs(providers[from + 1..], txn, bpp, uri);
      assert providers[from..][0] == providers[from] && providers[from..][1..] == providers[from + 1..];
      assert [] + more == more;
      assert ProviderJobs(providers[from..], txn, bpp, uri) == rows + more;
      InSequence(providers, here, rows, rest, more);
      at := here + rest;
    }
  }

  /** What a page is stored as. */
  ghost function Rows(message: Json, bppId: Option<string>, bppUri: Option<string>, txn: string): seq<NewJob> {
    ProviderJobs(Providers(message), txn, OrEmpty(bppId), OrEmpty(bppUri))
  }

  /** Extraction lists every item with both ids once, with its content, in the order of the catalogue. */
  lemma ExtractionFollowsTheCatalogue(message: Json, providers: seq<Json>, bppId: Option<string>,
                                      bppUri: Option<string>, txn: string) returns (at: seq<Position>)
    requires HasProviders(message, providers)
    ensures RowsInOrder(providers, at, Rows(message, bppId, bppUri, txn))
  {
    ProvidersOfMessage(message);
    at := ProvidersInOrder(providers, 0, txn, OrEmpty(bppId), OrEmpty(bppUri));
    assert providers[0..] == providers;
    hide RowsAt;
    hide Increasing;
  }

  /** Every row names the transaction and the BPP of the message, the latter "" where the context has none. */
  lemma RowsNameTheirOrigin(message: Json, bppId: Option<string>, bppUri: Option<string>, txn: string, row: NewJob)
    requires row in Rows(message, bppId, bppUri, txn)
    ensures row.txn == txn
    ensures row.bpp == (if bppId.Some? then bppId.value else "")
    ensures row.uri == (if bppUri.Some? then bppUri.value else "")
  {
    ExtractionIsExact(Providers(message), txn, OrEmpty(bppId), OrEmpty(bppUri), row);
  }

  /** A message without a catalogue that has an array of providers lists nothing. */
  lemma NothingListed(message: Json, bppId: Option<string>, bppUri: Option<string>, txn: string)
    requires forall providers :: !HasProviders(message, providers)
    ensures Rows(message, bppId, bppUri, txn) == []
  {
    ProvidersOfMessage(message);
  }

  /** No two positions list the same job of the same provider id. */
  ghost predicate ListedOnce(providers: seq<Json>) {
    forall p, q, key, x, y :: Listed(providers, p, key, x) && Listed(providers, q, key, y) ==> p == q
  }

  lemma ListedIsFunctional(providers: seq<Json>, p: Position, key: JobKey, item: Json, key': JobKey, item': Json)
    requires Listed(providers, p, key, item) && Listed(providers, p, key', item')
    ensures key == key' && item == item'
  {}

  lemma RowOf(providers: seq<Json>, at: seq<Position>, jobs: seq<NewJob>, p: Position, key: JobKey, item: Json)
    returns (i: nat)
    requires RowsInOrder(providers, at, jobs) && Listed(providers, p, key, item)
    ensures i < |jobs| == |at| && at[i] == p && jobs[i].key == key && jobs[i].content == Some(item)
  {
    i :| i < |at| && at[i] == p;
    ListedIsFunctional(providers, p, key, item, jobs[i].key, jobs[i].content.value);
  }

  lemma OnceMeansDistinct(providers: seq<Json>, at: seq<Position>, jobs: seq<NewJob>)
    requires RowsInOrder(providers, at, jobs) && ListedOnce(providers)
    ensures DistinctKeys(jobs)
  {
    hide Listed;
    forall i, j | 0 <= i < j < |jobs| ensures jobs[i].key != jobs[j].key {
      assert Before(at[i], at[j]) && at[i] != at[j];
    }
  }

  lemma DistinctMeansOnce(providers: seq<Json>, at: seq<Position>, jobs: seq<NewJob>)
    requires RowsInOrder(providers, at, jobs) && DistinctKeys(jobs)
    ensures ListedOnce(providers)
  {
    hide Listed;
    hide RowsInOrder;
    forall p, q, key, x, y | Listed(providers, p, key, x) && Listed(providers, q, key, y) ensures p == q {
      var i := RowOf(providers, at, jobs, p, key, x);
      var j := RowOf(providers, at, jobs, q, key, y);
      assert !(i < j) && !(j < i);
    }
  }

  /** The statement touches no row twice if and only if no job is listed at two positions. */
  lemma DistinctKeysIff(message: Json, providers: seq<Json>, bppId: Option<string>, bppUri: Option<string>,
                        txn: string)
    requires HasProviders(message, providers)
    ensures DistinctKeys(Rows(message, bppId, bppUri, txn)) <==> ListedOnce(providers)
  {
    var jobs := Rows(message, bppId, bppUri, txn);
    var at := ExtractionFollowsTheCatalogue(message, providers, bppId, bppUri, txn);
    hide *;
    if ListedOnce(providers) {
      OnceMeansDistinct(providers, at, jobs);
    }
    if DistinctKeys(jobs) {
      DistinctMeansOnce(providers, at, jobs);
    }
  }
}
