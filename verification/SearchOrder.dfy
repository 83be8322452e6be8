/**
 * Which entries a search goes through, and in which order, said on the members of the cached
 * pages: every item that passes the filters once, by page, provider and item.
 */
module SearchOrder {
  import opened Prelude
  import opened JsonValue
  import opened VectorMath
  import opened Scoring
  import opened TextFilters
  import opened SearchPages

  /** An item by the indices of its page, of its provider there, and of itself. */
  datatype Place = Place(page: nat, provider: nat, item: nat)

  ghost predicate Before(p: Place, q: Place) {
    p.page < q.page ||
    (p.page == q.page && (p.provider < q.provider || (p.provider == q.provider && p.item < q.item)))
  }

  ghost predicate Increasing(at: seq<Place>) {
    forall i, j :: 0 <= i < j < |at| ==> Before(at[i], at[j])
  }

  ghost predicate Lists(payload: Json, providers: seq<Json>) {
    Pointer(payload, "/message/catalog/providers") == Some(Arr(providers))
  }

  ghost predicate Offers(provider: Json, items: seq<Json>) {
    provider.Obj? && "items" in provider.fields && provider.fields["items"] == Arr(items)
  }

  /** The context of a page, null where it has none. */
  ghost predicate From(payload: Json, context: Json) {
    if payload.Obj? && "context" in payload.fields then payload.fields["context"] == context else context == Null
  }

  ghost predicate OfProvider(provider: Json, i: nat, item: Json) {
    exists items :: Offers(provider, items) && i < |items| && items[i] == item
  }

  ghost predicate OfPage(payload: Json, p: nat, provider: Json) {
    exists providers :: Lists(payload, providers) && p < |providers| && providers[p] == provider
  }

  /** The entry's item stands at this place, with this provider and context. */
  ghost predicate StandsAt(payloads: seq<Json>, at: Place, e: Entry) {
    at.page < |payloads| && From(payloads[at.page], e.context) &&
    OfPage(payloads[at.page], at.provider, e.provider) && OfProvider(e.provider, at.item, e.item)
  }

  /** It passes both filters and has its score. */
  ghost predicate Passes(q: Query, e: Entry) {
    KeepProvider(q.words, q.filters, e.provider) && KeepItem(q.words, q.filters, e.provider, e.item) &&
    e.score == ScoreAlone(q, e.item)
  }

  ghost predicate EntriesAt(q: Query, payloads: seq<Json>, at: seq<Place>, es: seq<Entry>) {
    |at| == |es| && forall i :: 0 <= i < |es| ==> StandsAt(payloads, at[i], es[i]) && Passes(q, es[i])
  }

  ghost predicate UsesAll(q: Query, payloads: seq<Json>, from: nat, at: seq<Place>) {
    forall p: Place, e :: p.page >= from && StandsAt(payloads, p, e) && Passes(q, e) ==> p in at
  }

  /** The entries of some places follow those of earlier places. */
  lemma InSequence(q: Query, payloads: seq<Json>, a: seq<Place>, es: seq<Entry>, b: seq<Place>, fs: seq<Entry>)
    requires Increasing(a) && EntriesAt(q, payloads, a, es) && Increasing(b) && EntriesAt(q, payloads, b, fs)
    requires forall x, y :: x in a && y in b ==> Before(x, y)
    ensures Increasing(a + b) && EntriesAt(q, payloads, a + b, es + fs)
  {
    hide StandsAt;
    hide Passes;
    hide Before;
  }

  lemma OneEntry(q: Query, payloads: seq<Json>, at: Place, e: Entry)
    requires StandsAt(payloads, at, e) && Passes(q, e)
    ensures Increasing([at]) && EntriesAt(q, payloads, [at], [e])
  {
    hide StandsAt;
    hide Passes;
  }

  lemma ItemStands(payloads: seq<Json>, page: nat, p: nat, context: Json, provider: Json, items: seq<Json>, i: nat,
                   score: int)
    requires page < |payloads| && From(payloads[page], context) && OfPage(payloads[page], p, provider)
    requires Offers(provider, items) && i < |items|
    ensures StandsAt(payloads, Place(page, p, i), Entry(context, provider, items[i], score))
  {
    hide From;
    hide OfPage;
    assert OfProvider(provider, i, items[i]);
  }

  /** The items of one provider from the given one on. */
  lemma {:induction false} ItemsInOrder(q: Query, payloads: seq<Json>, page: nat, p: nat, context: Json,
                                        provider: Json, items: seq<Json>, from: nat)
    returns (at: seq<Place>)
    requires page < |payloads| && From(payloads[page], context) && OfPage(payloads[page], p, provider)
    requires Offers(provider, items) && from <= |items| && KeepProvider(q.words, q.filters, provider)
    ensures Increasing(at) && EntriesAt(q, payloads, at, FromItems(q, context, provider, items[from..]))
    ensures forall x: Place :: x in at ==> x.page == page && x.provider == p && x.item >= from
    ensures forall i :: from <= i < |items| && KeepItem(q.words, q.filters, provider, items[i]) ==>
      Place(page, p, i) in at
    decreases |items| - from
  {
    hide ScoreAlone;
    hide KeepItem;
    hide KeepProvider;
    hide From;
    hide OfPage;
    hide Offers;
    hide StandsAt;
    at := [];
    if from < |items| {
      var rest := ItemsInOrder(q, payloads, page, p, context, provider, items, from + 1);
      hide EntriesAt;
      hide Increasing;
      assert items[from..][0] == items[from] && items[from..][1..] == items[from + 1..];
      at := rest;
      if KeepItem(q.words, q.filters, provider, items[from]) {
        var e := Entry(context, provider, items[from], ScoreAlone(q, items[from]));
        ItemStands(payloads, page, p, context, provider, items, from, e.score);
        OneEntry(q, payloads, Place(page, p, from), e);
        InSequence(q, payloads, [Place(page, p, from)], [e], rest, FromItems(q, context, provider, items[from + 1..]));
        at := [Place(page, p, from)] + rest;
      } else {
        assert [] + FromItems(q, context, provider, items[from + 1..]) ==
          FromItems(q, context, provider, items[from + 1..]);
      }
    }
  }

  /** Every matching entry of the page whose provider is not before the given one is used. */
  ghost predicate UsesPage(q: Query, payloads: seq<Json>, page: nat, from: nat, at: seq<Place>) {
    forall x: Place, e :: x.page == page && x.provider >= from && StandsAt(payloads, x, e) && Passes(q, e) ==> x in at
  }

  /** An entry of the named provider of the page is one of its items. */
  lemma StandsInProvider(q: Query, payloads: seq<Json>, providers: seq<Json>, x: Place, e: Entry)
    requires StandsAt(payloads, x, e) && Passes(q, e) && Lists(payloads[x.page], providers)
    ensures x.provider < |providers| && e.provider == providers[x.provider] &&
      KeepProvider(q.words, q.filters, e.provider) &&
      x.item < |Items(e.provider)| && KeepItem(q.words, q.filters, e.provider, Items(e.provider)[x.item])
  {
    hide Pointer;
    hide KeepProvider;
    hide KeepItem;
    hide ScoreAlone;
  }

  lemma OneProvider(q: Query, payloads: seq<Json>, page: nat, context: Json, providers: seq<Json>, p: nat)
    returns (at: seq<Place>)
    requires page < |payloads| && From(payloads[page], context) && Lists(payloads[page], providers)
    requires p < |providers|
    ensures Increasing(at)
    ensures EntriesAt(q, payloads, at, if KeepProvider(q.words, q.filters, providers[p])
                                       then FromItems(q, context, providers[p], Items(providers[p])) else [])
    ensures forall x: Place :: x in at ==> x.page == page && x.provider == p
    ensures KeepProvider(q.words, q.filters, providers[p]) ==>
      forall i :: 0 <= i < |Items(providers[p])| && KeepItem(q.words, q.filters, providers[p], Items(providers[p])[i])
        ==> Place(page, p, i) in at
  {
    hide KeepItem;
    hide KeepProvider;
    hide From;
    hide Lists;
    at := [];
    var provider := providers[p];
    if KeepProvider(q.words, q.filters, provider) && Items(provider) != [] {
      assert OfPage(payloads[page], p, provider);
      at := ItemsInOrder(q, payloads, page, p, context, provider, Items(provider), 0);
      assert Items(provider)[0..] == Items(provider);
    }
  }

  /** The providers of one page from the given one on. */
  lemma {:induction false} ProvidersInOrder(q: Query, payloads: seq<Json>, page: nat, context: Json,
                                            providers: seq<Json>, from: nat)
    returns (at: seq<Place>)
    requires page < |payloads| && From(payloads[page], context) && Lists(payloads[page], providers)
    requires from <= |providers|
    ensures Increasing(at) && EntriesAt(q, payloads, at, FromProviders(q, context, providers[from..]))
    ensures forall x: Place :: x in at ==> x.page == page && x.provider >= from
    ensures UsesPage(q, payloads, page, from, at)
    decreases |providers| - from
  {
    hide ScoreAlone;
    hide KeepItem;
    hide KeepProvider;
    hide From;
    hide Lists;
    hide StandsAt;
    hide EntriesAt;
    hide Increasing;
    hide Passes;
    at := [];
    if from == |providers| {
      NothingLeft(q, payloads, page, providers);
    } else {
      var rest := ProvidersInOrder(q, payloads, page, context, providers, from + 1);
      assert providers[from..][0] == providers[from] && providers[from..][1..] == providers[from + 1..];
      var here := OneProvider(q, payloads, page, context, providers, from);
      var es := if KeepProvider(q.words, q.filters, providers[from])
        then FromItems(q, context, providers[from], Items(providers[from])) else [];
      InSequence(q, payloads, here, es, rest, FromProviders(q, context, providers[from + 1..]));
      at := here + rest;
      forall x: Place, e | x.page == page && x.provider >= from && StandsAt(payloads, x, e) && Passes(q, e)
        ensures x in at
      {
        StandsInProvider(q, payloads, providers, x, e);
        assert x.provider == from ==> x == Place(page, from, x.item);
      }
    }
  }

  lemma NothingLeft(q: Query, payloads: seq<Json>, page: nat, providers: seq<Json>)
    requires page < |payloads| && Lists(payloads[page], providers)
    ensures Increasing([]) && EntriesAt(q, payloads, [], []) && UsesPage(q, payloads, page, |providers|, [])
  {
    hide Lists;
    hide Passes;
    forall x: Place, e | x.page == page && StandsAt(payloads, x, e) && Passes(q, e) ensures x.provider < |providers| {
      StandsInProvider(q, payloads, providers, x, e);
    }
  }

  /** A page without providers at that path lists nothing. */
  lemma OnePage(q: Query, payloads: seq<Json>, page: nat) returns (at: seq<Place>)
    requires page < |payloads|
    ensures Increasing(at)
    ensures EntriesAt(q, payloads, at, FromProviders(q, ContextOf(payloads[page]), ProvidersOf(payloads[page])))
    ensures forall x: Place :: x in at ==> x.page == page
    ensures UsesPage(q, payloads, page, 0, at)
  {
    hide Pointer;
    hide KeepItem;
    hide KeepProvider;
    hide ScoreAlone;
    var payload := payloads[page];
    var providers := ProvidersOf(payload);
    at := [];
    if Pointer(payload, "/message/catalog/providers") == Some(Arr(providers)) {
      at := ProvidersInOrder(q, payloads, page, ContextOf(payload), providers, 0);
      assert providers[0..] == providers;
    }
  }

  /** The pages from the given one on. */
  lemma {:induction false} PagesInOrder(q: Query, payloads: seq<Json>, from: nat) returns (at: seq<Place>)
    requires from <= |payloads|
    ensures Increasing(at) && EntriesAt(q, payloads, at, Matching(q, payloads[from..]))
    ensures forall x: Place :: x in at ==> x.page >= from
    ensures UsesAll(q, payloads, from, at)
    decreases |payloads| - from
  {
    at := [];
    if from < |payloads| {
      hide StandsAt;
      hide EntriesAt;
      hide Increasing;
      hide Passes;
      hide FromProviders;
      hide ProvidersOf;
      hide ContextOf;
      var rest := PagesInOrder(q, payloads, from + 1);
      assert payloads[from..][0] == payloads[from] && payloads[from..][1..] == payloads[from + 1..];
      var here := OnePage(q, payloads, from);
      InSequence(q, payloads, here, FromProviders(q, ContextOf(payloads[from]), ProvidersOf(payloads[from])), rest,
                 Matching(q, payloads[from + 1..]));
      at := here + rest;
    }
  }

  /**
   * A search goes through the entries at increasing places, page by page, provider by provider and
   * item by item, and through every place whose entry passes the filters exactly once.
   */
  lemma SearchFollowsTheCatalogue(q: Query, payloads: seq<Json>) returns (at: seq<Place>)
    ensures Increasing(at) && EntriesAt(q, payloads, at, Matching(q, payloads)) && UsesAll(q, payloads, 0, at)
  {
    at := PagesInOrder(q, payloads, 0);
    assert payloads[0..] == payloads;
  }

  // ------------------------------------------------------ the parts of an entry

  /** Where the providers of a page are. */
  lemma ListsMeans(payload: Json, providers: seq<Json>)
    requires payload.Obj? && "message" in payload.fields
    requires payload.fields["message"].Obj? && "catalog" in payload.fields["message"].fields
    requires payload.fields["message"].fields["catalog"].Obj?
    ensures var catalog := payload.fields["message"].fields["catalog"].fields;
      Lists(payload, providers) <==> "providers" in catalog && catalog["providers"] == Arr(providers)
  {
    hide Pointer;
    var message := payload.fields["message"];
    assert "/" + "message" + "/catalog/providers" == "/message/catalog/providers";
    PointerIntoObject(payload.fields, "message", "/catalog/providers");
    CatalogProviders(message.fields, providers);
  }

  lemma CatalogProviders(message: map<string, Json>, providers: seq<Json>)
    requires "catalog" in message && message["catalog"].Obj?
    ensures var catalog := message["catalog"].fields;
      Pointer(Obj(message), "/catalog/providers") == Some(Arr(providers)) <==>
        "providers" in catalog && catalog["providers"] == Arr(providers)
  {
    hide Pointer;
    assert "/" + "catalog" + "/providers" == "/catalog/providers" && "/" + "providers" == "/providers";
    PointerIntoObject(message, "catalog", "/providers");
    PlainPointer(message["catalog"], "providers");
  }

  /** The numbers of the array. */
  ghost predicate Numbers(v: Json, vec: Vec) {
    v.Arr? && |v.elems| == |vec| && forall i :: 0 <= i < |vec| ==> v.elems[i] == Num(vec[i])
  }

  /** With both embeddings an item has the integer nearest to ten times its final score. */
  lemma ScoreAloneMeans(q: Query, item: Json, mine: Vec, its: Vec)
    requires q.profileEmbedding == Some(mine)
    requires item.Obj? && "embedding" in item.fields && Numbers(item.fields["embedding"], its)
    ensures var score := FinalScore(q.config, TrueCosine(q.sqrt, mine, its), JudgeOf(q.jaro, q.profile, item));
      ScoreAlone(q, item) as real - 0.5 <= score * 10.0 < ScoreAlone(q, item) as real + 0.5
  {
    hide FinalScore;
    hide TrueCosine;
    var v := item.fields["embedding"];
    assert AsVec(v) == Some(its) by {
      assert AsVec(v).Some? && AsVec(v).value == its;
    }
  }

  /** Without one of them it has 0. */
  lemma ScoreAloneIsZero(q: Query, item: Json)
    requires q.profileEmbedding == None || !item.Obj? || "embedding" !in item.fields ||
      forall its :: !Numbers(item.fields["embedding"], its)
    ensures ScoreAlone(q, item) == 0
  {
    hide FinalScore;
    hide TrueCosine;
    if item.Obj? && "embedding" in item.fields && AsVec(item.fields["embedding"]).Some? {
      assert Numbers(item.fields["embedding"], AsVec(item.fields["embedding"]).value);
    }
  }

  /** The key of an entry is the text "id" of its item, or the item's own text form. */
  lemma KeyMeans(q: Query, e: Entry)
    ensures forall id :: e.item.Obj? && "id" in e.item.fields && e.item.fields["id"] == Str(id) ==>
      EntryKey(q, e) == id
    ensures (!e.item.Obj? || "id" !in e.item.fields || !e.item.fields["id"].Str?) ==>
      EntryKey(q, e) == q.words.show(e.item)
  {}
}
