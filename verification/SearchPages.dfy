/**
 * handle_search_v2 (src/services/search.rs): the cached catalogue pages are flattened, filtered,
 * scored and deduplicated, then ordered and cut into pages.
 */
module SearchPages {
  import opened Prelude
  import opened JsonValue
  import opened VectorMath
  import opened Scoring
  import opened Ranking
  import opened TextFilters

  /**
   * What stays fixed during a request: the text filters, the profile and its embedding, the
   * scoring rules and the text similarity.
   */
  datatype Query = Query(words: Words, filters: Filters,
                         config: Config, jaro: Similarity, sqrt: real -> real,
                         profile: Json, profileEmbedding: Option<Vec>)

  datatype Entry = Entry(context: Json, provider: Json, item: Json, score: int)

  // --------------------------------------------------------------- specification

  /** The id of an item, or the whole item as text when it has no string id. */
  function IdKey(show: Json -> string, item: Json): string {
    var id := AsStr(Get(item, "id"));
    if id.Some? then id.value else show(item)
  }

  function EntryKey(q: Query, e: Entry): string {
    IdKey(q.words.show, e.item)
  }

  function AsVec(v: Json): Option<Vec> {
    if v.Arr? && forall i :: 0 <= i < |v.elems| ==> v.elems[i].Num?
    then Some(seq(|v.elems|, i requires 0 <= i < |v.elems| && v.elems[i].Num? => v.elems[i].n))
    else None
  }

  /** The score of an item with nothing remembered from other items. */
  function ScoreAlone(q: Query, item: Json): int {
    var embedding := Get(item, "embedding");
    if q.profileEmbedding.None? || embedding.None? || AsVec(embedding.value).None? then 0
    else
      Rounded(FinalScore(q.config, TrueCosine(q.sqrt, q.profileEmbedding.value, AsVec(embedding.value).value),
                         JudgeOf(q.jaro, q.profile, item)))
  }

  function Items(provider: Json): seq<Json> {
    AsSlice(Get(provider, "items"))
  }

  function ProvidersOf(payload: Json): seq<Json> {
    AsSlice(Pointer(payload, "/message/catalog/providers"))
  }

  function ContextOf(payload: Json): Json {
    if Get(payload, "context").Some? then Get(payload, "context").value else Null
  }

  /** All items that pass the filters, in catalogue order, duplicates included. */
  function FromItems(q: Query, context: Json, provider: Json, items: seq<Json>): seq<Entry> {
    if items == [] then []
    else
      (if KeepItem(q.words, q.filters, provider, items[0])
       then [Entry(context, provider, items[0], ScoreAlone(q, items[0]))] else []) +
      FromItems(q, context, provider, items[1..])
  }

  function FromProviders(q: Query, context: Json, providers: seq<Json>): seq<Entry> {
    if providers == [] then []
    else
      (if KeepProvider(q.words, q.filters, providers[0])
       then FromItems(q, context, providers[0], Items(providers[0])) else []) +
      FromProviders(q, context, providers[1..])
  }

  function Matching(q: Query, payloads: seq<Json>): seq<Entry> {
    if payloads == [] then []
    else FromProviders(q, ContextOf(payloads[0]), ProvidersOf(payloads[0])) + Matching(q, payloads[1..])
  }

  /** seen_ids and flat_items. */
  datatype Found = Found(seen: set<string>, flat: seq<Entry>)

  const NOTHING := Found({}, [])

  function AddEntry(q: Query, found: Found, e: Entry): Found {
    if EntryKey(q, e) in found.seen then found else Found(found.seen + {EntryKey(q, e)}, found.flat + [e])
  }

  function AddAll(q: Query, found: Found, es: seq<Entry>): Found
    decreases |es|
  {
    if es == [] then found else AddAll(q, AddEntry(q, found, es[0]), es[1..])
  }

  lemma {:induction false} AddAllAppend(q: Query, found: Found, a: seq<Entry>, b: seq<Entry>)
    ensures AddAll(q, found, a + b) == AddAll(q, AddAll(q, found, a), b)
    decreases |a|
  {
    hide AddEntry;
    if a == [] {
      assert a + b == b;
    } else {
      assert (a + b)[0] == a[0] && (a + b)[1..] == a[1..] + b;
      AddAllAppend(q, AddEntry(q, found, a[0]), a[1..], b);
    }
  }

  /** The list that is cut into pages. */
  function Ranked(q: Query, payloads: seq<Json>): seq<Entry> {
    var flat := AddAll(q, NOTHING, Matching(q, payloads)).flat;
    if q.profileEmbedding.Some? then SortDesc(flat, Score) else flat
  }

  function Score(e: Entry): int {
    e.score
  }

  // ------------------------------------------------------------------- the code

  /** The match score of one item; the similarity cache is shared by all items of the request. */
  method ScoreItem(q: Query, item: Json, cache: SimilarityCache) returns (score: int)
    requires cache.Valid() && cache.jaro == q.jaro
    modifies cache
    ensures cache.Valid() && score == ScoreAlone(q, item)
  {
    hide FinalScore;
    hide OutcomeOf;
    hide Rounded;
    hide Dot;
    score := 0;
    var embedding := Get(item, "embedding");
    if q.profileEmbedding.Some? && embedding.Some? {
      var jobVec := AsVec(embedding.value);
      if jobVec.Some? {
        var profileNorm, jobNorm := Norm(q.sqrt, q.profileEmbedding.value), Norm(q.sqrt, jobVec.value);
        var s := ComputeScore(q.config, q.profileEmbedding.value, profileNorm, jobVec.value, jobNorm,
                              q.profile, item, cache);
        score := Rounded(s);
      }
    }
  }

  /** Innermost loop: the items of one provider. */
  method AddItems(q: Query, context: Json, provider: Json, cache: SimilarityCache, before: Found) returns (found: Found)
    requires cache.Valid() && cache.jaro == q.jaro
    modifies cache
    ensures cache.Valid()
    ensures found == AddAll(q, before, FromItems(q, context, provider, Items(provider)))
  {
    hide ScoreAlone;
    hide KeepItem;
    hide KeepProvider;
    hide IdKey;
    hide Items;
    var items := Items(provider);
    found := before;
    for i := 0 to |items|
      invariant cache.Valid()
      invariant AddAll(q, found, FromItems(q, context, provider, items[i..])) ==
                AddAll(q, before, FromItems(q, context, provider, items))
    {
      assert items[i..][0] == items[i] && items[i..][1..] == items[i + 1..];
      if KeepItem(q.words, q.filters, provider, items[i]) {
        var score := ScoreItem(q, items[i], cache);
        var entry := Entry(context, provider, items[i], score);
        AddAllAppend(q, found, [entry], FromItems(q, context, provider, items[i + 1..]));
        AddSingle(q, found, entry);
        if IdKey(q.words.show, items[i]) !in found.seen {
          found := Found(found.seen + {IdKey(q.words.show, items[i])}, found.flat + [entry]);
        }
      } else {
        assert [] + FromItems(q, context, provider, items[i + 1..]) == FromItems(q, context, provider, items[i + 1..]);
      }
    }
  }

  lemma AddSingle(q: Query, found: Found, e: Entry)
    ensures AddAll(q, found, [e]) == AddEntry(q, found, e)
  {
    assert [e][1..] == [];
  }

  /** Middle loop: the providers of one cached page. */
  method AddProviders(q: Query, payload: Json, cache: SimilarityCache, before: Found) returns (found: Found)
    requires cache.Valid() && cache.jaro == q.jaro
    modifies cache
    ensures cache.Valid()
    ensures found == AddAll(q, before, FromProviders(q, ContextOf(payload), ProvidersOf(payload)))
  {
    hide ScoreAlone;
    hide KeepItem;
    hide KeepProvider;
    hide Items;
    hide ProvidersOf;
    hide ContextOf;
    hide AddAll;
    var context, providers := ContextOf(payload), ProvidersOf(payload);
    found := before;
    for i := 0 to |providers|
      invariant cache.Valid()
      invariant AddAll(q, found, FromProviders(q, context, providers[i..])) ==
                AddAll(q, before, FromProviders(q, context, providers))
    {
      assert providers[i..][0] == providers[i] && providers[i..][1..] == providers[i + 1..];
      if KeepProvider(q.words, q.filters, providers[i]) {
        AddAllAppend(q, found, FromItems(q, context, providers[i], Items(providers[i])),
                     FromProviders(q, context, providers[i + 1..]));
        found := AddItems(q, context, providers[i], cache, found);
      } else {
        assert [] + FromProviders(q, context, providers[i + 1..]) == FromProviders(q, context, providers[i + 1..]);
      }
    }
    AddNone(q, found);
  }

  lemma AddNone(q: Query, found: Found)
    ensures AddAll(q, found, []) == found
  {}

  /** handle_search_v2 from the cached pages on, with one similarity cache for the whole request. */
  method Search(q: Query, payloads: seq<Json>, page: nat, limit: nat, cache: SimilarityCache)
    returns (results: seq<Entry>, totalCount: nat)
    requires page >= 1 && cache.Valid() && cache.jaro == q.jaro
    modifies cache
    ensures cache.Valid()
    ensures results == PageOf(Ranked(q, payloads), page, limit) && totalCount == |Ranked(q, payloads)|
  {
    hide FromProviders;
    hide ProvidersOf;
    hide ContextOf;
    hide AddAll;
    var found := NOTHING;
    for i := 0 to |payloads|
      invariant cache.Valid()
      invariant AddAll(q, found, Matching(q, payloads[i..])) == AddAll(q, NOTHING, Matching(q, payloads))
    {
      assert payloads[i..][0] == payloads[i] && payloads[i..][1..] == payloads[i + 1..];
      AddAllAppend(q, found, FromProviders(q, ContextOf(payloads[i]), ProvidersOf(payloads[i])),
                   Matching(q, payloads[i + 1..]));
      found := AddProviders(q, payloads[i], cache, found);
    }
    AddNone(q, found);
    var flat := found.flat;
    if q.profileEmbedding.Some? {
      flat := SortDesc(flat, Score);
    }
    totalCount := |flat|;
    var start := (page - 1) * limit;
    if start >= totalCount {
      return [], totalCount;
    }
    var end := if start + limit <= totalCount then start + limit else totalCount;
    results := flat[start..end];
  }

  // ------------------------------------------------------------ what a caller gets

  /** Every key once, with the first entry that has it. */
  ghost predicate FirstOfEachKey(q: Query, es: seq<Entry>, found: Found) {
    (forall i, j :: 0 <= i < j < |found.flat| ==> EntryKey(q, found.flat[i]) != EntryKey(q, found.flat[j])) &&
    (forall key :: key in found.seen <==> exists e :: e in found.flat && EntryKey(q, e) == key) &&
    (forall key :: key in found.seen <==> exists e :: e in es && EntryKey(q, e) == key) &&
    (forall e :: e in found.flat ==> FirstWithKey(q, es, e))
  }

  ghost predicate FirstWithKey(q: Query, es: seq<Entry>, e: Entry) {
    exists i :: 0 <= i < |es| && es[i] == e && forall m :: 0 <= m < i ==> EntryKey(q, es[m]) != EntryKey(q, e)
  }

  lemma OneMore(q: Query, es: seq<Entry>, e: Entry, found: Found)
    requires FirstOfEachKey(q, es, found)
    ensures FirstOfEachKey(q, es + [e], AddEntry(q, found, e))
  {
    hide EntryKey;
    var more := es + [e];
    forall x | FirstWithKey(q, es, x) ensures FirstWithKey(q, more, x) {
      var i :| 0 <= i < |es| && es[i] == x && forall m :: 0 <= m < i ==> EntryKey(q, es[m]) != EntryKey(q, x);
      assert more[i] == x && forall m :: 0 <= m < i ==> more[m] == es[m];
    }
    if EntryKey(q, e) !in found.seen {
      assert more[|es|] == e && forall m :: 0 <= m < |es| ==> more[m] == es[m] && es[m] in es;
      assert FirstWithKey(q, more, e);
    }
  }

  lemma {:induction false} AddAllKeepsFirsts(q: Query, done: seq<Entry>, es: seq<Entry>, found: Found)
    requires FirstOfEachKey(q, done, found)
    ensures FirstOfEachKey(q, done + es, AddAll(q, found, es))
    decreases |es|
  {
    hide FirstOfEachKey;
    hide AddEntry;
    if es == [] {
      assert done + es == done;
    } else {
      OneMore(q, done, es[0], found);
      assert done + es == (done + [es[0]]) + es[1..];
      AddAllKeepsFirsts(q, done + [es[0]], es[1..], AddEntry(q, found, es[0]));
    }
  }

  /**
   * All pages of a search, one after the other, list every key that passes the filters exactly
   * once, with its first entry in catalogue order; totalCount is their common length. With a
   * profile embedding the scores never rise and equal scores stay in catalogue order, without
   * one everything stays in catalogue order.
   */
  lemma PagesListEveryKeyOnce(q: Query, payloads: seq<Json>, n: nat, limit: nat)
    requires n * limit >= |Ranked(q, payloads)|
    ensures FirstPages(Ranked(q, payloads), n, limit) == Ranked(q, payloads)
    ensures var es, flat := Matching(q, payloads), AddAll(q, NOTHING, Matching(q, payloads)).flat;
      FirstOfEachKey(q, es, AddAll(q, NOTHING, es)) &&
      multiset(Ranked(q, payloads)) == multiset(flat) &&
      (if q.profileEmbedding.Some? then
         Descending(Ranked(q, payloads), Score) &&
         forall score :: WithScore(Ranked(q, payloads), Score, score) == WithScore(flat, Score, score)
       else Ranked(q, payloads) == flat)
  {
    hide FirstOfEachKey;
    var es := Matching(q, payloads);
    NothingFound(q);
    AddAllKeepsFirsts(q, [], es, NOTHING);
    assert [] + es == es;
    SortDescSorts(AddAll(q, NOTHING, es).flat, Score);
    PagesConcatenate(Ranked(q, payloads), n, limit);
  }

  lemma NothingFound(q: Query)
    ensures FirstOfEachKey(q, [], NOTHING)
  {}

  /** Which entries match: every item that passes both filters, wherever it stands in the cached pages. */
  lemma {:induction false} MatchingItems(q: Query, context: Json, provider: Json, items: seq<Json>, e: Entry)
    ensures e in FromItems(q, context, provider, items) <==>
      e.item in items && KeepItem(q.words, q.filters, provider, e.item) &&
      e == Entry(context, provider, e.item, ScoreAlone(q, e.item))
  {
    hide ScoreAlone;
    hide KeepItem;
    hide KeepProvider;
    if items != [] {
      MatchingItems(q, context, provider, items[1..], e);
      assert items == [items[0]] + items[1..];
    }
  }

  lemma {:induction false} MatchingProviders(q: Query, context: Json, providers: seq<Json>, e: Entry)
    ensures e in FromProviders(q, context, providers) <==>
      e.provider in providers && KeepProvider(q.words, q.filters, e.provider) && e.item in Items(e.provider) &&
      KeepItem(q.words, q.filters, e.provider, e.item) && e == Entry(context, e.provider, e.item, ScoreAlone(q, e.item))
  {
    hide ScoreAlone;
    hide KeepItem;
    hide KeepProvider;
    hide Items;
    if providers != [] {
      MatchingItems(q, context, providers[0], Items(providers[0]), e);
      MatchingProviders(q, context, providers[1..], e);
      assert providers == [providers[0]] + providers[1..];
    }
  }

  lemma {:induction false} MatchingIsExact(q: Query, payloads: seq<Json>, e: Entry)
    ensures e in Matching(q, payloads) <==>
      exists payload :: payload in payloads && e.provider in ProvidersOf(payload) &&
        KeepProvider(q.words, q.filters, e.provider) &&
        e.item in Items(e.provider) && KeepItem(q.words, q.filters, e.provider, e.item) &&
        e == Entry(ContextOf(payload), e.provider, e.item, ScoreAlone(q, e.item))
  {
    hide ScoreAlone;
    hide KeepItem;
    hide KeepProvider;
    hide Items;
    hide ProvidersOf;
    hide ContextOf;
    if payloads != [] {
      MatchingProviders(q, ContextOf(payloads[0]), ProvidersOf(payloads[0]), e);
      MatchingIsExact(q, payloads[1..], e);
      assert payloads == [payloads[0]] + payloads[1..];
    }
  }

  /** Different entries have different keys. */
  ghost predicate Distinctive(q: Query, es: seq<Entry>) {
    forall e, f :: e in es && f in es && EntryKey(q, e) == EntryKey(q, f) ==> e == f
  }

  lemma DroppedIff(q: Query, es: seq<Entry>, found: Found)
    requires FirstOfEachKey(q, es, found)
    ensures (forall e :: e in es ==> e in found.flat) <==> Distinctive(q, es)
  {
    if Distinctive(q, es) {
      forall e | e in es ensures e in found.flat {
        assert EntryKey(q, e) in found.seen;
        var f :| f in found.flat && EntryKey(q, f) == EntryKey(q, e);
        assert FirstWithKey(q, es, f);
      }
    }
  }

  lemma SameElements<T>(a: seq<T>, b: seq<T>)
    requires multiset(a) == multiset(b)
    ensures forall e :: e in a <==> e in b
  {
    assert forall e :: e in a <==> e in multiset(a);
    assert forall e :: e in b <==> e in multiset(b);
  }

  /**
   * The key is the bare item id, so two different entries with one id, of two providers say,
   * are not both listed: every matching entry is listed if and only if no two of them share a key.
   */
  lemma NothingIsDroppedIff(q: Query, payloads: seq<Json>)
    ensures (forall e :: e in Matching(q, payloads) ==> e in Ranked(q, payloads)) <==>
      Distinctive(q, Matching(q, payloads))
  {
    hide FirstOfEachKey;
    hide Distinctive;
    var es := Matching(q, payloads);
    hide Matching;
    PagesListEveryKeyOnce(q, payloads, |Ranked(q, payloads)|, 1);
    SameElements(Ranked(q, payloads), AddAll(q, NOTHING, es).flat);
    DroppedIff(q, es, AddAll(q, NOTHING, es));
  }
}
