/**
 * handle_cron_on_search_v2 (src/services/search.rs) as the code is written, from the payload to
 * the cleanup: one handler that nobody interrupts performs seven steps of the paging protocol.
 */
module SearchHandler {
  import opened Prelude
  import opened JsonValue
  import opened JoinedKeys
  import opened Jobs
  import opened PagingProtocol
  import opened PagingRuns
  import opened CatalogueSync
  import opened CatalogueStores
  import VectorStore

  datatype Base = Base(txn: string, bpp: string, limit: nat)

  datatype Request = Request(base: Base, page: nat)

  /** The Redis keys of a transaction start with the transaction id, the BPP and the page size. */
  function BaseKey(base: Base): string {
    "pagination:" + Join(Join(base.txn, base.bpp), Decimal(base.limit))
  }

  lemma NoColonInDecimal(n: nat)
    ensures ':' !in Decimal(n)
  {}

  lemma SameKeyParts(a: Base, b: Base)
    requires BaseKey(a) == BaseKey(b)
    ensures a.limit == b.limit && Join(a.txn, a.bpp) == Join(b.txn, b.bpp)
  {
    NoColonInDecimal(a.limit);
    NoColonInDecimal(b.limit);
    var prefix := |"pagination:"|;
    assert BaseKey(a)[prefix..] == Join(Join(a.txn, a.bpp), Decimal(a.limit));
    assert BaseKey(b)[prefix..] == Join(Join(b.txn, b.bpp), Decimal(b.limit));
    JoinIsInjective(Join(a.txn, a.bpp), Decimal(a.limit), Join(b.txn, b.bpp), Decimal(b.limit));
    DecimalIsInjective(a.limit, b.limit);
  }

  /** Transactions of BPPs without ':' in their ids have keys of their own. */
  lemma BaseKeyIsInjective(a: Base, b: Base)
    requires BaseKey(a) == BaseKey(b) && ':' !in a.bpp && ':' !in b.bpp
    ensures a == b
  {
    SameKeyParts(a, b);
    JoinIsInjective(a.txn, a.bpp, b.txn, b.bpp);
  }

  /** Another transaction uses the same keys if and only if one of the two ids contains ':'. */
  lemma BaseKeyIsSharedIff(a: Base)
    ensures (exists b :: b != a && BaseKey(b) == BaseKey(a)) <==> ':' in a.txn || ':' in a.bpp
  {
    JoinIsAmbiguousIff(a.txn, a.bpp);
    if b :| b != a && BaseKey(b) == BaseKey(a) {
      SameKeyParts(a, b);
    }
    if ':' in a.txn || ':' in a.bpp {
      var t, p :| Join(t, p) == Join(a.txn, a.bpp) && (t != a.txn || p != a.bpp);
      assert BaseKey(Base(t, p, a.limit)) == BaseKey(a);
    }
  }

  // ------------------------------------------------------------------ pagination

  datatype Pagination = Pagination(page: nat, limit: nat, total: nat)

  /** The first number that 64 bits do not hold. */
  const U64_END: nat := 0x1_0000_0000_0000_0000

  function AsU64(v: Option<Json>): Option<nat> {
    if v.Some? && v.value.Num? && 0.0 <= v.value.n < U64_END as real && v.value.n.Floor as real == v.value.n
    then Some(v.value.n.Floor) else None
  }

  /** str::parse of an unsigned number: digits, with an optional sign before them. */
  function ParseU64(text: string): Option<nat> {
    var digits := if text != "" && text[0] == '+' then text[1..] else text;
    var n := if digits == "" then None else Digits(digits, 0);
    if n.Some? && n.value < U64_END then n else None
  }

  function OrElse(v: Option<nat>, default: nat): nat {
    if v.Some? then v.value else default
  }

  function TotalCount(v: Option<Json>): Option<nat> {
    if AsU64(v).Some? then AsU64(v) else if AsStr(v).Some? then ParseU64(AsStr(v).value) else None
  }

  /** Page 1, 50 jobs a page and a total of 0 where the message says nothing usable. */
  function ParsePagination(message: Json): Pagination {
    var p := Get(message, "pagination");
    if p.None? then Pagination(1, 50, 0)
    else
      Pagination(OrElse(AsU64(Get(p.value, "page")), 1), OrElse(AsU64(Get(p.value, "limit")), 50),
                 OrElse(TotalCount(Get(p.value, "totalCount")), 0))
  }

  // --------------------------------------------------- what the pagination means

  ghost predicate HasWhole(p: map<string, Json>, name: string, n: nat) {
    n < U64_END && name in p && p[name] == Num(n as real)
  }

  lemma WholeNumbers(p: map<string, Json>, name: string)
    ensures forall n: nat :: HasWhole(p, name, n) ==> AsU64(Get(Obj(p), name)) == Some(n)
    ensures (forall n: nat :: !HasWhole(p, name, n)) ==> AsU64(Get(Obj(p), name)) == None
  {
    if AsU64(Get(Obj(p), name)).Some? {
      assert HasWhole(p, name, AsU64(Get(Obj(p), name)).value);
    }
    forall n: nat | HasWhole(p, name, n) ensures AsU64(Get(Obj(p), name)) == Some(n) {
      assert (n as real).Floor == n;
    }
  }

  /** The member "page": the whole number it is, or 1. */
  lemma PageMeans(fields: map<string, Json>, p: map<string, Json>)
    requires "pagination" in fields && fields["pagination"] == Obj(p)
    ensures forall n: nat :: HasWhole(p, "page", n) ==> ParsePagination(Obj(fields)).page == n
    ensures (forall n: nat :: !HasWhole(p, "page", n)) ==> ParsePagination(Obj(fields)).page == 1
  {
    WholeNumbers(p, "page");
    hide AsU64;
    hide TotalCount;
  }

  /** The member "limit": the whole number it is, or 50. */
  lemma LimitMeans(fields: map<string, Json>, p: map<string, Json>)
    requires "pagination" in fields && fields["pagination"] == Obj(p)
    ensures forall n: nat :: HasWhole(p, "limit", n) ==> ParsePagination(Obj(fields)).limit == n
    ensures (forall n: nat :: !HasWhole(p, "limit", n)) ==> ParsePagination(Obj(fields)).limit == 50
  {
    WholeNumbers(p, "limit");
    hide AsU64;
    hide TotalCount;
  }

  ghost predicate AllDigits(text: string) {
    text != "" && OnlyDigits(text)
  }

  /** The digits of this number, possibly after a plus sign and with leading zeros. */
  ghost predicate Numeral(text: string, n: nat) {
    n < U64_END &&
    ((AllDigits(text) && Value(text) == n) ||
     (text != "" && text[0] == '+' && AllDigits(text[1..]) && Value(text[1..]) == n))
  }

  ghost predicate HasNumeral(p: map<string, Json>, name: string, n: nat) {
    name in p && p[name].Str? && Numeral(p[name].s, n)
  }

  lemma NumeralsParse(text: string, n: nat)
    ensures ParseU64(text) == Some(n) <==> Numeral(text, n)
  {
    DigitsMeans(text);
    if text != "" {
      DigitsMeans(text[1..]);
    }
    hide Digits;
    hide Value;
  }

  lemma DecimalIsNumeral(n: nat)
    ensures AllDigits(Decimal(n)) && Value(Decimal(n)) == n
    ensures n < U64_END ==> Numeral(Decimal(n), n)
  {
    DecimalReadsBack(n);
    DigitsMeans(Decimal(n));
  }

  /** The member "totalCount": a whole number, or a text of digits standing for one, or 0. */
  lemma TotalMeans(fields: map<string, Json>, p: map<string, Json>)
    requires "pagination" in fields && fields["pagination"] == Obj(p)
    ensures forall n: nat :: HasWhole(p, "totalCount", n) ==> ParsePagination(Obj(fields)).total == n
    ensures forall n: nat :: HasNumeral(p, "totalCount", n) ==> ParsePagination(Obj(fields)).total == n
    ensures forall n: nat :: n < U64_END && "totalCount" in p && p["totalCount"] == Str(Decimal(n)) ==>
      ParsePagination(Obj(fields)).total == n
    ensures (forall n: nat :: !HasWhole(p, "totalCount", n) && !HasNumeral(p, "totalCount", n)) ==>
      ParsePagination(Obj(fields)).total == 0
  {
    WholeNumbers(p, "totalCount");
    hide AsU64;
    hide ParseU64;
    hide Numeral;
    if "totalCount" in p && p["totalCount"].Str? {
      forall n: nat ensures ParseU64(p["totalCount"].s) == Some(n) <==> HasNumeral(p, "totalCount", n) {
        NumeralsParse(p["totalCount"].s, n);
      }
    }
    forall n: nat | n < U64_END && "totalCount" in p && p["totalCount"] == Str(Decimal(n))
      ensures HasNumeral(p, "totalCount", n)
    {
      DecimalIsNumeral(n);
    }
    hide Decimal;
  }

  /** Without an object there: page 1, 50 jobs a page, nothing in total. */
  lemma NoPaginationMeans(message: Json)
    requires !message.Obj? || "pagination" !in message.fields || !message.fields["pagination"].Obj?
    ensures ParsePagination(message) == Pagination(1, 50, 0)
  {}

  // ---------------------------------------------------------------- one handler

  method Maximum(s: set<nat>) returns (m: nat)
    ensures m == MaxPage(s)
  {
    m := 0;
    var rest := s;
    while rest != {}
      invariant rest <= s && (m == 0 || m in s)
      invariant forall x :: x in s && x !in rest ==> x <= m
      decreases rest
    {
      var x :| x in rest;
      if x > m {
        m := x;
      }
      rest := rest - {x};
    }
    if s != {} {
      assert MaxPage(s) in s && MaxPage(s) !in rest;
    }
  }

  function SentTo(sent: seq<Request>, base: Base): seq<nat> {
    if sent == [] then []
    else (if sent[0].base == base then [sent[0].page] else []) + SentTo(sent[1..], base)
  }

  lemma {:induction false} SentMore(sent: seq<Request>, r: Request, base: Base)
    ensures SentTo(sent + [r], base) == SentTo(sent, base) + if r.base == base then [r.page] else []
  {
    if sent == [] {
      assert sent + [r] == [r] && [r][1..] == [];
    } else {
      assert (sent + [r])[0] == sent[0] && (sent + [r])[1..] == sent[1..] + [r];
      SentMore(sent[1..], r, base);
    }
  }

  /** The keys of all transactions and the requests sent for next pages. */
  datatype Keys = Keys(received: map<string, set<nat>>, triggers: map<string, set<nat>>, sent: seq<Request>)

  function PagesAt(pages: map<string, set<nat>>, base: Base): set<nat> {
    if BaseKey(base) in pages then pages[BaseKey(base)] else {}
  }

  /** The Redis part of a handler: mark the page, read the received set, trigger and request the next page. */
  ghost function Coordinated(k: Keys, base: Base, page: nat, totalPages: nat, sendOk: bool): Keys {
    var seen := PagesAt(k.received, base) + {page};
    var next := MaxPage(seen) + 1;
    var wins := next <= totalPages && next !in PagesAt(k.triggers, base);
    Keys(k.received[BaseKey(base) := seen],
         if wins then k.triggers[BaseKey(base) := PagesAt(k.triggers, base) + {next}] else k.triggers,
         if wins && sendOk then k.sent + [Request(base, next)] else k.sent)
  }

  class Handler {
    const store: VectorStore.Store
    var received: map<string, set<nat>>
    var triggers: map<string, set<nat>>
    var sent: seq<Request>

    constructor (store: VectorStore.Store)
      ensures this.store == store && State() == Keys(map[], map[], [])
    {
      this.store := store;
      received, triggers, sent := map[], map[], [];
    }

    function State(): Keys
      reads this
    {
      Keys(received, triggers, sent)
    }

    method Coordinate(base: Base, page: nat, totalPages: nat, sendOk: bool) returns (complete: bool)
      modifies this
      ensures State() == Coordinated(old(State()), base, page, totalPages, sendOk)
      ensures complete == (|PagesAt(received, base)| == totalPages)
    {
      received := received[BaseKey(base) := PagesAt(received, base) + {page}];
      var seen := PagesAt(received, base);
      var highest := Maximum(seen);
      var next := highest + 1;
      if next <= totalPages {
        var triggered := next !in PagesAt(triggers, base);
        if triggered {
          triggers := triggers[BaseKey(base) := PagesAt(triggers, base) + {next}];
          if sendOk {
            sent := sent + [Request(base, next)];
          }
        }
      }
      complete := |seen| == totalPages;
    }

    /** The whole handler, uninterrupted: store, coordinate, and clean up when all pages are in. */
    method HandleOnSearch(message: Json, bppId: Option<string>, bppUri: Option<string>, txn: string, sendOk: bool)
      returns (stored: bool, cleaned: bool)
      requires store.Valid()
      requires ParsePagination(message).total > 0 ==> ParsePagination(message).limit >= 1
      modifies this, store.jobs, store.faiss
      ensures store.Valid()
      ensures var pg, base := ParsePagination(message), Base(txn, OrEmpty(bppId), ParsePagination(message).limit);
        State() == (if pg.total == 0 then old(State())
                    else Coordinated(old(State()), base, pg.page, TotalPages(pg.total, pg.limit), sendOk)) &&
        cleaned == (pg.total > 0 && |PagesAt(received, base)| == TotalPages(pg.total, pg.limit))
      ensures var jobs := ProviderJobs(Providers(message), txn, OrEmpty(bppId), OrEmpty(bppUri));
        var before := old(store.Value());
        var after := before.(table := if stored then StoreAll(before.table, jobs) else before.table);
        stored == Storable(before.table, jobs) &&
        store.Value() == if cleaned then VectorStore.CleanedUp(after, OrEmpty(bppId), txn) else after
    {
      hide ParsePagination;
      hide TotalPages;
      hide Coordinated;
      var jobs := ExtractJobs(message, bppId, bppUri, txn);
      stored := store.jobs.StoreJobs(jobs);
      var pg := ParsePagination(message);
      cleaned := false;
      if pg.total == 0 {
        return;
      }
      var totalPages := TotalPages(pg.total, pg.limit);
      cleaned := Coordinate(Base(txn, OrEmpty(bppId), pg.limit), pg.page, totalPages, sendOk);
      if cleaned {
        store.CleanUp(OrEmpty(bppId), txn);
      }
    }
  }

  // -------------------------------------------------- the handler and the protocol

  /** The protocol state shows this transaction's keys and requests; page 1 was requested from everybody. */
  ghost predicate Shows(k: Keys, base: Base, n: Net) {
    n.received == PagesAt(k.received, base) && n.triggers == PagesAt(k.triggers, base) &&
    n.sent == [1] + SentTo(k.sent, base)
  }

  /**
   * An uninterrupted handler does what its seven steps do in the protocol: to the keys of its
   * transaction, to the table, and with the cleanup exactly when they clean up.
   */
  lemma HandlerRunsTheProtocol(k: Keys, base: Base, c: Catalogue, w: World, h: nat, page: nat, stored: bool,
                               sendOk: bool)
    requires c.last > 0 && Shows(k, base, w.net) && h !in w.net.handlers && page in w.net.sent
    ensures var k' := Coordinated(k, base, page, c.last, sendOk);
      var w' := Run(c, w, Events(Uninterrupted(h, page, stored, sendOk)));
      var cleaned := |PagesAt(k'.received, base)| == c.last;
      var t := if stored then StoreAll(w.table, c.page(page)) else w.table;
      Shows(k', base, w'.net) && w'.net.cleaned == (w.net.cleaned || cleaned) &&
      w'.table == if cleaned then Deactivate(t, c.bpp, c.txn) else t
  {
    KeysFollow(k, base, c.last, w.net, h, page, stored, sendOk);
    NetOfRun(c, w, Uninterrupted(h, page, stored, sendOk));
    TableFollows(c, w, h, page, stored, sendOk);
  }

  lemma KeysFollow(k: Keys, base: Base, T: nat, n: Net, h: nat, page: nat, stored: bool, sendOk: bool)
    requires T > 0 && Shows(k, base, n) && h !in n.handlers && page in n.sent
    ensures var k' := Coordinated(k, base, page, T, sendOk);
      var n' := Exec(T, n, Uninterrupted(h, page, stored, sendOk));
      Shows(k', base, n') && n'.cleaned == (n.cleaned || |PagesAt(k'.received, base)| == T)
  {
    hide Exec;
    hide SentTo;
    hide Uninterrupted;
    hide MaxPage;
    hide BaseKey;
    hide RanAlone;
    RunAlone(T, n, h, page, stored, sendOk);
    KeysMatch(k, base, T, n, Exec(T, n, Uninterrupted(h, page, stored, sendOk)), h, page, sendOk);
  }

  lemma KeysMatch(k: Keys, base: Base, T: nat, n: Net, n': Net, h: nat, page: nat, sendOk: bool)
    requires Shows(k, base, n) && RanAlone(T, n, n', h, page, sendOk)
    ensures var k' := Coordinated(k, base, page, T, sendOk);
      Shows(k', base, n') && n'.cleaned == (n.cleaned || |PagesAt(k'.received, base)| == T)
  {
    hide SentTo;
    hide MaxPage;
    hide BaseKey;
    SentMatch(k.sent, base, n.sent, MaxPage(n.received + {page}) + 1);
  }

  lemma SentMatch(sent: seq<Request>, base: Base, shown: seq<nat>, next: nat)
    requires shown == [1] + SentTo(sent, base)
    ensures shown + [next] == [1] + SentTo(sent + [Request(base, next)], base)
  {
    SentMore(sent, Request(base, next), base);
    assert ([1] + SentTo(sent, base)) + [next] == [1] + (SentTo(sent, base) + [next]);
  }

  lemma TableFollows(c: Catalogue, w: World, h: nat, page: nat, stored: bool, sendOk: bool)
    requires c.last > 0 && h !in w.net.handlers && page in w.net.sent
    ensures var t := if stored then StoreAll(w.table, c.page(page)) else w.table;
      Run(c, w, Events(Uninterrupted(h, page, stored, sendOk))).table ==
      if |w.net.received + {page}| == c.last then Deactivate(t, c.bpp, c.txn) else t
  {
    var t := if stored then StoreAll(w.table, c.page(page)) else w.table;
    var T, n := c.last, w.net;
    var quiet := [Mark(h), Read(h), Trigger(h), Send(h, sendOk)];
    var n1 := Apply(T, n, Deliver(h, page));
    var n2 := Apply(T, n1, Store(h, stored));
    FirstTwo(c, w, h, page, stored);
    DecidesAfter(T, n, h, page, stored, sendOk);
    hide Run;
    hide Exec;
    hide Apply;
    hide Happen;
    RunCons(c, w, Deliver(h, page), [Store(h, stored)] + (quiet + [Finish(h)]));
    RunCons(c, World(n1, w.table), Store(h, stored), quiet + [Finish(h)]);
    QuietSteps(c, World(n2, t), quiet, Finish(h));
    assert Uninterrupted(h, page, stored, sendOk) == [Deliver(h, page)] + ([Store(h, stored)] + (quiet + [Finish(h)]));
  }

  lemma FirstTwo(c: Catalogue, w: World, h: nat, page: nat, stored: bool)
    requires h !in w.net.handlers && page in w.net.sent
    ensures var n1 := Apply(c.last, w.net, Deliver(h, page));
      Happen(c, w, Protocol(Deliver(h, page))) == World(n1, w.table) &&
      Happen(c, World(n1, w.table), Protocol(Store(h, stored))) ==
        World(Apply(c.last, n1, Store(h, stored)), if stored then StoreAll(w.table, c.page(page)) else w.table)
  {
    assert Apply(c.last, w.net, Deliver(h, page)).handlers[h] == PagingProtocol.Handler(page, Arrived);
  }

  lemma DecidesAfter(T: nat, n: Net, h: nat, page: nat, stored: bool, sendOk: bool)
    requires T > 0 && h !in n.handlers && page in n.sent
    ensures var n2 := Apply(T, Apply(T, n, Deliver(h, page)), Store(h, stored));
      AboutToClean(T, Exec(T, n2, [Mark(h), Read(h), Trigger(h), Send(h, sendOk)]), h) <==> |n.received + {page}| == T
  {
    hide Exec;
    ToSnapshot(T, n, h, page, stored);
    hide Apply;
    var n2 := Apply(T, Apply(T, n, Deliver(h, page)), Store(h, stored));
    ToDecision(T, Apply(T, Apply(T, n2, Mark(h)), Read(h)), h, page, n.received + {page}, sendOk);
    Exec4(T, n2, Mark(h), Read(h), Trigger(h), Send(h, sendOk));
  }

  lemma RunCons(c: Catalogue, w: World, x: Step, rest: seq<Step>)
    ensures Run(c, w, Events([x] + rest)) == Run(c, Happen(c, w, Protocol(x)), Events(rest))
  {
    EventsCons(x, rest);
    assert ([Protocol(x)] + Events(rest))[1..] == Events(rest);
  }

  /** Only a store and a finish can change the table. */
  lemma {:induction false} QuietSteps(c: Catalogue, w: World, quiet: seq<Step>, last: Step)
    requires forall x :: x in quiet ==> !x.Store? && !x.Finish?
    ensures Run(c, w, Events(quiet + [last])).table == TableEffect(c, World(Exec(c.last, w.net, quiet), w.table), last)
    decreases |quiet|
  {
    if quiet == [] {
      assert quiet + [last] == [last] && Events([last])[1..] == [];
    } else {
      assert quiet + [last] == [quiet[0]] + (quiet[1..] + [last]);
      RunCons(c, w, quiet[0], quiet[1..] + [last]);
      QuietSteps(c, Happen(c, w, Protocol(quiet[0])), quiet[1..], last);
    }
  }

  /** Handlers of other transactions, BPPs and page sizes see none of it, unless a BPP has ':' in its id. */
  lemma OtherTransactionsUntouched(k: Keys, base: Base, T: nat, page: nat, sendOk: bool, other: Base)
    requires other != base && ':' !in base.bpp && ':' !in other.bpp
    ensures var k' := Coordinated(k, base, page, T, sendOk);
      PagesAt(k'.received, other) == PagesAt(k.received, other) &&
      PagesAt(k'.triggers, other) == PagesAt(k.triggers, other) && SentTo(k'.sent, other) == SentTo(k.sent, other)
  {
    if BaseKey(other) == BaseKey(base) {
      BaseKeyIsInjective(base, other);
    }
    hide BaseKey;
    SentMore(k.sent, Request(base, MaxPage(PagesAt(k.received, base) + {page}) + 1), other);
  }
}
