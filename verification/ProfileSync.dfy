/**
 * The profile synchronisation (src/cron/fetch_profiles.rs, src/db/profiles.rs): pages of 100
 * are upserted one after the other, then rows not seen since the start are swept.
 */
module ProfileSync {
  import opened Prelude
  import opened JsonValue

  datatype ApiProfile = ApiProfile(id: string, userId: string, kind: string, metadata: Json,
                                   createdAt: string, updatedAt: string)

  /** SHA-256 of a byte string, treated as injective. */
  datatype ProfileDigest = Sha256(preimage: string)

  datatype Row = Row(userId: string, kind: string, metadata: Json, beckn: Json,
                     hash: ProfileDigest, lastSynced: Option<int>)

  type Table = map<string, Row>

  type Serializer = Json -> string

  const LIMIT: nat := 100

  // ------------------------------------------------------------------- one profile

  /** compute_profile_hash: the six parts are hashed back to back, without separators. */
  function Preimage(text: Serializer, p: ApiProfile): string {
    p.id + p.userId + p.kind + text(p.metadata) + p.createdAt + p.updatedAt
  }

  function HashOf(text: Serializer, p: ApiProfile): ProfileDigest {
    Sha256(Preimage(text, p))
  }

  function BuildBecknStructure(id: string, metadata: Json): Json {
    var name := AsStr(Get(metadata, "name"));
    Obj(map["id" := Str(id),
            "descriptor" := Obj(map["name" := Str(if name.Some? then name.value else "unknown")]),
            "tags" := Obj(map["profile" := metadata])])
  }

  function NewRow(text: Serializer, p: ApiProfile, start: int): Row {
    Row(p.userId, p.kind, p.metadata, BuildBecknStructure(p.id, p.metadata), HashOf(text, p), Some(start))
  }

  // ------------------------------------------------------------------ store and sweep

  /** ON CONFLICT (profile_id) DO UPDATE with the CASE on the hash. */
  function MergedRow(text: Serializer, t: Table, p: ApiProfile, start: int): Row {
    if p.id in t && t[p.id].hash == HashOf(text, p) then t[p.id].(lastSynced := Some(start)) else NewRow(text, p, start)
  }

  function StoreOne(text: Serializer, t: Table, p: ApiProfile, start: int): Table {
    t[p.id := MergedRow(text, t, p, start)]
  }

  function StoreAll(text: Serializer, t: Table, ps: seq<ApiProfile>, start: int): Table
    decreases |ps|
  {
    if ps == [] then t else StoreAll(text, StoreOne(text, t, ps[0], start), ps[1..], start)
  }

  ghost predicate DistinctIds(ps: seq<ApiProfile>) {
    forall i, j :: 0 <= i < j < |ps| ==> ps[i].id != ps[j].id
  }

  ghost function Ids(ps: seq<ApiProfile>): set<string> {
    set p | p in ps :: p.id
  }

  /** The unique index on profiles.hash, checked row by row. */
  ghost predicate HashesFit(text: Serializer, t: Table, ps: seq<ApiProfile>, start: int)
    decreases |ps|
  {
    ps == [] ||
    (HashFree(t, ps[0].id, HashOf(text, ps[0])) && HashesFit(text, StoreOne(text, t, ps[0], start), ps[1..], start))
  }

  predicate HashFree(t: Table, id: string, hash: ProfileDigest) {
    forall k :: k in t && k != id ==> t[k].hash != hash
  }

  /** The statement goes through: no row is touched twice and no unique index is violated. */
  ghost predicate Storable(text: Serializer, t: Table, ps: seq<ApiProfile>, start: int) {
    DistinctIds(ps) && HashesFit(text, t, ps, start)
  }

  predicate StaleRow(row: Row, start: int) {
    row.lastSynced.Some? && row.lastSynced.value < start
  }

  function Sweep(t: Table, start: int): Table {
    map k | k in t && !StaleRow(t[k], start) :: t[k]
  }

  // --------------------------------------------------------------------- one run

  /**
   * What one request brings back. RateLimited stands for every error text containing "429";
   * reachable says whether the database takes the page.
   */
  datatype Answer =
    | RateLimited
    | Failed
    | Malformed
    | Page(data: seq<ApiProfile>, total: nat, reachable: bool)

  /** Waiting: no further answer has arrived yet. */
  datatype Ending = Completed | StoreFailed | Aborted | Waiting

  /** The table, how the run ended, the pages it received, and the page of every request it made. */
  datatype Outcome = Outcome(rows: Table, end: Ending, pages: seq<nat>, asked: seq<nat>)

  function After(pages: seq<nat>, asked: seq<nat>, o: Outcome): Outcome {
    o.(pages := pages + o.pages, asked := asked + o.asked)
  }

  /** What becomes of a received page. */
  datatype Verdict = NothingThere | Refused | LastStored | MoreToCome

  ghost function VerdictOf(text: Serializer, t: Table, answer: Answer, page: nat, start: int): Verdict
    requires answer.Page?
  {
    if answer.data == [] then NothingThere
    else if !(answer.reachable && Storable(text, t, answer.data, start)) then Refused
    else if page * LIMIT >= answer.total then LastStored
    else MoreToCome
  }

  ghost function OnPage(text: Serializer, t: Table, answer: Answer, page: nat, start: int, rest: seq<Answer>): Outcome
    requires answer.Page?
    decreases |rest|, 2
  {
    var stored := StoreAll(text, t, answer.data, start);
    match VerdictOf(text, t, answer, page, start)
    case NothingThere => Outcome(Sweep(t, start), Completed, [page], [page])
    case Refused => Outcome(t, StoreFailed, [page], [page])
    case LastStored => Outcome(Sweep(stored, start), Completed, [page], [page])
    case MoreToCome => After([page], [page], SyncRun(text, stored, rest, page + 1, start))
  }

  ghost function SyncRun(text: Serializer, t: Table, answers: seq<Answer>, page: nat, start: int): Outcome
    decreases |answers|, 1
  {
    if answers == [] then Outcome(t, Waiting, [], [page])
    else
      match answers[0]
      case RateLimited => After([], [page], SyncRun(text, t, answers[1..], page, start))
      case Failed => Outcome(t, Aborted, [], [page])
      case Malformed => Outcome(t, Aborted, [], [page])
      case Page(_, _, _) => OnPage(text, t, answers[0], page, start, answers[1..])
  }

  /** One unfolding of the run at its next answer. */
  lemma RunStep(text: Serializer, t: Table, answers: seq<Answer>, i: nat, page: nat, start: int)
    requires i <= |answers| && (i < |answers| ==> !answers[i].RateLimited?)
    ensures SyncRun(text, t, answers[i..], page, start) ==
      if i == |answers| then Outcome(t, Waiting, [], [page])
      else if !answers[i].Page? then Outcome(t, Aborted, [], [page])
      else OnPage(text, t, answers[i], page, start, answers[i + 1..])
  {
    hide OnPage;
    if i < |answers| {
      assert answers[i..][0] == answers[i] && answers[i..][1..] == answers[i + 1..];
    }
  }

  lemma NoneSeen(ps: seq<ApiProfile>)
    ensures Ids(ps[..0]) == {} && DistinctIds(ps[..0])
  {}

  /** One profile more of a batch: a repeated id spoils the batch. */
  lemma NextId(ps: seq<ApiProfile>, i: nat)
    requires i < |ps| && DistinctIds(ps[..i])
    ensures Ids(ps[..i + 1]) == Ids(ps[..i]) + {ps[i].id}
    ensures DistinctIds(ps[..i + 1]) <==> ps[i].id !in Ids(ps[..i])
    ensures ps[i].id in Ids(ps[..i]) ==> !DistinctIds(ps)
  {
    assert ps[..i + 1] == ps[..i] + [ps[i]];
    if ps[i].id in Ids(ps[..i]) {
      var m :| 0 <= m < i && ps[..i][m].id == ps[i].id;
      assert ps[..i + 1][m].id == ps[..i + 1][i].id;
    }
  }

  class ProfileStore {
    const text: Serializer
    var rows: Table

    constructor (text: Serializer, rows: Table)
      ensures this.text == text && this.rows == rows
    {
      this.text := text;
      this.rows := rows;
    }

    /** store_profiles: one statement, all or nothing. */
    method StoreProfiles(ps: seq<ApiProfile>, start: int, reachable: bool) returns (ok: bool)
      modifies this
      ensures ok == (ps == [] || (reachable && Storable(text, old(rows), ps, start)))
      ensures rows == if ok then StoreAll(text, old(rows), ps, start) else old(rows)
    {
      if ps == [] {
        return true;
      }
      hide StoreOne;
      hide HashFree;
      hide HashOf;
      hide Ids;
      hide DistinctIds;
      NoneSeen(ps);
      var next := rows;
      var seen: set<string> := {};
      for i := 0 to |ps|
        invariant rows == old(rows)
        invariant seen == Ids(ps[..i]) && DistinctIds(ps[..i])
        invariant StoreAll(text, next, ps[i..], start) == StoreAll(text, rows, ps, start)
        invariant HashesFit(text, next, ps[i..], start) == HashesFit(text, rows, ps, start)
      {
        var p := ps[i];
        assert ps[i..][0] == p && ps[i..][1..] == ps[i + 1..];
        NextId(ps, i);
        if p.id in seen || !HashFree(next, p.id, HashOf(text, p)) {
          return false;
        }
        next := StoreOne(text, next, p, start);
        seen := seen + {p.id};
      }
      assert ps[..|ps|] == ps;
      if !reachable {
        return false;
      }
      rows := next;
      return true;
    }

    method DeleteStale(start: int) returns (count: nat)
      modifies this
      ensures rows == Sweep(old(rows), start) && count + |rows| == |old(rows)|
    {
      var kept := Sweep(rows, start);
      SubsetCardinality(kept.Keys, rows.Keys);
      assert |kept| == |kept.Keys| && |rows| == |rows.Keys|;
      count := |rows| - |kept|;
      rows := kept;
    }

    /** The inner loop of run: ask again as long as the remote answers "429". */
    method AwaitResponse(answers: seq<Answer>, i: nat, page: nat, ghost start: int) returns (j: nat, retried: seq<nat>)
      requires i <= |answers|
      ensures i <= j <= |answers| && (j < |answers| ==> !answers[j].RateLimited?)
      ensures After([], retried, SyncRun(text, rows, answers[j..], page, start)) ==
              SyncRun(text, rows, answers[i..], page, start)
    {
      hide OnPage;
      j, retried := i, [];
      while j < |answers| && answers[j].RateLimited?
        invariant i <= j <= |answers|
        invariant After([], retried, SyncRun(text, rows, answers[j..], page, start)) ==
                  SyncRun(text, rows, answers[i..], page, start)
      {
        assert answers[j..][0] == answers[j] && answers[j..][1..] == answers[j + 1..];
        j := j + 1;
        retried := retried + [page];
      }
    }

    /** The middle of the loop: store what a page brought, and see whether there is more. */
    method TakePage(response: Answer, page: nat, start: int) returns (verdict: Verdict)
      requires response.Page?
      modifies this
      ensures verdict == VerdictOf(text, old(rows), response, page, start)
      ensures rows == if verdict.NothingThere? || verdict.Refused? then old(rows)
                      else StoreAll(text, old(rows), response.data, start)
    {
      hide StoreAll;
      hide Storable;
      if response.data == [] {
        return NothingThere;
      }
      var stored := StoreProfiles(response.data, start, response.reachable);
      if !stored {
        return Refused;
      }
      var fetched := page * LIMIT;
      return if fetched >= response.total then LastStored else MoreToCome;
    }

    /** run, fed with the answers in the order in which its requests receive them. */
    method Run(answers: seq<Answer>, start: int) returns (end: Ending, pages: seq<nat>, asked: seq<nat>)
      modifies this
      ensures Outcome(rows, end, pages, asked) == SyncRun(text, old(rows), answers, 1, start)
    {
      hide StoreAll;
      hide VerdictOf;
      hide Sweep;
      hide SyncRun;
      assert answers[0..] == answers;
      ghost var goal := SyncRun(text, rows, answers, 1, start);
      var page, i := 1, 0;
      var syncCompleted := true;
      pages, asked := [], [];
      while true
        invariant 0 <= i <= |answers| && syncCompleted
        invariant After(pages, asked, SyncRun(text, rows, answers[i..], page, start)) == goal
        decreases |answers| - i
      {
        var retried;
        i, retried := AwaitResponse(answers, i, page, start);
        RunStep(text, rows, answers, i, page, start);
        asked := asked + retried + [page];
        if i == |answers| {
          return Waiting, pages, asked;
        }
        var response := answers[i];
        i := i + 1;
        if !response.Page? {
          return Aborted, pages, asked;
        }
        pages := pages + [page];
        var verdict := TakePage(response, page, start);
        if verdict.Refused? {
          syncCompleted := false;
          break;
        }
        if !verdict.MoreToCome? {
          break;
        }
        page := page + 1;
      }
      if syncCompleted {
        var count := DeleteStale(start);
        end := Completed;
      } else {
        end := StoreFailed;
      }
    }
  }

  // ------------------------------------------------------------ store_profiles, row by row

  lemma {:induction false} StoreAllAt(text: Serializer, t: Table, ps: seq<ApiProfile>, start: int, k: string)
    requires DistinctIds(ps)
    ensures var r := StoreAll(text, t, ps, start);
      (k !in Ids(ps) ==> (k in r <==> k in t) && (k in t ==> r[k] == t[k])) &&
      (forall p :: p in ps && p.id == k ==> k in r && r[k] == MergedRow(text, t, p, start))
    decreases |ps|
  {
    hide BuildBecknStructure;
    if ps != [] {
      var t1 := StoreOne(text, t, ps[0], start);
      assert ps[0] in ps && forall p :: p in ps[1..] ==> p in ps && p.id != ps[0].id;
      assert forall p :: p in ps ==> p == ps[0] || p in ps[1..];
      StoreAllAt(text, t1, ps[1..], start, k);
      if k == ps[0].id {
        assert k !in Ids(ps[1..]);
        assert forall p :: p in ps && p.id == k ==> p == ps[0];
      }
    }
  }

  lemma {:induction false} StoreAppend(text: Serializer, t: Table, a: seq<ApiProfile>, b: seq<ApiProfile>, start: int)
    ensures StoreAll(text, t, a + b, start) == StoreAll(text, StoreAll(text, t, a, start), b, start)
    ensures HashesFit(text, t, a + b, start) <==>
      HashesFit(text, t, a, start) && HashesFit(text, StoreAll(text, t, a, start), b, start)
    decreases |a|
  {
    hide StoreOne;
    hide HashFree;
    if a == [] {
      assert a + b == b;
    } else {
      assert (a + b)[0] == a[0] && (a + b)[1..] == a[1..] + b;
      StoreAppend(text, StoreOne(text, t, a[0], start), a[1..], b, start);
    }
  }

  lemma {:induction false} StoreKeepsRows(text: Serializer, t: Table, ps: seq<ApiProfile>, start: int)
    ensures t.Keys <= StoreAll(text, t, ps, start).Keys
    decreases |ps|
  {
    if ps != [] {
      StoreKeepsRows(text, StoreOne(text, t, ps[0], start), ps[1..], start);
    }
  }

  // ---------------------------------------------------------------- whole runs

  /** A run that stops on an error, or has not finished, deletes nothing, whatever it was answered. */
  lemma {:induction false} OnlyCompletedRunsDelete(text: Serializer, t: Table, answers: seq<Answer>, page: nat,
                                                   start: int)
    ensures var o := SyncRun(text, t, answers, page, start);
      !o.end.Completed? ==> t.Keys <= o.rows.Keys
    decreases |answers|
  {
    hide Storable;
    hide StoreAll;
    if answers != [] {
      OnlyCompletedRunsDelete(text, t, answers[1..], page, start);
      if answers[0].Page? {
        StoreKeepsRows(text, t, answers[0].data, start);
        OnlyCompletedRunsDelete(text, StoreAll(text, t, answers[0].data, start), answers[1..], page + 1, start);
      }
    }
  }

  /** The answers without those that ask to wait. */
  ghost function Unlimited(answers: seq<Answer>): seq<Answer>
    decreases |answers|
  {
    if answers == [] then []
    else (if answers[0].RateLimited? then [] else [answers[0]]) + Unlimited(answers[1..])
  }

  /** Rate limiting only adds requests: table, end and received pages are those of the other answers. */
  lemma {:induction false} RetriesOnlyAddRequests(text: Serializer, t: Table, answers: seq<Answer>, page: nat,
                                                  start: int)
    ensures var o, u := SyncRun(text, t, answers, page, start), SyncRun(text, t, Unlimited(answers), page, start);
      o.rows == u.rows && o.end == u.end && o.pages == u.pages && |o.asked| >= |u.asked|
    decreases |answers|
  {
    hide VerdictOf;
    hide StoreAll;
    hide Sweep;
    if answers != [] {
      var rest := Unlimited(answers[1..]);
      if answers[0].RateLimited? {
        assert [] + rest == rest;
        RetriesOnlyAddRequests(text, t, answers[1..], page, start);
      } else {
        assert ([answers[0]] + rest)[1..] == rest;
        if answers[0].Page? {
          RetriesOnlyAddRequests(text, StoreAll(text, t, answers[0].data, start), answers[1..], page + 1, start);
        }
      }
    }
  }

  /** An error, a page that cannot be read, or profiles the database does not take. */
  predicate EndsRun(answer: Answer) {
    answer.Failed? || answer.Malformed? || (answer.Page? && answer.data != [] && !answer.reachable)
  }

  /** Such an answer is the last one a run looks at, if it gets that far. */
  lemma {:induction false} ErrorsAreFinal(text: Serializer, t: Table, answers: seq<Answer>, page: nat, start: int,
                                          i: nat)
    requires i < |answers| && EndsRun(answers[i])
    ensures SyncRun(text, t, answers, page, start) == SyncRun(text, t, answers[..i + 1], page, start)
    ensures !SyncRun(text, t, answers, page, start).end.Waiting?
    decreases |answers|
  {
    hide StoreAll;
    hide Sweep;
    hide Storable;
    assert answers[0].Page? && EndsRun(answers[0]) ==> VerdictOf(text, t, answers[0], page, start).Refused?;
    hide VerdictOf;
    var short := answers[..i + 1];
    assert short[0] == answers[0];
    if i > 0 {
      assert short[1..] == answers[1..][..i] && answers[1..][i - 1] == answers[i];
      if answers[0].RateLimited? {
        ErrorsAreFinal(text, t, answers[1..], page, start, i - 1);
      } else if answers[0].Page? {
        ErrorsAreFinal(text, StoreAll(text, t, answers[0].data, start), answers[1..], page + 1, start, i - 1);
      }
    }
  }

  /** A fixed remote list in pages of 100, and what is left from a page on. */
  function RemotePage(remote: seq<ApiProfile>, page: nat): seq<ApiProfile>
    requires page >= 1
  {
    var rest := Rest(remote, page);
    if |rest| <= LIMIT then rest else rest[..LIMIT]
  }

  function Rest(remote: seq<ApiProfile>, page: nat): seq<ApiProfile>
    requires page >= 1
  {
    if (page - 1) * LIMIT >= |remote| then [] else remote[(page - 1) * LIMIT..]
  }

  function PageCount(n: nat): nat {
    if n == 0 then 1 else (n + LIMIT - 1) / LIMIT
  }

  /** Every answer that is a page is the requested page of the fixed list. */
  ghost predicate Faithful(answers: seq<Answer>, remote: seq<ApiProfile>, page: nat)
    requires page >= 1
    decreases |answers|
  {
    answers != [] ==>
      match answers[0]
      case RateLimited => Faithful(answers[1..], remote, page)
      case Failed => true
      case Malformed => true
      case Page(data, total, reachable) =>
        data == RemotePage(remote, page) && total == |remote| && Faithful(answers[1..], remote, page + 1)
  }

  /** The requests reach `needed` pages without an error and the database takes them. */
  ghost predicate Smooth(answers: seq<Answer>, needed: int)
    decreases |answers|
  {
    needed <= 0 ||
    (answers != [] &&
     match answers[0]
     case RateLimited => Smooth(answers[1..], needed)
     case Page(data, total, reachable) => reachable && Smooth(answers[1..], needed - 1)
     case _ => false)
  }

  lemma CountsPages(n: nat, page: nat)
    requires page == 1 || (page >= 1 && (page - 1) * LIMIT < n)
    ensures page <= PageCount(n)
    ensures page * LIMIT >= n <==> page == PageCount(n)
  {}

  lemma PageSplits(remote: seq<ApiProfile>, page: nat)
    requires page >= 1 && DistinctIds(remote)
    requires page == 1 || (page - 1) * LIMIT < |remote|
    ensures Rest(remote, page) == RemotePage(remote, page) + Rest(remote, page + 1)
    ensures DistinctIds(RemotePage(remote, page)) && (RemotePage(remote, page) == [] <==> |remote| == 0)
    ensures page * LIMIT >= |remote| <==> page == PageCount(|remote|)
    ensures page * LIMIT >= |remote| ==> RemotePage(remote, page) == Rest(remote, page)
    ensures page <= PageCount(|remote|)
  {
    CountsPages(|remote|, page);
    hide PageCount;
    if page * LIMIT < |remote| {
      assert Rest(remote, page + 1) == remote[page * LIMIT..] == remote[(page - 1) * LIMIT..][LIMIT..];
    }
  }

  /** The pages from, from + 1, .., none beyond the last. */
  ghost predicate Consecutive(pages: seq<nat>, from: nat, last: nat) {
    forall i :: 0 <= i < |pages| ==> pages[i] == from + i <= last
  }

  lemma OneBefore(pages: seq<nat>, from: nat, last: nat)
    requires Consecutive(pages, from + 1, last) && from <= last
    ensures Consecutive([from] + pages, from, last)
  {}

  ghost predicate Between(pages: seq<nat>, from: nat, last: nat) {
    forall p :: p in pages ==> from <= p <= last
  }

  lemma OneRequestBefore(pages: seq<nat>, page: nat, from: nat, last: nat)
    requires Between(pages, from, last) && page <= from && page <= last
    ensures Between([page] + pages, page, last)
  {}

  ghost predicate NeverLimited(answers: seq<Answer>) {
    forall a :: a in answers ==> !a.RateLimited?
  }

  /** Whether a faithful page leads on to the next request. */
  lemma LeadsOn(text: Serializer, t: Table, remote: seq<ApiProfile>, answers: seq<Answer>, page: nat, start: int)
    requires page >= 1 && DistinctIds(remote) && Faithful(answers, remote, page)
    requires page == 1 || (page - 1) * LIMIT < |remote|
    requires answers != [] && answers[0].Page?
    ensures page <= PageCount(|remote|) && Faithful(answers[1..], remote, page + 1)
    ensures var verdict := VerdictOf(text, t, answers[0], page, start);
      (verdict.MoreToCome? ==> page < PageCount(|remote|) && page * LIMIT < |remote|) &&
      (verdict.NothingThere? || verdict.LastStored? ==> page == PageCount(|remote|))
  {
    hide Storable;
    hide RemotePage;
    hide Rest;
    hide PageCount;
    PageSplits(remote, page);
    hide DistinctIds;
  }

  /** The pages come in order, none beyond the last, and a completed run got them all. */
  lemma {:induction false} PagesInOrder(text: Serializer, t: Table, remote: seq<ApiProfile>, answers: seq<Answer>,
                                        page: nat, start: int)
    requires page >= 1 && DistinctIds(remote) && Faithful(answers, remote, page)
    requires page == 1 || (page - 1) * LIMIT < |remote|
    ensures var o := SyncRun(text, t, answers, page, start);
      Consecutive(o.pages, page, PageCount(|remote|)) &&
      (o.end.Completed? ==> |o.pages| == PageCount(|remote|) + 1 - page)
    decreases |answers|
  {
    hide VerdictOf;
    hide StoreAll;
    hide Sweep;
    hide PageCount;
    hide RemotePage;
    hide DistinctIds;
    if answers != [] {
      if answers[0].RateLimited? {
        PagesInOrder(text, t, remote, answers[1..], page, start);
      } else if answers[0].Page? {
        LeadsOn(text, t, remote, answers, page, start);
        if VerdictOf(text, t, answers[0], page, start).MoreToCome? {
          var stored := StoreAll(text, t, answers[0].data, start);
          PagesInOrder(text, stored, remote, answers[1..], page + 1, start);
          OneBefore(SyncRun(text, stored, answers[1..], page + 1, start).pages, page, PageCount(|remote|));
        }
      }
    }
  }

  /** No request is made beyond the last page. */
  lemma {:induction false} RequestsInRange(text: Serializer, t: Table, remote: seq<ApiProfile>, answers: seq<Answer>,
                                           page: nat, start: int)
    requires page >= 1 && DistinctIds(remote) && Faithful(answers, remote, page)
    requires page == 1 || (page - 1) * LIMIT < |remote|
    ensures Between(SyncRun(text, t, answers, page, start).asked, page, PageCount(|remote|))
    decreases |answers|
  {
    hide VerdictOf;
    hide StoreAll;
    hide Sweep;
    hide RemotePage;
    CountsPages(|remote|, page);
    hide PageCount;
    hide DistinctIds;
    if answers != [] {
      if answers[0].RateLimited? {
        RequestsInRange(text, t, remote, answers[1..], page, start);
        OneRequestBefore(SyncRun(text, t, answers[1..], page, start).asked, page, page, PageCount(|remote|));
      } else if answers[0].Page? {
        LeadsOn(text, t, remote, answers, page, start);
        if VerdictOf(text, t, answers[0], page, start).MoreToCome? {
          var stored := StoreAll(text, t, answers[0].data, start);
          RequestsInRange(text, stored, remote, answers[1..], page + 1, start);
          var rest := SyncRun(text, stored, answers[1..], page + 1, start);
          OneRequestBefore(rest.asked, page, page + 1, PageCount(|remote|));
        }
      }
    }
  }

  /** Without rate limiting a run that ends on its own makes one request for each page it receives. */
  lemma {:induction false} OneRequestPerPage(text: Serializer, t: Table, answers: seq<Answer>, page: nat, start: int)
    requires NeverLimited(answers)
    ensures var o := SyncRun(text, t, answers, page, start);
      o.end.Completed? || o.end.StoreFailed? ==> o.asked == o.pages
    decreases |answers|
  {
    hide VerdictOf;
    hide StoreAll;
    hide Sweep;
    if answers != [] {
      assert answers[0] in answers && forall a :: a in answers[1..] ==> a in answers;
      if answers[0].Page? {
        OneRequestPerPage(text, StoreAll(text, t, answers[0].data, start), answers[1..], page + 1, start);
      }
    }
  }

  /** From any page on, the run stores what is left of the list, and sweeps only after all of it. */
  lemma {:induction false} RunFrom(text: Serializer, t: Table, remote: seq<ApiProfile>, answers: seq<Answer>,
                                   page: nat, start: int)
    requires page >= 1 && DistinctIds(remote) && Faithful(answers, remote, page)
    requires page == 1 || (page - 1) * LIMIT < |remote|
    ensures var o := SyncRun(text, t, answers, page, start);
      (o.end.Completed? ==>
        HashesFit(text, t, Rest(remote, page), start) &&
        o.rows == Sweep(StoreAll(text, t, Rest(remote, page), start), start)) &&
      (Smooth(answers, PageCount(|remote|) + 1 - page) ==>
        o.end == if HashesFit(text, t, Rest(remote, page), start) then Completed else StoreFailed)
    decreases |answers|
  {
    hide StoreAll;
    hide HashesFit;
    hide Sweep;
    hide RemotePage;
    hide Rest;
    hide PageCount;
    PageSplits(remote, page);
    hide DistinctIds;
    if answers != [] {
      if answers[0].RateLimited? {
        RunFrom(text, t, remote, answers[1..], page, start);
      } else if answers[0].Page? {
        var data := answers[0].data;
        StoreAppend(text, t, data, Rest(remote, page + 1), start);
        NothingToStore(text, t, start);
        if data != [] && page * LIMIT < |remote| && answers[0].reachable && Storable(text, t, data, start) {
          RunFrom(text, StoreAll(text, t, data, start), remote, answers[1..], page + 1, start);
        }
      }
    }
  }

  lemma NothingToStore(text: Serializer, t: Table, start: int)
    ensures HashesFit(text, t, [], start) && StoreAll(text, t, [], start) == t
  {}

  /**
   * Against a fixed remote list with distinct ids, a completed run received the pages
   * 1 .. ceil(n / 100), one page when the list is empty, and left row k in the table exactly when
   * k is in the list, or when row k has no sync time or was synced since the start.
   */
  lemma CompletedRunMirrorsRemote(text: Serializer, t: Table, remote: seq<ApiProfile>, answers: seq<Answer>,
                                  start: int, k: string)
    requires DistinctIds(remote) && Faithful(answers, remote, 1)
    requires SyncRun(text, t, answers, 1, start).end.Completed?
    ensures var pages := SyncRun(text, t, answers, 1, start).pages;
      |pages| == (if remote == [] then 1 else (|remote| + 99) / 100) &&
      forall i :: 0 <= i < |pages| ==> pages[i] == i + 1
    ensures var rows := SyncRun(text, t, answers, 1, start).rows;
      (k in rows <==> (exists p :: p in remote && p.id == k) || (k in t && NotBefore(t[k].lastSynced, start))) &&
      (k in rows && (forall p :: p in remote ==> p.id != k) ==> rows[k] == t[k]) &&
      (forall p :: p in remote && p.id == k ==> rows[k] == MergedRow(text, t, p, start))
  {
    hide BuildBecknStructure;
    PagesInOrder(text, t, remote, answers, 1, start);
    RunFrom(text, t, remote, answers, 1, start);
    assert Rest(remote, 1) == remote;
    StoreAllAt(text, t, remote, start, k);
  }

  /** No sync time, or one that is not before the start. */
  ghost predicate NotBefore(lastSynced: Option<int>, start: int) {
    lastSynced == None || lastSynced.value >= start
  }

  /** The row says what the profile says: the copied parts, the digest, and the document built from them. */
  ghost predicate Shows(text: Serializer, row: Row, p: ApiProfile) {
    row.userId == p.userId && row.kind == p.kind && row.metadata == p.metadata &&
    row.hash == Sha256(p.id + p.userId + p.kind + text(p.metadata) + p.createdAt + p.updatedAt) &&
    Pointer(row.beckn, "/id") == Some(Str(p.id)) && Pointer(row.beckn, "/tags/profile") == Some(p.metadata)
  }

  /** The name in the built document is the text "name" of the metadata. */
  ghost predicate Names(row: Row, p: ApiProfile, name: string) {
    p.metadata.Obj? && "name" in p.metadata.fields && p.metadata.fields["name"] == Str(name) &&
    Pointer(row.beckn, "/descriptor/name") == Some(Str(name))
  }

  ghost predicate Nameless(row: Row, p: ApiProfile) {
    (forall name :: Get(p.metadata, "name") != Some(Str(name))) &&
    Pointer(row.beckn, "/descriptor/name") == Some(Str("unknown"))
  }

  /** A member of a member. */
  lemma InnerMember(doc: Json, path: string, outer: string, inner: string)
    requires '/' !in outer && '~' !in outer && '/' !in inner && '~' !in inner && path == "/" + outer + ("/" + inner)
    requires doc.Obj? && outer in doc.fields && doc.fields[outer].Obj?
    ensures Pointer(doc, path) == Get(doc.fields[outer], inner)
  {
    hide Pointer;
    PointerIntoObject(doc.fields, outer, "/" + inner);
    PlainPointer(doc.fields[outer], inner);
  }

  lemma BecknStructureMeans(id: string, metadata: Json)
    ensures var doc := BuildBecknStructure(id, metadata);
      Pointer(doc, "/id") == Some(Str(id)) && Pointer(doc, "/tags/profile") == Some(metadata) &&
      Pointer(doc, "/descriptor/name") ==
        Some(if AsStr(Get(metadata, "name")).Some? then Get(metadata, "name").value else Str("unknown"))
  {
    hide Pointer;
    var doc := BuildBecknStructure(id, metadata);
    assert "/" + "id" == "/id";
    PlainPointer(doc, "id");
    InnerMember(doc, "/descriptor/name", "descriptor", "name");
    InnerMember(doc, "/tags/profile", "tags", "profile");
  }

  lemma NewRowShows(text: Serializer, p: ApiProfile, start: int)
    ensures var row := NewRow(text, p, start);
      Shows(text, row, p) && row.lastSynced == Some(start) && (Nameless(row, p) || exists name :: Names(row, p, name))
  {
    BecknStructureMeans(p.id, p.metadata);
    var row := NewRow(text, p, start);
    if AsStr(Get(p.metadata, "name")).Some? {
      assert Names(row, p, AsStr(Get(p.metadata, "name")).value);
    }
    hide Pointer;
    hide BuildBecknStructure;
  }

  /**
   * After a completed run the row of a remote profile is synced at the start. One with the digest
   * of the profile keeps everything else; any other, and a new one, shows the profile.
   */
  lemma CompletedRowMeans(text: Serializer, t: Table, remote: seq<ApiProfile>, answers: seq<Answer>, start: int,
                          p: ApiProfile)
    requires DistinctIds(remote) && Faithful(answers, remote, 1) && p in remote
    requires SyncRun(text, t, answers, 1, start).end.Completed?
    ensures p.id in SyncRun(text, t, answers, 1, start).rows
    ensures var row := SyncRun(text, t, answers, 1, start).rows[p.id];
      var digest := Sha256(p.id + p.userId + p.kind + text(p.metadata) + p.createdAt + p.updatedAt);
      row.lastSynced == Some(start) &&
      if p.id in t && t[p.id].hash == digest then row == t[p.id].(lastSynced := Some(start))
      else Shows(text, row, p) && (Nameless(row, p) || exists name :: Names(row, p, name))
  {
    CompletedRunMirrorsRemote(text, t, remote, answers, start, p.id);
    NewRowShows(text, p, start);
    hide SyncRun;
    hide Shows;
    hide Names;
    hide Nameless;
    hide BuildBecknStructure;
  }

  /**
   * Of a non-empty list no page beyond the end is asked for, retries and unanswered requests
   * included: page * 100 stays below the total + 100. Of an empty list page 1 is asked for.
   */
  lemma NeverAsksBeyondTheEnd(text: Serializer, t: Table, remote: seq<ApiProfile>, answers: seq<Answer>, start: int)
    requires DistinctIds(remote) && Faithful(answers, remote, 1)
    ensures forall page :: page in SyncRun(text, t, answers, 1, start).asked ==>
      page >= 1 && if remote == [] then page == 1 else page * LIMIT <= |remote| + 99
  {
    RequestsInRange(text, t, remote, answers, 1, start);
  }

  /** Without request errors a run completes if and only if no two rows would share a hash. */
  lemma SmoothRunCompletesIff(text: Serializer, t: Table, remote: seq<ApiProfile>, answers: seq<Answer>, start: int)
    requires DistinctIds(remote) && Faithful(answers, remote, 1) && Smooth(answers, PageCount(|remote|))
    ensures SyncRun(text, t, answers, 1, start).end ==
      if HashesFit(text, t, remote, start) then Completed else StoreFailed
  {
    RunFrom(text, t, remote, answers, 1, start);
    assert Rest(remote, 1) == remote;
  }

  // --------------------------------------------------------------- equal digests

  ghost predicate NoTwinsIn(text: Serializer, ps: seq<ApiProfile>) {
    forall i, j :: 0 <= i < j < |ps| ==> HashOf(text, ps[i]) != HashOf(text, ps[j])
  }

  /** No row that is still unchanged when ps[i] arrives holds the digest of ps[i] under another id. */
  ghost predicate NoTwinRows(text: Serializer, t: Table, ps: seq<ApiProfile>) {
    forall i, k :: 0 <= i < |ps| && k in t && k != ps[i].id && t[k].hash == HashOf(text, ps[i]) ==> k in Ids(ps[..i])
  }

  lemma IdsOfRest(ps: seq<ApiProfile>, i: nat)
    requires 0 < i <= |ps|
    ensures Ids(ps[..i]) == Ids(ps[1..][..i - 1]) + {ps[0].id}
  {
    assert ps[..i] == [ps[0]] + ps[1..][..i - 1];
  }

  lemma TwinRowsAdvance(text: Serializer, t: Table, ps: seq<ApiProfile>, start: int)
    requires DistinctIds(ps) && ps != [] && NoTwinRows(text, t, ps) && NoTwinsIn(text, ps)
    ensures HashFree(t, ps[0].id, HashOf(text, ps[0]))
    ensures NoTwinRows(text, StoreOne(text, t, ps[0], start), ps[1..]) && NoTwinsIn(text, ps[1..])
  {
    hide BuildBecknStructure;
    hide Preimage;
    hide Ids;
    var t1, rest := StoreOne(text, t, ps[0], start), ps[1..];
    assert t1[ps[0].id].hash == HashOf(text, ps[0]);
    forall k | k in t && k != ps[0].id ensures t[k].hash != HashOf(text, ps[0]) {
      assert ps[..0] == [] && k !in Ids([]) by { NoIds(k); }
    }
    forall i, k | 0 <= i < |rest| && k in t1 && k != rest[i].id && t1[k].hash == HashOf(text, rest[i])
      ensures k in Ids(rest[..i])
    {
      assert rest[i] == ps[i + 1];
      assert k != ps[0].id;
      IdsOfRest(ps, i + 1);
    }
  }

  lemma NoIds(k: string)
    ensures k !in Ids([])
  {}

  lemma TwinRowsReturn(text: Serializer, t: Table, ps: seq<ApiProfile>, start: int)
    requires DistinctIds(ps) && ps != [] && HashFree(t, ps[0].id, HashOf(text, ps[0]))
    requires NoTwinRows(text, StoreOne(text, t, ps[0], start), ps[1..]) && NoTwinsIn(text, ps[1..])
    ensures NoTwinRows(text, t, ps) && NoTwinsIn(text, ps)
  {
    hide BuildBecknStructure;
    hide Preimage;
    var t1, rest := StoreOne(text, t, ps[0], start), ps[1..];
    assert t1[ps[0].id].hash == HashOf(text, ps[0]);
    forall i, k | 0 <= i < |ps| && k in t && k != ps[i].id && t[k].hash == HashOf(text, ps[i])
      ensures k in Ids(ps[..i])
    {
      if k != ps[0].id {
        assert i > 0 && rest[i - 1] == ps[i] && k in t1;
      }
      IdsOfRest(ps, i);
    }
    forall j | 0 < j < |ps| ensures HashOf(text, ps[0]) != HashOf(text, ps[j]) {
      assert rest[j - 1] == ps[j];
      assert ps[0].id !in Ids(rest[..j - 1]);
    }
  }

  /** When the unique index accepts a list, said without replaying the insertions. */
  lemma {:induction false} HashesFitIff(text: Serializer, t: Table, ps: seq<ApiProfile>, start: int)
    requires DistinctIds(ps)
    ensures HashesFit(text, t, ps, start) <==> NoTwinRows(text, t, ps) && NoTwinsIn(text, ps)
    decreases |ps|
  {
    hide StoreOne;
    hide HashOf;
    if ps != [] {
      HashesFitIff(text, StoreOne(text, t, ps[0], start), ps[1..], start);
      if NoTwinRows(text, t, ps) && NoTwinsIn(text, ps) {
        TwinRowsAdvance(text, t, ps, start);
      }
      if HashesFit(text, t, ps, start) {
        TwinRowsReturn(text, t, ps, start);
      }
    }
  }

  /**
   * As long as the remote list holds two profiles whose six parts run together to the same
   * text, no run against it completes, whatever errors it meets: nothing stale is ever deleted.
   */
  lemma TwinsBlockTheSync(text: Serializer, t: Table, remote: seq<ApiProfile>, answers: seq<Answer>, start: int,
                          i: nat, j: nat)
    requires DistinctIds(remote) && Faithful(answers, remote, 1)
    requires i < j < |remote| && Preimage(text, remote[i]) == Preimage(text, remote[j])
    ensures !SyncRun(text, t, answers, 1, start).end.Completed?
    ensures t.Keys <= SyncRun(text, t, answers, 1, start).rows.Keys
  {
    RunFrom(text, t, remote, answers, 1, start);
    assert Rest(remote, 1) == remote;
    HashesFitIff(text, t, remote, start);
    assert HashOf(text, remote[i]) == HashOf(text, remote[j]);
    OnlyCompletedRunsDelete(text, t, answers, 1, start);
  }

  /** Two different profiles with different ids and one digest: the parts have no separators. */
  lemma TwinsExist(text: Serializer, kind: string, metadata: Json, at: string) returns (p: ApiProfile, q: ApiProfile)
    ensures p.id != q.id && HashOf(text, p) == HashOf(text, q)
    ensures p.(id := q.id, userId := q.userId) == q
  {
    p, q := ApiProfile("1", "23", kind, metadata, at, at), ApiProfile("12", "3", kind, metadata, at, at);
    assert "1" + "23" == "12" + "3";
  }

  /** The row was last written from this profile. */
  ghost predicate WrittenFrom(text: Serializer, row: Row, q: ApiProfile) {
    row == NewRow(text, q, 0).(lastSynced := row.lastSynced)
  }

  /**
   * After a completed run the row of a remote profile shows that profile, except when the row was
   * written from another version of it whose six parts run together to the same text.
   */
  lemma RowShowsRemoteIff(text: Serializer, t: Table, remote: seq<ApiProfile>, answers: seq<Answer>, start: int,
                          p: ApiProfile, q: ApiProfile)
    requires DistinctIds(remote) && Faithful(answers, remote, 1) && p in remote && q.id == p.id
    requires SyncRun(text, t, answers, 1, start).end.Completed?
    requires p.id in t ==> WrittenFrom(text, t[p.id], q)
    ensures p.id in SyncRun(text, t, answers, 1, start).rows
    ensures SyncRun(text, t, answers, 1, start).rows[p.id] == NewRow(text, p, start) <==>
      !(p.id in t && Preimage(text, q) == Preimage(text, p) &&
        (q.userId != p.userId || q.kind != p.kind || q.metadata != p.metadata))
  {
    CompletedRunMirrorsRemote(text, t, remote, answers, start, p.id);
  }

  /**
   * A changed profile taken for unchanged: text has moved from its kind to its user id. The run
   * completes and the row still shows the old version.
   */
  lemma ChangeCanGoUnseen(text: Serializer, metadata: Json, at: string, start: int)
    returns (was: ApiProfile, now: ApiProfile, t: Table, answers: seq<Answer>)
    ensures was.id == now.id && was.userId != now.userId && t == map[was.id := NewRow(text, was, start - 1)]
    ensures Faithful(answers, [now], 1)
    ensures var o := SyncRun(text, t, answers, 1, start);
      o.end.Completed? && now.id in o.rows && o.rows[now.id] == NewRow(text, was, start)
  {
    was := ApiProfile("1", "ab", "c", metadata, at, at);
    now := ApiProfile("1", "a", "bc", metadata, at, at);
    t, answers := map["1" := NewRow(text, was, start - 1)], [Page([now], 1, true)];
    assert "1" + "ab" + "c" == "1" + "a" + "bc";
    assert Preimage(text, was) == Preimage(text, now);
    assert answers[1..] == [] && [now][1..] == [];
    hide BuildBecknStructure;
    assert StoreOne(text, t, now, start) == map["1" := NewRow(text, was, start)];
    assert StoreAll(text, t, [now], start) == map["1" := NewRow(text, was, start)] by {
      assert StoreAll(text, StoreOne(text, t, now, start), [], start) == StoreOne(text, t, now, start);
    }
    assert HashesFit(text, t, [now], start);
  }

  lemma SplitAt(a: string, b: string, c: string, d: string)
    requires a + b == c + d && (|a| == |c| || |b| == |d|)
    ensures a == c && b == d
  {
    assert |a + b| == |a| + |b| && |c + d| == |c| + |d|;
    assert a == (a + b)[..|a|] && c == (c + d)[..|c|];
    assert b == (a + b)[|a|..] && d == (c + d)[|c|..];
  }

  /** With parts of fixed width, and a serialisation that loses nothing, equal digests mean equal profiles. */
  lemma FixedWidthsAreUnambiguous(text: Serializer, p: ApiProfile, q: ApiProfile)
    requires HashOf(text, p) == HashOf(text, q) && (text(p.metadata) == text(q.metadata) ==> p.metadata == q.metadata)
    requires |p.id| == |q.id| && |p.userId| == |q.userId| && |p.kind| == |q.kind|
    requires |p.createdAt| == |q.createdAt| && |p.updatedAt| == |q.updatedAt|
    ensures p == q
  {
    var p1, q1 := p.id + p.userId, q.id + q.userId;
    var p2, q2 := p1 + p.kind, q1 + q.kind;
    var p3, q3 := p2 + text(p.metadata), q2 + text(q.metadata);
    SplitAt(p3 + p.createdAt, p.updatedAt, q3 + q.createdAt, q.updatedAt);
    SplitAt(p3, p.createdAt, q3, q.createdAt);
    SplitAt(p2, text(p.metadata), q2, text(q.metadata));
    SplitAt(p1, p.kind, q1, q.kind);
    SplitAt(p.id, p.userId, q.id, q.userId);
  }
}
