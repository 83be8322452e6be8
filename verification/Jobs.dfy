/**
 * The jobs table: the hash-guarded bulk upsert, stale deactivation and the
 * embedding column (src/db/job.rs), with the extraction of table rows from a
 * catalogue page (src/utils/search.rs). A row's generated UUID is represented by
 * its unique key (job_id, provider_id): rows are never deleted.
 */
module Jobs {
  import opened Prelude
  import opened JsonValue
  import opened VectorMath

  datatype JobKey = JobKey(jobId: string, providerId: string)

  /** SHA-256 of a serialised document, treated as injective. */
  datatype Digest = Sha256(preimage: Json)

  datatype NewJob = NewJob(key: JobKey, txn: string, bpp: string, uri: string,
                           content: Option<Json>, hash: Digest)

  datatype JobRow = JobRow(txn: string, bpp: string, uri: string, content: Option<Json>, hash: Digest,
                           embedding: Option<Vec>, active: bool)

  type Table = map<JobKey, JobRow>

  // ---------------------------------------------------------------- store_jobs

  /** ON CONFLICT (job_id, provider_id) DO UPDATE with the CASE on the hash. */
  function MergedRow(t: Table, j: NewJob): JobRow {
    if j.key in t && t[j.key].hash == j.hash
    then t[j.key].(txn := j.txn, bpp := j.bpp, uri := j.uri, active := true)
    else JobRow(j.txn, j.bpp, j.uri, j.content, j.hash, None, true)
  }

  function StoreAll(t: Table, jobs: seq<NewJob>): Table
    decreases |jobs|
  {
    if jobs == [] then t else StoreAll(t[jobs[0].key := MergedRow(t, jobs[0])], jobs[1..])
  }

  ghost predicate DistinctKeys(jobs: seq<NewJob>) {
    forall i, j :: 0 <= i < j < |jobs| ==> jobs[i].key != jobs[j].key
  }

  ghost function Keys(jobs: seq<NewJob>): set<JobKey> {
    set j | j in jobs :: j.key
  }

  /** The unique index on jobs.hash, checked row by row. */
  ghost predicate HashesFit(t: Table, jobs: seq<NewJob>)
    decreases |jobs|
  {
    jobs == [] ||
    (HashFree(t, jobs[0]) && HashesFit(t[jobs[0].key := MergedRow(t, jobs[0])], jobs[1..]))
  }

  predicate HashFree(t: Table, j: NewJob) {
    forall k :: k in t && k != j.key ==> t[k].hash != j.hash
  }

  /** The statement goes through: no row is touched twice and no unique index is violated. */
  ghost predicate Storable(t: Table, jobs: seq<NewJob>) {
    DistinctKeys(jobs) && HashesFit(t, jobs)
  }

  function StaleKeys(t: Table, bpp: string, txn: string): set<JobKey> {
    set k | k in t && t[k].bpp == bpp && t[k].txn != txn && t[k].active
  }

  function Deactivate(t: Table, bpp: string, txn: string): Table {
    map k | k in t :: if k in StaleKeys(t, bpp, txn) then t[k].(active := false) else t[k]
  }

  function PendingKeys(t: Table, bpp: string): set<JobKey> {
    set k | k in t && t[k].embedding == None && t[k].bpp == bpp && t[k].active
  }

  function EmbeddedKeys(t: Table): set<JobKey> {
    set k | k in t && t[k].active && t[k].embedding.Some?
  }

  datatype Update = Update(key: JobKey, embedding: Vec)

  /** UPDATE jobs SET embedding = .. WHERE id = ..; a missing id updates nothing. */
  function WriteEmbeddings(t: Table, updates: seq<Update>): Table
    decreases |updates|
  {
    if updates == [] then t
    else
      var u := updates[0];
      WriteEmbeddings(if u.key in t then t[u.key := t[u.key].(embedding := Some(u.embedding))] else t, updates[1..])
  }

  class JobsTable {
    var rows: Table

    constructor ()
      ensures rows == map[]
    {
      rows := map[];
    }

    /** One statement: either every row of the batch is merged or the table is left alone. */
    method StoreJobs(jobs: seq<NewJob>) returns (ok: bool)
      modifies this
      ensures ok == Storable(old(rows), jobs)
      ensures rows == if ok then StoreAll(old(rows), jobs) else old(rows)
    {
      var next := rows;
      var seen: set<JobKey> := {};
      for i := 0 to |jobs|
        invariant rows == old(rows)
        invariant seen == Keys(jobs[..i]) && DistinctKeys(jobs[..i])
        invariant StoreAll(next, jobs[i..]) == StoreAll(rows, jobs)
        invariant HashesFit(next, jobs[i..]) == HashesFit(rows, jobs)
      {
        var j := jobs[i];
        assert jobs[i..][0] == j && jobs[i..][1..] == jobs[i + 1..];
        assert jobs[..i + 1] == jobs[..i] + [j];
        if j.key in seen || !HashFree(next, j) {
          if j.key in seen {
            assert exists m :: 0 <= m < i && jobs[..i][m].key == j.key;
          }
          return false;
        }
        next := next[j.key := MergedRow(next, j)];
        seen := seen + {j.key};
      }
      assert jobs[..|jobs|] == jobs;
      rows := next;
      return true;
    }

    /** Returns the ids it deactivated, in no particular order. */
    method DeactivateStale(bpp: string, txn: string) returns (ids: seq<JobKey>)
      modifies this
      ensures rows == Deactivate(old(rows), bpp, txn)
      ensures Distinct(ids) && Elements(ids) == StaleKeys(old(rows), bpp, txn)
      ensures forall k :: k in ids <==>
        k in old(rows) && old(rows)[k].active && old(rows)[k].bpp == bpp && old(rows)[k].txn != txn
      ensures rows.Keys == old(rows).Keys
      ensures forall k :: k in rows ==>
        rows[k] == if k in ids then old(rows)[k].(active := false) else old(rows)[k]
    {
      ids := Enumerate(StaleKeys(rows, bpp, txn));
      assert forall k :: k in ids <==> k in Elements(ids);
      rows := Deactivate(rows, bpp, txn);
    }

    method FetchPendingEmbedding(bpp: string) returns (ids: seq<JobKey>)
      ensures Distinct(ids) && Elements(ids) == PendingKeys(rows, bpp)
      ensures forall k :: k in ids <==>
        k in rows && rows[k].active && rows[k].bpp == bpp && rows[k].embedding == None
    {
      ids := Enumerate(PendingKeys(rows, bpp));
      assert forall k :: k in ids <==> k in Elements(ids);
    }

    method FetchActiveWithEmbedding() returns (ids: seq<JobKey>)
      ensures Distinct(ids) && Elements(ids) == EmbeddedKeys(rows)
      ensures forall k :: k in ids <==> k in rows && rows[k].active && rows[k].embedding.Some?
    {
      ids := Enumerate(EmbeddedKeys(rows));
      assert forall k :: k in ids <==> k in Elements(ids);
    }

    method BatchUpdateEmbeddings(updates: seq<Update>)
      modifies this
      ensures rows == WriteEmbeddings(old(rows), updates)
    {
      for i := 0 to |updates|
        invariant WriteEmbeddings(rows, updates[i..]) == WriteEmbeddings(old(rows), updates)
      {
        var u := updates[i];
        assert updates[i..][0] == u && updates[i..][1..] == updates[i + 1..];
        if u.key in rows {
          rows := rows[u.key := rows[u.key].(embedding := Some(u.embedding))];
        }
      }
    }
  }

  // ------------------------------------------------- what the upsert achieves

  /** Row by row: a batch changes exactly the rows it names, each as if it came alone. */
  lemma {:induction false} StoreAllAt(t: Table, jobs: seq<NewJob>, k: JobKey)
    requires DistinctKeys(jobs)
    ensures k !in Keys(jobs) ==> (k in StoreAll(t, jobs) <==> k in t) && (k in t ==> StoreAll(t, jobs)[k] == t[k])
    ensures forall j :: j in jobs && j.key == k ==> k in StoreAll(t, jobs) && StoreAll(t, jobs)[k] == MergedRow(t, j)
    decreases |jobs|
  {
    if jobs != [] {
      var t1 := t[jobs[0].key := MergedRow(t, jobs[0])];
      assert jobs[0] in jobs && forall j :: j in jobs[1..] ==> j in jobs && j.key != jobs[0].key;
      assert forall j :: j in jobs ==> j == jobs[0] || j in jobs[1..];
      StoreAllAt(t1, jobs[1..], k);
      if k == jobs[0].key {
        assert k !in Keys(jobs[1..]);
        assert forall j :: j in jobs && j.key == k ==> j == jobs[0];
      }
    }
  }

  /**
   * What a stored job leaves behind: it is active and carries the origin of this delivery. With the
   * hash it had before it keeps its content and its embedding; otherwise the content is new and
   * waits for an embedding.
   */
  lemma StoredRowMeans(t: Table, jobs: seq<NewJob>, j: NewJob)
    requires DistinctKeys(jobs) && j in jobs
    ensures j.key in StoreAll(t, jobs)
    ensures var row := StoreAll(t, jobs)[j.key];
      row.active && row.txn == j.txn && row.bpp == j.bpp && row.uri == j.uri && row.hash == j.hash &&
      (j.key in t && t[j.key].hash == j.hash ==>
        row.content == t[j.key].content && row.embedding == t[j.key].embedding) &&
      (j.key !in t || t[j.key].hash != j.hash ==> row.content == j.content && row.embedding == None)
  {
    StoreAllAt(t, jobs, j.key);
  }

  // ------------------------------------------------------- the unique hash index

  ghost predicate NoTwinsIn(jobs: seq<NewJob>) {
    forall i, j :: 0 <= i < j < |jobs| ==> jobs[i].hash != jobs[j].hash
  }

  /** No row that is still unchanged when jobs[i] arrives holds the digest of jobs[i] under another key. */
  ghost predicate NoTwinRows(t: Table, jobs: seq<NewJob>) {
    forall i, k :: 0 <= i < |jobs| && k in t && k != jobs[i].key && t[k].hash == jobs[i].hash ==> k in Keys(jobs[..i])
  }

  lemma KeysOfRest(jobs: seq<NewJob>, i: nat)
    requires 0 < i <= |jobs|
    ensures Keys(jobs[..i]) == Keys(jobs[1..][..i - 1]) + {jobs[0].key}
  {
    assert jobs[..i] == [jobs[0]] + jobs[1..][..i - 1];
  }

  lemma TwinRowsAdvance(t: Table, jobs: seq<NewJob>)
    requires DistinctKeys(jobs) && jobs != [] && NoTwinRows(t, jobs) && NoTwinsIn(jobs)
    ensures HashFree(t, jobs[0])
    ensures NoTwinRows(t[jobs[0].key := MergedRow(t, jobs[0])], jobs[1..]) && NoTwinsIn(jobs[1..])
  {
    var t1, rest := t[jobs[0].key := MergedRow(t, jobs[0])], jobs[1..];
    assert t1[jobs[0].key].hash == jobs[0].hash;
    forall k | k in t && k != jobs[0].key ensures t[k].hash != jobs[0].hash {
      assert jobs[..0] == [];
    }
    forall i, k | 0 <= i < |rest| && k in t1 && k != rest[i].key && t1[k].hash == rest[i].hash
      ensures k in Keys(rest[..i])
    {
      assert rest[i] == jobs[i + 1];
      assert k != jobs[0].key;
      KeysOfRest(jobs, i + 1);
    }
  }

  lemma TwinRowsReturn(t: Table, jobs: seq<NewJob>)
    requires DistinctKeys(jobs) && jobs != [] && HashFree(t, jobs[0])
    requires NoTwinRows(t[jobs[0].key := MergedRow(t, jobs[0])], jobs[1..]) && NoTwinsIn(jobs[1..])
    ensures NoTwinRows(t, jobs) && NoTwinsIn(jobs)
  {
    var t1, rest := t[jobs[0].key := MergedRow(t, jobs[0])], jobs[1..];
    assert t1[jobs[0].key].hash == jobs[0].hash;
    forall i, k | 0 <= i < |jobs| && k in t && k != jobs[i].key && t[k].hash == jobs[i].hash
      ensures k in Keys(jobs[..i])
    {
      if k != jobs[0].key {
        assert i > 0 && rest[i - 1] == jobs[i] && k in t1;
      }
      KeysOfRest(jobs, i);
    }
    forall j | 0 < j < |jobs| ensures jobs[0].hash != jobs[j].hash {
      assert rest[j - 1] == jobs[j];
      assert jobs[0].key !in Keys(rest[..j - 1]);
    }
  }

  /** When the unique index accepts a page, said without replaying the insertions. */
  lemma {:induction false} HashesFitIff(t: Table, jobs: seq<NewJob>)
    requires DistinctKeys(jobs)
    ensures HashesFit(t, jobs) <==> NoTwinRows(t, jobs) && NoTwinsIn(jobs)
    decreases |jobs|
  {
    hide MergedRow;
    if jobs != [] {
      HashesFitIff(t[jobs[0].key := MergedRow(t, jobs[0])], jobs[1..]);
      if NoTwinRows(t, jobs) && NoTwinsIn(jobs) {
        TwinRowsAdvance(t, jobs);
      }
      if HashesFit(t, jobs) {
        TwinRowsReturn(t, jobs);
      }
    }
  }

  /** Every row holds content together with the hash of that content. */
  ghost predicate HashMatches(t: Table) {
    forall k :: k in t ==> RowHashed(t[k])
  }

  ghost predicate RowHashed(row: JobRow) {
    row.content.Some? && row.hash == Sha256(row.content.value)
  }

  ghost predicate WellHashed(jobs: seq<NewJob>) {
    forall j :: j in jobs ==> j.content.Some? && j.hash == Sha256(j.content.value)
  }

  /** What an unguarded upsert would write, forgetting embeddings. */
  datatype PlainRow = PlainRow(txn: string, bpp: string, uri: string, content: Option<Json>, hash: Digest, active: bool)

  ghost function Plain(t: Table): map<JobKey, PlainRow> {
    map k | k in t :: PlainRow(t[k].txn, t[k].bpp, t[k].uri, t[k].content, t[k].hash, t[k].active)
  }

  ghost function Overwrite(p: map<JobKey, PlainRow>, jobs: seq<NewJob>): map<JobKey, PlainRow>
    decreases |jobs|
  {
    if jobs == [] then p
    else
      var j := jobs[0];
      Overwrite(p[j.key := PlainRow(j.txn, j.bpp, j.uri, j.content, j.hash, true)], jobs[1..])
  }

  ghost function StoreBatches(t: Table, batches: seq<seq<NewJob>>): Table
    decreases |batches|
  {
    if batches == [] then t else StoreBatches(StoreAll(t, batches[0]), batches[1..])
  }

  ghost function OverwriteBatches(p: map<JobKey, PlainRow>, batches: seq<seq<NewJob>>): map<JobKey, PlainRow>
    decreases |batches|
  {
    if batches == [] then p else OverwriteBatches(Overwrite(p, batches[0]), batches[1..])
  }

  /** Stored embeddings were computed, by `embed`, from the very content beside them. */
  ghost predicate Provenance(t: Table, embed: Json -> Vec) {
    forall k :: k in t && t[k].embedding.Some? ==>
      t[k].content.Some? && t[k].embedding.value == embed(t[k].content.value)
  }

  /** Within one batch the hash guard is invisible, and it never keeps an embedding of other content. */
  lemma {:induction false} GuardRefinesOverwrite(t: Table, jobs: seq<NewJob>, embed: Json -> Vec)
    requires HashMatches(t) && WellHashed(jobs) && Provenance(t, embed)
    ensures Plain(StoreAll(t, jobs)) == Overwrite(Plain(t), jobs)
    ensures HashMatches(StoreAll(t, jobs)) && Provenance(StoreAll(t, jobs), embed)
    decreases |jobs|
  {
    if jobs != [] {
      var j := jobs[0];
      assert j in jobs && forall x :: x in jobs[1..] ==> x in jobs;
      var t1 := t[j.key := MergedRow(t, j)];
      assert Plain(t1) == Plain(t)[j.key := PlainRow(j.txn, j.bpp, j.uri, j.content, j.hash, true)];
      GuardRefinesOverwrite(t1, jobs[1..], embed);
    }
  }

  /** The same over any sequence of batches, starting from any well-formed table. */
  lemma {:induction false} GuardRefinesOverwriteAlways(t: Table, batches: seq<seq<NewJob>>, embed: Json -> Vec)
    requires HashMatches(t) && Provenance(t, embed)
    requires forall b :: b in batches ==> WellHashed(b)
    ensures Plain(StoreBatches(t, batches)) == OverwriteBatches(Plain(t), batches)
    ensures HashMatches(StoreBatches(t, batches)) && Provenance(StoreBatches(t, batches), embed)
    decreases |batches|
  {
    if batches != [] {
      assert batches[0] in batches && forall b :: b in batches[1..] ==> b in batches;
      GuardRefinesOverwrite(t, batches[0], embed);
      GuardRefinesOverwriteAlways(StoreAll(t, batches[0]), batches[1..], embed);
    }
  }

  /** Pages about different jobs may arrive in either order. */
  lemma DisjointPagesCommute(t: Table, a: seq<NewJob>, b: seq<NewJob>)
    requires DistinctKeys(a) && DistinctKeys(b) && Keys(a) !! Keys(b)
    ensures StoreAll(StoreAll(t, a), b) == StoreAll(StoreAll(t, b), a)
  {
    var ab, ba := StoreAll(StoreAll(t, a), b), StoreAll(StoreAll(t, b), a);
    forall k ensures (k in ab <==> k in ba) && (k in ab ==> ab[k] == ba[k]) {
      StoreAllAt(t, a, k);
      StoreAllAt(t, b, k);
      StoreAllAt(StoreAll(t, a), b, k);
      StoreAllAt(StoreAll(t, b), a, k);
      if k in Keys(a) {
        var j :| j in a && j.key == k;
        assert MergedRow(t, j) == MergedRow(StoreAll(t, b), j);
      } else if k in Keys(b) {
        var j :| j in b && j.key == k;
        assert MergedRow(t, j) == MergedRow(StoreAll(t, a), j);
      }
    }
  }

  /** The row already says everything this delivery says. */
  ghost predicate UpToDate(t: Table, j: NewJob) {
    j.key in t && t[j.key].hash == j.hash && t[j.key].txn == j.txn && t[j.key].bpp == j.bpp &&
    t[j.key].uri == j.uri && t[j.key].active
  }

  /** Delivering what the table already holds changes nothing at all, embeddings included. */
  lemma {:induction false} RedeliveryIsNoop(t: Table, jobs: seq<NewJob>)
    requires forall j :: j in jobs ==> UpToDate(t, j)
    ensures StoreAll(t, jobs) == t
    decreases |jobs|
  {
    if jobs != [] {
      assert jobs[0] in jobs && forall j :: j in jobs[1..] ==> j in jobs;
      assert t[jobs[0].key := MergedRow(t, jobs[0])] == t;
      RedeliveryIsNoop(t, jobs[1..]);
    }
  }

  // ------------------------------------------------------- catalogue extraction

  function ItemJob(providerId: string, item: Json, txn: string, bpp: string, uri: string): seq<NewJob> {
    match AsStr(Get(item, "id"))
    case None => []
    case Some(id) => [NewJob(JobKey(id, providerId), txn, bpp, uri, Some(item), Sha256(item))]
  }

  function ItemJobs(providerId: string, items: seq<Json>, txn: string, bpp: string, uri: string): seq<NewJob> {
    if items == [] then []
    else ItemJob(providerId, items[0], txn, bpp, uri) + ItemJobs(providerId, items[1..], txn, bpp, uri)
  }

  function ProviderJobs(providers: seq<Json>, txn: string, bpp: string, uri: string): seq<NewJob> {
    if providers == [] then []
    else
      var rest := ProviderJobs(providers[1..], txn, bpp, uri);
      match AsStr(Get(providers[0], "id"))
      case None => rest
      case Some(pid) => ItemJobs(pid, AsSlice(Get(providers[0], "items")), txn, bpp, uri) + rest
  }

  function Providers(message: Json): seq<Json> {
    match Get(message, "catalog")
    case None => []
    case Some(catalog) => AsSlice(Get(catalog, "providers"))
  }

  function OrEmpty(s: Option<string>): string {
    if s.Some? then s.value else ""
  }

  method ExtractJobs(message: Json, bppId: Option<string>, bppUri: Option<string>, txn: string)
    returns (jobs: seq<NewJob>)
    ensures jobs == ProviderJobs(Providers(message), txn, OrEmpty(bppId), OrEmpty(bppUri))
  {
    hide ItemJobs;
    hide Get;
    jobs := [];
    var providers := Providers(message);
    var bpp, uri := OrEmpty(bppId), OrEmpty(bppUri);
    for p := 0 to |providers|
      invariant jobs + ProviderJobs(providers[p..], txn, bpp, uri) == ProviderJobs(providers, txn, bpp, uri)
    {
      assert providers[p..][0] == providers[p] && providers[p..][1..] == providers[p + 1..];
      var pid := AsStr(Get(providers[p], "id"));
      if pid == None { continue; }
      var found := ExtractItems(pid.value, AsSlice(Get(providers[p], "items")), txn, bpp, uri);
      ghost var rest := ProviderJobs(providers[p + 1..], txn, bpp, uri);
      assert ProviderJobs(providers[p..], txn, bpp, uri) == found + rest;
      assert jobs + (found + rest) == (jobs + found) + rest;
      jobs := jobs + found;
    }
  }

  /** The inner loop of the extraction: the items of one provider. */
  method ExtractItems(providerId: string, items: seq<Json>, txn: string, bpp: string, uri: string)
    returns (jobs: seq<NewJob>)
    ensures jobs == ItemJobs(providerId, items, txn, bpp, uri)
  {
    jobs := [];
    for i := 0 to |items|
      invariant jobs + ItemJobs(providerId, items[i..], txn, bpp, uri) == ItemJobs(providerId, items, txn, bpp, uri)
    {
      assert items[i..][0] == items[i] && items[i..][1..] == items[i + 1..];
      var id := AsStr(Get(items[i], "id"));
      if id == None { continue; }
      ghost var rest := ItemJobs(providerId, items[i + 1..], txn, bpp, uri);
      var job := NewJob(JobKey(id.value, providerId), txn, bpp, uri, Some(items[i]), Sha256(items[i]));
      assert jobs + ([job] + rest) == (jobs + [job]) + rest;
      jobs := jobs + [job];
    }
  }

  /** A record as extraction produces it: own id, own content, matching hash, fixed origin. */
  ghost predicate Extracted(j: NewJob, txn: string, bpp: string, uri: string) {
    j.txn == txn && j.bpp == bpp && j.uri == uri && j.content.Some? && j.hash == Sha256(j.content.value) &&
    AsStr(Get(j.content.value, "id")) == Some(j.key.jobId)
  }

  lemma {:induction false} ItemJobsExtracted(providerId: string, items: seq<Json>, txn: string, bpp: string,
                                             uri: string)
    ensures forall j :: j in ItemJobs(providerId, items, txn, bpp, uri) ==>
      Extracted(j, txn, bpp, uri) && j.content.value in items && j.key.providerId == providerId
  {
    if items != [] {
      ItemJobsExtracted(providerId, items[1..], txn, bpp, uri);
    }
  }

  /** Extraction keeps exactly the items with an id, under a provider with an id. */
  lemma {:induction false} ExtractionIsExact(providers: seq<Json>, txn: string, bpp: string, uri: string, j: NewJob)
    ensures j in ProviderJobs(providers, txn, bpp, uri) <==>
      Extracted(j, txn, bpp, uri) &&
      exists p :: p in providers && AsStr(Get(p, "id")) == Some(j.key.providerId) &&
                  j.content.value in AsSlice(Get(p, "items"))
  {
    if providers != [] {
      ExtractionIsExact(providers[1..], txn, bpp, uri, j);
      assert providers == [providers[0]] + providers[1..];
      var pid := AsStr(Get(providers[0], "id"));
      if pid.Some? {
        var items := AsSlice(Get(providers[0], "items"));
        ItemJobsExtracted(pid.value, items, txn, bpp, uri);
        if Extracted(j, txn, bpp, uri) && pid.value == j.key.providerId && j.content.value in items {
          ItemJobsComplete(pid.value, items, txn, bpp, uri, j);
        }
      }
    }
  }

  lemma {:induction false} ItemJobsComplete(providerId: string, items: seq<Json>, txn: string, bpp: string, uri: string,
                                            j: NewJob)
    requires Extracted(j, txn, bpp, uri) && j.key.providerId == providerId && j.content.value in items
    ensures j in ItemJobs(providerId, items, txn, bpp, uri)
  {
    if j.content.value != items[0] {
      ItemJobsComplete(providerId, items[1..], txn, bpp, uri, j);
    }
  }

  /** Extracted records with equal hashes carry the same job id, so they differ in the provider. */
  lemma EqualHashesShareJobId(a: NewJob, b: NewJob, txn: string, bpp: string, uri: string)
    requires Extracted(a, txn, bpp, uri) && Extracted(b, txn, bpp, uri) && a.hash == b.hash
    ensures a.key.jobId == b.key.jobId
    ensures a.key == b.key || a.key.providerId != b.key.providerId
  {
    assert Some(a.key.jobId) == Some(b.key.jobId);
  }

  /** A row that came from extraction, whatever happened to it since. */
  ghost predicate RowExtracted(k: JobKey, row: JobRow) {
    RowHashed(row) && AsStr(Get(row.content.value, "id")) == Some(k.jobId)
  }

  /** The same item, under the same job id, of two providers. */
  ghost predicate SameItem(j: NewJob, k: JobKey, content: Option<Json>) {
    content == j.content && k.jobId == j.key.jobId && k.providerId != j.key.providerId
  }

  /** Another provider lists the item of j identically, on the same page or in a row of the table. */
  ghost predicate HeldElsewhere(t: Table, jobs: seq<NewJob>, j: NewJob) {
    (exists m :: m in jobs && SameItem(j, m.key, m.content)) || (exists k :: k in t && SameItem(j, k, t[k].content))
  }

  /**
   * The unique index on jobs.hash rejects an extracted page only for an item that is listed
   * identically by another provider: on the same page, or in a row of the table.
   */
  lemma RejectedPageRepeatsAnItem(t: Table, jobs: seq<NewJob>, txn: string, bpp: string, uri: string)
    requires DistinctKeys(jobs) && (forall j :: j in jobs ==> Extracted(j, txn, bpp, uri))
    requires (forall k :: k in t ==> RowExtracted(k, t[k])) && !HashesFit(t, jobs)
    ensures exists j :: j in jobs && HeldElsewhere(t, jobs, j)
  {
    HashesFitIff(t, jobs);
    if !NoTwinsIn(jobs) {
      var i, m :| 0 <= i < m < |jobs| && jobs[i].hash == jobs[m].hash;
      EqualHashesShareJobId(jobs[i], jobs[m], txn, bpp, uri);
      assert jobs[i] in jobs && jobs[m] in jobs && SameItem(jobs[i], jobs[m].key, jobs[m].content);
    } else {
      var i, k :| 0 <= i < |jobs| && k in t && k != jobs[i].key && t[k].hash == jobs[i].hash && k !in Keys(jobs[..i]);
      assert jobs[i] in jobs && RowExtracted(k, t[k]);
      assert Some(k.jobId) == Some(jobs[i].key.jobId);
      assert SameItem(jobs[i], k, t[k].content);
    }
  }
}
