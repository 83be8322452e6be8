/**
 * The jobs table and the vector index together: stale cleanup
 * (src/services/search.rs), embedding update (src/utils/job.rs) and rebuild
 * (src/vector/index_store.rs), each running to completion.
 */
module VectorStore {
  import opened Prelude
  import opened JsonValue
  import opened VectorMath
  import opened Jobs
  import opened FaissIndex
  import opened Batching

  /** The embedding of a document: None for an error of the embedding service. */
  type Embedder = Json -> Option<Vec>

  /** The abstract state: the table, and the vector stored for each indexed job. */
  datatype Sys = Sys(table: Table, indexed: map<JobKey, Vec>)

  /** What the operations need from outside: the embedding service, FAISS adds, and the square root. */
  datatype Env = Env(dim: nat, sqrt: real -> real, embed: Embedder, addOk: JobKey -> bool)

  /** The embedding a pending row gets; rows without content, errors and empty answers are skipped. */
  function NewEmbedding(env: Env, row: JobRow): Option<Vec> {
    if row.content == None then None
    else
      var answer := env.embed(row.content.value);
      if answer.Some? && answer.value != [] then answer else None
  }

  // --------------------------------------------------------------- specification

  ghost function Stored(s: Sys, jobs: seq<NewJob>): Sys {
    if Storable(s.table, jobs) then s.(table := StoreAll(s.table, jobs)) else s
  }

  ghost function CleanedUp(s: Sys, bpp: string, txn: string): Sys {
    Sys(Deactivate(s.table, bpp, txn), s.indexed - StaleKeys(s.table, bpp, txn))
  }

  ghost predicate Refreshed(env: Env, t: Table, keys: set<JobKey>, k: JobKey) {
    k in keys && k in t && NewEmbedding(env, t[k]).Some?
  }

  ghost predicate Indexable(env: Env, k: JobKey, v: Vec) {
    env.addOk(k) && |v| == env.dim
  }

  /** The table after embeddings were written for the given rows. */
  ghost function TableWith(env: Env, t: Table, keys: set<JobKey>): Table {
    map k | k in t :: if Refreshed(env, t, keys, k) then t[k].(embedding := NewEmbedding(env, t[k])) else t[k]
  }

  /** The index after these rows were upserted; an upsert whose add fails removes the job. */
  ghost function IndexWith(env: Env, t: Table, m: map<JobKey, Vec>, keys: set<JobKey>): map<JobKey, Vec> {
    map k | k in m.Keys + t.Keys &&
            if Refreshed(env, t, keys, k) then Indexable(env, k, NewEmbedding(env, t[k]).value) else k in m ::
      if Refreshed(env, t, keys, k) then Normalized(env.sqrt, NewEmbedding(env, t[k]).value) else m[k]
  }

  ghost function EmbeddingsUpdated(env: Env, s: Sys, bpp: string): Sys {
    var pending := PendingKeys(s.table, bpp);
    Sys(TableWith(env, s.table, pending), IndexWith(env, s.table, s.indexed, pending))
  }

  /** The normalised embeddings of the given rows, where the add succeeds. */
  ghost function Vectors(env: Env, t: Table, keys: set<JobKey>): map<JobKey, Vec>
    requires keys <= EmbeddedKeys(t)
  {
    map k | k in keys && Indexable(env, k, t[k].embedding.value) :: Normalized(env.sqrt, t[k].embedding.value)
  }

  ghost function Rebuilt(env: Env, s: Sys): Sys {
    s.(indexed := Vectors(env, s.table, EmbeddedKeys(s.table)))
  }

  lemma VectorsAdvance(env: Env, t: Table, keys: set<JobKey>, k: JobKey)
    requires keys <= EmbeddedKeys(t) && k in EmbeddedKeys(t) && k !in keys
    ensures Vectors(env, t, keys + {k}) == UpsertedVec(env, Vectors(env, t, keys), k, t[k].embedding.value)
  {}

  // ------------------------------------------------------- pieces of the update loop

  function UpdatesFor(env: Env, t: Table, keys: seq<JobKey>): seq<Update> {
    if keys == [] then []
    else
      var rest := UpdatesFor(env, t, keys[1..]);
      if keys[0] in t && NewEmbedding(env, t[keys[0]]).Some?
      then [Update(keys[0], NewEmbedding(env, t[keys[0]]).value)] + rest
      else rest
  }

  ghost function UpsertedVec(env: Env, m: map<JobKey, Vec>, k: JobKey, v: Vec): map<JobKey, Vec> {
    if Indexable(env, k, v) then m[k := Normalized(env.sqrt, v)] else m - {k}
  }

  ghost function UpsertAll(env: Env, m: map<JobKey, Vec>, updates: seq<Update>): map<JobKey, Vec>
    decreases |updates|
  {
    if updates == [] then m
    else UpsertAll(env, UpsertedVec(env, m, updates[0].key, updates[0].embedding), updates[1..])
  }

  lemma NothingUpdated(env: Env, t: Table, m: map<JobKey, Vec>)
    ensures TableWith(env, t, {}) == t && IndexWith(env, t, m, {}) == m
  {}

  /** One row more: the written table advances by that row. */
  lemma TableAdvances(env: Env, t: Table, done: set<JobKey>, k: JobKey)
    requires k in t && NewEmbedding(env, t[k]).Some?
    ensures var v, now := NewEmbedding(env, t[k]).value, TableWith(env, t, done);
      now[k := now[k].(embedding := Some(v))] == TableWith(env, t, done + {k})
  {
    assert forall x :: x != k ==> (Refreshed(env, t, done + {k}, x) <==> Refreshed(env, t, done, x));
  }

  /** One row more: the upserted index advances by that row. */
  lemma IndexAdvances(env: Env, t: Table, m: map<JobKey, Vec>, done: set<JobKey>, k: JobKey)
    requires k in t && NewEmbedding(env, t[k]).Some?
    ensures UpsertedVec(env, IndexWith(env, t, m, done), k, NewEmbedding(env, t[k]).value)
         == IndexWith(env, t, m, done + {k})
  {
    var left := UpsertedVec(env, IndexWith(env, t, m, done), k, NewEmbedding(env, t[k]).value);
    var right := IndexWith(env, t, m, done + {k});
    assert Refreshed(env, t, done + {k}, k);
    forall x ensures (x in left <==> x in right) && (x in left ==> left[x] == right[x]) {
      if x != k {
        assert Refreshed(env, t, done + {k}, x) <==> Refreshed(env, t, done, x);
      }
    }
  }

  lemma SkippedRow(env: Env, t: Table, m: map<JobKey, Vec>, done: set<JobKey>, k: JobKey)
    requires k !in t || NewEmbedding(env, t[k]) == None
    ensures TableWith(env, t, done) == TableWith(env, t, done + {k})
    ensures IndexWith(env, t, m, done) == IndexWith(env, t, m, done + {k})
  {
    assert forall x :: Refreshed(env, t, done + {k}, x) <==> Refreshed(env, t, done, x);
  }

  /** Writing and upserting the updates of a chunk advances table and index by the rows of the chunk. */
  lemma {:induction false} ChunkAdvances(env: Env, t: Table, m: map<JobKey, Vec>, done: set<JobKey>, chunk: seq<JobKey>)
    ensures WriteEmbeddings(TableWith(env, t, done), UpdatesFor(env, t, chunk)) ==
            TableWith(env, t, done + Elements(chunk))
    ensures UpsertAll(env, IndexWith(env, t, m, done), UpdatesFor(env, t, chunk)) ==
            IndexWith(env, t, m, done + Elements(chunk))
    decreases |chunk|
  {
    if chunk == [] {
      assert done + Elements(chunk) == done;
    } else {
      var k := chunk[0];
      assert done + {k} + Elements(chunk[1..]) == done + Elements(chunk);
      ChunkAdvances(env, t, m, done + {k}, chunk[1..]);
      if k in t && NewEmbedding(env, t[k]).Some? {
        var rest := UpdatesFor(env, t, chunk[1..]);
        assert ([Update(k, NewEmbedding(env, t[k]).value)] + rest)[1..] == rest;
        TableAdvances(env, t, done, k);
        IndexAdvances(env, t, m, done, k);
      } else {
        SkippedRow(env, t, m, done, k);
      }
    }
  }

  // ------------------------------------------------------------------- the objects

  class Store {
    const jobs: JobsTable
    const faiss: FaissService

    constructor (jobs: JobsTable, faiss: FaissService)
      ensures this.jobs == jobs && this.faiss == faiss
    {
      this.jobs, this.faiss := jobs, faiss;
    }

    ghost function Value(): Sys
      reads jobs, faiss
    {
      Sys(jobs.rows, Indexed(faiss.State()))
    }

    ghost predicate Valid()
      reads jobs, faiss
    {
      IndexInv(faiss.State())
    }

    /** The cleanup block of handle_cron_on_search_v2: deactivate, then unindex what was returned. */
    method CleanUp(bpp: string, txn: string)
      requires Valid()
      modifies jobs, faiss
      ensures Valid() && Value() == CleanedUp(old(Value()), bpp, txn)
    {
      var stale := jobs.DeactivateStale(bpp, txn);
      Unindex(stale);
    }

    method Unindex(ids: seq<JobKey>)
      requires Valid()
      modifies faiss
      ensures Valid() && Indexed(faiss.State()) == old(Indexed(faiss.State())) - Elements(ids)
    {
      ghost var before := Indexed(faiss.State());
      hide Removed;
      hide IndexInv;
      hide Indexed;
      for i := 0 to |ids|
        invariant Valid() && Indexed(faiss.State()) == before - Elements(ids[..i])
      {
        RemoveRefines(faiss.State(), ids[i]);
        ElementsGrow(ids, i);
        faiss.Remove(ids[i]);
        assert Indexed(faiss.State()) == before - Elements(ids[..i]) - {ids[i]};
      }
      assert ids[..|ids|] == ids;
    }

    /** update_embeddings_for_bpp, 20 rows at a time. */
    method UpdateEmbeddings(env: Env, bpp: string)
      requires Valid() && env.dim == faiss.dim
      modifies jobs, faiss
      ensures Valid() && Value() == EmbeddingsUpdated(env, old(Value()), bpp)
    {
      hide TableWith;
      hide IndexWith;
      hide IndexInv;
      hide Indexed;
      hide PendingKeys;
      NothingUpdated(env, jobs.rows, Indexed(faiss.State()));
      ghost var m := Indexed(faiss.State());
      var fetched := jobs.rows;
      var pending := jobs.FetchPendingEmbedding(bpp);
      var chunks := ChunkVec(pending, 20);
      ChunksConcatenate(pending, 20);
      ghost var done: set<JobKey> := {};
      for c := 0 to |chunks|
        invariant Valid() && done + Elements(Concat(chunks[c..])) == Elements(pending)
        invariant jobs.rows == TableWith(env, fetched, done)
        invariant Indexed(faiss.State()) == IndexWith(env, fetched, m, done)
      {
        assert chunks[c..][0] == chunks[c] && chunks[c..][1..] == chunks[c + 1..];
        UpdateChunk(env, fetched, chunks[c], m, done);
        done := done + Elements(chunks[c]);
      }
      assert chunks[|chunks|..] == [] && done == Elements(pending);
    }

    /** One chunk: ask for the embeddings, write those that came, then index them. */
    method UpdateChunk(env: Env, fetched: Table, chunk: seq<JobKey>, ghost m: map<JobKey, Vec>,
                       ghost done: set<JobKey>)
      requires Valid() && env.dim == faiss.dim
      requires jobs.rows == TableWith(env, fetched, done)
      requires Indexed(faiss.State()) == IndexWith(env, fetched, m, done)
      modifies jobs, faiss
      ensures Valid() && jobs.rows == TableWith(env, fetched, done + Elements(chunk))
      ensures Indexed(faiss.State()) == IndexWith(env, fetched, m, done + Elements(chunk))
    {
      hide TableWith;
      hide IndexWith;
      hide IndexInv;
      hide Indexed;
      hide UpdatesFor;
      var updates := EmbedChunk(env, fetched, chunk);
      ChunkAdvances(env, fetched, m, done, chunk);
      if updates != [] {
        jobs.BatchUpdateEmbeddings(updates);
        UpsertUpdates(env, updates);
      }
    }

    /** The inner loop over one chunk: ask for embeddings and collect the usable ones. */
    method EmbedChunk(env: Env, fetched: Table, chunk: seq<JobKey>) returns (updates: seq<Update>)
      ensures updates == UpdatesFor(env, fetched, chunk)
    {
      updates := [];
      for i := 0 to |chunk|
        invariant updates + UpdatesFor(env, fetched, chunk[i..]) == UpdatesFor(env, fetched, chunk)
      {
        assert chunk[i..][0] == chunk[i] && chunk[i..][1..] == chunk[i + 1..];
        if chunk[i] !in fetched { continue; }
        var answer := NewEmbedding(env, fetched[chunk[i]]);
        if answer == None { continue; }
        ghost var rest := UpdatesFor(env, fetched, chunk[i + 1..]);
        var u := Update(chunk[i], answer.value);
        assert updates + ([u] + rest) == (updates + [u]) + rest;
        updates := updates + [u];
      }
    }

    /** Upsert every update; a failed add is logged and the loop goes on. */
    method UpsertUpdates(env: Env, updates: seq<Update>)
      requires Valid() && env.dim == faiss.dim
      modifies faiss
      ensures Valid() && Indexed(faiss.State()) == UpsertAll(env, old(Indexed(faiss.State())), updates)
    {
      for i := 0 to |updates|
        invariant Valid()
        invariant UpsertAll(env, Indexed(faiss.State()), updates[i..]) ==
                  UpsertAll(env, old(Indexed(faiss.State())), updates)
      {
        var u := updates[i];
        assert updates[i..][0] == u && updates[i..][1..] == updates[i + 1..];
        NormalizedLength(env.sqrt, u.embedding);
        UpsertRefines(faiss.State(), u.key, Normalized(env.sqrt, u.embedding), env.addOk(u.key));
        var _ := faiss.Upsert(u.key, u.embedding, env.sqrt, env.addOk(u.key));
      }
    }

    /** rebuild_faiss_from_db: drop the keys and the index, then upsert every active row with an embedding. */
    method Rebuild(env: Env)
      requires env.dim == faiss.dim
      modifies faiss
      ensures Valid() && Value() == Rebuilt(env, old(Value()))
    {
      faiss.Reset();
      EmptyRefines(faiss.dim);
      var rows := jobs.FetchActiveWithEmbedding();
      for i := 0 to |rows|
        invariant Valid() && Elements(rows[..i]) <= EmbeddedKeys(jobs.rows)
        invariant Indexed(faiss.State()) == Vectors(env, jobs.rows, Elements(rows[..i]))
      {
        var k := rows[i];
        ElementsGrow(rows, i);
        VectorsAdvance(env, jobs.rows, Elements(rows[..i]), k);
        var v := jobs.rows[k].embedding.value;
        NormalizedLength(env.sqrt, v);
        UpsertRefines(faiss.State(), k, Normalized(env.sqrt, v), env.addOk(k));
        var _ := faiss.Upsert(k, v, env.sqrt, env.addOk(k));
      }
      assert rows[..|rows|] == rows;
    }
  }

  lemma NormalizedLength(sqrt: real -> real, v: Vec)
    ensures |Normalized(sqrt, v)| == |v|
  {}

  // ------------------------------------------------- what the operations achieve

  /** The row is active, of this BPP and without an embedding, and its content gets this one. */
  ghost predicate Awaits(env: Env, row: JobRow, bpp: string, v: Vec) {
    row.active && row.bpp == bpp && row.embedding == None && row.content.Some? &&
    env.embed(row.content.value) == Some(v) && v != []
  }

  /** Row and index entry of k are the same in both states. */
  ghost predicate SameAt(s: Sys, after: Sys, k: JobKey) {
    (k in after.table <==> k in s.table) && (k in s.table ==> after.table[k] == s.table[k]) &&
    (k in after.indexed <==> k in s.indexed) && (k in s.indexed ==> after.indexed[k] == s.indexed[k])
  }

  /**
   * An embedding update writes the embedding of every waiting row of the BPP and indexes it,
   * normalised, exactly when the add succeeds; it leaves every other row and entry alone.
   */
  lemma UpdateAchieves(env: Env, s: Sys, bpp: string, k: JobKey)
    ensures var after := EmbeddingsUpdated(env, s, bpp);
      forall v :: k in s.table && Awaits(env, s.table[k], bpp, v) ==>
        k in after.table && after.table[k] == s.table[k].(embedding := Some(v)) &&
        (k in after.indexed <==> env.addOk(k) && |v| == env.dim) &&
        (k in after.indexed ==> after.indexed[k] == Normalized(env.sqrt, v))
    ensures (k in s.table ==> forall v :: !Awaits(env, s.table[k], bpp, v)) ==>
      SameAt(s, EmbeddingsUpdated(env, s, bpp), k)
  {
    if Refreshed(env, s.table, PendingKeys(s.table, bpp), k) {
      assert Awaits(env, s.table[k], bpp, NewEmbedding(env, s.table[k]).value);
    }
  }

  /** A cleanup switches off and unindexes the active rows of the BPP from other transactions, and nothing else. */
  lemma CleanUpAchieves(s: Sys, bpp: string, txn: string, k: JobKey)
    ensures var after := CleanedUp(s, bpp, txn);
      if k in s.table && s.table[k].active && s.table[k].bpp == bpp && s.table[k].txn != txn
      then k in after.table && after.table[k] == s.table[k].(active := false) && k !in after.indexed
      else SameAt(s, after, k)
  {}

  /** A rebuild leaves the table alone, and indexes the active rows with an embedding whose add succeeds. */
  lemma RebuildAchieves(env: Env, s: Sys, k: JobKey)
    ensures var after := Rebuilt(env, s);
      after.table == s.table &&
      (k in after.indexed <==>
        k in s.table && s.table[k].active && s.table[k].embedding.Some? && env.addOk(k) &&
        |s.table[k].embedding.value| == env.dim) &&
      (k in after.indexed ==> after.indexed[k] == Normalized(env.sqrt, s.table[k].embedding.value))
  {}

  // -------------------------------------------------------------------- coherence

  /** Every indexed job is active, and its vector is its normalised embedding unless that was nulled. */
  ghost predicate Coherent(env: Env, s: Sys) {
    forall k :: k in s.indexed ==>
      k in s.table && s.table[k].active &&
      (s.table[k].embedding.Some? ==> s.indexed[k] == Normalized(env.sqrt, s.table[k].embedding.value))
  }

  datatype Op = StorePage(jobs: seq<NewJob>) | CleanUpOp(bpp: string, txn: string) | UpdateOp(bpp: string) | RebuildOp

  ghost function Perform(env: Env, s: Sys, op: Op): Sys {
    match op
    case StorePage(jobs) => Stored(s, jobs)
    case CleanUpOp(bpp, txn) => CleanedUp(s, bpp, txn)
    case UpdateOp(bpp) => EmbeddingsUpdated(env, s, bpp)
    case RebuildOp => Rebuilt(env, s)
  }

  ghost function PerformAll(env: Env, s: Sys, ops: seq<Op>): Sys
    decreases |ops|
  {
    if ops == [] then s else PerformAll(env, Perform(env, s, ops[0]), ops[1..])
  }

  lemma StoredKeepsCoherent(env: Env, s: Sys, jobs: seq<NewJob>)
    requires Coherent(env, s)
    ensures Coherent(env, Stored(s, jobs))
  {
    if Storable(s.table, jobs) {
      forall k | k in s.indexed
        ensures k in StoreAll(s.table, jobs) && StoreAll(s.table, jobs)[k].active
        ensures var e := StoreAll(s.table, jobs)[k].embedding;
          e.Some? ==> s.indexed[k] == Normalized(env.sqrt, e.value)
      {
        StoreAllAt(s.table, jobs, k);
        if k in Keys(jobs) {
          var j :| j in jobs && j.key == k;
        }
      }
    }
  }

  lemma PerformKeepsCoherent(env: Env, s: Sys, op: Op)
    requires Coherent(env, s)
    ensures Coherent(env, Perform(env, s, op))
  {
    if op.StorePage? {
      StoredKeepsCoherent(env, s, op.jobs);
    }
  }

  /** Coherence survives every sequence of stores, cleanups, embedding updates and rebuilds. */
  lemma {:induction false} CoherentAlways(env: Env, s: Sys, ops: seq<Op>)
    requires Coherent(env, s)
    ensures Coherent(env, PerformAll(env, s, ops))
    decreases |ops|
  {
    if ops != [] {
      PerformKeepsCoherent(env, s, ops[0]);
      CoherentAlways(env, Perform(env, s, ops[0]), ops[1..]);
    }
  }

  // ----------------------------------------------------------------- completeness

  /** Every active job with an embedding can be found by search. */
  ghost predicate Complete(s: Sys) {
    forall k :: k in EmbeddedKeys(s.table) ==> k in s.indexed
  }

  ghost predicate AddsSucceed(env: Env, t: Table) {
    forall k :: k in EmbeddedKeys(t) ==> Indexable(env, k, t[k].embedding.value)
  }

  /** Right after a rebuild whose adds succeed the indexed jobs are exactly the active ones with an embedding. */
  lemma RebuildIsExact(env: Env, s: Sys)
    requires AddsSucceed(env, s.table)
    ensures Rebuilt(env, s).indexed.Keys == set k | k in s.table && s.table[k].active && s.table[k].embedding.Some?
    ensures Coherent(env, Rebuilt(env, s)) && Complete(Rebuilt(env, s))
  {}

  /** A delivery that makes an inactive row with unchanged content active again. */
  ghost predicate Reactivates(t: Table, j: NewJob) {
    j.key in t && !t[j.key].active && t[j.key].hash == j.hash && t[j.key].embedding.Some?
  }

  /**
   * A page keeps the index complete if and only if it is refused or reactivates no row whose
   * embedding was kept: such a row is active and embedded again, but its entry was removed
   * when it went stale and nothing puts it back.
   */
  lemma StoreKeepsCompleteIff(env: Env, s: Sys, jobs: seq<NewJob>)
    requires Coherent(env, s) && Complete(s)
    ensures Complete(Stored(s, jobs)) <==>
      !Storable(s.table, jobs) || forall j :: j in jobs ==> !Reactivates(s.table, j)
  {
    if Storable(s.table, jobs) {
      var t := StoreAll(s.table, jobs);
      forall j | j in jobs && Reactivates(s.table, j) ensures j.key in EmbeddedKeys(t) && j.key !in s.indexed {
        StoreAllAt(s.table, jobs, j.key);
      }
      if forall j :: j in jobs ==> !Reactivates(s.table, j) {
        forall k | k in EmbeddedKeys(t) ensures k in s.indexed {
          StoreAllAt(s.table, jobs, k);
          if k in Keys(jobs) {
            var j :| j in jobs && j.key == k;
          }
        }
      }
    }
  }

  /**
   * An embedding update keeps the index complete if and only if every add of it succeeds: a row whose
   * add fails is active and embedded, hence no longer pending, but not indexed.
   */
  lemma UpdateKeepsCompleteIff(env: Env, s: Sys, bpp: string)
    requires Complete(s)
    ensures Complete(EmbeddingsUpdated(env, s, bpp)) <==>
      forall k :: Refreshed(env, s.table, PendingKeys(s.table, bpp), k) ==>
        Indexable(env, k, NewEmbedding(env, s.table[k]).value)
  {
    var pending := PendingKeys(s.table, bpp);
    var after := EmbeddingsUpdated(env, s, bpp);
    forall k ensures
      (k in EmbeddedKeys(after.table) ==> k in after.indexed) <==>
      (Refreshed(env, s.table, pending, k) ==> Indexable(env, k, NewEmbedding(env, s.table[k]).value))
    {
      if !Refreshed(env, s.table, pending, k) {
        assert k in EmbeddedKeys(after.table) ==> k in EmbeddedKeys(s.table);
      }
    }
  }

  /** The row keeps its content and its embedding, and is not indexed. */
  ghost predicate Skipped(s: Sys, k: JobKey, hash: Digest) {
    k in s.table && s.table[k].hash == hash && s.table[k].embedding.Some? && k !in s.indexed
  }

  /** The operation is no rebuild and delivers no other content for k. */
  ghost predicate LeavesContent(op: Op, k: JobKey, hash: Digest) {
    !op.RebuildOp? && (op.StorePage? ==> forall j :: j in op.jobs && j.key == k ==> j.hash == hash)
  }

  lemma SkippedStays(env: Env, s: Sys, op: Op, k: JobKey, hash: Digest)
    requires Skipped(s, k, hash) && LeavesContent(op, k, hash)
    ensures Skipped(Perform(env, s, op), k, hash)
  {
    if op.StorePage? && Storable(s.table, op.jobs) {
      StoreAllAt(s.table, op.jobs, k);
      if k in Keys(op.jobs) {
        var j :| j in op.jobs && j.key == k;
      }
    }
  }

  lemma {:induction false} SkippedAlways(env: Env, s: Sys, ops: seq<Op>, k: JobKey, hash: Digest)
    requires Skipped(s, k, hash) && forall op :: op in ops ==> LeavesContent(op, k, hash)
    ensures Skipped(PerformAll(env, s, ops), k, hash)
    decreases |ops|
  {
    if ops != [] {
      assert ops[0] in ops && forall op :: op in ops[1..] ==> op in ops;
      SkippedStays(env, s, ops[0], k, hash);
      SkippedAlways(env, Perform(env, s, ops[0]), ops[1..], k, hash);
    }
  }

  /** Only a cleanup switches a job off. */
  lemma {:induction false} ActiveWithoutCleanup(env: Env, s: Sys, ops: seq<Op>, k: JobKey)
    requires k in s.table && s.table[k].active && forall op :: op in ops ==> !op.CleanUpOp?
    ensures var t := PerformAll(env, s, ops).table; k in t && t[k].active
    decreases |ops|
  {
    if ops != [] {
      assert ops[0] in ops && forall op :: op in ops[1..] ==> op in ops;
      if ops[0].StorePage? && Storable(s.table, ops[0].jobs) {
        StoreAllAt(s.table, ops[0].jobs, k);
        if k in Keys(ops[0].jobs) {
          var j :| j in ops[0].jobs && j.key == k;
        }
      }
      ActiveWithoutCleanup(env, Perform(env, s, ops[0]), ops[1..], k);
    }
  }

  /**
   * After a page reactivated an unchanged job, the job stays out of the index through every
   * sequence of stores, cleanups and embedding updates that delivers no other content for it;
   * a rebuild while it is active brings it back.
   */
  lemma ReactivatedStaysOut(env: Env, s: Sys, jobs: seq<NewJob>, j: NewJob, ops: seq<Op>)
    requires Storable(s.table, jobs) && Coherent(env, s) && j in jobs && Reactivates(s.table, j)
    requires forall op :: op in ops ==> LeavesContent(op, j.key, j.hash)
    ensures j.key in EmbeddedKeys(Stored(s, jobs).table)
    ensures var after := PerformAll(env, Stored(s, jobs), ops);
      Skipped(after, j.key, j.hash) &&
      (j.key in Rebuilt(env, after).indexed <==>
        after.table[j.key].active && Indexable(env, j.key, after.table[j.key].embedding.value)) &&
      ((forall op :: op in ops ==> !op.CleanUpOp?) ==> after.table[j.key].active)
  {
    StoreAllAt(s.table, jobs, j.key);
    if forall op :: op in ops ==> !op.CleanUpOp? {
      ActiveWithoutCleanup(env, Stored(s, jobs), ops, j.key);
    }
    SkippedAlways(env, Stored(s, jobs), ops, j.key, j.hash);
  }

  // ------------------------------------------------------------------- provenance

  /** Every kept embedding is the embedding of the content beside it. */
  ghost predicate Embedded(env: Env, row: JobRow) {
    row.embedding.Some? ==> row.content.Some? && env.embed(row.content.value) == row.embedding
  }

  ghost predicate Provenant(env: Env, t: Table) {
    HashMatches(t) && forall k :: k in t ==> Embedded(env, t[k])
  }

  ghost predicate Hashed(op: Op) {
    op.StorePage? ==> WellHashed(op.jobs)
  }

  lemma PerformKeepsProvenance(env: Env, s: Sys, op: Op)
    requires Provenant(env, s.table) && Hashed(op)
    ensures Provenant(env, Perform(env, s, op).table)
  {
    var t := Perform(env, s, op).table;
    forall k | k in t ensures RowHashed(t[k]) && Embedded(env, t[k]) {
      if op.StorePage? && Storable(s.table, op.jobs) {
        StoreAllAt(s.table, op.jobs, k);
        if k in Keys(op.jobs) {
          var j :| j in op.jobs && j.key == k;
        }
      }
    }
  }

  /** Over every sequence of stores, cleanups, embedding updates and rebuilds. */
  lemma {:induction false} ProvenanceAlways(env: Env, s: Sys, ops: seq<Op>)
    requires Provenant(env, s.table) && forall op :: op in ops ==> Hashed(op)
    ensures Provenant(env, PerformAll(env, s, ops).table)
    decreases |ops|
  {
    if ops != [] {
      assert ops[0] in ops && forall op :: op in ops[1..] ==> op in ops;
      PerformKeepsProvenance(env, s, ops[0]);
      ProvenanceAlways(env, Perform(env, s, ops[0]), ops[1..]);
    }
  }

  /** Writing embeddings of rows as they were fetched changes exactly those rows, whatever they hold by now. */
  lemma {:induction false} LateWriteAt(env: Env, fetched: Table, now: Table, keys: seq<JobKey>, k: JobKey)
    ensures var t := WriteEmbeddings(now, UpdatesFor(env, fetched, keys));
      (k in t <==> k in now) &&
      (k in now ==> t[k] == if Refreshed(env, fetched, Elements(keys), k)
                            then now[k].(embedding := NewEmbedding(env, fetched[k])) else now[k])
    decreases |keys|
  {
    if keys != [] {
      var x, rest := keys[0], UpdatesFor(env, fetched, keys[1..]);
      assert forall y :: y in Elements(keys) <==> y == x || y in Elements(keys[1..]);
      if Refreshed(env, fetched, {x}, x) {
        var u := Update(x, NewEmbedding(env, fetched[x]).value);
        assert UpdatesFor(env, fetched, keys) == [u] + rest && ([u] + rest)[1..] == rest;
        var next := if x in now then now[x := now[x].(embedding := Some(u.embedding))] else now;
        LateWriteAt(env, fetched, next, keys[1..], k);
      } else {
        LateWriteAt(env, fetched, now, keys[1..], k);
      }
    }
  }

  /** The row's content has by now another embedding than the content that was fetched. */
  ghost predicate Overtaken(env: Env, fetched: Table, now: Table, k: JobKey) {
    k in fetched && k in now && NewEmbedding(env, fetched[k]).Some? &&
    (now[k].content.None? || env.embed(now[k].content.value) != env.embed(fetched[k].content.value))
  }

  /**
   * An embedding update that fetched its rows before other operations ran keeps the provenance if
   * and only if none of its rows was given content with another embedding in the meantime.
   */
  lemma InterleavedUpdateKeepsProvenanceIff(env: Env, fetched: Table, now: Table, keys: seq<JobKey>)
    requires Provenant(env, now)
    ensures Provenant(env, WriteEmbeddings(now, UpdatesFor(env, fetched, keys))) <==>
      forall k :: k in keys ==> !Overtaken(env, fetched, now, k)
  {
    var t := WriteEmbeddings(now, UpdatesFor(env, fetched, keys));
    forall k ensures (k in t <==> k in now) && (k in t ==> RowHashed(t[k])) &&
                     (k in t ==> (Embedded(env, t[k]) <==> !(k in keys && Overtaken(env, fetched, now, k))))
    {
      LateWriteAt(env, fetched, now, keys, k);
    }
  }

  // ----------------------------------------------------------------------- search

  /**
   * What a top-k search (handle_top_results) returns from a coherent store: active jobs
   * only, each scored by the cosine between the query and its current embedding; and from a
   * complete one, no job with an embedding that was left out has a higher cosine.
   */
  lemma SearchRanksByCosine(env: Env, s: Sys, query: Vec, k: nat, out: seq<(JobKey, real)>)
    requires IsSqrt(env.sqrt) && Coherent(env, s)
    requires BestMatches(s.indexed, Normalized(env.sqrt, query), k, out)
    ensures forall t :: 0 <= t < |out| ==>
      var j := out[t].0;
      j in s.table && s.table[j].active &&
      (s.table[j].embedding.Some? ==> out[t].1 == TrueCosine(env.sqrt, query, s.table[j].embedding.value))
    ensures Complete(s) ==> forall j :: j in EmbeddedKeys(s.table) && (forall t :: 0 <= t < |out| ==> out[t].0 != j) ==>
      |out| == k && forall t :: 0 <= t < |out| ==>
        TrueCosine(env.sqrt, query, s.table[j].embedding.value) <= out[t].1
  {
    NormalizedLength(env.sqrt, query);
    forall j | j in s.indexed && s.table[j].embedding.Some? && |s.indexed[j]| == |query|
      ensures Dot(Normalized(env.sqrt, query), s.indexed[j]) ==
              TrueCosine(env.sqrt, query, s.table[j].embedding.value)
    {
      NormalizedLength(env.sqrt, s.table[j].embedding.value);
      NormalizedDotIsCosine(env.sqrt, query, s.table[j].embedding.value);
    }
  }
}
