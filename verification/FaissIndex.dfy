/**
 * The vector index of src/vector/faiss_service.rs: two Redis maps between jobs and
 * numeric ids, a counter, and a flat index of (id, vector) entries. Operations run to
 * completion one after another; adding to the FAISS index may fail, and always fails
 * for a vector of the wrong dimension.
 */
module FaissIndex {
  import opened Prelude
  import opened VectorMath
  import opened Jobs

  datatype Entry = Entry(id: int, vec: Vec)

  datatype Index = Index(dim: nat, jobToId: map<JobKey, int>, idToJob: map<int, JobKey>, nextId: nat,
                         entries: seq<Entry>)

  // --------------------------------------------------------------- specification

  function Empty(dim: nat): Index {
    Index(dim, map[], map[], 0, [])
  }

  /** get_or_create_faiss_id: INCR the counter and write both maps, unless the job has an id. */
  function WithId(ix: Index, job: JobKey): (r: Index)
    ensures job in r.jobToId
  {
    if job in ix.jobToId then ix
    else
      var id := ix.nextId + 1;
      ix.(jobToId := ix.jobToId[job := id], idToJob := ix.idToJob[id := job], nextId := id)
  }

  /** remove_ids with a one-element selector. */
  function Without(entries: seq<Entry>, id: int): seq<Entry> {
    if entries == [] then []
    else if entries[0].id == id then Without(entries[1..], id)
    else [entries[0]] + Without(entries[1..], id)
  }

  function Upserted(ix: Index, job: JobKey, v: Vec, addOk: bool): Index {
    var ix1 := WithId(ix, job);
    var id := ix1.jobToId[job];
    var kept := Without(ix1.entries, id);
    ix1.(entries := if addOk && |v| == ix.dim then kept + [Entry(id, v)] else kept)
  }

  /** add, which nothing calls: the old entry stays. */
  function Added(ix: Index, job: JobKey, v: Vec, addOk: bool): Index {
    var ix1 := WithId(ix, job);
    if addOk && |v| == ix.dim then ix1.(entries := ix1.entries + [Entry(ix1.jobToId[job], v)]) else ix1
  }

  function Removed(ix: Index, job: JobKey): Index {
    if job in ix.jobToId then
      var id := ix.jobToId[job];
      ix.(entries := Without(ix.entries, id), jobToId := ix.jobToId - {job}, idToJob := ix.idToJob - {id})
    else ix
  }

  // ------------------------------------------------------------------- the object

  /** One answer of the flat index: FAISS pads short answers with unused slots. */
  datatype Hit = Hit(id: Option<int>, score: real)

  class FaissService {
    const dim: nat
    var jobToId: map<JobKey, int>
    var idToJob: map<int, JobKey>
    var nextId: nat
    var entries: seq<Entry>

    function State(): Index
      reads this
    {
      Index(dim, jobToId, idToJob, nextId, entries)
    }

    constructor (dimension: nat)
      ensures dim == dimension && State() == Empty(dimension)
    {
      dim := dimension;
      jobToId, idToJob, nextId, entries := map[], map[], 0, [];
    }

    /** What rebuild_faiss_from_db does before it streams the rows. */
    method Reset()
      modifies this
      ensures State() == Empty(dim)
    {
      jobToId, idToJob, nextId, entries := map[], map[], 0, [];
    }

    method GetOrCreateId(job: JobKey) returns (id: int)
      modifies this
      ensures State() == WithId(old(State()), job) && id == State().jobToId[job]
    {
      if job in jobToId {
        return jobToId[job];
      }
      nextId := nextId + 1;
      jobToId := jobToId[job := nextId];
      idToJob := idToJob[nextId := job];
      return nextId;
    }

    method Upsert(job: JobKey, embedding: Vec, sqrt: real -> real, addOk: bool) returns (ok: bool)
      modifies this
      ensures State() == Upserted(old(State()), job, Normalized(sqrt, embedding), addOk)
      ensures ok == (addOk && |embedding| == dim)
    {
      var v := new real[|embedding|](i requires 0 <= i < |embedding| => embedding[i]);
      assert v[..] == embedding;
      Normalize(v, sqrt);
      var id := GetOrCreateId(job);
      entries := Without(entries, id);
      ok := addOk && v.Length == dim;
      if ok {
        entries := entries + [Entry(id, v[..])];
      }
    }

    method Add(job: JobKey, embedding: Vec, sqrt: real -> real, addOk: bool) returns (ok: bool)
      modifies this
      ensures State() == Added(old(State()), job, Normalized(sqrt, embedding), addOk)
      ensures ok == (addOk && |embedding| == dim)
    {
      var v := new real[|embedding|](i requires 0 <= i < |embedding| => embedding[i]);
      assert v[..] == embedding;
      Normalize(v, sqrt);
      var id := GetOrCreateId(job);
      ok := addOk && v.Length == dim;
      if ok {
        entries := entries + [Entry(id, v[..])];
      }
    }

    method Remove(job: JobKey)
      modifies this
      ensures State() == Removed(old(State()), job)
    {
      if job !in jobToId {
        return;
      }
      var id := jobToId[job];
      entries := Without(entries, id);
      jobToId := jobToId - {job};
      idToJob := idToJob - {id};
    }

    /**
     * `answer` is what FAISS returns for the normalised query: an error, as for a query of
     * another length, or the hits of the flat index. The error is passed on; otherwise the result
     * is a best-k list over the indexed jobs: distinct, non-increasing, with nothing better left
     * out, and complete when fewer than k jobs are indexed.
     */
    method Search(query: Vec, k: nat, sqrt: real -> real, answer: Option<seq<Hit>>)
      returns (out: Option<seq<(JobKey, real)>>)
      requires IndexInv(State())
      requires |query| != dim ==> answer.None?
      requires answer.Some? ==> IsFlatTopK(entries, Normalized(sqrt, query), k, answer.value)
      ensures out.Some? <==> answer.Some?
      ensures out.Some? ==> BestMatches(Indexed(State()), Normalized(sqrt, query), k, out.value)
    {
      if answer.None? {
        return None;
      }
      var found := LabelledJobs(query, k, sqrt, answer.value);
      return Some(found);
    }

    /** The loop over labels and distances. */
    method LabelledJobs(query: Vec, k: nat, sqrt: real -> real, hits: seq<Hit>) returns (out: seq<(JobKey, real)>)
      requires IndexInv(State()) && |query| == dim
      requires IsFlatTopK(entries, Normalized(sqrt, query), k, hits)
      ensures BestMatches(Indexed(State()), Normalized(sqrt, query), k, out)
    {
      ghost var q, m := Normalized(sqrt, query), Labelled(entries, k);
      out := [];
      for i := 0 to |hits|
        invariant |out| == if i <= m then i else m
        invariant forall t :: 0 <= t < |out| ==>
          hits[t].id.value in idToJob && out[t] == (idToJob[hits[t].id.value], hits[t].score)
      {
        if hits[i].id == None { continue; }
        assert Answered(entries, q, hits[i]);
        if hits[i].id.value in idToJob {
          out := out + [(idToJob[hits[i].id.value], hits[i].score)];
        }
      }
      HitsAreBest(State(), q, k, hits, out);
    }
  }

  // -------------------------------------------------------------------- invariant

  ghost predicate DistinctIds(entries: seq<Entry>) {
    forall i, j :: 0 <= i < j < |entries| ==> entries[i].id != entries[j].id
  }

  /**
   * The two maps are inverse to each other, no id exceeds the counter, every indexed id
   * has a reverse mapping, and no id is indexed twice.
   */
  ghost predicate IndexInv(ix: Index) {
    (forall j :: j in ix.jobToId ==>
      1 <= ix.jobToId[j] <= ix.nextId && ix.jobToId[j] in ix.idToJob && ix.idToJob[ix.jobToId[j]] == j) &&
    (forall i :: i in ix.idToJob ==> ix.idToJob[i] in ix.jobToId && ix.jobToId[ix.idToJob[i]] == i) &&
    (forall e :: e in ix.entries ==> e.id in ix.idToJob && |e.vec| == ix.dim) &&
    DistinctIds(ix.entries)
  }

  ghost function VecOf(entries: seq<Entry>, id: int): Option<Vec> {
    if entries == [] then None
    else if entries[0].id == id then Some(entries[0].vec)
    else VecOf(entries[1..], id)
  }

  /** The abstract value of the index: the vector stored for each indexed job. */
  ghost function Indexed(ix: Index): map<JobKey, Vec> {
    map j | j in ix.jobToId && VecOf(ix.entries, ix.jobToId[j]).Some? :: VecOf(ix.entries, ix.jobToId[j]).value
  }

  lemma {:induction false} WithoutIsFilter(entries: seq<Entry>, id: int)
    ensures forall e :: e in Without(entries, id) <==> e in entries && e.id != id
    ensures DistinctIds(entries) ==> DistinctIds(Without(entries, id))
    ensures forall x :: VecOf(Without(entries, id), x) == if x == id then None else VecOf(entries, x)
  {
    if entries != [] {
      WithoutIsFilter(entries[1..], id);
      assert entries == [entries[0]] + entries[1..];
      var rest := Without(entries[1..], id);
      if entries[0].id != id {
        assert ([entries[0]] + rest)[1..] == rest;
      }
    }
  }

  lemma {:induction false} VecOfAppended(entries: seq<Entry>, e: Entry, x: int)
    requires forall d :: d in entries ==> d.id != e.id
    ensures VecOf(entries + [e], x) == if x == e.id then Some(e.vec) else VecOf(entries, x)
  {
    if entries != [] {
      assert (entries + [e])[1..] == entries[1..] + [e];
      VecOfAppended(entries[1..], e, x);
    }
  }

  lemma {:induction false} VecOfIsEntry(entries: seq<Entry>, id: int, v: Vec)
    requires DistinctIds(entries)
    ensures VecOf(entries, id) == Some(v) <==> Entry(id, v) in entries
  {
    if entries != [] {
      VecOfIsEntry(entries[1..], id, v);
      assert entries == [entries[0]] + entries[1..];
      if Entry(id, v) in entries[1..] {
        var i :| 0 <= i < |entries[1..]| && entries[1..][i] == Entry(id, v);
        assert entries[i + 1] == Entry(id, v);
      }
    }
  }

  lemma WithIdKeepsInv(ix: Index, job: JobKey)
    requires IndexInv(ix)
    ensures IndexInv(WithId(ix, job)) && Indexed(WithId(ix, job)) == Indexed(ix)
  {
    if job !in ix.jobToId {
      var id := ix.nextId + 1;
      assert id !in ix.idToJob;
      forall v ensures VecOf(ix.entries, id) != Some(v) {
        VecOfIsEntry(ix.entries, id, v);
      }
      assert VecOf(ix.entries, id) == None;
    }
  }

  /** Taking a job's entry out of the index, ids kept. */
  lemma DropRefines(ix: Index, job: JobKey)
    requires IndexInv(ix) && job in ix.jobToId
    ensures var dropped := ix.(entries := Without(ix.entries, ix.jobToId[job]));
      IndexInv(dropped) && Indexed(dropped) == Indexed(ix) - {job}
  {
    WithoutIsFilter(ix.entries, ix.jobToId[job]);
    forall j | j in ix.jobToId && j != job ensures ix.jobToId[j] != ix.jobToId[job] {}
  }

  /** Adding an entry for a job that has an id but no entry. */
  lemma AppendRefines(ix: Index, job: JobKey, v: Vec)
    requires IndexInv(ix) && job in ix.jobToId && |v| == ix.dim
    requires forall e :: e in ix.entries ==> e.id != ix.jobToId[job]
    ensures var added := ix.(entries := ix.entries + [Entry(ix.jobToId[job], v)]);
      IndexInv(added) && Indexed(added) == Indexed(ix)[job := v]
  {
    var id := ix.jobToId[job];
    var added := ix.(entries := ix.entries + [Entry(id, v)]);
    forall j | j in ix.jobToId
      ensures VecOf(added.entries, ix.jobToId[j]) == if j == job then Some(v) else VecOf(ix.entries, ix.jobToId[j])
    {
      VecOfAppended(ix.entries, Entry(id, v), ix.jobToId[j]);
    }
  }

  /** An upsert stores the vector for this job alone; a failed add leaves the job unindexed. */
  lemma UpsertRefines(ix: Index, job: JobKey, v: Vec, addOk: bool)
    requires IndexInv(ix)
    ensures IndexInv(Upserted(ix, job, v, addOk))
    ensures Indexed(Upserted(ix, job, v, addOk)) ==
            if addOk && |v| == ix.dim then Indexed(ix)[job := v] else Indexed(ix) - {job}
  {
    var ix1 := WithId(ix, job);
    WithIdKeepsInv(ix, job);
    DropRefines(ix1, job);
    WithoutIsFilter(ix1.entries, ix1.jobToId[job]);
    var dropped := ix1.(entries := Without(ix1.entries, ix1.jobToId[job]));
    if addOk && |v| == ix.dim {
      AppendRefines(dropped, job, v);
      assert Upserted(ix, job, v, addOk) == dropped.(entries := dropped.entries + [Entry(ix1.jobToId[job], v)]);
      assert (Indexed(ix) - {job})[job := v] == Indexed(ix)[job := v];
    } else {
      assert Upserted(ix, job, v, addOk) == dropped;
    }
  }

  lemma RemoveRefines(ix: Index, job: JobKey)
    requires IndexInv(ix)
    ensures IndexInv(Removed(ix, job))
    ensures Indexed(Removed(ix, job)) == Indexed(ix) - {job}
  {
    if job in ix.jobToId {
      WithoutIsFilter(ix.entries, ix.jobToId[job]);
      forall j | j in ix.jobToId && j != job ensures ix.jobToId[j] != ix.jobToId[job] {}
    }
  }

  lemma EmptyRefines(dim: nat)
    ensures IndexInv(Empty(dim)) && Indexed(Empty(dim)) == map[]
  {}

  // ------------------------------------------------------------------ whole runs

  datatype Op = UpsertOp(job: JobKey, v: Vec, addOk: bool) | RemoveOp(job: JobKey) | ResetOp

  ghost function Do(ix: Index, op: Op): Index {
    match op
    case UpsertOp(job, v, addOk) => Upserted(ix, job, v, addOk)
    case RemoveOp(job) => Removed(ix, job)
    case ResetOp => Empty(ix.dim)
  }

  ghost function DoAll(ix: Index, ops: seq<Op>): Index
    decreases |ops|
  {
    if ops == [] then ix else DoAll(Do(ix, ops[0]), ops[1..])
  }

  /** The same operations on a plain map from jobs to vectors. */
  ghost function DoPlain(dim: nat, m: map<JobKey, Vec>, ops: seq<Op>): map<JobKey, Vec>
    decreases |ops|
  {
    if ops == [] then m
    else
      var m' := match ops[0]
        case UpsertOp(job, v, addOk) => if addOk && |v| == dim then m[job := v] else m - {job}
        case RemoveOp(job) => m - {job}
        case ResetOp => map[];
      DoPlain(dim, m', ops[1..])
  }

  /**
   * Over every sequence of upserts, failed or not, removes and resets, the maps and the
   * index stay coherent, and the index behaves like a plain map from jobs to vectors.
   */
  lemma {:induction false} IndexRefinesPlainMap(ix: Index, ops: seq<Op>)
    requires IndexInv(ix)
    ensures IndexInv(DoAll(ix, ops)) && Indexed(DoAll(ix, ops)) == DoPlain(ix.dim, Indexed(ix), ops)
    decreases |ops|
  {
    if ops != [] {
      match ops[0] {
        case UpsertOp(job, v, addOk) => UpsertRefines(ix, job, v, addOk);
        case RemoveOp(job) => RemoveRefines(ix, job);
        case ResetOp => EmptyRefines(ix.dim);
      }
      IndexRefinesPlainMap(Do(ix, ops[0]), ops[1..]);
    }
  }

  /** A job is indexed if and only if some entry has its id. */
  lemma IndexedHasEntry(ix: Index, job: JobKey)
    requires IndexInv(ix) && job in ix.jobToId
    ensures job in Indexed(ix) <==> exists e :: e in ix.entries && e.id == ix.jobToId[job]
  {
    var id := ix.jobToId[job];
    if job in Indexed(ix) {
      VecOfIsEntry(ix.entries, id, VecOf(ix.entries, id).value);
    }
    if e :| e in ix.entries && e.id == id {
      VecOfIsEntry(ix.entries, id, e.vec);
    }
  }

  /** `add` does not remove first: it breaks the invariant if and only if it indexes an indexed job again. */
  lemma AddKeepsInvariantIff(ix: Index, job: JobKey, v: Vec, addOk: bool)
    requires IndexInv(ix)
    ensures IndexInv(Added(ix, job, v, addOk)) <==> !(addOk && |v| == ix.dim && job in Indexed(ix))
    ensures job !in Indexed(ix) ==>
      Indexed(Added(ix, job, v, addOk)) == if addOk && |v| == ix.dim then Indexed(ix)[job := v] else Indexed(ix)
  {
    var ix1 := WithId(ix, job);
    WithIdKeepsInv(ix, job);
    IndexedHasEntry(ix1, job);
    if addOk && |v| == ix.dim {
      if job in Indexed(ix) {
        var e :| e in ix1.entries && e.id == ix1.jobToId[job];
        AppendDuplicates(ix1.entries, e, Entry(ix1.jobToId[job], v));
      } else {
        AppendRefines(ix1, job, v);
      }
    }
  }

  lemma AppendDuplicates(entries: seq<Entry>, e: Entry, added: Entry)
    requires e in entries && e.id == added.id
    ensures !DistinctIds(entries + [added])
  {
    var i :| 0 <= i < |entries| && entries[i] == e;
    assert (entries + [added])[i].id == (entries + [added])[|entries|].id;
  }

  /** In particular adding a job twice to an empty index gives its id two entries. */
  lemma AddTwiceDuplicates(job: JobKey, v: Vec)
    ensures var ix := WithId(Empty(|v|), job);
      var added := ix.(entries := ix.entries + [Entry(ix.jobToId[job], v)]);
      var twice := added.(entries := added.entries + [Entry(added.jobToId[job], v)]);
      IndexInv(added) && !IndexInv(twice)
  {
    var ix := WithId(Empty(|v|), job);
    assert ix == Index(|v|, map[job := 1], map[1 := job], 1, []);
    var twice := [] + [Entry(1, v)] + [Entry(1, v)];
    assert twice[0].id == twice[1].id;
  }

  // ----------------------------------------------------------------------- search

  ghost function Labelled(entries: seq<Entry>, k: nat): nat {
    if k <= |entries| then k else |entries|
  }

  ghost predicate Answers(e: Entry, q: Vec, hit: Hit) {
    |e.vec| == |q| && hit.id == Some(e.id) && hit.score == Dot(q, e.vec)
  }

  ghost predicate Answered(entries: seq<Entry>, q: Vec, hit: Hit) {
    exists e :: e in entries && Answers(e, q, hit)
  }

  ghost predicate Listed(hits: seq<Hit>, m: nat, id: int) {
    exists i :: 0 <= i < m && i < |hits| && hits[i].id == Some(id)
  }

  /** What a flat inner-product index promises, ties broken in any way. */
  ghost predicate IsFlatTopK(entries: seq<Entry>, q: Vec, k: nat, hits: seq<Hit>) {
    var m := Labelled(entries, k);
    |hits| == k &&
    (forall i :: 0 <= i < k ==> (hits[i].id.Some? <==> i < m)) &&
    (forall i :: 0 <= i < m ==> Answered(entries, q, hits[i])) &&
    (forall i, j :: 0 <= i < j < m ==> hits[i].id != hits[j].id && hits[i].score >= hits[j].score) &&
    (forall e, i :: e in entries && |e.vec| == |q| && !Listed(hits, m, e.id) && 0 <= i < m ==>
      Dot(q, e.vec) <= hits[i].score)
  }

  ghost predicate BestMatches(indexed: map<JobKey, Vec>, q: Vec, k: nat, out: seq<(JobKey, real)>) {
    |out| <= k &&
    (forall t :: 0 <= t < |out| ==>
      out[t].0 in indexed && |indexed[out[t].0]| == |q| && out[t].1 == Dot(q, indexed[out[t].0])) &&
    (forall s, t :: 0 <= s < t < |out| ==> out[s].0 != out[t].0 && out[s].1 >= out[t].1) &&
    (forall j :: j in indexed && (forall t :: 0 <= t < |out| ==> out[t].0 != j) ==>
      |indexed[j]| == |q| && |out| == k && forall t :: 0 <= t < |out| ==> Dot(q, indexed[j]) <= out[t].1)
  }

  /** If fewer than all entries can be labelled, k of them are. */
  lemma EveryEntryListed(entries: seq<Entry>, q: Vec, k: nat, hits: seq<Hit>, e: Entry)
    requires DistinctIds(entries) && IsFlatTopK(entries, q, k, hits) && |entries| < k && e in entries
    ensures Listed(hits, |entries|, e.id)
  {
    var ids := set d | d in entries :: d.id;
    var n := |entries|;
    var found := seq(n, i requires 0 <= i < n => hits[i].id.value);
    var all := seq(n, i requires 0 <= i < n => entries[i].id);
    assert Elements(all) == ids by {
      forall d | d in entries ensures d.id in all {
        var i :| 0 <= i < n && entries[i] == d;
        assert all[i] == d.id;
      }
    }
    DistinctCardinality(all);
    forall i, j | 0 <= i < j < n ensures found[i] != found[j] {
      assert hits[i].id != hits[j].id;
    }
    DistinctCardinality(found);
    forall i | 0 <= i < n ensures found[i] in ids {
      assert Answered(entries, q, hits[i]);
    }
    assert Elements(found) <= ids;
    if e.id !in found {
      SubsetCardinality(Elements(found), ids - {e.id});
    }
    var i :| 0 <= i < n && found[i] == e.id;
    assert hits[i].id == Some(e.id);
  }

  lemma HitsAreBest(ix: Index, q: Vec, k: nat, hits: seq<Hit>, out: seq<(JobKey, real)>)
    requires IndexInv(ix) && |q| == ix.dim && IsFlatTopK(ix.entries, q, k, hits)
    requires |out| == Labelled(ix.entries, k)
    requires forall t :: 0 <= t < |out| ==>
      hits[t].id.value in ix.idToJob && out[t] == (ix.idToJob[hits[t].id.value], hits[t].score)
    ensures BestMatches(Indexed(ix), q, k, out)
  {
    forall t | 0 <= t < |out|
      ensures out[t].0 in Indexed(ix) && |Indexed(ix)[out[t].0]| == |q| && out[t].1 == Dot(q, Indexed(ix)[out[t].0])
    {
      assert Answered(ix.entries, q, hits[t]);
      var e :| e in ix.entries && Answers(e, q, hits[t]);
      VecOfIsEntry(ix.entries, e.id, e.vec);
    }
    forall s, t | 0 <= s < t < |out| ensures out[s].0 != out[t].0 && out[s].1 >= out[t].1 {
      assert hits[s].id != hits[t].id;
    }
    forall j | j in Indexed(ix) && forall t :: 0 <= t < |out| ==> out[t].0 != j
      ensures |Indexed(ix)[j]| == |q| && |out| == k
      ensures forall t :: 0 <= t < |out| ==> Dot(q, Indexed(ix)[j]) <= out[t].1
    {
      var id, v := ix.jobToId[j], Indexed(ix)[j];
      VecOfIsEntry(ix.entries, id, v);
      var e := Entry(id, v);
      if |ix.entries| < k {
        EveryEntryListed(ix.entries, q, k, hits, e);
      }
    }
  }
}
