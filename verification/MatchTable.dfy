/**
 * The incremental job-profile match pass (src/utils/match_score.rs with the queries of
 * src/db/match_score.rs), without errors and without concurrent writes to jobs and profiles.
 */
module MatchTable {
  import opened Prelude
  import opened JsonValue
  import opened VectorMath
  import opened Jobs
  import opened Batching

  type Id = string

  datatype Job = Job(hash: Digest, content: Option<Json>, embedding: Option<Vec>)
  datatype Profile = Profile(hash: Digest, metadata: Option<Json>)
  datatype Pair = Pair(job: Id, profile: Id)
  datatype Match = Match(jobHash: Digest, profileHash: Digest, score: int)

  type Matches = map<Pair, Match>

  /** The two parent tables and the scorer, fixed during a pass. */
  datatype Db = Db(jobs: map<Id, Job>, profiles: map<Id, Profile>, score: (Job, Profile) -> int)

  const LIMIT: nat := 5000

  // --------------------------------------------------------------- specification

  function Cross(js: set<Id>, ps: set<Id>): set<Pair> {
    set j, p | j in js && p in ps :: Pair(j, p)
  }

  function AllPairs(db: Db): set<Pair> {
    Cross(db.jobs.Keys, db.profiles.Keys)
  }

  /** The row compute_and_upsert writes for a pair. */
  function FreshRow(db: Db, pr: Pair): Match
    requires pr in AllPairs(db)
  {
    var j, p := db.jobs[pr.job], db.profiles[pr.profile];
    Match(j.hash, p.hash, db.score(j, p))
  }

  /** Recomputing every pair. */
  ghost function FullTable(db: Db): Matches {
    map pr | pr in AllPairs(db) :: FreshRow(db, pr)
  }

  /** The foreign keys of job_profile_matches. */
  ghost predicate Referenced(db: Db, m: Matches) {
    m.Keys <= AllPairs(db)
  }

  /** fetch_stale_matches */
  function Stale(db: Db, m: Matches): set<Pair> {
    set pr | pr in m && pr in AllPairs(db) && Outdated(db, m, pr)
  }

  predicate Outdated(db: Db, m: Matches, pr: Pair)
    requires pr in m && pr in AllPairs(db)
  {
    m[pr].jobHash != db.jobs[pr.job].hash || m[pr].profileHash != db.profiles[pr.profile].hash
  }

  /** fetch_new_jobs: jobs without any match row. */
  function NewJobs(db: Db, m: Matches): set<Id> {
    set j | j in db.jobs && forall pr :: pr in m ==> pr.job != j
  }

  /** fetch_new_profiles */
  function NewProfiles(db: Db, m: Matches): set<Id> {
    set p | p in db.profiles && forall pr :: pr in m ==> pr.profile != p
  }

  function Missing(db: Db, m: Matches): set<Pair> {
    AllPairs(db) - m.Keys
  }

  /** The table after the given pairs were recomputed. */
  ghost function Recomputed(db: Db, m: Matches, done: set<Pair>): Matches
    requires done <= AllPairs(db)
  {
    map pr | pr in m.Keys + done :: if pr in done then FreshRow(db, pr) else m[pr]
  }

  /** What a pass recomputes before reconciliation. */
  ghost function Noticed(db: Db, m: Matches): (r: set<Pair>)
    ensures r <= AllPairs(db)
  {
    Stale(db, m) + Cross(NewJobs(db, m), db.profiles.Keys) + Cross(db.jobs.Keys, NewProfiles(db, m))
  }

  ghost predicate Picked(pick: set<Pair>, missing: set<Pair>) {
    pick <= missing && |pick| == if |missing| <= LIMIT then |missing| else LIMIT
  }

  /** One run of calculate_match_score, with any choice LIMIT 5000 may make. */
  ghost predicate Pass(db: Db, m: Matches, m': Matches) {
    exists pick :: Picked(pick, Missing(db, Recomputed(db, m, Noticed(db, m)))) &&
                   m' == Recomputed(db, m, Noticed(db, m) + pick)
  }

  lemma RecomputedTwice(db: Db, m: Matches, a: set<Pair>, b: set<Pair>)
    requires a <= AllPairs(db) && b <= AllPairs(db)
    ensures Recomputed(db, Recomputed(db, m, a), b) == Recomputed(db, m, a + b)
  {}

  lemma CrossUnion(a: set<Id>, b: set<Id>, c: set<Id>)
    ensures Cross(a + b, c) == Cross(a, c) + Cross(b, c) && Cross(c, a + b) == Cross(c, a) + Cross(c, b)
  {}

  lemma CrossWithin(db: Db, js: set<Id>, ps: set<Id>)
    requires js <= db.jobs.Keys && ps <= db.profiles.Keys
    ensures Cross(js, ps) <= AllPairs(db)
  {}

  /** The table after these jobs were scored against every profile. */
  ghost function WithJobs(db: Db, m: Matches, js: set<Id>): Matches
    requires js <= db.jobs.Keys
  {
    CrossWithin(db, js, db.profiles.Keys);
    Recomputed(db, m, Cross(js, db.profiles.Keys))
  }

  /** The table after these profiles were scored against every job. */
  ghost function WithProfiles(db: Db, m: Matches, ps: set<Id>): Matches
    requires ps <= db.profiles.Keys
  {
    CrossWithin(db, db.jobs.Keys, ps);
    Recomputed(db, m, Cross(db.jobs.Keys, ps))
  }

  lemma JobsAdvance(db: Db, m: Matches, done: set<Id>, more: set<Id>)
    requires done + more <= db.jobs.Keys
    ensures WithJobs(db, WithJobs(db, m, done), more) == WithJobs(db, m, done + more)
    ensures WithJobs(db, m, {}) == m
  {
    CrossUnion(done, more, db.profiles.Keys);
    CrossWithin(db, done + more, db.profiles.Keys);
    RecomputedTwice(db, m, Cross(done, db.profiles.Keys), Cross(more, db.profiles.Keys));
  }

  lemma ProfilesAdvance(db: Db, m: Matches, done: set<Id>, more: set<Id>)
    requires done + more <= db.profiles.Keys
    ensures WithProfiles(db, WithProfiles(db, m, done), more) == WithProfiles(db, m, done + more)
    ensures WithProfiles(db, m, {}) == m
  {
    CrossUnion(done, more, db.jobs.Keys);
    CrossWithin(db, db.jobs.Keys, done + more);
    RecomputedTwice(db, m, Cross(db.jobs.Keys, done), Cross(db.jobs.Keys, more));
  }

  /** The pairs of one job with every profile, and of one profile with every job. */
  function JobPairs(j: Id, profiles: seq<Id>): (r: seq<Pair>)
    ensures Elements(r) == Cross({j}, Elements(profiles))
  {
    var r := seq(|profiles|, k requires 0 <= k < |profiles| => Pair(j, profiles[k]));
    assert forall k :: 0 <= k < |profiles| ==> r[k] == Pair(j, profiles[k]);
    r
  }

  function ProfilePairs(p: Id, jobs: seq<Id>): (r: seq<Pair>)
    ensures Elements(r) == Cross(Elements(jobs), {p})
  {
    var r := seq(|jobs|, k requires 0 <= k < |jobs| => Pair(jobs[k], p));
    assert forall k :: 0 <= k < |jobs| ==> r[k] == Pair(jobs[k], p);
    r
  }

  // ------------------------------------------------------------------- the object

  class MatchStore {
    const db: Db
    var matches: Matches

    constructor (db: Db, initial: Matches)
      ensures this.db == db && matches == initial
    {
      this.db := db;
      matches := initial;
    }

    /** compute_match_score followed by upsert_match_score. */
    method ComputeAndUpsert(pr: Pair)
      requires pr in AllPairs(db)
      modifies this
      ensures matches == Recomputed(db, old(matches), {pr})
    {
      matches := matches[pr := FreshRow(db, pr)];
    }

    /** The shared loop of recompute_stale_matches and of the reconciliation: one pair after the other. */
    method RecomputePairs(pairs: seq<Pair>)
      requires Elements(pairs) <= AllPairs(db)
      modifies this
      ensures matches == Recomputed(db, old(matches), Elements(pairs))
    {
      assert Recomputed(db, matches, {}) == matches;
      for i := 0 to |pairs|
        invariant Elements(pairs[..i]) <= AllPairs(db)
        invariant matches == Recomputed(db, old(matches), Elements(pairs[..i]))
      {
        ElementsGrow(pairs, i);
        RecomputedTwice(db, old(matches), Elements(pairs[..i]), {pairs[i]});
        ComputeAndUpsert(pairs[i]);
      }
      assert pairs[..|pairs|] == pairs;
    }

    /** Pairs in batches, batch after batch. */
    method RecomputeBatches(pairs: seq<Pair>, batchSize: nat)
      requires batchSize >= 1 && Elements(pairs) <= AllPairs(db)
      modifies this
      ensures matches == Recomputed(db, old(matches), Elements(pairs))
    {
      var batches := ChunkVec(pairs, batchSize);
      ChunksConcatenate(pairs, batchSize);
      ghost var done: set<Pair> := {};
      assert Recomputed(db, matches, {}) == matches;
      for b := 0 to |batches|
        invariant done + Elements(Concat(batches[b..])) == Elements(pairs)
        invariant matches == Recomputed(db, old(matches), done)
      {
        assert batches[b..][0] == batches[b] && batches[b..][1..] == batches[b + 1..];
        RecomputedTwice(db, old(matches), done, Elements(batches[b]));
        RecomputePairs(batches[b]);
        done := done + Elements(batches[b]);
      }
      assert done == Elements(pairs);
    }

    /** The inner loops: one job against all profiles, and one profile against all jobs. */
    method ScoreJob(j: Id, profiles: seq<Id>)
      requires j in db.jobs && Elements(profiles) == db.profiles.Keys
      modifies this
      ensures matches == WithJobs(db, old(matches), {j})
    {
      CrossWithin(db, {j}, db.profiles.Keys);
      RecomputePairs(JobPairs(j, profiles));
    }

    method ScoreProfile(p: Id, jobs: seq<Id>)
      requires p in db.profiles && Elements(jobs) == db.jobs.Keys
      modifies this
      ensures matches == WithProfiles(db, old(matches), {p})
    {
      CrossWithin(db, db.jobs.Keys, {p});
      RecomputePairs(ProfilePairs(p, jobs));
    }

    /** process_new_jobs: every job of the batch against every profile. */
    method ProcessNewJobs(newJobs: seq<Id>)
      requires Elements(newJobs) <= db.jobs.Keys
      modifies this
      ensures matches == WithJobs(db, old(matches), Elements(newJobs))
    {
      var profiles := Enumerate(db.profiles.Keys);
      JobsAdvance(db, matches, {}, {});
      ghost var done: set<Id> := {};
      for i := 0 to |newJobs|
        invariant done == Elements(newJobs[..i])
        invariant done <= db.jobs.Keys
        invariant matches == WithJobs(db, old(matches), done)
      {
        ElementsGrow(newJobs, i);
        ScoreJob(newJobs[i], profiles);
        JobsAdvance(db, old(matches), done, {newJobs[i]});
        done := done + {newJobs[i]};
      }
      assert newJobs[..|newJobs|] == newJobs;
    }

    /** process_new_profiles: every profile of the batch against every job. */
    method ProcessNewProfiles(newProfiles: seq<Id>)
      requires Elements(newProfiles) <= db.profiles.Keys
      modifies this
      ensures matches == WithProfiles(db, old(matches), Elements(newProfiles))
    {
      var jobs := Enumerate(db.jobs.Keys);
      ProfilesAdvance(db, matches, {}, {});
      ghost var done: set<Id> := {};
      for i := 0 to |newProfiles|
        invariant done == Elements(newProfiles[..i])
        invariant done <= db.profiles.Keys
        invariant matches == WithProfiles(db, old(matches), done)
      {
        ElementsGrow(newProfiles, i);
        ScoreProfile(newProfiles[i], jobs);
        ProfilesAdvance(db, old(matches), done, {newProfiles[i]});
        done := done + {newProfiles[i]};
      }
      assert newProfiles[..|newProfiles|] == newProfiles;
    }

    /** fetch_missing_matches: LIMIT 5000 without an order. */
    method FetchMissing() returns (pairs: seq<Pair>)
      ensures Distinct(pairs) && Picked(Elements(pairs), Missing(db, matches))
    {
      pairs := Enumerate(Missing(db, matches));
      if |pairs| > LIMIT {
        ghost var all := pairs;
        pairs := pairs[..LIMIT];
        assert Elements(pairs) <= Elements(all);
      }
      DistinctCardinality(pairs);
    }

    /** calculate_match_score. The three lists are fetched before anything is recomputed. */
    method CalculateMatchScore(configuredBatch: nat)
      requires Referenced(db, matches)
      modifies this
      ensures Pass(db, old(matches), matches)
    {
      ghost var m := matches;
      var newJobs := Enumerate(NewJobs(db, matches));
      var newProfiles := Enumerate(NewProfiles(db, matches));
      var stale := Enumerate(Stale(db, matches));
      var batchSize := if configuredBatch >= 1 then configuredBatch else 1;

      RecomputeBatches(stale, batchSize);
      ProcessJobBatches(newJobs, batchSize);
      ProcessProfileBatches(newProfiles, batchSize);
      ghost var js, ps := Cross(NewJobs(db, m), db.profiles.Keys), Cross(db.jobs.Keys, NewProfiles(db, m));
      RecomputedTwice(db, m, Stale(db, m), js);
      RecomputedTwice(db, m, Stale(db, m) + js, ps);
      ghost var done := Noticed(db, m);

      ghost var noticed := matches;
      var missing := FetchMissing();
      RecomputedTwice(db, m, done, Elements(missing));
      RecomputeBatches(missing, batchSize);
      assert Picked(Elements(missing), Missing(db, noticed));
    }

    method ProcessJobBatches(newJobs: seq<Id>, batchSize: nat)
      requires batchSize >= 1 && Elements(newJobs) <= db.jobs.Keys
      modifies this
      ensures matches == WithJobs(db, old(matches), Elements(newJobs))
    {
      var batches := ChunkVec(newJobs, batchSize);
      ChunksConcatenate(newJobs, batchSize);
      ghost var done: set<Id> := {};
      JobsAdvance(db, matches, {}, {});
      for b := 0 to |batches|
        invariant done + Elements(Concat(batches[b..])) == Elements(newJobs)
        invariant matches == WithJobs(db, old(matches), done)
      {
        assert batches[b..][0] == batches[b] && batches[b..][1..] == batches[b + 1..];
        assert Elements(batches[b]) <= Elements(newJobs);
        JobsAdvance(db, old(matches), done, Elements(batches[b]));
        ProcessNewJobs(batches[b]);
        done := done + Elements(batches[b]);
      }
      assert done == Elements(newJobs);
    }

    method ProcessProfileBatches(newProfiles: seq<Id>, batchSize: nat)
      requires batchSize >= 1 && Elements(newProfiles) <= db.profiles.Keys
      modifies this
      ensures matches == WithProfiles(db, old(matches), Elements(newProfiles))
    {
      var batches := ChunkVec(newProfiles, batchSize);
      ChunksConcatenate(newProfiles, batchSize);
      ghost var done: set<Id> := {};
      ProfilesAdvance(db, matches, {}, {});
      for b := 0 to |batches|
        invariant done + Elements(Concat(batches[b..])) == Elements(newProfiles)
        invariant matches == WithProfiles(db, old(matches), done)
      {
        assert batches[b..][0] == batches[b] && batches[b..][1..] == batches[b + 1..];
        assert Elements(batches[b]) <= Elements(newProfiles);
        ProfilesAdvance(db, old(matches), done, Elements(batches[b]));
        ProcessNewProfiles(batches[b]);
        done := done + Elements(batches[b]);
      }
      assert done == Elements(newProfiles);
    }
  }

  // ------------------------------------------------------------- what a pass achieves

  /** A pair with a row is noticed exactly when the row's hashes are outdated. */
  lemma NoticedAt(db: Db, m: Matches, pr: Pair)
    requires pr in m && pr in AllPairs(db)
    ensures pr in Noticed(db, m) <==> Outdated(db, m, pr)
  {
    assert pr.job !in NewJobs(db, m) && pr.profile !in NewProfiles(db, m);
    assert pr in Stale(db, m) <==> Outdated(db, m, pr);
  }

  lemma RecomputedAt(db: Db, m: Matches, done: set<Pair>, pr: Pair)
    requires Referenced(db, m) && done <= AllPairs(db)
    ensures pr in Recomputed(db, m, done) <==> pr in m || pr in done
    ensures pr in done ==> Recomputed(db, m, done)[pr] == FreshRow(db, pr)
    ensures pr in m && pr !in done ==> Recomputed(db, m, done)[pr] == m[pr]
  {}

  lemma PickAt(db: Db, m: Matches, noticed: set<Pair>, pick: set<Pair>, pr: Pair)
    requires Referenced(db, m) && noticed <= AllPairs(db) && pick <= Missing(db, Recomputed(db, m, noticed))
    requires pr in m ==> (pr in noticed <==> Outdated(db, m, pr))
    ensures var m' := Recomputed(db, m, noticed + pick);
      (pr in m' ==> pr in AllPairs(db)) &&
      (pr in m ==> pr in m' && (!Outdated(db, m, pr) ==> m'[pr] == m[pr])) &&
      (pr in m' && (pr !in m || Outdated(db, m, pr)) ==> m'[pr] == FreshRow(db, pr))
  {
    RecomputedAt(db, m, noticed, pr);
    RecomputedAt(db, m, noticed + pick, pr);
  }

  /** A row with current hashes is touched by nothing in a pass, every other row is recomputed. */
  lemma PassAt(db: Db, m: Matches, m': Matches, pr: Pair)
    requires Referenced(db, m) && Pass(db, m, m')
    ensures pr in m' ==> pr in AllPairs(db)
    ensures pr in m ==> pr in AllPairs(db) && pr in m' && (!Outdated(db, m, pr) ==> m'[pr] == m[pr])
    ensures pr in m' && (pr !in m || Outdated(db, m, pr)) ==> m'[pr] == FreshRow(db, pr)
  {
    var noticed := Noticed(db, m);
    var pick :| Picked(pick, Missing(db, Recomputed(db, m, noticed))) && m' == Recomputed(db, m, noticed + pick);
    if pr in m {
      NoticedAt(db, m, pr);
    }
    PickAt(db, m, noticed, pick, pr);
  }

  /** After a pass no row has outdated hashes, and every row the pass wrote equals the full recompute. */
  lemma PassLeavesNoStaleRow(db: Db, m: Matches, m': Matches)
    requires Referenced(db, m) && Pass(db, m, m')
    ensures Referenced(db, m') && Stale(db, m') == {} && m.Keys <= m'.Keys
    ensures forall pr :: pr in m' && (pr !in m || pr in Stale(db, m)) ==> m'[pr] == FreshRow(db, pr)
  {
    forall pr | pr in m' ensures pr in AllPairs(db) && !Outdated(db, m', pr) {
      PassAt(db, m, m', pr);
    }
    forall pr | pr in m' && (pr !in m || pr in Stale(db, m)) ensures m'[pr] == FreshRow(db, pr) {
      PassAt(db, m, m', pr);
    }
    forall pr | pr in m ensures pr in m' {
      PassAt(db, m, m', pr);
    }
  }

  /** The pairs still missing at reconciliation: both sides already have a row somewhere. */
  lemma MissingAtReconciliation(db: Db, m: Matches, pr: Pair)
    requires Referenced(db, m)
    ensures pr in Missing(db, Recomputed(db, m, Noticed(db, m))) <==>
      pr in Missing(db, m) && pr.job !in NewJobs(db, m) && pr.profile !in NewProfiles(db, m)
  {}

  function Less(n: nat): nat {
    if n <= LIMIT then 0 else n - LIMIT
  }

  /** Picking from a finite set of missing pairs leaves min(5000, missing) fewer. */
  lemma PickCounts(pick: set<Pair>, missing: set<Pair>)
    requires Picked(pick, missing)
    ensures |missing - pick| == Less(|missing|)
  {
    assert missing == pick + (missing - pick);
  }

  lemma MissingAfter(db: Db, m: Matches, noticed: set<Pair>, pick: set<Pair>)
    requires noticed <= AllPairs(db) && pick <= Missing(db, Recomputed(db, m, noticed))
    ensures Missing(db, Recomputed(db, m, noticed + pick)) == Missing(db, Recomputed(db, m, noticed)) - pick
    ensures Missing(db, Recomputed(db, m, noticed)) <= Missing(db, m)
  {
    assert Recomputed(db, m, noticed + pick).Keys == m.Keys + noticed + pick;
    assert Recomputed(db, m, noticed).Keys == m.Keys + noticed;
  }

  lemma PickCuts(db: Db, m: Matches, noticed: set<Pair>, pick: set<Pair>)
    requires noticed <= AllPairs(db) && Picked(pick, Missing(db, Recomputed(db, m, noticed)))
    ensures |Missing(db, Recomputed(db, m, noticed + pick))| == Less(|Missing(db, Recomputed(db, m, noticed))|)
    ensures Less(|Missing(db, Recomputed(db, m, noticed))|) <= Less(|Missing(db, m)|)
  {
    var missing := Missing(db, Recomputed(db, m, noticed));
    MissingAfter(db, m, noticed, pick);
    PickCounts(pick, missing);
    SubsetCardinality(missing, Missing(db, m));
  }

  /** A pass fills min(5000, missing) of the pairs missing at reconciliation. */
  lemma PassCutsMissing(db: Db, m: Matches, m': Matches)
    requires Referenced(db, m) && Pass(db, m, m')
    ensures |Missing(db, m')| == Less(|Missing(db, Recomputed(db, m, Noticed(db, m)))|)
    ensures |Missing(db, m')| <= Less(|Missing(db, m)|)
  {
    var noticed := Noticed(db, m);
    var pick :| Picked(pick, Missing(db, Recomputed(db, m, noticed))) && m' == Recomputed(db, m, noticed + pick);
    PickCuts(db, m, noticed, pick);
  }

  /** The job has a row with some profile, the profile one with some job. */
  ghost predicate JobHasRow(m: Matches, j: Id) {
    exists p :: Pair(j, p) in m
  }

  ghost predicate ProfileHasRow(m: Matches, p: Id) {
    exists j :: Pair(j, p) in m
  }

  lemma NewcomersAre(db: Db, m: Matches)
    ensures forall j :: j in NewJobs(db, m) <==> j in db.jobs && !JobHasRow(m, j)
    ensures forall p :: p in NewProfiles(db, m) <==> p in db.profiles && !ProfileHasRow(m, p)
  {
    forall pr | pr in m ensures JobHasRow(m, pr.job) && ProfileHasRow(m, pr.profile) {
      assert Pair(pr.job, pr.profile) == pr;
    }
  }

  /**
   * What one pass does to a pair: a row whose two hashes are current stays as it is; any other row
   * is there with the current hashes and a score computed now. A job or a profile without any row
   * gets all of its rows.
   */
  lemma PassMeans(db: Db, m: Matches, m': Matches, j: Id, p: Id)
    requires Referenced(db, m) && Pass(db, m, m')
    ensures Pair(j, p) in m' ==> j in db.jobs && p in db.profiles
    ensures Pair(j, p) in m ==> Pair(j, p) in m'
    ensures j in db.jobs && p in db.profiles && (!JobHasRow(m, j) || !ProfileHasRow(m, p)) ==> Pair(j, p) in m'
    ensures Pair(j, p) in m' ==>
      var job, profile := db.jobs[j], db.profiles[p];
      if Pair(j, p) in m && m[Pair(j, p)].jobHash == job.hash && m[Pair(j, p)].profileHash == profile.hash
      then m'[Pair(j, p)] == m[Pair(j, p)]
      else m'[Pair(j, p)] == Match(job.hash, profile.hash, db.score(job, profile))
  {
    var pr, noticed := Pair(j, p), Noticed(db, m);
    PassAt(db, m, m', pr);
    var pick :| Picked(pick, Missing(db, Recomputed(db, m, noticed))) && m' == Recomputed(db, m, noticed + pick);
    NewcomersAre(db, m);
    if j in db.jobs && p in db.profiles && (!JobHasRow(m, j) || !ProfileHasRow(m, p)) {
      assert pr in noticed;
      RecomputedAt(db, m, noticed + pick, pr);
    }
  }

  /** The pairs without a row whose job and profile both have one elsewhere. */
  ghost predicate Overlooked(db: Db, m: Matches, pr: Pair) {
    pr.job in db.jobs && pr.profile in db.profiles && pr !in m && JobHasRow(m, pr.job) && ProfileHasRow(m, pr.profile)
  }

  lemma OverlookedIsMissing(db: Db, m: Matches, pr: Pair)
    requires Referenced(db, m)
    ensures pr in Missing(db, Recomputed(db, m, Noticed(db, m))) <==> Overlooked(db, m, pr)
  {
    MissingAtReconciliation(db, m, pr);
    NewcomersAre(db, m);
    assert pr in Missing(db, m) <==> pr.job in db.jobs && pr.profile in db.profiles && pr !in m;
  }

  lemma OnlyPicksAreFilled(db: Db, m: Matches, noticed: set<Pair>, pick: set<Pair>, pr: Pair)
    requires Referenced(db, m) && noticed <= AllPairs(db) && pick <= Missing(db, Recomputed(db, m, noticed))
    requires pr in Missing(db, Recomputed(db, m, noticed))
    ensures pr in Recomputed(db, m, noticed + pick) <==> pr in pick
  {
    RecomputedAt(db, m, noticed, pr);
    RecomputedAt(db, m, noticed + pick, pr);
  }

  /** Of those pairs a pass fills all, or 5000 if there are more. */
  lemma PassFillsOverlooked(db: Db, m: Matches, m': Matches, before: set<Pair>, after: set<Pair>)
    requires Referenced(db, m) && Pass(db, m, m')
    requires forall pr :: pr in before <==> Overlooked(db, m, pr)
    requires forall pr :: pr in after <==> Overlooked(db, m, pr) && pr !in m'
    ensures if |before| <= 5000 then after == {} else |after| == |before| - 5000
  {
    hide *;
    var pick := PickOf(db, m, m');
    OverlookedAre(db, m, before);
    forall pr | pr in before ensures pr in m' <==> pr in pick {
      OnlyPicksAreFilled(db, m, Noticed(db, m), pick, pr);
    }
    PickLeaves(pick, before, after);
  }

  lemma OverlookedAre(db: Db, m: Matches, pairs: set<Pair>)
    requires Referenced(db, m) && forall pr :: pr in pairs <==> Overlooked(db, m, pr)
    ensures pairs == Missing(db, Recomputed(db, m, Noticed(db, m)))
  {
    hide *;
    forall pr ensures pr in pairs <==> pr in Missing(db, Recomputed(db, m, Noticed(db, m))) {
      OverlookedIsMissing(db, m, pr);
    }
  }

  lemma PickOf(db: Db, m: Matches, m': Matches) returns (pick: set<Pair>)
    requires Pass(db, m, m')
    ensures var missing := Missing(db, Recomputed(db, m, Noticed(db, m)));
      Picked(pick, missing) && pick <= missing && pick <= AllPairs(db) &&
      m' == Recomputed(db, m, Noticed(db, m) + pick)
  {
    pick :| Picked(pick, Missing(db, Recomputed(db, m, Noticed(db, m)))) &&
            m' == Recomputed(db, m, Noticed(db, m) + pick);
  }

  lemma PickLeaves(pick: set<Pair>, before: set<Pair>, after: set<Pair>)
    requires Picked(pick, before) && pick <= before
    requires forall pr :: pr in after <==> pr in before && pr !in pick
    ensures if |before| <= 5000 then after == {} else |after| == |before| - 5000
  {
    assert after == before - pick;
    PickCounts(pick, before);
  }

  /** The full recompute has a row for every job and every profile, with their hashes and score. */
  lemma FullTableMeans(db: Db, j: Id, p: Id)
    ensures Pair(j, p) in FullTable(db) <==> j in db.jobs && p in db.profiles
    ensures Pair(j, p) in FullTable(db) ==>
      FullTable(db)[Pair(j, p)] ==
        Match(db.jobs[j].hash, db.profiles[p].hash, db.score(db.jobs[j], db.profiles[p]))
  {}

  /** A table with all pairs and only recomputed rows is the full recompute. */
  lemma FullTableIff(db: Db, m: Matches)
    requires Referenced(db, m)
    ensures m == FullTable(db) <==> Missing(db, m) == {} && forall pr :: pr in m ==> m[pr] == FreshRow(db, pr)
  {
    if Missing(db, m) == {} {
      forall pr | pr in AllPairs(db) ensures pr in m {
        assert pr !in Missing(db, m);
      }
    }
  }

  /**
   * One pass reaches the full recompute if and only if at most 5000 pairs were left for
   * reconciliation and every row with current hashes already had the score of the full
   * recompute.
   */
  lemma PassReachesFullIff(db: Db, m: Matches, m': Matches)
    requires Referenced(db, m) && Pass(db, m, m')
    ensures m' == FullTable(db) <==>
      |Missing(db, Recomputed(db, m, Noticed(db, m)))| <= LIMIT &&
      forall pr :: pr in m && !Outdated(db, m, pr) ==> m[pr].score == FreshRow(db, pr).score
  {
    PassCutsMissing(db, m, m');
    PassLeavesNoStaleRow(db, m, m');
    FullTableIff(db, m');
    forall pr ensures (pr in m' ==> m'[pr] == FreshRow(db, pr)) <==>
      (pr in m && !Outdated(db, m, pr) ==> m[pr].score == FreshRow(db, pr).score)
    {
      PassAt(db, m, m', pr);
    }
  }

  /** The tables after the first, second, .. of repeated passes over an unchanged database. */
  ghost predicate Passes(db: Db, m: Matches, later: seq<Matches>)
    decreases |later|
  {
    later == [] || (Pass(db, m, later[0]) && Passes(db, later[0], later[1..]))
  }

  ghost function Last(m: Matches, later: seq<Matches>): Matches
    decreases |later|
  {
    if later == [] then m else Last(later[0], later[1..])
  }

  lemma {:induction false} PassesCutMissing(db: Db, m: Matches, later: seq<Matches>)
    requires Passes(db, m, later) && Referenced(db, m) && |Missing(db, m)| <= LIMIT * |later|
    ensures Referenced(db, Last(m, later)) && |Missing(db, Last(m, later))| == 0
    ensures later != [] ==> Stale(db, Last(m, later)) == {}
    decreases |later|
  {
    if later != [] {
      PassLeavesNoStaleRow(db, m, later[0]);
      PassCutsMissing(db, m, later[0]);
      PassesCutMissing(db, later[0], later[1..]);
    }
  }

  /** The score of a pair depends on the two hashed contents only. */
  ghost predicate ScoredByHashes(db: Db, g: (Digest, Digest) -> int) {
    forall pr :: pr in AllPairs(db) ==>
      db.score(db.jobs[pr.job], db.profiles[pr.profile]) == g(db.jobs[pr.job].hash, db.profiles[pr.profile].hash)
  }

  ghost predicate RowsScoredBy(m: Matches, g: (Digest, Digest) -> int) {
    forall pr :: pr in m ==> m[pr].score == g(m[pr].jobHash, m[pr].profileHash)
  }

  lemma {:induction false} CurrentRowsAreFrozen(db: Db, m: Matches, later: seq<Matches>, pr: Pair)
    requires Passes(db, m, later) && Referenced(db, m) && pr in m && pr in AllPairs(db) && !Outdated(db, m, pr)
    ensures pr in Last(m, later) && Last(m, later)[pr] == m[pr]
    decreases |later|
  {
    if later != [] {
      PassLeavesNoStaleRow(db, m, later[0]);
      PassAt(db, m, later[0], pr);
      CurrentRowsAreFrozen(db, later[0], later[1..], pr);
    }
  }

  /** Every row with current hashes has the score of the full recompute. */
  ghost predicate CurrentRowsFresh(db: Db, m: Matches) {
    forall pr :: pr in m && pr in AllPairs(db) && !Outdated(db, m, pr) ==> m[pr] == FreshRow(db, pr)
  }

  lemma {:induction false} FreshRowsStay(db: Db, m: Matches, later: seq<Matches>)
    requires Passes(db, m, later) && Referenced(db, m) && CurrentRowsFresh(db, m)
    ensures CurrentRowsFresh(db, Last(m, later))
    decreases |later|
  {
    if later != [] {
      PassLeavesNoStaleRow(db, m, later[0]);
      forall pr | pr in later[0] ensures later[0][pr] == FreshRow(db, pr) {
        PassAt(db, m, later[0], pr);
      }
      FreshRowsStay(db, later[0], later[1..]);
    }
  }

  /**
   * Enough repeated passes, at least one and one per 5000 missing pairs, reach the table of
   * recomputing every pair if and only if every row with current hashes already had its score.
   */
  lemma RepeatedPassesReachFullIff(db: Db, m: Matches, later: seq<Matches>)
    requires Passes(db, m, later) && Referenced(db, m) && later != [] && |Missing(db, m)| <= LIMIT * |later|
    ensures Last(m, later) == FullTable(db) <==> CurrentRowsFresh(db, m)
  {
    var last := Last(m, later);
    PassesCutMissing(db, m, later);
    FullTableIff(db, last);
    if CurrentRowsFresh(db, m) {
      FreshRowsStay(db, m, later);
      forall pr | pr in last ensures last[pr] == FreshRow(db, pr) {
        assert pr in AllPairs(db) && pr !in Stale(db, last);
      }
    }
    if last == FullTable(db) {
      forall pr | pr in m && pr in AllPairs(db) && !Outdated(db, m, pr) ensures m[pr] == FreshRow(db, pr) {
        CurrentRowsAreFrozen(db, m, later, pr);
      }
    }
  }

  /** In particular when scores, old ones included, are a function of the two hashed contents. */
  lemma RepeatedPassesConverge(db: Db, m: Matches, later: seq<Matches>, g: (Digest, Digest) -> int)
    requires Passes(db, m, later) && Referenced(db, m) && ScoredByHashes(db, g) && RowsScoredBy(m, g)
    requires later != [] && |Missing(db, m)| <= LIMIT * |later|
    ensures Last(m, later) == FullTable(db)
  {
    RepeatedPassesReachFullIff(db, m, later);
  }

  /** The job's embedding arrives; its content, hence its hash, stays. */
  ghost function Embed(db: Db, id: Id, v: Vec): Db
    requires id in db.jobs
  {
    db.(jobs := db.jobs[id := db.jobs[id].(embedding := Some(v))])
  }

  lemma EmbedKeepsHashes(db: Db, id: Id, v: Vec, m: Matches, pr: Pair)
    requires id in db.jobs && Referenced(db, m) && pr in m
    ensures AllPairs(Embed(db, id, v)) == AllPairs(db) && pr in AllPairs(db)
    ensures Outdated(Embed(db, id, v), m, pr) == Outdated(db, m, pr)
  {
    assert Embed(db, id, v).jobs.Keys == db.jobs.Keys;
  }

  /**
   * The score also reads the job's embedding, which the hash does not cover. A pair scored
   * before the embedding was written keeps that score through any number of later passes.
   */
  lemma LateEmbeddingIsNeverScored(db: Db, v: Vec, m: Matches, m': Matches, later: seq<Matches>, pr: Pair)
    requires Referenced(db, m) && Pass(db, m, m') && pr in m' && pr in AllPairs(db)
    requires Passes(Embed(db, pr.job, v), m', later)
    ensures pr in Last(m', later) && Last(m', later)[pr] == m'[pr]
    ensures pr in AllPairs(Embed(db, pr.job, v))
    ensures FreshRow(Embed(db, pr.job, v), pr).score != m'[pr].score ==>
      Last(m', later) != FullTable(Embed(db, pr.job, v))
  {
    var after := Embed(db, pr.job, v);
    PassLeavesNoStaleRow(db, m, m');
    assert pr !in Stale(db, m');
    EmbedKeepsHashes(db, pr.job, v, m', pr);
    CurrentRowsAreFrozen(after, m', later, pr);
    if Last(m', later) == FullTable(after) {
      assert Last(m', later)[pr] == FreshRow(after, pr);
    }
  }
}
