/** The match pass with its real scorer (src/services/match_score.rs). */
module MatchScoring {
  import opened Prelude
  import opened JsonValue
  import opened VectorMath
  import opened Jobs
  import opened MatchTable
  import Scoring
  import opened ScoringLaws

  /** The configuration and the outside services a score depends on. */
  datatype Rules = Rules(config: Scoring.Config, jaro: Scoring.Similarity, sqrt: real -> real,
                         embedProfile: Json -> Option<Vec>, embedJob: Json -> Option<Vec>)

  /** A profile is scored as the document {"metadata": ..}; its embedding is asked for anew each time. */
  function ProfileSide(rules: Rules, metadata: Option<Json>): Scoring.Subject {
    if metadata.None? then Scoring.Subject(None, None)
    else
      var document := Obj(map["metadata" := metadata.value]);
      Scoring.Subject(rules.embedProfile(document), Some(document))
  }

  /** compute_match_score_empeding: the job's embedding is the one in its row. */
  function PairScore(rules: Rules, j: Job, p: Profile): int {
    Scoring.StoredScore(rules.config, rules.jaro, rules.sqrt, ProfileSide(rules, p.metadata),
                        Scoring.Subject(j.embedding, j.content))
  }

  function ScoreOf(rules: Rules): (Job, Profile) -> int {
    (j: Job, p: Profile) => PairScore(rules, j, p)
  }

  function DbOf(rules: Rules, jobs: map<Id, Job>, profiles: map<Id, Profile>): Db {
    Db(jobs, profiles, ScoreOf(rules))
  }

  // ----------------------------------------------------- what the score of a pair is

  /** The document a profile is scored as. */
  ghost function Wrapped(metadata: Json): Json {
    Obj(map["metadata" := metadata])
  }

  /** A configured profile path finds in that document what its rest finds in the metadata. */
  lemma ProfilePathsReadMetadata(metadata: Json, path: string)
    requires path == "" || path[0] == '/'
    ensures Pointer(Wrapped(metadata), "/metadata" + path) == Pointer(metadata, path)
  {
    assert "/" + "metadata" == "/metadata";
    PointerIntoObject(map["metadata" := metadata], "metadata", path);
    hide Pointer;
  }

  /** Everything there: the integer nearest to ten times the final score of the two documents. */
  lemma PairScoreMeans(rules: Rules, j: Job, p: Profile, metadata: Json, content: Json, profileEmb: Vec, jobEmb: Vec)
    requires p.metadata == Some(metadata) && j.content == Some(content) && j.embedding == Some(jobEmb)
    requires rules.embedProfile(Wrapped(metadata)) == Some(profileEmb)
    ensures var judge := Scoring.JudgeOf(rules.jaro, Wrapped(metadata), content);
      var score := Scoring.FinalScore(rules.config, TrueCosine(rules.sqrt, profileEmb, jobEmb), judge);
      PairScore(rules, j, p) as real - 0.5 <= score * 10.0 < PairScore(rules, j, p) as real + 0.5
  {
    hide Scoring.FinalScore;
    hide TrueCosine;
  }

  /** Anything missing: 0. */
  lemma MissingScoresZero(rules: Rules, j: Job, p: Profile)
    requires p.metadata == None || rules.embedProfile(Wrapped(p.metadata.value)) == None ||
      j.content == None || j.embedding == None
    ensures PairScore(rules, j, p) == 0
  {}

  // The first field of config/match_score.json.
  const ROLE := Scoring.Field("role", "/metadata/role", "/tags/role", None, None, Scoring.Embed, 0.6, None)

  function RoleRules(jaro: Scoring.Similarity, sqrt: real -> real): Rules {
    Rules(Scoring.Config([ROLE], true), jaro, sqrt, (doc: Json) => Some([1.0]), (doc: Json) => Some([1.0]))
  }

  function Answers(role: string): Json {
    Obj(map["role" := Str(role)])
  }

  function Offers(role: string): Json {
    Obj(map["tags" := Answers(role)])
  }

  lemma RolesFound(answer: string, wanted: string)
    ensures Pointer(Wrapped(Answers(answer)), ROLE.profilePath) == Some(Str(answer))
    ensures Pointer(Offers(wanted), ROLE.jobPath) == Some(Str(wanted))
  {
    hide Pointer;
    assert "/metadata" + "/role" == ROLE.profilePath && "/" + "tags" + "/role" == ROLE.jobPath;
    RoleMember(answer);
    RoleMember(wanted);
    ProfilePathsReadMetadata(Answers(answer), "/role");
    PointerIntoObject(Offers(wanted).fields, "tags", "/role");
  }

  lemma RoleMember(role: string)
    ensures Pointer(Answers(role), "/role") == Some(Str(role))
  {
    hide Pointer;
    assert "/" + "role" == "/role";
    PlainPointer(Answers(role), "role");
  }

  lemma RoleScore(judge: Scoring.Judge)
    ensures judge(ROLE).Mismatch? ==> Scoring.FinalScore(Scoring.Config([ROLE], true), 1.0, judge) == 0.6
    ensures judge(ROLE).Neutral? ==> Scoring.FinalScore(Scoring.Config([ROLE], true), 1.0, judge) == 1.0
  {
    var fields := [ROLE];
    assert fields[1..] == [];
    assert Scoring.Mismatches(judge, fields) == if judge(ROLE).Mismatch? then 1 else 0;
    Scoring.TimesAssociates(Scoring.Factor(ROLE, judge(ROLE)), 1.0, 1.0);
    assert Scoring.Product(judge, fields) == Scoring.Factor(ROLE, judge(ROLE));
  }

  /** With the rules on and equal embeddings: a similar role scores 10, a different one 6. */
  lemma RoleExample(jaro: Scoring.Similarity, sqrt: real -> real, answer: string, wanted: string, j: Job, p: Profile)
    requires IsSqrt(sqrt) && answer != "" && wanted != ""
    requires p.metadata == Some(Answers(answer)) && j.content == Some(Offers(wanted)) && j.embedding == Some([1.0])
    ensures PairScore(RoleRules(jaro, sqrt), j, p) == if jaro(answer, wanted) < 0.8 then 6 else 10
  {
    var rules := RoleRules(jaro, sqrt);
    var judge := Scoring.JudgeOf(jaro, Wrapped(Answers(answer)), Offers(wanted));
    UnitNorm(sqrt);
    RolesFound(answer, wanted);
    TextsMismatchIff(ROLE, jaro, Wrapped(Answers(answer)), Offers(wanted), answer, wanted);
    RoleScore(judge);
    PairScoreMeans(rules, j, p, Answers(answer), Offers(wanted), [1.0], [1.0]);
    hide *;
  }

  /** Every row the pass writes satisfies the range check of its column. */
  lemma WrittenScoresFit(rules: Rules, jobs: map<Id, Job>, profiles: map<Id, Profile>, m: Matches, m': Matches,
                         pr: Pair)
    requires var db := DbOf(rules, jobs, profiles); Referenced(db, m) && Pass(db, m, m')
    requires pr in m ==> 0 <= m[pr].score <= 10
    ensures pr in m' ==> 0 <= m'[pr].score <= 10
  {
    var db := DbOf(rules, jobs, profiles);
    PassAt(db, m, m', pr);
    if pr in m' {
      var j, p := jobs[pr.job], profiles[pr.profile];
      Scoring.StoredScoreRange(rules.config, rules.jaro, rules.sqrt, ProfileSide(rules, p.metadata),
                               Scoring.Subject(j.embedding, j.content));
    }
  }

  /** Rows are hashed and embedded from their content; a profile's hash determines its metadata. */
  ghost predicate HashedAndEmbedded(rules: Rules, jobs: map<Id, Job>, profiles: map<Id, Profile>,
                                    read: Digest -> Json) {
    (forall id :: id in jobs ==>
      jobs[id].content.Some? && jobs[id].hash == Sha256(jobs[id].content.value) &&
      jobs[id].embedding == rules.embedJob(jobs[id].content.value)) &&
    (forall id :: id in profiles ==> profiles[id].metadata == Some(read(profiles[id].hash)))
  }

  /** The score as a function of the two hashes. */
  function HashScore(rules: Rules, read: Digest -> Json): (Digest, Digest) -> int {
    (jobHash: Digest, profileHash: Digest) =>
      Scoring.StoredScore(rules.config, rules.jaro, rules.sqrt, ProfileSide(rules, Some(read(profileHash))),
                          Scoring.Subject(rules.embedJob(jobHash.preimage), Some(jobHash.preimage)))
  }

  /**
   * Once every job is embedded from its current content, repeated passes over a table whose
   * rows were scored like that reach the full recompute, in one pass per 5000 missing pairs.
   */
  lemma EmbeddedJobsConverge(rules: Rules, jobs: map<Id, Job>, profiles: map<Id, Profile>, read: Digest -> Json,
                             m: Matches, later: seq<Matches>)
    requires HashedAndEmbedded(rules, jobs, profiles, read)
    requires var db := DbOf(rules, jobs, profiles);
      Referenced(db, m) && Passes(db, m, later) && later != [] && |Missing(db, m)| <= LIMIT * |later|
    requires RowsScoredBy(m, HashScore(rules, read))
    ensures Last(m, later) == FullTable(DbOf(rules, jobs, profiles))
  {
    var db := DbOf(rules, jobs, profiles);
    assert ScoredByHashes(db, HashScore(rules, read)) by { HashesDecideScores(rules, jobs, profiles, read); }
    RepeatedPassesConverge(db, m, later, HashScore(rules, read));
  }

  lemma HashesDecideScores(rules: Rules, jobs: map<Id, Job>, profiles: map<Id, Profile>, read: Digest -> Json)
    requires HashedAndEmbedded(rules, jobs, profiles, read)
    ensures ScoredByHashes(DbOf(rules, jobs, profiles), HashScore(rules, read))
  {
    hide Scoring.StoredScore;
  }

  /** A job and a profile whose embeddings are the same unit vector, under rules without business logic. */
  function ExampleRules(jaro: Scoring.Similarity, sqrt: real -> real): Rules {
    Rules(Scoring.Config([], false), jaro, sqrt, (doc: Json) => Some([1.0]), (doc: Json) => Some([1.0]))
  }

  function ExampleJobs(item: Json, embedding: Option<Vec>): map<Id, Job> {
    map["job" := Job(Sha256(item), Some(item), embedding)]
  }

  function ExampleProfiles(metadata: Json): map<Id, Profile> {
    map["profile" := Profile(Sha256(metadata), Some(metadata))]
  }

  lemma UnitNorm(sqrt: real -> real)
    requires IsSqrt(sqrt)
    ensures TrueCosine(sqrt, [1.0], [1.0]) == 1.0
  {
    var v: Vec := [1.0];
    assert v[1..] == [];
    assert Dot([1.0], [1.0]) == 1.0;
    var s := sqrt(1.0);
    assert s >= 0.0 && s * s == 1.0;
    if s < 1.0 {
      SquareGrows(s, 1.0);
    }
    if s > 1.0 {
      SquareGrows(1.0, s);
    }
  }

  /**
   * The failing case with the real scorer: the first pass stores 0 because the job has no
   * embedding yet; with the embedding the pair scores 10, and no later pass writes that.
   */
  lemma LateEmbeddingKeepsZero(jaro: Scoring.Similarity, sqrt: real -> real, item: Json, metadata: Json,
                               later: seq<Matches>)
    requires IsSqrt(sqrt)
    requires var rules := ExampleRules(jaro, sqrt);
      var before := DbOf(rules, ExampleJobs(item, None), ExampleProfiles(metadata));
      var after := DbOf(rules, ExampleJobs(item, rules.embedJob(item)), ExampleProfiles(metadata));
      Passes(after, FullTable(before), later)
    ensures var rules := ExampleRules(jaro, sqrt);
      var before := DbOf(rules, ExampleJobs(item, None), ExampleProfiles(metadata));
      var after := DbOf(rules, ExampleJobs(item, rules.embedJob(item)), ExampleProfiles(metadata));
      var pr := Pair("job", "profile");
      pr in FullTable(before) && FullTable(before)[pr].score == 0 && FullTable(after)[pr].score == 10 &&
      pr in Last(FullTable(before), later) && Last(FullTable(before), later)[pr].score == 0 &&
      Last(FullTable(before), later) != FullTable(after)
    ensures Pass(DbOf(ExampleRules(jaro, sqrt), ExampleJobs(item, None), ExampleProfiles(metadata)), map[],
                 FullTable(DbOf(ExampleRules(jaro, sqrt), ExampleJobs(item, None), ExampleProfiles(metadata))))
  {
    var rules := ExampleRules(jaro, sqrt);
    var before := DbOf(rules, ExampleJobs(item, None), ExampleProfiles(metadata));
    var after := DbOf(rules, ExampleJobs(item, rules.embedJob(item)), ExampleProfiles(metadata));
    var pr := Pair("job", "profile");
    UnitNorm(sqrt);
    assert pr in AllPairs(before) && pr in AllPairs(after);
    ScoresOfExample(jaro, sqrt, item, metadata);
    CurrentRowsAreFrozen(after, FullTable(before), later, pr);
    FirstPass(before);
  }

  lemma ScoresOfExample(jaro: Scoring.Similarity, sqrt: real -> real, item: Json, metadata: Json)
    requires IsSqrt(sqrt)
    ensures var rules := ExampleRules(jaro, sqrt);
      var p := ExampleProfiles(metadata)["profile"];
      ScoreOf(rules)(ExampleJobs(item, None)["job"], p) == 0 &&
      ScoreOf(rules)(ExampleJobs(item, rules.embedJob(item))["job"], p) == 10
  {
    UnitNorm(sqrt);
    var rules, v: Vec := ExampleRules(jaro, sqrt), [1.0];
    var p := ExampleProfiles(metadata)["profile"];
    var without, embedded := ExampleJobs(item, None)["job"], ExampleJobs(item, rules.embedJob(item))["job"];
    assert rules.embedJob(item) == Some(v) && rules.embedProfile(Obj(map["metadata" := metadata])) == Some(v);
    assert ProfileSide(rules, p.metadata).embedding == Some(v);
    assert TrueCosine(sqrt, v, v) == 1.0 && Scoring.Rounded(1.0) == 10;
    assert ScoreOf(rules)(without, p) == PairScore(rules, without, p) == 0;
    var judge := Scoring.JudgeOf(jaro, Obj(map["metadata" := metadata]), item);
    assert Scoring.FinalScore(rules.config, 1.0, judge) == 1.0;
    assert PairScore(rules, embedded, p) ==
      Scoring.Rounded(Scoring.FinalScore(rules.config, TrueCosine(sqrt, v, v), judge));
    assert ScoreOf(rules)(embedded, p) == PairScore(rules, embedded, p);
  }

  /** The first pass over an empty table scores every pair. */
  lemma FirstPass(db: Db)
    ensures Pass(db, map[], FullTable(db))
  {
    var none: Matches := map[];
    NoticedFromScratch(db);
    var noticed := Noticed(db, none);
    hide Noticed;
    assert Recomputed(db, none, noticed).Keys == noticed;
    assert Missing(db, Recomputed(db, none, noticed)) == {};
    assert noticed + {} == noticed;
    assert FullTable(db) == Recomputed(db, none, noticed);
    assert Picked({}, {});
  }

  lemma NoticedFromScratch(db: Db)
    ensures Noticed(db, map[]) == AllPairs(db)
  {
    forall pr | pr in AllPairs(db) ensures pr in Noticed(db, map[]) {
      assert pr.job in NewJobs(db, map[]);
    }
  }
}
