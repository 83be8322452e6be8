/** handle_top_results (src/services/search.rs): the nearest jobs by vector, reranked by match score. */
module TopResults {
  import opened Prelude
  import opened JsonValue
  import opened VectorMath
  import opened Jobs
  import opened FaissIndex
  import VectorStore
  import opened Scoring
  import opened ScoringLaws
  import opened Ranking

  datatype Reply = Reply(job: JobKey, score: int)

  datatype Scorer = Scorer(config: Config, jaro: Similarity, sqrt: real -> real, profile: Subject)

  /** compute_match_score_from_input for a stored job. */
  function ReplyFor(scorer: Scorer, t: Table, job: JobKey): Reply
    requires job in t
  {
    Reply(job, StoredScore(scorer.config, scorer.jaro, scorer.sqrt, scorer.profile,
                           Subject(t[job].embedding, t[job].content)))
  }

  /** The found jobs that still have a row, in the order of the hits. */
  function Replies(scorer: Scorer, t: Table, found: seq<(JobKey, real)>): seq<Reply> {
    if found == [] then []
    else (if found[0].0 in t then [ReplyFor(scorer, t, found[0].0)] else []) + Replies(scorer, t, found[1..])
  }

  function Score(r: Reply): int {
    r.score
  }

  method Rerank(scorer: Scorer, t: Table, found: seq<(JobKey, real)>) returns (results: seq<Reply>)
    ensures results == SortDesc(Replies(scorer, t, found), Score)
  {
    hide ReplyFor;
    results := [];
    for i := 0 to |found|
      invariant results + Replies(scorer, t, found[i..]) == Replies(scorer, t, found)
    {
      assert found[i..][0] == found[i] && found[i..][1..] == found[i + 1..];
      ghost var before, rest := results, Replies(scorer, t, found[i + 1..]);
      if found[i].0 in t {
        results := results + [ReplyFor(scorer, t, found[i].0)];
        assert before + ([ReplyFor(scorer, t, found[i].0)] + rest) == results + rest;
      } else {
        assert [] + rest == rest;
      }
    }
    assert results + [] == results;
    results := SortDesc(results, Score);
  }

  lemma {:induction false} NoHitIsLost(scorer: Scorer, t: Table, found: seq<(JobKey, real)>)
    requires forall i :: 0 <= i < |found| ==> found[i].0 in t
    ensures |Replies(scorer, t, found)| == |found|
    ensures forall i :: 0 <= i < |found| ==> Replies(scorer, t, found)[i] == ReplyFor(scorer, t, found[i].0)
  {
    hide ReplyFor;
    if found != [] {
      NoHitIsLost(scorer, t, found[1..]);
      forall i | 0 <= i < |found| ensures Replies(scorer, t, found)[i] == ReplyFor(scorer, t, found[i].0) {
        if i > 0 {
          assert found[i] == found[1..][i - 1];
        }
      }
    }
  }

  lemma {:induction false} RepliesInRange(scorer: Scorer, t: Table, found: seq<(JobKey, real)>)
    ensures forall r :: r in Replies(scorer, t, found) ==> 0 <= r.score <= 10
  {
    hide StoredScore;
    if found != [] {
      RepliesInRange(scorer, t, found[1..]);
      if found[0].0 in t {
        var row := t[found[0].0];
        StoredScoreRange(scorer.config, scorer.jaro, scorer.sqrt, scorer.profile, Subject(row.embedding, row.content));
      }
    }
  }

  /** A reply names its job and has the score of the profile for the content and the embedding of the job's row. */
  lemma ReplyMeans(scorer: Scorer, t: Table, job: JobKey, mine: Vec, profile: Json, its: Vec, content: Json)
    requires job in t && t[job].embedding == Some(its) && t[job].content == Some(content)
    requires scorer.profile == Subject(Some(mine), Some(profile))
    ensures var reply := ReplyFor(scorer, t, job);
      var score := FinalScore(scorer.config, TrueCosine(scorer.sqrt, mine, its),
                              JudgeOf(scorer.jaro, profile, content));
      reply.job == job && reply.score as real - 0.5 <= score * 10.0 < reply.score as real + 0.5
  {
    StoredScoreMeans(scorer.config, scorer.jaro, scorer.sqrt, mine, profile, its, content);
    hide StoredScore;
    hide FinalScore;
    hide TrueCosine;
  }

  /** The hits come from the table, in the order found. */
  lemma HitsFollow(env: VectorStore.Env, s: VectorStore.Sys, scorer: Scorer, query: Vec, k: nat,
                   found: seq<(JobKey, real)>)
    requires IsSqrt(env.sqrt) && VectorStore.Coherent(env, s)
    requires BestMatches(s.indexed, Normalized(env.sqrt, query), k, found)
    ensures var hits := Replies(scorer, s.table, found);
      |hits| == |found| <= k &&
      (forall i :: 0 <= i < |hits| ==> hits[i].job == found[i].0 && Active(s.table, hits[i].job)) &&
      (forall i, j :: 0 <= i < j < |hits| ==> hits[i].job != hits[j].job && found[i].1 >= found[j].1)
  {
    VectorStore.SearchRanksByCosine(env, s, query, k, found);
    hide StoredScore;
    hide Dot;
    hide Normalized;
    NoHitIsLost(scorer, s.table, found);
  }

  predicate Active(t: Table, job: JobKey) {
    job in t && t[job].active
  }

  lemma SameLength<T>(a: seq<T>, b: seq<T>)
    requires multiset(a) == multiset(b)
    ensures |a| == |b|
  {
    assert |multiset(a)| == |a| && |multiset(b)| == |b|;
  }

  /**
   * From a coherent store the reply lists the found jobs and no others: at most k different,
   * active jobs, by falling match score in 0 .. 10, and jobs of equal match score by falling
   * cosine, which is the order of the hits.
   */
  lemma RerankingKeepsTheHits(env: VectorStore.Env, s: VectorStore.Sys, scorer: Scorer, query: Vec, k: nat,
                              found: seq<(JobKey, real)>)
    requires IsSqrt(env.sqrt) && VectorStore.Coherent(env, s)
    requires BestMatches(s.indexed, Normalized(env.sqrt, query), k, found)
    ensures var hits := Replies(scorer, s.table, found);
      var results := SortDesc(hits, Score);
      |results| == |found| <= k && multiset(results) == multiset(hits) && Descending(results, Score) &&
      (forall n :: WithScore(results, Score, n) == WithScore(hits, Score, n)) &&
      (forall i :: 0 <= i < |hits| ==>
        hits[i].job == found[i].0 && Active(s.table, hits[i].job) && 0 <= hits[i].score <= 10) &&
      (forall i, j :: 0 <= i < j < |hits| ==> hits[i].job != hits[j].job && found[i].1 >= found[j].1)
  {
    HitsFollow(env, s, scorer, query, k, found);
    RepliesInRange(scorer, s.table, found);
    var hits := Replies(scorer, s.table, found);
    SortDescSorts(hits, Score);
    SameLength(SortDesc(hits, Score), hits);
    hide Replies;
    hide SortDesc;
    hide BestMatches;
    hide VectorStore.Coherent;
    assert forall i :: 0 <= i < |hits| ==> hits[i] in hits;
  }
}
