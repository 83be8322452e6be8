/**
 * What a score means, said on the texts and numbers found in the two documents
 * (src/utils/empeding.rs): when a field mismatches, what it multiplies into the score, and what
 * the number of mismatches does to it.
 */
module ScoringLaws {
  import opened Prelude
  import opened JsonValue
  import opened VectorMath
  import opened Scoring

  ghost predicate HasText(doc: Json, path: string, text: string) {
    Pointer(doc, path) == Some(Str(text)) && text != ""
  }

  ghost predicate HasNumber(doc: Json, path: string, n: real) {
    Pointer(doc, path) == Some(Num(n))
  }

  /** Nothing there, or null. */
  ghost predicate HasNothing(doc: Json, path: string) {
    Pointer(doc, path) == None || Pointer(doc, path) == Some(Null)
  }

  /** The job asks for something and the profile does not say. */
  ghost predicate LeftOpen(f: Field, profile: Json, job: Json) {
    Pointer(job, f.jobPath).Some? && HasNothing(profile, f.profilePath)
  }

  /** The texts that are compared: those of a role or an industry, when both are there. */
  ghost predicate ComparesTexts(f: Field, profile: Json, job: Json, answer: string, wanted: string) {
    f.mode.Embed? && (f.name == "role" || f.name == "industry") &&
    HasText(profile, f.profilePath, answer) && HasText(job, f.jobPath, wanted)
  }

  /** The numbers that are compared: the answer, the least and the greatest wanted one. */
  ghost predicate ComparesNumbers(f: Field, profile: Json, job: Json, answer: real, least: real, greatest: real) {
    f.mode.Manual? && f.jobPathMin.Some? && f.jobPathMax.Some? && HasNumber(profile, f.profilePath, answer) &&
    HasNumber(job, f.jobPathMin.value, least) && HasNumber(job, f.jobPathMax.value, greatest)
  }

  /** The field mismatches, and multiplies its penalty into the score. */
  ghost predicate Penalised(f: Field, jaro: Similarity, profile: Json, job: Json) {
    var judge := JudgeOf(jaro, profile, job);
    judge(f).Mismatch? && Factor(f, judge(f)) == f.penalty
  }

  /** The field does not mismatch, and multiplies this into the score. */
  ghost predicate Weighs(f: Field, jaro: Similarity, profile: Json, job: Json, factor: real) {
    var judge := JudgeOf(jaro, profile, job);
    !judge(f).Mismatch? && Factor(f, judge(f)) == factor
  }

  /** Two texts mismatch if and only if their similarity is below 0.8. */
  lemma TextsMismatchIff(f: Field, jaro: Similarity, profile: Json, job: Json, answer: string, wanted: string)
    requires ComparesTexts(f, profile, job, answer, wanted)
    ensures jaro(answer, wanted) < 0.8 <==> Penalised(f, jaro, profile, job)
    ensures jaro(answer, wanted) >= 0.8 <==> Weighs(f, jaro, profile, job, 1.0)
  {
    hide Pointer;
  }

  /** A number below the least or above the greatest is penalised; from the one to the other it earns the bonus. */
  lemma NumbersMismatchIff(f: Field, jaro: Similarity, profile: Json, job: Json, answer: real, least: real,
                           greatest: real)
    requires ComparesNumbers(f, profile, job, answer, least, greatest)
    ensures answer < least || answer > greatest <==> Penalised(f, jaro, profile, job)
    ensures least <= answer <= greatest <==>
      Weighs(f, jaro, profile, job, if f.bonus.Some? then f.bonus.value else 1.0)
  {
    hide Pointer;
  }

  lemma ComparedWhenJudged(f: Field, jaro: Similarity, profile: Json, job: Json)
    ensures Dissimilar(jaro, f, Look(f, profile, job)) ==>
      exists answer, wanted :: ComparesTexts(f, profile, job, answer, wanted)
    ensures Ranged(f, Look(f, profile, job)) ==>
      exists answer, least, greatest :: ComparesNumbers(f, profile, job, answer, least, greatest)
  {
    hide Pointer;
    var v := Look(f, profile, job);
    if Dissimilar(jaro, f, v) {
      assert ComparesTexts(f, profile, job, TextOf(v.profile), TextOf(v.job));
    }
    if Ranged(f, v) {
      assert ComparesNumbers(f, profile, job, NumberOf(v.profile).value, NumberOf(v.min).value, NumberOf(v.max).value);
    }
  }

  /** Where nothing is compared the similarity is never asked: only what is left open counts. */
  lemma OtherwiseOnlyGapsCount(f: Field, jaro: Similarity, profile: Json, job: Json)
    requires forall answer, wanted :: !ComparesTexts(f, profile, job, answer, wanted)
    requires forall answer, least, greatest :: !ComparesNumbers(f, profile, job, answer, least, greatest)
    ensures LeftOpen(f, profile, job) <==> Penalised(f, jaro, profile, job)
    ensures !LeftOpen(f, profile, job) <==> Weighs(f, jaro, profile, job, 1.0)
  {
    ComparedWhenJudged(f, jaro, profile, job);
    hide Pointer;
    hide Dissimilar;
    hide Ranged;
  }

  // ------------------------------------------------------------- the whole score

  /** The fields that mismatch, by their index. */
  ghost function Mismatching(judge: Judge, fields: seq<Field>): set<nat> {
    set i: nat | i < |fields| && judge(fields[i]).Mismatch?
  }

  lemma LastField(judge: Judge, fields: seq<Field>, last: nat)
    requires |fields| == last + 1
    ensures Mismatches(judge, fields) ==
      (if judge(fields[last]).Mismatch? then 1 else 0) + Mismatches(judge, fields[..last])
  {
    TakeOut(judge, fields, last);
    assert fields[..last] + fields[last + 1..] == fields[..last];
    hide Mismatches;
    hide Product;
  }

  lemma {:induction false} MismatchesCount(judge: Judge, fields: seq<Field>)
    ensures Mismatches(judge, fields) == |Mismatching(judge, fields)|
  {
    if |fields| > 0 {
      var last := |fields| - 1;
      LastField(judge, fields, last);
      MismatchesCount(judge, fields[..last]);
      hide Mismatches;
      var part := Mismatching(judge, fields[..last]);
      assert Mismatching(judge, fields) == if judge(fields[last]).Mismatch? then part + {last} else part;
    }
  }

  lemma {:induction false} FactorsOfBoth(judge: Judge, a: seq<Field>, b: seq<Field>)
    ensures Product(judge, a + b) == Times(Product(judge, a), Product(judge, b))
  {
    hide Times;
    if |a| == 0 {
      assert a + b == b;
      TimesAssociates(Product(judge, b), 1.0, 1.0);
    } else {
      assert (a + b)[0] == a[0] && (a + b)[1..] == a[1..] + b;
      FactorsOfBoth(judge, a[1..], b);
      TimesAssociates(Factor(a[0], judge(a[0])), Product(judge, a[1..]), Product(judge, b));
    }
  }

  /** Each field multiplies its factor into the product, and two lists of fields multiply theirs. */
  lemma FactorsMultiply(judge: Judge, a: seq<Field>, b: seq<Field>, f: Field)
    ensures Product(judge, a + b) == Product(judge, a) * Product(judge, b)
    ensures Product(judge, [f]) == Factor(f, judge(f)) && Product(judge, []) == 1.0
  {
    FactorsOfBoth(judge, a, b);
    assert [f][1..] == [];
  }

  /**
   * With the rules on: the cosine times the factors of all fields; times 0.85 for two mismatches
   * and 0.7 for more; cut off at 0 and 1.
   */
  lemma FinalScoreMeans(config: Config, cosine: real, judge: Judge, factors: real, mismatching: nat)
    requires config.applyBusinessLogic && factors == Product(judge, config.fields)
    requires mismatching == |Mismatching(judge, config.fields)|
    ensures var score := FinalScore(config, cosine, judge);
      (mismatching <= 1 ==> CutOff(cosine * factors, score)) &&
      (mismatching == 2 ==> CutOff(cosine * factors * 0.85, score)) &&
      (mismatching >= 3 ==> CutOff(cosine * factors * 0.7, score))
  {
    MismatchesCount(judge, config.fields);
    hide Product;
    hide Mismatches;
  }

  ghost predicate CutOff(raw: real, score: real) {
    0.0 <= score <= 1.0 && (raw <= 0.0 ==> score == 0.0) && (raw >= 1.0 ==> score == 1.0) &&
    (0.0 <= raw <= 1.0 ==> score == raw)
  }

  /** With the rules off only the cosine counts. */
  lemma WithoutRules(config: Config, cosine: real, judge: Judge)
    requires !config.applyBusinessLogic
    ensures CutOff(cosine, FinalScore(config, cosine, judge))
  {}

  /** A stored score is the integer nearest to ten times the score; halves go up. */
  lemma RoundedIsNearest(score: real, n: int)
    ensures Rounded(score) == n <==> n as real - 0.5 <= score * 10.0 < n as real + 0.5
  {}

  /** With all four parts the stored score is the integer nearest to ten times the final score. */
  lemma StoredScoreMeans(config: Config, jaro: Similarity, sqrt: real -> real, mine: Vec, profile: Json, its: Vec,
                         job: Json)
    ensures var score := FinalScore(config, TrueCosine(sqrt, mine, its), JudgeOf(jaro, profile, job));
      var stored := StoredScore(config, jaro, sqrt, Subject(Some(mine), Some(profile)), Subject(Some(its), Some(job)));
      stored as real - 0.5 <= score * 10.0 < stored as real + 0.5
  {
    hide FinalScore;
    hide TrueCosine;
  }

  /** Without one of them it is 0. */
  lemma MissingPartScoresZero(config: Config, jaro: Similarity, sqrt: real -> real, profile: Subject, job: Subject)
    requires profile.document == None || profile.embedding == None || job.document == None || job.embedding == None
    ensures StoredScore(config, jaro, sqrt, profile, job) == 0
  {}

  /** Texts that are everywhere judged at least as similar never lower a score. */
  lemma MoreSimilarNeverScoresLower(config: Config, cosine: real, less: Similarity, more: Similarity, profile: Json,
                                    job: Json)
    requires Sane(config) && forall a, b :: less(a, b) <= more(a, b)
    ensures FinalScore(config, cosine, JudgeOf(less, profile, job)) <=
            FinalScore(config, cosine, JudgeOf(more, profile, job))
    ensures Rounded(FinalScore(config, cosine, JudgeOf(less, profile, job))) <=
            Rounded(FinalScore(config, cosine, JudgeOf(more, profile, job)))
  {
    var worse, judge := JudgeOf(less, profile, job), JudgeOf(more, profile, job);
    forall f | f in config.fields ensures worse(f) == judge(f) || worse(f).Mismatch? {
      MoreSimilarJudges(less, more, f, Look(f, profile, job));
    }
    WorseNeverScoresHigher(config, cosine, cosine, worse, judge);
  }

  lemma MoreSimilarJudges(less: Similarity, more: Similarity, f: Field, v: Values)
    requires forall a, b :: less(a, b) <= more(a, b)
    ensures OutcomeOf(less, f, v) == OutcomeOf(more, f, v) || OutcomeOf(less, f, v).Mismatch?
  {
    assert less(TextOf(v.profile), TextOf(v.job)) <= more(TextOf(v.profile), TextOf(v.job));
  }
}
