/**
 * The score of one job for one profile (src/utils/empeding.rs, src/services/match_score.rs):
 * the cosine of the two embeddings, weighted by how the configured fields compare. Scores
 * are reals, so rounding of single precision and NaN are not represented.
 */
module Scoring {
  import opened Prelude
  import opened JsonValue
  import opened VectorMath

  datatype Mode = Embed | Manual

  /** One entry of config/match_score.json; an omitted jobPath is the empty string. */
  datatype Field = Field(name: string, profilePath: string, jobPath: string,
                         jobPathMin: Option<string>, jobPathMax: Option<string>,
                         mode: Mode, penalty: real, bonus: Option<real>)

  datatype Config = Config(fields: seq<Field>, applyBusinessLogic: bool)

  type Similarity = (string, string) -> real

  // ---------------------------------------------------------- how a field compares

  datatype Outcome = Neutral | Mismatch | Bonus

  /** What the two documents hold for a field. */
  datatype Values = Values(profile: Option<Json>, job: Option<Json>, min: Option<Json>, max: Option<Json>)

  function Look(f: Field, profile: Json, job: Json): Values {
    Values(Pointer(profile, f.profilePath), Pointer(job, f.jobPath), At(job, f.jobPathMin), At(job, f.jobPathMax))
  }

  function At(job: Json, path: Option<string>): Option<Json> {
    if path.Some? then Pointer(job, path.value) else None
  }

  function TextOf(v: Option<Json>): string {
    if AsStr(v).Some? then AsStr(v).value else ""
  }

  function NumberOf(v: Option<Json>): Option<real> {
    if v.Some? && v.value.Num? then Some(v.value.n) else None
  }

  predicate Unanswered(v: Option<Json>) {
    v.None? || v.value.Null?
  }

  predicate Dissimilar(jaro: Similarity, f: Field, v: Values) {
    f.mode.Embed? && (f.name == "role" || f.name == "industry") &&
    TextOf(v.profile) != "" && TextOf(v.job) != "" && jaro(TextOf(v.profile), TextOf(v.job)) < 0.8
  }

  /** A manual field whose three numbers are all there. */
  predicate Ranged(f: Field, v: Values) {
    f.mode.Manual? && NumberOf(v.profile).Some? && NumberOf(v.min).Some? && NumberOf(v.max).Some?
  }

  predicate InRange(f: Field, v: Values)
    requires Ranged(f, v)
  {
    NumberOf(v.min).value <= NumberOf(v.profile).value <= NumberOf(v.max).value
  }

  function OutcomeOf(jaro: Similarity, f: Field, v: Values): Outcome {
    if (v.job.Some? && Unanswered(v.profile)) || Dissimilar(jaro, f, v) then Mismatch
    else if !Ranged(f, v) then Neutral
    else if !InRange(f, v) then Mismatch
    else if f.bonus.Some? then Bonus else Neutral
  }

  type Judge = Field -> Outcome

  function JudgeOf(jaro: Similarity, profile: Json, job: Json): Judge {
    f => OutcomeOf(jaro, f, Look(f, profile, job))
  }

  // ------------------------------------------------------------------ closed form

  function Factor(f: Field, o: Outcome): real {
    match o
    case Neutral => 1.0
    case Mismatch => f.penalty
    case Bonus => if f.bonus.Some? then f.bonus.value else 1.0
  }

  /** A product under a name, so that a proof can treat it as a symbol. */
  function Times(x: real, y: real): real {
    x * y
  }

  function Product(judge: Judge, fields: seq<Field>): real {
    if |fields| == 0 then 1.0 else Times(Factor(fields[0], judge(fields[0])), Product(judge, fields[1..]))
  }

  function Mismatches(judge: Judge, fields: seq<Field>): nat {
    if |fields| == 0 then 0 else (if judge(fields[0]).Mismatch? then 1 else 0) + Mismatches(judge, fields[1..])
  }

  function Tier(mismatches: nat): real {
    if mismatches < 2 then 1.0 else if mismatches == 2 then 0.85 else 0.7
  }

  function Clamp(x: real): real {
    if x < 0.0 then 0.0 else if x > 1.0 then 1.0 else x
  }

  function Combined(cosine: real, product: real, tier: real): real {
    Clamp(Times(Times(cosine, product), tier))
  }

  /** clamp(cosine * product * tier), or the clamped cosine when the business rules are off. */
  function FinalScore(config: Config, cosine: real, judge: Judge): real {
    if config.applyBusinessLogic then
      Combined(cosine, Product(judge, config.fields), Tier(Mismatches(judge, config.fields)))
    else
      Clamp(cosine)
  }

  // -------------------------------------------------------------------- the code

  /** The memo table handed from call to call. */
  class SimilarityCache {
    const jaro: Similarity
    var entries: map<(string, string), real>

    ghost predicate Valid()
      reads this
    {
      forall k :: k in entries ==> entries[k] == jaro(k.0, k.1)
    }

    constructor (jaro: Similarity)
      ensures Valid() && this.jaro == jaro && entries == map[]
    {
      this.jaro := jaro;
      entries := map[];
    }

    method CachedJaro(profileText: string, jobText: string) returns (similarity: real)
      requires Valid()
      modifies this
      ensures Valid() && similarity == jaro(profileText, jobText)
      ensures entries == old(entries)[(profileText, jobText) := similarity]
    {
      var key := (profileText, jobText);
      if key in entries {
        assert entries == entries[key := entries[key]];
        return entries[key];
      }
      similarity := jaro(profileText, jobText);
      entries := entries[key := similarity];
    }
  }

  /** The running score of the loop: one factor after the other. */
  function Fold(judge: Judge, fields: seq<Field>, score: real): real
    decreases |fields|
  {
    if |fields| == 0 then score else Fold(judge, fields[1..], Times(score, Factor(fields[0], judge(fields[0]))))
  }

  lemma TimesAssociates(x: real, y: real, z: real)
    ensures Times(Times(x, y), z) == Times(x, Times(y, z))
    ensures Times(x, y) == Times(y, x) && Times(x, 1.0) == x
  {}

  lemma {:induction false} FoldIsProduct(judge: Judge, fields: seq<Field>, score: real)
    ensures Fold(judge, fields, score) == Times(score, Product(judge, fields))
    decreases |fields|
  {
    hide Times;
    if |fields| == 0 {
      TimesAssociates(score, 1.0, 1.0);
    } else {
      var factor := Factor(fields[0], judge(fields[0]));
      FoldIsProduct(judge, fields[1..], Times(score, factor));
      TimesAssociates(score, factor, Product(judge, fields[1..]));
    }
  }

  /** One round of the scoring loop: the field multiplies its factor into the score, once. */
  method ApplyField(f: Field, v: Values, cache: SimilarityCache, before: real, seen: nat)
    returns (score: real, mismatches: nat)
    requires cache.Valid()
    modifies cache
    ensures cache.Valid()
    ensures score == Times(before, Factor(f, OutcomeOf(cache.jaro, f, v)))
    ensures mismatches == seen + if OutcomeOf(cache.jaro, f, v).Mismatch? then 1 else 0
  {
    score, mismatches := before, seen;
    if v.job.Some? && Unanswered(v.profile) {
      score, mismatches := score * f.penalty, mismatches + 1;
    }
    match f.mode {
      case Embed =>
        if f.name == "role" || f.name == "industry" {
          var profileText, jobText := TextOf(v.profile), TextOf(v.job);
          if profileText != "" && jobText != "" {
            var similarity := cache.CachedJaro(profileText, jobText);
            if similarity < 0.8 {
              score, mismatches := score * f.penalty, mismatches + 1;
            }
          }
        }
      case Manual =>
        var p, min, max := NumberOf(v.profile), NumberOf(v.min), NumberOf(v.max);
        if p.Some? && min.Some? && max.Some? {
          if p.value < min.value || p.value > max.value {
            score, mismatches := score * f.penalty, mismatches + 1;
          } else if f.bonus.Some? {
            score := score * f.bonus.value;
          }
        }
    }
  }

  /** The scoring loop. */
  method ApplyFields(fields: seq<Field>, profile: Json, job: Json, cache: SimilarityCache, cosine: real)
    returns (score: real, mismatches: nat)
    requires cache.Valid()
    modifies cache
    ensures cache.Valid()
    ensures score == Fold(JudgeOf(cache.jaro, profile, job), fields, cosine)
    ensures mismatches == Mismatches(JudgeOf(cache.jaro, profile, job), fields)
  {
    hide Times;
    hide Pointer;
    hide Look;
    hide OutcomeOf;
    ghost var judge := JudgeOf(cache.jaro, profile, job);
    score, mismatches := cosine, 0;
    for i := 0 to |fields|
      invariant cache.Valid()
      invariant Fold(judge, fields[i..], score) == Fold(judge, fields, cosine)
      invariant mismatches + Mismatches(judge, fields[i..]) == Mismatches(judge, fields)
    {
      assert fields[i..][0] == fields[i] && fields[i..][1..] == fields[i + 1..];
      score, mismatches := ApplyField(fields[i], Look(fields[i], profile, job), cache, score, mismatches);
    }
  }

  /** compute_empeding_match_score: whatever a valid cache holds, the result is the closed form. */
  method ComputeScore(config: Config, profileEmb: Vec, profileNorm: real, jobEmb: Vec, jobNorm: real,
                      profile: Json, job: Json, cache: SimilarityCache)
    returns (score: real)
    requires cache.Valid()
    modifies cache
    ensures cache.Valid()
    ensures score ==
      FinalScore(config, Cosine(profileEmb, jobEmb, profileNorm, jobNorm), JudgeOf(cache.jaro, profile, job))
  {
    hide Times;
    hide Cosine;
    hide OutcomeOf;
    var cosine := Cosine(profileEmb, jobEmb, profileNorm, jobNorm);
    if !config.applyBusinessLogic {
      return Clamp(cosine);
    }
    var mismatches;
    score, mismatches := ApplyFields(config.fields, profile, job, cache, cosine);
    FoldIsProduct(JudgeOf(cache.jaro, profile, job), config.fields, cosine);
    score := Times(score, Tier(mismatches));
    score := Clamp(score);
  }

  // ------------------------------------------------------- order of the fields

  lemma Swap(a: real, b: real, p: real)
    ensures Times(a, Times(b, p)) == Times(b, Times(a, p))
  {}

  lemma {:induction false} TakeOut(judge: Judge, fields: seq<Field>, i: nat)
    requires i < |fields|
    ensures var rest := fields[..i] + fields[i + 1..];
      Product(judge, fields) == Times(Factor(fields[i], judge(fields[i])), Product(judge, rest)) &&
      Mismatches(judge, fields) == (if judge(fields[i]).Mismatch? then 1 else 0) + Mismatches(judge, rest)
  {
    hide Times;
    var rest := fields[..i] + fields[i + 1..];
    if i == 0 {
      assert rest == fields[1..];
    } else {
      var tail := fields[1..];
      TakeOut(judge, tail, i - 1);
      assert rest[0] == fields[0] && rest[1..] == tail[..i - 1] + tail[i..];
      Swap(Factor(fields[0], judge(fields[0])), Factor(fields[i], judge(fields[i])), Product(judge, rest[1..]));
    }
  }

  lemma SameRest<T>(a: seq<T>, b: seq<T>, i: nat)
    requires multiset(a) == multiset(b) && |a| > 0 && i < |b| && b[i] == a[0]
    ensures multiset(a[1..]) == multiset(b[..i] + b[i + 1..])
  {
    assert a == [a[0]] + a[1..] && b == b[..i] + ([b[i]] + b[i + 1..]);
    assert multiset(a[1..]) == multiset(a) - multiset{a[0]};
    assert multiset(b[..i] + b[i + 1..]) == multiset(b) - multiset{b[i]};
  }

  lemma {:induction false} FieldsCommute(judge: Judge, a: seq<Field>, b: seq<Field>)
    requires multiset(a) == multiset(b)
    ensures Product(judge, a) == Product(judge, b) && Mismatches(judge, a) == Mismatches(judge, b)
    decreases |a|
  {
    if |a| == 0 {
      assert |multiset(b)| == |b|;
    } else {
      assert a[0] in multiset(b);
      var i :| 0 <= i < |b| && b[i] == a[0];
      var rest := b[..i] + b[i + 1..];
      SameRest(a, b, i);
      FieldsCommute(judge, a[1..], rest);
      TakeOut(judge, b, i);
    }
  }

  /** Reordering match_score.json changes no score. */
  lemma FieldOrderIsIrrelevant(config: Config, other: Config, cosine: real, judge: Judge)
    requires multiset(config.fields) == multiset(other.fields)
    requires config.applyBusinessLogic == other.applyBusinessLogic
    ensures FinalScore(config, cosine, judge) == FinalScore(other, cosine, judge)
  {
    FieldsCommute(judge, config.fields, other.fields);
  }

  // ---------------------------------------------------------------- monotonicity

  /** The shape of every shipped entry: penalties in [0, 1], bonuses at least 1. */
  predicate Sane(config: Config) {
    forall f :: f in config.fields ==> 0.0 <= f.penalty <= 1.0 && (f.bonus.Some? ==> f.bonus.value >= 1.0)
  }

  /** Some fields that matched no longer do; nothing else changed. */
  ghost predicate Worse(worse: Judge, judge: Judge, fields: seq<Field>) {
    forall f :: f in fields ==> worse(f) == judge(f) || worse(f).Mismatch?
  }

  lemma ProductsOrdered(a: real, b: real, x: real, y: real, p: real, q: real)
    requires 0.0 <= a <= b && 0.0 <= x <= y && p == a * x && q == b * y
    ensures 0.0 <= p <= q
  {
    var m := b * x;
    ProductSign(a, x, p);
    ProductGap(a, b, x, p, m);
    ProductGap(x, y, b, m, q);
  }

  lemma FactorWorsens(f: Field, worse: Outcome, o: Outcome)
    requires 0.0 <= f.penalty <= 1.0 && (f.bonus.Some? ==> f.bonus.value >= 1.0)
    requires worse == o || worse.Mismatch?
    ensures 0.0 <= Factor(f, worse) <= Factor(f, o)
  {}

  lemma ProductGap(x: real, y: real, z: real, p: real, q: real)
    requires x <= y && z >= 0.0 && p == x * z && q == y * z
    ensures p <= q
  {
    ProductSign(y - x, z, q - p);
  }

  lemma TimesOrdered(a: real, b: real, x: real, y: real)
    requires 0.0 <= a <= b && 0.0 <= x <= y
    ensures 0.0 <= Times(a, x) <= Times(b, y)
  {
    ProductsOrdered(a, b, x, y, Times(a, x), Times(b, y));
  }

  lemma {:induction false} ProductWorsens(worse: Judge, judge: Judge, fields: seq<Field>, config: Config)
    requires Sane(config) && (forall f :: f in fields ==> f in config.fields) && Worse(worse, judge, fields)
    ensures 0.0 <= Product(worse, fields) <= Product(judge, fields)
    ensures Mismatches(judge, fields) <= Mismatches(worse, fields)
  {
    hide Times;
    if |fields| > 0 {
      var f, rest := fields[0], fields[1..];
      ProductWorsens(worse, judge, rest, config);
      FactorWorsens(f, worse(f), judge(f));
      TimesOrdered(Factor(f, worse(f)), Factor(f, judge(f)), Product(worse, rest), Product(judge, rest));
    }
  }

  lemma ScoresOrdered(cosine: real, better: real, p: real, q: real, s: real, t: real, x: real, y: real, u: real,
                      v: real)
    requires cosine <= better && 0.0 <= p <= q && 0.0 <= s <= t
    requires x == cosine * p && y == better * q && u == x * s && v == y * t
    ensures Clamp(u) <= Clamp(v)
  {
    if cosine >= 0.0 {
      ProductsOrdered(cosine, better, p, q, x, y);
      ProductsOrdered(x, y, s, t, u, v);
    } else {
      NegativeProduct(cosine, p, x);
      NegativeProduct(x, s, u);
    }
  }

  lemma CombinedOrdered(cosine: real, better: real, p: real, q: real, s: real, t: real)
    requires cosine <= better && 0.0 <= p <= q && 0.0 <= s <= t
    ensures Combined(cosine, p, s) <= Combined(better, q, t)
  {
    var x, y := Times(cosine, p), Times(better, q);
    var u, v := Times(x, s), Times(y, t);
    ScoresOrdered(cosine, better, p, q, s, t, x, y, u, v);
  }

  lemma NegativeProduct(x: real, y: real, p: real)
    requires x <= 0.0 && y >= 0.0 && p == x * y
    ensures p <= 0.0
  {
    ProductSign(-x, y, -p);
  }

  /**
   * Turning any set of matching fields into mismatches never raises the score, through the
   * factors and the tiers together, and neither does a lower cosine; rounding keeps that order.
   */
  lemma WorseNeverScoresHigher(config: Config, cosine: real, better: real, worse: Judge, judge: Judge)
    requires Sane(config) && cosine <= better && Worse(worse, judge, config.fields)
    ensures FinalScore(config, cosine, worse) <= FinalScore(config, better, judge)
    ensures Rounded(FinalScore(config, cosine, worse)) <= Rounded(FinalScore(config, better, judge))
  {
    if config.applyBusinessLogic {
      var fields := config.fields;
      ProductWorsens(worse, judge, fields, config);
      CombinedOrdered(cosine, better, Product(worse, fields), Product(judge, fields),
                      Tier(Mismatches(worse, fields)), Tier(Mismatches(judge, fields)));
    }
  }

  /** The job has a value at the field's job path; with the default path it always does. */
  lemma DefaultJobPathIsAlwaysPresent(jaro: Similarity, f: Field, profile: Json, job: Json)
    requires f.jobPath == ""
    ensures var v := Look(f, profile, job);
      v.job == Some(job) && (Unanswered(v.profile) ==> OutcomeOf(jaro, f, v).Mismatch?)
  {}

  /** The profile no longer answers some of the configured questions. */
  ghost predicate FewerAnswers(fewer: Json, profile: Json, fields: seq<Field>) {
    forall f :: f in fields ==>
      Pointer(fewer, f.profilePath) == Pointer(profile, f.profilePath) || Unanswered(Pointer(fewer, f.profilePath))
  }

  /** The answer is a number outside the wanted range, and the job has nothing at the job path. */
  predicate ForgivenWhenMissing(f: Field, v: Values) {
    v.job.None? && Ranged(f, v) && !InRange(f, v)
  }

  lemma LeavingOutAnAnswerHelpsIff(jaro: Similarity, f: Field, v: Values, w: Values)
    requires w == v.(profile := w.profile) && Unanswered(w.profile)
    ensures OutcomeOf(jaro, f, w).Bonus? == false
    ensures OutcomeOf(jaro, f, v).Mismatch? && !OutcomeOf(jaro, f, w).Mismatch? <==> ForgivenWhenMissing(f, v)
  {}

  lemma {:induction false} JudgesAgree(a: Judge, b: Judge, fields: seq<Field>)
    requires forall f :: f in fields ==> a(f) == b(f)
    ensures Product(a, fields) == Product(b, fields) && Mismatches(a, fields) == Mismatches(b, fields)
  {
    hide Times;
    if |fields| > 0 {
      JudgesAgree(a, b, fields[1..]);
    }
  }

  /** What a neutral field gains over a mismatching one, with all products named. */
  lemma NeutralBeatsMismatchIff(base: real, penalty: real, m: nat, x: real, z: real, y: real)
    requires 0.0 <= penalty <= 1.0 && x == base * Tier(m) && z == base * penalty && y == z * Tier(m + 1)
    ensures Clamp(x) > Clamp(y) <==> base > 0.0 && (penalty < 1.0 || m == 1 || m == 2) && y < 1.0
  {
    if base > 0.0 {
      var rest := base - z;
      assert rest == base * (1.0 - penalty);
      ProductSign(base, penalty, z);
      ProductSign(base, 1.0 - penalty, rest);
      if penalty < 1.0 {
        Positive(base, 1.0 - penalty, rest);
      }
    } else {
      NegativeProduct(base, penalty, z);
    }
  }

  lemma BaseSign(cosine: real, rest: real, base: real)
    requires rest >= 0.0 && base == cosine * rest
    ensures base > 0.0 <==> cosine > 0.0 && rest > 0.0
  {
    if cosine > 0.0 && rest > 0.0 {
      Positive(cosine, rest, base);
    } else if cosine <= 0.0 {
      NegativeProduct(cosine, rest, base);
    }
  }

  lemma TimesIs(x: real, y: real, p: real)
    requires p == x * y
    ensures Times(x, y) == p
  {}

  lemma Regroup(cosine: real, factor: real, rest: real, base: real, weighted: real)
    requires base == cosine * rest && weighted == base * factor
    ensures Times(cosine, Times(factor, rest)) == weighted
  {
    assert cosine * (factor * rest) == (cosine * rest) * factor;
  }

  lemma CombinedIs(cosine: real, factor: real, rest: real, tier: real, base: real, weighted: real, raw: real)
    requires base == cosine * rest && weighted == base * factor && raw == weighted * tier
    ensures Combined(cosine, Times(factor, rest), tier) == Clamp(raw)
  {
    Regroup(cosine, factor, rest, base, weighted);
    TimesIs(weighted, tier, raw);
    hide Times;
  }

  /** The score before it is cut off at 1. */
  function Uncapped(cosine: real, rest: real, penalty: real, tier: real): real {
    Times(Times(Times(cosine, rest), penalty), tier)
  }

  function Others(fields: seq<Field>, i: nat): seq<Field>
    requires i < |fields|
  {
    fields[..i] + fields[i + 1..]
  }

  /** The profile leaves out its answer to the i-th field, and no other. */
  ghost predicate LeavesOut(fewer: Json, profile: Json, fields: seq<Field>, i: nat) {
    i < |fields| && Unanswered(Pointer(fewer, fields[i].profilePath)) &&
    forall m :: 0 <= m < |fields| && m != i ==>
      fields[m] != fields[i] && Pointer(fewer, fields[m].profilePath) == Pointer(profile, fields[m].profilePath)
  }

  /**
   * Leaving out one answer raises the score if and only if the rules are on, the answer was a
   * number outside the range and the job has nothing at the job path, the cosine and the factor
   * of the other fields are positive, the penalty or the tier makes the mismatch count, and the
   * score with the mismatch was not capped at 1 anyway.
   */
  lemma LeavingOutAnAnswerRaisesIff(config: Config, i: nat, cosine: real, jaro: Similarity, fewer: Json,
                                    profile: Json, job: Json)
    requires Sane(config) && LeavesOut(fewer, profile, config.fields, i)
    ensures var f, judge := config.fields[i], JudgeOf(jaro, profile, job);
      var rest, m := Product(judge, Others(config.fields, i)), Mismatches(judge, Others(config.fields, i));
      FinalScore(config, cosine, JudgeOf(jaro, fewer, job)) > FinalScore(config, cosine, judge) <==>
        config.applyBusinessLogic && ForgivenWhenMissing(f, Look(f, profile, job)) && cosine > 0.0 && rest > 0.0 &&
        (f.penalty < 1.0 || m == 1 || m == 2) && Uncapped(cosine, rest, f.penalty, Tier(m + 1)) < 1.0
  {
    hide Pointer;
    hide OutcomeOf;
    hide Product;
    hide Mismatches;
    hide Times;
    hide Combined;
    hide Clamp;
    hide Uncapped;
    hide ForgivenWhenMissing;
    var fields := config.fields;
    var f, judge, other := fields[i], JudgeOf(jaro, profile, job), JudgeOf(jaro, fewer, job);
    var v, w := Look(f, profile, job), Look(f, fewer, job);
    LeavingOutAnAnswerHelpsIff(jaro, f, v, w);
    OthersUnchanged(jaro, fewer, profile, job, fields, i);
    TakeOut(judge, fields, i);
    TakeOut(other, fields, i);
    ProductWorsens(judge, judge, Others(fields, i), config);
    ScoresCompare(f, cosine, judge(f), other(f), Product(judge, Others(fields, i)),
                  Mismatches(judge, Others(fields, i)));
  }

  /** The score of a field's outcome beside the other fields. */
  function ScoreWith(f: Field, cosine: real, o: Outcome, rest: real, m: nat): real {
    Combined(cosine, Times(Factor(f, o), rest), Tier((if o.Mismatch? then 1 else 0) + m))
  }

  lemma ScoresCompare(f: Field, cosine: real, o: Outcome, without: Outcome, rest: real, m: nat)
    requires 0.0 <= f.penalty <= 1.0 && (f.bonus.Some? ==> f.bonus.value >= 1.0) && rest >= 0.0 && !without.Bonus?
    ensures ScoreWith(f, cosine, without, rest, m) > ScoreWith(f, cosine, o, rest, m) <==>
      o.Mismatch? && !without.Mismatch? && cosine > 0.0 && rest > 0.0 &&
      (f.penalty < 1.0 || m == 1 || m == 2) && Uncapped(cosine, rest, f.penalty, Tier(m + 1)) < 1.0
  {
    if o.Mismatch? && !without.Mismatch? {
      NeutralScoresHigherIff(cosine, rest, f.penalty, m);
    } else {
      hide Combined;
      hide Times;
      hide Uncapped;
      TimesOrdered(Factor(f, without), Factor(f, o), rest, rest);
      CombinedOrdered(cosine, cosine, Times(Factor(f, without), rest), Times(Factor(f, o), rest),
                      Tier((if without.Mismatch? then 1 else 0) + m), Tier((if o.Mismatch? then 1 else 0) + m));
    }
  }

  lemma NeutralScoresHigherIff(cosine: real, rest: real, penalty: real, m: nat)
    requires 0.0 <= penalty <= 1.0 && rest >= 0.0
    ensures Combined(cosine, Times(1.0, rest), Tier(m)) > Combined(cosine, Times(penalty, rest), Tier(1 + m)) <==>
      cosine > 0.0 && rest > 0.0 && (penalty < 1.0 || m == 1 || m == 2) &&
      Uncapped(cosine, rest, penalty, Tier(m + 1)) < 1.0
  {
    var base := Times(cosine, rest);
    var z := Times(base, penalty);
    var x, y := Times(base, Tier(m)), Times(z, Tier(m + 1));
    BaseSign(cosine, rest, base);
    NeutralBeatsMismatchIff(base, penalty, m, x, z, y);
    CombinedIs(cosine, 1.0, rest, Tier(m), base, base, x);
    CombinedIs(cosine, penalty, rest, Tier(m + 1), base, z, y);
    hide Times;
    hide Combined;
    hide Clamp;
    hide Tier;
  }

  lemma OthersUnchanged(jaro: Similarity, fewer: Json, profile: Json, job: Json, fields: seq<Field>, i: nat)
    requires LeavesOut(fewer, profile, fields, i)
    ensures var judge, other := JudgeOf(jaro, profile, job), JudgeOf(jaro, fewer, job);
      Product(other, Others(fields, i)) == Product(judge, Others(fields, i)) &&
      Mismatches(other, Others(fields, i)) == Mismatches(judge, Others(fields, i))
  {
    hide Pointer;
    hide OutcomeOf;
    JudgesAgree(JudgeOf(jaro, fewer, job), JudgeOf(jaro, profile, job), Others(fields, i));
  }

  // The one field of the example: answers are wanted between the job's two numbers.
  const AGE := Field("age", "/age", "/age", Some("/min"), Some("/max"), Manual, 0.5, None)

  lemma LooksAtAge(profile: Json, job: Json)
    requires profile.Obj? && job.Obj?
    ensures Look(AGE, profile, job) == Values(Get(profile, "age"), Get(job, "age"), Get(job, "min"), Get(job, "max"))
  {
    assert "/" + "age" == "/age" && "/" + "min" == "/min" && "/" + "max" == "/max";
    PlainPointer(profile, "age");
    PlainPointer(job, "age");
    PlainPointer(job, "min");
    PlainPointer(job, "max");
  }

  const WANTED := Obj(map["min" := Num(10.0), "max" := Num(20.0)])

  lemma FiveIsOutside(jaro: Similarity, v: Values)
    requires v.profile == Some(Num(5.0)) && v.job == None && v.min == Some(Num(10.0)) && v.max == Some(Num(20.0))
    ensures OutcomeOf(jaro, AGE, v) == Mismatch
    ensures OutcomeOf(jaro, AGE, v.(profile := None)) == Neutral
  {}

  lemma AgeOutcomes(jaro: Similarity)
    ensures OutcomeOf(jaro, AGE, Look(AGE, Obj(map["age" := Num(5.0)]), WANTED)) == Mismatch
    ensures OutcomeOf(jaro, AGE, Look(AGE, Obj(map[]), WANTED)) == Neutral
  {
    hide Look;
    hide OutcomeOf;
    LooksAtAge(Obj(map["age" := Num(5.0)]), WANTED);
    LooksAtAge(Obj(map[]), WANTED);
    FiveIsOutside(jaro, Look(AGE, Obj(map["age" := Num(5.0)]), WANTED));
  }

  /** The input: the answer 5 to a range of 10 .. 20 halves the score, no answer leaves it at 1. */
  lemma LeavingOutAnAnswerCanRaise(jaro: Similarity) returns (config: Config, fewer: Json, profile: Json)
    ensures Sane(config) && FewerAnswers(fewer, profile, config.fields)
    ensures FinalScore(config, 1.0, JudgeOf(jaro, profile, WANTED)) == 0.5
    ensures FinalScore(config, 1.0, JudgeOf(jaro, fewer, WANTED)) == 1.0
  {
    config := Config([AGE], true);
    fewer, profile := Obj(map[]), Obj(map["age" := Num(5.0)]);
    AgeOutcomes(jaro);
    NoAge();
    hide Pointer;
    hide Look;
    hide OutcomeOf;
    OneFieldScore(JudgeOf(jaro, profile, WANTED));
    OneFieldScore(JudgeOf(jaro, fewer, WANTED));
    hide FinalScore;
  }

  lemma OneFieldScore(judge: Judge)
    ensures judge(AGE) == Mismatch ==> FinalScore(Config([AGE], true), 1.0, judge) == 0.5
    ensures judge(AGE) == Neutral ==> FinalScore(Config([AGE], true), 1.0, judge) == 1.0
  {
    OneField(judge);
    hide Product;
    hide Mismatches;
  }

  lemma NoAge()
    ensures Unanswered(Pointer(Obj(map[]), AGE.profilePath))
  {
    assert "/" + "age" == "/age";
    PlainPointer(Obj(map[]), "age");
  }

  lemma OneField(judge: Judge)
    ensures Product(judge, [AGE]) == Factor(AGE, judge(AGE))
    ensures Mismatches(judge, [AGE]) == if judge(AGE).Mismatch? then 1 else 0
  {
    assert [AGE][1..] == [];
    TimesAssociates(Factor(AGE, judge(AGE)), 1.0, 1.0);
    hide Times;
  }

  /**
   * Leaving out answers never raises a score if every manual field finds something at its job
   * path, as it does with the default path.
   */
  lemma FewerAnswersNeverScoreHigher(config: Config, cosine: real, jaro: Similarity, fewer: Json, profile: Json,
                                     job: Json)
    requires Sane(config) && FewerAnswers(fewer, profile, config.fields)
    requires forall f :: f in config.fields && f.mode.Manual? ==> Pointer(job, f.jobPath).Some?
    ensures FinalScore(config, cosine, JudgeOf(jaro, fewer, job)) <=
            FinalScore(config, cosine, JudgeOf(jaro, profile, job))
  {
    var worse, judge := JudgeOf(jaro, fewer, job), JudgeOf(jaro, profile, job);
    forall f | f in config.fields ensures worse(f) == judge(f) || worse(f).Mismatch? {
      AnswerDropped(jaro, f, Look(f, profile, job), Look(f, fewer, job));
    }
    WorseNeverScoresHigher(config, cosine, cosine, worse, judge);
  }

  lemma AnswerDropped(jaro: Similarity, f: Field, v: Values, w: Values)
    requires w == v.(profile := w.profile) && (w.profile == v.profile || Unanswered(w.profile))
    requires f.mode.Manual? ==> v.job.Some?
    ensures OutcomeOf(jaro, f, w) == OutcomeOf(jaro, f, v) || OutcomeOf(jaro, f, w).Mismatch?
  {}

  // ------------------------------------------------------------- the stored score

  /** (score * 10.0).round(), half away from zero, of a non-negative score. */
  function Rounded(score: real): int {
    (score * 10.0 + 0.5).Floor
  }

  /** What is known of one side of a match when it is scored. */
  datatype Subject = Subject(embedding: Option<Vec>, document: Option<Json>)

  /** compute_match_score_empeding: anything missing gives 0. */
  function StoredScore(config: Config, jaro: Similarity, sqrt: real -> real, profile: Subject, job: Subject): int {
    if profile.document.None? || profile.embedding.None? || job.embedding.None? || job.document.None? then 0
    else
      Rounded(FinalScore(config, TrueCosine(sqrt, profile.embedding.value, job.embedding.value),
                         JudgeOf(jaro, profile.document.value, job.document.value)))
  }

  /** Every stored score is one of 0 .. 10, so the conversion to a small integer loses nothing. */
  lemma StoredScoreRange(config: Config, jaro: Similarity, sqrt: real -> real, profile: Subject, job: Subject)
    ensures 0 <= StoredScore(config, jaro, sqrt, profile, job) <= 10
  {}

  /** With the rules off the stored score is the rounded clamped cosine in [0, 1]. */
  lemma WithoutRulesTheCosineDecides(config: Config, jaro: Similarity, sqrt: real -> real, profile: Subject,
                                     job: Subject)
    requires IsSqrt(sqrt) && !config.applyBusinessLogic
    requires profile.document.Some? && job.document.Some? && profile.embedding.Some? && job.embedding.Some?
    ensures var cosine := TrueCosine(sqrt, profile.embedding.value, job.embedding.value);
      StoredScore(config, jaro, sqrt, profile, job) == Rounded(if cosine < 0.0 then 0.0 else cosine)
  {
    CosineInRange(sqrt, profile.embedding.value, job.embedding.value);
  }
}
