/**
  * `ContentValidator.validate_exercise`: a structural pre-check, then a confidence made of
  * a semantic score (how well the masked-language model predicts the answer in the gap)
  * and a distractor score (how close the wrong options lie to the answer), a strict
  * threshold, and improvement hints.
  *
  * The models are inputs: `fillMask` is the fill-mask pipeline, returning its predictions
  * for a masked sentence, and `similarity` the cosine similarity of two options'
  * mean-pooled embeddings. `loaded` says whether model and tokenizer were loaded; when
  * they were not, every model call raises and both scores fall back to their defaults.
  * Scores are exact reals; the one IEEE effect that changes a decision, the NaN of a mean
  * over no distractors, is modelled by `Float`.
  */
module Validator {
  import opened Wrappers
  import opened PyStr
  import opened PyJson

  const Gap: string := "____"
  /** The BERT tokenizer's mask token. */
  const Mask: string := "[MASK]"
  /** The fields `validate_exercise` requires. */
  const ValidatorFields: seq<string> := ["sentence_with_gap", "options", "answer", "pinyin"]
  /** A gap sentence longer than this fails the basic checks. */
  const MaxSentenceLength: nat := 200
  /** The confidence an exercise must strictly exceed to be valid. */
  const Threshold: real := 0.6
  /** The distractor similarity considered ideal. */
  const TargetSimilarity: real := 0.6
  const SemanticDefault: real := 0.7
  const DistractorDefault: real := 0.6
  const SentenceHint: string := "Предложение не очень естественно звучит с выбранным словом"
  const DistractorHint: string := "Варианты ответов недостаточно близки/различимы по контексту"

  /** A Python float that is a real number or NaN; every comparison with NaN is false. */
  datatype Float = Num(v: real) | NaN

  predicate Greater(a: Float, b: real)
  {
    a.Num? && a.v > b
  }

  predicate Less(a: Float, b: real)
  {
    a.Num? && a.v < b
  }

  /** One entry of the fill-mask pipeline's output: `token_str` and `score`. */
  datatype Prediction = Prediction(token: string, score: real)

  /** The models the validator calls. */
  datatype Scorer = Scorer(loaded: bool, fillMask: string -> seq<Prediction>, similarity: (string, string) -> real)

  /** Why an exercise was rejected without scoring. */
  datatype Rejection = MissingFields | FailedBasicChecks

  /** The dict `validate_exercise` returns. */
  datatype Validation =
    | Rejected(reason: Rejection)   // is_valid False, confidence 0.0
    | Scored(isValid: bool, confidence: Float, semantic: real, distractor: Float, improvements: seq<string>)
    | Crashed                       // an exception escaped: is_valid True, confidence 0.5

  /** `validation["is_valid"]`. */
  predicate IsValid(v: Validation)
  {
    match v
    case Rejected(_) => false
    case Scored(valid, _, _, _, _) => valid
    case Crashed => true
  }

  /** `validation["confidence"]`. */
  function Confidence(v: Validation): Float
  {
    match v
    case Rejected(_) => Num(0.0)
    case Scored(_, c, _, _, _) => c
    case Crashed => Num(0.5)
  }

  // ---------------------------------------------------------------------------
  // The structural pre-check

  /** `_basic_checks(sentence, options, answer)`; `None` where `len` or `in` raises `TypeError`. */
  function BasicChecks(sentence: Value, options: Value, answer: Value): Option<bool>
  {
    match Len(options)
    case None => None
    case Some(n) =>
      if n < 2 then Some(false)
      else
        match Len(sentence)
        case None => None
        case Some(m) =>
          if m > MaxSentenceLength then Some(false)
          else
            match In(JStr(Gap), sentence)
            case None => None
            case Some(hasGap) =>
              if !hasGap then Some(false)
              else In(answer, options)
  }

  /** For a string sentence and a list of options the checks never raise, and they pass exactly
      when there are two options or more, the sentence has at most 200 characters and a gap,
      and the answer is one of the options. */
  lemma BasicChecksOnLists(s: string, xs: seq<Value>, answer: Value)
    ensures BasicChecks(JStr(s), JArr(xs), answer) ==
              Some(|xs| >= 2 && |s| <= MaxSentenceLength && Contains(s, Gap) && answer in xs)
  {
  }

  /** Options that are not a container, such as a number, make the checks raise. */
  lemma BasicChecksRaise(sentence: Value, options: Value, answer: Value)
    requires !options.JStr? && !options.JArr? && !options.JObj?
    ensures BasicChecks(sentence, options, answer).None?
  {
  }

  // ---------------------------------------------------------------------------
  // The two scores

  /** `answer in token or token in answer`. */
  predicate Matches(token: string, answer: string)
  {
    Contains(token, answer) || Contains(answer, token)
  }

  /** The first prediction that contains the answer or is contained in it. */
  function FirstMatch(predictions: seq<Prediction>, answer: string): (r: Option<real>)
    decreases |predictions|
    ensures r.None? <==> forall i :: 0 <= i < |predictions| ==> !Matches(predictions[i].token, answer)
    ensures r.Some? ==> exists i :: (0 <= i < |predictions| && r.value == predictions[i].score &&
              Matches(predictions[i].token, answer) &&
              forall k :: 0 <= k < i ==> !Matches(predictions[k].token, answer))
  {
    if predictions == [] then None
    else if Matches(predictions[0].token, answer) then Some(predictions[0].score)
    else
      var rest := predictions[1..];
      var r := FirstMatch(rest, answer);
      assert forall i :: 1 <= i < |predictions| ==> rest[i - 1] == predictions[i];
      if r.Some? then
        var j :| 0 <= j < |rest| && r.value == rest[j].score && Matches(rest[j].token, answer) &&
                  forall k :: 0 <= k < j ==> !Matches(rest[k].token, answer);
        assert forall k :: 0 <= k < j + 1 ==> !Matches(predictions[k].token, answer) by {
          forall k | 0 <= k < j + 1
            ensures !Matches(predictions[k].token, answer)
          {
            if k > 0 {
              assert predictions[k] == rest[k - 1];
            }
          }
        }
        assert predictions[j + 1] == rest[j];
        r
      else r
  }

  /** The sentence shown to the fill-mask model: every gap filled with the answer, then the
      first occurrence of the answer masked. */
  function MaskedSentence(sentence: string, answer: string): string
  {
    ReplaceFirst(ReplaceAll(sentence, Gap, answer), answer, Mask)
  }

  /** `_evaluate_semantic_coherence(sentence, answer)`: the score of the first matching
      prediction, else one minus the top prediction's score; 0.7 when anything raises (no
      models, a sentence or answer that is no string, no predictions). */
  function SemanticScore(sentence: Value, answer: Value, scorer: Scorer): (r: real)
    ensures !scorer.loaded || !sentence.JStr? || !answer.JStr? ==> r == SemanticDefault
  {
    if !scorer.loaded || !sentence.JStr? || !answer.JStr? then SemanticDefault
    else
      var predictions := scorer.fillMask(MaskedSentence(sentence.s, answer.s));
      match FirstMatch(predictions, answer.s)
      case Some(score) => score
      case None => if predictions == [] then SemanticDefault else 1.0 - predictions[0].score
  }

  /** With the models loaded and string arguments, the semantic score is the score of the first
      matching prediction; without a match it is one minus the top prediction's score, and with
      no predictions at all (`top_predictions[0]` raises) it is the default 0.7. */
  lemma SemanticScoreCases(sentence: string, answer: string, scorer: Scorer)
    requires scorer.loaded
    ensures var ps := scorer.fillMask(MaskedSentence(sentence, answer));
            var r := SemanticScore(JStr(sentence), JStr(answer), scorer);
            && (ps == [] ==> r == SemanticDefault)
            && (ps != [] && (forall i :: 0 <= i < |ps| ==> !Matches(ps[i].token, answer)) ==> r == 1.0 - ps[0].score)
            && (forall i :: (0 <= i < |ps| && Matches(ps[i].token, answer)
                             && forall k :: 0 <= k < i ==> !Matches(ps[k].token, answer)) ==> r == ps[i].score)
  {
    var ps := scorer.fillMask(MaskedSentence(sentence, answer));
    var m := FirstMatch(ps, answer);
    forall i | 0 <= i < |ps| && Matches(ps[i].token, answer) && (forall k :: 0 <= k < i ==> !Matches(ps[k].token, answer))
      ensures SemanticScore(JStr(sentence), JStr(answer), scorer) == ps[i].score
    {
      var j :| 0 <= j < |ps| && m.value == ps[j].score && Matches(ps[j].token, answer) &&
               forall k :: 0 <= k < j ==> !Matches(ps[k].token, answer);
      assert !(j < i) && !(i < j);
    }
  }

  /** `[opt for opt in options if opt != answer]`: the options without the answer, in order. */
  function Distractors(options: seq<Value>, answer: Value): (r: seq<Value>)
    ensures forall k :: 0 <= k < |r| ==> r[k] != answer
    ensures forall x :: x in r <==> x in options && x != answer
    ensures |r| <= |options|
    ensures r == [] <==> forall x :: x in options ==> x == answer
  {
    if options == [] then []
    else
      var rest := Distractors(options[1..], answer);
      assert forall x :: x in options[1..] ==> x in options;
      assert forall x :: x in options ==> x == options[0] || x in options[1..];
      if options[0] == answer then rest
      else
        assert options[0] in options;
        [options[0]] + rest
  }

  /** Filtering respects concatenation, so the distractors keep the options' order. */
  lemma {:induction false} DistractorsAppend(xs: seq<Value>, ys: seq<Value>, answer: Value)
    ensures Distractors(xs + ys, answer) == Distractors(xs, answer) + Distractors(ys, answer)
    decreases |xs|
  {
    if xs != [] {
      assert (xs + ys)[1..] == xs[1..] + ys;
      DistractorsAppend(xs[1..], ys, answer);
    } else {
      assert xs + ys == ys;
    }
  }

  /** `np.mean`; NaN for an empty array. */
  function Mean(xs: seq<real>): (r: Float)
    ensures r.NaN? <==> xs == []
  {
    if xs == [] then NaN else Num(Sum(xs) / (|xs| as real))
  }

  function Sum(xs: seq<real>): real
  {
    if xs == [] then 0.0 else Sum(xs[..|xs| - 1]) + xs[|xs| - 1]
  }

  /** `1 - |avg - 0.6|`: 1 at the target similarity, falling off linearly on both sides. */
  function Closeness(avg: Float): (r: Float)
    ensures r.NaN? <==> avg.NaN?
    ensures avg.Num? ==> r.v <= 1.0 && (r.v == 1.0 <==> avg.v == TargetSimilarity)
  {
    match avg
    case NaN => NaN
    case Num(a) => Num(1.0 - (if a >= TargetSimilarity then a - TargetSimilarity else TargetSimilarity - a))
  }

  /** A cosine similarity lies in [-1, 1], so the closeness lies in [-0.6, 1], not in [0, 1];
      for a similarity in [0, 1] it lies in [0.4, 1]. */
  lemma ClosenessBounds(a: real)
    requires -1.0 <= a <= 1.0
    ensures -0.6 <= Closeness(Num(a)).v <= 1.0
    ensures 0.0 <= a ==> 0.4 <= Closeness(Num(a)).v
    ensures a < -0.4 ==> Closeness(Num(a)).v < 0.0
  {
  }

  /** `_evaluate_distractors(sentence, distractors, answer)`: the closeness of the mean
      similarity between the answer and the distractors; 0.6 when anything raises (no
      models, a sentence that is no string, an option that is no string). */
  function DistractorScore(sentence: Value, distractors: seq<Value>, answer: Value, scorer: Scorer): (r: Float)
    ensures !scorer.loaded || !sentence.JStr? ==> r == Num(DistractorDefault)
  {
    if !scorer.loaded || !sentence.JStr? || !answer.JStr? || exists d | d in distractors :: !d.JStr? then Num(DistractorDefault)
    else
      var sims := seq(|distractors|, k requires 0 <= k < |distractors| => scorer.similarity(answer.s, distractors[k].s));
      Closeness(Mean(sims))
  }

  /** With the models loaded and string options, the distractor score is NaN exactly when
      there are no distractors, and otherwise lies in [-0.6, 1] for similarities in [-1, 1]. */
  lemma DistractorScoreBounds(sentence: string, ds: seq<string>, answer: string, scorer: Scorer)
    requires scorer.loaded
    requires forall a, b :: -1.0 <= scorer.similarity(a, b) <= 1.0
    ensures var r := DistractorScore(JStr(sentence), Strs(ds).items, JStr(answer), scorer);
            && (r.NaN? <==> ds == [])
            && (r.Num? ==> -0.6 <= r.v <= 1.0)
  {
    var items := Strs(ds).items;
    assert forall d | d in items :: d.JStr?;
    var sims := seq(|items|, k requires 0 <= k < |items| => scorer.similarity(answer, items[k].s));
    assert DistractorScore(JStr(sentence), items, JStr(answer), scorer) == Closeness(Mean(sims));
    MeanBounds(sims);
    if sims != [] {
      ClosenessBounds(Mean(sims).v);
    }
  }

  /** The mean of numbers in [-1, 1] lies in [-1, 1]. */
  lemma MeanBounds(xs: seq<real>)
    requires forall k :: 0 <= k < |xs| ==> -1.0 <= xs[k] <= 1.0
    ensures Mean(xs).Num? ==> -1.0 <= Mean(xs).v <= 1.0
  {
    if xs != [] {
      SumBounds(xs);
      var n := |xs| as real;
      var a := Sum(xs) / n;
      assert a * n == Sum(xs);
    }
  }

  /** A sum of numbers in [-1, 1] lies between minus and plus the count. */
  lemma {:induction false} SumBounds(xs: seq<real>)
    requires forall k :: 0 <= k < |xs| ==> -1.0 <= xs[k] <= 1.0
    ensures -(|xs| as real) <= Sum(xs) <= |xs| as real
  {
    if xs != [] {
      SumBounds(xs[..|xs| - 1]);
    }
  }

  // ---------------------------------------------------------------------------
  // Combining the scores

  /** `semantic * 0.6 + distractor * 0.4`. */
  function Combine(semantic: real, distractor: Float): (c: Float)
    ensures c.NaN? <==> distractor.NaN?
  {
    match distractor
    case NaN => NaN
    case Num(d) => Num(semantic * 0.6 + d * 0.4)
  }

  /** Scores in [0, 1] give a confidence in [0, 1]. */
  lemma CombineBounds(semantic: real, distractor: real)
    requires 0.0 <= semantic <= 1.0 && 0.0 <= distractor <= 1.0
    ensures 0.0 <= Combine(semantic, Num(distractor)).v <= 1.0
  {
  }

  /** The hints: the sentence hint when the semantic score is below 0.7, then the distractor
      hint when the distractor score is below 0.5. */
  function Improvements(semantic: real, distractor: Float): (r: seq<string>)
    ensures SentenceHint in r <==> semantic < 0.7
    ensures DistractorHint in r <==> Less(distractor, 0.5)
    ensures |r| <= 2 && (|r| == 2 ==> r == [SentenceHint, DistractorHint])
  {
    (if semantic < 0.7 then [SentenceHint] else []) + (if Less(distractor, 0.5) then [DistractorHint] else [])
  }

  /** The result of scoring an exercise that passed the checks. */
  function Score(semantic: real, distractor: Float): (v: Validation)
    ensures v.Scored? && v.semantic == semantic && v.distractor == distractor
    ensures IsValid(v) <==> Greater(Confidence(v), Threshold)
  {
    var confidence := Combine(semantic, distractor);
    Scored(Greater(confidence, Threshold), confidence, semantic, distractor, Improvements(semantic, distractor))
  }

  /** `validate_exercise(exercise_data)`. */
  function Validated(exercise: Record, scorer: Scorer): (v: Validation)
  {
    if exists f | f in ValidatorFields :: f !in exercise then Rejected(MissingFields)
    else
      var sentence, options, answer := exercise["sentence_with_gap"], exercise["options"], exercise["answer"];
      match BasicChecks(sentence, options, answer)
      case None => Crashed
      case Some(ok) =>
        if !ok then Rejected(FailedBasicChecks)
        else
          var semantic := SemanticScore(sentence, answer, scorer);
          var distractors := Distractors(Iter(options).value, answer);
          Score(semantic, DistractorScore(sentence, distractors, answer, scorer))
  }

  /** The imperative `validate_exercise`: the field check, the basic checks, the two scores,
      and the hints appended one by one. */
  method ValidateExercise(exercise: Record, scorer: Scorer) returns (v: Validation)
    ensures v == Validated(exercise, scorer)
    ensures v.Scored? ==> (v.isValid <==> Greater(v.confidence, Threshold))
  {
    if !("sentence_with_gap" in exercise && "options" in exercise && "answer" in exercise && "pinyin" in exercise) {
      assert exists f | f in ValidatorFields :: f !in exercise;
      return Rejected(MissingFields);
    }
    assert forall f | f in ValidatorFields :: f in exercise;
    var sentence, options, answer := exercise["sentence_with_gap"], exercise["options"], exercise["answer"];
    var checks := BasicChecks(sentence, options, answer);
    if checks.None? {
      return Crashed;
    }
    if !checks.value {
      return Rejected(FailedBasicChecks);
    }
    var semantic := SemanticScore(sentence, answer, scorer);
    var distractors := Distractors(Iter(options).value, answer);
    var distractor := DistractorScore(sentence, distractors, answer, scorer);
    var confidence := Combine(semantic, distractor);
    var improvements := Hints(semantic, distractor);
    v := Scored(Greater(confidence, Threshold), confidence, semantic, distractor, improvements);
  }

  /** The improvement hints, appended one by one as `validate_exercise` does. */
  method Hints(semantic: real, distractor: Float) returns (improvements: seq<string>)
    ensures improvements == Improvements(semantic, distractor)
  {
    improvements := [];
    if semantic < 0.7 {
      improvements := improvements + [SentenceHint];
    }
    if Less(distractor, 0.5) {
      improvements := improvements + [DistractorHint];
    }
  }

  // ---------------------------------------------------------------------------
  // Properties of the decision

  /** A missing field or a failed basic check rejects the exercise with confidence 0, whatever
      the models would say. */
  lemma StructuralRejection(exercise: Record, scorer: Scorer, other: Scorer)
    ensures Validated(exercise, scorer).Rejected? ==> Validated(exercise, other) == Validated(exercise, scorer)
    ensures Validated(exercise, scorer).Rejected? ==> !IsValid(Validated(exercise, scorer)) && Confidence(Validated(exercise, scorer)) == Num(0.0)
    ensures (exists f | f in ValidatorFields :: f !in exercise) ==> Validated(exercise, scorer) == Rejected(MissingFields)
  {
  }

  /** Without models both scores fall back (0.7 and 0.6), so an exercise that passes the
      checks is valid with confidence 0.66 and no hints. */
  lemma FallbacksAccept(exercise: Record, scorer: Scorer)
    requires !scorer.loaded
    requires forall f :: f in ValidatorFields ==> f in exercise
    requires BasicChecks(exercise["sentence_with_gap"], exercise["options"], exercise["answer"]) == Some(true)
    ensures Validated(exercise, scorer) == Scored(true, Num(0.66), SemanticDefault, Num(DistractorDefault), [])
  {
    assert !(exists f | f in ValidatorFields :: f !in exercise);
  }

  /** When every option equals the answer there are no distractors; with loaded models and
      string fields the mean similarity is NaN and the exercise is invalid whatever the
      semantic score, and gets no distractor hint. */
  lemma NoDistractorsInvalid(exercise: Record, scorer: Scorer)
    requires scorer.loaded
    requires forall f :: f in ValidatorFields ==> f in exercise
    requires exercise["sentence_with_gap"].JStr? && exercise["answer"].JStr? && exercise["options"].JArr?
    requires forall x :: x in exercise["options"].items ==> x == exercise["answer"]
    requires BasicChecks(exercise["sentence_with_gap"], exercise["options"], exercise["answer"]) == Some(true)
    ensures Validated(exercise, scorer).Scored?
    ensures !IsValid(Validated(exercise, scorer)) && Confidence(Validated(exercise, scorer)).NaN?
    ensures DistractorHint !in Validated(exercise, scorer).improvements
  {
    assert !(exists f | f in ValidatorFields :: f !in exercise);
  }

  /** Only a raising check crashes, and a crash is reported as valid with confidence 0.5. */
  lemma CrashAccepts(exercise: Record, scorer: Scorer)
    requires forall f :: f in ValidatorFields ==> f in exercise
    requires BasicChecks(exercise["sentence_with_gap"], exercise["options"], exercise["answer"]).None?
    ensures Validated(exercise, scorer) == Crashed
    ensures IsValid(Validated(exercise, scorer)) && Confidence(Validated(exercise, scorer)) == Num(0.5)
  {
    assert !(exists f | f in ValidatorFields :: f !in exercise);
  }
}
