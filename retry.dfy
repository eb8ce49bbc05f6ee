/**
  * What `/generate` does with an exercise that failed validation. The server script
  * regenerates in a loop of at most three counted attempts and keeps a regenerated exercise
  * only when its confidence is strictly greater; the app module regenerates once. The
  * generator and the validator are inputs: `gen(i)` is the i-th call of the generator
  * (call 0 produced the exercise being retried), `validate` the validator.
  */
module Retry {
  import opened Wrappers
  import opened PyJson
  import opened Validator

  /** `max_retries` in the server script. */
  const MaxRetries: nat := 3

  /** `str(e)` of the `NameError` raised by `pinyin.get_pinyin` in the server script's fallback. */
  const MissingPinyinError: string := "name 'pinyin' is not defined"

  /** The note the app module puts on an exercise it is about to regenerate. */
  const RetryNote: string := "Первый вариант упражнения не прошел валидацию, генерируем повторно"

  /** The "validation" entry attached to a served exercise. `isRetry` is the "is_retry" key,
      present (and true) only on a regenerated exercise. */
  datatype Summary = Summary(isValid: bool, confidence: Float, semantic: Float, distractor: Float, isRetry: bool)

  /** The "validation" entry built from a validator result; keys the result lacks read as 0.0. */
  function SummaryOf(v: Validation, isRetry: bool): (s: Summary)
    ensures s.isValid == IsValid(v) && s.confidence == Confidence(v) && s.isRetry == isRetry
    ensures !v.Scored? ==> s.semantic == Num(0.0) && s.distractor == Num(0.0)
  {
    match v
    case Scored(valid, c, semantic, distractor, _) => Summary(valid, c, Num(semantic), distractor, isRetry)
    case _ => Summary(IsValid(v), Confidence(v), Num(0.0), Num(0.0), isRetry)
  }

  /** An exercise as the handler returns it: the generated dict, then the "validation" and
      "validation_error" entries the handler sets on it (absent where `None`). */
  datatype Exercise = Exercise(fields: Record, validation: Option<Summary>, validationError: Option<string>)

  /** One call of the generator: the dict it returned, or an exception. */
  datatype Attempt = Produced(record: Record) | Raised

  /** A call whose dict is usable: it returned and carries no "error" key. */
  predicate Usable(a: Attempt)
  {
    a.Produced? && "error" !in a.record
  }

  /** Python's `a > b` on floats: false whenever either side is NaN. */
  predicate Exceeds(a: Float, b: Float)
  {
    a.Num? && b.Num? && a.v > b.v
  }

  /** A regenerated exercise with its own "validation" entry, marked as a retry. */
  function Revalidated(r: Record, validate: Record -> Validation): (e: Exercise)
    ensures e.fields == r && e.validation.Some? && e.validation.value.isRetry && e.validationError.None?
  {
    Exercise(r, Some(SummaryOf(validate(r), true)), None)
  }

  /** The regenerated exercise if its confidence is strictly greater than the original's,
      else the exercise already held. */
  function Better(r: Record, validate: Record -> Validation, held: Exercise, original: Validation): Exercise
  {
    if Exceeds(Confidence(validate(r)), Confidence(original)) then Revalidated(r, validate) else held
  }

  // ---------------------------------------------------------------------------
  // The server script's loop, as written

  /** Where the loop as written stands after some calls of the generator. */
  datatype Outcome = Finished(exercise: Exercise) | Unfinished

  /** The loop as written, run for at most `budget` generator calls. A dict with an "error"
      key neither ends the loop nor counts as an attempt; after the third exception the
      fallback's `pinyin.get_pinyin` raises `NameError`, which leaves the loop and is recorded
      as the "validation_error" of the exercise held. */
  function RetryAsWritten(gen: nat -> Attempt, validate: Record -> Validation, held: Exercise, original: Validation,
                          retryCount: nat, call: nat, budget: nat): Outcome
    decreases budget
  {
    if retryCount > MaxRetries then Finished(held)
    else if budget == 0 then Unfinished
    else
      match gen(call)
      case Raised =>
        if retryCount < MaxRetries then RetryAsWritten(gen, validate, held, original, retryCount + 1, call + 1, budget - 1)
        else Finished(held.(validationError := Some(MissingPinyinError)))
      case Produced(r) =>
        if "error" in r then RetryAsWritten(gen, validate, held, original, retryCount, call + 1, budget - 1)
        else Finished(Better(r, validate, held, original))
  }

  /** A generator that keeps returning dicts with an "error" key keeps the loop as written
      running, whatever the budget: the loop has no bound. */
  lemma {:induction false} ErrorRepliesNeverFinish(gen: nat -> Attempt, validate: Record -> Validation, held: Exercise,
                                                   original: Validation, retryCount: nat, call: nat, budget: nat)
    requires retryCount <= MaxRetries
    requires forall i :: call <= i ==> gen(i).Produced? && "error" in gen(i).record
    ensures RetryAsWritten(gen, validate, held, original, retryCount, call, budget) == Unfinished
    decreases budget
  {
    if budget > 0 {
      assert gen(call).Produced? && "error" in gen(call).record;
      ErrorRepliesNeverFinish(gen, validate, held, original, retryCount, call + 1, budget - 1);
    }
  }

  /** Three exceptions in a row never reach the fallback exercise as written: the original
      exercise is served with the `NameError` as its "validation_error". */
  lemma ThreeRaisesKeepOriginal(gen: nat -> Attempt, validate: Record -> Validation, held: Exercise,
                                original: Validation, budget: nat)
    requires gen(1).Raised? && gen(2).Raised? && gen(3).Raised?
    requires budget >= MaxRetries
    ensures RetryAsWritten(gen, validate, held, original, 1, 1, budget) ==
              Finished(held.(validationError := Some(MissingPinyinError)))
  {
    assert RetryAsWritten(gen, validate, held, original, 3, 3, budget - 2) == Finished(held.(validationError := Some(MissingPinyinError)));
    assert RetryAsWritten(gen, validate, held, original, 2, 2, budget - 1) == RetryAsWritten(gen, validate, held, original, 3, 3, budget - 2);
  }

  // ---------------------------------------------------------------------------
  // The loop as evidently intended

  /** The fallback the loop builds after three failed attempts, with the romanisation it meant
      to call supplied as `romanize`. */
  function FallbackExercise(word: string, romanize: string -> string): (e: Exercise)
    ensures e.validation == Some(Summary(true, Num(0.5), Num(0.5), Num(0.5), false))
    ensures e.fields.Keys == {"sentence_with_gap", "options", "correctAnswer", "pinyin", "translation", "generated_with"}
    ensures e.fields["correctAnswer"] == JStr(word) && e.fields["generated_with"] == JStr("fallback")
  {
    Exercise(map["sentence_with_gap" := JStr("这是____" + word + "。"),
                 "options" := Strs([word, "好", "人", "不"]),
                 "correctAnswer" := JStr(word),
                 "pinyin" := JStr(romanize("这是" + word + "。")),
                 "translation" := JStr("This is " + word + "."),
                 "generated_with" := JStr("fallback")],
             Some(Summary(true, Num(0.5), Num(0.5), Num(0.5), false)),
             None)
  }

  /** The loop with a dict carrying "error" counted as a failed attempt, like an exception,
      and a fallback that can be built. Call `i` of the generator is attempt `i`. */
  function RetryFixed(gen: nat -> Attempt, validate: Record -> Validation, word: string, romanize: string -> string,
                      held: Exercise, original: Validation, retryCount: nat): Exercise
    decreases MaxRetries + 1 - retryCount
  {
    if retryCount > MaxRetries then held
    else if Usable(gen(retryCount)) then Better(gen(retryCount).record, validate, held, original)
    else if retryCount < MaxRetries then RetryFixed(gen, validate, word, romanize, held, original, retryCount + 1)
    else FallbackExercise(word, romanize)
  }

  /** The regeneration loop of `generate_exercise` with both corrections. */
  method RegenerateFixed(gen: nat -> Attempt, validate: Record -> Validation, word: string, romanize: string -> string,
                         held: Exercise, original: Validation)
    returns (result: Exercise)
    ensures result == RetryFixed(gen, validate, word, romanize, held, original, 1)
  {
    result := held;
    var retryCount := 1;
    while retryCount <= MaxRetries
      invariant 1 <= retryCount <= MaxRetries + 1
      invariant result == held
      invariant RetryFixed(gen, validate, word, romanize, held, original, retryCount) ==
                RetryFixed(gen, validate, word, romanize, held, original, 1)
      decreases MaxRetries + 1 - retryCount
    {
      var attempt := gen(retryCount);
      if attempt.Produced? && "error" !in attempt.record {
        var retryValidation := validate(attempt.record);
        var retried := Exercise(attempt.record, Some(SummaryOf(retryValidation, true)), None);
        if Exceeds(Confidence(retryValidation), Confidence(original)) {
          result := retried;
        }
        break;
      }
      if retryCount < MaxRetries {
        retryCount := retryCount + 1;
      } else {
        result := FallbackExercise(word, romanize);
        break;
      }
    }
  }

  /** The corrected loop calls the generator at most three times: generators that agree on
      calls 1 to 3 give the same exercise. */
  lemma {:induction false} FixedAtMostThreeCalls(gen: nat -> Attempt, other: nat -> Attempt, validate: Record -> Validation,
                                                 word: string, romanize: string -> string, held: Exercise,
                                                 original: Validation, retryCount: nat)
    requires retryCount >= 1
    requires forall i :: retryCount <= i <= MaxRetries ==> gen(i) == other(i)
    ensures RetryFixed(gen, validate, word, romanize, held, original, retryCount) ==
            RetryFixed(other, validate, word, romanize, held, original, retryCount)
    decreases MaxRetries + 1 - retryCount
  {
    if retryCount <= MaxRetries {
      assert gen(retryCount) == other(retryCount);
      if !Usable(gen(retryCount)) && retryCount < MaxRetries {
        FixedAtMostThreeCalls(gen, other, validate, word, romanize, held, original, retryCount + 1);
      }
    }
  }

  /** Three failed attempts, exceptions or error dicts, give the fallback exercise. */
  lemma FixedThreeFailuresFallback(gen: nat -> Attempt, validate: Record -> Validation, word: string,
                                   romanize: string -> string, held: Exercise, original: Validation)
    requires !Usable(gen(1)) && !Usable(gen(2)) && !Usable(gen(3))
    ensures RetryFixed(gen, validate, word, romanize, held, original, 1) == FallbackExercise(word, romanize)
  {
    assert RetryFixed(gen, validate, word, romanize, held, original, 2) == RetryFixed(gen, validate, word, romanize, held, original, 3);
  }

  /** The exercise the corrected loop serves is the one it held, the fallback, or the first
      usable regeneration, and that one only if its confidence is strictly greater. */
  lemma {:induction false} FixedOutcomes(gen: nat -> Attempt, validate: Record -> Validation, word: string,
                                         romanize: string -> string, held: Exercise, original: Validation,
                                         retryCount: nat)
    requires retryCount >= 1
    ensures var e := RetryFixed(gen, validate, word, romanize, held, original, retryCount);
            || e == held
            || e == FallbackExercise(word, romanize)
            || (exists i :: retryCount <= i <= MaxRetries && Usable(gen(i))
                              && (forall j :: retryCount <= j < i ==> !Usable(gen(j)))
                              && Exceeds(Confidence(validate(gen(i).record)), Confidence(original))
                              && e == Revalidated(gen(i).record, validate))
    decreases MaxRetries + 1 - retryCount
  {
    if retryCount <= MaxRetries {
      var e := RetryFixed(gen, validate, word, romanize, held, original, retryCount);
      if Usable(gen(retryCount)) {
        var r := gen(retryCount).record;
        if Exceeds(Confidence(validate(r)), Confidence(original)) {
          assert e == Revalidated(r, validate);
        } else {
          assert e == held;
        }
      } else if retryCount < MaxRetries {
        FixedOutcomes(gen, validate, word, romanize, held, original, retryCount + 1);
        var later := RetryFixed(gen, validate, word, romanize, held, original, retryCount + 1);
        assert e == later;
        if later != held && later != FallbackExercise(word, romanize) {
          var i :| retryCount + 1 <= i <= MaxRetries && Usable(gen(i))
                   && (forall j :: retryCount + 1 <= j < i ==> !Usable(gen(j)))
                   && Exceeds(Confidence(validate(gen(i).record)), Confidence(original))
                   && later == Revalidated(gen(i).record, validate);
          assert forall j :: retryCount <= j < i ==> !Usable(gen(j));
        }
      } else {
        assert e == FallbackExercise(word, romanize);
      }
    }
  }

  /** Where no attempt returns an "error" dict and not all three raise, the loop as written
      ends within three calls and serves what the corrected loop serves. */
  lemma {:induction false} AsWrittenAgreesWithoutErrors(gen: nat -> Attempt, validate: Record -> Validation, word: string,
                                                        romanize: string -> string, held: Exercise, original: Validation,
                                                        retryCount: nat, budget: nat)
    requires 1 <= retryCount <= MaxRetries && budget + retryCount > MaxRetries
    requires forall i :: retryCount <= i <= MaxRetries ==> !(gen(i).Produced? && "error" in gen(i).record)
    requires exists i :: retryCount <= i <= MaxRetries && gen(i).Produced?
    ensures RetryAsWritten(gen, validate, held, original, retryCount, retryCount, budget) ==
            Finished(RetryFixed(gen, validate, word, romanize, held, original, retryCount))
    decreases MaxRetries + 1 - retryCount
  {
    if gen(retryCount).Raised? {
      var i :| retryCount <= i <= MaxRetries && gen(i).Produced?;
      assert retryCount < MaxRetries;
      AsWrittenAgreesWithoutErrors(gen, validate, word, romanize, held, original, retryCount + 1, budget - 1);
    }
  }

  // ---------------------------------------------------------------------------
  // The app module's single retry

  /** What the app module serves after its single retry: the regeneration if it is usable and
      strictly more confident, else the first exercise with the note. */
  function RetriedOnce(first: Record, original: Validation, retry: Record, validate: Record -> Validation): (e: Exercise)
    ensures e.validation.Some? && e.validationError.None?
    ensures e.validation.value.isRetry <==> "error" !in retry && Exceeds(Confidence(validate(retry)), Confidence(original))
    ensures e.validation.value.isRetry ==> e.fields == retry && e.validation.value == SummaryOf(validate(retry), true)
    ensures !e.validation.value.isRetry ==>
              e.fields == first["note" := JStr(RetryNote)] && e.validation.value == SummaryOf(original, false)
  {
    var noted := Exercise(first["note" := JStr(RetryNote)], Some(SummaryOf(original, false)), None);
    if "error" !in retry then Better(retry, validate, noted, original) else noted
  }

  /** The single retry of the app module's `generate_exercise`: the held exercise gets the
      note, and the regeneration replaces it only when usable and strictly more confident. */
  method RetryOnce(first: Record, original: Validation, retry: Record, validate: Record -> Validation)
    returns (result: Exercise)
    ensures result == RetriedOnce(first, original, retry, validate)
    ensures result.validation.Some?
    ensures result.validation.value.isRetry <==>
              "error" !in retry && Exceeds(Confidence(validate(retry)), Confidence(original))
    ensures result.validation.value.isRetry ==> result == Revalidated(retry, validate)
    ensures !result.validation.value.isRetry ==>
              result == Exercise(first["note" := JStr(RetryNote)], Some(SummaryOf(original, false)), None)
  {
    result := Exercise(first["note" := JStr(RetryNote)], Some(SummaryOf(original, false)), None);
    if "error" !in retry {
      var retryValidation := validate(retry);
      var retried := Exercise(retry, Some(SummaryOf(retryValidation, true)), None);
      if Exceeds(Confidence(retryValidation), Confidence(original)) {
        result := retried;
      }
    }
  }

  /** An original scored NaN is never replaced: no confidence compares greater than NaN. */
  lemma NaNNeverReplaced(gen: nat -> Attempt, validate: Record -> Validation, word: string,
                         romanize: string -> string, held: Exercise, original: Validation)
    requires Confidence(original) == NaN
    requires Usable(gen(1))
    ensures RetryFixed(gen, validate, word, romanize, held, original, 1) == held
  {
  }
}
