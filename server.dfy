/**
  * The `/translate` and `/generate` endpoints of the server script and of the app module:
  * the request guards in their order, the responses, and how generation, validation and
  * regeneration are put together. Flask, JSON encoding of the response and logging are
  * left out; a request body is the decoded JSON object.
  */
module Server {
  import opened Wrappers
  import opened PyStr
  import opened PyJson
  import opened Translator
  import opened Validator
  import opened Retry
  import Extraction
  import Generation
  import Fallback

  // ---------------------------------------------------------------------------
  // /translate

  /** `valid_langs`, as the JSON strings a request may carry. */
  const ValidLangs: seq<Value> := [JStr("zh"), JStr("en"), JStr("ru")]

  /** The message of the app module when `use_helsinki` is off. */
  const HelsinkiOff: string := "Перевод не выполнен, параметр use_helsinki=false"

  /** Why a translation request was refused. `TextNotString` is the exception `.strip()` raises on a
      "text" that is not a string. */
  datatype Refusal =
    | NotInitialized
    | NoText
    | NoTarget
    | BadSource(source: Value)
    | BadTarget(target: Value)
    | TextNotString(text: Value)

  /** The request after the guards: the stripped text, the source language ("" when absent, so
      that it is detected) and the target language. */
  datatype TranslateArgs = TranslateArgs(text: string, source: string, target: string, needPinyin: bool)

  /** A `/translate` response: the translator's dict, or `{"error": message}` with a status. */
  datatype TranslateResponse =
    | Translated(body: map<string, string>)
    | Refused(status: nat, reason: Refusal, message: string)

  /** The HTTP status of each refusal. */
  function RefusalStatus(r: Refusal): (status: nat)
    ensures status == 400 <==> r.NoText? || r.NoTarget? || r.BadSource? || r.BadTarget?
    ensures status != 400 ==> status == 500
  {
    match r
    case NotInitialized => 500
    case TextNotString(_) => 500
    case _ => 400
  }

  /** `f"{v}"` for the values a language code can be; containers and numbers are not rendered. */
  function Render(v: Value): string
  {
    match v
    case JStr(s) => s
    case JBool(b) => if b then "True" else "False"
    case JNull => "None"
    case _ => ""
  }

  /** Python's type name in an `AttributeError` message. */
  function TypeName(v: Value): string
  {
    match v
    case JNull => "NoneType"
    case JBool(_) => "bool"
    case JNum(n) => if n.Floor as real == n then "int" else "float"
    case JStr(_) => "str"
    case JArr(_) => "list"
    case JObj(_) => "dict"
  }

  /** `prefix` followed by `tail`, which the message ends with. */
  function Quoting(prefix: string, tail: string): (msg: string)
    ensures |tail| <= |msg| && msg[|msg| - |tail|..] == tail
  {
    prefix + tail
  }

  /** The "error" message of a refusal, in the language of each copy: an unsupported code is
      quoted at its end, and the exception of `.strip()` names the type of the text. */
  function RefusalMessage(copy: Extraction.Copy, r: Refusal): (msg: string)
    ensures r.BadSource? ==> |Render(r.source)| <= |msg| && msg[|msg| - |Render(r.source)|..] == Render(r.source)
    ensures r.BadTarget? ==> |Render(r.target)| <= |msg| && msg[|msg| - |Render(r.target)|..] == Render(r.target)
    ensures r.TextNotString? ==>
              var tail := TypeName(r.text) + "' object has no attribute 'strip'";
              |tail| <= |msg| && msg[|msg| - |tail|..] == tail
  {
    match copy
    case ServerCopy =>
      (match r
       case NotInitialized => "Translator not initialized"
       case NoText => "No text provided for translation"
       case NoTarget => "No target language provided"
       case BadSource(v) => Quoting("Unsupported source language: ", Render(v))
       case BadTarget(v) => Quoting("Unsupported target language: ", Render(v))
       case TextNotString(v) => Quoting("Translation error: '", TypeName(v) + "' object has no attribute 'strip'"))
    case AppCopy =>
      (match r
       case NotInitialized => "Переводчик не инициализирован"
       case NoText => "Отсутствует текст для перевода"
       case NoTarget => "Не указан целевой язык перевода"
       case BadSource(v) => Quoting("Неподдерживаемый исходный язык: ", Render(v))
       case BadTarget(v) => Quoting("Неподдерживаемый целевой язык: ", Render(v))
       case TextNotString(v) => Quoting("Ошибка перевода: '", TypeName(v) + "' object has no attribute 'strip'"))
  }

  /** The guards both copies of `/translate` apply, in their order: the text must be a string
      that is not blank once stripped, a target must be given, a source given must be one of
      the three languages, and so must the target. */
  function TranslateGuards(request: Record): (r: Result<TranslateArgs, Refusal>)
    ensures r.Ok? <==>
              && Get(request, "text", JStr("")).JStr?
              && Strip(Get(request, "text", JStr("")).s) != ""
              && Get(request, "target_lang", JNull) in ValidLangs
              && (!Truthy(Get(request, "source_lang", JNull)) || Get(request, "source_lang", JNull) in ValidLangs)
    ensures r.Ok? ==> r.value.text == Strip(Get(request, "text", JStr("")).s) && r.value.text != ""
    ensures r.Ok? ==> r.value.target in Languages && (r.value.source == "" || r.value.source in Languages)
    ensures r.Ok? ==> (r.value.source == "" <==> !Truthy(Get(request, "source_lang", JNull)))
    ensures r.Ok? ==> Get(request, "target_lang", JNull) == JStr(r.value.target)
    ensures r.Ok? && Truthy(Get(request, "source_lang", JNull)) ==> Get(request, "source_lang", JNull) == JStr(r.value.source)
    ensures r.Ok? ==> r.value.needPinyin == Truthy(Get(request, "need_pinyin", JBool(true)))
    ensures r.Err? ==> RefusalStatus(r.error) == 400 || r.error.TextNotString?
  {
    var text := Get(request, "text", JStr(""));
    var source := Get(request, "source_lang", JNull);
    var target := Get(request, "target_lang", JNull);
    if !text.JStr? then Err(TextNotString(text))
    else if Strip(text.s) == "" then Err(NoText)
    else if !Truthy(target) then Err(NoTarget)
    else if Truthy(source) && source !in ValidLangs then Err(BadSource(source))
    else if target !in ValidLangs then Err(BadTarget(target))
    else
      ValidCode(target);
      ValidCode(if Truthy(source) then source else target);
      Ok(TranslateArgs(Strip(text.s), if Truthy(source) then source.s else "", target.s,
                       Truthy(Get(request, "need_pinyin", JBool(true)))))
  }

  /** A valid code is one of the three language strings. */
  lemma ValidCode(v: Value)
    requires v in ValidLangs
    ensures v.JStr? && v == JStr(v.s) && v.s in Languages
  {
  }

  /** A blank text is refused before anything else is looked at. */
  lemma BlankTextFirst(request: Record)
    requires Get(request, "text", JStr("")).JStr? && Strip(Get(request, "text", JStr("")).s) == ""
    ensures TranslateGuards(request) == Err(NoText)
  {
  }

  /** With text present, a missing target is refused before the source is looked at. */
  lemma MissingTargetBeforeSource(request: Record)
    requires TranslateGuards(request) != Err(NoText) && Get(request, "text", JStr("")).JStr?
    requires !Truthy(Get(request, "target_lang", JNull))
    ensures TranslateGuards(request) == Err(NoTarget)
  {
  }

  /** An unsupported source is reported even when the target is unsupported too. */
  lemma SourceBeforeTarget(request: Record)
    requires Get(request, "text", JStr("")).JStr? && Strip(Get(request, "text", JStr("")).s) != ""
    requires Truthy(Get(request, "target_lang", JNull))
    requires Truthy(Get(request, "source_lang", JNull)) && Get(request, "source_lang", JNull) !in ValidLangs
    ensures TranslateGuards(request) == Err(BadSource(Get(request, "source_lang", JNull)))
  {
  }

  /** `/translate` of the server script: the guards, then `process_text` with `need_pinyin`
      defaulting to true. */
  method TranslateServer(request: Record, translatorEnabled: bool,
                         direct: (string, string) -> string, romanize: string -> Option<string>)
    returns (resp: TranslateResponse)
    ensures !translatorEnabled ==> resp == Refused(500, NotInitialized, RefusalMessage(Extraction.ServerCopy, NotInitialized))
    ensures translatorEnabled && TranslateGuards(request).Err? ==>
              resp == Refused(RefusalStatus(TranslateGuards(request).error), TranslateGuards(request).error,
                             RefusalMessage(Extraction.ServerCopy, TranslateGuards(request).error))
    ensures translatorEnabled && TranslateGuards(request).Ok? ==>
              var args := TranslateGuards(request).value;
              resp.Translated? && Processed(resp.body, args.text, args.source, args.target, args.needPinyin, direct, romanize)
  {
    if !translatorEnabled {
      return Refused(500, NotInitialized, RefusalMessage(Extraction.ServerCopy, NotInitialized));
    }
    var guards := TranslateGuards(request);
    if guards.Err? {
      return Refused(RefusalStatus(guards.error), guards.error, RefusalMessage(Extraction.ServerCopy, guards.error));
    }
    var args := guards.value;
    var result := ProcessText(args.text, args.source, args.target, args.needPinyin, direct, romanize);
    resp := Translated(result);
  }

  /** `/translate` of the app module: the same guards; with `use_helsinki` off, which is the
      default, the text comes back untranslated with an explanation and the translator is not
      called. */
  method TranslateApp(request: Record, translatorEnabled: bool,
                      direct: (string, string) -> string, romanize: string -> Option<string>)
    returns (resp: TranslateResponse)
    ensures !translatorEnabled ==> resp == Refused(500, NotInitialized, RefusalMessage(Extraction.AppCopy, NotInitialized))
    ensures translatorEnabled && TranslateGuards(request).Err? ==>
              resp == Refused(RefusalStatus(TranslateGuards(request).error), TranslateGuards(request).error,
                             RefusalMessage(Extraction.AppCopy, TranslateGuards(request).error))
    ensures translatorEnabled && TranslateGuards(request).Ok? && !Truthy(Get(request, "use_helsinki", JBool(false))) ==>
              resp == Translated(map["original" := TranslateGuards(request).value.text, "error" := HelsinkiOff])
    ensures translatorEnabled && TranslateGuards(request).Ok? && Truthy(Get(request, "use_helsinki", JBool(false))) ==>
              var args := TranslateGuards(request).value;
              && resp.Translated?
              && Processed(resp.body, args.text, args.source, args.target, args.needPinyin, direct, romanize)
              && "error" !in resp.body
  {
    if !translatorEnabled {
      return Refused(500, NotInitialized, RefusalMessage(Extraction.AppCopy, NotInitialized));
    }
    var useHelsinki := Truthy(Get(request, "use_helsinki", JBool(false)));
    var guards := TranslateGuards(request);
    if guards.Err? {
      return Refused(RefusalStatus(guards.error), guards.error, RefusalMessage(Extraction.AppCopy, guards.error));
    }
    resp := TranslateOrEcho(guards.value, useHelsinki, direct, romanize);
  }

  /** After the guards of the app module: translate with `use_helsinki`, otherwise echo the
      text with the explanation. */
  method TranslateOrEcho(args: TranslateArgs, useHelsinki: bool,
                         direct: (string, string) -> string, romanize: string -> Option<string>)
    returns (resp: TranslateResponse)
    ensures !useHelsinki ==> resp == Translated(map["original" := args.text, "error" := HelsinkiOff])
    ensures useHelsinki ==> && resp.Translated?
                            && Processed(resp.body, args.text, args.source, args.target, args.needPinyin, direct, romanize)
                            && "error" !in resp.body
  {
    if useHelsinki {
      var result := ProcessText(args.text, args.source, args.target, args.needPinyin, direct, romanize);
      assert "error" !in ResultKeys;
      resp := Translated(result);
    } else {
      resp := Translated(map["original" := args.text, "error" := HelsinkiOff]);
    }
  }

  // ---------------------------------------------------------------------------
  // /generate

  /** The parameters `/generate` reads: the word ("" when absent or empty), the user's
      language, and the `validate` and `retry_on_invalid` switches (both default true). */
  datatype GenerateRequest = GenerateRequest(word: string, systemLanguage: string, validate: bool, retryOnInvalid: bool)

  /** How `/generate` reads its body: `word` must be a truthy string, `system_language` defaults
      to "ru" and is only ever compared with "ru", and `validate` and `retry_on_invalid` are read
      by truthiness with default true. A `system_language` that is not a string reads as "". */
  function GenerateRequestOf(body: Record): (req: GenerateRequest)
    ensures req.word != "" <==> Get(body, "word", JNull).JStr? && Truthy(Get(body, "word", JNull))
    ensures req.word != "" ==> Get(body, "word", JNull) == JStr(req.word)
    ensures Fallback.TargetLanguage(req.systemLanguage) ==
              if Get(body, "system_language", JStr("ru")) == JStr("ru") then "ru" else "en"
    ensures req.validate == Truthy(Get(body, "validate", JBool(true)))
    ensures req.retryOnInvalid == Truthy(Get(body, "retry_on_invalid", JBool(true)))
  {
    var word := Get(body, "word", JNull);
    var language := Get(body, "system_language", JStr("ru"));
    GenerateRequest(if word.JStr? then word.s else "",
                    if language.JStr? then language.s else "",
                    Truthy(Get(body, "validate", JBool(true))),
                    Truthy(Get(body, "retry_on_invalid", JBool(true))))
  }

  /** A body with only a word, an HSK level and a language validates, and regenerates an invalid
      first exercise: absent switches read as true. */
  lemma DefaultsValidateAndRetry(body: Record, gen: nat -> Attempt, validate: Record -> Validation)
    requires "validate" !in body && "retry_on_invalid" !in body
    requires Get(body, "word", JNull).JStr? && Truthy(Get(body, "word", JNull))
    requires Usable(gen(0)) && !IsValid(validate(gen(0).record))
    ensures BeforeRetry(GenerateRequestOf(body), gen, true, validate).Regenerate?
  {
  }

  /** A body without "system_language" serves a Russian user. */
  lemma DefaultLanguageIsRussian(body: Record)
    requires "system_language" !in body
    ensures Fallback.TargetLanguage(GenerateRequestOf(body).systemLanguage) == "ru"
  {
  }

  /** A `/generate` response. */
  datatype GenerateResponse =
    | Served(exercise: Exercise)           // 200
    | MissingWord(message: string)         // 400, {"error": message}
    | GenerationFailed(body: Record)       // 500, the generator's dict, which has "error"
    | InternalError(message: string)       // 500, {"status": "error", "message": message}

  function Status(r: GenerateResponse): nat
  {
    match r
    case Served(_) => 200
    case MissingWord(_) => 400
    case _ => 500
  }

  /** Where the server script's `/generate` stands before its regeneration loop: answered
      already, or holding an invalid first exercise to regenerate. */
  datatype FirstStage = Answered(response: GenerateResponse) | Regenerate(first: Exercise, original: Validation)

  /** The checks of the server script's `/generate` up to its regeneration loop. Call 0 of the
      generator is the first generation. */
  function BeforeRetry(req: GenerateRequest, gen: nat -> Attempt, validatorEnabled: bool,
                       validate: Record -> Validation): (stage: FirstStage)
    ensures stage.Regenerate? <==>
              req.word != "" && Usable(gen(0)) && req.validate && validatorEnabled
              && !IsValid(validate(gen(0).record)) && req.retryOnInvalid
    ensures stage.Regenerate? ==>
              stage.original == validate(gen(0).record)
              && stage.first == Exercise(gen(0).record, Some(SummaryOf(stage.original, false)), None)
    ensures stage.Answered? && stage.response.Served? ==>
              Usable(gen(0)) && stage.response.exercise.fields == gen(0).record
              && (stage.response.exercise.validation.Some? <==> req.validate && validatorEnabled)
    ensures req.word == "" ==> stage == Answered(MissingWord("Word parameter (word) is missing"))
  {
    if req.word == "" then Answered(MissingWord("Word parameter (word) is missing"))
    else
      match gen(0)
      case Raised => Answered(InternalError("Internal server error"))
      case Produced(r) =>
        if "error" in r then Answered(GenerationFailed(r))
        else if !(req.validate && validatorEnabled) then Answered(Served(Exercise(r, None, None)))
        else
          var v := validate(r);
          var first := Exercise(r, Some(SummaryOf(v, false)), None);
          if IsValid(v) || !req.retryOnInvalid then Answered(Served(first))
          else Regenerate(first, v)
  }

  /** The server script's `/generate` with the corrected regeneration loop. */
  function ServerOutcome(req: GenerateRequest, gen: nat -> Attempt, validatorEnabled: bool,
                         validate: Record -> Validation, romanize: string -> string): GenerateResponse
  {
    match BeforeRetry(req, gen, validatorEnabled, validate)
    case Answered(response) => response
    case Regenerate(first, v) => Served(RetryFixed(gen, validate, req.word, romanize, first, v, 1))
  }

  /** The server script's `/generate` as written, given `budget` regeneration calls: `None`
      when its regeneration loop has not ended within them. */
  function ServerAsWritten(req: GenerateRequest, gen: nat -> Attempt, validatorEnabled: bool,
                           validate: Record -> Validation, budget: nat): Option<GenerateResponse>
  {
    match BeforeRetry(req, gen, validatorEnabled, validate)
    case Answered(response) => Some(response)
    case Regenerate(first, v) =>
      match RetryAsWritten(gen, validate, first, v, 1, 1, budget)
      case Finished(e) => Some(Served(e))
      case Unfinished => None
  }

  /** `generate_exercise` of the server script. */
  method GenerateServer(req: GenerateRequest, gen: nat -> Attempt, validatorEnabled: bool,
                        validate: Record -> Validation, romanize: string -> string)
    returns (resp: GenerateResponse)
    ensures resp == ServerOutcome(req, gen, validatorEnabled, validate, romanize)
  {
    if req.word == "" {
      return MissingWord("Word parameter (word) is missing");
    }
    var attempt := gen(0);
    if attempt.Raised? {
      return InternalError("Internal server error");
    }
    var result := attempt.record;
    if "error" in result {
      return GenerationFailed(result);
    }
    if !(req.validate && validatorEnabled) {
      return Served(Exercise(result, None, None));
    }
    var validation := validate(result);
    var first := Exercise(result, Some(SummaryOf(validation, false)), None);
    if !IsValid(validation) && req.retryOnInvalid {
      var retried := RegenerateFixed(gen, validate, req.word, romanize, first, validation);
      return Served(retried);
    }
    return Served(first);
  }

  /** A missing word is refused with 400 before the generator is called. */
  lemma ServerMissingWord(req: GenerateRequest, gen: nat -> Attempt, validatorEnabled: bool,
                          validate: Record -> Validation, romanize: string -> string)
    requires req.word == ""
    ensures Status(ServerOutcome(req, gen, validatorEnabled, validate, romanize)) == 400
  {
  }

  /** A first generation carrying "error" is answered with 500 before any validation: the
      validator does not matter. */
  lemma ServerErrorBeforeValidation(req: GenerateRequest, gen: nat -> Attempt, validatorEnabled: bool,
                                    validate: Record -> Validation, other: Record -> Validation,
                                    romanize: string -> string)
    requires req.word != "" && gen(0).Produced? && "error" in gen(0).record
    ensures ServerOutcome(req, gen, validatorEnabled, validate, romanize) == GenerationFailed(gen(0).record)
    ensures ServerOutcome(req, gen, validatorEnabled, validate, romanize) ==
            ServerOutcome(req, gen, validatorEnabled, other, romanize)
  {
  }

  /** Regeneration happens only for an invalid first exercise with `retry_on_invalid` set:
      otherwise generators that agree on the first call give the same response. */
  lemma ServerRetryOnlyWhenInvalid(req: GenerateRequest, gen: nat -> Attempt, other: nat -> Attempt,
                                   validatorEnabled: bool, validate: Record -> Validation,
                                   romanize: string -> string)
    requires gen(0) == other(0)
    requires !(req.word != "" && Usable(gen(0)) && req.validate && validatorEnabled
               && !IsValid(validate(gen(0).record)) && req.retryOnInvalid)
    ensures ServerOutcome(req, gen, validatorEnabled, validate, romanize) ==
            ServerOutcome(req, other, validatorEnabled, validate, romanize)
  {
  }

  /** The corrected handler calls the generator at most four times. */
  lemma ServerAtMostFourCalls(req: GenerateRequest, gen: nat -> Attempt, other: nat -> Attempt,
                              validatorEnabled: bool, validate: Record -> Validation,
                              romanize: string -> string)
    requires forall i :: 0 <= i <= MaxRetries ==> gen(i) == other(i)
    ensures ServerOutcome(req, gen, validatorEnabled, validate, romanize) ==
            ServerOutcome(req, other, validatorEnabled, validate, romanize)
  {
    assert gen(0) == other(0);
    if req.word != "" && gen(0).Produced? && "error" !in gen(0).record && req.validate && validatorEnabled {
      var v := validate(gen(0).record);
      var first := Exercise(gen(0).record, Some(SummaryOf(v, false)), None);
      FixedAtMostThreeCalls(gen, other, validate, req.word, romanize, first, v, 1);
    }
  }

  /** Where no regeneration returns an "error" dict and not all three raise, the handler as
      written answers within three regeneration calls, and answers as the corrected one does. */
  lemma AsWrittenHandlerAgrees(req: GenerateRequest, gen: nat -> Attempt, validatorEnabled: bool,
                               validate: Record -> Validation, romanize: string -> string, budget: nat)
    requires budget >= MaxRetries
    requires forall i :: 1 <= i <= MaxRetries ==> !(gen(i).Produced? && "error" in gen(i).record)
    requires exists i :: 1 <= i <= MaxRetries && gen(i).Produced?
    ensures ServerAsWritten(req, gen, validatorEnabled, validate, budget) ==
            Some(ServerOutcome(req, gen, validatorEnabled, validate, romanize))
  {
    var stage := BeforeRetry(req, gen, validatorEnabled, validate);
    if stage.Regenerate? {
      AsWrittenAgreesWithoutErrors(gen, validate, req.word, romanize, stage.first, stage.original, 1, budget);
    }
  }

  /** An invalid first exercise whose regenerations all return "error" dicts is never answered
      by the handler as written, whatever the budget; the corrected handler serves the fallback. */
  lemma AsWrittenHandlerHangs(req: GenerateRequest, gen: nat -> Attempt, validatorEnabled: bool,
                              validate: Record -> Validation, romanize: string -> string, budget: nat)
    requires BeforeRetry(req, gen, validatorEnabled, validate).Regenerate?
    requires forall i :: 1 <= i ==> gen(i).Produced? && "error" in gen(i).record
    ensures ServerAsWritten(req, gen, validatorEnabled, validate, budget) == None
    ensures ServerOutcome(req, gen, validatorEnabled, validate, romanize) == Served(FallbackExercise(req.word, romanize))
  {
    var stage := BeforeRetry(req, gen, validatorEnabled, validate);
    ErrorRepliesNeverFinish(gen, validate, stage.first, stage.original, 1, 1, budget);
    assert !Usable(gen(1)) && !Usable(gen(2)) && !Usable(gen(3));
    FixedThreeFailuresFallback(gen, validate, req.word, romanize, stage.first, stage.original);
  }

  /** An invalid first exercise whose three regenerations raise is served as written with the
      `NameError` as its "validation_error"; the corrected handler serves the fallback. */
  lemma AsWrittenHandlerThreeRaises(req: GenerateRequest, gen: nat -> Attempt, validatorEnabled: bool,
                                    validate: Record -> Validation, romanize: string -> string, budget: nat)
    requires BeforeRetry(req, gen, validatorEnabled, validate).Regenerate?
    requires gen(1).Raised? && gen(2).Raised? && gen(3).Raised?
    requires budget >= MaxRetries
    ensures var first := BeforeRetry(req, gen, validatorEnabled, validate).first;
            ServerAsWritten(req, gen, validatorEnabled, validate, budget) ==
              Some(Served(first.(validationError := Some(MissingPinyinError))))
    ensures ServerOutcome(req, gen, validatorEnabled, validate, romanize) == Served(FallbackExercise(req.word, romanize))
  {
    var stage := BeforeRetry(req, gen, validatorEnabled, validate);
    ThreeRaisesKeepOriginal(gen, validate, stage.first, stage.original, budget);
    FixedThreeFailuresFallback(gen, validate, req.word, romanize, stage.first, stage.original);
  }

  /** With validation on, every exercise served carries a "validation" entry. */
  lemma ServerServedIsValidated(req: GenerateRequest, gen: nat -> Attempt, validatorEnabled: bool,
                                validate: Record -> Validation, romanize: string -> string)
    requires req.validate && validatorEnabled
    requires ServerOutcome(req, gen, validatorEnabled, validate, romanize).Served?
    ensures ServerOutcome(req, gen, validatorEnabled, validate, romanize).exercise.validation.Some?
  {
    var r := gen(0).record;
    var v := validate(r);
    var first := Exercise(r, Some(SummaryOf(v, false)), None);
    if !IsValid(v) && req.retryOnInvalid {
      FixedOutcomes(gen, validate, req.word, romanize, first, v, 1);
    }
  }

  /** The app module's `/generate`: the same checks, one regeneration with the note. Its
      generator catches every exception, so call `i` is always a dict. */
  function AppOutcome(req: GenerateRequest, gen: nat -> Record, validatorEnabled: bool,
                      validate: Record -> Validation): GenerateResponse
  {
    if req.word == "" then MissingWord("Не указано слово (параметр 'word')")
    else
      var r := gen(0);
      if "error" in r then GenerationFailed(r)
      else if !(req.validate && validatorEnabled) then Served(Exercise(r, None, None))
      else
        var v := validate(r);
        if IsValid(v) || !req.retryOnInvalid then Served(Exercise(r, Some(SummaryOf(v, false)), None))
        else Served(RetriedOnce(r, v, gen(1), validate))
  }

  /** `generate_exercise` of the app module. */
  method GenerateApp(req: GenerateRequest, gen: nat -> Record, validatorEnabled: bool,
                     validate: Record -> Validation)
    returns (resp: GenerateResponse)
    ensures resp == AppOutcome(req, gen, validatorEnabled, validate)
  {
    if req.word == "" {
      return MissingWord("Не указано слово (параметр 'word')");
    }
    var result := gen(0);
    if "error" in result {
      return GenerationFailed(result);
    }
    if !(req.validate && validatorEnabled) {
      return Served(Exercise(result, None, None));
    }
    var validation := validate(result);
    if !IsValid(validation) && req.retryOnInvalid {
      var retried := RetryOnce(result, validation, gen(1), validate);
      return Served(retried);
    }
    return Served(Exercise(result, Some(SummaryOf(validation, false)), None));
  }

  /** The app module answers a missing word with 400 and a first dict with "error" with 500,
      before any validation. */
  lemma AppRefusals(req: GenerateRequest, gen: nat -> Record, validatorEnabled: bool,
                    validate: Record -> Validation, other: Record -> Validation)
    ensures req.word == "" ==> Status(AppOutcome(req, gen, validatorEnabled, validate)) == 400
    ensures req.word != "" && "error" in gen(0) ==>
              AppOutcome(req, gen, validatorEnabled, validate) == GenerationFailed(gen(0))
              && AppOutcome(req, gen, validatorEnabled, validate) == AppOutcome(req, gen, validatorEnabled, other)
  {
  }

  /** In the app module an invalid first exercise is served with the note unless the single
      regeneration is usable and strictly more confident, in which case that is served as a
      retry without the original's note. */
  lemma AppSingleRetry(req: GenerateRequest, gen: nat -> Record, validatorEnabled: bool,
                       validate: Record -> Validation)
    requires req.word != "" && "error" !in gen(0) && req.validate && validatorEnabled
    requires !IsValid(validate(gen(0))) && req.retryOnInvalid
    ensures var e := AppOutcome(req, gen, validatorEnabled, validate).exercise;
            var improved := "error" !in gen(1) && Exceeds(Confidence(validate(gen(1))), Confidence(validate(gen(0))));
            && (improved ==> e.fields == gen(1) && e.validation.value.isRetry)
            && (!improved ==> e.fields == gen(0)["note" := JStr(RetryNote)] && !e.validation.value.isRetry)
  {
  }

  // ---------------------------------------------------------------------------
  // The unbounded loop, end to end

  /** A language model that keeps answering with a brace pair that does not decode makes every
      generation an error dict, so the server script's loop as written never ends. */
  lemma BrokenJsonLoopsForever(word: string, systemLanguage: string, content: string, model: string,
                               parse: string -> Option<Record>, ts: Generation.TranslatorService,
                               validate: Record -> Validation, held: Exercise, original: Validation, budget: nat)
    requires Extraction.HasBracePair(content) && parse(Extraction.JsonSpan(content).value).None?
    ensures var gen := (i: nat) => Produced(Generation.Generated(word, systemLanguage, Generation.Reply(content, model), parse, ts));
            RetryAsWritten(gen, validate, held, original, 1, 1, budget) == Unfinished
  {
    var gen := (i: nat) => Produced(Generation.Generated(word, systemLanguage, Generation.Reply(content, model), parse, ts));
    Extraction.ErrorCases(content, word, parse);
    Generation.ErrorDictPassesThrough(word, systemLanguage, Generation.Reply(content, model), parse, ts);
    ErrorRepliesNeverFinish(gen, validate, held, original, 1, 1, budget);
  }
}
