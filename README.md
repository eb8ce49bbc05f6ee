# Chinese tutor API: exercise extraction, fallback, validation, retry and translation

This project models the core of the chinese-tutor-api server in Dafny. The server asks a local
language model for a fill-in-the-gap exercise for a Chinese word, then:

- extracts the exercise from the free-text reply, repairing the JSON or scanning the lines;
- fills in a missing pinyin or translation through the translator;
- falls back to a template exercise when the model cannot be reached;
- scores the exercise with the validator;
- retries generation when the exercise is judged invalid.

It also models the `/translate` endpoint: its request guards, language detection and the
routing of translation directions. Two copies of the handlers exist, `run_server.py` and
`app/main.py`. Both copies are modelled, and the lemmas say where they differ.

Modules:

- `PyStr` and `PyJson`: the Python string operations and JSON values the code relies on.
  A duck-typed operation that would raise returns `None`.
- `Extraction`: `extract_exercise_data`, in both copies.
- `Translator`: `_detect_language`, `translate` routing and `process_text`.
- `Validator`: `validate_exercise`, `_basic_checks`, the semantic score and the distractor formula.
- `Fallback`: `generate_exercise_fallback`.
- `Generation`: `generate_exercise_with_word` once a reply has arrived, including supplementation.
- `Retry`: the retry loop of `run_server.py` as written, the corrected loop, and the single retry of `app/main.py`.
- `Server`: both `/translate` handlers and both `/generate` handlers.

These are inputs to the model, passed as function parameters:

- the language model's reply;
- `json.loads`;
- the neural translator's single-pair step;
- the pinyin romaniser;
- the masked-language-model scorer.

The properties are therefore proved for every behaviour these parameters can express. The
similarity is one exception: it is a function of two options, so it cannot express an
embedding that depends on the whole padded batch (see "## Left out").

Two consequences of the code are worth stating plainly:

- For a reply with no JSON and no gap line, the gap goes in the middle of the reply's Chinese
  characters. It has spaces around it, and the final full stop is dropped. The reply
  "这个服务器很快。" for the word "服务器" gives the sentence "这个服 ____ 务器很快". See
  `Extraction.PlainReplyGap`.
- The distractor score `1 - |avg - 0.6|` lies in [-0.6, 1] for cosine similarities in [-1, 1].
  See `Validator.ClosenessBounds` and `Validator.DistractorScoreBounds`.

The fallback exercise of the retry loop names its answer field `correctAnswer`, not `answer`.
The model keeps that name.

## Model

| member | source | states |
|---|---|---|
| Extraction.JsonSpan | server/chinese-tutor-api/run_server.py:728-732 | a JSON span exists exactly when some `{` comes before the last `}`; the span starts with `{` and ends with `}` |
| Extraction.BracePairFound | server/chinese-tutor-api/run_server.py:728-731 | the span condition is exactly `find('{') >= 0 and rfind('}') + 1 > find('{')` |
| Extraction.FirstMissing | server/chinese-tutor-api/run_server.py:736-739 | the first missing required field is reported, and none is reported exactly when all are present |
| Extraction.RepairJson | server/chinese-tutor-api/run_server.py:741-768 | the repaired record keeps its keys and answers with the requested word |
| Extraction.RepairFacts | server/chinese-tutor-api/run_server.py:741-747 | a repair keeps the other fields; the options keep their length and contain the word, changed at most in slot 0; the answer becomes the word |
| Extraction.RepairSentence | server/chinese-tutor-api/run_server.py:749-766 | the gap repair steps compute `RepairGap`, including its raising and not-found cases |
| Extraction.GapRepairOrder | server/chinese-tutor-api/run_server.py:749-766 | an existing gap is kept; otherwise the first occurrence of the word is gapped; the result has a gap exactly when the sentence had one or contained the word or some option |
| Extraction.FirstOptionGapped | server/chinese-tutor-api/run_server.py:761-766 | the first option (in list order) found in the sentence is the one replaced, once; with no option found the sentence is unchanged |
| Extraction.ErrorCases | server/chinese-tutor-api/run_server.py:731-743 | a span that does not parse, a missing field and an empty options list each give their error |
| Extraction.CandidateAnswer | server/chinese-tutor-api/run_server.py:745-747 | every successfully extracted exercise answers with the requested word |
| Extraction.ScanLine | server/chinese-tutor-api/run_server.py:780-791 | one line adds at most one acceptable option, and only below four options |
| Extraction.ScanLines | server/chinese-tutor-api/run_server.py:774-791 | the scanned options start with the word, hold at most four entries, and the others are acceptable bullets |
| Extraction.ScanReply | server/chinese-tutor-api/run_server.py:774-791 | the line loop computes `ScanLines`: the word first, at most four options |
| Extraction.LastLineWins | server/chinese-tutor-api/run_server.py:780-787 | the sentence, pinyin and translation come from the last line of their kind; the text after the first `:` is taken when there is one |
| Extraction.OptionsAreFirstBullets | server/chinese-tutor-api/run_server.py:788-791 | the options are the word followed by the first three acceptable bullet lines |
| Extraction.BulletsAcceptable | server/chinese-tutor-api/run_server.py:788-791 | every bullet text the scan would take passes the option filter |
| Extraction.CjkFallback | server/chinese-tutor-api/run_server.py:794-798 | the fallback sentence is empty exactly when the reply has no CJK character, and otherwise contains the gap |
| Extraction.HeuristicGap | server/chinese-tutor-api/run_server.py:780-798 | the heuristic sentence has a gap exactly when some line has one or the reply has a CJK character |
| Extraction.PlainReplyGap | server/chinese-tutor-api/run_server.py:794-798 | "这个服务器很快。" for "服务器" gives "这个服 ____ 务器很快" |
| Extraction.Padded | server/chinese-tutor-api/run_server.py:800-802 | padding keeps the options as a prefix and fills up to four with `选项<index>` |
| Extraction.PadOptions | server/chinese-tutor-api/run_server.py:800-802 | the padding loop yields exactly four options that start with the given ones |
| Extraction.HeuristicRecord | server/chinese-tutor-api/run_server.py:804-810 | the heuristic exercise has the five fields, answers with the word and offers four non-empty options with the word first |
| Extraction.ExtractHeuristic | server/chinese-tutor-api/run_server.py:770-810 | the no-JSON path returns `HeuristicRecord`: four options, the word first, the word as the answer |
| Extraction.ExtractExerciseData | server/chinese-tutor-api/run_server.py:724-817 | a failure keeps the raw reply; a success answers with the word |
| Extraction.AsDict | server/chinese-tutor-api/run_server.py:812-817 | a failure becomes exactly `error` and `raw_response`, with the error starting with the copy's prefix |
| Extraction.CopiesAgree | server/chinese-tutor-api/app/main.py:243-337 | the two copies of the extraction return the same keys and the same values apart from the error text |
| Extraction.DictsAgree | server/chinese-tutor-api/app/main.py:333-337 | both copies render an extraction outcome with the same keys, differing only in the error text |
| Extraction.FirstFound | server/chinese-tutor-api/run_server.py:762-763 | the index of the first option contained in the sentence, with none before it |
| PyStr.JoinSplit | server/chinese-tutor-api/run_server.py:774 | splitting the reply on newlines loses no character: joining the lines gives the reply back |
| PyStr.Find | server/chinese-tutor-api/run_server.py:728 | `find` gives the lowest occurrence, or -1 exactly when there is none |
| PyStr.RFind | server/chinese-tutor-api/run_server.py:729 | `rfind` gives the highest occurrence of the character, or -1 exactly when there is none |
| PyStr.ReplaceFirst | server/chinese-tutor-api/run_server.py:755 | replacing the first occurrence inserts the replacement and leaves a text without the pattern unchanged |
| PyStr.Replace | server/chinese-tutor-api/run_server.py:632 | `replace` leaves a text without the pattern unchanged and otherwise contains the replacement |
| PyStr.ReplaceAllRemoves | server/chinese-tutor-api/run_server.py:700 | replacing every occurrence of a non-empty pattern by a non-empty text sharing no character with it leaves no occurrence of the pattern |
| PyStr.JoinedFree | server/chinese-tutor-api/run_server.py:700 | a pattern absent from both parts, and sharing no character with the non-empty text between them, is absent from the joined text |
| Translator.DetectLanguage | server/chinese-tutor-api/app/translator.py:199-215 | the language is one of four codes, and "unknown" exactly for the empty text |
| Translator.AllCjkIsChinese | server/chinese-tutor-api/app/translator.py:204-207 | a text made only of CJK ideographs is Chinese |
| Translator.AllCyrillicIsRussian | server/chinese-tutor-api/app/translator.py:209-212 | a text made only of Cyrillic letters is Russian |
| Translator.NeitherIsEnglish | server/chinese-tutor-api/app/translator.py:214-215 | a non-empty text with neither script is English |
| Translator.ChineseCheckedFirst | server/chinese-tutor-api/app/translator.py:204-207 | more than a fifth of CJK characters makes the text Chinese, whatever its Cyrillic share |
| Translator.CountCjkAppend | server/chinese-tutor-api/app/translator.py:204 | the CJK count of a concatenation is the sum of the counts |
| Translator.RouteOf | server/chinese-tutor-api/app/translator.py:85-107 | the route is direct exactly when the key `source-target` is loaded, and then uses that key; a route through English uses two loaded keys |
| Translator.KeyIsDirection | server/chinese-tutor-api/app/translator.py:90-95 | a key `source-target` is loaded exactly when its two codes form a loaded direction |
| Translator.RoutingTable | server/chinese-tutor-api/app/translator.py:85-107 | a direct pair is used exactly when it exists; English is the pivot exactly when neither side is English; only en→en is unsupported |
| Translator.Translate | server/chinese-tutor-api/app/translator.py:104-107 | an unsupported direction gives the bracketed error text |
| Translator.ChineseToRussianViaEnglish | server/chinese-tutor-api/app/translator.py:94-99 | Chinese to Russian goes through English |
| Translator.SameLanguage | server/chinese-tutor-api/app/translator.py:85-107 | zh→zh takes the round trip through English; en→en is unsupported |
| Translator.TranslationKeysRange | server/chinese-tutor-api/app/translator.py:157-183 | the translations added are among english, russian and chinese |
| Translator.AddTranslations | server/chinese-tutor-api/app/translator.py:157-183 | exactly the keys of the direction are added, each holding the translation along its route |
| Translator.AddPinyin | server/chinese-tutor-api/app/translator.py:185-195 | pinyin is added exactly when asked for, Chinese text exists and it is not blank, and it holds the romanisation |
| Translator.JoinPinyin | server/chinese-tutor-api/app/translator.py:189-195 | the romanisation of the text, or the pinyin error text when the romaniser raises |
| Translator.TranslateAndRomanize | server/chinese-tutor-api/app/translator.py:157-195 | the translations and the pinyin together, with the earlier fields kept |
| Translator.ProcessText | server/chinese-tutor-api/app/translator.py:141-197 | the original is always returned; the detected language appears exactly when no source is given; a blank text or no target returns nothing else; otherwise the routed translations and the pinyin |
| Translator.KeysWithin | server/chinese-tutor-api/app/translator.py:141-197 | a result holding the fixed keys and the keys of its direction uses no key outside the six `process_text` can write |
| Validator.BasicChecksOnLists | server/chinese-tutor-api/app/validator.py:158-176 | on a string and a list, the checks pass exactly for ≥2 options, ≤200 characters, a gap and the answer among the options |
| Validator.BasicChecksRaise | server/chinese-tutor-api/app/validator.py:158-162 | options with no length make the checks raise |
| Validator.FirstMatch | server/chinese-tutor-api/app/validator.py:193-196 | the score of the first prediction that contains or is contained in the answer, and none exactly when no prediction matches |
| Validator.SemanticScore | server/chinese-tutor-api/app/validator.py:178-204 | without the model, or on a non-string sentence or answer, the score is the default 0.7 |
| Validator.SemanticScoreCases | server/chinese-tutor-api/app/validator.py:185-204 | with the model loaded: the score of the first prediction that contains or is contained in the answer; without a match, one minus the top prediction's score; with no predictions, the default 0.7 |
| Validator.Distractors | server/chinese-tutor-api/app/validator.py:110 | the distractors are exactly the options other than the answer, in order; there are none exactly when every option is the answer |
| Validator.DistractorsAppend | server/chinese-tutor-api/app/validator.py:110 | filtering distributes over concatenation |
| Validator.Mean | server/chinese-tutor-api/app/validator.py:239 | the mean is NaN exactly for no similarities |
| Validator.Closeness | server/chinese-tutor-api/app/validator.py:242-246 | `1 - abs(avg - 0.6)` is at most 1, equals 1 exactly at 0.6, and is NaN exactly for a NaN mean |
| Validator.ClosenessBounds | server/chinese-tutor-api/app/validator.py:242-246 | for similarities in [-1, 1] the score lies in [-0.6, 1]; it is at least 0.4 for a non-negative mean and negative below -0.4 |
| Validator.DistractorScore | server/chinese-tutor-api/app/validator.py:206-250 | without the model, or on a non-string sentence, the score is the default 0.6 |
| Validator.DistractorScoreBounds | server/chinese-tutor-api/app/validator.py:206-250 | with the model loaded and string options, the score is NaN exactly when there are no distractors, and otherwise lies in [-0.6, 1] for similarities in [-1, 1] |
| Validator.MeanBounds | server/chinese-tutor-api/app/validator.py:239 | the mean of similarities in [-1, 1] lies in [-1, 1] |
| Validator.SumBounds | server/chinese-tutor-api/app/validator.py:239 | a sum of numbers in [-1, 1] lies between minus and plus their count |
| Validator.Combine | server/chinese-tutor-api/app/validator.py:114 | the confidence is NaN exactly when the distractor score is |
| Validator.CombineBounds | server/chinese-tutor-api/app/validator.py:114 | scores in [0, 1] give a confidence in [0, 1] |
| Validator.Improvements | server/chinese-tutor-api/app/validator.py:124-128 | the sentence hint appears exactly below 0.7 semantic, the distractor hint exactly below 0.5, in that order |
| Validator.Hints | server/chinese-tutor-api/app/validator.py:124-128 | appending the hints one by one gives `Improvements` |
| Validator.Score | server/chinese-tutor-api/app/validator.py:113-122 | the exercise is valid exactly when the confidence exceeds 0.6 |
| Validator.ValidateExercise | server/chinese-tutor-api/app/validator.py:79-156 | the validation result, valid exactly when the confidence exceeds the threshold |
| Validator.StructuralRejection | server/chinese-tutor-api/app/validator.py:84-104 | a structural rejection does not depend on the model, is invalid with confidence 0, and a missing field always rejects |
| Validator.FallbacksAccept | server/chinese-tutor-api/app/validator.py:106-122 | without the model a structurally sound exercise scores 0.66 and is valid, with no hints |
| Validator.NoDistractorsInvalid | server/chinese-tutor-api/app/validator.py:110-117 | options that are all the answer give a NaN confidence, which is never valid |
| Validator.CrashAccepts | server/chinese-tutor-api/app/validator.py:150-156 | a check that raises makes the exercise valid with confidence 0.5 |
| Fallback.TargetLanguage | server/chinese-tutor-api/run_server.py:687 | the translation language is Russian or English, never Chinese |
| Fallback.Others | server/chinese-tutor-api/run_server.py:707-710 | the common words other than the word, in order |
| Fallback.OthersMembers | server/chinese-tutor-api/run_server.py:708-710 | a word is among the others exactly when it is in the list and is not the word; a word not in the list leaves the list whole |
| Fallback.OthersSnoc | server/chinese-tutor-api/run_server.py:708-710 | one more common word is kept exactly when it differs from the word |
| Fallback.OthersDropsAtMostOne | server/chinese-tutor-api/run_server.py:707-710 | leaving the word out of distinct words removes at most one and keeps them distinct |
| Fallback.FallbackOptions | server/chinese-tutor-api/run_server.py:705-714 | four distinct options: the word, then common words other than the word |
| Fallback.ChooseOptions | server/chinese-tutor-api/run_server.py:705-714 | the option loops compute `FallbackOptions` |
| Fallback.KeepOthers | server/chinese-tutor-api/run_server.py:706-710 | the collecting loop gives the word followed by the first three other common words |
| Fallback.UncommonWordOptions | server/chinese-tutor-api/run_server.py:705-710 | a word that is not common gets 东西, 事情, 学习 as distractors |
| Fallback.TranslatorOptions | server/chinese-tutor-api/run_server.py:703-715 | with the translator on, the served options are `FallbackOptions` |
| Fallback.StripKeepsLeading | server/chinese-tutor-api/app/translator.py:154 | a text starting with a non-space character is not blank after `strip` |
| Fallback.Template | server/chinese-tutor-api/run_server.py:672-678 | the template holds every fallback field except the note |
| Fallback.Romanized | server/chinese-tutor-api/run_server.py:681-698 | the translator step keeps every template field and adds no key beyond pinyin and translation |
| Fallback.Overwritten | server/chinese-tutor-api/run_server.py:691-697 | a non-empty pinyin or translation replaces the template's; other fields are kept |
| Fallback.Overwrite | server/chinese-tutor-api/run_server.py:691-697 | the two conditional assignments compute `Overwritten` |
| Fallback.ChineseFields | server/chinese-tutor-api/run_server.py:687-697 | `process_text` on Chinese text yields the romanised text as pinyin and the routed translation for the user's language, empty for a blank text |
| Fallback.FallbackRecord | server/chinese-tutor-api/run_server.py:667-722 | the fallback exercise has exactly its six fields |
| Fallback.Romanize | server/chinese-tutor-api/run_server.py:681-698 | the translator call fills pinyin and translation where it produced them |
| Fallback.GenerateExerciseFallback | server/chinese-tutor-api/run_server.py:667-722 | the fallback exercise for the word, language and translator state |
| Fallback.FallbackShape | server/chinese-tutor-api/run_server.py:672-722 | every fallback answers with the word, offers it first of four options, has a gap and carries the note; with the translator on, a non-empty word without underscores no longer appears in the sentence, since every occurrence became the gap |
| Fallback.GapHidesWord | server/chinese-tutor-api/run_server.py:700 | `sentence.replace(word, "____")` leaves no occurrence of a non-empty word without underscores |
| Fallback.TranslatorFields | server/chinese-tutor-api/run_server.py:681-698 | with the translator on, the pinyin is the romanised sentence and the translation the routed one, falling back to the template text |
| Fallback.TemplatePassesBasicChecks | server/chinese-tutor-api/run_server.py:672-678 | the template passes the validator's structural checks for any word of at most 75 characters |
| Generation.Tagged | server/chinese-tutor-api/run_server.py:626-627 | the model name is added exactly when one answered |
| Generation.TagReply | server/chinese-tutor-api/run_server.py:623-627 | the reply is extracted as the server's dict and tagged with the model that answered |
| Generation.Supplied | server/chinese-tutor-api/run_server.py:629-659 | supplementation may add only pinyin and translation and changes no other field |
| Generation.FilledEmpty | server/chinese-tutor-api/run_server.py:650-659 | filling adds no key beyond pinyin and translation and keeps every other field |
| Generation.FillGaps | server/chinese-tutor-api/run_server.py:650-659 | the two conditional assignments compute `FilledEmpty` |
| Generation.Supplement | server/chinese-tutor-api/run_server.py:629-659 | a complete exercise is unchanged; otherwise the completed sentence is supplemented; a non-string sentence raises |
| Generation.GenerateWithWord | server/chinese-tutor-api/run_server.py:615-665 | no reply gives the fallback; a reply is extracted, tagged and supplemented |
| Generation.Generated | server/chinese-tutor-api/run_server.py:615-665 | what a reply becomes: the fallback exercise, or the tagged extraction with every field kept and at most pinyin and translation added; with the translator off, the tagged extraction itself |
| Generation.SuppliedFillsOnlyGaps | server/chinese-tutor-api/run_server.py:645-656 | a present pinyin or translation is never overwritten and no key is lost |
| Generation.BlankSentenceAddsNothing | server/chinese-tutor-api/run_server.py:632-633 | a blank completed sentence adds nothing |
| Generation.MissingPinyinFilled | server/chinese-tutor-api/run_server.py:645-647 | a missing pinyin becomes the romanisation of the completed sentence when that is not empty |
| Generation.ErrorDictPassesThrough | server/chinese-tutor-api/run_server.py:623-633 | an extraction failure is returned as the tagged error dict and keeps its `error` key |
| Generation.CandidateAnswersWithWord | server/chinese-tutor-api/run_server.py:623-665 | an extracted exercise is served with the word as its answer whatever supplementation does |
| Retry.SummaryOf | server/chinese-tutor-api/run_server.py:403-408 | the summary copies validity and confidence, with scores 0.0 where the validator gave none |
| Retry.Revalidated | server/chinese-tutor-api/run_server.py:438-445 | a regenerated exercise carries its own validation marked as a retry |
| Retry.ErrorRepliesNeverFinish | server/chinese-tutor-api/run_server.py:430-437 | replies that keep carrying an `error` key never end the loop |
| Retry.ThreeRaisesKeepOriginal | server/chinese-tutor-api/run_server.py:485-511 | three raising attempts reach the fallback, whose unimported `pinyin` raises, so the original is served with that error |
| Retry.FallbackExercise | server/chinese-tutor-api/run_server.py:494-507 | the retry fallback answers with the word under `correctAnswer`, is tagged `fallback`, and is valid with 0.5 scores |
| Retry.RegenerateFixed | server/chinese-tutor-api/run_server.py:426-508 | the corrected retry loop computes `RetryFixed` |
| Retry.FixedAtMostThreeCalls | server/chinese-tutor-api/run_server.py:428-430 | the corrected loop reads at most attempts 1 to 3 |
| Retry.FixedThreeFailuresFallback | server/chinese-tutor-api/run_server.py:487-507 | three failed attempts give the retry fallback |
| Retry.FixedOutcomes | server/chinese-tutor-api/run_server.py:426-508 | the result is the original, the fallback, or the first usable attempt when it scored higher |
| Retry.AsWrittenAgreesWithoutErrors | server/chinese-tutor-api/run_server.py:426-508 | without error replies the loop as written ends and agrees with the corrected loop |
| Retry.RetryOnce | server/chinese-tutor-api/app/main.py:144-169 | the retry replaces the exercise exactly when it has no error and scored higher; otherwise the original is kept with the note |
| Retry.RetriedOnce | server/chinese-tutor-api/app/main.py:139-169 | the served exercise carries a summary; it is the retry, with its own summary, exactly when the regeneration has no error and is strictly more confident, otherwise the first exercise with the note and its original summary |
| Retry.NaNNeverReplaced | server/chinese-tutor-api/run_server.py:448 | an original with NaN confidence is never replaced by a regenerated one |
| Server.RefusalStatus | server/chinese-tutor-api/run_server.py:338-363 | the guard refusals are 400 and the others 500 |
| Server.RefusalMessage | server/chinese-tutor-api/run_server.py:338-374 | each refusal's `{"error": ...}` text in the copy's language: an unsupported code is quoted at the end of its message, and the exception of `.strip()` on a non-string text names the text's type; both `/translate` handlers answer a refusal with it |
| Server.TranslateGuards | server/chinese-tutor-api/run_server.py:343-363 | the request passes exactly when the text is a non-blank string, the target is a valid code and the source is absent or valid; the accepted target and source are the request's `target_lang` and `source_lang`, the source is "" (detect) exactly when `source_lang` is falsy, and `need_pinyin` is read by truthiness with default true |
| Server.BlankTextFirst | server/chinese-tutor-api/run_server.py:349-351 | a blank text is refused before anything else |
| Server.MissingTargetBeforeSource | server/chinese-tutor-api/run_server.py:353-360 | a missing target is refused before a bad source |
| Server.SourceBeforeTarget | server/chinese-tutor-api/run_server.py:357-363 | a bad source is refused before a bad target |
| Server.TranslateServer | server/chinese-tutor-api/run_server.py:330-374 | an uninitialised translator gives 500; a guard refusal gives its status and message; otherwise the body is `process_text` of the request's text, source, target and `need_pinyin` (`Translator.Processed`: original, detected language, routed translations, pinyin) |
| Server.TranslateApp | server/chinese-tutor-api/app/main.py:57-106 | the same guards and refusals with the app's messages; with `use_helsinki` off the original text and the note come back untranslated; on, the body is `process_text` of the request's arguments and has no error key |
| Server.TranslateOrEcho | server/chinese-tutor-api/app/main.py:93-98 | with `use_helsinki` off the original and the error note come back; on, the body is `process_text` of the arguments (`Translator.Processed`), which has no error key |
| Server.GenerateRequestOf | server/chinese-tutor-api/run_server.py:384-426 | the word is kept exactly when it is a truthy string; `system_language` defaults to "ru" and selects Russian exactly when it is "ru"; `validate` and `retry_on_invalid` are read by truthiness with default true |
| Server.DefaultsValidateAndRetry | server/chinese-tutor-api/run_server.py:384-426 | a body carrying only the word (and an HSK level and language) validates and regenerates an invalid first exercise |
| Server.DefaultLanguageIsRussian | server/chinese-tutor-api/run_server.py:386 | a body without `system_language` serves a Russian user |
| Server.BeforeRetry | server/chinese-tutor-api/run_server.py:384-426 | the regeneration loop is entered exactly for a present word, a usable first exercise, validation on, an invalid verdict and `retry_on_invalid`, holding the first exercise with its summary; a served first exercise carries a summary exactly when validation is on; a missing word gives the 400 message |
| Server.GenerateServer | server/chinese-tutor-api/run_server.py:376-520 | the handler, with the corrected loop (see ## Findings), computes `ServerOutcome` |
| Server.ServerMissingWord | server/chinese-tutor-api/run_server.py:389-390 | a missing word gives 400 |
| Server.ServerErrorBeforeValidation | server/chinese-tutor-api/run_server.py:395-396 | a generation error is returned before validation and does not depend on the validator |
| Server.ServerRetryOnlyWhenInvalid | server/chinese-tutor-api/run_server.py:398-426 | attempts after the first are read only when validation is on, the exercise is invalid and retries are allowed |
| Server.ServerAtMostFourCalls | server/chinese-tutor-api/run_server.py:393-508 | with the corrected loop (see ## Findings), a request reads at most four generation attempts |
| Server.ServerServedIsValidated | server/chinese-tutor-api/run_server.py:398-408 | with validation on, every served exercise carries a validation |
| Server.GenerateApp | server/chinese-tutor-api/app/main.py:109-183 | the handler computes `AppOutcome` |
| Server.AppRefusals | server/chinese-tutor-api/app/main.py:121-128 | a missing word gives 400; a generation error is returned as is and does not depend on the validator |
| Server.AppSingleRetry | server/chinese-tutor-api/app/main.py:144-169 | an invalid exercise is retried once and replaced exactly when the retry scored higher |
| Server.AsWrittenHandlerAgrees | server/chinese-tutor-api/run_server.py:376-520 | when no regeneration returns an `error` dict and not all three raise, the handler as written answers within three regeneration calls, and answers as the corrected one does |
| Server.AsWrittenHandlerHangs | server/chinese-tutor-api/run_server.py:430-487 | an invalid first exercise whose regenerations all return `error` dicts is never answered as written, while the corrected handler serves the fallback |
| Server.AsWrittenHandlerThreeRaises | server/chinese-tutor-api/run_server.py:485-511 | three raising regenerations serve the original exercise as written, with the `NameError` as its `validation_error`, while the corrected handler serves the fallback |
| Server.BrokenJsonLoopsForever | server/chinese-tutor-api/run_server.py:430-437 | a reply whose JSON span does not parse makes the retry loop as written run forever |

## Left out

- HTTP, Flask, logging and the listing of models: the reply of the first model that answered (`run_server.py:584-608`) is an input, as are `json.loads`, the translator's single-pair step and the romaniser.
- Loading the language, translation and masked-language models, and their tensor numerics: the scorer is an input of predictions and a mean cosine similarity.
- Validator.DistractorScore: the similarity is a function of two options. In the source, `[correct_answer] + distractors` is embedded as one padded batch, and `mean(dim=1)` averages over the padding too. So each similarity there also depends on the longest option in the batch. No proved property relies on the pairwise form, but this dependence is not captured.
- JSON equality is structural. Numbers compare by value, so `1 == 1.0` holds as in Python. But `true == 1` and `false == 0` are false in the model, and a nested dict compared with the same dict in another key order is unequal. An option list such as `[true, 1]` therefore filters and matches differently from Python in `Validator.Distractors` and in the `in` of `Validator.BasicChecks`.
- `generate_exercise_with_gemma` in `app/main.py` (its language-model call): the `/generate` handler of that copy takes the extracted records as an input stream.
- A request body that is not a JSON object, and a `word` that is not a string: `Server.GenerateRequestOf` reads a non-string word as "", so a truthy non-string word is refused, where the source would pass it on to the generator. A `system_language` that is not a string reads as "", which, like every value but "ru", selects English.
- Server.Render: numbers and containers are not rendered into the refusal texts.
- Server.TypeName: a JSON number written with a fraction or exponent but integral in value (1.0, 1e2) is named int, where Python says float. The model's numbers do not record how they were written.
- Extraction.ErrorDetail: the exception texts other than the missing-field one are approximations of Python's.
- PyStr.Replace: its own contract says only that a text without the pattern is unchanged and that the replacement appears. That no occurrence is left is proved separately, by `PyStr.ReplaceAllRemoves`, for a replacement that shares no character with the pattern.
- PyStr.Lower: covers ASCII and basic Cyrillic only, which is all the keyword tests need.
- Server.GenerateServer: the method and `ServerOutcome` use the corrected regeneration loop. The handler as written is the function `ServerAsWritten`, built on `Retry.RetryAsWritten`. It is related to the corrected one by `Server.AsWrittenHandlerAgrees`, `Server.AsWrittenHandlerHangs`, `Server.AsWrittenHandlerThreeRaises` and `Server.BrokenJsonLoopsForever`.
- Retry.RetryAsWritten: the loop as written may never end. It is modelled with a budget of calls and an `Unfinished` outcome.
- The `validation_error` branch of `app/main.py`: it can be reached only when the validator raises outside its own handler, which the model does not allow.
- Floating point: scores are reals. NaN is modelled only where an empty mean produces it.
- `_direct_translate`: kept opaque. Its caching and its exception text are not modelled.
- `analyze_gap_placement` in the validator: not on the path of any handler.

## Findings

| source | as written | input that shows it | evidently intended | confidence | as-written member | corrected member |
|---|---|---|---|---|---|---|
| server/chinese-tutor-api/run_server.py:430-487 | a regenerated result with an `error` key neither breaks the loop nor advances `retry_count`, so the loop repeats the same call | a model reply with a JSON span that does not parse, on every retry | treat an error reply as a failed attempt, so the loop makes at most three calls | not executed | Retry.ErrorRepliesNeverFinish | Retry.FixedAtMostThreeCalls |
| server/chinese-tutor-api/run_server.py:494-511 | the fallback exercise calls `pinyin.get_pinyin`, but `pinyin` is never imported; the NameError is caught at 509-511 and the original exercise is served with that error | three regeneration attempts that raise; the script's own `generate_exercise_with_word` catches every exception and returns the fallback instead (run_server.py:661-663), so with that generator the branch is never reached | serve the fallback exercise with the word's romanisation | not executed | Retry.ThreeRaisesKeepOriginal | Retry.FixedThreeFailuresFallback |
