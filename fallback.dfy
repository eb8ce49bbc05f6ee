/**
  * `generate_exercise_fallback(word, hsk_level, system_language)`: the exercise the server
  * serves when the language model is unreachable or generation fails. Without the
  * translator it is a fixed template; with it, a short sentence around the word is
  * romanised and translated, and the options are the word and three common words.
  */
module Fallback {
  import opened Wrappers
  import opened PyStr
  import opened PyJson
  import opened Translator
  import Extraction
  import Validator

  /** The common words the fallback draws its distractors from, in order. */
  const CommonWords: seq<string> := ["东西", "事情", "学习", "工作", "时间", "问题", "地方", "方法"]

  /** The note every fallback exercise carries. */
  const FallbackNote: string := "Generated using fallback method (limited LM Studio functionality)"

  /** The fields of a fallback exercise. */
  const FallbackFields: set<string> := {"sentence_with_gap", "options", "answer", "pinyin", "translation", "note"}

  /** The template sentence used when the translator is off. */
  function TemplateSentence(word: string): string
  {
    "这是一个使用" + word + "的" + Extraction.Gap + ".  (Это предложение с использованием " + word + ".)"
  }

  /** The template translation, Russian for a Russian-speaking user and English otherwise. */
  function TemplateTranslation(word: string, systemLanguage: string): string
  {
    if systemLanguage == "ru" then "Это предложение с использованием " + word + "."
    else "This is a sentence using " + word + "."
  }

  /** The template options: the word, then three numbered fillers starting at 2. */
  function TemplateOptions(word: string): seq<string>
  {
    [word, "选项2", "选项3", "选项4"]
  }

  /** The sentence given to the translator: "I like to use <word>." */
  function TranslatorSentence(word: string): string
  {
    "我喜欢用" + word + "."
  }

  /** The language the translation is wanted in: Russian for a Russian-speaking user, else English. */
  function TargetLanguage(systemLanguage: string): (lang: string)
    ensures lang in Languages && lang != "zh"
  {
    if systemLanguage == "ru" then "ru" else "en"
  }

  /** The words of `words` other than `word`, in order. */
  function Others(words: seq<string>, word: string): (r: seq<string>)
    ensures |r| <= |words|
  {
    if words == [] then []
    else Others(words[..|words| - 1], word) + (if words[|words| - 1] != word then [words[|words| - 1]] else [])
  }

  /** `Others` keeps exactly the words that differ from `word`, and all of them when `word` is absent. */
  lemma {:induction false} OthersMembers(words: seq<string>, word: string)
    ensures forall x :: x in Others(words, word) <==> x in words && x != word
    ensures word !in words ==> Others(words, word) == words
    decreases |words|
  {
    if words != [] {
      var init := words[..|words| - 1];
      OthersMembers(init, word);
      assert words == init + [words[|words| - 1]];
    }
  }

  /** One more word is kept exactly when it differs from `word`. */
  lemma OthersSnoc(words: seq<string>, next: string, word: string)
    ensures Others(words + [next], word) == Others(words, word) + (if next != word then [next] else [])
  {
    assert (words + [next])[..|words|] == words;
  }

  /** No word occurs twice in `words`. */
  predicate Distinct(words: seq<string>)
  {
    forall i, j :: 0 <= i < j < |words| ==> words[i] != words[j]
  }

  /** Leaving one word out of a list without repeats removes at most one entry. */
  lemma {:induction false} OthersDropsAtMostOne(words: seq<string>, word: string)
    requires Distinct(words)
    ensures |Others(words, word)| + 1 >= |words|
    ensures Distinct(Others(words, word))
    decreases |words|
  {
    if words != [] {
      var init := words[..|words| - 1];
      var last := words[|words| - 1];
      assert Distinct(init);
      OthersDropsAtMostOne(init, word);
      OthersMembers(init, word);
      if last == word {
        assert word !in init;
      } else {
        assert last !in Others(init, word);
      }
    }
  }

  lemma CommonWordsDistinct()
    ensures Distinct(CommonWords)
  {
  }

  /** The translator-path options: the word and the first three common words that differ from it. */
  function FallbackOptions(word: string): (r: seq<string>)
    ensures |r| == Extraction.MaxOptions && r[0] == word
    ensures Distinct(r)
    ensures forall k :: 1 <= k < |r| ==> r[k] in CommonWords && r[k] != word
  {
    CommonWordsDistinct();
    OthersDropsAtMostOne(CommonWords, word);
    OthersMembers(CommonWords, word);
    var others := Others(CommonWords, word);
    var r := [word] + Extraction.Take(others, 3);
    assert forall k :: 1 <= k < |r| ==> r[k] == others[k - 1] && r[k] in others;
    r
  }

  /** `strip()` keeps a text that starts with a character other than whitespace non-empty. */
  lemma StripKeepsLeading(s: string)
    requires s != [] && s[0] !in Whitespace
    ensures Strip(s) != ""
  {
    assert LStrip(s, Whitespace) == s;
  }

  /** The template exercise, before the translator is consulted. */
  function Template(word: string, systemLanguage: string): (r: Record)
    ensures r.Keys == FallbackFields - {"note"}
  {
    map["sentence_with_gap" := JStr(TemplateSentence(word)),
        "options" := Strs(TemplateOptions(word)),
        "answer" := JStr(word),
        "pinyin" := JStr(""),
        "translation" := JStr(TemplateTranslation(word, systemLanguage))]
  }

  /** The pinyin `process_text(text, "zh", ..., need_pinyin=True)` returns for Chinese text, ""
      where it returns none (a blank text). */
  function PinyinOf(text: string, romanize: string -> Option<string>): string
  {
    if Strip(text) == "" then "" else PinyinValue(romanize(text))
  }

  /** The translation the same call returns in the user's language: Russian goes through
      English. "" where it returns none (a blank text). */
  function TranslationOf(text: string, systemLanguage: string, direct: (string, string) -> string): string
  {
    if Strip(text) == "" then ""
    else
      var english := Translate(text, "zh", "en", direct);
      if systemLanguage == "ru" then Translate(english, "en", "ru", direct) else english
  }

  /** The template with the translator's pinyin and translation, where they are not empty. */
  function Romanized(template: Record, word: string, systemLanguage: string,
                     direct: (string, string) -> string, romanize: string -> Option<string>): (r: Record)
    ensures template.Keys <= r.Keys <= template.Keys + {"pinyin", "translation"}
    ensures forall k :: k in template && k != "pinyin" && k != "translation" ==> r[k] == template[k]
  {
    Overwritten(template, PinyinOf(TranslatorSentence(word), romanize),
                TranslationOf(TranslatorSentence(word), systemLanguage, direct))
  }

  /** The template with `pinyin` and `translation` written over its placeholders where they are not empty. */
  function Overwritten(template: Record, pinyin: string, translation: string): (r: Record)
    ensures template.Keys <= r.Keys <= template.Keys + {"pinyin", "translation"}
    ensures forall k :: k in template && k != "pinyin" && k != "translation" ==> r[k] == template[k]
  {
    var withPinyin := if pinyin != "" then template["pinyin" := JStr(pinyin)] else template;
    if translation != "" then withPinyin["translation" := JStr(translation)] else withPinyin
  }

  /** The exercise `generate_exercise_fallback` returns, in closed form. */
  function FallbackRecord(word: string, systemLanguage: string, translatorEnabled: bool,
                          direct: (string, string) -> string, romanize: string -> Option<string>): (r: Record)
    ensures r.Keys == FallbackFields
  {
    var template := Template(word, systemLanguage);
    var filled :=
      if !translatorEnabled then template
      else
        Romanized(template, word, systemLanguage, direct, romanize)
          ["sentence_with_gap" := JStr(Replace(TranslatorSentence(word), word, Extraction.Gap))]
          ["options" := Strs(FallbackOptions(word))];
    filled["note" := JStr(FallbackNote)]
  }

  /** The call `process_text(text, "zh", target, need_pinyin=True)` and the two fields read back
      from its result, "" where the result has none. */
  method ChineseFields(text: string, systemLanguage: string,
                       direct: (string, string) -> string, romanize: string -> Option<string>)
    returns (pinyin: string, translation: string)
    ensures pinyin == PinyinOf(text, romanize)
    ensures translation == TranslationOf(text, systemLanguage, direct)
  {
    var targetLang := TargetLanguage(systemLanguage);
    var trans := ProcessText(text, "zh", targetLang, true, direct, romanize);
    pinyin := if "pinyin" in trans then trans["pinyin"] else "";
    if targetLang == "ru" {
      translation := if "russian" in trans then trans["russian"] else "";
    } else {
      translation := if "english" in trans then trans["english"] else "";
    }
    if Strip(text) == "" {
      assert trans.Keys == {"original"};
    } else if targetLang == "ru" {
      assert "russian" in TranslationKeys("zh", targetLang);
      assert "russian" in trans;
    } else {
      assert "english" in TranslationKeys("zh", targetLang);
      assert "english" in trans;
    }
  }

  /** The translator's pinyin and translation written over the template's placeholders. */
  method Romanize(template: Record, word: string, systemLanguage: string,
                  direct: (string, string) -> string, romanize: string -> Option<string>)
    returns (result: Record)
    ensures result == Romanized(template, word, systemLanguage, direct, romanize)
  {
    var pinyin, translation := ChineseFields(TranslatorSentence(word), systemLanguage, direct, romanize);
    result := Overwrite(template, pinyin, translation);
  }

  /** The two conditional assignments of the fallback's translator step. */
  method Overwrite(template: Record, pinyin: string, translation: string) returns (result: Record)
    ensures result == Overwritten(template, pinyin, translation)
  {
    result := template;
    if pinyin != "" {
      result := result["pinyin" := JStr(pinyin)];
    }
    if translation != "" {
      result := result["translation" := JStr(translation)];
    }
  }

  /** The option loop: the word, then each of `words` that differs from it while fewer than four are held. */
  method KeepOthers(words: seq<string>, word: string) returns (options: seq<string>)
    ensures options == [word] + Extraction.Take(Others(words, word), 3)
  {
    options := [word];
    for i := 0 to |words|
      invariant options == [word] + Extraction.Take(Others(words[..i], word), 3)
    {
      var seen, next := words[..i], words[i];
      var others := Others(seen, word);
      OthersSnoc(seen, next, word);
      assert words[..i + 1] == seen + [next];
      if next == word {
        assert Others(words[..i + 1], word) == others;
      } else {
        Extraction.OptionsStep(word, others, next, options);
        assert Others(words[..i + 1], word) == others + [next];
      }
      if |options| < 4 && next != word {
        options := options + [next];
      }
    }
    assert words[..|words|] == words;
  }

  /** The option loop over the common words, then the padding loop. */
  method ChooseOptions(word: string) returns (options: seq<string>)
    ensures options == FallbackOptions(word)
  {
    options := KeepOthers(CommonWords, word);
    options := Extraction.PadOptions(options);
  }

  /** `generate_exercise_fallback`: the template, enriched through the translator when it is on. */
  method GenerateExerciseFallback(word: string, systemLanguage: string, translatorEnabled: bool,
                                  direct: (string, string) -> string, romanize: string -> Option<string>)
    returns (result: Record)
    ensures result == FallbackRecord(word, systemLanguage, translatorEnabled, direct, romanize)
  {
    result := Template(word, systemLanguage);
    if translatorEnabled {
      result := Romanize(result, word, systemLanguage, direct, romanize);
      result := result["sentence_with_gap" := JStr(Replace(TranslatorSentence(word), word, Extraction.Gap))];
      var options := ChooseOptions(word);
      result := result["options" := Strs(options)];
    }
    result := result["note" := JStr(FallbackNote)];
  }

  // ---------------------------------------------------------------------------
  // What the fallback promises

  /** Every fallback exercise answers with the word, offers it first among four options and
      carries the fallback note. */
  lemma FallbackShape(word: string, systemLanguage: string, translatorEnabled: bool,
                      direct: (string, string) -> string, romanize: string -> Option<string>)
    ensures var r := FallbackRecord(word, systemLanguage, translatorEnabled, direct, romanize);
            && r["answer"] == JStr(word)
            && r["options"].JArr? && |r["options"].items| == 4 && r["options"].items[0] == JStr(word)
            && r["note"] == JStr(FallbackNote)
            && r["sentence_with_gap"].JStr? && Contains(r["sentence_with_gap"].s, Extraction.Gap)
            && (translatorEnabled && word != "" && '_' !in word ==> !Contains(r["sentence_with_gap"].s, word))
  {
    var r := FallbackRecord(word, systemLanguage, translatorEnabled, direct, romanize);
    if translatorEnabled {
      var template := Template(word, systemLanguage);
      var o := Romanized(template, word, systemLanguage, direct, romanize);
      assert o["answer"] == template["answer"] == JStr(word);
      var sentence := TranslatorSentence(word);
      assert OccursAt(sentence, word, 4);
      if word != "" && '_' !in word {
        GapHidesWord(word);
      }
    } else {
      var s := TemplateSentence(word);
      assert OccursAt(s, Extraction.Gap, 7 + |word|);
    }
  }

  /** Every occurrence of a word without underscores in the translator sentence becomes the
      gap, so the word no longer appears in it. */
  lemma GapHidesWord(word: string)
    requires word != "" && '_' !in word
    ensures !Contains(Replace(TranslatorSentence(word), word, Extraction.Gap), word)
  {
    forall k, m | 0 <= k < |Extraction.Gap| && 0 <= m < |word|
      ensures Extraction.Gap[k] != word[m]
    {
      assert Extraction.Gap[k] == '_';
    }
    assert NoCommonChar(Extraction.Gap, word);
    ReplaceAllRemoves(TranslatorSentence(word), word, Extraction.Gap);
  }

  /** With the translator on, the options are `FallbackOptions`: three distinct common words
      other than the word follow it. */
  lemma TranslatorOptions(word: string, systemLanguage: string,
                          direct: (string, string) -> string, romanize: string -> Option<string>)
    ensures FallbackRecord(word, systemLanguage, true, direct, romanize)["options"] == Strs(FallbackOptions(word))
  {
  }

  /** For a word that is not itself common the distractors are the first three common words. */
  lemma UncommonWordOptions(word: string)
    requires word !in CommonWords
    ensures FallbackOptions(word) == [word, "东西", "事情", "学习"]
  {
    OthersMembers(CommonWords, word);
    assert Extraction.Take(CommonWords, 3) == ["东西", "事情", "学习"];
  }

  /** With the translator on, the pinyin and translation come from the translator when it
      produces something; an empty translation leaves the template one in place. */
  lemma TranslatorFields(word: string, systemLanguage: string,
                         direct: (string, string) -> string, romanize: string -> Option<string>)
    ensures var r := FallbackRecord(word, systemLanguage, true, direct, romanize);
            var sentence := TranslatorSentence(word);
            var english := Translate(sentence, "zh", "en", direct);
            var translated := if systemLanguage == "ru" then Translate(english, "en", "ru", direct) else english;
            && r["pinyin"] == JStr(PinyinValue(romanize(sentence)))
            && r["translation"] == JStr(if translated != "" then translated else TemplateTranslation(word, systemLanguage))
  {
    var sentence := TranslatorSentence(word);
    StripKeepsLeading(sentence);
    var template := Template(word, systemLanguage);
    var pinyin := PinyinOf(sentence, romanize);
    var translation := TranslationOf(sentence, systemLanguage, direct);
    var o := Overwritten(template, pinyin, translation);
    assert o["pinyin"] == JStr(pinyin);
    assert o["translation"] == JStr(if translation != "" then translation else TemplateTranslation(word, systemLanguage));
    FallbackKeepsRomanized(word, systemLanguage, direct, romanize);
  }

  /** The fields written after the translator step leave its pinyin and translation alone. */
  lemma FallbackKeepsRomanized(word: string, systemLanguage: string,
                               direct: (string, string) -> string, romanize: string -> Option<string>)
    ensures var r := FallbackRecord(word, systemLanguage, true, direct, romanize);
            var o := Romanized(Template(word, systemLanguage), word, systemLanguage, direct, romanize);
            && "pinyin" in o && "translation" in o
            && r["pinyin"] == o["pinyin"] && r["translation"] == o["translation"]
  {
  }

  /** Without the translator the template passes the validator's structural checks for any word
      of at most 75 characters: two options or more, a gap, at most 200 characters, and the
      answer among the options. */
  lemma TemplatePassesBasicChecks(word: string)
    requires |word| <= 75
    ensures Validator.BasicChecks(JStr(TemplateSentence(word)), Strs(TemplateOptions(word)), JStr(word)) == Some(true)
  {
    var s := TemplateSentence(word);
    assert |s| == 50 + 2 * |word|;
    assert OccursAt(s, Extraction.Gap, 7 + |word|);
    Validator.BasicChecksOnLists(s, Strs(TemplateOptions(word)).items, JStr(word));
    assert Strs(TemplateOptions(word)).items[0] == JStr(word);
  }
}
