/**
  * The Helsinki-NLP translator: language detection by character ranges, routing of a
  * translation request over the fixed table of model pairs (directly, or in two steps
  * via English), and `process_text`, which decides which translations and whether a
  * pinyin reading go into the result dict.
  *
  * The model call `_direct_translate(text, pair)` is the parameter `direct`; it never
  * raises (it turns every failure into an error string), so the two-step route's own
  * exception handler is never reached. The pinyin library is the parameter `romanize`,
  * whose `None` stands for an exception.
  */
module Translator {
  import opened Wrappers
  import opened PyStr

  /** The keys of `model_configs`: the language pairs with a model. */
  const ModelPairs: set<string> := {"zh-en", "en-zh", "en-ru", "ru-en"}

  /** The same table as pairs of codes; `KeyIsDirection` shows that looking a key up in
      `ModelPairs` and looking its two codes up here agree. */
  const ModelDirections: set<(string, string)> := {("zh", "en"), ("en", "zh"), ("en", "ru"), ("ru", "en")}

  /** The languages the HTTP layer accepts. */
  const Languages: set<string> := {"zh", "en", "ru"}

  /** `f"{source}-{target}"`. */
  function Pair(source: string, target: string): string
  {
    source + "-" + target
  }

  // ---------------------------------------------------------------------------
  // Language detection

  /** Cyrillic capital A to small ya, U+0410..U+044F (Ё and ё lie outside). */
  predicate IsCyrillic(c: char)
  {
    '\U{0410}' <= c <= '\U{044F}'
  }

  /** `sum(1 for char in text if '一' <= char <= '鿿')`. */
  function CountCjk(text: string): (n: nat)
    ensures n <= |text|
    ensures (forall k :: 0 <= k < |text| ==> IsCjk(text[k])) ==> n == |text|
    ensures (forall k :: 0 <= k < |text| ==> !IsCjk(text[k])) ==> n == 0
  {
    if text == [] then 0
    else CountCjk(text[..|text| - 1]) + (if IsCjk(text[|text| - 1]) then 1 else 0)
  }

  /** `sum(1 for char in text if 'А' <= char <= 'я')`. */
  function CountCyrillic(text: string): (n: nat)
    ensures n <= |text|
    ensures (forall k :: 0 <= k < |text| ==> IsCyrillic(text[k])) ==> n == |text|
    ensures (forall k :: 0 <= k < |text| ==> !IsCyrillic(text[k])) ==> n == 0
  {
    if text == [] then 0
    else CountCyrillic(text[..|text| - 1]) + (if IsCyrillic(text[|text| - 1]) then 1 else 0)
  }

  /** `_detect_language`: "unknown" for empty text, else "zh" when more than a fifth of the
      characters are CJK, else "ru" when more than a fifth are Cyrillic, else "en".
      `count > len(text) * 0.2` is written `5 * count > len(text)`. */
  function DetectLanguage(text: string): (lang: string)
    ensures lang in {"unknown", "zh", "ru", "en"}
    ensures lang == "unknown" <==> text == ""
  {
    if text == "" then "unknown"
    else if 5 * CountCjk(text) > |text| then "zh"
    else if 5 * CountCyrillic(text) > |text| then "ru"
    else "en"
  }

  /** Text made only of CJK ideographs is Chinese. */
  lemma AllCjkIsChinese(text: string)
    requires text != "" && forall k :: 0 <= k < |text| ==> IsCjk(text[k])
    ensures DetectLanguage(text) == "zh"
  {
  }

  /** Text made only of letters А..я is Russian. */
  lemma AllCyrillicIsRussian(text: string)
    requires text != "" && forall k :: 0 <= k < |text| ==> IsCyrillic(text[k])
    ensures DetectLanguage(text) == "ru"
  {
    assert !IsCjk(text[0]);
    assert CountCjk(text) == 0 by {
      forall k | 0 <= k < |text| ensures !IsCjk(text[k]) {
        assert IsCyrillic(text[k]);
      }
    }
  }

  /** Non-empty text with neither CJK nor А..я letters (Latin text, or Ё alone) counts as English. */
  lemma NeitherIsEnglish(text: string)
    requires text != ""
    requires forall k :: 0 <= k < |text| ==> !IsCjk(text[k]) && !IsCyrillic(text[k])
    ensures DetectLanguage(text) == "en"
  {
  }

  /** Chinese wins over Russian: text that is more than a fifth CJK is "zh" whatever else it holds. */
  lemma ChineseCheckedFirst(text: string)
    requires 5 * CountCjk(text) > |text|
    ensures DetectLanguage(text) == "zh"
  {
  }

  /** Counting over a concatenation adds up; the detection threshold is about the whole text. */
  lemma {:induction false} CountCjkAppend(a: string, b: string)
    ensures CountCjk(a + b) == CountCjk(a) + CountCjk(b)
    decreases |b|
  {
    if b == [] {
      assert a + b == a;
    } else {
      var b' := b[..|b| - 1];
      CountCjkAppend(a, b');
      assert (a + b)[..|a + b| - 1] == a + b';
    }
  }

  // ---------------------------------------------------------------------------
  // Routing

  /** How `translate` serves a request. */
  datatype Route = Direct(pair: string) | ViaEnglish(first: string, second: string) | Unsupported

  /** The route `translate` takes: the direct model if its key is loaded, else the two models
      through English if both keys are, else none. Keys are looked up as code pairs. */
  function RouteOf(source: string, target: string): (r: Route)
    ensures r.Direct? <==> Pair(source, target) in ModelPairs
    ensures r.Direct? ==> r.pair == Pair(source, target) && r.pair in ModelPairs
    ensures r.ViaEnglish? ==> r.first in ModelPairs && r.second in ModelPairs
  {
    KeyIsDirection(source, target);
    KeyIsDirection(source, "en");
    KeyIsDirection("en", target);
    if (source, target) in ModelDirections then Direct(Pair(source, target))
    else if (source, "en") in ModelDirections && ("en", target) in ModelDirections then ViaEnglish(Pair(source, "en"), Pair("en", target))
    else Unsupported
  }

  /** A model key names its two codes: `f"{source}-{target}"` is a key exactly when
      `(source, target)` is a direction of the table. */
  lemma KeyIsDirection(source: string, target: string)
    ensures Pair(source, target) in ModelPairs <==> (source, target) in ModelDirections
  {
    var key := Pair(source, target);
    if key in ModelPairs {
      DashSplit(source, target, key);
      if key == "zh-en" {
        assert key[..2] == "zh" && key[3..] == "en";
      } else if key == "en-zh" {
        assert key[..2] == "en" && key[3..] == "zh";
      } else if key == "en-ru" {
        assert key[..2] == "en" && key[3..] == "ru";
      } else {
        assert key[..2] == "ru" && key[3..] == "en";
      }
    }
    if (source, target) in ModelDirections {
      assert Pair("zh", "en") == "zh-en" && Pair("en", "zh") == "en-zh" && Pair("en", "ru") == "en-ru" && Pair("ru", "en") == "ru-en";
    }
  }

  /** A five-character key whose only dash is in the middle splits into its two halves. */
  lemma DashSplit(source: string, target: string, key: string)
    requires Pair(source, target) == key
    requires |key| == 5 && key[2] == '-' && key[0] != '-' && key[1] != '-' && key[3] != '-' && key[4] != '-'
    ensures source == key[..2] && target == key[3..]
  {
    assert key[|source|] == '-';
    assert |source| == 2;
    assert source == key[..|source|];
    assert target == key[|source| + 1..];
  }

  /** `Translator.translate(text, source, target)` with `_direct_translate` as `direct`. */
  function Translate(text: string, source: string, target: string, direct: (string, string) -> string): (r: string)
    ensures RouteOf(source, target).Unsupported? ==>
              r == "[Unsupported translation direction: " + source + " to " + target + "]"
  {
    match RouteOf(source, target)
    case Direct(pair) => direct(text, pair)
    case ViaEnglish(first, second) => direct(direct(text, first), second)
    case Unsupported => "[Unsupported translation direction: " + source + " to " + target + "]"
  }

  /** The routing table over the three languages: the four model pairs go direct, every other
      pair except English to English goes through English, and English to English is refused. */
  lemma RoutingTable(source: string, target: string)
    requires source in Languages && target in Languages
    ensures RouteOf(source, target).Direct? <==> Pair(source, target) in ModelPairs
    ensures RouteOf(source, target).ViaEnglish? <==> source != "en" && target != "en"
    ensures RouteOf(source, target).Unsupported? <==> source == "en" && target == "en"
  {
    assert Pair("zh", "en") == "zh-en" && Pair("en", "zh") == "en-zh" && Pair("en", "ru") == "en-ru" && Pair("ru", "en") == "ru-en";
    assert Pair("zh", "zh") == "zh-zh" && Pair("zh", "ru") == "zh-ru" && Pair("ru", "zh") == "ru-zh";
    assert Pair("ru", "ru") == "ru-ru" && Pair("en", "en") == "en-en";
  }

  /** Chinese to Russian is the Chinese-English model followed by the English-Russian one. */
  lemma ChineseToRussianViaEnglish(text: string, direct: (string, string) -> string)
    ensures Translate(text, "zh", "ru", direct) == direct(direct(text, "zh-en"), "en-ru")
  {
    assert Pair("zh", "ru") == "zh-ru" && Pair("zh", "en") == "zh-en" && Pair("en", "ru") == "en-ru";
  }

  /** A same-language request is routed through English too, except English itself. */
  lemma SameLanguage(text: string, direct: (string, string) -> string)
    ensures Translate(text, "zh", "zh", direct) == direct(direct(text, "zh-en"), "en-zh")
    ensures Translate(text, "en", "en", direct) == "[Unsupported translation direction: en to en]"
  {
    assert Pair("zh", "zh") == "zh-zh" && Pair("zh", "en") == "zh-en" && Pair("en", "zh") == "en-zh";
    assert Pair("en", "en") == "en-en";
  }

  // ---------------------------------------------------------------------------
  // process_text

  /** The translation keys `process_text` adds for a direction; none for any other direction.
      Chinese to English adds no Russian: the test `"ru" in model_configs` looks for a language
      among keys that are language pairs. */
  function TranslationKeys(source: string, target: string): set<string>
  {
    if source == "zh" && target == "en" then {"english"}
    else if source == "zh" && target == "ru" then {"english", "russian"}
    else if source == "en" && target == "zh" then {"chinese"}
    else if source == "en" && target == "ru" then {"russian"}
    else if source == "ru" && target == "en" then {"english"}
    else if source == "ru" && target == "zh" then {"english", "chinese"}
    else {}
  }

  /** Only the three translation keys are ever added. */
  lemma TranslationKeysRange(source: string, target: string)
    ensures TranslationKeys(source, target) <= {"english", "russian", "chinese"}
  {
  }

  /** The text pinyin is generated from, when there is one. */
  function ChineseText(text: string, source: string, result: map<string, string>): string
  {
    if source == "zh" then text else if "chinese" in result then result["chinese"] else ""
  }

  /** The value stored under "pinyin". */
  function PinyinValue(romanized: Option<string>): string
  {
    match romanized
    case Some(p) => p
    case None => "[Pinyin generation error]"
  }

  /** The translation step of `process_text`: adds the keys of the direction to `base`. */
  method AddTranslations(base: map<string, string>, text: string, source: string, target: string,
                         direct: (string, string) -> string)
    returns (result: map<string, string>)
    requires "english" !in base && "russian" !in base && "chinese" !in base
    ensures result.Keys == base.Keys + TranslationKeys(source, target)
    ensures forall k :: k in base ==> result[k] == base[k]
    ensures "english" in result ==> result["english"] == Translate(text, source, "en", direct)
    ensures "russian" in result ==>
              result["russian"] == if source == "zh" then Translate(Translate(text, "zh", "en", direct), "en", "ru", direct)
                                   else Translate(text, "en", "ru", direct)
    ensures "chinese" in result ==>
              result["chinese"] == if source == "ru" then Translate(Translate(text, "ru", "en", direct), "en", "zh", direct)
                                   else Translate(text, "en", "zh", direct)
  {
    result := base;
    if source == "zh" && target in ["en", "ru"] {
      if target == "en" {
        var english := Translate(text, "zh", "en", direct);
        result := result["english" := english];
        if "ru" in ModelPairs {
          result := result["russian" := Translate(english, "en", "ru", direct)];
        }
      } else {
        result := result["english" := Translate(text, "zh", "en", direct)];
        result := result["russian" := Translate(result["english"], "en", "ru", direct)];
      }
    } else if source == "en" && target in ["zh", "ru"] {
      if target == "zh" {
        result := result["chinese" := Translate(text, "en", "zh", direct)];
      } else {
        result := result["russian" := Translate(text, "en", "ru", direct)];
      }
    } else if source == "ru" && target in ["zh", "en"] {
      if target == "en" {
        result := result["english" := Translate(text, "ru", "en", direct)];
      } else {
        result := result["english" := Translate(text, "ru", "en", direct)];
        result := result["chinese" := Translate(result["english"], "en", "zh", direct)];
      }
    }
  }

  /** The pinyin step of `process_text`. */
  method AddPinyin(base: map<string, string>, text: string, source: string, needPinyin: bool,
                   romanize: string -> Option<string>)
    returns (result: map<string, string>)
    requires "pinyin" !in base
    ensures var wanted := needPinyin && (source == "zh" || "chinese" in base) && Strip(ChineseText(text, source, base)) != "";
            result.Keys == base.Keys + (if wanted then {"pinyin"} else {})
    ensures forall k :: k in base ==> result[k] == base[k]
    ensures "pinyin" in result ==> result["pinyin"] == PinyinValue(romanize(ChineseText(text, source, base)))
  {
    ghost var wanted := needPinyin && (source == "zh" || "chinese" in base) && Strip(ChineseText(text, source, base)) != "";
    ghost var value := PinyinValue(romanize(ChineseText(text, source, base)));
    result := base;
    if needPinyin && (source == "zh" || "chinese" in result) {
      var chineseText := if source == "zh" then text else if "chinese" in result then result["chinese"] else "";
      if Strip(chineseText) != "" {
        var pinyin := JoinPinyin(chineseText, romanize);
        result := result["pinyin" := pinyin];
      }
    }
    assert result == if wanted then base["pinyin" := value] else base;
    AddedKey(base, "pinyin", value, wanted, result);
  }

  /** A map that is `base`, or `base` with one new key, keeps every old entry. */
  lemma AddedKey(base: map<string, string>, key: string, value: string, added: bool, result: map<string, string>)
    requires key !in base
    requires result == if added then base[key := value] else base
    ensures result.Keys == base.Keys + (if added then {key} else {})
    ensures forall k :: k in base ==> result[k] == base[k]
    ensures key in result ==> result[key] == value
  {
  }

  /** `' '.join(item[0] for item in pinyin(chinese_text, style=Style.TONE))`, with the error text
      when the romaniser raises. */
  method JoinPinyin(chineseText: string, romanize: string -> Option<string>) returns (pinyin: string)
    ensures pinyin == PinyinValue(romanize(chineseText))
  {
    var romanized := romanize(chineseText);
    if romanized.Some? {
      pinyin := romanized.value;
    } else {
      pinyin := "[Pinyin generation error]";
    }
  }

  /** The translation and pinyin steps of `process_text`, after the short circuit. */
  method TranslateAndRomanize(base: map<string, string>, text: string, source: string, target: string, needPinyin: bool,
                              direct: (string, string) -> string, romanize: string -> Option<string>)
    returns (result: map<string, string>)
    requires base.Keys <= {"original", "detected_language"}
    ensures forall k :: k in base ==> k in result && result[k] == base[k]
    ensures result.Keys == base.Keys + TranslationKeys(source, target) + (if "pinyin" in result then {"pinyin"} else {})
    ensures result.Keys - {"original", "detected_language", "pinyin"} == TranslationKeys(source, target)
    ensures "english" in result ==> result["english"] == Translate(text, source, "en", direct)
    ensures "russian" in result ==>
              result["russian"] == if source == "zh" then Translate(Translate(text, "zh", "en", direct), "en", "ru", direct)
                                   else Translate(text, "en", "ru", direct)
    ensures "chinese" in result ==>
              result["chinese"] == if source == "ru" then Translate(Translate(text, "ru", "en", direct), "en", "zh", direct)
                                   else Translate(text, "en", "zh", direct)
    ensures "pinyin" in result <==>
              needPinyin && (source == "zh" || "chinese" in result) && Strip(ChineseText(text, source, result)) != ""
    ensures "pinyin" in result ==> result["pinyin"] == PinyinValue(romanize(ChineseText(text, source, result)))
  {
    var translated := AddTranslations(base, text, source, target, direct);
    result := AddPinyin(translated, text, source, needPinyin, romanize);
    assert ChineseText(text, source, result) == ChineseText(text, source, translated);
    TranslationKeysRange(source, target);
    TranslatedKeys(result.Keys, base.Keys, TranslationKeys(source, target));
  }

  /** Taking the fixed keys away from a result leaves exactly the translations. */
  lemma TranslatedKeys(keys: set<string>, fixed: set<string>, translations: set<string>)
    requires fixed <= {"original", "detected_language"}
    requires translations <= {"english", "russian", "chinese"}
    requires keys == fixed + translations || keys == fixed + translations + {"pinyin"}
    ensures keys - {"original", "detected_language", "pinyin"} == translations
  {
    forall k | k in keys - {"original", "detected_language", "pinyin"} ensures k in translations {
      assert k !in fixed;
    }
  }

  /** Every key `process_text` can return. */
  const ResultKeys: set<string> := {"original", "detected_language", "english", "russian", "chinese", "pinyin"}

  /** What `process_text(text, source_lang, target_lang, need_pinyin)` returns, stated of a
      result: the original text, the detected language exactly when no source was given, nothing
      more for a blank text or a missing target, and otherwise the routed translations and the
      pinyin exactly when requested and there is Chinese text to romanise. */
  ghost predicate Processed(result: map<string, string>, text: string, sourceLang: string, targetLang: string,
                            needPinyin: bool, direct: (string, string) -> string, romanize: string -> Option<string>)
  {
    && "original" in result && result["original"] == text
    && result.Keys <= ResultKeys
    && ("detected_language" in result <==> sourceLang == "")
    && (sourceLang == "" ==> result["detected_language"] == DetectLanguage(text))
    && (Strip(text) == "" || targetLang == "" ==>
          result.Keys == {"original"} + (if sourceLang == "" then {"detected_language"} else {}))
    && var source := if sourceLang == "" then DetectLanguage(text) else sourceLang;
       Strip(text) != "" && targetLang != "" ==>
         && result.Keys - {"original", "detected_language", "pinyin"} == TranslationKeys(source, targetLang)
         && ("english" in result ==> result["english"] == Translate(text, source, "en", direct))
         && ("russian" in result ==>
               result["russian"] == if source == "zh" then Translate(Translate(text, "zh", "en", direct), "en", "ru", direct)
                                    else Translate(text, "en", "ru", direct))
         && ("chinese" in result ==>
               result["chinese"] == if source == "ru" then Translate(Translate(text, "ru", "en", direct), "en", "zh", direct)
                                    else Translate(text, "en", "zh", direct))
         && ("pinyin" in result <==>
               needPinyin && (source == "zh" || "chinese" in result) && Strip(ChineseText(text, source, result)) != "")
         && ("pinyin" in result ==> result["pinyin"] == PinyinValue(romanize(ChineseText(text, source, result))))
  }

  /** `Translator.process_text(text, source_lang, target_lang, need_pinyin)`; an absent language
      is the empty string. */
  method ProcessText(text: string, sourceLang: string, targetLang: string, needPinyin: bool,
                     direct: (string, string) -> string, romanize: string -> Option<string>)
    returns (result: map<string, string>)
    ensures Processed(result, text, sourceLang, targetLang, needPinyin, direct, romanize)
  {
    result := map["original" := text];
    var source := sourceLang;
    if source == "" {
      source := DetectLanguage(text);
      result := result["detected_language" := source];
    }
    assert result.Keys == {"original"} + (if sourceLang == "" then {"detected_language"} else {});
    if Strip(text) == "" || targetLang == "" {
      return;
    }
    result := TranslateAndRomanize(result, text, source, targetLang, needPinyin, direct, romanize);
    KeysWithin(result.Keys, source, targetLang);
  }

  /** Keys that add only translations to the fixed ones stay within `ResultKeys`. */
  lemma KeysWithin(keys: set<string>, source: string, target: string)
    requires keys - {"original", "detected_language", "pinyin"} == TranslationKeys(source, target)
    ensures keys <= ResultKeys
  {
    TranslationKeysRange(source, target);
    forall k | k in keys ensures k in ResultKeys {
      if k !in {"original", "detected_language", "pinyin"} {
        assert k in TranslationKeys(source, target);
      }
    }
  }
}
