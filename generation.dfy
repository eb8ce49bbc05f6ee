/**
  * `generate_exercise_with_word` in the server script, after the language model has been
  * asked: extraction of the reply, the model tag, and supplementation of a missing pinyin
  * or translation through the translator. The HTTP exchange itself is an input: the reply
  * of the first model that answered, or none.
  */
module Generation {
  import opened Wrappers
  import opened PyStr
  import opened PyJson
  import opened Translator
  import opened Fallback
  import Extraction

  /** What the language model returned: the reply text and the name of the model that answered. */
  datatype Reply = Reply(content: string, model: string)

  /** The translator as the server holds it: whether it loaded, and its two opaque steps. */
  datatype TranslatorService = TranslatorService(
    enabled: bool,
    direct: (string, string) -> string,
    romanize: string -> Option<string>)

  /** `not result.get("pinyin") or not result.get("translation")`. */
  predicate NeedsSupplement(r: Record)
  {
    !Truthy(Get(r, "pinyin", JNull)) || !Truthy(Get(r, "translation", JNull))
  }

  /** The extracted dict tagged with the model that produced it. */
  function Tagged(d: Record, model: string): (r: Record)
    ensures r.Keys == d.Keys + (if model != "" then {"generated_with"} else {})
  {
    if model != "" then d["generated_with" := JStr(model)] else d
  }

  /** The record with its empty pinyin and translation filled from the translator's output for
      `chinese`, each only where the translator gave something. */
  function Supplied(r: Record, chinese: string, systemLanguage: string, ts: TranslatorService): (s: Record)
    ensures r.Keys <= s.Keys <= r.Keys + {"pinyin", "translation"}
    ensures forall k :: k in r && k != "pinyin" && k != "translation" ==> s[k] == r[k]
  {
    FilledEmpty(r, PinyinOf(chinese, ts.romanize), TranslationOf(chinese, systemLanguage, ts.direct))
  }

  /** The record with `pinyin` and `translation` written where its own are falsy and the new ones are not empty. */
  function FilledEmpty(r: Record, pinyin: string, translation: string): (s: Record)
    ensures r.Keys <= s.Keys <= r.Keys + {"pinyin", "translation"}
    ensures forall k :: k in r && k != "pinyin" && k != "translation" ==> s[k] == r[k]
  {
    var withPinyin := if !Truthy(Get(r, "pinyin", JNull)) && pinyin != "" then r["pinyin" := JStr(pinyin)] else r;
    if !Truthy(Get(r, "translation", JNull)) && translation != "" then withPinyin["translation" := JStr(translation)]
    else withPinyin
  }

  /** The supplementation step; `None` where `.replace` raises on a sentence that is not a string. */
  method Supplement(result: Record, word: string, systemLanguage: string, ts: TranslatorService)
    returns (out: Option<Record>)
    ensures !NeedsSupplement(result) ==> out == Some(result)
    ensures var sentence := Get(result, "sentence_with_gap", JStr(""));
            NeedsSupplement(result) ==>
              out == if sentence.JStr? then Some(Supplied(result, Replace(sentence.s, Extraction.Gap, word), systemLanguage, ts))
                     else None
  {
    out := Some(result);
    if !Truthy(Get(result, "pinyin", JNull)) || !Truthy(Get(result, "translation", JNull)) {
      var sentence := Get(result, "sentence_with_gap", JStr(""));
      if !sentence.JStr? {
        return None;
      }
      var chinese := Replace(sentence.s, Extraction.Gap, word);
      if chinese != "" {
        var pinyin, translation := ChineseFields(chinese, systemLanguage, ts.direct, ts.romanize);
        var r := FillGaps(result, pinyin, translation);
        out := Some(r);
      } else {
        assert Strip(chinese) == "";
      }
    }
  }

  /** The two conditional assignments of the supplementation step. */
  method FillGaps(result: Record, pinyin: string, translation: string) returns (r: Record)
    ensures r == FilledEmpty(result, pinyin, translation)
  {
    r := result;
    if !Truthy(Get(r, "pinyin", JNull)) && pinyin != "" {
      r := r["pinyin" := JStr(pinyin)];
    }
    if !Truthy(Get(r, "translation", JNull)) && translation != "" {
      r := r["translation" := JStr(translation)];
    }
  }

  /** What `generate_exercise_with_word` returns once a reply arrived, in closed form. */
  function Generated(word: string, systemLanguage: string, reply: Reply,
                     parse: string -> Option<Record>, ts: TranslatorService): (r: Record)
    ensures var tagged := Tagged(Extraction.AsDict(Extraction.Extracted(reply.content, word, parse), Extraction.ServerCopy), reply.model);
            || r == FallbackRecord(word, systemLanguage, ts.enabled, ts.direct, ts.romanize)
            || (&& tagged.Keys <= r.Keys <= tagged.Keys + {"pinyin", "translation"}
                && forall k :: k in tagged && k != "pinyin" && k != "translation" ==> r[k] == tagged[k])
    ensures !ts.enabled ==> r == Tagged(Extraction.AsDict(Extraction.Extracted(reply.content, word, parse), Extraction.ServerCopy), reply.model)
  {
    var tagged := Tagged(Extraction.AsDict(Extraction.Extracted(reply.content, word, parse), Extraction.ServerCopy), reply.model);
    if !ts.enabled || tagged == map[] || !NeedsSupplement(tagged) then tagged
    else
      var sentence := Get(tagged, "sentence_with_gap", JStr(""));
      if sentence.JStr? then Supplied(tagged, Replace(sentence.s, Extraction.Gap, word), systemLanguage, ts)
      else FallbackRecord(word, systemLanguage, ts.enabled, ts.direct, ts.romanize)
  }

  /** `generate_exercise_with_word`: no reply gives the fallback exercise; a reply is extracted,
      tagged and supplemented, and a failure while supplementing gives the fallback too. */
  method GenerateWithWord(word: string, systemLanguage: string, reply: Option<Reply>,
                          parse: string -> Option<Record>, ts: TranslatorService)
    returns (result: Record)
    ensures reply.None? ==> result == FallbackRecord(word, systemLanguage, ts.enabled, ts.direct, ts.romanize)
    ensures reply.Some? ==> result == Generated(word, systemLanguage, reply.value, parse, ts)
  {
    if reply.None? {
      result := GenerateExerciseFallback(word, systemLanguage, ts.enabled, ts.direct, ts.romanize);
      return;
    }
    var tagged := TagReply(reply.value, word, parse);
    result := tagged;
    if ts.enabled && result != map[] {
      var supplemented := Supplement(result, word, systemLanguage, ts);
      if supplemented.None? {
        result := GenerateExerciseFallback(word, systemLanguage, ts.enabled, ts.direct, ts.romanize);
      } else {
        result := supplemented.value;
      }
    }
  }

  /** The extraction of the reply as the server's dict, tagged with the model that answered. */
  method TagReply(reply: Reply, word: string, parse: string -> Option<Record>) returns (result: Record)
    ensures result == Tagged(Extraction.AsDict(Extraction.Extracted(reply.content, word, parse), Extraction.ServerCopy), reply.model)
  {
    var x := Extraction.ExtractExerciseData(reply.content, word, parse);
    result := Extraction.AsDict(x, Extraction.ServerCopy);
    if reply.model != "" {
      result := result["generated_with" := JStr(reply.model)];
    }
  }

  // ---------------------------------------------------------------------------
  // What supplementation promises

  /** Supplementation only fills what is empty: a truthy pinyin or translation is kept, no other
      field changes, and the only keys it can add are "pinyin" and "translation". */
  lemma SuppliedFillsOnlyGaps(r: Record, chinese: string, systemLanguage: string, ts: TranslatorService)
    ensures var s := Supplied(r, chinese, systemLanguage, ts);
            && (Truthy(Get(r, "pinyin", JNull)) ==> Get(s, "pinyin", JNull) == Get(r, "pinyin", JNull))
            && (Truthy(Get(r, "translation", JNull)) ==> Get(s, "translation", JNull) == Get(r, "translation", JNull))
            && (forall k :: k in r ==> k in s)
  {
  }

  /** A blank Chinese sentence adds nothing: the translator returns no pinyin and no translation for it. */
  lemma BlankSentenceAddsNothing(r: Record, chinese: string, systemLanguage: string, ts: TranslatorService)
    requires Strip(chinese) == ""
    ensures Supplied(r, chinese, systemLanguage, ts) == r
  {
  }

  /** A missing pinyin is filled with the romanisation of the completed sentence, unless that
      is empty too. */
  lemma MissingPinyinFilled(r: Record, chinese: string, systemLanguage: string, ts: TranslatorService)
    requires !Truthy(Get(r, "pinyin", JNull)) && Strip(chinese) != ""
    ensures var pinyin := PinyinValue(ts.romanize(chinese));
            Get(Supplied(r, chinese, systemLanguage, ts), "pinyin", JNull) ==
              if pinyin != "" then JStr(pinyin) else Get(r, "pinyin", JNull)
  {
  }

  /** An extraction failure reaches the caller as the error dict with the model tag: the
      supplementation finds no sentence and leaves it alone. */
  lemma ErrorDictPassesThrough(word: string, systemLanguage: string, reply: Reply,
                               parse: string -> Option<Record>, ts: TranslatorService)
    requires Extraction.Extracted(reply.content, word, parse).Failed?
    ensures var d := Extraction.AsDict(Extraction.Extracted(reply.content, word, parse), Extraction.ServerCopy);
            Generated(word, systemLanguage, reply, parse, ts) == Tagged(d, reply.model)
            && "error" in Generated(word, systemLanguage, reply, parse, ts)
  {
    var d := Extraction.AsDict(Extraction.Extracted(reply.content, word, parse), Extraction.ServerCopy);
    var tagged := Tagged(d, reply.model);
    assert "sentence_with_gap" !in tagged;
    assert Replace("", Extraction.Gap, word) == "";
  }

  /** Whatever happens after a reply arrives, an extracted candidate is served with the word
      as its answer: supplementation never touches it, and the fallback answers with the word too. */
  lemma CandidateAnswersWithWord(word: string, systemLanguage: string, reply: Reply,
                                 parse: string -> Option<Record>, ts: TranslatorService)
    requires Extraction.Extracted(reply.content, word, parse).Candidate?
    ensures Get(Generated(word, systemLanguage, reply, parse, ts), "answer", JNull) == JStr(word)
  {
    var x := Extraction.Extracted(reply.content, word, parse);
    Extraction.CandidateAnswer(reply.content, word, parse);
    var tagged := Tagged(Extraction.AsDict(x, Extraction.ServerCopy), reply.model);
    assert tagged["answer"] == JStr(word);
    if ts.enabled && tagged != map[] && NeedsSupplement(tagged) {
      var sentence := Get(tagged, "sentence_with_gap", JStr(""));
      if sentence.JStr? {
        var s := Supplied(tagged, Replace(sentence.s, Extraction.Gap, word), systemLanguage, ts);
        assert s["answer"] == JStr(word);
      } else {
        FallbackShape(word, systemLanguage, ts.enabled, ts.direct, ts.romanize);
      }
    }
  }
}
