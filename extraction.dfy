/**
  * `extract_exercise_data`: turns the language model's free-text reply into a
  * fill-in-the-blank exercise record, or into an error record.
  *
  * Two branches. When the reply holds a `{` before a later `}`, the span from
  * the first `{` to the last `}` is decoded as JSON (the decoder is the
  * parameter `parse`) and the decoded dict is repaired in place: the target
  * word is forced into `options`, `answer` is overwritten with it, and a
  * `____` gap is inserted if missing. Otherwise the reply is scanned line by
  * line for a gap sentence, labelled pinyin / translation lines and bullet
  * options, and the options are padded to four.
  */
module Extraction {
  import opened Wrappers
  import opened PyStr
  import opened PyJson

  /** The gap marker a learner fills in. */
  const Gap: string := "____"
  /** Prefix of the filler options that pad a short option list ("option" in Chinese). */
  const FillerPrefix: string := "选项"
  const MaxOptions: nat := 4
  const RequiredFields: seq<string> := ["sentence_with_gap", "pinyin", "translation", "options", "answer"]

  /** The exception that ends extraction. */
  datatype ExtractError =
    | DecodeError              // json.loads raised
    | MissingField(field: string)  // ValueError: a required field is absent
    | NotContainer             // TypeError: `in` applied to a value that is no container
    | NoItemAssignment         // TypeError: `options[0] = word` on a string
    | IndexOutOfRange          // IndexError: `options[0] = word` on an empty list
    | NoReplace                // AttributeError/TypeError: `.replace` on a non-string

  /** What `extract_exercise_data` returns: the exercise dict, or the error dict built from `raw`. */
  datatype Extraction = Candidate(record: Record) | Failed(error: ExtractError, raw: string)

  // ---------------------------------------------------------------------------
  // Locating the JSON object

  /** Some `{` comes before some `}`. */
  predicate HasBracePair(content: string)
  {
    exists i, j :: 0 <= i < j < |content| && content[i] == '{' && content[j] == '}'
  }

  /** `content[content.find('{') : content.rfind('}') + 1]` when that span is non-empty. */
  function JsonSpan(content: string): (r: Option<string>)
    ensures r.Some? <==> HasBracePair(content)
    ensures r.Some? ==> |r.value| >= 2 && r.value[0] == '{' && r.value[|r.value| - 1] == '}'
  {
    var start := Find(content, "{");
    var end := RFind(content, '}') + 1;
    BracePairFound(content);
    if start >= 0 && end > start then Some(content[start..end]) else None
  }

  /** The span test `find('{') >= 0 and rfind('}') + 1 > find('{')` means: some `{` precedes some `}`. */
  lemma BracePairFound(content: string)
    ensures HasBracePair(content) <==> Find(content, "{") >= 0 && RFind(content, '}') + 1 > Find(content, "{")
    ensures Find(content, "{") >= 0 ==> content[Find(content, "{")] == '{'
  {
    var start := Find(content, "{");
    if start >= 0 {
      assert OccursAt(content, "{", start);
      assert content[start..start + 1] == "{";
    }
    if HasBracePair(content) {
      var i, j :| 0 <= i < j < |content| && content[i] == '{' && content[j] == '}';
      assert content[i..i + 1] == "{";
      assert OccursAt(content, "{", i);
      assert 0 <= start <= i;
    }
    if start >= 0 && RFind(content, '}') + 1 > start {
      var j := RFind(content, '}');
      assert content[start] == '{' && content[j] == '}';
      assert start < j;
    }
  }

  // ---------------------------------------------------------------------------
  // The text-heuristic branch

  /** How the line scanner reads one stripped line; earlier kinds take priority. */
  datatype LineKind = GapLine | PinyinLine | TranslationLine | BulletLine | PlainLine

  function Classify(line: string): LineKind
  {
    if Contains(line, Gap) then GapLine
    else if Contains(Lower(line), "pinyin") || Contains(line, "拼音") then PinyinLine
    else if Contains(Lower(line), "translation") || Contains(Lower(line), "перевод") then TranslationLine
    else if StartsWith(line, "-") || StartsWith(line, "*") then BulletLine
    else PlainLine
  }

  /** `line.split(":", 1)[1].strip() if ":" in line else line`. */
  function LabelValue(line: string): string
  {
    var i := Find(line, ":");
    if i >= 0 then Strip(line[i + 1..]) else line
  }

  /** `line.strip('- *').strip()`. */
  function BulletText(line: string): string
  {
    Strip(StripChars(line, {'-', ' ', '*'}))
  }

  /** A bullet text is taken as an option when it is non-empty and not the word itself. */
  predicate Acceptable(option: string, word: string)
  {
    option != "" && option != word
  }

  /** The scanner's variables after some lines. */
  datatype Scan = Scan(sentence: string, pinyin: string, translation: string, options: seq<string>)

  /** One iteration of the line loop; it appends at most one acceptable option, and only below four. */
  function ScanLine(st: Scan, rawLine: string, word: string): (r: Scan)
    ensures r.options == st.options
         || (|st.options| < MaxOptions && exists o :: Acceptable(o, word) && r.options == st.options + [o])
  {
    var line := Strip(rawLine);
    match Classify(line)
    case GapLine => st.(sentence := line)
    case PinyinLine => st.(pinyin := LabelValue(line))
    case TranslationLine => st.(translation := LabelValue(line))
    case BulletLine =>
      var option := BulletText(line);
      if Acceptable(option, word) && |st.options| < MaxOptions then st.(options := st.options + [option]) else st
    case PlainLine => st
  }

  /** The line loop over `lines`, started from an empty sentence and `options = [word]`. */
  function ScanLines(lines: seq<string>, word: string): (r: Scan)
    decreases |lines|
    ensures 1 <= |r.options| <= MaxOptions && r.options[0] == word
    ensures forall k :: 1 <= k < |r.options| ==> Acceptable(r.options[k], word)
  {
    if lines == [] then Scan("", "", "", [word])
    else ScanLine(ScanLines(lines[..|lines| - 1], word), lines[|lines| - 1], word)
  }

  /** The sentence built from the reply's CJK characters when no line holds a gap. */
  function CjkFallback(content: string): (r: string)
    ensures r == "" <==> CjkChars(content) == ""
    ensures r != "" ==> Contains(r, Gap)
  {
    var chars := CjkChars(content);
    if chars == "" then ""
    else
      var half := |chars| / 2;
      assert OccursAt(chars[..half] + " ____ " + chars[half..], Gap, half + 1);
      chars[..half] + " ____ " + chars[half..]
  }

  /** The filler placed at index `k` of a short option list: "选项" followed by `k`. */
  function Filler(k: nat): string
  {
    FillerPrefix + NatToString(k)
  }

  /** `while len(options) < 4: options.append(f"选项{len(options)}")`, in closed form. */
  function Padded(options: seq<string>): (r: seq<string>)
    ensures |options| <= MaxOptions ==> |r| == MaxOptions
    ensures |options| <= |r| && r[..|options|] == options
    ensures forall k :: |options| <= k < |r| ==> r[k] == Filler(k)
  {
    if |options| >= MaxOptions then options
    else options + seq(MaxOptions - |options|, k requires 0 <= k < MaxOptions - |options| => Filler(|options| + k))
  }

  /** The heuristic sentence: the last gap line, else the CJK fallback. */
  function HeuristicSentence(content: string, word: string): string
  {
    var st := ScanLines(Split(content, '\n'), word);
    if st.sentence == "" then CjkFallback(content) else st.sentence
  }

  /** The record the heuristic branch returns. */
  function HeuristicRecord(content: string, word: string): (r: Record)
    ensures r.Keys == {"sentence_with_gap", "pinyin", "translation", "options", "answer"}
    ensures r["answer"] == JStr(word)
    ensures r["sentence_with_gap"] == JStr(HeuristicSentence(content, word)) && r["pinyin"].JStr? && r["translation"].JStr?
    ensures r["options"].JArr? && |r["options"].items| == MaxOptions && r["options"].items[0] == JStr(word)
    ensures forall k :: 1 <= k < MaxOptions ==> r["options"].items[k].JStr? && r["options"].items[k].s != ""
  {
    var st := ScanLines(Split(content, '\n'), word);
    var sentence := HeuristicSentence(content, word);
    var options := Padded(st.options);
    assert forall k :: 1 <= k < MaxOptions ==> options[k] != "" by {
      forall k | 1 <= k < MaxOptions ensures options[k] != "" {
        if k >= |st.options| {
          assert options[k] == Filler(k);
        } else {
          assert options[k] == st.options[k];
        }
      }
    }
    map["sentence_with_gap" := JStr(sentence), "pinyin" := JStr(st.pinyin), "translation" := JStr(st.translation),
        "options" := Strs(options), "answer" := JStr(word)]
  }

  // ---------------------------------------------------------------------------
  // The JSON branch

  /** The first required field the decoded dict lacks, in the order they are checked. */
  function FirstMissing(data: Record, fields: seq<string>): (r: Option<string>)
    ensures r.None? <==> forall f :: f in fields ==> f in data
    ensures r.Some? ==> r.value in fields && r.value !in data
  {
    if fields == [] then None
    else if fields[0] !in data then Some(fields[0])
    else FirstMissing(data, fields[1..])
  }

  /** `options[0] = word`. */
  function SetFirst(options: Value, word: string): Result<Value, ExtractError>
  {
    match options
    case JArr(xs) => if xs == [] then Err(IndexOutOfRange) else Ok(JArr(xs[0 := JStr(word)]))
    case JObj(es) => Ok(JObj(Assign(es, JNum(0.0), JStr(word))))
    case _ => Err(NoItemAssignment)
  }

  /** `if word not in options: options[0] = word`. */
  function RepairOptions(options: Value, word: string): Result<Value, ExtractError>
  {
    match In(JStr(word), options)
    case None => Err(NotContainer)
    case Some(present) => if present then Ok(options) else SetFirst(options, word)
  }

  /** `sentence.replace(target, "____", 1)`. */
  function GapAt(sentence: Value, target: Value): Result<Value, ExtractError>
  {
    if sentence.JStr? && target.JStr? then Ok(JStr(ReplaceFirst(sentence.s, target.s, Gap)))
    else Err(NoReplace)
  }

  /** The loop over the options: gap the first one found in the sentence, else leave it. */
  function GapAtFirstOption(sentence: Value, items: seq<Value>): Result<Value, ExtractError>
    decreases |items|
  {
    if items == [] then Ok(sentence)
    else
      match In(items[0], sentence)
      case None => Err(NotContainer)
      case Some(found) => if found then GapAt(sentence, items[0]) else GapAtFirstOption(sentence, items[1..])
  }

  /** Gap repair: nothing if `____` is present, else gap the word, else the first option found. */
  function RepairGap(sentence: Value, options: Value, word: string): Result<Value, ExtractError>
  {
    match In(JStr(Gap), sentence)
    case None => Err(NotContainer)
    case Some(hasGap) =>
      if hasGap then Ok(sentence)
      else
        match In(JStr(word), sentence)
        case None => Err(NotContainer)
        case Some(hasWord) =>
          if hasWord then GapAt(sentence, JStr(word))
          else
            match Iter(options)
            case None => Err(NotContainer)
            case Some(items) => GapAtFirstOption(sentence, items)
  }

  /** The in-place repair of the decoded dict, as one function of the dict. */
  function RepairRecord(data: Record, word: string): Result<Record, ExtractError>
  {
    match FirstMissing(data, RequiredFields)
    case Some(f) => Err(MissingField(f))
    case None =>
      match RepairOptions(data["options"], word)
      case Err(e) => Err(e)
      case Ok(options) =>
        var d1 := data["options" := options];
        var d2 := if d1["answer"] != JStr(word) then d1["answer" := JStr(word)] else d1;
        match RepairGap(d2["sentence_with_gap"], d2["options"], word)
        case Err(e) => Err(e)
        case Ok(sentence) => Ok(d2["sentence_with_gap" := sentence])
  }

  /** `extract_exercise_data(content, word)` as a function of the reply and the decoder. */
  function Extracted(content: string, word: string, parse: string -> Option<Record>): Extraction
  {
    match JsonSpan(content)
    case None => Candidate(HeuristicRecord(content, word))
    case Some(span) =>
      match parse(span)
      case None => Failed(DecodeError, content)
      case Some(data) =>
        match RepairRecord(data, word)
        case Ok(r) => Candidate(r)
        case Err(e) => Failed(e, content)
  }

  // ---------------------------------------------------------------------------
  // The imperative code

  /** The line loop of the heuristic branch: the last line of each kind wins. */
  method ScanReply(lines: seq<string>, word: string) returns (st: Scan)
    ensures st == ScanLines(lines, word)
    ensures 1 <= |st.options| <= MaxOptions && st.options[0] == word
  {
    st := Scan("", "", "", [word]);
    var i := 0;
    while i < |lines|
      invariant 0 <= i <= |lines|
      invariant st == ScanLines(lines[..i], word)
    {
      st := ScanLine(st, lines[i], word);
      assert lines[..i + 1][..i] == lines[..i];
      i := i + 1;
    }
    assert lines[..i] == lines;
  }

  /** The padding loop: appends "选项" + the current length until four options are held. */
  method PadOptions(scanned: seq<string>) returns (options: seq<string>)
    requires |scanned| <= MaxOptions
    ensures options == Padded(scanned)
    ensures |options| == MaxOptions && options[..|scanned|] == scanned
  {
    options := scanned;
    while |options| < 4
      invariant |scanned| <= |options| <= MaxOptions
      invariant options[..|scanned|] == scanned
      invariant forall k :: |scanned| <= k < |options| ==> options[k] == Filler(k)
    {
      options := options + [FillerPrefix + NatToString(|options|)];
    }
  }

  /** The heuristic branch: the line loop, the CJK fallback and the padding loop. */
  method ExtractHeuristic(content: string, word: string) returns (r: Record)
    ensures r == HeuristicRecord(content, word)
    ensures r["options"].JArr? && |r["options"].items| == MaxOptions && r["options"].items[0] == JStr(word)
    ensures r["answer"] == JStr(word)
  {
    var st := ScanReply(Split(content, '\n'), word);
    var sentence := st.sentence;
    if sentence == "" {
      var chars := CjkChars(content);
      if chars != "" {
        var half := |chars| / 2;
        sentence := chars[..half] + " ____ " + chars[half..];
      }
    }
    var options := PadOptions(st.options);
    r := map["sentence_with_gap" := JStr(sentence), "pinyin" := JStr(st.pinyin), "translation" := JStr(st.translation),
             "options" := Strs(options), "answer" := JStr(word)];
  }

  /** The gap repair of the JSON branch, with its loop over the options. */
  method RepairSentence(sentence: Value, options: Value, word: string) returns (out: Result<Value, ExtractError>)
    ensures out == RepairGap(sentence, options, word)
  {
    var hasGap := In(JStr(Gap), sentence);
    if hasGap.None? {
      return Err(NotContainer);
    }
    if hasGap.value {
      return Ok(sentence);
    }
    var hasWord := In(JStr(word), sentence);
    if hasWord.None? {
      return Err(NotContainer);
    }
    if hasWord.value {
      return GapAt(sentence, JStr(word));
    }
    var items := Iter(options);
    if items.None? {
      return Err(NotContainer);
    }
    var j := 0;
    while j < |items.value|
      invariant 0 <= j <= |items.value|
      invariant GapAtFirstOption(sentence, items.value) == GapAtFirstOption(sentence, items.value[j..])
    {
      var option := items.value[j];
      var found := In(option, sentence);
      if found.None? {
        return Err(NotContainer);
      }
      if found.value {
        return GapAt(sentence, option);
      }
      assert items.value[j..][1..] == items.value[j + 1..];
      j := j + 1;
    }
    out := Ok(sentence);
  }

  /** The JSON branch: the required-field loop, then the in-place repairs of the dict. */
  method RepairJson(data: Record, word: string) returns (out: Result<Record, ExtractError>)
    ensures out == RepairRecord(data, word)
    ensures out.Ok? ==> out.value.Keys == data.Keys && out.value["answer"] == JStr(word)
  {
    var k := 0;
    while k < |RequiredFields|
      invariant 0 <= k <= |RequiredFields|
      invariant FirstMissing(data, RequiredFields) == FirstMissing(data, RequiredFields[k..])
    {
      if RequiredFields[k] !in data {
        return Err(MissingField(RequiredFields[k]));
      }
      assert RequiredFields[k..][1..] == RequiredFields[k + 1..];
      k := k + 1;
    }
    var d := data;
    var present := In(JStr(word), d["options"]);
    if present.None? {
      return Err(NotContainer);
    }
    if !present.value {
      var options := SetFirst(d["options"], word);
      if options.Err? {
        return Err(options.error);
      }
      d := d["options" := options.value];
    }
    assert d == data["options" := RepairOptions(data["options"], word).value];
    if d["answer"] != JStr(word) {
      d := d["answer" := JStr(word)];
    }
    var sentence := RepairSentence(d["sentence_with_gap"], d["options"], word);
    if sentence.Err? {
      return Err(sentence.error);
    }
    out := Ok(d["sentence_with_gap" := sentence.value]);
  }

  /** `extract_exercise_data(content, original_word)`. */
  method ExtractExerciseData(content: string, word: string, parse: string -> Option<Record>) returns (x: Extraction)
    ensures x == Extracted(content, word, parse)
    ensures x.Failed? ==> x.raw == content
    ensures x.Candidate? ==> "answer" in x.record && x.record["answer"] == JStr(word)
  {
    var start := Find(content, "{");
    var end := RFind(content, '}') + 1;
    if start >= 0 && end > start {
      assert JsonSpan(content) == Some(content[start..end]);
      var decoded := parse(content[start..end]);
      if decoded.None? {
        return Failed(DecodeError, content);
      }
      var repaired := RepairJson(decoded.value, word);
      if repaired.Err? {
        return Failed(repaired.error, content);
      }
      x := Candidate(repaired.value);
    } else {
      assert JsonSpan(content) == None;
      var r := ExtractHeuristic(content, word);
      x := Candidate(r);
    }
    CandidateAnswer(content, word, parse);
  }

  // ---------------------------------------------------------------------------
  // The returned dict

  /** The two copies of `extract_exercise_data`: the server script's and the app module's. */
  datatype Copy = ServerCopy | AppCopy

  /** The prefix of the error message; the copies differ only in its language. */
  function ErrorPrefix(copy: Copy): string
  {
    match copy
    case ServerCopy => "Error extracting exercise data: "
    case AppCopy => "Ошибка при извлечении данных упражнения: "
  }

  /** `str(e)` for the exception that ended extraction. */
  function ErrorDetail(copy: Copy, e: ExtractError): string
  {
    match e
    case MissingField(f) =>
      (match copy
       case ServerCopy => "Field '" + f + "' missing in response"
       case AppCopy => "В ответе отсутствует поле '" + f + "'")
    case DecodeError => "invalid JSON"
    case NotContainer => "argument is not iterable"
    case NoItemAssignment => "object does not support item assignment"
    case IndexOutOfRange => "list assignment index out of range"
    case NoReplace => "object has no attribute 'replace'"
  }

  /** The dict a copy returns for an extraction outcome. */
  function AsDict(x: Extraction, copy: Copy): (r: Record)
    ensures x.Failed? ==> r.Keys == {"error", "raw_response"} && r["raw_response"] == JStr(x.raw)
    ensures x.Failed? ==> r["error"].JStr? && StartsWith(r["error"].s, ErrorPrefix(copy))
    ensures x.Candidate? ==> r == x.record
  {
    match x
    case Candidate(record) => record
    case Failed(e, raw) => map["error" := JStr(ErrorPrefix(copy) + ErrorDetail(copy, e)), "raw_response" := JStr(raw)]
  }

  /** The two copies return the same dict for every reply, except for the wording of an error message. */
  lemma CopiesAgree(content: string, word: string, parse: string -> Option<Record>)
    ensures var a, b := AsDict(Extracted(content, word, parse), ServerCopy), AsDict(Extracted(content, word, parse), AppCopy);
            a.Keys == b.Keys && forall k :: k in a && k != "error" ==> a[k] == b[k]
    ensures Extracted(content, word, parse).Failed? ==> "error" in AsDict(Extracted(content, word, parse), ServerCopy)
  {
    var x := Extracted(content, word, parse);
    DictsAgree(x);
  }

  lemma DictsAgree(x: Extraction)
    ensures var a, b := AsDict(x, ServerCopy), AsDict(x, AppCopy);
            a.Keys == b.Keys && forall k :: k in a && k != "error" ==> a[k] == b[k]
    ensures x.Failed? ==> "error" in AsDict(x, ServerCopy)
  {
  }

  // ---------------------------------------------------------------------------
  // Properties of the heuristic branch

  /** The stripped last line of the given kind among `lines`. */
  function LastOfKind(lines: seq<string>, kind: LineKind): Option<string>
    decreases |lines|
  {
    if lines == [] then None
    else if Classify(Strip(lines[|lines| - 1])) == kind then Some(Strip(lines[|lines| - 1]))
    else LastOfKind(lines[..|lines| - 1], kind)
  }

  /** The line is a bullet whose text is an acceptable option. */
  predicate Takes(rawLine: string, word: string)
  {
    Classify(Strip(rawLine)) == BulletLine && Acceptable(BulletText(Strip(rawLine)), word)
  }

  /** The acceptable bullet texts of `lines`, in order, with no cap. */
  function Bullets(lines: seq<string>, word: string): (r: seq<string>)
    decreases |lines|
  {
    if lines == [] then []
    else
      var more := if Takes(lines[|lines| - 1], word) then [BulletText(Strip(lines[|lines| - 1]))] else [];
      Bullets(lines[..|lines| - 1], word) + more
  }

  /** Every bullet text the scan would take passes the option filter. */
  lemma {:induction false} BulletsAcceptable(lines: seq<string>, word: string)
    ensures forall k :: 0 <= k < |Bullets(lines, word)| ==> Acceptable(Bullets(lines, word)[k], word)
    decreases |lines|
  {
    if lines != [] {
      BulletsAcceptable(lines[..|lines| - 1], word);
      BulletsStep(lines, word);
    }
  }

  function Take(xs: seq<string>, n: nat): (r: seq<string>)
    ensures |r| == if |xs| < n then |xs| else n
    ensures r == xs[..|r|]
  {
    if |xs| <= n then xs else xs[..n]
  }

  /** The last line of each kind wins: the sentence is the last gap line, the pinyin and
      the translation the label values of the last such lines, "" where there is none. */
  lemma {:induction false} LastLineWins(lines: seq<string>, word: string)
    ensures ScanLines(lines, word).sentence == (match LastOfKind(lines, GapLine) case None => "" case Some(l) => l)
    ensures ScanLines(lines, word).pinyin == (match LastOfKind(lines, PinyinLine) case None => "" case Some(l) => LabelValue(l))
    ensures ScanLines(lines, word).translation == (match LastOfKind(lines, TranslationLine) case None => "" case Some(l) => LabelValue(l))
    decreases |lines|
  {
    if lines != [] {
      var init := lines[..|lines| - 1];
      LastLineWins(init, word);
      ScanLineFields(ScanLines(init, word), lines[|lines| - 1], word);
    }
  }

  /** What one line does to the options. */
  lemma ScanLineOptions(st: Scan, rawLine: string, word: string)
    ensures var line, r := Strip(rawLine), ScanLine(st, rawLine, word);
            r.options == if Takes(rawLine, word) && |st.options| < MaxOptions then st.options + [BulletText(line)] else st.options
  {
    var line := Strip(rawLine);
    match Classify(line)
    case BulletLine =>
    case _ =>
  }

  /** What one line does to the three text fields. */
  lemma ScanLineFields(st: Scan, rawLine: string, word: string)
    ensures var line, r := Strip(rawLine), ScanLine(st, rawLine, word);
            && r.sentence == (if Classify(line) == GapLine then line else st.sentence)
            && r.pinyin == (if Classify(line) == PinyinLine then LabelValue(line) else st.pinyin)
            && r.translation == (if Classify(line) == TranslationLine then LabelValue(line) else st.translation)
  {
    var line := Strip(rawLine);
    match Classify(line)
    case GapLine =>
    case PinyinLine =>
    case TranslationLine =>
    case BulletLine =>
    case PlainLine =>
  }

  /** The options are the word followed by the first three acceptable bullet texts. */
  lemma {:induction false} OptionsAreFirstBullets(lines: seq<string>, word: string)
    ensures ScanLines(lines, word).options == [word] + Take(Bullets(lines, word), MaxOptions - 1)
    decreases |lines|
  {
    if lines != [] {
      var init, last := lines[..|lines| - 1], lines[|lines| - 1];
      OptionsAreFirstBullets(init, word);
      var st := ScanLines(init, word);
      ScanLineOptions(st, last, word);
      ScanLinesStep(lines, word);
      BulletsStep(lines, word);
      var b, o := Bullets(init, word), BulletText(Strip(last));
      if Takes(last, word) {
        OptionsStep(word, b, o, st.options);
        assert Bullets(lines, word) == b + [o];
        assert ScanLines(lines, word).options == if |st.options| < MaxOptions then st.options + [o] else st.options;
      } else {
        assert Bullets(lines, word) == b;
        assert ScanLines(lines, word).options == st.options;
      }
    }
  }

  lemma ScanLinesStep(lines: seq<string>, word: string)
    requires lines != []
    ensures ScanLines(lines, word) == ScanLine(ScanLines(lines[..|lines| - 1], word), lines[|lines| - 1], word)
  {
  }

  lemma BulletsStep(lines: seq<string>, word: string)
    requires lines != []
    ensures Bullets(lines, word) == Bullets(lines[..|lines| - 1], word) +
              if Takes(lines[|lines| - 1], word) then [BulletText(Strip(lines[|lines| - 1]))] else []
  {
  }

  /** One more accepted bullet: appending it while there is room keeps the options the word
      followed by the first bullets. */
  lemma OptionsStep(word: string, b: seq<string>, o: string, options: seq<string>)
    requires options == [word] + Take(b, MaxOptions - 1)
    ensures (if |options| < MaxOptions then options + [o] else options) == [word] + Take(b + [o], MaxOptions - 1)
  {
    TakeAppend(b, o, MaxOptions - 1);
  }

  lemma TakeAppend(b: seq<string>, o: string, n: nat)
    ensures Take(b + [o], n) == if |b| < n then b + [o] else Take(b, n)
  {
    if |b| >= n {
      assert (b + [o])[..n] == b[..n];
    }
  }

  /** A string without some character of `pat` cannot contain `pat`. */
  lemma MissingCharNoMatch(s: string, pat: string, c: char)
    requires c in pat && c !in s
    ensures !Contains(s, pat)
  {
  }

  /** A gap line really holds the gap; `LastOfKind` returns a line of its kind. */
  lemma {:induction false} LastOfKindHasKind(lines: seq<string>, kind: LineKind)
    ensures LastOfKind(lines, kind).Some? ==> Classify(LastOfKind(lines, kind).value) == kind
    decreases |lines|
  {
    if lines != [] {
      LastOfKindHasKind(lines[..|lines| - 1], kind);
    }
  }

  /** The heuristic sentence holds the gap exactly when some line holds it or the reply has CJK characters. */
  lemma HeuristicGap(content: string, word: string)
    ensures Contains(HeuristicSentence(content, word), Gap) <==>
              LastOfKind(Split(content, '\n'), GapLine).Some? || CjkChars(content) != ""
  {
    var lines := Split(content, '\n');
    LastLineWins(lines, word);
    var last := LastOfKind(lines, GapLine);
    MissingCharNoMatch("", Gap, '_');
    if last.Some? {
      LastOfKindHasKind(lines, GapLine);
      GapLineHasGap(last.value);
      assert ScanLines(lines, word).sentence == last.value;
    } else {
      assert ScanLines(lines, word).sentence == "";
    }
  }

  /** A line classified as a gap line holds the gap. */
  lemma GapLineHasGap(line: string)
    requires Classify(line) == GapLine
    ensures Contains(line, Gap)
  {
  }

  /** A reply without braces, newlines or gap lines, such as "这个服务器很快。", is split around
      the middle of its CJK characters. */
  lemma PlainReplyGap()
    ensures HeuristicSentence("这个服务器很快。", "服务器") == "这个服 ____ 务器很快"
  {
    PlainReplyNoGapLine();
    PlainReplyCjkSplit();
  }

  lemma PlainReplyNoGapLine()
    ensures ScanLines(Split("这个服务器很快。", '\n'), "服务器").sentence == ""
  {
    PlainReplySplit();
    PlainReplyOneLine();
  }

  lemma PlainReplySplit()
    ensures Split("这个服务器很快。", '\n') == ["这个服务器很快。"]
  {
    assert '\n' !in "这个服务器很快。";
  }

  lemma PlainReplyOneLine()
    ensures ScanLines(["这个服务器很快。"], "服务器").sentence == ""
  {
    var content := "这个服务器很快。";
    PlainReplyLine();
    ScanLinesStep([content], "服务器");
    assert [content][..0] == [];
    ScanLineFields(Scan("", "", "", ["服务器"]), content, "服务器");
  }

  lemma PlainReplyCjkSplit()
    ensures CjkFallback("这个服务器很快。") == "这个服 ____ 务器很快"
  {
    PlainReplyCjk();
    var chars := "这个服务器很快";
    assert chars[..3] == "这个服" && chars[3..] == "务器很快";
  }

  lemma PlainReplyCjk()
    ensures CjkChars("这个服务器很快。") == "这个服务器很快"
  {
    var chars := "这个服务器很快";
    AllCjkKept(chars);
    CjkCharsSnoc(chars, '。');
    assert "这个服务器很快。" == chars + ['。'];
  }

  /** A text made only of CJK ideographs is kept whole. */
  lemma {:induction false} AllCjkKept(s: string)
    requires forall k :: 0 <= k < |s| ==> IsCjk(s[k])
    ensures CjkChars(s) == s
  {
    if s != [] {
      AllCjkKept(s[..|s| - 1]);
      assert s == s[..|s| - 1] + [s[|s| - 1]];
    }
  }

  lemma CjkCharsSnoc(s: string, c: char)
    ensures CjkChars(s + [c]) == CjkChars(s) + if IsCjk(c) then [c] else []
  {
    assert (s + [c])[..|s|] == s;
  }

  /** The reply "这个服务器很快。" is one plain line. */
  lemma PlainReplyLine()
    ensures Strip("这个服务器很快。") == "这个服务器很快。"
    ensures Classify("这个服务器很快。") == PlainLine
  {
    PlainReplyStrip();
    PlainReplyLower();
    PlainReplyNoMarkers();
  }

  /** That reply holds no gap, no label and no bullet marker. */
  lemma PlainReplyNoMarkers()
    ensures var content := "这个服务器很快。";
            && !Contains(content, Gap) && !Contains(content, "pinyin") && !Contains(content, "拼音")
            && !Contains(content, "translation") && !Contains(content, "перевод")
            && !StartsWith(content, "-") && !StartsWith(content, "*")
  {
    var content := "这个服务器很快。";
    MissingCharNoMatch(content, Gap, '_');
    MissingCharNoMatch(content, "pinyin", 'p');
    MissingCharNoMatch(content, "拼音", '拼');
    MissingCharNoMatch(content, "translation", 't');
    MissingCharNoMatch(content, "перевод", 'п');
    assert content[..1] == ['这'];
  }

  lemma PlainReplyStrip()
    ensures Strip("这个服务器很快。") == "这个服务器很快。"
  {
    var content := "这个服务器很快。";
    assert content[0] !in Whitespace;
    assert content[|content| - 1] !in Whitespace;
    assert LStrip(content, Whitespace) == content;
    assert RStrip(content, Whitespace) == content;
  }

  lemma PlainReplyLower()
    ensures Lower("这个服务器很快。") == "这个服务器很快。"
  {
  }

  // ---------------------------------------------------------------------------
  // Properties of the JSON branch

  /** A successful repair keeps the dict's keys and every other field, sets `answer` to the word,
      and for a list of options puts the word in it without changing its length. */
  lemma RepairFacts(data: Record, word: string)
    ensures var out := RepairRecord(data, word);
            out.Ok? ==>
              && out.value.Keys == data.Keys
              && out.value["answer"] == JStr(word)
              && (forall k :: k in data && k != "options" && k != "answer" && k != "sentence_with_gap" ==> out.value[k] == data[k])
              && (data["options"].JArr? ==>
                    var xs := data["options"].items;
                    && out.value["options"].JArr?
                    && |out.value["options"].items| == |xs|
                    && JStr(word) in out.value["options"].items
                    && (out.value["options"].items == xs || out.value["options"].items == xs[0 := JStr(word)]))
  {
    var out := RepairRecord(data, word);
    if out.Ok? {
      assert FirstMissing(data, RequiredFields).None?;
      var options := RepairOptions(data["options"], word).value;
      var d1 := data["options" := options];
      var d2 := if d1["answer"] != JStr(word) then d1["answer" := JStr(word)] else d1;
      var sentence := RepairGap(d2["sentence_with_gap"], d2["options"], word).value;
      assert out.value == d2["sentence_with_gap" := sentence];
      assert out.value.Keys == data.Keys;
      assert out.value["answer"] == JStr(word);
      assert out.value["options"] == options;
      if data["options"].JArr? {
        var xs := data["options"].items;
        if JStr(word) !in xs {
          assert options.items == xs[0 := JStr(word)];
          assert options.items[0] == JStr(word);
        } else {
          assert options.items == xs;
        }
      }
    }
  }

  /** Every candidate, from either branch, has the word as its answer. */
  lemma CandidateAnswer(content: string, word: string, parse: string -> Option<Record>)
    ensures Extracted(content, word, parse).Candidate? ==>
              "answer" in Extracted(content, word, parse).record && Extracted(content, word, parse).record["answer"] == JStr(word)
  {
    match JsonSpan(content)
    case None =>
    case Some(span) =>
      if parse(span).Some? {
        RepairFacts(parse(span).value, word);
      }
  }

  /** Decoding failures, missing fields and an empty option list yield an error, not a candidate. */
  lemma ErrorCases(content: string, word: string, parse: string -> Option<Record>)
    requires HasBracePair(content)
    ensures var span := JsonSpan(content).value;
            && (parse(span).None? ==> Extracted(content, word, parse) == Failed(DecodeError, content))
            && (parse(span).Some? && FirstMissing(parse(span).value, RequiredFields).Some? ==>
                  Extracted(content, word, parse) == Failed(MissingField(FirstMissing(parse(span).value, RequiredFields).value), content))
            && (parse(span).Some? && FirstMissing(parse(span).value, RequiredFields).None? && parse(span).value["options"] == JArr([]) ==>
                  Extracted(content, word, parse) == Failed(IndexOutOfRange, content))
  {
  }

  /** The option loop of the gap repair on string options: the first option found in the sentence
      is gapped once; when none is found the sentence is kept. */
  lemma {:induction false} FirstOptionGapped(s: string, opts: seq<string>)
    ensures var r := GapAtFirstOption(JStr(s), Strs(opts).items);
            && r.Ok? && r.value.JStr?
            && ((forall k :: 0 <= k < |opts| ==> !Contains(s, opts[k])) ==> r.value == JStr(s))
            && (forall i :: 0 <= i < |opts| && Contains(s, opts[i]) && (forall k :: 0 <= k < i ==> !Contains(s, opts[k])) ==>
                  r.value == JStr(ReplaceFirst(s, opts[i], Gap)))
    decreases |opts|
  {
    if opts != [] {
      assert Strs(opts).items[1..] == Strs(opts[1..]).items;
      FirstOptionGapped(s, opts[1..]);
      forall i | 0 < i < |opts| && Contains(s, opts[i]) && (forall k :: 0 <= k < i ==> !Contains(s, opts[k]))
        ensures GapAtFirstOption(JStr(s), Strs(opts).items[1..]).value == JStr(ReplaceFirst(s, opts[i], Gap))
      {
        assert opts[1..][i - 1] == opts[i];
        assert forall k :: 0 <= k < i - 1 ==> opts[1..][k] == opts[k + 1];
      }
    }
  }

  /** Gap repair order on a string sentence and string options: an existing gap is kept, else the
      word is gapped, else the first option found; the result holds the gap whenever any of them occurs. */
  lemma GapRepairOrder(s: string, opts: seq<string>, word: string)
    ensures var r := RepairGap(JStr(s), Strs(opts), word);
            && r.Ok? && r.value.JStr?
            && (Contains(s, Gap) ==> r.value == JStr(s))
            && (!Contains(s, Gap) && Contains(s, word) ==> r.value == JStr(ReplaceFirst(s, word, Gap)))
            && (Contains(s, Gap) || Contains(s, word) || (exists k :: 0 <= k < |opts| && Contains(s, opts[k])) <==>
                  Contains(r.value.s, Gap))
  {
    var r := RepairGap(JStr(s), Strs(opts), word);
    FirstOptionGapped(s, opts);
    if !Contains(s, Gap) && !Contains(s, word) {
      if exists k :: 0 <= k < |opts| && Contains(s, opts[k]) {
        var i := FirstFound(s, opts);
        assert r.value == JStr(ReplaceFirst(s, opts[i], Gap));
      } else {
        assert r.value == JStr(s);
      }
    }
  }

  /** The index of the first option that occurs in `s`. */
  function FirstFound(s: string, opts: seq<string>): (i: nat)
    requires exists k :: 0 <= k < |opts| && Contains(s, opts[k])
    ensures i < |opts| && Contains(s, opts[i]) && forall k :: 0 <= k < i ==> !Contains(s, opts[k])
  {
    if Contains(s, opts[0]) then 0
    else
      assert exists k :: 0 <= k < |opts[1..]| && Contains(s, opts[1..][k]) by {
        var k :| 0 <= k < |opts| && Contains(s, opts[k]);
        assert opts[1..][k - 1] == opts[k];
      }
      FirstFound(s, opts[1..]) + 1
  }
}
