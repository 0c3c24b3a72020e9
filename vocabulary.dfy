/** The vocabulary exercise (vocabulary.py): the parser that turns a model reply
    into word entries, its two-stage fallback, the per-user cache of the last
    generated set, and the two text formatters. */
module Vocabulary {
  import opened Text
  import opened Patterns
  import Gemini

  /** One word entry; every field is filled in, with defaults where the reply had
      nothing. */
  datatype Entry = Entry(word: string, transcription: string, translation: string, exampleEn: string, exampleRu: string)

  /** A vocabulary dictionary: its optional `topic` and `words` keys. */
  datatype VocabData = VocabData(topic: Option<string>, words: Option<seq<Entry>>)

  const NoTranscription: string := "[-]"

  // ---------------------------------------------------------------- word block lines

  /** The five fields a block line can set. */
  datatype Field = WordField | TranscriptionField | TranslationField | ExampleEnField | ExampleRuField

  /** The labels each field accepts, Russian or English, in the pattern's order. */
  function FieldLabels(f: Field): seq<string> {
    match f
    case WordField => ["Английское", "English", "Word"]
    case TranscriptionField => ["Транскрипция", "Transcription"]
    case TranslationField => ["Перевод", "Translation"]
    case ExampleEnField => ["Пример EN", "Example EN", "English example"]
    case ExampleRuField => ["Пример RU", "Example RU", "Russian example"]
  }

  /** A line that sets a field, and the value it sets. */
  datatype FieldLine = FieldLine(field: Field, value: string)

  /** What the loop of parse_word_block makes of one raw line: the first field,
      in the order word, transcription, translation, English example, Russian
      example, whose pattern `^(?:L1|L2|...)\s*:\s*(.+)` matches the stripped line. */
  function LineField(raw: string): (r: Option<FieldLine>)
    ensures r.Some? ==> FieldValueAny(Strip(raw), FieldLabels(r.value.field)) == Some(r.value.value)
  {
    var line := Strip(raw);
    if line == [] then None
    else if FieldValueAny(line, FieldLabels(WordField)).Some? then
      Some(FieldLine(WordField, FieldValueAny(line, FieldLabels(WordField)).value))
    else if FieldValueAny(line, FieldLabels(TranscriptionField)).Some? then
      Some(FieldLine(TranscriptionField, FieldValueAny(line, FieldLabels(TranscriptionField)).value))
    else if FieldValueAny(line, FieldLabels(TranslationField)).Some? then
      Some(FieldLine(TranslationField, FieldValueAny(line, FieldLabels(TranslationField)).value))
    else if FieldValueAny(line, FieldLabels(ExampleEnField)).Some? then
      Some(FieldLine(ExampleEnField, FieldValueAny(line, FieldLabels(ExampleEnField)).value))
    else if FieldValueAny(line, FieldLabels(ExampleRuField)).Some? then
      Some(FieldLine(ExampleRuField, FieldValueAny(line, FieldLabels(ExampleRuField)).value))
    else None
  }

  /** The five locals of parse_word_block. */
  datatype Draft = Draft(word: string, transcription: string, translation: string, exampleEn: string, exampleRu: string)

  const EmptyDraft: Draft := Draft("", "", "", "", "")

  function Get(d: Draft, f: Field): string {
    match f
    case WordField => d.word
    case TranscriptionField => d.transcription
    case TranslationField => d.translation
    case ExampleEnField => d.exampleEn
    case ExampleRuField => d.exampleRu
  }

  function Set(d: Draft, f: Field, v: string): (r: Draft)
    ensures Get(r, f) == v
    ensures forall g :: g != f ==> Get(r, g) == Get(d, g)
  {
    match f
    case WordField => d.(word := v)
    case TranscriptionField => d.(transcription := v)
    case TranslationField => d.(translation := v)
    case ExampleEnField => d.(exampleEn := v)
    case ExampleRuField => d.(exampleRu := v)
  }

  /** One iteration of the loop. */
  function Step(d: Draft, raw: string): Draft {
    match LineField(raw)
    case None => d
    case Some(fl) => Set(d, fl.field, fl.value)
  }

  /** The locals after the given lines. */
  function Scan(lines: seq<string>): Draft
    decreases |lines|
  {
    if lines == [] then EmptyDraft else Step(Scan(lines[..|lines| - 1]), lines[|lines| - 1])
  }

  function BlockLines(block: string): seq<string> {
    Split(Strip(block), '\n')
  }

  /** The check and defaults at the end of parse_word_block. */
  function Finish(d: Draft): Option<Entry> {
    if d.word != [] && d.translation != [] then
      Some(Entry(d.word,
                 if d.transcription != [] then d.transcription else NoTranscription,
                 d.translation,
                 if d.exampleEn != [] then d.exampleEn else "Example with " + d.word + ".",
                 d.exampleRu))
    else None
  }

  /** parse_word_block(block). */
  function WordOf(block: string): Option<Entry> {
    Finish(Scan(BlockLines(block)))
  }

  /** parse_word_block: the loop over the block's lines. */
  method ParseWordBlock(block: string) returns (entry: Option<Entry>)
    ensures entry == WordOf(block)
  {
    var lines := Split(Strip(block), '\n');
    var word, transcription, translation, exampleEn, exampleRu := "", "", "", "", "";
    var i := 0;
    while i < |lines|
      invariant 0 <= i <= |lines|
      invariant Draft(word, transcription, translation, exampleEn, exampleRu) == Scan(lines[..i])
    {
      assert lines[..i + 1][..i] == lines[..i];
      var line := Strip(lines[i]);
      i := i + 1;
      if line == [] {
        continue;
      }
      var m := FieldValueAny(line, FieldLabels(WordField));
      if m.Some? {
        word := m.value;
        continue;
      }
      m := FieldValueAny(line, FieldLabels(TranscriptionField));
      if m.Some? {
        transcription := m.value;
        continue;
      }
      m := FieldValueAny(line, FieldLabels(TranslationField));
      if m.Some? {
        translation := m.value;
        continue;
      }
      m := FieldValueAny(line, FieldLabels(ExampleEnField));
      if m.Some? {
        exampleEn := m.value;
        continue;
      }
      m := FieldValueAny(line, FieldLabels(ExampleRuField));
      if m.Some? {
        exampleRu := m.value;
        continue;
      }
    }
    assert lines[..i] == lines;
    if word != [] && translation != [] {
      entry := Some(Entry(word,
                          if transcription != [] then transcription else NoTranscription,
                          translation,
                          if exampleEn != [] then exampleEn else "Example with " + word + ".",
                          exampleRu));
    } else {
      entry := None;
    }
  }

  // ---------------------------------------------------------------- word block: properties

  /** Line j sets field f. */
  predicate SetsField(lines: seq<string>, j: int, f: Field) {
    0 <= j < |lines| && LineSets(lines[j], f)
  }

  /** The line is a `field: value` line for f. */
  predicate LineSets(raw: string, f: Field) {
    LineField(raw).Some? && LineField(raw).value.field == f
  }

  lemma ScanSnoc(lines: seq<string>)
    requires lines != []
    ensures Scan(lines) == Step(Scan(lines[..|lines| - 1]), lines[|lines| - 1])
  {
  }

  lemma StepField(d: Draft, raw: string, f: Field)
    ensures Get(Step(d, raw), f) == if LineSets(raw, f) then LineField(raw).value.value else Get(d, f)
  {
  }

  /** When several lines set the same field, the last one wins. */
  lemma {:induction false} LastFieldWins(lines: seq<string>, f: Field, i: nat)
    requires SetsField(lines, i, f)
    requires forall j :: i < j < |lines| ==> !SetsField(lines, j, f)
    ensures Get(Scan(lines), f) == LineField(lines[i]).value.value
    decreases |lines|
  {
    var init := lines[..|lines| - 1];
    var last := lines[|lines| - 1];
    ScanSnoc(lines);
    StepField(Scan(init), last, f);
    if i < |lines| - 1 {
      assert !SetsField(lines, |lines| - 1, f);
      forall j | i < j < |init| ensures !SetsField(init, j, f) {
        assert !SetsField(lines, j, f);
      }
      assert SetsField(init, i, f);
      LastFieldWins(init, f, i);
    }
  }

  /** A field no line sets stays empty. */
  lemma {:induction false} UnsetFieldEmpty(lines: seq<string>, f: Field)
    requires forall j :: 0 <= j < |lines| ==> !SetsField(lines, j, f)
    ensures Get(Scan(lines), f) == ""
    decreases |lines|
  {
    if lines != [] {
      var init := lines[..|lines| - 1];
      var last := lines[|lines| - 1];
      ScanSnoc(lines);
      StepField(Scan(init), last, f);
      assert !SetsField(lines, |lines| - 1, f);
      forall j | 0 <= j < |init| ensures !SetsField(init, j, f) {
        assert !SetsField(lines, j, f);
      }
      UnsetFieldEmpty(init, f);
    }
  }

  /** A block yields an entry exactly when its word and translation are non-empty,
      and the entry's missing fields take their defaults: "[-]" for the
      transcription, "Example with WORD." for the English example, "" for the
      Russian one. */
  lemma WordDefaults(block: string)
    ensures var d := Scan(BlockLines(block));
      (WordOf(block).Some? <==> d.word != [] && d.translation != [])
      && (WordOf(block).Some? ==>
            var e := WordOf(block).value;
            e.word == d.word && e.translation == d.translation && e.exampleRu == d.exampleRu
            && (d.transcription == [] ==> e.transcription == NoTranscription)
            && (d.transcription != [] ==> e.transcription == d.transcription)
            && (d.exampleEn == [] ==> e.exampleEn == "Example with " + e.word + ".")
            && (d.exampleEn != [] ==> e.exampleEn == d.exampleEn))
  {
  }

  /** A block with no transcription line gets the default transcription, one with
      no English example line the generated example, and one with no Russian
      example line the empty one. */
  lemma MissingFieldsDefault(block: string)
    requires WordOf(block).Some?
    ensures var lines := BlockLines(block);
      var e := WordOf(block).value;
      ((forall j :: 0 <= j < |lines| ==> !SetsField(lines, j, TranscriptionField)) ==> e.transcription == NoTranscription)
      && ((forall j :: 0 <= j < |lines| ==> !SetsField(lines, j, ExampleEnField)) ==> e.exampleEn == "Example with " + e.word + ".")
      && ((forall j :: 0 <= j < |lines| ==> !SetsField(lines, j, ExampleRuField)) ==> e.exampleRu == "")
  {
    var lines := BlockLines(block);
    if forall j :: 0 <= j < |lines| ==> !SetsField(lines, j, TranscriptionField) {
      UnsetFieldEmpty(lines, TranscriptionField);
    }
    if forall j :: 0 <= j < |lines| ==> !SetsField(lines, j, ExampleEnField) {
      UnsetFieldEmpty(lines, ExampleEnField);
    }
    if forall j :: 0 <= j < |lines| ==> !SetsField(lines, j, ExampleRuField) {
      UnsetFieldEmpty(lines, ExampleRuField);
    }
  }

  // ---------------------------------------------------------------- primary parse

  const WordMarker: string := "СЛОВО"

  /** The entry a block contributes: none for a blank block or a rejected one. */
  function BlockEntry(block: string): (r: Option<Entry>)
    ensures r.Some? ==> r.value.word != [] && r.value.translation != []
  {
    if AllSpace(block) then None else WordOf(block)
  }

  /** A complete entry: what every collected entry is. */
  predicate HasWordAndTranslation(e: Entry) {
    e.word != [] && e.translation != []
  }

  /** The entries the primary parser collects from the given blocks, in order:
      blank blocks and rejected blocks contribute nothing. */
  function Collected(blocks: seq<string>): (r: seq<Entry>)
    ensures |r| <= |blocks|
    ensures forall k :: 0 <= k < |r| ==> r[k].word != [] && r[k].translation != []
  {
    FilterMappedAll(BlockEntry, blocks, HasWordAndTranslation);
    assert forall k :: 0 <= k < |FilterMapped(BlockEntry, blocks)| ==>
      FilterMapped(BlockEntry, blocks)[k] in FilterMapped(BlockEntry, blocks);
    FilterMapped(BlockEntry, blocks)
  }

  /** The loop of parse_vocabulary_response over the blocks after the first
      `СЛОВО n:` marker. */
  function PrimaryWords(response: string): seq<Entry> {
    Collected(SplitOnMarker(response, WordMarker)[1..])
  }

  /** The list parse_vocabulary_response settles on: the primary result, or, when
      that has fewer than three entries, the fallback's, whatever its size. */
  function FinalWords(response: string): seq<Entry> {
    if |PrimaryWords(response)| < 3 then FallbackWords(response) else PrimaryWords(response)
  }

  /** parse_vocabulary_response(response, topic). */
  method ParseVocabularyResponse(response: string, topic: string) returns (data: Option<VocabData>)
    ensures data.None? <==> FinalWords(response) == []
    ensures data.Some? ==> data.value == VocabData(Some(topic), Some(FinalWords(response)))
    ensures |PrimaryWords(response)| < 3 ==> (data.None? <==> FallbackWords(response) == [])
  {
    var blocks := SplitOnMarker(response, WordMarker)[1..];
    var words: seq<Entry> := [];
    var i := 0;
    while i < |blocks|
      invariant 0 <= i <= |blocks|
      invariant words == Collected(blocks[..i])
    {
      FilterMappedSnoc(BlockEntry, blocks, i);
      var block := blocks[i];
      i := i + 1;
      if AllSpace(block) {
        continue;
      }
      var entry := ParseWordBlock(block);
      if entry.Some? {
        words := words + [entry.value];
      }
    }
    assert blocks[..i] == blocks;
    if |words| < 3 {
      words := FallbackParse(response);
    }
    if words != [] {
      data := Some(VocabData(Some(topic), Some(words)));
    } else {
      data := None;
    }
  }

  /** A primary result of at least three entries is kept as it is; a smaller one
      is dropped entirely, even when the fallback finds fewer still. */
  lemma PrimaryOrFallback(response: string)
    ensures |PrimaryWords(response)| >= 3 ==> FinalWords(response) == PrimaryWords(response)
    ensures |PrimaryWords(response)| < 3 ==> FinalWords(response) == FallbackWords(response)
    ensures forall k :: 0 <= k < |FinalWords(response)| ==> FinalWords(response)[k].word != []
  {
    FallbackEntryShape(response);
    forall k | 0 <= k < |FinalWords(response)| ensures FinalWords(response)[k].word != [] {
      assert FinalWords(response)[k] in FinalWords(response);
    }
  }

  const NotRecognised: string := "Не удалось распознать слова. Попробуйте ещё раз. Ответ: "

  /** generate_words, with the model's reply as a parameter. */
  method GenerateWords(topic: string, reply: string) returns (r: Result<VocabData, string>)
    ensures Gemini.IsErrorReply(reply) ==> r == Err(Gemini.ErrorText(reply))
    ensures !Gemini.IsErrorReply(reply) ==> (r.Ok? <==> FinalWords(reply) != [])
    ensures r.Ok? ==> r.value == VocabData(Some(topic), Some(FinalWords(reply)))
    ensures !Gemini.IsErrorReply(reply) && r.Err? ==> r.error == NotRecognised + Take(reply, 300) + "..."
  {
    if Gemini.IsErrorReply(reply) {
      return Err(Gemini.ErrorText(reply));
    }
    var data := ParseVocabularyResponse(reply, topic);
    if data.Some? && data.value.words.Some? && data.value.words.value != [] {
      return Ok(data.value);
    }
    return Err(NotRecognised + Take(reply, 300) + "...");
  }

  // ---------------------------------------------------------------- fallback parse

  /** The dashes `[-–—]` accepts. */
  predicate IsDash(c: char) {
    c == '-' || c == '–' || c == '—'
  }

  /** End of the line that contains position i (the next newline, or the end). */
  function LineEnd(s: string, i: nat): (r: nat)
    requires i <= |s|
    ensures i <= r <= |s|
    ensures forall k :: i <= k < r ==> s[k] != '\n'
    ensures r == |s| || s[r] == '\n'
    decreases |s| - i
  {
    if i == |s| || s[i] == '\n' then i else LineEnd(s, i + 1)
  }

  /** The last position in [lo, hi) that holds no newline. */
  function LastNonNewline(s: string, lo: nat, hi: nat): (r: Option<nat>)
    requires lo <= hi <= |s|
    ensures r.Some? ==> lo <= r.value < hi && s[r.value] != '\n'
    ensures r.Some? ==> forall k :: r.value < k < hi ==> s[k] == '\n'
    ensures r.None? ==> forall k :: lo <= k < hi ==> s[k] == '\n'
    decreases hi - lo
  {
    if hi == lo then None
    else if s[hi - 1] != '\n' then Some(hi - 1)
    else LastNonNewline(s, lo, hi - 1)
  }

  /** `\s*[-–—]\s*([^\n]+)` matched at x: the bounds of the translation group.
      `\s` crosses newlines; when only whitespace follows the dash, backtracking
      hands the group the last character that is not a newline. */
  function DashTail(s: string, x: nat): (r: Option<(nat, nat)>)
    requires x <= |s|
    ensures r.Some? ==> x < r.value.0 < r.value.1 <= |s|
    ensures r.Some? ==> forall k :: r.value.0 <= k < r.value.1 ==> s[k] != '\n'
  {
    var b := SkipSpaces(s, x);
    if b < |s| && IsDash(s[b]) then
      var c := SkipSpaces(s, b + 1);
      if c < |s| then
        assert s[c] != '\n';
        Some((c, LineEnd(s, c)))
      else match LastNonNewline(s, b + 1, |s|)
        case Some(k) => Some((k, k + 1))
        case None => None
    else None
  }

  /** The lazy `\[.+?\]` that opens at a, scanned from e on: the first closing
      bracket after at least one character, on the same line, after which the
      dash tail matches. */
  function BracketClose(s: string, a: nat, e: nat): (r: Option<nat>)
    requires a + 2 <= e <= |s|
    requires forall k :: a < k < e ==> s[k] != '\n'
    ensures r.Some? ==> e <= r.value < |s| && ClosesAt(s, r.value)
    ensures r.Some? ==> forall k :: a < k < r.value ==> s[k] != '\n'
    ensures r.None? ==> forall k :: e <= k < LineEnd(s, e) ==> !ClosesAt(s, k)
    decreases |s| - e
  {
    if e == |s| || s[e] == '\n' then None
    else if ClosesAt(s, e) then Some(e)
    else BracketClose(s, a, e + 1)
  }

  /** A `]` at e after which the dash tail matches. */
  predicate ClosesAt(s: string, e: nat) {
    e < |s| && s[e] == ']' && DashTail(s, e + 1).Some?
  }

  /** One match of the first fallback pattern. */
  datatype WordMatch = WordMatch(word: string, bracket: string, translation: string, end: nat)

  /** The match whose word is s[p..w] and whose bracket group opens at a. `.`
      does not match a newline, so the bracket's first character must not be
      one either. */
  function BracketMatch(s: string, p: nat, w: nat, a: nat): (r: Option<WordMatch>)
    requires p < w <= a < |s| && s[a] == '['
    ensures r.Some? ==> p < r.value.end <= |s|
    ensures r.Some? ==> r.value.translation != []
    ensures r.Some? ==> OneLineBracket(r.value.bracket) && OneLine(r.value.translation)
    ensures a + 1 < |s| && s[a + 1] == '\n' ==> r.None?
  {
    if a + 2 > |s| || s[a + 1] == '\n' then None
    else match BracketClose(s, a, a + 2)
      case None => None
      case Some(e) =>
        match DashTail(s, e + 1)
        case None => None
        case Some(t) =>
          BracketSlice(s, a, e);
          SliceOneLine(s, t.0, t.1);
          Some(WordMatch(s[p..w], s[a..e + 1], s[t.0..t.1], t.1))
  }

  /** The text from an opening bracket to a closing one on the same line. */
  lemma BracketSlice(s: string, a: nat, e: nat)
    requires a + 2 <= e < |s| && s[a] == '[' && s[a + 1] != '\n' && s[e] == ']'
    requires forall k :: a < k < e ==> s[k] != '\n'
    ensures OneLineBracket(s[a..e + 1])
  {
    SliceOneLine(s, a, e + 1);
  }

  /** Text without a line break. */
  predicate OneLine(t: string) {
    forall k :: 0 <= k < |t| ==> t[k] != '\n'
  }

  /** A stretch of text without a line break. */
  lemma SliceOneLine(s: string, i: nat, j: nat)
    requires i <= j <= |s| && forall k :: i <= k < j ==> s[k] != '\n'
    ensures OneLine(s[i..j])
  {
    forall k | 0 <= k < j - i ensures s[i..j][k] != '\n' {
      assert s[i..j][k] == s[i + k];
    }
  }

  /** What `\[.+?\]` can match: a bracket pair around at least one character,
      all on one line. */
  predicate OneLineBracket(b: string) {
    |b| >= 3 && b[0] == '[' && b[|b| - 1] == ']' && OneLine(b)
  }

  /** The match whose word is s[p..w] and that has no bracket group. */
  function PlainMatch(s: string, p: nat, w: nat): (r: Option<WordMatch>)
    requires p < w <= |s|
    ensures r.Some? ==> p < r.value.end <= |s|
    ensures r.Some? ==> r.value.translation != [] && r.value.bracket == [] && OneLine(r.value.translation)
  {
    match DashTail(s, w)
    case None => None
    case Some(t) =>
      SliceOneLine(s, t.0, t.1);
      Some(WordMatch(s[p..w], "", s[t.0..t.1], t.1))
  }

  /** `(\w+)\s*(\[.+?\])?\s*[-–—]\s*([^\n]+)` tried at p. Giving back characters of
      `\w+` or of the spaces never helps, so the greedy runs decide the match; a
      bracket that cannot be closed leaves no match, as the dash cannot follow. */
  function Pattern1At(s: string, p: nat): (r: Option<WordMatch>)
    requires p < |s|
    ensures r.Some? ==> p < r.value.end <= |s|
    ensures r.Some? ==> r.value.word == s[p..SkipWord(s, p)] && r.value.word != []
    ensures r.Some? ==> r.value.translation != []
    ensures r.Some? ==> r.value.bracket == [] || OneLineBracket(r.value.bracket)
    ensures r.Some? ==> OneLine(r.value.translation)
  {
    if !IsWordChar(s[p]) then None
    else
      var w := SkipWord(s, p);
      var a := SkipSpaces(s, w);
      if a < |s| && s[a] == '[' then BracketMatch(s, p, w, a) else PlainMatch(s, p, w)
  }

  /** A bracket that opens a line break is no bracket group: in "ab [\n] - x"
      the first pattern matches nothing at the word. */
  lemma BracketOnOneLine()
    ensures Pattern1At("ab [\n] - x", 0).None?
  {
    var s := "ab [\n] - x";
    assert s[0] == 'a' && s[1] == 'b' && s[2] == ' ' && s[3] == '[' && s[4] == '\n';
    assert SkipWord(s, 0) == 2;
    assert SkipSpaces(s, 2) == 3;
  }

  /** re.findall of the first pattern from p on: a failed attempt moves on by one
      character, a match resumes the search where it ended. */
  function Matches1(s: string, p: nat): (r: seq<WordMatch>)
    requires p <= |s|
    ensures forall k :: 0 <= k < |r| ==> r[k].word != [] && r[k].translation != []
    decreases |s| - p
  {
    if p == |s| then []
    else match Pattern1At(s, p)
      case Some(m) => [m] + Matches1(s, m.end)
      case None => Matches1(s, p + 1)
  }

  /** One match of the second pattern: the word and the translation. */
  datatype ListMatch = ListMatch(word: string, translation: string, end: nat)

  /** `\d+[.)]\s*(\w+)\s*[-–—]\s*([^\n]+)` tried at p. */
  function Pattern2At(s: string, p: nat): (r: Option<ListMatch>)
    requires p < |s|
    ensures r.Some? ==> p < r.value.end <= |s| && r.value.word != [] && r.value.translation != []
  {
    var e := SkipDigits(s, p);
    if e == p || e == |s| || !(s[e] == '.' || s[e] == ')') then None
    else
      var a := SkipSpaces(s, e + 1);
      var w := SkipWord(s, a);
      if w == a then None
      else match DashTail(s, w)
        case None => None
        case Some(t) => Some(ListMatch(s[a..w], s[t.0..t.1], t.1))
  }

  function Matches2(s: string, p: nat): (r: seq<ListMatch>)
    requires p <= |s|
    ensures forall k :: 0 <= k < |r| ==> r[k].word != [] && r[k].translation != []
    decreases |s| - p
  {
    if p == |s| then []
    else match Pattern2At(s, p)
      case Some(m) => [m] + Matches2(s, m.end)
      case None => Matches2(s, p + 1)
  }

  /** The function words the first pattern drops. */
  predicate IsStopWord(w: string) {
    w == "the" || w == "a" || w == "an" || w == "is" || w == "are"
  }

  /** The example sentence the fallback makes up for a word. */
  function UsefulExample(word: string): string {
    Capitalize(word) + " is a useful word."
  }

  /** The entry the first pattern's loop makes of a match, unless the word is too
      short or a stop word. */
  function KeepFirst(m: WordMatch): (r: Option<Entry>)
    ensures r.Some? ==> |r.value.word| > 1 && !IsStopWord(Lower(r.value.word))
    ensures r.Some? ==> r.value.exampleEn == UsefulExample(r.value.word) && r.value.exampleRu == ""
  {
    var word := Strip(m.word);
    if |word| > 1 && !IsStopWord(Lower(word)) then
      Some(Entry(word, if m.bracket != [] then Strip(m.bracket) else NoTranscription,
                 Strip(m.translation), UsefulExample(word), ""))
    else None
  }

  /** The entry the second pattern's loop makes of a match, unless the word is too
      short. */
  function KeepSecond(m: ListMatch): (r: Option<Entry>)
    ensures r.Some? ==> |r.value.word| > 1 && r.value.transcription == NoTranscription
    ensures r.Some? ==> r.value.exampleEn == UsefulExample(r.value.word) && r.value.exampleRu == ""
  {
    var word := Strip(m.word);
    if |word| > 1 then Some(Entry(word, NoTranscription, Strip(m.translation), UsefulExample(word), ""))
    else None
  }

  /** The entries of the first loop. */
  function FirstStage(response: string): seq<Entry> {
    FilterMapped(KeepFirst, Matches1(response, 0))
  }

  /** The entries of the second loop. */
  function SecondStage(response: string): seq<Entry> {
    FilterMapped(KeepSecond, Matches2(response, 0))
  }

  /** fallback_parse(response). */
  function FallbackWords(response: string): seq<Entry> {
    var first := FirstStage(response);
    if |first| < 3 then first + SecondStage(response) else first
  }

  /** The first loop of fallback_parse: append each kept entry, in order. */
  method AppendFirstEntries(matches: seq<WordMatch>) returns (words: seq<Entry>)
    ensures words == FilterMapped(KeepFirst, matches)
  {
    words := [];
    for i := 0 to |matches|
      invariant words == FilterMapped(KeepFirst, matches[..i])
    {
      FilterMappedSnoc(KeepFirst, matches, i);
      var entry := KeepFirst(matches[i]);
      if entry.Some? {
        words := words + [entry.value];
      } else {
        assert words + [] == words;
      }
    }
    assert matches[..|matches|] == matches;
  }

  /** The second loop of fallback_parse: append each kept entry to the list the
      first loop left. */
  method AppendSecondEntries(matches: seq<ListMatch>, first: seq<Entry>) returns (words: seq<Entry>)
    ensures words == first + FilterMapped(KeepSecond, matches)
  {
    words := first;
    for i := 0 to |matches|
      invariant words == first + FilterMapped(KeepSecond, matches[..i])
    {
      ghost var done := FilterMapped(KeepSecond, matches[..i]);
      FilterMappedSnoc(KeepSecond, matches, i);
      var entry := KeepSecond(matches[i]);
      if entry.Some? {
        AppendAssoc(first, done, [entry.value]);
        words := words + [entry.value];
      } else {
        assert done + [] == done;
      }
    }
    assert matches[..|matches|] == matches;
  }

  /** fallback_parse: the loop over the first pattern's matches, then, only when it
      kept fewer than three entries, the loop over the second pattern's. */
  method FallbackParse(response: string) returns (words: seq<Entry>)
    ensures words == FallbackWords(response)
  {
    words := AppendFirstEntries(Matches1(response, 0));
    if |words| < 3 {
      words := AppendSecondEntries(Matches2(response, 0), words);
    }
  }

  predicate FirstShaped(e: Entry) {
    |e.word| > 1 && !IsStopWord(Lower(e.word)) && e.exampleEn == UsefulExample(e.word) && e.exampleRu == ""
  }

  predicate SecondShaped(e: Entry) {
    |e.word| > 1 && e.transcription == NoTranscription && e.exampleEn == UsefulExample(e.word) && e.exampleRu == ""
  }

  /** A first-pattern entry has a word of two or more characters that is not a
      stop word, the made-up English example and no Russian one. */
  lemma FirstStageShape(response: string)
    ensures forall e :: e in FirstStage(response) ==> FirstShaped(e)
  {
    FilterMappedAll(KeepFirst, Matches1(response, 0), FirstShaped);
  }

  /** A second-pattern entry has a word of two or more characters, no
      transcription, the made-up English example and no Russian one. */
  lemma SecondStageShape(response: string)
    ensures forall e :: e in SecondStage(response) ==> SecondShaped(e)
  {
    FilterMappedAll(KeepSecond, Matches2(response, 0), SecondShaped);
  }

  /** The second pattern only adds entries after the first pattern's, and only
      when the first kept fewer than three. */
  lemma FallbackStages(response: string)
    ensures var first := FirstStage(response);
      var all := FallbackWords(response);
      |first| <= |all| && all[..|first|] == first
      && (|first| >= 3 ==> all == first)
      && (|first| < 3 ==> all[|first|..] == SecondStage(response))
  {
    var first := FirstStage(response);
    var all := FallbackWords(response);
    if |first| < 3 {
      var second := SecondStage(response);
      assert all == first + second;
      assert all[..|first|] == first;
      assert all[|first|..] == second;
    }
  }

  /** Every fallback entry has a word of two or more characters, the made-up
      English example and no Russian example; the first pattern's entries, which
      come first, are no stop words, and the second's, which follow, have no
      transcription. */
  lemma FallbackEntryShape(response: string)
    ensures forall e :: e in FallbackWords(response) ==>
              |e.word| > 1 && e.exampleEn == UsefulExample(e.word) && e.exampleRu == ""
    ensures forall e :: e in FirstStage(response) ==> !IsStopWord(Lower(e.word))
    ensures forall e :: e in FallbackWords(response)[|FirstStage(response)|..] ==> e.transcription == NoTranscription
  {
    FallbackStages(response);
    FirstStageShape(response);
    SecondStageShape(response);
    var first := FirstStage(response);
    var all := FallbackWords(response);
    if |first| < 3 {
      assert all == first + SecondStage(response);
    } else {
      assert all[|first|..] == [];
    }
  }

  // ---------------------------------------------------------------- per-user cache

  /** The `current_words` map of class Vocabulary: the last set saved per user. */
  class VocabularyCache {
    var currentWords: map<int, VocabData>

    constructor()
      ensures currentWords == map[]
    {
      currentWords := map[];
    }

    /** save_words: without a `words` key nothing is stored and the result is
        false; otherwise this user's entry becomes the data and no other entry
        changes. */
    method SaveWords(userId: int, data: VocabData) returns (saved: bool)
      modifies this
      ensures saved <==> data.words.Some?
      ensures saved ==> currentWords == old(currentWords)[userId := data]
      ensures !saved ==> currentWords == old(currentWords)
      ensures saved ==> CurrentWords(userId) == Some(data)
      ensures forall u :: u != userId ==> CurrentWords(u) == old(CurrentWords(u))
    {
      if data.words.Some? {
        currentWords := currentWords[userId := data];
        return true;
      }
      return false;
    }

    /** get_current_words: the saved data, or none for a user with nothing saved. */
    function CurrentWords(userId: int): (r: Option<VocabData>)
      reads this
      ensures r.Some? <==> userId in currentWords
      ensures r.Some? ==> r.value == currentWords[userId]
    {
      if userId in currentWords then Some(currentWords[userId]) else None
    }
  }

  // ---------------------------------------------------------------- formatters

  const NotFound: string := "Слова не найдены"

  /** `vocabulary_data.get('topic', 'Unknown')`. */
  function TopicOf(d: VocabData): string {
    match d.topic
    case Some(t) => t
    case None => "Unknown"
  }

  function NumberLine(i: nat, e: Entry): string {
    NatToString(i) + ". " + e.word + " [" + e.transcription + "]\n"
  }

  function TranslationLine(e: Entry): string {
    "   Перевод: " + e.translation + "\n"
  }

  function ExampleLine(e: Entry): string {
    "   Пример: " + e.exampleEn + "\n"
  }

  function RussianLine(e: Entry): string {
    "   " + e.exampleRu + "\n"
  }

  /** The block format_words_for_display writes for the i-th word; the Russian
      example line only when there is one. */
  function DisplayEntry(i: nat, e: Entry): string {
    NumberLine(i, e) + TranslationLine(e) + ExampleLine(e) + (if e.exampleRu != [] then RussianLine(e) else "") + "\n"
  }

  /** The blocks of the given words, numbered from 1. */
  function DisplayEntries(ws: seq<Entry>): string {
    if ws == [] then "" else DisplayEntries(ws[..|ws| - 1]) + DisplayEntry(|ws|, ws[|ws| - 1])
  }

  function DisplayHeader(d: VocabData): string {
    "\U{1F4DA} Тема: " + TopicOf(d) + "\n\n"
  }

  /** The text format_words_for_display returns. */
  function DisplayText(data: Option<VocabData>): string {
    if data.None? || data.value.words.None? then NotFound
    else DisplayHeader(data.value) + DisplayEntries(data.value.words.value)
  }

  /** format_words_for_display: the loop over the words. */
  method FormatWordsForDisplay(data: Option<VocabData>) returns (text: string)
    ensures text == DisplayText(data)
  {
    if data.None? || data.value.words.None? {
      return NotFound;
    }
    var ws := data.value.words.value;
    var header := DisplayHeader(data.value);
    text := header;
    for i := 0 to |ws|
      invariant text == header + DisplayEntries(ws[..i])
    {
      DisplayStep(header, ws, i, text);
      text := text + DisplayEntry(i + 1, ws[i]);
    }
    assert ws[..|ws|] == ws;
  }

  /** One turn of the display loop appends the next word's block. */
  lemma DisplayStep(header: string, ws: seq<Entry>, i: nat, text: string)
    requires i < |ws| && text == header + DisplayEntries(ws[..i])
    ensures text + DisplayEntry(i + 1, ws[i]) == header + DisplayEntries(ws[..i + 1])
  {
    var w := ws[..i + 1];
    assert w[..i] == ws[..i];
    assert w[|w| - 1] == ws[i];
    DisplayEntriesSnoc(w);
    AppendAssoc(header, DisplayEntries(ws[..i]), DisplayEntry(i + 1, ws[i]));
  }

  lemma DisplayEntriesSnoc(w: seq<Entry>)
    requires w != []
    ensures DisplayEntries(w) == DisplayEntries(w[..|w| - 1]) + DisplayEntry(|w|, w[|w| - 1])
  {
  }

  /** Every word has its numbered block in the entries. */
  lemma {:induction false} DisplayEntryListed(ws: seq<Entry>, k: nat)
    requires k < |ws|
    ensures Contains(DisplayEntries(ws), DisplayEntry(k + 1, ws[k]))
    decreases |ws|
  {
    var init := ws[..|ws| - 1];
    var a := DisplayEntries(init);
    var b := DisplayEntry(|ws|, ws[|ws| - 1]);
    assert DisplayEntries(ws) == a + b;
    if k == |ws| - 1 {
      ContainsSuffix(a, b);
    } else {
      DisplayEntryListed(init, k);
      assert init[k] == ws[k];
      ContainsPrefix(a, b, DisplayEntry(k + 1, ws[k]));
    }
  }

  /** The display text lists every word of the data, under its number. */
  lemma DisplayListsEveryWord(d: VocabData, k: nat)
    requires d.words.Some? && k < |d.words.value|
    ensures Contains(DisplayText(Some(d)), DisplayEntry(k + 1, d.words.value[k]))
  {
    DisplayEntryListed(d.words.value, k);
    ContainsWithin(DisplayHeader(d), DisplayEntries(d.words.value), "", DisplayEntry(k + 1, d.words.value[k]));
    assert DisplayHeader(d) + DisplayEntries(d.words.value) + "" == DisplayText(Some(d));
  }

  /** The length past which format_words_compact stops adding words. */
  const CompactLimit: nat := 3000

  function HeadLine(i: nat, e: Entry): string {
    "*" + NatToString(i) + ".* " + e.word + " [" + e.transcription + "]\n"
  }

  function ItalicLine(e: Entry): string {
    "_" + e.translation + "_\n"
  }

  function EnglishFlagLine(e: Entry): string {
    "\U{1F1EC}\U{1F1E7} " + e.exampleEn + "\n"
  }

  function RussianFlagLine(e: Entry): string {
    "\U{1F1F7}\U{1F1FA} " + e.exampleRu + "\n"
  }

  /** The block format_words_compact writes for the i-th word; each example line
      only when that example is non-empty. */
  function CompactEntry(i: nat, e: Entry): string {
    HeadLine(i, e) + ItalicLine(e)
    + (if e.exampleEn != [] then EnglishFlagLine(e) else "")
    + (if e.exampleRu != [] then RussianFlagLine(e) else "")
    + "\n"
  }

  function CompactEntries(ws: seq<Entry>): string {
    if ws == [] then "" else CompactEntries(ws[..|ws| - 1]) + CompactEntry(|ws|, ws[|ws| - 1])
  }

  function CompactHeader(d: VocabData): string {
    "\U{1F4DA} Тема: *" + TopicOf(d) + "*\n\n"
  }

  /** The text after the first n words. */
  function CompactPrefix(header: string, ws: seq<Entry>, n: nat): string
    requires n <= |ws|
  {
    header + CompactEntries(ws[..n])
  }

  /** The text after the first n words passes the limit. */
  predicate OverLimit(header: string, ws: seq<Entry>, n: nat) {
    n <= |ws| && |CompactPrefix(header, ws, n)| > CompactLimit
  }

  /** The first n from i on whose text passes the limit: the word after which the
      loop breaks. */
  function CutAt(header: string, ws: seq<Entry>, i: nat): (r: Option<nat>)
    requires i <= |ws| + 1
    ensures r.Some? ==> i <= r.value <= |ws| && |CompactPrefix(header, ws, r.value)| > CompactLimit
  {
    FirstWhere((n: nat) => OverLimit(header, ws, n), i, |ws| + 1)
  }

  /** The search for the cut moves one word at a time. */
  lemma CutStep(header: string, ws: seq<Entry>, i: nat)
    requires 1 <= i <= |ws|
    ensures OverLimit(header, ws, i) ==> CutAt(header, ws, i) == Some(i)
    ensures !OverLimit(header, ws, i) ==> CutAt(header, ws, i) == CutAt(header, ws, i + 1)
  {
  }

  /** Every text before the cut stays within the limit. */
  lemma CutIsFirst(header: string, ws: seq<Entry>, k: nat)
    requires 1 <= k <= |ws|
    requires CutAt(header, ws, 1).None? || k < CutAt(header, ws, 1).value
    ensures |CompactPrefix(header, ws, k)| <= CompactLimit
  {
    FirstWhereIsFirst((n: nat) => OverLimit(header, ws, n), 1, |ws| + 1, k);
  }

  /** The closing line naming how many of `total` words were left out after the
      first `shown`. */
  function MoreWords(total: nat, shown: nat): string
    requires shown <= total
  {
    "\n... и ещё " + NatToString(total - shown) + " слов"
  }

  /** The words up to and including the first one that takes the text past 3000
      characters, then, if words remain, how many were left out. */
  function CompactBody(header: string, ws: seq<Entry>): string {
    match CutAt(header, ws, 1)
    case None => CompactPrefix(header, ws, |ws|)
    case Some(n) =>
      if n < |ws| then CompactPrefix(header, ws, n) + MoreWords(|ws|, n) else CompactPrefix(header, ws, n)
  }

  /** The text format_words_compact returns. */
  function CompactText(data: Option<VocabData>): string {
    if data.None? || data.value.words.None? then NotFound
    else CompactBody(CompactHeader(data.value), data.value.words.value)
  }

  /** format_words_compact. */
  method FormatWordsCompact(data: Option<VocabData>) returns (text: string)
    ensures text == CompactText(data)
  {
    if data.None? || data.value.words.None? {
      return NotFound;
    }
    text := AppendCompactEntries(CompactHeader(data.value), data.value.words.value);
  }

  /** The loop of format_words_compact over the words, with its early break. */
  method AppendCompactEntries(header: string, ws: seq<Entry>) returns (text: string)
    ensures text == CompactBody(header, ws)
  {
    text := header;
    var i := 0;
    while i < |ws|
      invariant 0 <= i <= |ws|
      invariant text == CompactPrefix(header, ws, i)
      invariant CutAt(header, ws, 1) == CutAt(header, ws, i + 1)
    {
      CompactAdvance(header, ws, i, text);
      text := text + CompactEntry(i + 1, ws[i]);
      i := i + 1;
      if |text| > CompactLimit {
        CompactBodyCut(header, ws, i);
        if i < |ws| {
          text := text + MoreWords(|ws|, i);
        }
        return;
      }
    }
    CompactBodyWhole(header, ws);
  }

  lemma CompactBodyCut(header: string, ws: seq<Entry>, n: nat)
    requires 1 <= n <= |ws| && CutAt(header, ws, 1) == Some(n)
    ensures n < |ws| ==> CompactBody(header, ws) == CompactPrefix(header, ws, n) + MoreWords(|ws|, n)
    ensures n == |ws| ==> CompactBody(header, ws) == CompactPrefix(header, ws, n)
  {
  }

  lemma CompactBodyWhole(header: string, ws: seq<Entry>)
    requires CutAt(header, ws, 1).None?
    ensures CompactBody(header, ws) == CompactPrefix(header, ws, |ws|)
  {
  }

  /** One turn of the compact loop: the text after the next word, and whether the
      cut falls there. */
  lemma CompactAdvance(header: string, ws: seq<Entry>, i: nat, text: string)
    requires i < |ws| && text == CompactPrefix(header, ws, i)
    ensures text + CompactEntry(i + 1, ws[i]) == CompactPrefix(header, ws, i + 1)
    ensures |text + CompactEntry(i + 1, ws[i])| > CompactLimit ==> CutAt(header, ws, i + 1) == Some(i + 1)
    ensures |text + CompactEntry(i + 1, ws[i])| <= CompactLimit ==> CutAt(header, ws, i + 1) == CutAt(header, ws, i + 2)
  {
    CompactStep(header, ws, i, text);
    CutStep(header, ws, i + 1);
  }

  /** One turn of the compact loop appends the next word's block. */
  lemma CompactStep(header: string, ws: seq<Entry>, i: nat, text: string)
    requires i < |ws| && text == CompactPrefix(header, ws, i)
    ensures text + CompactEntry(i + 1, ws[i]) == CompactPrefix(header, ws, i + 1)
  {
    var w := ws[..i + 1];
    assert w[..i] == ws[..i];
    assert w[|w| - 1] == ws[i];
    CompactEntriesSnoc(w);
    AppendAssoc(header, CompactEntries(ws[..i]), CompactEntry(i + 1, ws[i]));
  }

  lemma CompactEntriesSnoc(w: seq<Entry>)
    requires w != []
    ensures CompactEntries(w) == CompactEntries(w[..|w| - 1]) + CompactEntry(|w|, w[|w| - 1])
  {
  }

  lemma CompactPrefixSnoc(header: string, ws: seq<Entry>, n: nat)
    requires 1 <= n <= |ws|
    ensures CompactPrefix(header, ws, n) == CompactPrefix(header, ws, n - 1) + CompactEntry(n, ws[n - 1])
  {
    assert ws[..n][..n - 1] == ws[..n - 1];
  }

  /** When no prefix passes the limit, the whole compact text stays within it. */
  lemma CompactWithinLimit(d: VocabData)
    requires d.words.Some? && d.words.value != []
    requires CutAt(CompactHeader(d), d.words.value, 1).None?
    ensures |CompactText(Some(d))| <= CompactLimit
  {
    var ws := d.words.value;
    assert CompactText(Some(d)) == CompactPrefix(CompactHeader(d), ws, |ws|);
    CutIsFirst(CompactHeader(d), ws, |ws|);
  }

  /** After the cut at word n, the text is at most the limit (or the bare header
      when the first word already crosses it) plus word n's block plus the
      count of the words left out; the count and the words shown add up to all
      the words. */
  lemma CompactAfterCut(d: VocabData, n: nat)
    requires d.words.Some?
    requires CutAt(CompactHeader(d), d.words.value, 1) == Some(n)
    ensures 1 <= n <= |d.words.value|
    ensures |CompactText(Some(d))|
            <= (if n > 1 then CompactLimit else |CompactHeader(d)|) + |CompactEntry(n, d.words.value[n - 1])|
               + (if n < |d.words.value| then |MoreWords(|d.words.value|, n)| else 0)
    ensures n < |d.words.value| ==>
              CompactText(Some(d)) == CompactPrefix(CompactHeader(d), d.words.value, n) + MoreWords(|d.words.value|, n)
  {
    var ws := d.words.value;
    var header := CompactHeader(d);
    var more := if n < |ws| then MoreWords(|ws|, n) else "";
    assert CompactText(Some(d)) == CompactPrefix(header, ws, n) + more;
    CompactPrefixSnoc(header, ws, n);
    if n > 1 {
      CutIsFirst(header, ws, n - 1);
    } else {
      assert CompactPrefix(header, ws, 0) == header;
    }
  }
}
