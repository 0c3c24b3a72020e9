/** The grammar quiz (grammar_test.py): the parser that turns a model reply into
    multiple-choice questions, its fallback, and the per-user quiz session. */
module Quiz {
  import opened Text
  import opened Patterns
  import Gemini

  // ---------------------------------------------------------------- questions

  /** The option keys a question can have. */
  predicate IsLabel(c: char) {
    c == 'a' || c == 'b' || c == 'c' || c == 'd'
  }

  const AllLabels: set<char> := {'a', 'b', 'c', 'd'}

  /** One entry of a question's `options` dictionary. */
  datatype Choice = Choice(key: char, text: string)

  /** A parsed question; `options` keeps the dictionary's insertion order. */
  datatype Question = Question(text: string, options: seq<Choice>, answer: char, explanation: string)

  const NoExplanation: string := "Нет объяснения"

  /** The dictionary's keys. */
  function Labels(opts: seq<Choice>): (r: set<char>)
    ensures forall k :: 0 <= k < |opts| ==> opts[k].key in r
    ensures forall c :: c in r ==> exists k :: 0 <= k < |opts| && opts[k].key == c
  {
    if opts == [] then {}
    else
      var r := {opts[0].key} + Labels(opts[1..]);
      assert forall k :: 0 < k < |opts| ==> opts[k] == opts[1..][k - 1];
      r
  }

  /** No key occurs twice. */
  predicate DistinctLabels(opts: seq<Choice>) {
    opts == [] || (opts[0].key !in Labels(opts[1..]) && DistinctLabels(opts[1..]))
  }

  /** The dictionary lookup `options.get(key)`. */
  function Lookup(opts: seq<Choice>, key: char): (r: Option<string>)
    ensures r.Some? <==> key in Labels(opts)
  {
    if opts == [] then None
    else if opts[0].key == key then Some(opts[0].text)
    else Lookup(opts[1..], key)
  }

  /** `options[key] = text`: a key already present keeps its place and takes the
      new value; a new key goes last. */
  function Put(opts: seq<Choice>, key: char, text: string): (r: seq<Choice>)
    ensures Labels(r) == Labels(opts) + {key}
    ensures Lookup(r, key) == Some(text)
  {
    if opts == [] then [Choice(key, text)]
    else if opts[0].key == key then
      var r := [Choice(key, text)] + opts[1..];
      assert r[1..] == opts[1..];
      r
    else
      var rest := Put(opts[1..], key, text);
      var r := [opts[0]] + rest;
      assert r[1..] == rest;
      r
  }

  /** Putting keeps the keys distinct, grows the dictionary only for a new key, and
      leaves every other key's value alone. */
  lemma {:induction false} PutProperties(opts: seq<Choice>, key: char, text: string)
    requires DistinctLabels(opts)
    ensures DistinctLabels(Put(opts, key, text))
    ensures |Put(opts, key, text)| == if key in Labels(opts) then |opts| else |opts| + 1
    ensures forall c :: c != key ==> Lookup(Put(opts, key, text), c) == Lookup(opts, c)
  {
    if opts != [] {
      var r := Put(opts, key, text);
      if opts[0].key == key {
        assert r[1..] == opts[1..];
      } else {
        PutProperties(opts[1..], key, text);
        assert r[1..] == Put(opts[1..], key, text);
      }
    }
  }

  // ---------------------------------------------------------------- block lines

  /** `^([a-d])\s*[\)\.]\s*(.+)` (ignoring case) on a stripped line: the key,
      lower-cased, and the stripped rest. */
  function ChoiceOf(line: string): (r: Option<Choice>)
    ensures r.Some? ==> IsLabel(r.value.key)
  {
    if line != [] && IsLabel(LowerChar(line[0])) then
      var j := SkipSpaces(line, 1);
      if j + 1 < |line| && (line[j] == ')' || line[j] == '.') then
        Some(Choice(LowerChar(line[0]), Strip(line[j + 1..])))
      else None
    else None
  }

  const AnswerMarker: string := "ОТВЕТ"
  const ExplanationMarker: string := "ОБЪЯСНЕНИЕ"

  /** `^ОТВЕТ\s*:\s*([a-d])` (ignoring case): the answer key, lower-cased. */
  function AnswerOf(line: string): (r: Option<char>)
    ensures r.Some? ==> IsLabel(r.value)
  {
    if LiteralAt(line, 0, AnswerMarker) then
      var j := SkipSpaces(line, |AnswerMarker|);
      if j < |line| && line[j] == ':' then
        var k := SkipSpaces(line, j + 1);
        if k < |line| && IsLabel(LowerChar(line[k])) then Some(LowerChar(line[k])) else None
      else None
    else None
  }

  /** `^ОБЪЯСНЕНИЕ\s*:\s*(.+)` (ignoring case): the stripped explanation. */
  function ExplanationOf(line: string): (r: Option<string>)
    ensures r.Some? ==> r.value == [] || !IsSpace(r.value[0])
    ensures r.Some? && line != [] && !IsSpace(line[|line| - 1]) ==> r.value != []
  {
    FieldValue(line, ExplanationMarker)
  }

  /** What the loop of parse_question_block makes of one line; the tests are tried
      in the source's order. */
  datatype LineKind =
    | Blank
    | ChoiceLine(key: char, text: string)
    | AnswerLine(key: char)
    | ExplanationLine(text: string)
    | PlainLine(text: string)

  function Classify(raw: string): (k: LineKind)
    ensures k.ChoiceLine? ==> IsLabel(k.key)
    ensures k.AnswerLine? ==> IsLabel(k.key)
    ensures k.PlainLine? ==> k.text != [] && !IsSpace(k.text[0])
    ensures k.ExplanationLine? ==> k.text != [] && !IsSpace(k.text[0])
  {
    var line := Strip(raw);
    if line == [] then Blank
    else match ChoiceOf(line)
      case Some(c) => ChoiceLine(c.key, c.text)
      case None =>
        match AnswerOf(line)
        case Some(a) => AnswerLine(a)
        case None =>
          match ExplanationOf(line)
          case Some(e) => ExplanationLine(e)
          case None => PlainLine(line)
  }

  /** The part of the block the loop is reading (`current_section`). */
  datatype Section = InQuestion | InAnswer | InExplanation

  /** The locals of parse_question_block; `answer` is None while `correct_answer`
      is still the empty string. */
  datatype BlockState = BlockState(text: string, options: seq<Choice>, answer: Option<char>, explanation: string, section: Section)

  const StartState: BlockState := BlockState("", [], None, "", InQuestion)

  /** One iteration of the loop. */
  function Step(st: BlockState, raw: string): BlockState {
    match Classify(raw)
    case Blank => st
    case ChoiceLine(key, text) => st.(options := Put(st.options, key, text))
    case AnswerLine(key) => st.(answer := Some(key), section := InAnswer)
    case ExplanationLine(text) => st.(explanation := text, section := InExplanation)
    case PlainLine(line) =>
      if st.section == InQuestion && st.options == [] then
        st.(text := if st.text != [] then st.text + " " + line else line)
      else if st.section == InExplanation then
        st.(explanation := st.explanation + " " + line)
      else st
  }

  /** The option keys stay distinct labels. */
  lemma StepOptions(prev: BlockState, raw: string)
    requires DistinctLabels(prev.options) && Labels(prev.options) <= AllLabels
    ensures DistinctLabels(Step(prev, raw).options) && Labels(Step(prev, raw).options) <= AllLabels
  {
    match Classify(raw)
    case ChoiceLine(key, text) => PutProperties(prev.options, key, text);
    case _ =>
  }

  /** The locals after the given lines. Option keys stay distinct labels, and the
      texts never start with whitespace. */
  function Scan(lines: seq<string>): (st: BlockState)
    ensures DistinctLabels(st.options)
    ensures Labels(st.options) <= AllLabels
    ensures st.answer.Some? ==> IsLabel(st.answer.value)
    ensures st.text == [] || !IsSpace(st.text[0])
    ensures st.explanation == [] || !IsSpace(st.explanation[0])
    ensures st.section == InExplanation ==> st.explanation != []
    decreases |lines|
  {
    if lines == [] then StartState
    else
      var prev := Scan(lines[..|lines| - 1]);
      var st := Step(prev, lines[|lines| - 1]);
      StepOptions(prev, lines[|lines| - 1]);
      st
  }

  function BlockLines(block: string): seq<string> {
    Split(Strip(block), '\n')
  }

  /** The check at the end of parse_question_block. */
  function Finish(st: BlockState): Option<Question> {
    if st.text != [] && |st.options| >= 4 && st.answer.Some? then
      Some(Question(Strip(st.text), st.options, st.answer.value,
                    if st.explanation != [] then Strip(st.explanation) else NoExplanation))
    else None
  }

  /** parse_question_block(block). */
  function QuestionOf(block: string): Option<Question> {
    Finish(Scan(BlockLines(block)))
  }

  /** parse_question_block: the loop over the block's lines. */
  method ParseQuestionBlock(block: string) returns (q: Option<Question>)
    ensures q == QuestionOf(block)
  {
    var lines := Split(Strip(block), '\n');
    var questionText := "";
    var options: seq<Choice> := [];
    var correctAnswer: Option<char> := None;
    var explanation := "";
    var section := InQuestion;
    var i := 0;
    while i < |lines|
      invariant 0 <= i <= |lines|
      invariant BlockState(questionText, options, correctAnswer, explanation, section) == Scan(lines[..i])
    {
      ScanPrefix(lines, i);
      var line := Strip(lines[i]);
      i := i + 1;
      if line == [] {
        continue;
      }
      var optionMatch := ChoiceOf(line);
      if optionMatch.Some? {
        options := Put(options, optionMatch.value.key, optionMatch.value.text);
        continue;
      }
      var answerMatch := AnswerOf(line);
      if answerMatch.Some? {
        correctAnswer := answerMatch;
        section := InAnswer;
        continue;
      }
      var explanationMatch := ExplanationOf(line);
      if explanationMatch.Some? {
        explanation := explanationMatch.value;
        section := InExplanation;
        continue;
      }
      if section == InQuestion && options == [] {
        questionText := if questionText != [] then questionText + " " + line else line;
      } else if section == InExplanation {
        explanation := explanation + " " + line;
      }
    }
    assert lines[..i] == lines;
    if questionText != [] && |options| >= 4 && correctAnswer.Some? {
      q := Some(Question(Strip(questionText), options, correctAnswer.value,
                         if explanation != [] then Strip(explanation) else NoExplanation));
    } else {
      q := None;
    }
  }

  // ---------------------------------------------------------------- block parser: properties

  /** Distinct keys: the dictionary has as many keys as entries. */
  lemma {:induction false} DistinctCount(opts: seq<Choice>)
    requires DistinctLabels(opts)
    ensures |Labels(opts)| == |opts|
  {
    if opts != [] {
      DistinctCount(opts[1..]);
    }
  }

  /** Options with distinct keys drawn from a to d that number at least four are
      exactly the four keys a, b, c and d. */
  lemma FourOptions(opts: seq<Choice>)
    requires DistinctLabels(opts) && Labels(opts) <= AllLabels
    ensures |opts| <= 4
    ensures |opts| >= 4 <==> Labels(opts) == AllLabels
  {
    DistinctCount(opts);
    assert |AllLabels| == 4;
    var missing := AllLabels - Labels(opts);
    assert |missing| == 4 - |Labels(opts)|;
  }

  /** Every question the block parser accepts has non-empty text, exactly the four
      option keys a to d, an answer key among them and a non-empty explanation. */
  lemma AcceptedQuestionShape(block: string)
    requires QuestionOf(block).Some?
    ensures var q := QuestionOf(block).value;
      q.text != [] && |q.options| == 4 && DistinctLabels(q.options) && Labels(q.options) == AllLabels
      && IsLabel(q.answer) && q.explanation != []
  {
    var st := Scan(BlockLines(block));
    assert QuestionOf(block) == Finish(st);
    FourOptions(st.options);
    assert !AllSpace(st.text) by { assert !IsSpace(st.text[0]); }
    if st.explanation != [] {
      assert !AllSpace(st.explanation) by { assert !IsSpace(st.explanation[0]); }
    }
  }

  /** Some line of the list satisfies p. */
  predicate SomeLine(lines: seq<string>, p: string -> bool) {
    exists i :: 0 <= i < |lines| && p(lines[i])
  }

  lemma SomeLineSnoc(lines: seq<string>, p: string -> bool)
    requires lines != []
    ensures SomeLine(lines, p) <==> SomeLine(lines[..|lines| - 1], p) || p(lines[|lines| - 1])
  {
    var init := lines[..|lines| - 1];
    if SomeLine(init, p) {
      var i :| 0 <= i < |init| && p(init[i]);
      assert lines[i] == init[i];
    }
    if SomeLine(lines, p) {
      var i :| 0 <= i < |lines| && p(lines[i]);
      if i < |init| { assert lines[i] == init[i]; }
    }
  }

  predicate IsAnswerLine(raw: string) {
    Classify(raw).AnswerLine?
  }

  predicate IsExplanationLine(raw: string) {
    Classify(raw).ExplanationLine?
  }

  predicate IsChoiceLineFor(raw: string, c: char) {
    Classify(raw).ChoiceLine? && Classify(raw).key == c
  }

  /** Scan of a non-empty list, one step after the scan of all but its last line. */
  lemma ScanSnoc(lines: seq<string>)
    requires lines != []
    ensures Scan(lines) == Step(Scan(lines[..|lines| - 1]), lines[|lines| - 1])
  {
  }

  lemma ScanPrefix(lines: seq<string>, i: nat)
    requires i < |lines|
    ensures Scan(lines[..i + 1]) == Step(Scan(lines[..i]), lines[i])
  {
    assert lines[..i + 1][..i] == lines[..i];
    ScanSnoc(lines[..i + 1]);
  }

  lemma StepAnswer(st: BlockState, raw: string)
    ensures Step(st, raw).answer.Some? <==> st.answer.Some? || IsAnswerLine(raw)
  {
  }

  lemma StepKeys(st: BlockState, raw: string, c: char)
    ensures c in Labels(Step(st, raw).options) <==> c in Labels(st.options) || IsChoiceLineFor(raw, c)
  {
  }

  lemma StepExplanation(st: BlockState, raw: string)
    requires st.explanation == [] ==> st.section != InExplanation
    ensures Step(st, raw).explanation != [] <==> st.explanation != [] || IsExplanationLine(raw)
    ensures Step(st, raw).explanation == [] ==> Step(st, raw).section != InExplanation
  {
  }

  /** An answer key is set exactly when the block has an ОТВЕТ line. */
  lemma {:induction false} AnswerSetIffAnswerLine(lines: seq<string>)
    ensures Scan(lines).answer.Some? <==> SomeLine(lines, IsAnswerLine)
    decreases |lines|
  {
    if lines != [] {
      var init := lines[..|lines| - 1];
      ScanSnoc(lines);
      StepAnswer(Scan(init), lines[|lines| - 1]);
      AnswerSetIffAnswerLine(init);
      SomeLineSnoc(lines, IsAnswerLine);
    }
  }

  /** A key is among the options exactly when some option line of the block
      carries it. */
  lemma {:induction false} KeysFromOptionLines(lines: seq<string>, c: char)
    ensures c in Labels(Scan(lines).options) <==> SomeLine(lines, raw => IsChoiceLineFor(raw, c))
    decreases |lines|
  {
    if lines != [] {
      var init := lines[..|lines| - 1];
      ScanSnoc(lines);
      StepKeys(Scan(init), lines[|lines| - 1], c);
      KeysFromOptionLines(init, c);
      SomeLineSnoc(lines, raw => IsChoiceLineFor(raw, c));
    }
  }

  /** The explanation is empty, and the question gets the default text, exactly
      when the block has no ОБЪЯСНЕНИЕ line. */
  lemma {:induction false} ExplanationIffExplanationLine(lines: seq<string>)
    ensures Scan(lines).explanation != [] <==> SomeLine(lines, IsExplanationLine)
    ensures Scan(lines).explanation == [] ==> Scan(lines).section != InExplanation
    decreases |lines|
  {
    if lines != [] {
      var init := lines[..|lines| - 1];
      ScanSnoc(lines);
      ExplanationIffExplanationLine(init);
      StepExplanation(Scan(init), lines[|lines| - 1]);
      SomeLineSnoc(lines, IsExplanationLine);
    }
  }

  /** A line that ends the question text: an option, answer or explanation line. */
  predicate IsMarkedLine(raw: string) {
    var k := Classify(raw);
    k.ChoiceLine? || k.AnswerLine? || k.ExplanationLine?
  }

  lemma SomeLineCons(lines: seq<string>, p: string -> bool)
    requires lines != []
    ensures SomeLine(lines, p) <==> p(lines[0]) || SomeLine(lines[1..], p)
  {
    if SomeLine(lines, p) {
      var i :| 0 <= i < |lines| && p(lines[i]);
      if i > 0 { assert lines[1..][i - 1] == lines[i]; }
    }
    if SomeLine(lines[1..], p) {
      var i :| 0 <= i < |lines[1..]| && p(lines[1..][i]);
      assert lines[i + 1] == lines[1..][i];
    }
  }

  /** The stripped unmarked lines before the first marked line. */
  function LeadingText(lines: seq<string>): (r: seq<string>)
    ensures forall k :: 0 <= k < |r| ==> r[k] != []
  {
    if lines == [] then []
    else match Classify(lines[0])
      case Blank => LeadingText(lines[1..])
      case PlainLine(line) => [line] + LeadingText(lines[1..])
      case _ => []
  }

  function PlainText(raw: string): seq<string> {
    if Classify(raw).PlainLine? then [Classify(raw).text] else []
  }

  lemma {:induction false} LeadingTextSnoc(lines: seq<string>, x: string)
    ensures LeadingText(lines + [x]) ==
      if SomeLine(lines, IsMarkedLine) then LeadingText(lines) else LeadingText(lines) + PlainText(x)
    decreases |lines|
  {
    if lines == [] {
      assert [x][1..] == [];
    } else {
      assert (lines + [x])[1..] == lines[1..] + [x];
      assert (lines + [x])[0] == lines[0];
      LeadingTextSnoc(lines[1..], x);
      SomeLineCons(lines, IsMarkedLine);
    }
  }

  lemma {:induction false} JoinSnoc(parts: seq<string>, x: string, sep: string)
    ensures Join(parts + [x], sep) == if parts == [] then x else Join(parts, sep) + sep + x
    decreases |parts|
  {
    if |parts| >= 2 {
      assert (parts + [x])[1..] == parts[1..] + [x];
      JoinSnoc(parts[1..], x, sep);
    } else if |parts| == 1 {
      assert (parts + [x])[1..] == [x];
    }
  }

  lemma JoinNonEmpty(parts: seq<string>, sep: string)
    requires parts != [] && parts[0] != []
    ensures Join(parts, sep) != []
  {
  }

  lemma StepOpen(st: BlockState, raw: string)
    ensures (Step(st, raw).section == InQuestion && Step(st, raw).options == []) <==>
      st.section == InQuestion && st.options == [] && !IsMarkedLine(raw)
  {
    match Classify(raw)
    case ChoiceLine(key, text) =>
      assert key in Labels(Step(st, raw).options);
    case _ =>
  }

  lemma StepText(st: BlockState, raw: string)
    ensures Step(st, raw).text ==
      if st.section == InQuestion && st.options == [] then
        (if PlainText(raw) == [] then st.text
         else if st.text != [] then st.text + " " + PlainText(raw)[0] else PlainText(raw)[0])
      else st.text
  {
  }

  /** The loop still reads question text exactly while no option, answer or
      explanation line has come. */
  lemma {:induction false} QuestionStillOpen(lines: seq<string>)
    ensures (Scan(lines).section == InQuestion && Scan(lines).options == []) <==> !SomeLine(lines, IsMarkedLine)
    decreases |lines|
  {
    if lines != [] {
      ScanSnoc(lines);
      StepOpen(Scan(lines[..|lines| - 1]), lines[|lines| - 1]);
      QuestionStillOpen(lines[..|lines| - 1]);
      SomeLineSnoc(lines, IsMarkedLine);
    }
  }

  /** The question text is the unmarked lines before the first option, answer or
      explanation line, joined with single spaces; later unmarked lines never reach
      it. */
  lemma {:induction false} QuestionTextIsLeadingText(lines: seq<string>)
    ensures Scan(lines).text == Join(LeadingText(lines), " ")
    decreases |lines|
  {
    if lines != [] {
      var init := lines[..|lines| - 1];
      var x := lines[|lines| - 1];
      assert lines == init + [x];
      ScanSnoc(lines);
      StepText(Scan(init), x);
      QuestionStillOpen(init);
      QuestionTextIsLeadingText(init);
      LeadingTextSnoc(init, x);
      var lt := LeadingText(init);
      var prev := Scan(init);
      if !SomeLine(init, IsMarkedLine) {
        assert LeadingText(lines) == lt + PlainText(x);
        if PlainText(x) == [] {
          assert lt + PlainText(x) == lt;
        } else {
          var p := PlainText(x)[0];
          assert PlainText(x) == [p];
          JoinSnoc(lt, p, " ");
          if lt != [] {
            JoinNonEmpty(lt, " ");
            assert Scan(lines).text == prev.text + " " + p;
          } else {
            assert Scan(lines).text == p;
          }
        }
      }
    }
  }

  /** parse_question_block accepts a block exactly when its first non-blank line is
      question text, it has an ОТВЕТ line, and option lines for all of a, b, c and d. */
  lemma QuestionAccepted(block: string)
    ensures var lines := BlockLines(block);
      QuestionOf(block).Some? <==>
        LeadingText(lines) != []
        && SomeLine(lines, IsAnswerLine)
        && (forall c :: c in AllLabels ==> SomeLine(lines, raw => IsChoiceLineFor(raw, c)))
  {
    var lines := BlockLines(block);
    var st := Scan(lines);
    assert QuestionOf(block).Some? <==> st.text != [] && |st.options| >= 4 && st.answer.Some?;
    QuestionTextIsLeadingText(lines);
    if LeadingText(lines) != [] {
      JoinNonEmpty(LeadingText(lines), " ");
    }
    assert st.text != [] <==> LeadingText(lines) != [];
    AnswerSetIffAnswerLine(lines);
    FourOptions(st.options);
    forall c | c in AllLabels
      ensures c in Labels(st.options) <==> SomeLine(lines, raw => IsChoiceLineFor(raw, c))
    {
      KeysFromOptionLines(lines, c);
    }
    assert Labels(st.options) == AllLabels <==> AllLabels <= Labels(st.options);
  }

  /** An accepted question's text is that leading text; its explanation is the
      default exactly when the block has no ОБЪЯСНЕНИЕ line, and otherwise the
      explanation the lines collected. */
  lemma AcceptedQuestionContent(block: string)
    requires QuestionOf(block).Some?
    ensures var lines := BlockLines(block);
      var q := QuestionOf(block).value;
      q.text == Strip(Join(LeadingText(lines), " "))
      && (!SomeLine(lines, IsExplanationLine) ==> q.explanation == NoExplanation)
      && (SomeLine(lines, IsExplanationLine) ==> q.explanation == Strip(Scan(lines).explanation))
  {
    var lines := BlockLines(block);
    QuestionTextIsLeadingText(lines);
    ExplanationIffExplanationLine(lines);
  }

  // ---------------------------------------------------------------- primary parse

  /** What every question of a test satisfies: the four option keys a to d, each
      once, and an answer among them. */
  predicate ValidQuestion(q: Question) {
    |q.options| == 4 && DistinctLabels(q.options) && Labels(q.options) == AllLabels && IsLabel(q.answer)
  }

  /** What parse_question_block additionally guarantees. */
  predicate WellFormedQuestion(q: Question) {
    ValidQuestion(q) && q.text != [] && q.explanation != []
  }

  const QuestionMarker: string := "ВОПРОС"

  /** The question a block contributes: none for a blank block or a rejected one. */
  function BlockQuestion(block: string): (r: Option<Question>)
    ensures r.Some? ==> WellFormedQuestion(r.value)
  {
    if AllSpace(block) then None
    else if QuestionOf(block).Some? then
      AcceptedQuestionShape(block);
      QuestionOf(block)
    else None
  }

  /** The questions parse_test_response collects from the given blocks, in order. */
  function Collected(blocks: seq<string>): (r: seq<Question>)
    ensures |r| <= |blocks|
  {
    FilterMapped(BlockQuestion, blocks)
  }

  /** Every collected question is one the block parser accepted. */
  lemma CollectedWellFormed(blocks: seq<string>)
    ensures forall q :: q in Collected(blocks) ==> WellFormedQuestion(q)
  {
    FilterMappedAll(BlockQuestion, blocks, WellFormedQuestion);
  }

  /** parse_test_response(response): the text before the first marker is dropped. */
  function PrimaryQuestions(response: string): seq<Question> {
    Collected(SplitOnMarker(response, QuestionMarker)[1..])
  }

  /** parse_test_response: the loop over the blocks after the first marker. */
  method ParseTestResponse(response: string) returns (questions: seq<Question>)
    ensures questions == PrimaryQuestions(response)
  {
    var blocks := SplitOnMarker(response, QuestionMarker)[1..];
    questions := [];
    var i := 0;
    while i < |blocks|
      invariant 0 <= i <= |blocks|
      invariant questions == Collected(blocks[..i])
    {
      FilterMappedSnoc(BlockQuestion, blocks, i);
      var block := blocks[i];
      i := i + 1;
      if AllSpace(block) {
        continue;
      }
      var q := ParseQuestionBlock(block);
      if q.Some? {
        questions := questions + [q.value];
      }
    }
    assert blocks[..i] == blocks;
  }

  /** The questions of a run of blocks are those of its parts, in order. */
  lemma CollectedAppend(blocks: seq<string>, more: seq<string>)
    ensures Collected(blocks + more) == Collected(blocks) + Collected(more)
  {
    FilterMappedAppend(BlockQuestion, blocks, more);
  }

  /** A block contributes a question exactly when it is not blank and is accepted. */
  lemma CollectedOne(block: string)
    ensures Collected([block]) == if !AllSpace(block) && QuestionOf(block).Some? then [QuestionOf(block).value] else []
  {
    assert [block][..0] == [];
  }

  // ---------------------------------------------------------------- fallback parse

  /** One line of the fallback pattern's options, `\s*K\s*[).]\s*(.+)` with K the
      given key in either case, confined to the line: the raw text after the
      delimiter and the spaces that follow it. */
  function OptionRest(line: string, key: char): (r: Option<string>)
    ensures r.Some? ==> r.value != [] && !IsSpace(r.value[0])
  {
    var a := SkipSpaces(line, 0);
    if a < |line| && LowerChar(line[a]) == key then
      var b := SkipSpaces(line, a + 1);
      if b < |line| && (line[b] == ')' || line[b] == '.') then
        var c := SkipSpaces(line, b + 1);
        if c < |line| then Some(line[c..]) else None
      else None
    else None
  }

  /** Lines j to j + 3 are the a), b), c) and d) lines. */
  predicate OptionsAt(lines: seq<string>, j: nat) {
    j + 4 <= |lines|
    && OptionRest(lines[j], 'a').Some? && OptionRest(lines[j + 1], 'b').Some?
    && OptionRest(lines[j + 2], 'c').Some? && OptionRest(lines[j + 3], 'd').Some?
  }

  /** A match starting at line `start` can put its option block at line j: the lazy
      question group `(.+?)` needs at least one character before the newline. */
  predicate BlockAt(lines: seq<string>, start: nat, j: nat) {
    start < j && OptionsAt(lines, j) && (j > start + 1 || lines[start] != [])
  }

  /** The first option block a match starting at line `start` can use, searching
      from line j on (the lazy question group takes the shortest text). */
  function FirstBlock(lines: seq<string>, start: nat, j: nat): (r: Option<nat>)
    requires start < j <= |lines|
    ensures r.Some? ==> j <= r.value && BlockAt(lines, start, r.value)
  {
    FirstWhere((k: nat) => BlockAt(lines, start, k), j, |lines|)
  }

  /** No earlier line can start the option block. */
  lemma FirstBlockIsFirst(lines: seq<string>, start: nat, j: nat, k: nat)
    requires start < j <= k < |lines|
    requires FirstBlock(lines, start, j).None? || k < FirstBlock(lines, start, j).value
    ensures !BlockAt(lines, start, k)
  {
    FirstWhereIsFirst((k: nat) => BlockAt(lines, start, k), j, |lines|, k);
  }

  /** The five groups of one fallback match, before stripping. */
  datatype RawMatch = RawMatch(question: string, a: string, b: string, c: string, d: string)

  /** re.findall of the fallback pattern over the lines from `start` on: matches do
      not overlap, and the search resumes after the d) line. */
  function Matches(lines: seq<string>, start: nat): (r: seq<RawMatch>)
    ensures forall k :: 0 <= k < |r| ==> r[k].question != [] && r[k].d != []
    decreases |lines| - start
  {
    if start >= |lines| then []
    else match FirstBlock(lines, start, start + 1)
      case None => []
      case Some(j) => [MatchAt(lines, start, j)] + Matches(lines, j + 4)
  }

  /** The match whose question lines run from `start` up to the option block at j. */
  function MatchAt(lines: seq<string>, start: nat, j: nat): (m: RawMatch)
    requires BlockAt(lines, start, j)
    ensures m.question != [] && m.d != []
  {
    JoinLinesNonEmpty(lines[start..j]);
    RawMatch(Join(lines[start..j], "\n"),
             OptionRest(lines[j], 'a').value, OptionRest(lines[j + 1], 'b').value,
             OptionRest(lines[j + 2], 'c').value, OptionRest(lines[j + 3], 'd').value)
  }

  lemma JoinLinesNonEmpty(parts: seq<string>)
    requires |parts| >= 2 || (|parts| == 1 && parts[0] != [])
    ensures Join(parts, "\n") != []
  {
  }

  function FallbackMatches(response: string): seq<RawMatch> {
    Matches(Split(response, '\n'), 0)
  }

  /** `re.sub(r'^\d+[.)]\s*', '', t)`: a leading question number. */
  function DropNumber(t: string): (r: string)
    ensures |r| <= |t|
  {
    var e := SkipDigits(t, 0);
    if 0 < e < |t| && (t[e] == '.' || t[e] == ')') then t[SkipSpaces(t, e + 1)..] else t
  }

  /** `re.sub(r'^ВОПРОС\s*\d*\s*:?\s*', '', t, flags=re.IGNORECASE)`. */
  function DropQuestionWord(t: string): (r: string)
    ensures |r| <= |t|
  {
    if LiteralAt(t, 0, QuestionMarker) then
      var a := SkipSpaces(t, |QuestionMarker|);
      var b := SkipSpaces(t, SkipDigits(t, a));
      var c := if b < |t| && t[b] == ':' then b + 1 else b;
      t[SkipSpaces(t, c)..]
    else t
  }

  const AnswerWords: seq<string> := ["ОТВЕТ", "Answer", "Correct"]
  const ExplanationWords: seq<string> := ["ОБЪЯСНЕНИЕ", "Explanation"]

  /** The first alternative of `(?:W1|W2|...)` that occurs at k, ignoring case. */
  function WordAt(s: string, k: nat, words: seq<string>): (r: Option<nat>)
    ensures r.Some? ==> r.value < |words| && LiteralAt(s, k, words[r.value])
    ensures r.None? ==> forall w :: 0 <= w < |words| ==> !LiteralAt(s, k, words[w])
  {
    if words == [] then None
    else if LiteralAt(s, k, words[0]) then Some(0)
    else match WordAt(s, k, words[1..])
      case Some(w) => Some(w + 1)
      case None =>
        assert forall w :: 1 <= w < |words| ==> words[w] == words[1..][w - 1];
        None
  }

  /** `(?:ОТВЕТ|Answer|Correct)\s*:?\s*([a-d])` matched at k: the answer key. */
  function AnswerAt(s: string, k: nat): (r: Option<char>)
    requires k <= |s|
    ensures r.Some? ==> IsLabel(r.value)
  {
    match WordAt(s, k, AnswerWords)
    case None => None
    case Some(w) =>
      var a := SkipSpaces(s, k + |AnswerWords[w]|);
      var b := if a < |s| && s[a] == ':' then SkipSpaces(s, a + 1) else a;
      if b < |s| && IsLabel(LowerChar(s[b])) then Some(LowerChar(s[b])) else None
  }

  /** The lazy `.*?` before the answer marker: the first position from k on where
      the marker and a key follow. */
  function FirstAnswerAt(s: string, k: nat): (r: Option<nat>)
    requires k <= |s|
    ensures r.Some? ==> k <= r.value < |s| && AnswerAt(s, r.value).Some?
  {
    FirstWhere((p: nat) => p <= |s| && AnswerAt(s, p).Some?, k, |s|)
  }

  /** No answer marker matches between k and the position FirstAnswerAt finds. */
  lemma FirstAnswerIsFirst(s: string, k: nat, p: nat)
    requires k <= p < |s|
    requires FirstAnswerAt(s, k).None? || p < FirstAnswerAt(s, k).value
    ensures AnswerAt(s, p).None?
  {
    FirstWhereIsFirst((p: nat) => p <= |s| && AnswerAt(s, p).Some?, k, |s|, p);
  }

  /** The first place the raw d) text occurs, ignoring case (where the leftmost
      search for the answer and the explanation starts). */
  function FirstOccurrence(s: string, t: string, k: nat): (r: Option<nat>)
    requires k <= |s|
    ensures r.Some? ==> k <= r.value && LiteralAt(s, r.value, t)
  {
    FirstWhere((p: nat) => LiteralAt(s, p, t), k, |s| + 1)
  }

  /** The d) text does not occur between k and the first occurrence. */
  lemma FirstOccurrenceIsFirst(s: string, t: string, k: nat, p: nat)
    requires k <= p <= |s|
    requires FirstOccurrence(s, t, k).None? || p < FirstOccurrence(s, t, k).value
    ensures !LiteralAt(s, p, t)
  {
    FirstWhereIsFirst((p: nat) => LiteralAt(s, p, t), k, |s| + 1, p);
  }

  /** The answer search of fallback_parse: the key after the first occurrence of
      the d) text, or 'a' when there is none. */
  function FallbackAnswer(s: string, d: string): (r: char)
    ensures IsLabel(r)
  {
    match FirstOccurrence(s, d, 0)
    case None => 'a'
    case Some(p) =>
      match FirstAnswerAt(s, p + |d|)
      case Some(k) => AnswerAt(s, k).value
      case None => 'a'
  }

  /** The lazy explanation group ends at the first later `ВОПРОС` or at `$` (the end
      of the text, or just before a final newline). */
  function GroupEnd(s: string, e: nat): (r: nat)
    requires e <= |s|
    ensures e <= r <= |s|
    decreases |s| - e
  {
    if e == |s| || (e == |s| - 1 && s[e] == '\n') || LiteralAt(s, e, QuestionMarker) then e
    else GroupEnd(s, e + 1)
  }

  /** `(?:ОБЪЯСНЕНИЕ|Explanation)\s*:?\s*(.+?)(?:ВОПРОС|$)` matched at k: the group.
      When only spaces or a colon follow the marker, backtracking hands the last
      character of the text to the group. */
  function ExplanationAt(s: string, k: nat): (r: Option<string>)
    requires k <= |s|
    ensures r.Some? ==> r.value != []
  {
    match WordAt(s, k, ExplanationWords)
    case None => None
    case Some(w) =>
      var e := k + |ExplanationWords[w]|;
      if e == |s| then None
      else
        var a := SkipSpaces(s, e);
        var g := SkipSpaces(s, if a < |s| && s[a] == ':' then a + 1 else a);
        if g < |s| then Some(s[g..GroupEnd(s, g + 1)]) else Some([s[|s| - 1]])
  }

  function FirstExplanationAt(s: string, k: nat): (r: Option<nat>)
    requires k <= |s|
    ensures r.Some? ==> k <= r.value < |s| && ExplanationAt(s, r.value).Some?
  {
    FirstWhere((p: nat) => p <= |s| && ExplanationAt(s, p).Some?, k, |s|)
  }

  /** No explanation marker matches between k and the position FirstExplanationAt
      finds. */
  lemma FirstExplanationIsFirst(s: string, k: nat, p: nat)
    requires k <= p < |s|
    requires FirstExplanationAt(s, k).None? || p < FirstExplanationAt(s, k).value
    ensures ExplanationAt(s, p).None?
  {
    FirstWhereIsFirst((p: nat) => p <= |s| && ExplanationAt(s, p).Some?, k, |s|, p);
  }

  /** The explanation search of fallback_parse, stripped and cut to 200 characters. */
  function FallbackExplanation(s: string, d: string): (r: string)
    ensures |r| <= 200
  {
    match FirstOccurrence(s, d, 0)
    case None => NoExplanation
    case Some(p) =>
      match FirstExplanationAt(s, p + |d|)
      case Some(k) => Take(Strip(ExplanationAt(s, k).value), 200)
      case None => NoExplanation
  }

  /** The question fallback_parse builds from one match. */
  function FallbackQuestion(response: string, m: RawMatch): Question {
    Question(DropQuestionWord(DropNumber(Strip(m.question))),
             [Choice('a', Strip(m.a)), Choice('b', Strip(m.b)), Choice('c', Strip(m.c)), Choice('d', Strip(m.d))],
             FallbackAnswer(response, m.d),
             FallbackExplanation(response, m.d))
  }

  /** fallback_parse(response). */
  function FallbackQuestions(response: string): seq<Question> {
    Mapped((m: RawMatch) => FallbackQuestion(response, m), FallbackMatches(response))
  }

  /** fallback_parse: one question per match, in order. */
  method FallbackParse(response: string) returns (questions: seq<Question>)
    ensures questions == FallbackQuestions(response)
  {
    var matches := FallbackMatches(response);
    questions := [];
    for i := 0 to |matches|
      invariant questions == Mapped((m: RawMatch) => FallbackQuestion(response, m), matches[..i])
    {
      MappedSnoc((m: RawMatch) => FallbackQuestion(response, m), matches, i);
      var m := matches[i];
      var questionText := Strip(m.question);
      questionText := DropNumber(questionText);
      questionText := DropQuestionWord(questionText);
      var options := [Choice('a', Strip(m.a)), Choice('b', Strip(m.b)), Choice('c', Strip(m.c)), Choice('d', Strip(m.d))];
      var correctAnswer := FallbackAnswer(response, m.d);
      var explanation := FallbackExplanation(response, m.d);
      var q := Question(questionText, options, correctAnswer, explanation);
      assert q == FallbackQuestion(response, m);
      questions := questions + [q];
    }
    assert matches[..|matches|] == matches;
  }

  lemma FourKeys(x: string, y: string, z: string, w: string)
    ensures var o := [Choice('a', x), Choice('b', y), Choice('c', z), Choice('d', w)];
      DistinctLabels(o) && Labels(o) == AllLabels
  {
    var o := [Choice('a', x), Choice('b', y), Choice('c', z), Choice('d', w)];
    assert o[1..][1..][1..][1..] == [];
    assert Labels(o[1..][1..][1..]) == {'d'};
    assert Labels(o[1..][1..]) == {'c', 'd'};
    assert Labels(o[1..]) == {'b', 'c', 'd'};
    assert DistinctLabels(o[1..][1..][1..]);
    assert DistinctLabels(o[1..][1..]);
    assert DistinctLabels(o[1..]);
  }

  /** A fallback question has the options a, b, c and d in that order, an answer
      among them that is 'a' when no answer marker follows the d) text, and an
      explanation of at most 200 characters. */
  lemma FallbackQuestionShape(response: string, m: RawMatch)
    ensures var q := FallbackQuestion(response, m);
      ValidQuestion(q)
      && [q.options[0].key, q.options[1].key, q.options[2].key, q.options[3].key] == ['a', 'b', 'c', 'd']
      && |q.explanation| <= 200
      && ((forall p :: 0 <= p < |response| ==> AnswerAt(response, p).None?) ==> q.answer == 'a')
  {
    FourKeys(Strip(m.a), Strip(m.b), Strip(m.c), Strip(m.d));
  }

  /** Every question fallback_parse returns has that shape. */
  lemma FallbackShape(response: string)
    ensures forall q :: q in FallbackQuestions(response) ==> ValidQuestion(q) && |q.explanation| <= 200
  {
    var ms := FallbackMatches(response);
    var qs := FallbackQuestions(response);
    forall q | q in qs ensures ValidQuestion(q) && |q.explanation| <= 200 {
      var k :| 0 <= k < |qs| && qs[k] == q;
      MappedIndex((m: RawMatch) => FallbackQuestion(response, m), ms, k);
      assert q == FallbackQuestion(response, ms[k]);
      FallbackQuestionShape(response, ms[k]);
    }
  }

  // ---------------------------------------------------------------- quiz session

  datatype Test = Test(questions: seq<Question>, tenseType: string)

  /** One entry of `user_answers`. */
  datatype AnswerRecord = AnswerRecord(questionIndex: nat, userAnswer: string, correctAnswer: char, isCorrect: bool)

  /** What get_current_question returns. */
  datatype QuestionView = QuestionView(number: nat, total: nat, question: Question)

  /** What submit_answer returns on success. */
  datatype Feedback = Feedback(isCorrect: bool, correctAnswer: char, explanation: string)

  /** What get_results returns. */
  datatype Results = Results(totalQuestions: nat, correctAnswers: nat, score: nat, answers: seq<AnswerRecord>, tenseType: string)

  /** The questions create_test keeps: the primary parse when it finds at least
      three, otherwise the fallback when it finds at least three. */
  function ChosenQuestions(reply: string): Option<seq<Question>> {
    if |PrimaryQuestions(reply)| >= 3 then Some(PrimaryQuestions(reply))
    else if |FallbackQuestions(reply)| >= 3 then Some(FallbackQuestions(reply))
    else None
  }

  /** A test always has at least three questions, each with options a to d and an
      answer among them. */
  lemma ChosenQuestionsValid(reply: string)
    requires ChosenQuestions(reply).Some?
    ensures |ChosenQuestions(reply).value| >= 3
    ensures forall q :: q in ChosenQuestions(reply).value ==> ValidQuestion(q)
  {
    FallbackShape(reply);
    CollectedWellFormed(SplitOnMarker(reply, QuestionMarker)[1..]);
  }

  function CreatedMessage(n: nat): string {
    "Тест создан успешно! (" + NatToString(n) + " вопросов)"
  }

  function FailedMessage(reply: string): string {
    "Не удалось создать тест. Попробуйте ещё раз. Ответ: " + Take(reply, 300) + "..."
  }

  const NotStarted: string := "Тест не начат"
  const NoQuestion: string := "Вопрос не найден"

  /** sum(1 for ans in answers if ans['is_correct']). */
  function CountCorrect(answers: seq<AnswerRecord>): (n: nat)
    ensures n <= |answers|
  {
    if answers == [] then 0
    else CountCorrect(answers[..|answers| - 1]) + (if answers[|answers| - 1].isCorrect then 1 else 0)
  }

  /** int(correct / total * 100), taken as the integer floor; 0 without questions. */
  function Score(correct: nat, total: nat): (s: nat)
    ensures total > 0 ==> s * total <= 100 * correct < (s + 1) * total
    ensures total == 0 ==> s == 0
    ensures correct <= total ==> s <= 100
  {
    if total == 0 then 0
    else
      var s := (100 * correct) / total;
      ScoreBounds(correct, total, s);
      s
  }

  lemma ScoreBounds(correct: nat, total: nat, s: nat)
    requires total > 0 && s == (100 * correct) / total
    ensures s * total <= 100 * correct < (s + 1) * total
    ensures correct <= total ==> s <= 100
  {
    var r := (100 * correct) % total;
    assert 100 * correct == s * total + r;
  }

  /** The cursor moves in lockstep with the answer log, never passes the last
      question, and each logged answer is the answer to the question at its
      index. */
  ghost predicate SessionInvariant(test: Option<Test>, index: nat, answers: seq<AnswerRecord>) {
    |answers| == index
    && (forall k :: 0 <= k < |answers| ==> answers[k].questionIndex == k)
    && (test.None? ==> index == 0)
    && (test.Some? ==>
          index <= |test.value.questions|
          && (forall q :: q in test.value.questions ==> ValidQuestion(q))
          && forall k :: 0 <= k < |answers| ==>
               answers[k].correctAnswer == test.value.questions[k].answer
               && answers[k].isCorrect == (answers[k].userAnswer == [answers[k].correctAnswer]))
  }

  /** Logging the answer to the current question keeps the invariant. */
  lemma RecordKeepsInvariant(test: Test, index: nat, answers: seq<AnswerRecord>, given: string)
    requires SessionInvariant(Some(test), index, answers) && index < |test.questions|
    ensures var q := test.questions[index];
      SessionInvariant(Some(test), index + 1, answers + [AnswerRecord(index, given, q.answer, given == [q.answer])])
  {
    var q := test.questions[index];
    var log := answers + [AnswerRecord(index, given, q.answer, given == [q.answer])];
    forall k | 0 <= k < |log|
      ensures log[k].questionIndex == k
      ensures log[k].correctAnswer == test.questions[k].answer
      ensures log[k].isCorrect == (log[k].userAnswer == [log[k].correctAnswer])
    {
      if k < |answers| {
        assert log[k] == answers[k];
      }
    }
  }

  /** The keys a to d are already lower case. */
  lemma LabelIsLower(c: char)
    requires IsLabel(c)
    ensures LowerChar(c) == c
  {
  }

  /** The quiz session of one user (class GrammarTest). */
  class GrammarTest {
    var currentTest: Option<Test>
    var questionIndex: nat
    var userAnswers: seq<AnswerRecord>

    ghost predicate Valid()
      reads this
    {
      SessionInvariant(currentTest, questionIndex, userAnswers)
    }

    constructor()
      ensures Valid()
      ensures currentTest.None? && questionIndex == 0 && userAnswers == []
    {
      currentTest := None;
      questionIndex := 0;
      userAnswers := [];
    }

    /** create_test, with the model's reply as a parameter. */
    method CreateTest(tenseType: string, reply: string) returns (ok: bool, message: string)
      requires Valid()
      modifies this
      ensures Valid()
      ensures ok <==> !Gemini.IsErrorReply(reply) && ChosenQuestions(reply).Some?
      ensures ok ==> (currentTest == Some(Test(ChosenQuestions(reply).value, tenseType))
                      && questionIndex == 0 && userAnswers == []
                      && message == CreatedMessage(|ChosenQuestions(reply).value|))
      ensures !ok ==> (currentTest == old(currentTest) && questionIndex == old(questionIndex)
                       && userAnswers == old(userAnswers))
      ensures !ok ==> message == if Gemini.IsErrorReply(reply) then Gemini.ErrorText(reply) else FailedMessage(reply)
    {
      if Gemini.IsErrorReply(reply) {
        return false, Gemini.ErrorText(reply);
      }
      var questions := ParseTestResponse(reply);
      if |questions| >= 3 {
        ChosenQuestionsValid(reply);
        currentTest := Some(Test(questions, tenseType));
        questionIndex := 0;
        userAnswers := [];
        return true, CreatedMessage(|questions|);
      }
      questions := FallbackParse(reply);
      if |questions| >= 3 {
        ChosenQuestionsValid(reply);
        currentTest := Some(Test(questions, tenseType));
        questionIndex := 0;
        userAnswers := [];
        return true, CreatedMessage(|questions|);
      }
      return false, FailedMessage(reply);
    }

    /** get_current_question. */
    function CurrentQuestion(): (r: Option<QuestionView>)
      reads this
      ensures r.None? <==> currentTest.None? || questionIndex >= |currentTest.value.questions|
      ensures r.Some? ==> (r.value.number == questionIndex + 1
                           && r.value.total == |currentTest.value.questions|
                           && r.value.question == currentTest.value.questions[questionIndex])
    {
      if currentTest.None? || currentTest.value.questions == [] then None
      else if questionIndex >= |currentTest.value.questions| then None
      else
        var questions := currentTest.value.questions;
        Some(QuestionView(questionIndex + 1, |questions|, questions[questionIndex]))
    }

    /** submit_answer: with a current question, log exactly one answer and advance
        the cursor by one; otherwise change nothing. */
    method SubmitAnswer(answer: string) returns (r: Result<Feedback, string>)
      requires Valid()
      modifies this
      ensures Valid()
      ensures old(currentTest).None? ==> r == Err(NotStarted)
      ensures old(currentTest).Some? && old(CurrentQuestion()).None? ==> r == Err(NoQuestion)
      ensures r.Err? ==> (currentTest == old(currentTest) && questionIndex == old(questionIndex)
                          && userAnswers == old(userAnswers))
      ensures old(CurrentQuestion()).Some? ==>
        var q := old(CurrentQuestion()).value.question;
        var given := Strip(Lower(answer));
        r == Ok(Feedback(given == [q.answer], q.answer, q.explanation))
        && currentTest == old(currentTest)
        && questionIndex == old(questionIndex) + 1
        && userAnswers == old(userAnswers) + [AnswerRecord(old(questionIndex), given, q.answer, given == [q.answer])]
    {
      if currentTest.None? {
        return Err(NotStarted);
      }
      var current := CurrentQuestion();
      if current.None? {
        return Err(NoQuestion);
      }
      var q := current.value.question;
      assert q in currentTest.value.questions;
      LabelIsLower(q.answer);
      var answerLower := Strip(Lower(answer));
      RecordKeepsInvariant(currentTest.value, questionIndex, userAnswers, answerLower);
      var isCorrect := answerLower == [LowerChar(q.answer)];
      userAnswers := userAnswers + [AnswerRecord(questionIndex, answerLower, q.answer, isCorrect)];
      questionIndex := questionIndex + 1;
      return Ok(Feedback(isCorrect, q.answer, q.explanation));
    }

    /** get_results: none without a test; otherwise the count of correct answers,
        which never exceeds the number of questions, and the score in 0..100. */
    function GetResults(): (r: Option<Results>)
      reads this
      ensures r.None? <==> currentTest.None?
      ensures r.Some? ==> (r.value.totalQuestions == |currentTest.value.questions|
                           && r.value.answers == userAnswers
                           && r.value.correctAnswers == CountCorrect(userAnswers)
                           && r.value.correctAnswers <= |userAnswers|
                           && r.value.tenseType == currentTest.value.tenseType
                           && r.value.score == Score(r.value.correctAnswers, r.value.totalQuestions))
      ensures Valid() && r.Some? ==> r.value.correctAnswers <= r.value.totalQuestions && r.value.score <= 100
    {
      match currentTest
      case None => None
      case Some(test) =>
        var total := |test.questions|;
        var correct := CountCorrect(userAnswers);
        Some(Results(total, correct, Score(correct, total), userAnswers, test.tenseType))
    }
  }

  /** The number of correct answers grows by one exactly for a correct answer. */
  lemma CountCorrectAppend(answers: seq<AnswerRecord>, a: AnswerRecord)
    ensures CountCorrect(answers + [a]) == CountCorrect(answers) + if a.isCorrect then 1 else 0
  {
    assert (answers + [a])[..|answers|] == answers;
  }

  // ---------------------------------------------------------------- question text

  function OptionLine(c: Choice): string {
    [c.key] + ") " + c.text + "\n"
  }

  /** The option lines, in the dictionary's order. */
  function OptionLines(opts: seq<Choice>): string {
    if opts == [] then "" else OptionLines(opts[..|opts| - 1]) + OptionLine(opts[|opts| - 1])
  }

  const FinishedText: string := "Тест завершен или не начат"
  const ChoosePrompt: string := "\nВыберите вариант ответа (a, b, c или d):"

  function QuestionHeader(v: QuestionView): string {
    "Вопрос " + NatToString(v.number) + "/" + NatToString(v.total) + "\n\n" + v.question.text + "\n\n"
  }

  /** The text format_question_text builds. */
  function QuestionText(view: Option<QuestionView>): string {
    match view
    case None => FinishedText
    case Some(v) => QuestionHeader(v) + OptionLines(v.question.options) + ChoosePrompt
  }

  /** format_question_text: the loop over the options. */
  method FormatQuestionText(view: Option<QuestionView>) returns (text: string)
    ensures text == QuestionText(view)
  {
    if view.None? {
      return FinishedText;
    }
    var v := view.value;
    text := "Вопрос " + NatToString(v.number) + "/" + NatToString(v.total) + "\n\n";
    text := text + v.question.text + "\n\n";
    var opts := v.question.options;
    for i := 0 to |opts|
      invariant text == QuestionHeader(v) + OptionLines(opts[..i])
    {
      assert opts[..i + 1][..i] == opts[..i];
      text := text + [opts[i].key] + ") " + opts[i].text + "\n";
    }
    assert opts[..|opts|] == opts;
    text := text + ChoosePrompt;
  }

  /** Every option appears in the option lines as `key) text`. */
  lemma {:induction false} OptionLineListed(opts: seq<Choice>, k: nat)
    requires k < |opts|
    ensures Contains(OptionLines(opts), OptionLine(opts[k]))
    decreases |opts|
  {
    var init := opts[..|opts| - 1];
    if k == |opts| - 1 {
      ContainsMiddle(OptionLines(init), OptionLine(opts[k]), "");
      assert OptionLines(init) + OptionLine(opts[k]) + "" == OptionLines(opts);
    } else {
      OptionLineListed(init, k);
      assert init[k] == opts[k];
      ContainsWithin("", OptionLines(init), OptionLine(opts[|opts| - 1]), OptionLine(opts[k]));
      assert "" + OptionLines(init) + OptionLine(opts[|opts| - 1]) == OptionLines(opts);
    }
  }

  /** The question text shows the question and every option line. */
  lemma QuestionTextShowsOptions(v: QuestionView, k: nat)
    requires k < |v.question.options|
    ensures Contains(QuestionText(Some(v)), OptionLine(v.question.options[k]))
    ensures Contains(QuestionText(Some(v)), v.question.text)
  {
    var head := "Вопрос " + NatToString(v.number) + "/" + NatToString(v.total) + "\n\n";
    var tail := "\n\n" + OptionLines(v.question.options) + ChoosePrompt;
    OptionLineListed(v.question.options, k);
    ContainsWithin(QuestionHeader(v), OptionLines(v.question.options), ChoosePrompt, OptionLine(v.question.options[k]));
    ContainsMiddle(head, v.question.text, tail);
    assert head + v.question.text + tail == QuestionText(Some(v));
  }
}
