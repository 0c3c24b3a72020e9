/** The text-generation client (gemini_service.py): the error tag its replies carry,
    prompt assembly, the grammar-check reply parser and the rendering of a
    dialogue's history. The backend itself is opaque: its replies are inputs. */
module Gemini {
  import opened Text

  // ---------------------------------------------------------------- error tag

  /** Every failed backend call is reported as text starting with this tag. */
  const ErrorTag: string := "GEMINI_ERROR:"

  predicate IsErrorReply(reply: string) {
    StartsWith(reply, ErrorTag)
  }

  /** `reply.replace("GEMINI_ERROR: ", "")`: the message callers show for an error
      reply. Every occurrence of the tag followed by a space is removed, not just
      the leading one. */
  function ErrorText(reply: string): (r: string)
    ensures |r| <= |reply|
  {
    ReplaceAll(reply, ErrorTag + " ", "")
  }

  /** Removing the tag gives back the message it was put in front of, as long as
      the message does not carry the tag itself. */
  lemma ErrorTextOfTagged(message: string)
    requires !Contains(message, ErrorTag + " ")
    ensures ErrorText(ErrorTag + " " + message) == message
  {
    var pat := ErrorTag + " ";
    var s := pat + message;
    assert s[..|pat|] == pat && s[|pat|..] == message;
    ReplaceAbsent(message, pat, "");
  }

  // ---------------------------------------------------------------- generate_text

  /** generate_text: a non-empty system instruction is put in front of the prompt,
      separated from it by a blank line; otherwise the prompt is sent as it is. */
  function FullPrompt(prompt: string, systemInstruction: Option<string>): (r: string)
    ensures systemInstruction.None? || systemInstruction.value == [] ==> r == prompt
    ensures systemInstruction.Some? && systemInstruction.value != [] ==>
      |r| == |systemInstruction.value| + 2 + |prompt|
      && StartsWith(r, systemInstruction.value + "\n\n")
      && r[|r| - |prompt|..] == prompt
  {
    match systemInstruction
    case Some(instruction) =>
      if instruction != [] then
        var r := instruction + "\n\n" + prompt;
        assert r[|r| - |prompt|..] == prompt;
        assert r[..|instruction| + 2] == instruction + "\n\n";
        r
      else prompt
    case None => prompt
  }

  /** What the backend call produced: a reply with text parts, a reply without
      parts (with the candidate's finish reason, if there was a candidate), or an
      exception with its message. */
  datatype Completion = Parts(text: string) | NoParts(finishReason: Option<string>) | Raised(message: string)

  /** The string generate_text returns for a completion: the text, or an error
      report carrying the tag. */
  function Reply(c: Completion): (r: string)
    ensures c.Parts? ==> r == c.text
    ensures !c.Parts? ==> IsErrorReply(r)
    ensures c.Raised? && !Contains(c.message, ErrorTag + " ") ==> ErrorText(r) == c.message
  {
    match c
    case Parts(text) => text
    case NoParts(reason) =>
      var r := ErrorTag + " Пустой ответ от API. Причина: " + (match reason case Some(x) => x case None => "None");
      assert r[..|ErrorTag|] == ErrorTag;
      r
    case Raised(message) =>
      var r := ErrorTag + " " + message;
      assert r[..|ErrorTag|] == ErrorTag;
      if !Contains(message, ErrorTag + " ") then ErrorTextOfTagged(message); r else r
  }

  // ---------------------------------------------------------------- grammar check

  /** The dictionary check_grammar returns. */
  datatype GrammarCheck = GrammarCheck(errorsCount: int, correctedText: string, mistakes: seq<string>, rawResponse: string)

  const CountPrefix: string := "ERRORS_FOUND:"
  const CorrectedPrefix: string := "CORRECTED:"
  const NoCorrections: string := "no corrections needed"

  /** `line.upper().startswith(prefix)` for an upper-case prefix. */
  predicate UpperStartsWith(line: string, prefix: string) {
    |prefix| <= |line| && forall k :: 0 <= k < |prefix| ==> UpperChar(line[k]) == prefix[k]
  }

  predicate IsCountLine(line: string) { UpperStartsWith(line, CountPrefix) }

  predicate IsCorrectedLine(line: string) { UpperStartsWith(line, CorrectedPrefix) }

  /** `int(line.split(':')[1].strip())`, None where Python raises IndexError or
      ValueError. */
  function CountValue(line: string): Option<int> {
    var parts := Split(line, ':');
    if |parts| < 2 then None else ParseInt(Strip(parts[1]))
  }

  /** `line.split(':', 1)[1].strip() if ':' in line else original_text`. */
  function CorrectedValue(line: string, originalText: string): string {
    if ':' in line then Strip(line[IndexOf(line, ':') + 1..]) else originalText
  }

  /** The two branches that record a dash-prefixed line as a mistake. */
  predicate IsMistakeLine(line: string) {
    StartsWith(line, "-")
    && ((Contains(line, "Original:") && Contains(line, "Correct:"))
        || (!Contains(line, "No mistakes") && line != "-"))
  }

  /** A stripped line that ends up in the mistakes list. */
  predicate KeptAsMistake(line: string) {
    !IsCountLine(line) && !IsCorrectedLine(line) && IsMistakeLine(line)
  }

  /** One iteration of the parser's loop over the reply's lines. */
  function Step(g: GrammarCheck, raw: string, originalText: string): GrammarCheck {
    var line := Strip(raw);
    if IsCountLine(line) then
      match CountValue(line)
      case Some(n) => g.(errorsCount := n)
      case None => g
    else if IsCorrectedLine(line) then
      var corrected := CorrectedValue(line, originalText);
      if Lower(corrected) != NoCorrections then g.(correctedText := corrected) else g
    else if IsMistakeLine(line) then g.(mistakes := g.mistakes + [line])
    else g
  }

  /** The parser's result after the given lines, starting from its defaults. */
  function ScanLines(lines: seq<string>, originalText: string, response: string): (g: GrammarCheck)
    ensures g.rawResponse == response
    ensures |g.mistakes| <= |lines|
    ensures forall k :: 0 <= k < |g.mistakes| ==> StartsWith(g.mistakes[k], "-")
    decreases |lines|
  {
    if lines == [] then GrammarCheck(0, originalText, [], response)
    else
      var g := ScanLines(lines[..|lines| - 1], originalText, response);
      StepMistakes(g, lines[|lines| - 1], originalText);
      Step(g, lines[|lines| - 1], originalText)
  }

  lemma ScanLinesSnoc(lines: seq<string>, i: nat, originalText: string, response: string)
    requires i < |lines|
    ensures ScanLines(lines[..i + 1], originalText, response)
            == Step(ScanLines(lines[..i], originalText, response), lines[i], originalText)
  {
    assert lines[..i + 1][..i] == lines[..i];
  }

  function ResponseLines(response: string): seq<string> {
    Split(Strip(response), '\n')
  }

  /** _parse_grammar_check(response, original_text). */
  function GrammarCheckOf(response: string, originalText: string): GrammarCheck {
    ScanLines(ResponseLines(response), originalText, response)
  }

  /** _parse_grammar_check: a tolerant line-by-line reader of the reply. */
  method ParseGrammarCheck(response: string, originalText: string) returns (result: GrammarCheck)
    ensures result == GrammarCheckOf(response, originalText)
  {
    var errorsCount := 0;
    var correctedText := originalText;
    var mistakes: seq<string> := [];
    var lines := Split(Strip(response), '\n');
    var i := 0;
    while i < |lines|
      invariant 0 <= i <= |lines|
      invariant GrammarCheck(errorsCount, correctedText, mistakes, response) == ScanLines(lines[..i], originalText, response)
    {
      ghost var before := GrammarCheck(errorsCount, correctedText, mistakes, response);
      ScanLinesSnoc(lines, i, originalText, response);
      var line := Strip(lines[i]);
      if UpperStartsWith(line, CountPrefix) {
        var count := CountValue(line);
        if count.Some? {
          errorsCount := count.value;
        }
      } else if UpperStartsWith(line, CorrectedPrefix) {
        var corrected := CorrectedValue(line, originalText);
        if Lower(corrected) != NoCorrections {
          correctedText := corrected;
        }
      } else if StartsWith(line, "-") && Contains(line, "Original:") && Contains(line, "Correct:") {
        mistakes := mistakes + [line];
      } else if StartsWith(line, "-") && !Contains(line, "No mistakes") && line != "-" {
        mistakes := mistakes + [line];
      }
      assert GrammarCheck(errorsCount, correctedText, mistakes, response) == Step(before, lines[i], originalText);
      i := i + 1;
    }
    assert lines[..i] == lines;
    result := GrammarCheck(errorsCount, correctedText, mistakes, response);
  }

  /** check_grammar: an error reply bypasses the parser. */
  function CheckGrammar(userText: string, reply: string): (r: GrammarCheck)
    ensures r.rawResponse == reply
    ensures IsErrorReply(reply) ==> r.errorsCount == 0 && r.correctedText == userText && r.mistakes == []
    ensures !IsErrorReply(reply) ==> r == GrammarCheckOf(reply, userText)
  {
    if IsErrorReply(reply) then GrammarCheck(0, userText, [], reply)
    else GrammarCheckOf(reply, userText)
  }

  // ---------------------------------------------------------------- grammar check: properties

  /** The list item a raw line contributes: itself, stripped, if it is kept. */
  function KeptOf(raw: string): seq<string> {
    if KeptAsMistake(Strip(raw)) then [Strip(raw)] else []
  }

  lemma StepMistakes(g: GrammarCheck, raw: string, originalText: string)
    ensures Step(g, raw, originalText).mistakes == g.mistakes + KeptOf(raw)
  {
  }

  /** The stripped lines kept as mistakes, in input order. */
  function MistakeLinesOf(lines: seq<string>): (r: seq<string>)
    ensures |r| <= |lines|
  {
    if lines == [] then [] else KeptOf(lines[0]) + MistakeLinesOf(lines[1..])
  }

  lemma {:induction false} MistakeLinesSnoc(lines: seq<string>, x: string)
    ensures MistakeLinesOf(lines + [x]) == MistakeLinesOf(lines) + KeptOf(x)
    decreases |lines|
  {
    if lines != [] {
      assert (lines + [x])[1..] == lines[1..] + [x];
      MistakeLinesSnoc(lines[1..], x);
    } else {
      assert MistakeLinesOf([x]) == KeptOf(x) + MistakeLinesOf([]);
    }
  }

  /** The mistakes list holds exactly the dash-prefixed lines the parser keeps, in
      the order they appear. */
  lemma {:induction false} MistakesAreKeptLines(lines: seq<string>, originalText: string, response: string)
    ensures ScanLines(lines, originalText, response).mistakes == MistakeLinesOf(lines)
    decreases |lines|
  {
    if lines != [] {
      var init := lines[..|lines| - 1];
      var last := lines[|lines| - 1];
      assert lines == init + [last];
      calc {
        ScanLines(lines, originalText, response).mistakes;
        Step(ScanLines(init, originalText, response), last, originalText).mistakes;
        { StepMistakes(ScanLines(init, originalText, response), last, originalText); }
        ScanLines(init, originalText, response).mistakes + KeptOf(last);
        { MistakesAreKeptLines(init, originalText, response); }
        MistakeLinesOf(init) + KeptOf(last);
        { MistakeLinesSnoc(init, last); }
        MistakeLinesOf(lines);
      }
    }
  }

  /** No line is both an ERRORS_FOUND line and a CORRECTED line. */
  lemma PrefixesDisjoint(line: string)
    ensures !(IsCountLine(line) && IsCorrectedLine(line))
  {
    if IsCountLine(line) {
      assert UpperChar(line[0]) == 'E';
    }
  }

  /** A raw line that is an ERRORS_FOUND line whose count Python's int() accepts. */
  predicate ValidCountLine(raw: string) {
    IsCountLine(Strip(raw)) && CountValue(Strip(raw)).Some?
  }

  predicate ValidCountAt(lines: seq<string>, j: int) {
    0 <= j < |lines| && ValidCountLine(lines[j])
  }

  lemma StepCount(g: GrammarCheck, raw: string, originalText: string)
    ensures Step(g, raw, originalText).errorsCount
      == if ValidCountLine(raw) then CountValue(Strip(raw)).value else g.errorsCount
  {
  }

  /** The last ERRORS_FOUND line whose count parses sets errors_count. */
  lemma {:induction false} LastValidCountWins(lines: seq<string>, originalText: string, response: string, i: nat)
    requires ValidCountAt(lines, i)
    requires forall j :: i < j < |lines| ==> !ValidCountAt(lines, j)
    ensures ScanLines(lines, originalText, response).errorsCount == CountValue(Strip(lines[i])).value
    decreases |lines|
  {
    var init := lines[..|lines| - 1];
    StepCount(ScanLines(init, originalText, response), lines[|lines| - 1], originalText);
    if i < |lines| - 1 {
      assert !ValidCountAt(lines, |lines| - 1);
      forall j | i < j < |init| ensures !ValidCountAt(init, j) {
        assert !ValidCountAt(lines, j);
      }
      LastValidCountWins(init, originalText, response, i);
    }
  }

  /** Without an ERRORS_FOUND line whose count parses, errors_count stays 0. */
  lemma {:induction false} NoValidCountMeansZero(lines: seq<string>, originalText: string, response: string)
    requires forall j :: 0 <= j < |lines| ==> !ValidCountAt(lines, j)
    ensures ScanLines(lines, originalText, response).errorsCount == 0
    decreases |lines|
  {
    if lines != [] {
      var init := lines[..|lines| - 1];
      StepCount(ScanLines(init, originalText, response), lines[|lines| - 1], originalText);
      assert !ValidCountAt(lines, |lines| - 1);
      forall j | 0 <= j < |init| ensures !ValidCountAt(init, j) {
        assert !ValidCountAt(lines, j);
      }
      NoValidCountMeansZero(init, originalText, response);
    }
  }

  /** Line j of the reply is a CORRECTED line whose value is taken. */
  predicate TakenCorrectionAt(lines: seq<string>, j: int, originalText: string) {
    0 <= j < |lines| && TakenCorrection(lines[j], originalText)
  }

  /** A raw line that is a CORRECTED line whose value is taken. */
  predicate TakenCorrection(raw: string, originalText: string) {
    IsCorrectedLine(Strip(raw)) && Lower(CorrectedValue(Strip(raw), originalText)) != NoCorrections
  }

  lemma StepCorrected(g: GrammarCheck, raw: string, originalText: string)
    ensures Step(g, raw, originalText).correctedText
      == if TakenCorrection(raw, originalText) then CorrectedValue(Strip(raw), originalText) else g.correctedText
  {
    PrefixesDisjoint(Strip(raw));
  }

  /** The last CORRECTED line whose value is not "no corrections needed" (in any
      case) sets corrected_text. */
  lemma {:induction false} LastCorrectionWins(lines: seq<string>, originalText: string, response: string, i: nat)
    requires TakenCorrectionAt(lines, i, originalText)
    requires forall j :: i < j < |lines| ==> !TakenCorrectionAt(lines, j, originalText)
    ensures ScanLines(lines, originalText, response).correctedText == CorrectedValue(Strip(lines[i]), originalText)
    decreases |lines|
  {
    var init := lines[..|lines| - 1];
    StepCorrected(ScanLines(init, originalText, response), lines[|lines| - 1], originalText);
    if i < |lines| - 1 {
      assert !TakenCorrectionAt(lines, |lines| - 1, originalText);
      forall j | i < j < |init| ensures !TakenCorrectionAt(init, j, originalText) {
        assert !TakenCorrectionAt(lines, j, originalText);
      }
      LastCorrectionWins(init, originalText, response, i);
    }
  }

  /** Without such a line, corrected_text is the user's own text. */
  lemma {:induction false} NoCorrectionKeepsOriginal(lines: seq<string>, originalText: string, response: string)
    requires forall j :: 0 <= j < |lines| ==> !TakenCorrectionAt(lines, j, originalText)
    ensures ScanLines(lines, originalText, response).correctedText == originalText
    decreases |lines|
  {
    if lines != [] {
      var init := lines[..|lines| - 1];
      StepCorrected(ScanLines(init, originalText, response), lines[|lines| - 1], originalText);
        assert !TakenCorrectionAt(lines, |lines| - 1, originalText);
      forall j | 0 <= j < |init| ensures !TakenCorrectionAt(init, j, originalText) {
        assert !TakenCorrectionAt(lines, j, originalText);
      }
      NoCorrectionKeepsOriginal(init, originalText, response);
    }
  }

  /** A reply without line breaks or surrounding whitespace is a single line. */
  lemma SingleLine(s: string)
    requires s != [] && !IsSpace(s[0]) && !IsSpace(s[|s| - 1])
    requires forall k :: 0 <= k < |s| ==> s[k] != '\n'
    ensures ResponseLines(s) == [s]
  {
    StripNoSurroundingSpace(s);
    assert IndexOf(s, '\n') == |s|;
  }

  lemma SplitOnce(pre: string, c: char, tail: string)
    requires c !in pre && c !in tail
    ensures Split(pre + [c] + tail, c) == [pre, tail]
  {
    var s := pre + [c] + tail;
    assert IndexOf(tail, c) == |tail|;
    assert IndexOf(s, c) == |pre| by {
      forall k | 0 <= k < |pre| ensures s[k] != c { assert s[k] == pre[k]; }
      assert s[|pre|] == c;
    }
    assert s[..|pre|] == pre && s[|pre| + 1..] == tail;
  }

  lemma StripLeadingSpace(d: string)
    requires d != [] && !IsSpace(d[0]) && !IsSpace(d[|d| - 1])
    ensures Strip(" " + d) == d
  {
    var t := " " + d;
    assert t[1..] == d;
    assert LeadingSpaces(d) == 0;
    assert LeadingSpaces(t) == 1;
    assert TrailingSpaces(t) == 0;
    assert t[1..|t|] == d;
  }

  lemma CountPrefixLine(tail: string)
    ensures IsCountLine(CountPrefix + tail)
  {
    var s := CountPrefix + tail;
    assert forall k :: 0 <= k < |CountPrefix| ==> UpperChar(CountPrefix[k]) == CountPrefix[k];
    assert forall k :: 0 <= k < |CountPrefix| ==> s[k] == CountPrefix[k];
  }

  /** The count on an ERRORS_FOUND line is read back as written by str(n). */
  lemma CountLineValue(n: int)
    ensures IsCountLine(CountPrefix + " " + IntToString(n))
    ensures CountValue(CountPrefix + " " + IntToString(n)) == Some(n)
  {
    var d := IntToString(n);
    var tail := " " + d;
    var s := CountPrefix + tail;
    assert CountPrefix + " " + d == s;
    NumberTail(n);
    var parts := Split(s, ':');
    assert parts == ["ERRORS_FOUND", tail];
    assert !IsSpace(d[0]) && !IsSpace(d[|d| - 1]);
    StripLeadingSpace(d);
    IntRoundTrip(n);
    assert CountValue(s) == ParseInt(Strip(parts[1]));
    CountPrefixLine(tail);
  }

  lemma NumberTail(n: int)
    ensures Split(CountPrefix + (" " + IntToString(n)), ':') == ["ERRORS_FOUND", " " + IntToString(n)]
  {
    var d := IntToString(n);
    var tail := " " + d;
    var pre := "ERRORS_FOUND";
    assert CountPrefix + tail == pre + [':'] + tail;
    forall k | 0 <= k < |tail| ensures tail[k] != ':' {
      if k > 0 { assert tail[k] == d[k - 1]; }
    }
    SplitOnce(pre, ':', tail);
  }

  /** The count and the mistakes list are never reconciled: a reply holding only an
      ERRORS_FOUND line gives that count (any integer, negative ones included)
      with no mistakes. */
  lemma CountWithoutMistakes(n: int, originalText: string)
    ensures GrammarCheckOf(CountPrefix + " " + IntToString(n), originalText).errorsCount == n
    ensures GrammarCheckOf(CountPrefix + " " + IntToString(n), originalText).mistakes == []
  {
    var d := IntToString(n);
    var s := CountPrefix + " " + d;
    forall k | 0 <= k < |s| ensures s[k] != '\n' {
      if k > |CountPrefix| { assert s[k] == d[k - |CountPrefix| - 1]; }
    }
    SingleLine(s);
    StripNoSurroundingSpace(s);
    CountLineValue(n);
    assert [s][..0] == [];
  }

  // ---------------------------------------------------------------- dialogue context

  datatype Speaker = User | Assistant

  /** One entry of a conversation's message list. */
  datatype Message = Message(role: Speaker, content: string)

  /** How continue_dialogue names the user's turns and the model's turns. */
  datatype RoleLabels = RoleLabels(user: string, ai: string)

  /** The model playing the seller talks to a customer; in every other case the
      model is the customer and the user the seller. */
  function LabelsFor(aiRole: string): (r: RoleLabels)
    ensures r.user != r.ai
    ensures {r.user, r.ai} == {"Customer", "Seller"}
    ensures r.ai == "Seller" <==> aiRole == "seller"
  {
    if aiRole == "seller" then RoleLabels("Customer", "Seller") else RoleLabels("Seller", "Customer")
  }

  /** How many of the latest messages the context shows. */
  const ContextSize: nat := 10

  function TurnLine(m: Message, labels: RoleLabels): string {
    (if m.role == User then labels.user else labels.ai) + ": " + m.content + "\n"
  }

  /** The rendered turns, one line each, oldest first. */
  function Transcript(history: seq<Message>, labels: RoleLabels): string
    decreases |history|
  {
    if history == [] then ""
    else Transcript(history[..|history| - 1], labels) + TurnLine(history[|history| - 1], labels)
  }

  /** The conversation text continue_dialogue puts into its prompt. */
  function ContextOf(history: seq<Message>, aiRole: string): string {
    Transcript(LastN(history, ContextSize), LabelsFor(aiRole))
  }

  /** continue_dialogue's loop over `conversation_history[-10:]`. */
  method RenderConversation(history: seq<Message>, aiRole: string) returns (text: string)
    ensures text == ContextOf(history, aiRole)
  {
    var labels := LabelsFor(aiRole);
    var recent := LastN(history, ContextSize);
    text := "";
    var i := 0;
    while i < |recent|
      invariant 0 <= i <= |recent|
      invariant text == Transcript(recent[..i], labels)
    {
      var msg := recent[i];
      TranscriptStep(recent, i, labels, text);
      if msg.role == User {
        text := text + (labels.user + ": " + msg.content + "\n");
      } else {
        text := text + (labels.ai + ": " + msg.content + "\n");
      }
      i := i + 1;
    }
    assert recent[..i] == recent;
  }

  lemma TranscriptStep(recent: seq<Message>, i: nat, labels: RoleLabels, text: string)
    requires i < |recent| && text == Transcript(recent[..i], labels)
    ensures text + TurnLine(recent[i], labels) == Transcript(recent[..i + 1], labels)
  {
    assert recent[..i + 1][..i] == recent[..i];
  }

  lemma {:induction false} TranscriptAppend(a: seq<Message>, b: seq<Message>, labels: RoleLabels)
    ensures Transcript(a + b, labels) == Transcript(a, labels) + Transcript(b, labels)
    decreases |b|
  {
    if b == [] {
      assert a + b == a;
    } else {
      var init := b[..|b| - 1];
      TranscriptAppend(a, init, labels);
      assert (a + b)[..|a + b| - 1] == a + init;
    }
  }

  /** Messages older than the last ten never reach the prompt. */
  lemma OlderMessagesIgnored(earlier: seq<Message>, recent: seq<Message>, aiRole: string)
    requires |recent| >= ContextSize
    ensures ContextOf(earlier + recent, aiRole) == ContextOf(recent, aiRole)
  {
    assert LastN(earlier + recent, ContextSize) == LastN(recent, ContextSize);
  }

  /** Each of the last ten messages appears in the prompt as its own labelled line. */
  lemma RecentMessageShown(history: seq<Message>, aiRole: string, k: nat)
    requires |history| - ContextSize <= k < |history|
    ensures Contains(ContextOf(history, aiRole), TurnLine(history[k], LabelsFor(aiRole)))
  {
    var labels := LabelsFor(aiRole);
    var recent := LastN(history, ContextSize);
    var j := k - (|history| - |recent|);
    assert recent[j] == history[k];
    assert recent == recent[..j] + [recent[j]] + recent[j + 1..];
    TranscriptAppend(recent[..j] + [recent[j]], recent[j + 1..], labels);
    TranscriptAppend(recent[..j], [recent[j]], labels);
    assert [recent[j]][..0] == [];
    ContainsMiddle(Transcript(recent[..j], labels), TurnLine(history[k], labels), Transcript(recent[j + 1..], labels));
  }
}
