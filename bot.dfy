/** The pure helpers of the Telegram front end (bot.py): the roles of a
    dialogue, the check on a quiz answer, the two message formatters and the
    splitting of a long reply into messages Telegram accepts. */
module Bot {
  import opened Text
  import opened Gemini
  import Quiz
  import Dialogue

  // ---------------------------------------------------------------- roles

  const Seller: string := "seller"
  const Buyer: string := "buyer"

  /** The model plays the other side of the sale: the buyer when the user
      sells, the seller otherwise. */
  function AiRoleFor(userRole: string): (r: string)
    ensures r == Buyer || r == Seller
    ensures r == Buyer <==> userRole == Seller
    ensures userRole == Buyer || userRole == Seller ==> r != userRole
  {
    if userRole == Seller then Buyer else Seller
  }

  /** The role a `role_…` button chooses: seller when the callback data
      mentions it anywhere, buyer otherwise. */
  function RoleFromCallback(data: string): (r: string)
    ensures r == Buyer || r == Seller
    ensures r == Seller <==> Contains(data, Seller)
  {
    if Contains(data, Seller) then Seller else Buyer
  }

  /** On the two roles, the opposite of the opposite is the role itself. */
  lemma AiRoleInvolution(role: string)
    requires role == Buyer || role == Seller
    ensures AiRoleFor(AiRoleFor(role)) == role
  {
  }

  /** A string that lacks a character lacks every string holding it. */
  lemma {:induction false} LacksChar(s: string, t: string, k: nat)
    requires k < |t| && forall i :: 0 <= i < |s| ==> s[i] != t[k]
    ensures !Contains(s, t)
    decreases |s|
  {
    if s != [] {
      assert forall i :: 0 <= i < |s[1..]| ==> s[1..][i] == s[i + 1];
      LacksChar(s[1..], t, k);
    }
    assert !StartsWith(s, t) by {
      if |t| <= |s| {
        assert s[..|t|][k] == s[k];
      }
    }
  }

  /** The two buttons of the role keyboard: the user gets the role named on
      the button and the model the other one. */
  lemma SellerButton()
    ensures RoleFromCallback("role_seller") == Seller && AiRoleFor(Seller) == Buyer
  {
    assert "role_seller" == "role_" + Seller + "";
    ContainsMiddle("role_", Seller, "");
  }

  /** See SellerButton. */
  lemma BuyerButton()
    ensures RoleFromCallback("role_buyer") == Buyer && AiRoleFor(Buyer) == Seller
  {
    assert Seller[0] == 's';
    LacksChar("role_buyer", Seller, 0);
  }

  // ---------------------------------------------------------------- quiz answers

  const ChooseOption: string := "Пожалуйста, выберите вариант ответа:" + " a, b, c или d"

  /** handle_test_answer's check: the stripped, lower-cased reply must be one of
      the four option keys. */
  function AnswerLabel(text: string): (r: Option<string>)
    ensures r.Some? ==> |r.value| == 1 && Quiz.IsLabel(r.value[0]) && r.value == Lower(Strip(text))
    ensures r.None? ==> forall c :: Quiz.IsLabel(c) ==> Lower(Strip(text)) != [c]
  {
    var given := Lower(Strip(text));
    if |given| == 1 && Quiz.IsLabel(given[0]) then Some(given) else None
  }

  /** A label is its own stripped lower case. */
  lemma LabelNormal(s: string)
    requires |s| == 1 && Quiz.IsLabel(s[0])
    ensures Strip(Lower(s)) == s
  {
    Quiz.LabelIsLower(s[0]);
    assert Lower(s)[0] == LowerChar(s[0]);
    assert Lower(s) == s;
    StripNoSurroundingSpace(s);
  }

  /** handle_test_answer: a reply that is not an option key is refused with a
      prompt and leaves the session as it was; an option key is submitted. */
  method HandleTestAnswer(test: Quiz.GrammarTest, text: string) returns (r: Result<Quiz.Feedback, string>)
    requires test.Valid()
    modifies test
    ensures test.Valid()
    ensures AnswerLabel(text).None? ==> r == Err(ChooseOption)
    ensures AnswerLabel(text).Some? && old(test.currentTest).None? ==> r == Err(Quiz.NotStarted)
    ensures AnswerLabel(text).Some? && old(test.currentTest).Some? && old(test.CurrentQuestion()).None? ==>
      r == Err(Quiz.NoQuestion)
    ensures r.Err? ==>
      test.currentTest == old(test.currentTest) && test.questionIndex == old(test.questionIndex)
      && test.userAnswers == old(test.userAnswers)
    ensures AnswerLabel(text).Some? && old(test.CurrentQuestion()).Some? ==>
      var q := old(test.CurrentQuestion()).value.question;
      var given := AnswerLabel(text).value;
      r == Ok(Quiz.Feedback(given == [q.answer], q.answer, q.explanation))
      && test.currentTest == old(test.currentTest)
      && test.questionIndex == old(test.questionIndex) + 1
      && test.userAnswers == old(test.userAnswers)
           + [Quiz.AnswerRecord(old(test.questionIndex), given, q.answer, given == [q.answer])]
  {
    var chosen := AnswerLabel(text);
    if chosen.None? {
      return Err(ChooseOption);
    }
    var given := chosen.value;
    LabelNormal(given);
    r := test.SubmitAnswer(given);
  }

  // ---------------------------------------------------------------- bulleted lines

  /** One line of a list: the prefix, the item and a line break. */
  function ItemLine(prefix: string, item: string): string {
    prefix + item + "\n"
  }

  /** The lines of a list, one per item, in order. */
  function Bulleted(prefix: string, items: seq<string>): (r: string)
    decreases |items|
  {
    if items == [] then ""
    else Bulleted(prefix, items[..|items| - 1]) + ItemLine(prefix, items[|items| - 1])
  }

  /** One turn of a loop that writes the lines of a list after a heading. */
  lemma BulletedStep(head: string, prefix: string, items: seq<string>, i: nat, text: string)
    requires i < |items| && text == head + Bulleted(prefix, items[..i])
    ensures text + ItemLine(prefix, items[i]) == head + Bulleted(prefix, items[..i + 1])
  {
    var w := items[..i + 1];
    assert w[..i] == items[..i];
    assert w[|w| - 1] == items[i];
    AppendAssoc(head, Bulleted(prefix, items[..i]), ItemLine(prefix, items[i]));
  }

  /** Every item of a list has its own line in it. */
  lemma {:induction false} BulletedHasItem(prefix: string, items: seq<string>, k: nat)
    requires k < |items|
    ensures Contains(Bulleted(prefix, items), ItemLine(prefix, items[k]))
    decreases |items|
  {
    var init := items[..|items| - 1];
    var last := ItemLine(prefix, items[|items| - 1]);
    if k == |items| - 1 {
      ContainsSuffix(Bulleted(prefix, init), last);
    } else {
      assert init[k] == items[k];
      BulletedHasItem(prefix, init, k);
      ContainsPrefix(Bulleted(prefix, init), last, ItemLine(prefix, items[k]));
    }
  }

  /** The lines of a list appear after any heading put before them. */
  lemma HeadedHasItem(head: string, prefix: string, items: seq<string>, k: nat)
    requires k < |items|
    ensures Contains(head + Bulleted(prefix, items), ItemLine(prefix, items[k]))
  {
    BulletedHasItem(prefix, items, k);
    ContainsWithin(head, Bulleted(prefix, items), "", ItemLine(prefix, items[k]));
    assert head + Bulleted(prefix, items) + "" == head + Bulleted(prefix, items);
  }

  /** Writes a heading and the lines of a list after the text so far. */
  method AppendList(text0: string, heading: string, prefix: string, items: seq<string>) returns (text: string)
    ensures text == text0 + heading + Bulleted(prefix, items)
  {
    text := text0 + heading;
    ghost var head := text;
    var i := 0;
    while i < |items|
      invariant 0 <= i <= |items|
      invariant text == head + Bulleted(prefix, items[..i])
    {
      BulletedStep(head, prefix, items, i, text);
      text := text + ItemLine(prefix, items[i]);
      i := i + 1;
    }
    assert items[..i] == items;
  }

  // ---------------------------------------------------------------- grammar feedback

  const NoErrorsText: string := "\U{2705} *Грамматика:*" + " Отлично! Ошибок нет."
  const MistakesHeading: string := "\n*Ошибки:*\n"
  const MaxShownMistakes: nat := 5

  function CountLine(n: int): string {
    "\U{1F4DD} *Проверка грамматики:*" + " Найдено ошибок: " + IntToString(n) + "\n"
  }

  function CorrectedLine(t: string): string {
    "\U{270F}\U{FE0F} *Исправленный вариант:* _" + t + "_\n"
  }

  /** Python's `s[:n]` for a list. */
  function FirstN<T>(s: seq<T>, n: nat): (r: seq<T>)
    ensures |r| == if |s| <= n then |s| else n
    ensures r == s[..|r|]
  {
    if |s| <= n then s else s[..n]
  }

  /** The part of the feedback above the list of mistakes. The check's record
      has no `original` key, so the corrected variant is shown whenever it is
      not empty. */
  function FeedbackHead(g: GrammarCheck): string {
    CountLine(g.errorsCount) + (if g.correctedText != "" then CorrectedLine(g.correctedText) else "")
  }

  /** format_grammar_feedback. */
  function FeedbackText(g: GrammarCheck): (r: string)
    ensures r == NoErrorsText <==> g.errorsCount == 0
  {
    if g.errorsCount == 0 then NoErrorsText
    else
      var head := FeedbackHead(g);
      assert head[0] == CountLine(g.errorsCount)[0] == '\U{1F4DD}';
      assert NoErrorsText[0] == '\U{2705}';
      if g.mistakes == [] then head
      else head + MistakesHeading + Bulleted("", FirstN(g.mistakes, MaxShownMistakes))
  }

  /** format_grammar_feedback, written as the source does it. */
  method FormatGrammarFeedback(g: GrammarCheck) returns (text: string)
    ensures text == FeedbackText(g)
  {
    if g.errorsCount == 0 {
      return NoErrorsText;
    }
    text := CountLine(g.errorsCount);
    if g.correctedText != "" {
      text := text + CorrectedLine(g.correctedText);
    }
    if g.mistakes != [] {
      text := AppendList(text, MistakesHeading, "", FirstN(g.mistakes, MaxShownMistakes));
    }
  }

  /** Each of the first five mistakes gets a line of the feedback. */
  lemma FeedbackListsMistake(g: GrammarCheck, k: nat)
    requires g.errorsCount != 0 && k < |g.mistakes| && k < MaxShownMistakes
    ensures Contains(FeedbackText(g), g.mistakes[k] + "\n")
  {
    var shown := FirstN(g.mistakes, MaxShownMistakes);
    var m := g.mistakes[k];
    assert shown[k] == m;
    HeadedHasItem(FeedbackHead(g) + MistakesHeading, "", shown, k);
    assert "" + m == m;
  }

  /** Mistakes after the fifth change nothing: two checks that agree on the
      count, the corrected text and the first five mistakes read the same. */
  lemma FeedbackShowsFirstFive(g: GrammarCheck, h: GrammarCheck)
    requires g.errorsCount == h.errorsCount && g.correctedText == h.correctedText
    requires |g.mistakes| >= MaxShownMistakes && |h.mistakes| >= MaxShownMistakes
    requires g.mistakes[..MaxShownMistakes] == h.mistakes[..MaxShownMistakes]
    ensures FeedbackText(g) == FeedbackText(h)
  {
  }

  /** With errors reported, a non-empty corrected text is shown. */
  lemma FeedbackShowsCorrection(g: GrammarCheck)
    requires g.errorsCount != 0 && g.correctedText != ""
    ensures Contains(FeedbackText(g), CorrectedLine(g.correctedText))
  {
    var rest := if g.mistakes == [] then "" else MistakesHeading + Bulleted("", FirstN(g.mistakes, MaxShownMistakes));
    assert FeedbackText(g) == CountLine(g.errorsCount) + CorrectedLine(g.correctedText) + rest;
    ContainsMiddle(CountLine(g.errorsCount), CorrectedLine(g.correctedText), rest);
  }

  // ---------------------------------------------------------------- dialogue statistics

  const MaxRecapMistakes: nat := 5
  const StatsHeading: string := "\n\n\U{1F4CA} *СТАТИСТИКА ДИАЛОГА*\n"
  const Rule: string := "━━━━━━━━━━━━━━━━━━━━\n"
  const RecapHeading: string := "\n*Последние ошибки для повторения:*\n"
  const Bullet: string := "\U{2022} "

  /** The four grades, from best to worst. */
  datatype Grade = Excellent | Good | Fair | KeepPracticing

  /** The grade for a number of errors: none, up to three, up to seven, more. */
  function GradeFor(totalErrors: nat): (g: Grade)
    ensures g == Excellent <==> totalErrors == 0
    ensures g == Good <==> 1 <= totalErrors <= 3
    ensures g == Fair <==> 4 <= totalErrors <= 7
    ensures g == KeepPracticing <==> totalErrors > 7
  {
    if totalErrors == 0 then Excellent
    else if totalErrors <= 3 then Good
    else if totalErrors <= 7 then Fair
    else KeepPracticing
  }

  /** Position of a grade in the order of the scale. */
  function Rank(g: Grade): nat {
    match g
    case Excellent => 0
    case Good => 1
    case Fair => 2
    case KeepPracticing => 3
  }

  /** More errors never earn a better grade. */
  lemma GradeMonotone(a: nat, b: nat)
    requires a <= b
    ensures Rank(GradeFor(a)) <= Rank(GradeFor(b))
  {
  }

  function GradeText(g: Grade): string {
    match g
    case Excellent => "\U{1F31F} Превосходно!"
    case Good => "\U{1F44D} Хорошо!"
    case Fair => "\U{1F4DA} Неплохо, но есть над чем работать"
    case KeepPracticing => "\U{1F4AA} Продолжайте практиковаться!"
  }

  /** The part of the summary above the recap of mistakes. */
  function StatsHead(s: Dialogue.Stats): string {
    StatsHeading + Rule
    + "\U{1F4AC} Всего обменов: " + NatToString(s.totalExchanges) + "\n"
    + "\U{274C} Всего ошибок: " + NatToString(s.totalErrors) + "\n"
    + "\n*Оценка:* " + GradeText(GradeFor(s.totalErrors)) + "\n"
  }

  /** format_dialogue_statistics: nothing without statistics; otherwise the
      totals, the grade and the last five recorded mistakes. */
  function StatsText(stats: Option<Dialogue.Stats>): (r: string)
    ensures r == "" <==> stats.None?
  {
    match stats
    case None => ""
    case Some(s) =>
      var head := StatsHead(s);
      assert head[0] == '\n';
      if s.allMistakes == [] then head
      else head + RecapHeading + Bulleted(Bullet, LastN(s.allMistakes, MaxRecapMistakes))
  }

  /** format_dialogue_statistics, written as the source does it. */
  method FormatDialogueStatistics(stats: Option<Dialogue.Stats>) returns (text: string)
    ensures text == StatsText(stats)
  {
    if stats.None? {
      return "";
    }
    var s := stats.value;
    text := StatsHeading;
    text := text + Rule;
    text := text + ("\U{1F4AC} Всего обменов: " + NatToString(s.totalExchanges) + "\n");
    text := text + ("\U{274C} Всего ошибок: " + NatToString(s.totalErrors) + "\n");
    var grade := GradeText(GradeFor(s.totalErrors));
    text := text + ("\n*Оценка:* " + grade + "\n");
    assert text == StatsHead(s);
    if s.allMistakes != [] {
      text := AppendList(text, RecapHeading, Bullet, LastN(s.allMistakes, MaxRecapMistakes));
    }
  }

  /** The summary names the grade the error total earns. */
  lemma StatsShowGrade(s: Dialogue.Stats)
    ensures Contains(StatsText(Some(s)), GradeText(GradeFor(s.totalErrors)))
  {
    var before := StatsHeading + Rule
      + "\U{1F4AC} Всего обменов: " + NatToString(s.totalExchanges) + "\n"
      + "\U{274C} Всего ошибок: " + NatToString(s.totalErrors) + "\n"
      + "\n*Оценка:* ";
    var rest := "\n" + (if s.allMistakes == [] then "" else RecapHeading + Bulleted(Bullet, LastN(s.allMistakes, MaxRecapMistakes)));
    assert StatsText(Some(s)) == before + GradeText(GradeFor(s.totalErrors)) + rest;
    ContainsMiddle(before, GradeText(GradeFor(s.totalErrors)), rest);
  }

  /** Each of the last five recorded mistakes gets a bullet of the summary. */
  lemma StatsListRecentMistake(s: Dialogue.Stats, k: nat)
    requires k < |LastN(s.allMistakes, MaxRecapMistakes)|
    ensures Contains(StatsText(Some(s)), Bullet + LastN(s.allMistakes, MaxRecapMistakes)[k] + "\n")
  {
    HeadedHasItem(StatsHead(s) + RecapHeading, Bullet, LastN(s.allMistakes, MaxRecapMistakes), k);
  }

  /** The mistakes the summary recaps are the last five the dialogue recorded:
      the record keeps the last ten and the summary shows the last five of those. */
  lemma RecapIsLastFive(c: Dialogue.Conversation)
    ensures LastN(Dialogue.StatsOf(c).allMistakes, MaxRecapMistakes) == LastN(c.errorsHistory, MaxRecapMistakes)
  {
    var h := c.errorsHistory;
    var kept := Dialogue.StatsOf(c).allMistakes;
    if |h| > MaxRecapMistakes {
      assert kept == h[|h| - |kept|..];
      assert kept[|kept| - MaxRecapMistakes..] == h[|h| - MaxRecapMistakes..];
    }
  }

  // ---------------------------------------------------------------- long replies

  const MessageLimit: nat := 4096

  /** `[s[i:i+size] for i in range(0, len(s), size)]`. */
  function Chunks(s: string, size: nat): (r: seq<string>)
    requires size > 0
    ensures forall k :: 0 <= k < |r| ==> 0 < |r[k]| <= size
    ensures forall k :: 0 <= k < |r| - 1 ==> |r[k]| == size
    decreases |s|
  {
    if s == [] then []
    else if |s| <= size then [s]
    else
      var rest := Chunks(s[size..], size);
      assert forall k :: 1 <= k < |rest| + 1 ==> ([s[..size]] + rest)[k] == rest[k - 1];
      [s[..size]] + rest
  }

  /** The pieces put back together give the text. */
  lemma {:induction false} ChunksJoin(s: string, size: nat)
    requires size > 0
    ensures Join(Chunks(s, size), "") == s
    decreases |s|
  {
    if |s| > size {
      var rest := Chunks(s[size..], size);
      ChunksJoin(s[size..], size);
      assert Chunks(s, size)[1..] == rest;
      assert s == s[..size] + "" + s[size..];
    }
  }

  /** The number of pieces is the length divided by the size, rounded up. */
  lemma {:induction false} ChunksCount(s: string, size: nat)
    requires size > 0
    ensures (|Chunks(s, size)| - 1) * size < |s| <= |Chunks(s, size)| * size
    decreases |s|
  {
    if |s| > size {
      ChunksCount(s[size..], size);
    }
  }

  /** The messages a reply is sent as: the text itself when it fits in one
      message, its 4096-character pieces otherwise. */
  function ReplyParts(text: string): (r: seq<string>)
    ensures |r| >= 1
    ensures forall k :: 0 <= k < |r| ==> |r[k]| <= MessageLimit
    ensures |text| <= MessageLimit <==> r == [text]
  {
    if |text| > MessageLimit then
      var parts := Chunks(text, MessageLimit);
      assert parts[0] == text[..MessageLimit];
      parts
    else [text]
  }

  /** Sending the parts in order delivers the whole reply. */
  lemma ReplyPartsJoin(text: string)
    ensures Join(ReplyParts(text), "") == text
  {
    if |text| > MessageLimit {
      ChunksJoin(text, MessageLimit);
    }
  }
}
