# English-practice bot: a verified model of its core

The bot helps a Russian-speaking learner practise English in a chat. It has
three activities, each backed by a text-generation model. A grammar quiz turns
the model's reply into multiple-choice questions and scores the learner's
answers. A vocabulary list turns the reply into words with their
transcriptions, translations and examples. A shop role-play dialogue checks
each learner message for grammar mistakes, keeps the conversation and ends
with statistics after ten exchanges.

This project models, in Dafny, the logic that sits between the model's text and
the learner:

- **Gemini** (`gemini.dfy`): the error tag the backend wrapper puts on failures
  and how it is removed; how a system instruction is put in front of a prompt;
  the line-by-line reader of a grammar-check reply; the bypass of that reader
  for an error reply; and the transcript of the last ten messages, with role
  labels, that goes into the dialogue prompt.
- **Quiz** (`quiz.dfy`): the question-block parser; the split of a reply on
  `ВОПРОС n:` markers; the fallback parser and its answer and explanation
  searches; the choice between the two parses; the quiz session class
  (create, current question, submit, results); and the question formatter.
- **Vocabulary** (`vocabulary.dfy`): the word-block parser and its field
  defaults; the split of a reply on `СЛОВО n:` markers; the two fallback
  patterns; the per-user cache class; and the two list formatters, the compact
  one with its 3000-character cut.
- **Dialogue** (`dialogue.dfy`): the dialogue manager class over its per-user
  map of conversation records (start, send, statistics, end, getters), and
  what a run of exchanges does to a record.
- **Bot** (`bot.dfy`): the role of each side, the check on a quiz answer, the
  grammar feedback and dialogue statistics messages, and the splitting of a
  long reply into 4096-character messages.
- **Text** and **Patterns** (`text.dfy`, `patterns.dfy`): the Python string
  operations and the regular expressions the code relies on (strip, split,
  lower, replace, `int()`, `str()`, case-insensitive literals, `\s*`, `\d+`,
  `\w+`, the lazy `.*?` searches).

Code that changes state step by step is modelled imperatively. The quiz
session, the vocabulary cache and the dialogue manager are classes whose
methods update their fields. Each loop of the source (the line scanners, the
block collectors, the formatters, the transcript) is a method with a `while`
or `for` loop, proved equal to a specification function. The properties the
code promises are proved about those functions.

Calls to the text-generation backend are parameters. A method that would call
the model instead takes the model's reply as an argument, for example
`CreateTest(tenseType, reply)`, `GenerateWords(topic, reply)` and
`SendMessage(userId, userMessage, check, reply)`. A `Completion` value stands
for what the backend's client returns.

Where the code and its design description disagree, the model follows the
code:

- The error tag is removed with `str.replace`, so every occurrence of
  `GEMINI_ERROR: ` goes, not only the leading one (`Gemini.ErrorText`).
- The grammar-check count is whatever `int()` accepts, negative numbers
  included. It is not the non-negative count the design describes.
- The feedback compares the corrected text with a key `original` that the
  check's record never has. So the corrected variant is shown whenever it is
  non-empty (`Bot.FeedbackHead`).
- The model's role is the opposite of the learner's only for the two known
  roles. Any other role string gives `seller` (`Bot.AiRoleFor`).
- A dialogue has no finished state. After the tenth exchange `send_message`
  keeps accepting messages and reports `is_finished` each time
  (`Dialogue.OutcomeOf`).

## Model

| member | source | states |
|---|---|---|
| Gemini.ErrorText | gemini_service.py:37-40 | removing the tag leaves a string no longer than the reply |
| Gemini.ErrorTextOfTagged | gemini_service.py:40 | removing `GEMINI_ERROR: ` from the wrapper's error string gives back the exception message, when that message does not hold the tag itself |
| Gemini.FullPrompt | gemini_service.py:21-24 | a non-empty system instruction goes first, then a blank line, then the prompt; with no instruction, or an empty one, the prompt goes alone |
| Gemini.Reply | gemini_service.py:32-40 | a completion with parts gives its text; an empty completion or an exception gives a reply carrying the error tag, and for an exception the tag removal recovers its message |
| Gemini.ScanLines | gemini_service.py:159-193 | the reader's state after some lines keeps the raw reply, has at most one mistake per line, and every mistake starts with a dash |
| Gemini.ParseGrammarCheck | gemini_service.py:159-193 | the loop over the stripped reply's lines computes the same record as the line-by-line specification |
| Gemini.CheckGrammar | gemini_service.py:145-157 | an error reply bypasses the parser and gives zero errors, the user's own text and no mistakes; any other reply is parsed |
| Gemini.MistakesAreKeptLines | gemini_service.py:188-191 | the mistakes are exactly the stripped dash-prefixed lines that either hold both `Original:` and `Correct:`, or are neither a lone dash nor contain "No mistakes", in reply order |
| Gemini.PrefixesDisjoint | gemini_service.py:174-182 | no line is both an ERRORS_FOUND line and a CORRECTED line, so the order of the tests does not matter |
| Gemini.LastValidCountWins | gemini_service.py:174-181 | the last ERRORS_FOUND line whose count `int()` accepts sets the count; lines that do not parse are skipped |
| Gemini.NoValidCountMeansZero | gemini_service.py:161-166 | without such a line the count stays 0 |
| Gemini.LastCorrectionWins | gemini_service.py:182-186 | the last CORRECTED line whose value is not "no corrections needed", in any case, sets the corrected text |
| Gemini.NoCorrectionKeepsOriginal | gemini_service.py:163 | without such a line the corrected text is the user's own text |
| Gemini.CountLineValue | gemini_service.py:174-177 | an ERRORS_FOUND line written with `str(n)` is read back as n |
| Gemini.CountWithoutMistakes | gemini_service.py:174-193 | count and mistakes are not reconciled: a reply with only an ERRORS_FOUND line gives that count, negative ones included, and no mistakes |
| Gemini.LabelsFor | gemini_service.py:198-222 | the model as seller talks to a Customer; in every other role it is the Customer talking to a Seller; the two labels differ |
| Gemini.RenderConversation | gemini_service.py:224-229 | the loop over the last ten messages computes the specified transcript |
| Gemini.TranscriptAppend | gemini_service.py:225-229 | the transcript of two runs of messages is the concatenation of their transcripts |
| Gemini.OlderMessagesIgnored | gemini_service.py:225 | messages before the last ten never reach the prompt |
| Gemini.RecentMessageShown | gemini_service.py:225-229 | each of the last ten messages is in the prompt as its own line, labelled by who spoke |
| Quiz.Put | grammar_test.py:52 | after `options[key] = text` the key is present with that text and the other keys are kept |
| Quiz.PutProperties | grammar_test.py:52 | the keys stay distinct; the dictionary grows only for a new key; other keys keep their values |
| Quiz.ChoiceOf | grammar_test.py:49-53 | an option line gives a key among a to d |
| Quiz.AnswerOf | grammar_test.py:55-59 | an ОТВЕТ line gives a key among a to d |
| Quiz.ExplanationOf | grammar_test.py:62-66 | an ОБЪЯСНЕНИЕ line gives its stripped text, non-empty when the line ends in a non-space |
| Quiz.Scan | grammar_test.py:43-73 | after any lines the option keys are distinct labels among a to d, the answer is a label, and the texts start with a non-space |
| Quiz.ParseQuestionBlock | grammar_test.py:32-83 | the loop over the block's lines computes the same question as the specification |
| Quiz.FourOptions | grammar_test.py:75 | distinct keys from a to d number at most four, and at least four exactly when they are all four |
| Quiz.AcceptedQuestionShape | grammar_test.py:75-81 | an accepted question has non-empty text, the four options a to d once each, an answer label and a non-empty explanation |
| Quiz.AnswerSetIffAnswerLine | grammar_test.py:55-59 | the answer is set exactly when the block has an ОТВЕТ line |
| Quiz.KeysFromOptionLines | grammar_test.py:49-53 | a key is among the options exactly when some option line carries it |
| Quiz.ExplanationIffExplanationLine | grammar_test.py:62-72 | the explanation is non-empty exactly when the block has an ОБЪЯСНЕНИЕ line |
| Quiz.QuestionStillOpen | grammar_test.py:69-70 | question text is still being read exactly while no option, answer or explanation line has come |
| Quiz.QuestionTextIsLeadingText | grammar_test.py:69-70 | the question text is the lines before the first marked line, joined with single spaces |
| Quiz.QuestionAccepted | grammar_test.py:75-83 | a block is accepted exactly when it has leading question text, an ОТВЕТ line and option lines for all of a, b, c and d |
| Quiz.AcceptedQuestionContent | grammar_test.py:76-81 | the accepted question's text is that leading text; its explanation is the default exactly when no ОБЪЯСНЕНИЕ line exists |
| Quiz.BlockQuestion | grammar_test.py:19-26 | a question a block contributes is well formed |
| Quiz.Collected | grammar_test.py:19-26 | no more questions than blocks |
| Quiz.CollectedWellFormed | grammar_test.py:19-26 | every collected question is one the block parser accepted |
| Quiz.ParseTestResponse | grammar_test.py:12-30 | the loop over the blocks after the first marker computes the specified list |
| Quiz.CollectedAppend | grammar_test.py:19-26 | the questions of a run of blocks are those of its parts, in order |
| Quiz.CollectedOne | grammar_test.py:20-26 | one block contributes its question exactly when it is not blank and is accepted |
| Quiz.FirstBlock | grammar_test.py:124 | the lazy question group stops at an option block that follows the match start |
| Quiz.FirstBlockIsFirst | grammar_test.py:124 | no earlier line can start that option block |
| Quiz.Matches | grammar_test.py:124-126 | every fallback match has a non-empty question and d) text |
| Quiz.DropQuestionWord | grammar_test.py:133 | removing the `ВОПРОС n:` prefix never lengthens the text |
| Quiz.WordAt | grammar_test.py:143 | the alternatives of the answer words are tried in order, and none matches when it says so |
| Quiz.FirstAnswerAt | grammar_test.py:143-144 | the lazy search finds a position after the d) text where an answer marker and a key follow |
| Quiz.FirstAnswerIsFirst | grammar_test.py:143-144 | no answer marker matches before that position |
| Quiz.FirstOccurrence | grammar_test.py:143-150 | the search starts where the raw d) text first occurs, ignoring case |
| Quiz.FirstOccurrenceIsFirst | grammar_test.py:143-150 | the d) text does not occur before that place |
| Quiz.FallbackAnswer | grammar_test.py:143-145 | the fallback answer is always a key from a to d |
| Quiz.ExplanationAt | grammar_test.py:149 | a matched explanation group is non-empty |
| Quiz.FirstExplanationIsFirst | grammar_test.py:149-150 | no explanation marker matches before the position the lazy search finds |
| Quiz.FallbackExplanation | grammar_test.py:148-152 | the fallback explanation has at most 200 characters |
| Quiz.FallbackParse | grammar_test.py:118-161 | the loop over the matches computes one question per match, in order |
| Quiz.FallbackQuestionShape | grammar_test.py:135-159 | a fallback question has options a, b, c, d in order, a label as answer that is 'a' when no answer marker exists, and at most 200 characters of explanation |
| Quiz.FallbackShape | grammar_test.py:118-161 | every fallback question is valid with a short explanation |
| Quiz.ChosenQuestionsValid | grammar_test.py:94-114 | the questions a test is created with, primary or fallback, number at least three and are all valid |
| Quiz.CountCorrect | grammar_test.py:215 | the correct answers never outnumber the answers |
| Quiz.CountCorrectAppend | grammar_test.py:215 | one more answer adds one exactly when it is correct |
| Quiz.Score | grammar_test.py:216 | the score is the floor of 100 times correct over total, 0 without questions, and at most 100 |
| Quiz.ScoreBounds | grammar_test.py:216 | the integer division bounds that give the floor |
| Quiz.RecordKeepsInvariant | grammar_test.py:193-201 | logging the answer to the current question keeps the session invariant |
| Quiz.GrammarTest.constructor | grammar_test.py:6-10 | a new session has no test, cursor 0 and no answers |
| Quiz.GrammarTest.CreateTest | grammar_test.py:85-116 | success exactly for a non-error reply with at least three questions; success resets the session to the new test; failure changes nothing and reports the cleaned error or the reply's first 300 characters |
| Quiz.GrammarTest.CurrentQuestion | grammar_test.py:163-179 | none without a test or past the last question; otherwise the question at the cursor, numbered from 1 |
| Quiz.GrammarTest.SubmitAnswer | grammar_test.py:181-207 | errors for no test or no current question, leaving the session alone; otherwise exactly one answer is logged, compared after lower-casing and stripping, and the cursor advances by one |
| Quiz.GrammarTest.GetResults | grammar_test.py:209-226 | none without a test; otherwise the question total, the number of correct answers logged (`CountCorrect`), the test's tense, the answers, and the floor score; correct answers are at most the questions and the score at most 100 |
| Quiz.FormatQuestionText | grammar_test.py:228-241 | the loop over the options computes the specified question text |
| Quiz.OptionLineListed | grammar_test.py:236-237 | every option appears as its `key) text` line |
| Quiz.QuestionTextShowsOptions | grammar_test.py:233-237 | the question text shows the question and every option line |
| Vocabulary.LineField | vocabulary.py:56-84 | a line sets the first field, in the code's order, whose label pattern matches it, with that pattern's value |
| Vocabulary.Set | vocabulary.py:56-84 | setting one field leaves the others as they were |
| Vocabulary.ParseWordBlock | vocabulary.py:40-95 | the loop over the block's lines computes the same entry as the specification |
| Vocabulary.LastFieldWins | vocabulary.py:50-84 | when several lines set a field, the last one wins |
| Vocabulary.UnsetFieldEmpty | vocabulary.py:43-48 | a field no line sets stays empty |
| Vocabulary.WordDefaults | vocabulary.py:86-95 | an entry exists exactly when word and translation are non-empty; a missing transcription becomes "[-]" and a missing English example "Example with WORD." |
| Vocabulary.MissingFieldsDefault | vocabulary.py:86-93 | a block without a transcription, English example or Russian example line gets that field's default |
| Vocabulary.BlockEntry | vocabulary.py:20-26 | a blank block contributes nothing; any other block contributes the block parser's entry, which has a word and a translation |
| Vocabulary.Collected | vocabulary.py:18-26 | at most one entry per block, each with a word and a translation |
| Vocabulary.ParseVocabularyResponse | vocabulary.py:12-38 | none exactly when the final word list is empty; otherwise the topic and that list |
| Vocabulary.PrimaryOrFallback | vocabulary.py:28-31 | three or more primary entries are kept; fewer are replaced by the fallback's, whatever its size |
| Vocabulary.GenerateWords | vocabulary.py:145-159 | an error reply gives its cleaned message; otherwise success exactly when words were found, and failure quotes the reply's first 300 characters |
| Vocabulary.LineEnd | vocabulary.py:103 | the end of the line a position lies on |
| Vocabulary.LastNonNewline | vocabulary.py:103 | the last character that is not a newline in a range |
| Vocabulary.DashTail | vocabulary.py:103 | the translation group is a non-empty run within one line |
| Vocabulary.BracketClose | vocabulary.py:103 | the lazy bracket group closes at the first `]` on the same line after which the dash tail matches, with no line break between the brackets; without one no `]` on that line qualifies |
| Vocabulary.BracketMatch | vocabulary.py:103 | a bracket whose first character is a line break gives no match; a match has a one-line bracket group of at least three characters and a one-line, non-empty translation |
| Vocabulary.SliceOneLine | vocabulary.py:103 | a stretch of text without a line break, cut out, is one line |
| Vocabulary.Pattern1At | vocabulary.py:103-105 | a first-pattern match at p has the whole word run as its word, either no bracket group or a one-line `[...]` of at least one character inside, and a non-empty translation within one line |
| Vocabulary.BracketOnOneLine | vocabulary.py:103 | in "ab [\n] - x" no match starts at the word, as `.` does not match a line break |
| Vocabulary.Matches1 | vocabulary.py:105 | every first-pattern match has a word and a translation |
| Vocabulary.Pattern2At | vocabulary.py:126 | a numbered-list match has a word and a translation |
| Vocabulary.Matches2 | vocabulary.py:127 | every numbered-list match has a word and a translation |
| Vocabulary.KeepFirst | vocabulary.py:107-121 | a kept first-pattern entry has a word of two or more characters that is not a stop word, the made-up example and no Russian example |
| Vocabulary.KeepSecond | vocabulary.py:129-141 | a kept list entry has a word of two or more characters, the "[-]" transcription and the made-up example |
| Vocabulary.AppendFirstEntries | vocabulary.py:107-121 | the first loop appends the kept entries in match order |
| Vocabulary.AppendSecondEntries | vocabulary.py:129-141 | the second loop appends its kept entries after the first loop's |
| Vocabulary.FallbackParse | vocabulary.py:97-143 | the two loops compute the specified fallback list |
| Vocabulary.FallbackStages | vocabulary.py:124 | the list patterns only add entries after the first pattern's, and only when that kept fewer than three |
| Vocabulary.FallbackEntryShape | vocabulary.py:107-141 | every fallback entry has the shape of the loop that made it |
| Vocabulary.VocabularyCache.constructor | vocabulary.py:7-10 | the cache starts empty |
| Vocabulary.VocabularyCache.SaveWords | vocabulary.py:161-171 | data with words is stored for this user only; data without words changes nothing and gives false |
| Vocabulary.VocabularyCache.CurrentWords | vocabulary.py:173-175 | the saved data, or none for a user with nothing saved |
| Vocabulary.FormatWordsForDisplay | vocabulary.py:177-192 | the loop over the words computes the specified display text |
| Vocabulary.DisplayListsEveryWord | vocabulary.py:184-190 | the display text lists every word under its number |
| Vocabulary.CutAt | vocabulary.py:211 | the cut falls at the first word after which the text passes 3000 characters |
| Vocabulary.CutIsFirst | vocabulary.py:211 | every text before the cut is within 3000 characters |
| Vocabulary.FormatWordsCompact | vocabulary.py:194-217 | missing data gives the not-found message; otherwise the text is the header followed by the compact list |
| Vocabulary.AppendCompactEntries | vocabulary.py:199-215 | the loop with its early break computes the specified compact list: every word up to the cut, then the count of those left out |
| Vocabulary.CompactWithinLimit | vocabulary.py:201-215 | without a cut the compact text is within 3000 characters |
| Vocabulary.CompactAfterCut | vocabulary.py:211-215 | after a cut the text is bounded by the limit (or the header, when the first word already crosses the limit) plus one word's block plus the closing count, and it names how many words were left out |
| Dialogue.Greeting | dialogue.py:30-33 | the seller greets a customer; every other role asks for products |
| Dialogue.Fresh | dialogue.py:20-36 | a new record has the two roles, counters at zero, no mistakes and the greeting as its one message |
| Dialogue.ShownReply | dialogue.py:80-81 | an error reply becomes the apology, so no error reaches the learner; other replies pass unchanged |
| Dialogue.Exchange | dialogue.py:49-86 | roles kept; the counter grows by one; the user message and the shown reply are appended; errors and mistakes are added only when the check reported some |
| Dialogue.StatsOf | dialogue.py:109-116 | the totals, and the last ten mistakes, oldest first |
| Dialogue.RecordFor | dialogue.py:45-47 | the user's record, or a fresh buyer/seller record when there is none |
| Dialogue.OutcomeOf | dialogue.py:73-100 | the shown reply; finished exactly from the tenth exchange on; statistics attached exactly when finished |
| Dialogue.FreshWellFormed | dialogue.py:20-38 | a new record's messages alternate |
| Dialogue.ExchangeWellFormed | dialogue.py:59-86 | an exchange keeps the messages alternating between the user and the model |
| Dialogue.RunCounts | dialogue.py:59-70 | each exchange adds one to the counter and two messages, and the error total never falls |
| Dialogue.FinishesAtTenth | dialogue.py:70 | a dialogue started afresh is reported finished at its tenth exchange and not before |
| Dialogue.RunErrors | dialogue.py:56-58 | the error total is the sum of the positive counts the checks reported |
| Dialogue.DialogueManager.constructor | dialogue.py:9-12 | no conversations |
| Dialogue.DialogueManager.StartDialogue | dialogue.py:14-40 | the user's record is replaced by a fresh one, others stay, and the greeting is returned |
| Dialogue.DialogueManager.SendMessage | dialogue.py:42-102 | only this user's record changes, starting one with default roles if needed, by one exchange; the result is that exchange's outcome |
| Dialogue.DialogueManager.GetStatistics | dialogue.py:104-116 | none for a user without a record; otherwise that record's statistics |
| Dialogue.DialogueManager.EndDialogue | dialogue.py:118-126 | the statistics the user had, and the record is removed while the others stay |
| Dialogue.DialogueManager.GetUserRole | dialogue.py:128-132 | the user's role, or none |
| Dialogue.DialogueManager.GetAiRole | dialogue.py:134-138 | the model's role, or none |
| Dialogue.DialogueManager.IsActive | dialogue.py:140-142 | true exactly when the user has a conversation record |
| Dialogue.DialogueManager.GetExchangeCount | dialogue.py:144-148 | the record's counter, or 0 |
| Bot.AiRoleFor | bot.py:302 | the model's role is buyer exactly when the learner sells, and it always differs from a known learner role |
| Bot.RoleFromCallback | bot.py:155 | seller exactly when the callback data contains "seller", buyer otherwise |
| Bot.AiRoleInvolution | bot.py:302 | on the two roles, the opposite of the opposite is the role itself |
| Bot.SellerButton | bot.py:155 | the seller button makes the learner the seller and the model the buyer |
| Bot.BuyerButton | bot.py:155 | the buyer button makes the learner the buyer and the model the seller |
| Bot.AnswerLabel | bot.py:240-251 | the stripped, lower-cased reply is accepted exactly when it is one of a, b, c and d |
| Bot.HandleTestAnswer | bot.py:237-255 | a reply that is not a key is refused with the prompt and leaves the session as it was; a key is submitted, recorded as one answer record, and the cursor advances; with no test running the error is "Тест не начат", past the last question "Вопрос не найден" |
| Bot.FeedbackText | bot.py:335-350 | the no-errors message appears exactly when the count is zero |
| Bot.FormatGrammarFeedback | bot.py:335-350 | the loop over the first five mistakes computes the specified feedback |
| Bot.FeedbackListsMistake | bot.py:345-348 | each of the first five mistakes has its own line |
| Bot.FeedbackShowsFirstFive | bot.py:347 | mistakes after the fifth change nothing in the message |
| Bot.FeedbackShowsCorrection | bot.py:342-343 | with errors, a non-empty corrected text is shown |
| Bot.GradeFor | bot.py:364-371 | excellent for no errors, good up to three, fair up to seven, keep practising beyond |
| Bot.GradeMonotone | bot.py:364-371 | more errors never earn a better grade |
| Bot.StatsText | bot.py:353-381 | the message is empty exactly when there are no statistics |
| Bot.FormatDialogueStatistics | bot.py:353-381 | the loop over the last five mistakes computes the specified summary |
| Bot.StatsShowGrade | bot.py:363-373 | the summary names the grade the error total earns |
| Bot.StatsListRecentMistake | bot.py:376-379 | each of the last five mistakes has its own bullet |
| Bot.RecapIsLastFive | bot.py:378 | the summary's recap is the last five mistakes the dialogue recorded, although the record keeps ten |
| Bot.Chunks | bot.py:469 | every piece is non-empty and at most the size, and all but the last have exactly the size |
| Bot.ChunksJoin | bot.py:469 | the pieces put back together give the text |
| Bot.ChunksCount | bot.py:469 | the number of pieces is the length divided by the size, rounded up |
| Bot.ReplyParts | bot.py:468-475 | a reply that fits is sent as it is; a longer one as pieces of at most 4096 characters |
| Bot.ReplyPartsJoin | bot.py:468-475 | sending the parts in order delivers the whole reply |

## Left out

- The Telegram transport (handlers, keyboards, conversation states, replies) is not modelled, apart from the helpers in `bot.py` listed above.
- The database layer (`database.py`) is not part of this model. Saving vocabulary and dialogue transcripts happens outside the model, and `EndDialogue` does not model `save_dialogue`.
- The configuration (`config.py`) is not part of this model.
- The text-generation client is not modelled: model choice, sampling settings and network errors. Its replies are parameters, and `Gemini.Reply` stands for how a response becomes a string.
- The prompts for quizzes, vocabulary and grammar checks are fixed texts sent to the backend. The model does not reproduce them.
- Dialogue.StatsOf: `errors_per_message` is a rounded float and is not modelled.
- Quiz.Score: `int((correct / total) * 100)` is floating point. The model uses the integer floor of `100 * correct / total`, which can differ from the float result by one when rounding errors cross an integer.
- Case-insensitive matching and `str.lower()` fold only ASCII and Cyrillic capitals. Other scripts are treated as having no case.
- `\w` is ASCII letters, digits, `_` and Cyrillic; `\d` is ASCII digits.
- Quiz.Matches: the fallback pattern's `(.+?)` groups are confined to lines. A match's question is all the lines since the previous match, and the four option lines must follow each other.
- Bot.AnswerLabel: `handle_test_answer` also answers "Test not found" when the user has no quiz. That is a dictionary lookup in the transport and is not modelled.
- Bot.HandleTestAnswer: the messages sent after a submission (feedback, next question, results) are transport and are not modelled.

