/** The role-play dialogue sessions (class Dialogue in dialogue.py): one record per
    user holding the message list, the exchange counter, the running error total
    and the history of reported mistakes. The grammar check of each user message
    and the model's reply are parameters; saving a finished dialogue to the
    database is not modelled. */
module Dialogue {
  import opened Text
  import opened Gemini

  /** Exchanges (one user message and one reply) after which a dialogue finishes. */
  const MaxExchanges: nat := 10

  const SellerGreeting: string := "Hello! Welcome to our store. How can I help you today?"
  const BuyerGreeting: string := "Hello! I'm looking for some products. What do you have available?"

  /** What the user is told when the backend fails. */
  const Apology: string := "Sorry, I couldn't process that." + " Could you please repeat?"

  /** How many of the latest mistakes the statistics list. */
  const RecentMistakes: nat := 10

  /** One user's dialogue record. */
  datatype Conversation = Conversation(
    userRole: string,
    aiRole: string,
    messages: seq<Message>,
    exchangeCount: nat,
    totalErrors: nat,
    errorsHistory: seq<string>)

  /** The dictionary get_statistics returns, without errors_per_message. */
  datatype Stats = Stats(totalExchanges: nat, totalErrors: nat, allMistakes: seq<string>)

  /** The dictionary send_message returns. */
  datatype Outcome = Outcome(
    response: string,
    grammarCheck: GrammarCheck,
    isFinished: bool,
    currentExchange: nat,
    maxExchanges: nat,
    stats: Option<Stats>)

  /** The model opens the dialogue in its own role: as the seller it greets a
      customer, in any other role it asks for products. */
  function Greeting(aiRole: string): (r: string)
    ensures r == SellerGreeting <==> aiRole == "seller"
    ensures r == BuyerGreeting <==> aiRole != "seller"
  {
    if aiRole == "seller" then SellerGreeting else BuyerGreeting
  }

  /** The record start_dialogue creates. */
  function Fresh(userRole: string, aiRole: string): (c: Conversation)
    ensures c.exchangeCount == 0 && c.totalErrors == 0 && c.errorsHistory == []
    ensures c.messages == [Message(Assistant, Greeting(aiRole))]
    ensures c.userRole == userRole && c.aiRole == aiRole
  {
    Conversation(userRole, aiRole, [Message(Assistant, Greeting(aiRole))], 0, 0, [])
  }

  /** The reply shown to the user: an error report from the backend is replaced by
      the apology, so it never reaches the user or the history. */
  function ShownReply(reply: string): (r: string)
    ensures !IsErrorReply(r)
    ensures !IsErrorReply(reply) ==> r == reply
    ensures IsErrorReply(reply) ==> r == Apology
  {
    if IsErrorReply(reply) then
      assert ErrorTag[0] == 'G';
      assert Apology[0] == 'S';
      Apology
    else reply
  }

  /** One send_message on an existing record: the mistakes are recorded only when
      the check reported errors, then the user's message and the reply are appended
      and the counter moves on by one. */
  function Exchange(c: Conversation, userMessage: string, check: GrammarCheck, reply: string): (r: Conversation)
    ensures r.userRole == c.userRole && r.aiRole == c.aiRole
    ensures r.exchangeCount == c.exchangeCount + 1
    ensures |r.messages| == |c.messages| + 2 && r.messages[..|c.messages|] == c.messages
    ensures r.messages[|c.messages|] == Message(User, userMessage)
    ensures r.messages[|c.messages| + 1] == Message(Assistant, ShownReply(reply))
    ensures check.errorsCount > 0 ==>
              r.totalErrors == c.totalErrors + check.errorsCount
              && r.errorsHistory == c.errorsHistory + check.mistakes
    ensures check.errorsCount <= 0 ==> r.totalErrors == c.totalErrors && r.errorsHistory == c.errorsHistory
  {
    var counted :=
      if check.errorsCount > 0 then
        c.(totalErrors := c.totalErrors + check.errorsCount, errorsHistory := c.errorsHistory + check.mistakes)
      else c;
    var r := counted.(messages := counted.messages + [Message(User, userMessage)] + [Message(Assistant, ShownReply(reply))],
                      exchangeCount := counted.exchangeCount + 1);
    assert r.messages[..|c.messages|] == c.messages;
    r
  }

  /** get_statistics for a record: the last ten mistakes, oldest first. */
  function StatsOf(c: Conversation): (s: Stats)
    ensures s.totalExchanges == c.exchangeCount && s.totalErrors == c.totalErrors
    ensures |s.allMistakes| == if |c.errorsHistory| <= RecentMistakes then |c.errorsHistory| else RecentMistakes
    ensures c.errorsHistory == c.errorsHistory[..|c.errorsHistory| - |s.allMistakes|] + s.allMistakes
  {
    var m := LastN(c.errorsHistory, RecentMistakes);
    assert c.errorsHistory[|c.errorsHistory| - |m|..] == m;
    Stats(c.exchangeCount, c.totalErrors, m)
  }

  /** The record send_message works on: the user's own, or a fresh one with the
      default roles (the user buys, the model sells). */
  function RecordFor(conversations: map<int, Conversation>, userId: int): (c: Conversation)
    ensures userId in conversations ==> c == conversations[userId]
    ensures userId !in conversations ==> c == Fresh("buyer", "seller")
  {
    if userId in conversations then conversations[userId] else Fresh("buyer", "seller")
  }

  /** The result send_message reports for the updated record. */
  function OutcomeOf(c: Conversation, check: GrammarCheck, reply: string): (o: Outcome)
    ensures o.response == ShownReply(reply)
    ensures o.isFinished <==> c.exchangeCount >= MaxExchanges
    ensures o.stats.Some? <==> o.isFinished
    ensures o.stats.Some? ==> o.stats.value == StatsOf(c)
    ensures o.currentExchange == c.exchangeCount && o.maxExchanges == MaxExchanges
    ensures o.grammarCheck == check
  {
    var finished := c.exchangeCount >= MaxExchanges;
    Outcome(ShownReply(reply), check, finished, c.exchangeCount, MaxExchanges,
            if finished then Some(StatsOf(c)) else None)
  }

  // ---------------------------------------------------------------- properties

  /** A record's messages alternate: the model's greeting, then one user message and
      one reply per exchange. */
  predicate WellFormed(c: Conversation) {
    |c.messages| == 2 * c.exchangeCount + 1
    && forall i :: 0 <= i < |c.messages| ==> (c.messages[i].role == Assistant <==> i % 2 == 0)
  }

  lemma FreshWellFormed(userRole: string, aiRole: string)
    ensures WellFormed(Fresh(userRole, aiRole))
  {
  }

  /** An exchange keeps the messages alternating. */
  lemma ExchangeWellFormed(c: Conversation, userMessage: string, check: GrammarCheck, reply: string)
    requires WellFormed(c)
    ensures WellFormed(Exchange(c, userMessage, check, reply))
  {
    var r := Exchange(c, userMessage, check, reply);
    var n := |c.messages|;
    forall i | 0 <= i < |r.messages|
      ensures r.messages[i].role == Assistant <==> i % 2 == 0
    {
      if i < n {
        assert r.messages[i] == r.messages[..n][i] == c.messages[i];
      }
    }
  }

  /** The exchanges of a dialogue, applied in order. */
  function Run(c: Conversation, turns: seq<(string, GrammarCheck, string)>): Conversation
    decreases |turns|
  {
    if turns == [] then c
    else
      var t := turns[|turns| - 1];
      Exchange(Run(c, turns[..|turns| - 1]), t.0, t.1, t.2)
  }

  /** Each exchange moves the counter by exactly one and adds exactly two messages. */
  lemma {:induction false} RunCounts(c: Conversation, turns: seq<(string, GrammarCheck, string)>)
    ensures Run(c, turns).exchangeCount == c.exchangeCount + |turns|
    ensures |Run(c, turns).messages| == |c.messages| + 2 * |turns|
    ensures Run(c, turns).totalErrors >= c.totalErrors
    decreases |turns|
  {
    if turns != [] {
      RunCounts(c, turns[..|turns| - 1]);
    }
  }

  /** A dialogue started afresh finishes at its tenth exchange and not before. */
  lemma FinishesAtTenth(userRole: string, aiRole: string, turns: seq<(string, GrammarCheck, string)>)
    requires turns != []
    ensures var last := turns[|turns| - 1];
      OutcomeOf(Run(Fresh(userRole, aiRole), turns), last.1, last.2).isFinished <==> |turns| >= MaxExchanges
  {
    RunCounts(Fresh(userRole, aiRole), turns);
  }

  /** The error total is the sum of the positive counts the checks reported. */
  function ReportedErrors(turns: seq<(string, GrammarCheck, string)>): nat
    decreases |turns|
  {
    if turns == [] then 0
    else
      var n := turns[|turns| - 1].1.errorsCount;
      ReportedErrors(turns[..|turns| - 1]) + (if n > 0 then n else 0)
  }

  lemma {:induction false} RunErrors(c: Conversation, turns: seq<(string, GrammarCheck, string)>)
    ensures Run(c, turns).totalErrors == c.totalErrors + ReportedErrors(turns)
    decreases |turns|
  {
    if turns != [] {
      RunErrors(c, turns[..|turns| - 1]);
    }
  }

  // ---------------------------------------------------------------- the sessions

  /** The dialogue sessions of all users (class Dialogue). */
  class DialogueManager {
    var conversations: map<int, Conversation>

    ghost predicate Valid()
      reads this
    {
      forall u :: u in conversations ==> WellFormed(conversations[u])
    }

    constructor()
      ensures Valid() && conversations == map[]
    {
      conversations := map[];
    }

    /** start_dialogue: any record the user had is replaced by a fresh one, and the
        model's greeting is returned. */
    method StartDialogue(userId: int, userRole: string, aiRole: string) returns (initial: string)
      requires Valid()
      modifies this
      ensures Valid()
      ensures conversations == old(conversations)[userId := Fresh(userRole, aiRole)]
      ensures initial == Greeting(aiRole)
    {
      FreshWellFormed(userRole, aiRole);
      var c := Conversation(userRole, aiRole, [], 0, 0, []);
      if aiRole == "seller" {
        initial := SellerGreeting;
      } else {
        initial := BuyerGreeting;
      }
      c := c.(messages := c.messages + [Message(Assistant, initial)]);
      assert c.messages == [Message(Assistant, Greeting(aiRole))];
      conversations := conversations[userId := c];
    }

    /** send_message, with the grammar check of the message and the model's reply as
        parameters. Only this user's record changes. */
    method SendMessage(userId: int, userMessage: string, check: GrammarCheck, reply: string) returns (result: Outcome)
      requires Valid()
      modifies this
      ensures Valid()
      ensures conversations
              == old(conversations)[userId := Exchange(RecordFor(old(conversations), userId), userMessage, check, reply)]
      ensures result == OutcomeOf(conversations[userId], check, reply)
    {
      if userId !in conversations {
        var greeting := StartDialogue(userId, "buyer", "seller");
      }
      ghost var before := conversations[userId];
      ExchangeWellFormed(before, userMessage, check, reply);
      var c := conversations[userId];
      if check.errorsCount > 0 {
        c := c.(totalErrors := c.totalErrors + check.errorsCount);
        c := c.(errorsHistory := c.errorsHistory + check.mistakes);
      }
      c := c.(messages := c.messages + [Message(User, userMessage)]);
      c := c.(exchangeCount := c.exchangeCount + 1);
      var isFinished := c.exchangeCount >= MaxExchanges;
      var response := reply;
      if StartsWith(response, ErrorTag) {
        response := Apology;
      }
      c := c.(messages := c.messages + [Message(Assistant, response)]);
      assert response == ShownReply(reply);
      assert c == Exchange(before, userMessage, check, reply);
      conversations := conversations[userId := c];
      var stats: Option<Stats> := None;
      if isFinished {
        stats := GetStatistics(userId);
      }
      result := Outcome(response, check, isFinished, c.exchangeCount, MaxExchanges, stats);
    }

    /** get_statistics: nothing for a user without a record. */
    function GetStatistics(userId: int): (s: Option<Stats>)
      reads this
      ensures s.Some? <==> userId in conversations
      ensures s.Some? ==> s.value == StatsOf(conversations[userId])
    {
      if userId in conversations then Some(StatsOf(conversations[userId])) else None
    }

    /** end_dialogue: the user's statistics, and the record is removed; other users'
        records stay as they were. */
    method EndDialogue(userId: int) returns (stats: Option<Stats>)
      requires Valid()
      modifies this
      ensures Valid()
      ensures stats == old(GetStatistics(userId))
      ensures conversations == old(conversations) - {userId}
    {
      if userId in conversations {
        stats := GetStatistics(userId);
        conversations := conversations - {userId};
        return;
      }
      stats := None;
    }

    /** get_user_role. */
    function GetUserRole(userId: int): (r: Option<string>)
      reads this
      ensures r.Some? <==> userId in conversations
      ensures r.Some? ==> r.value == conversations[userId].userRole
    {
      if userId in conversations then Some(conversations[userId].userRole) else None
    }

    /** get_ai_role. */
    function GetAiRole(userId: int): (r: Option<string>)
      reads this
      ensures r.Some? <==> userId in conversations
      ensures r.Some? ==> r.value == conversations[userId].aiRole
    {
      if userId in conversations then Some(conversations[userId].aiRole) else None
    }

    /** is_active. */
    function IsActive(userId: int): (r: bool)
      reads this
      ensures r <==> userId in conversations
    {
      userId in conversations
    }

    /** get_exchange_count: 0 for a user without a record. */
    function GetExchangeCount(userId: int): (n: nat)
      reads this
      ensures userId in conversations ==> n == conversations[userId].exchangeCount
      ensures userId !in conversations ==> n == 0
    {
      if userId in conversations then conversations[userId].exchangeCount else 0
    }
  }
}
