/** The document store the backend runs against, with each mutation and
    action of the pipeline as one atomic method. Scheduling a function with
    zero delay appends its arguments to `scheduled`. */
module Store {
  import opened Schema
  import opened Leaderboard
  import Chat
  import Characters

  /** One write, in the order the store performs them. */
  datatype Write =
    | InsertedMessage(message: Message)
    | ScheduledTask(task: Task)
    | UpsertedRow(userId: UserId, characterId: CharacterId)
    | UpsertedTotal(userId: UserId)
    | InsertedCharacter(character: Character)

  class Store {
    var characters: seq<Character>
    var messages: seq<Message>
    var leaderboard: seq<LeaderboardRow>
    var globalLeaderboard: seq<GlobalRow>
    /** Tasks handed to the scheduler, oldest first. */
    var scheduled: seq<Task>
    /** Every `updateLeaderboard` call so far, oldest first. */
    ghost var awards: seq<Award>
    /** Every write so far, oldest first. */
    ghost var log: seq<Write>

    /** The two leaderboard tables are exactly what the recorded calls of
        `updateLeaderboard` produce from empty tables. */
    ghost predicate Valid()
      reads this
    {
      leaderboard == ReplayRows(awards) && globalLeaderboard == ReplayTotals(awards)
    }

    /** A fresh deployment: every table and the queue of scheduled calls empty. */
    constructor ()
      ensures Valid()
      ensures characters == [] && messages == [] && leaderboard == [] && globalLeaderboard == []
      ensures scheduled == [] && awards == [] && log == []
    {
      characters, messages, leaderboard, globalLeaderboard := [], [], [], [];
      scheduled, awards, log := [], [], [];
    }

    /** The table invariants every valid state has: one row per key in both
        leaderboards, per-user sums equal to the global totals, every message
        count at least 1, and each row's count and score being the number and
        sum of the calls for its key. */
    lemma Invariants(u: UserId, c: CharacterId)
      requires Valid()
      ensures UniqueKeys(leaderboard) && UniqueUsers(globalLeaderboard)
      ensures Balanced(leaderboard, globalLeaderboard) && CountsPositive(leaderboard)
      ensures RowFor(leaderboard, u, c)
        == if KeyCount(awards, u, c) == 0 then None
           else Some(LeaderboardRow(u, KeySum(awards, u, c), KeyCount(awards, u, c), Some(c)))
      ensures TotalFor(globalLeaderboard, u)
        == if UserCount(awards, u) == 0 then None else Some(GlobalRow(u, UserSum(awards, u)))
    {
      ReplayInvariants(awards);
      ReplayRowFor(awards, u, c);
      ReplayTotalFor(awards, u);
    }

    /** The score `sendMessage` forwards is the sum of every score credited
        so far to this user and character (0 before the first). */
    lemma CurrentScoreIsCreditSum(u: UserId, c: CharacterId)
      requires Valid()
      ensures Chat.CurrentScore(leaderboard, u, c) == KeySum(awards, u, c)
    {
      Invariants(u, c);
      if KeyCount(awards, u, c) == 0 {
        KeySumOfNoCalls(awards, u, c);
      }
    }

    /** `sendMessage`: "Not authenticated" before any write; otherwise the
        message stored verbatim as a user turn, then one `generateResponse`
        scheduled with the user's current score for this character. */
    method SendMessage(user: Option<UserId>, characterId: CharacterId, message: string) returns (r: Result<()>)
      requires Valid()
      modifies this
      ensures Valid()
      ensures user.None? ==> r == Err(NotAuthenticated) && unchanged(this)
      ensures user.Some? ==>
        var turn := UserTurn(characterId, user.value, message);
        var task := GenerateResponseTask(characterId, user.value,
                                     Chat.CurrentScore(old(leaderboard), user.value, characterId));
        && r == Ok(())
        && messages == old(messages) + [turn]
        && scheduled == old(scheduled) + [task]
        && log == old(log) + [InsertedMessage(turn), ScheduledTask(task)]
        && characters == old(characters) && leaderboard == old(leaderboard)
        && globalLeaderboard == old(globalLeaderboard) && awards == old(awards)
    {
      if user.None? {
        return Err(NotAuthenticated);
      }
      var userId := user.value;
      var turn := UserTurn(characterId, userId, message);
      messages := messages + [turn];
      log := log + [InsertedMessage(turn)];
      var currentScore := Chat.CurrentScore(leaderboard, userId, characterId);
      var task := GenerateResponseTask(characterId, userId, currentScore);
      scheduled := scheduled + [task];
      log := log + [ScheduledTask(task)];
      r := Ok(());
    }

    /** `generateResponse`: "Character not found" before any write; otherwise
        the judge is asked with the prompt built from the stored (c, u)
        history and its reply is saved through `SaveAiResponse`, score divided
        by 3. */
    method GenerateResponse(characterId: CharacterId, userId: UserId, currentScore: real,
                            judge: Chat.Prompt -> Chat.JudgeReply) returns (r: Result<()>)
      requires Valid()
      modifies this
      ensures Valid()
      ensures characterId >= |old(characters)| ==> r == Err(CharacterNotFound) && unchanged(this)
      ensures characterId < |old(characters)| ==>
        var reply := judge(Chat.PromptFor(old(characters)[characterId], currentScore, old(messages), characterId, userId));
        var turn := AiTurn(characterId, userId, reply.message, reply.scores / 3.0);
        var task := UpdateLeaderboardTask(characterId, userId, reply.scores / 3.0);
        && r == Ok(())
        && messages == old(messages) + [turn]
        && scheduled == old(scheduled) + [task]
        && log == old(log) + [InsertedMessage(turn), ScheduledTask(task)]
        && characters == old(characters) && leaderboard == old(leaderboard)
        && globalLeaderboard == old(globalLeaderboard) && awards == old(awards)
    {
      var response := Chat.ResponseFor(characters, messages, characterId, userId, currentScore, judge);
      match response {
        case Err(e) =>
          r := Err(e);
        case Ok(reply) =>
          SaveAiResponse(characterId, userId, reply.content, reply.score);
          r := Ok(());
      }
    }

    /** `saveAiResponse`: the AI turn with its score stored, then one
        `updateLeaderboard` with the same character, user and score scheduled. */
    method SaveAiResponse(characterId: CharacterId, userId: UserId, content: string, score: real)
      requires Valid()
      modifies this
      ensures Valid()
      ensures var turn := AiTurn(characterId, userId, content, score);
        var task := UpdateLeaderboardTask(characterId, userId, score);
        && messages == old(messages) + [turn]
        && scheduled == old(scheduled) + [task]
        && log == old(log) + [InsertedMessage(turn), ScheduledTask(task)]
      ensures characters == old(characters) && leaderboard == old(leaderboard)
      ensures globalLeaderboard == old(globalLeaderboard) && awards == old(awards)
    {
      var turn := AiTurn(characterId, userId, content, score);
      messages := messages + [turn];
      log := log + [InsertedMessage(turn)];
      var task := UpdateLeaderboardTask(characterId, userId, score);
      scheduled := scheduled + [task];
      log := log + [ScheduledTask(task)];
    }

    /** `updateLeaderboard`: read the (u, c) row and u's global row, then patch
        or insert each; the call is recorded in `awards`. */
    method UpdateLeaderboard(characterId: CharacterId, userId: UserId, score: real)
      requires Valid()
      modifies this
      ensures Valid()
      ensures leaderboard == CreditCharacter(old(leaderboard), userId, characterId, score)
      ensures globalLeaderboard == CreditGlobal(old(globalLeaderboard), userId, score)
      ensures awards == old(awards) + [Award(characterId, userId, score)]
      ensures log == old(log) + [UpsertedRow(userId, characterId), UpsertedTotal(userId)]
      ensures characters == old(characters) && messages == old(messages) && scheduled == old(scheduled)
    {
      var award := Award(characterId, userId, score);
      ReplayOneMore(awards, award);
      UpsertRow(characterId, userId, score);
      UpsertTotal(userId, score);
      awards := awards + [award];
    }

    /** The first half of `updateLeaderboard`: patch the (u, c) row to old + s
        and old count + 1, or insert {s, 1, u, c}. */
    method UpsertRow(characterId: CharacterId, userId: UserId, score: real)
      modifies this
      ensures leaderboard == CreditCharacter(old(leaderboard), userId, characterId, score)
      ensures log == old(log) + [UpsertedRow(userId, characterId)]
      ensures globalLeaderboard == old(globalLeaderboard) && awards == old(awards)
      ensures characters == old(characters) && messages == old(messages) && scheduled == old(scheduled)
    {
      var row := FindRow(leaderboard, userId, characterId);
      match row {
        case Some(i) =>
          leaderboard := leaderboard[i := leaderboard[i].(score := leaderboard[i].score + score,
                                                          messageCount := leaderboard[i].messageCount + 1)];
        case None =>
          leaderboard := leaderboard + [LeaderboardRow(userId, score, 1, Some(characterId))];
      }
      log := log + [UpsertedRow(userId, characterId)];
    }

    /** The second half of `updateLeaderboard`: add s to u's global total, or
        insert {s, u}. */
    method UpsertTotal(userId: UserId, score: real)
      modifies this
      ensures globalLeaderboard == CreditGlobal(old(globalLeaderboard), userId, score)
      ensures log == old(log) + [UpsertedTotal(userId)]
      ensures leaderboard == old(leaderboard) && awards == old(awards)
      ensures characters == old(characters) && messages == old(messages) && scheduled == old(scheduled)
    {
      var total := FindTotal(globalLeaderboard, userId);
      match total {
        case Some(j) =>
          globalLeaderboard := globalLeaderboard[j := globalLeaderboard[j].(totalScore := globalLeaderboard[j].totalScore + score)];
        case None =>
          globalLeaderboard := globalLeaderboard + [GlobalRow(userId, score)];
      }
      log := log + [UpsertedTotal(userId)];
    }

    /** `createNewCharacter`: exactly one character appended with the given
        fields; existing characters are untouched. */
    method CreateNewCharacter(name: string, personality: string, background: string,
                              interests: seq<string>, preferences: Preferences)
      requires Valid()
      modifies this
      ensures Valid()
      ensures var created := Characters.NewCharacter(name, personality, background, interests, preferences);
        && characters == old(characters) + [created]
        && log == old(log) + [InsertedCharacter(created)]
        && Chat.GetCharacterDetails(characters, |old(characters)|) == Some(created)
      ensures forall id: CharacterId :: id < |old(characters)| ==>
        Chat.GetCharacterDetails(characters, id) == Chat.GetCharacterDetails(old(characters), id)
      ensures messages == old(messages) && leaderboard == old(leaderboard)
      ensures globalLeaderboard == old(globalLeaderboard) && scheduled == old(scheduled) && awards == old(awards)
    {
      var created := Characters.NewCharacter(name, personality, background, interests, preferences);
      characters := characters + [created];
      log := log + [InsertedCharacter(created)];
    }
  }
}
