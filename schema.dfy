/** Record shapes of the four application tables, the key lookups the tables
    support, and the shapes of the two scheduled tasks. */
module Schema {

  datatype Option<+T> = None | Some(value: T)

  /** Users come from the authentication tables; only their id is used. */
  type UserId = string

  /** Characters are never deleted, so a character is identified by its
      position in insertion order. */
  type CharacterId = nat

  datatype Preferences = Preferences(likes: seq<string>, dislikes: seq<string>)

  /** `activeDate` is optional here: the only writer of this table never sets it. */
  datatype Character = Character(
    name: string,
    personality: string,
    background: string,
    interests: seq<string>,
    preferences: Preferences,
    activeDate: Option<string>)

  /** One conversation turn. */
  datatype Message = Message(
    characterId: CharacterId,
    userId: UserId,
    content: string,
    score: Option<real>,
    isAiResponse: bool)

  /** A per-(user, character) leaderboard row; `characterId` is optional in the
      table (older rows have none). */
  datatype LeaderboardRow = LeaderboardRow(
    userId: UserId,
    score: real,
    messageCount: int,
    characterId: Option<CharacterId>)
  {
    /** The `by_user_and_character` index lookup for (u, c) selects this row. */
    predicate HasKey(u: UserId, c: CharacterId) {
      userId == u && characterId == Some(c)
    }
  }

  /** A user's cross-character total; it carries no message count. */
  datatype GlobalRow = GlobalRow(userId: UserId, totalScore: real)

  /** `.unique()` on `by_user_and_character`: at most one row per key. */
  ghost predicate UniqueKeys(rows: seq<LeaderboardRow>) {
    forall i, j :: 0 <= i < j < |rows| ==>
      rows[i].userId != rows[j].userId || rows[i].characterId != rows[j].characterId
  }

  /** `.unique()` on `by_user`: at most one global row per user. */
  ghost predicate UniqueUsers(rows: seq<GlobalRow>) {
    forall i, j :: 0 <= i < j < |rows| ==> rows[i].userId != rows[j].userId
  }

  /** Arguments of the two functions the pipeline schedules with zero delay. */
  datatype Task =
    | GenerateResponseTask(characterId: CharacterId, userId: UserId, currentScore: real)
    | UpdateLeaderboardTask(characterId: CharacterId, userId: UserId, score: real)

  /** The errors the modelled operations throw. */
  datatype ChatError = NotAuthenticated | CharacterNotFound

  datatype Result<+T> = Ok(value: T) | Err(error: ChatError)

  /** The user turn that `sendMessage` stores. */
  function UserTurn(c: CharacterId, u: UserId, text: string): Message {
    Message(c, u, text, None, false)
  }

  /** The AI turn that `saveAiResponse` stores. */
  function AiTurn(c: CharacterId, u: UserId, text: string, score: real): Message {
    Message(c, u, text, Some(score), true)
  }
}
