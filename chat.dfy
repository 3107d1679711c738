/** The read side of the message pipeline: conversation queries, the character
    lookup, the rendering of the history into the judge's prompt, and the
    normalisation of the judge's combined score. */
module Chat {
  import opened Schema
  import Leaderboard

  // ---------------------------------------------------------------------
  // Queries
  // ---------------------------------------------------------------------

  /** The `by_character_and_user` collect: the (c, u) turns in insertion order
      (`getConversationHistory`). */
  function Conversation(msgs: seq<Message>, c: CharacterId, u: UserId): (r: seq<Message>)
    ensures forall m :: m in r <==> m in msgs && m.characterId == c && m.userId == u
    ensures |r| <= |msgs|
  {
    if msgs == [] then []
    else
      var last := msgs[|msgs| - 1];
      assert msgs == msgs[..|msgs| - 1] + [last];
      Conversation(msgs[..|msgs| - 1], c, u) + (if last.characterId == c && last.userId == u then [last] else [])
  }

  /** The conversation of a concatenation is the concatenation of the
      conversations: the query keeps insertion order. */
  lemma {:induction false} ConversationAppend(a: seq<Message>, b: seq<Message>, c: CharacterId, u: UserId)
    ensures Conversation(a + b, c, u) == Conversation(a, c, u) + Conversation(b, c, u)
  {
    if b == [] {
      assert a + b == a;
    } else {
      var last := b[|b| - 1];
      assert (a + b)[..|a + b| - 1] == a + b[..|b| - 1];
      ConversationAppend(a, b[..|b| - 1], c, u);
    }
  }

  /** Appending one turn adds it to its own conversation and to no other. */
  lemma ConversationAppendOne(msgs: seq<Message>, m: Message, c: CharacterId, u: UserId)
    ensures Conversation(msgs + [m], c, u)
      == Conversation(msgs, c, u) + (if m.characterId == c && m.userId == u then [m] else [])
  {
    ConversationAppend(msgs, [m], c, u);
  }

  /** `getMessages`: the caller's conversation with c, or "Not authenticated". */
  function GetMessages(user: Option<UserId>, msgs: seq<Message>, c: CharacterId): (r: Result<seq<Message>>)
    ensures r.Err? <==> user.None?
    ensures r.Err? ==> r.error == NotAuthenticated
    ensures r.Ok? ==> forall m :: m in r.value <==> m in msgs && m.characterId == c && m.userId == user.value
    ensures r.Ok? ==> r.value == Conversation(msgs, c, user.value)
  {
    match user
    case None => Err(NotAuthenticated)
    case Some(u) => Ok(Conversation(msgs, c, u))
  }

  /** `getCharacterDetails`: `db.get`, null for an id with no document. */
  function GetCharacterDetails(chars: seq<Character>, id: CharacterId): (r: Option<Character>)
    ensures r.Some? <==> id < |chars|
    ensures r.Some? ==> r.value == chars[id]
  {
    if id < |chars| then Some(chars[id]) else None
  }

  /** Appending a character makes it the one found under the next id and
      leaves every earlier lookup as it was. */
  lemma DetailsAfterInsert(chars: seq<Character>, x: Character, id: CharacterId)
    ensures GetCharacterDetails(chars + [x], id)
      == if id == |chars| then Some(x) else GetCharacterDetails(chars, id)
  {
  }

  /** The score `sendMessage` passes on: the (u, c) row's score, or 0 when the
      user has no row for this character. */
  function CurrentScore(rows: seq<LeaderboardRow>, u: UserId, c: CharacterId): (r: real)
    ensures Leaderboard.RowFor(rows, u, c).None? ==> r == 0.0
    ensures Leaderboard.RowFor(rows, u, c).Some? ==> r == Leaderboard.RowFor(rows, u, c).value.score
  {
    match Leaderboard.RowFor(rows, u, c)
    case Some(row) => row.score
    case None => 0.0
  }

  // ---------------------------------------------------------------------
  // Rendering the history for the judge
  // ---------------------------------------------------------------------

  /** "<character name>: content" for an AI turn, "User: content" otherwise. */
  function SpeakerLine(name: string, m: Message): (r: string)
    ensures m.isAiResponse ==> r == name + ": " + m.content
    ensures !m.isAiResponse ==> r == "User: " + m.content
  {
    (if m.isAiResponse then name else "User") + ": " + m.content
  }

  /** One speaker line per turn, in stored order. */
  function SpeakerLines(name: string, msgs: seq<Message>): (r: seq<string>)
    ensures |r| == |msgs|
    ensures forall i :: 0 <= i < |msgs| ==> r[i] == SpeakerLine(name, msgs[i])
  {
    if msgs == [] then [] else [SpeakerLine(name, msgs[0])] + SpeakerLines(name, msgs[1..])
  }

  /** `Array.prototype.join("\n")`. */
  function JoinLines(lines: seq<string>): string {
    if lines == [] then ""
    else if |lines| == 1 then lines[0]
    else lines[0] + "\n" + JoinLines(lines[1..])
  }

  /** The "Previous messages" block of the prompt. */
  function RenderHistory(name: string, msgs: seq<Message>): string {
    JoinLines(SpeakerLines(name, msgs))
  }

  /** `String.prototype.split("\n")`, the inverse of `JoinLines` used to state
      what the rendered history contains. */
  function SplitLines(s: string): (r: seq<string>)
    ensures |r| >= 1
  {
    if s == "" then [""]
    else
      var rest := SplitLines(s[1..]);
      if s[0] == '\n' then [""] + rest else [[s[0]] + rest[0]] + rest[1..]
  }

  lemma {:induction false} SplitSingle(x: string)
    requires '\n' !in x
    ensures SplitLines(x) == [x]
  {
    if x != "" {
      assert forall k :: 0 <= k < |x[1..]| ==> x[1..][k] == x[k + 1];
      SplitSingle(x[1..]);
      assert [x[0]] + x[1..] == x;
    }
  }

  lemma {:induction false} SplitAtNewline(x: string, y: string)
    requires '\n' !in x
    ensures SplitLines(x + "\n" + y) == [x] + SplitLines(y)
  {
    if x == "" {
      assert x + "\n" + y == "\n" + y;
      assert ("\n" + y)[1..] == y;
    } else {
      assert (x + "\n" + y)[1..] == x[1..] + "\n" + y;
      SplitAtNewline(x[1..], y);
      assert [x[0]] + x[1..] == x;
    }
  }

  /** Splitting the join of newline-free lines gives the lines back. */
  lemma {:induction false} SplitJoin(lines: seq<string>)
    requires |lines| >= 1
    requires forall i :: 0 <= i < |lines| ==> '\n' !in lines[i]
    ensures SplitLines(JoinLines(lines)) == lines
  {
    if |lines| == 1 {
      SplitSingle(lines[0]);
    } else {
      SplitJoin(lines[1..]);
      SplitAtNewline(lines[0], JoinLines(lines[1..]));
      assert [lines[0]] + lines[1..] == lines;
    }
  }

  /** The rendered history has exactly one line per stored turn, in stored
      order, each labelled with its speaker (provided the name and the
      contents hold no line break). */
  lemma HistoryHasOneLinePerTurn(name: string, msgs: seq<Message>)
    requires |msgs| >= 1 && '\n' !in name
    requires forall i :: 0 <= i < |msgs| ==> '\n' !in msgs[i].content
    ensures |SplitLines(RenderHistory(name, msgs))| == |msgs|
    ensures forall i :: 0 <= i < |msgs| ==> SplitLines(RenderHistory(name, msgs))[i] == SpeakerLine(name, msgs[i])
  {
    var lines := SpeakerLines(name, msgs);
    forall i | 0 <= i < |lines| ensures '\n' !in lines[i] {
      assert lines[i] == (if msgs[i].isAiResponse then name else "User") + ": " + msgs[i].content;
    }
    SplitJoin(lines);
  }

  /** A stored reply with a line break in it renders as two lines: the
      history does not keep one line per turn once a turn's content holds
      "\n", which a judge reply stored verbatim may. */
  lemma MultiLineTurnSplits(name: string, c: CharacterId, u: UserId, score: real)
    requires '\n' !in name
    ensures var turn := AiTurn(c, u, "a\nb", score);
      SplitLines(RenderHistory(name, [turn])) == [name + ": a", "b"]
  {
    var turn := AiTurn(c, u, "a\nb", score);
    assert SpeakerLine(name, turn) == name + ": " + "a\nb";
    assert name + ": " + "a\nb" == (name + ": a") + "\n" + "b";
    assert RenderHistory(name, [turn]) == (name + ": a") + "\n" + "b";
    SplitAtNewline(name + ": a", "b");
    SplitSingle("b");
  }

  // ---------------------------------------------------------------------
  // `generateResponse`, up to the mutation it runs
  // ---------------------------------------------------------------------

  /** What the judge is given: the persona, the current affection score and
      the rendered history (the surrounding instruction text is fixed). */
  datatype Prompt = Prompt(character: Character, currentScore: real, history: string)

  /** The judge's structured answer `{message, scores}`. */
  datatype JudgeReply = JudgeReply(message: string, scores: real)

  /** The turn `generateResponse` asks `saveAiResponse` to store. */
  datatype AiReply = AiReply(content: string, score: real)

  /** The judge's combined score divided by 3; no range check is applied. */
  function Normalize(scores: real): (r: real)
    ensures 3.0 * r == scores
    ensures -30.0 <= scores <= 30.0 ==> -10.0 <= r <= 10.0
    ensures (r == 0.0) <==> (scores == 0.0)
  {
    scores / 3.0
  }

  /** The prompt built for (c, u) from the stored turns. */
  function PromptFor(character: Character, currentScore: real, msgs: seq<Message>, c: CharacterId, u: UserId): Prompt {
    Prompt(character, currentScore, RenderHistory(character.name, Conversation(msgs, c, u)))
  }

  /** `generateResponse` before its write: "Character not found" when the
      character is missing, otherwise the judge's reply to the prompt built from
      the (c, u) history, with its score divided by 3. */
  function ResponseFor(chars: seq<Character>, msgs: seq<Message>, c: CharacterId, u: UserId,
                       currentScore: real, judge: Prompt -> JudgeReply): (r: Result<AiReply>)
    ensures r.Err? <==> c >= |chars|
    ensures r.Err? ==> r.error == CharacterNotFound
    ensures r.Ok? ==>
      var reply := judge(PromptFor(chars[c], currentScore, msgs, c, u));
      r.value.content == reply.message && 3.0 * r.value.score == reply.scores
  {
    match GetCharacterDetails(chars, c)
    case None => Err(CharacterNotFound)
    case Some(character) =>
      var reply := judge(PromptFor(character, currentScore, msgs, c, u));
      Ok(AiReply(reply.message, Normalize(reply.scores)))
  }
}
