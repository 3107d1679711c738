# Dating-game scoring pipeline, modelled in Dafny

The backend keeps four tables:
- characters;
- messages, the conversation turns;
- leaderboard, one row per (user, character) holding a score and a message count;
- globalLeaderboard, one row per user holding a total score.

The message pipeline works like this:
1. A player's message is stored by `sendMessage`.
2. That schedules `generateResponse`, which builds a prompt from the character and the stored conversation and asks an AI judge for a reply and a combined score.
3. `saveAiResponse` stores the reply with the score divided by 3 and schedules `updateLeaderboard`.
4. `updateLeaderboard` adds the score to the player's row for that character and to the player's global row. It inserts either row when it is missing.

The chat screen trims and sends the input while showing an "AI is replying" flag. It also shows a countdown to the next character, an affection bar, a message-count caption and a score badge on each turn.

The model is one in-memory store, the class `Store.Store`:
- The four tables and the queue of scheduled tasks are sequence fields.
- Each table is kept in insertion order, which is `_creationTime` order.
- Each mutation is one atomic method.
- Scheduling a function with zero delay appends a task to `scheduled`.

Two ghost fields record history:
- `awards` records every `updateLeaderboard` call.
- `log` records every write in order.

The class invariant `Valid()` says both leaderboard tables are exactly the replay of `awards` from empty tables. From that follow the properties the `.unique()` lookups and the totals rely on:
- at most one row per key in each table;
- each user's per-character scores sum to their global total;
- each row's count and score are the number and the sum of the calls for its key.

Queries and the client-side helpers are functions. The chat form is the class `GameChat.ChatForm`, whose send handler drives the store.

Modules:
- `Schema` (schema.dfy): the records, keys, task and error types.
- `Tables` (tables.dfy): descending reads.
- `Leaderboard` (leaderboard.dfy): the upserts, the invariants and `getLeaderboard`.
- `Chat` (chat.dfy): the queries, the history rendering and the judge step.
- `Characters` (characters.dfy): the character queries.
- `Store` (store.dfy): the store and its mutations.
- `GameChat` (gamechat.dfy): the chat screen's logic.

Where the schema and the code disagree, the model follows the code. The schema requires `activeDate` on every character, but `createNewCharacter` never sets it, so `activeDate` is an `Option` and newly created characters have none.

Ids:
- Character ids are positions in the characters table. Characters are never deleted, so a position is never reused.
- User ids are strings, because `getLeaderboard` takes their first six characters.

## Model

| member | source | states |
|---|---|---|
| Tables.NewestFirst | convex/characters.ts:7-10 | a descending read returns every document of the table, the newest first |
| Tables.TakeNewest | convex/leaderboard.ts:10-13 | a descending read limited to n returns min(n, size) documents, the newest first |
| Leaderboard.FindRow | convex/leaderboard.ts:31 | the (user, character) lookup finds a row with that key, or reports that no row has it |
| Leaderboard.FindTotal | convex/leaderboard.ts:32 | the by-user lookup finds a global row for that user, or reports that no row has it |
| Leaderboard.RowForMatch | convex/schema.ts:35 | when keys are unique, the (user, character) lookup returns exactly the row carrying that key |
| Leaderboard.TotalForMatch | convex/schema.ts:40 | when users are unique, the by-user lookup returns exactly that user's global row |
| Leaderboard.CreditCharacterEffect | convex/leaderboard.ts:34-45 | an existing row gets score old + s and count old + 1, and a missing key gets exactly one new row {s, 1, u, c}; keys stay unique |
| Leaderboard.CreditCharacterOthers | convex/leaderboard.ts:31-45 | rows of every other (user, character) key are unchanged |
| Leaderboard.CreditGlobalEffect | convex/leaderboard.ts:48-52 | the user's total becomes old + s, or one row {s} is inserted; users stay unique |
| Leaderboard.CreditGlobalOthers | convex/leaderboard.ts:48-52 | other users' global rows are unchanged |
| Leaderboard.RowForAfterCredit | convex/leaderboard.ts:31-45 | after one call, the (u, c) lookup is credited once when the call was for (u, c), and unchanged otherwise |
| Leaderboard.TotalForAfterCredit | convex/leaderboard.ts:32-52 | after one call, the user's global lookup is credited once when the call was for that user, and unchanged otherwise |
| Leaderboard.CreditTwice | convex/leaderboard.ts:30-53 | two calls with the same s add 2s and 2 to the row, and the second call changes the row again (the upsert is not idempotent) |
| Leaderboard.CreditCharacterUserTotal | convex/leaderboard.ts:34-45 | the per-character upsert raises the user's sum of per-character scores by s and leaves every other user's sum unchanged |
| Leaderboard.CreditGlobalTotal | convex/leaderboard.ts:48-52 | the global upsert raises the user's total by s and leaves every other user's total unchanged |
| Leaderboard.CreditPreservesBalance | convex/leaderboard.ts:34-52 | if every user's per-character scores sum to their global total before a call, they still do after it |
| Leaderboard.CreditPreservesCounts | convex/leaderboard.ts:37-42 | if every message count is at least 1 before a call, it still is after it |
| Leaderboard.ReplayUnique | convex/leaderboard.ts:31-32 | starting from empty tables, any sequence of calls keeps one row per (user, character) key and one global row per user, as the two `.unique()` lookups require |
| Leaderboard.ReplayInvariants | convex/leaderboard.ts:30-53 | starting from empty tables, any sequence of calls leaves unique keys, balanced per-user sums and every count at least 1 |
| Leaderboard.ReplayRowFor | convex/leaderboard.ts:34-45 | after any calls from empty tables, the (u, c) row is absent when no call had that key, and otherwise holds the sum of their scores and their number as messageCount |
| Leaderboard.ReplayTotalFor | convex/leaderboard.ts:48-52 | after any calls from empty tables, the user's global row is absent when the user had no call, and otherwise holds the sum of their scores |
| Leaderboard.Username | convex/leaderboard.ts:18 | the display name is "Player " followed by a prefix of the user id of length min(6, its length) |
| Leaderboard.GetLeaderboard | convex/leaderboard.ts:10-19 | min(10, size) rows, newest row first (by creation, not by score), each with its derived username |
| Chat.Conversation | convex/chat.ts:150-156 | a message is in the result iff it is stored with that character and user |
| Chat.ConversationAppend | convex/chat.ts:150-156 | the query keeps insertion order: the conversation of a + b is that of a followed by that of b |
| Chat.ConversationAppendOne | convex/chat.ts:59-64 | storing one turn adds it at the end of its own conversation and to no other conversation |
| Chat.GetMessages | convex/chat.ts:34-46 | "Not authenticated" exactly when there is no user; otherwise exactly the caller's turns with that character, in stored order |
| Chat.GetCharacterDetails | convex/chat.ts:139-141 | the character stored under the id, or null exactly when there is none |
| Chat.DetailsAfterInsert | convex/chat.ts:139-141 | after a character is appended, the next id finds it and every other id finds what it found before |
| Chat.CurrentScore | convex/chat.ts:66-74 | the score of the (user, character) row, or 0 when the user has no row |
| Store.Store.CurrentScoreIsCreditSum | convex/chat.ts:66-74 | in a consistent store, the score forwarded to the judge is the sum of every score credited to that user and character so far |
| Chat.SpeakerLine | convex/chat.ts:109 | "<character name>: content" for an AI turn, "User: content" otherwise |
| Chat.SpeakerLines | convex/chat.ts:109 | one speaker line per turn, in stored order |
| Chat.SplitJoin | convex/chat.ts:109 | for a non-empty list of newline-free lines, splitting their newline join at newlines gives the lines back |
| Chat.HistoryHasOneLinePerTurn | convex/chat.ts:109 | for a non-empty history whose character name and turn contents hold no line break, the rendered history has exactly one line per stored turn, in stored order, labelled by speaker |
| Chat.MultiLineTurnSplits | convex/chat.ts:109 | a single stored reply "a\nb" renders as two lines, so one line per turn fails once a content holds a line break |
| Chat.Normalize | convex/chat.ts:128 | the saved score times 3 is the judge's score, and it is zero iff the judge's score is; a judge score in [-30, 30] gives [-10, 10] |
| Chat.ResponseFor | convex/chat.ts:87-129 | "Character not found" exactly when the character is missing; otherwise the judge's message, with its score divided by 3, for the prompt built from that character and the (c, u) history |
| Characters.GetActiveCharacter | convex/characters.ts:7-16 | every character, newest first; an empty table gives an empty list |
| Characters.GetPreviousCharacter | convex/characters.ts:23-32 | the same list as `getActiveCharacter` |
| Store.Store.constructor | convex/schema.ts:5-41 | a fresh deployment has empty tables and an empty queue, and satisfies the invariant |
| Store.Store.Invariants | convex/leaderboard.ts:31-52 | every valid store has unique keys in both tables, balanced per-user sums and counts of at least 1; each row's count and score are the number and the sum of the calls for its key |
| Store.Store.SendMessage | convex/chat.ts:55-76 | without a user, "Not authenticated" and nothing written; otherwise the text is stored verbatim as a user turn with no score, then one generateResponse task is queued with the current score; the message is written before the call is queued, and the leaderboards are untouched |
| Store.Store.GenerateResponse | convex/chat.ts:85-132 | a missing character gives "Character not found" and nothing written; otherwise the judge's reply is stored as an AI turn with the score divided by 3, and one updateLeaderboard task is queued |
| Store.Store.SaveAiResponse | convex/chat.ts:167-182 | one AI turn with the given score is stored, then one updateLeaderboard task with the same character, user and score is queued |
| Store.Store.UpdateLeaderboard | convex/leaderboard.ts:30-53 | both tables become their upserted versions and nothing else changes; the invariant is kept |
| Store.Store.UpsertRow | convex/leaderboard.ts:34-45 | the per-character table becomes its upserted version; every other table is untouched |
| Store.Store.UpsertTotal | convex/leaderboard.ts:48-52 | the global table becomes its upserted version; every other table is untouched |
| Store.Store.CreateNewCharacter | convex/characters.ts:47-58 | exactly one character is appended with the given fields and no activeDate; `getCharacterDetails` finds it under the next id and finds every earlier character as before; all other tables are untouched |
| GameChat.ContentStart | src/GameChat.tsx:69 | the first position that is not white space, with only white space before it |
| GameChat.ContentEnd | src/GameChat.tsx:69 | the position just after the last character that is not white space, with only white space after it |
| GameChat.Trim | src/GameChat.tsx:69 | the result is a slice of the input with only white space around it and none at its ends; it is empty iff the input is all white space |
| GameChat.TrimIdempotent | src/GameChat.tsx:75 | trimming the trimmed text changes nothing |
| GameChat.ChatForm.HandleSendMessage | src/GameChat.tsx:67-83 | without a selection or with a blank input, nothing happens; otherwise the flag is raised, the trimmed text is sent, the input is cleared only on success, and the flag ends lowered; a signed-in send stores the user turn, queues the reply call with the current score and logs both, while a send with no user changes nothing in the store |
| GameChat.NatToString | src/GameChat.tsx:40 | decimal digits with no leading zero except for 0 itself, a single digit exactly below 10, at most two digits below 100 |
| GameChat.ParseNatToString | src/GameChat.tsx:40 | the decimal text of n reads back as n |
| GameChat.ParseLeadingZero | src/GameChat.tsx:40 | a leading '0' does not change the value read |
| GameChat.Pad2 | src/GameChat.tsx:40 | at least two digits, exactly two below 100, reading back as n; unchanged from the plain decimal text from 10 up |
| GameChat.Latest | src/GameChat.tsx:30 | the greatest creation time, which is one of those given |
| GameChat.Remaining | src/GameChat.tsx:35-36 | expiry minus now, clamped at 0 |
| GameChat.Breakdown | src/GameChat.tsx:37-39 | minutes and seconds under 60, and the clock reading lies within the second below the remaining time |
| GameChat.BreakdownUnique | src/GameChat.tsx:37-39 | no other reading with minutes and seconds under 60 lies within that second |
| GameChat.ClockTextReadsBack | src/GameChat.tsx:40 | the HH:MM:SS text has colons at the last-but-5 and last-but-2 positions and digit fields that read back as the clock |
| GameChat.ZeroClockText | src/GameChat.tsx:35-40 | no remaining time reads as 00:00:00 |
| GameChat.Countdown | src/GameChat.tsx:28-40 | no countdown exactly when there is no character |
| GameChat.CountdownReadsBack | src/GameChat.tsx:28-40 | the countdown reads back as the time left until 24 hours after the newest character, to the second below, and shows 00:00:00 once that time has passed |
| GameChat.PercentageScore | src/GameChat.tsx:186 | 0 without a row, 100 above 50, 2·\|score\| otherwise; it stays within 100 iff there is no row or the score is at least -50 |
| GameChat.BarIsPink | src/GameChat.tsx:205 | the bar is pink iff there is a row with a positive score; a red bar with a non-zero width means a negative score |
| GameChat.MessageCountLabel | src/GameChat.tsx:209 | no caption without a row; "1 message" for 1; for N > 1 the decimal text of N, with no leading zero and reading back as N, followed by " messages"; "No messages" otherwise |
| GameChat.ScoreShown | src/GameChat.tsx:142-144 | a turn's badge shows iff it has a score and that score is non-zero |
| GameChat.BadgeFollowsJudge | src/GameChat.tsx:142-144 | a stored AI turn shows its badge exactly when the judge's summed scores were non-zero; a user turn never shows one |

## Left out

- The AI judge, which is the `generateObject` call with its retries, is a total function parameter. A judge failure or a malformed reply is not modelled, and neither is the prompt's fixed instruction text or its rendering of the persona and the score. The prompt carries the character, the current score and the rendered history.
- The scheduler only queues tasks. Which task runs when is up to the caller of the store methods. Concurrent tasks, and the lost update two concurrent `updateLeaderboard` calls could cause, are not modelled.
- Authentication internals are out of scope. The signed-in user is an optional id argument.
- Argument validation of mutations is not modelled: id format and the number type.
- Scores are real numbers. IEEE rounding, NaN and `toFixed(1)` on the badge are not modelled.
- `_creationTime` is an integer millisecond count. The store's fractional part cannot change the floor divisions of the countdown.
- `Date.now`, `setInterval`, scrolling, locale date formatting and all JSX/CSS rendering are left out. `now` is a parameter.
- The cron job that creates a character a day is not part of this model, and neither is its character-generation prompt. `CreateNewCharacter` models the insert it performs.
- `getAllUserLeaderboards` is called by the chat screen but is not defined in the leaderboard module. The bar, colour and caption therefore take the row it would have found as an argument.
- Strings are sequences of characters. `slice(0, 6)` counts UTF-16 code units, and the model counts characters.
- GameChat.ChatForm.HandleSendMessage: the only send failure modelled is "Not authenticated". Network and transport failures, which the handler also catches, are not modelled.
- Chat.HistoryHasOneLinePerTurn: holds only when no turn's content and not the character name contains a line break. A judge reply is stored verbatim and may contain one, and then a turn spans several lines.
- GameChat.ScoreShown: `{msg.score && …}` renders the number 0 as the text "0" when a score is zero. The model only says the badge is not shown.
- Store.Store.GenerateResponse: a missing character is the only failure modelled. A judge error aborts the action before any write and is not represented.
