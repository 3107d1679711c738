/** The leaderboard aggregator: the keyed lookups, the per-character and
    global upserts of `updateLeaderboard`, the capped newest-first listing of
    `getLeaderboard`, and the additive invariants the upserts keep. */
module Leaderboard {
  import opened Schema
  import Tables

  // ---------------------------------------------------------------------
  // Keyed lookups (`withIndex(...).unique()`)
  // ---------------------------------------------------------------------

  /** Position of the `by_user_and_character` row for (u, c), if any. */
  function FindRow(rows: seq<LeaderboardRow>, u: UserId, c: CharacterId): (r: Option<nat>)
    ensures r.Some? ==> r.value < |rows| && rows[r.value].HasKey(u, c)
    ensures r.None? ==> forall i :: 0 <= i < |rows| ==> !rows[i].HasKey(u, c)
  {
    if rows == [] then None
    else if rows[|rows| - 1].HasKey(u, c) then Some(|rows| - 1)
    else FindRow(rows[..|rows| - 1], u, c)
  }

  /** The row `.unique()` returns for (u, c), or null. */
  function RowFor(rows: seq<LeaderboardRow>, u: UserId, c: CharacterId): Option<LeaderboardRow> {
    match FindRow(rows, u, c)
    case Some(i) => Some(rows[i])
    case None => None
  }

  /** Position of the `by_user` global row for u, if any. */
  function FindTotal(totals: seq<GlobalRow>, u: UserId): (r: Option<nat>)
    ensures r.Some? ==> r.value < |totals| && totals[r.value].userId == u
    ensures r.None? ==> forall i :: 0 <= i < |totals| ==> totals[i].userId != u
  {
    if totals == [] then None
    else if totals[|totals| - 1].userId == u then Some(|totals| - 1)
    else FindTotal(totals[..|totals| - 1], u)
  }

  /** The global row `.unique()` returns for u, or null. */
  function TotalFor(totals: seq<GlobalRow>, u: UserId): Option<GlobalRow> {
    match FindTotal(totals, u)
    case Some(i) => Some(totals[i])
    case None => None
  }

  /** Under the uniqueness invariant the lookup finds exactly the matching row. */
  lemma RowForMatch(rows: seq<LeaderboardRow>, u: UserId, c: CharacterId, i: nat)
    requires UniqueKeys(rows) && i < |rows| && rows[i].HasKey(u, c)
    ensures RowFor(rows, u, c) == Some(rows[i])
  {
  }

  lemma TotalForMatch(totals: seq<GlobalRow>, u: UserId, i: nat)
    requires UniqueUsers(totals) && i < |totals| && totals[i].userId == u
    ensures TotalFor(totals, u) == Some(totals[i])
  {
  }

  // ---------------------------------------------------------------------
  // The two upserts of `updateLeaderboard`
  // ---------------------------------------------------------------------

  /** The per-character row after one credit of s: patched to old + s and
      old count + 1, or a fresh row with count 1. */
  function Credited(existing: Option<LeaderboardRow>, u: UserId, c: CharacterId, s: real): LeaderboardRow {
    match existing
    case Some(e) => e.(score := e.score + s, messageCount := e.messageCount + 1)
    case None => LeaderboardRow(u, s, 1, Some(c))
  }

  /** The `leaderboard` table after the first half of `updateLeaderboard`. */
  function CreditCharacter(rows: seq<LeaderboardRow>, u: UserId, c: CharacterId, s: real): seq<LeaderboardRow> {
    match FindRow(rows, u, c)
    case Some(i) => rows[i := Credited(Some(rows[i]), u, c, s)]
    case None => rows + [Credited(None, u, c, s)]
  }

  /** The `globalLeaderboard` table after the second half of `updateLeaderboard`. */
  function CreditGlobal(totals: seq<GlobalRow>, u: UserId, s: real): seq<GlobalRow> {
    match FindTotal(totals, u)
    case Some(i) => totals[i := totals[i].(totalScore := totals[i].totalScore + s)]
    case None => totals + [GlobalRow(u, s)]
  }

  /** The per-character upsert: the key's row becomes old + s / old count + 1,
      or exactly one new row {s, 1, u, c} is appended; every other row, and
      hence every other key's lookup, is unchanged; the table stays unique. */
  lemma CreditCharacterEffect(rows: seq<LeaderboardRow>, u: UserId, c: CharacterId, s: real)
    requires UniqueKeys(rows)
    ensures var r := CreditCharacter(rows, u, c, s);
      && UniqueKeys(r)
      && RowFor(r, u, c) == Some(Credited(RowFor(rows, u, c), u, c, s))
      && |r| == |rows| + (if RowFor(rows, u, c).None? then 1 else 0)
      && (forall i :: 0 <= i < |rows| && !rows[i].HasKey(u, c) ==> r[i] == rows[i])
      && (forall i :: 0 <= i < |r| ==> r[i].HasKey(u, c) || (i < |rows| && r[i].userId == rows[i].userId
                                                            && r[i].characterId == rows[i].characterId))
  {
    var r := CreditCharacter(rows, u, c, s);
    match FindRow(rows, u, c)
    case Some(i) =>
      assert UniqueKeys(r) by {
        forall a, b | 0 <= a < b < |r|
          ensures r[a].userId != r[b].userId || r[a].characterId != r[b].characterId
        {
          assert rows[a].userId != rows[b].userId || rows[a].characterId != rows[b].characterId;
        }
      }
      RowForMatch(r, u, c, i);
    case None =>
      assert UniqueKeys(r) by {
        forall a, b | 0 <= a < b < |r|
          ensures r[a].userId != r[b].userId || r[a].characterId != r[b].characterId
        {
          if b == |rows| {
            assert !rows[a].HasKey(u, c);
          } else {
            assert rows[a].userId != rows[b].userId || rows[a].characterId != rows[b].characterId;
          }
        }
      }
      RowForMatch(r, u, c, |rows|);
  }

  /** Rows of other (user, character) keys are untouched by the upsert. */
  lemma CreditCharacterOthers(rows: seq<LeaderboardRow>, u: UserId, c: CharacterId, s: real, u': UserId, c': CharacterId)
    requires UniqueKeys(rows)
    requires u' != u || c' != c
    ensures RowFor(CreditCharacter(rows, u, c, s), u', c') == RowFor(rows, u', c')
  {
    var r := CreditCharacter(rows, u, c, s);
    CreditCharacterEffect(rows, u, c, s);
    match FindRow(rows, u', c')
    case Some(j) =>
      assert r[j] == rows[j];
      RowForMatch(r, u', c', j);
    case None =>
  }

  /** The global upsert: u's row becomes old + s, or exactly one new row
      {s, u} is appended; other users' rows are unchanged; users stay unique. */
  lemma CreditGlobalEffect(totals: seq<GlobalRow>, u: UserId, s: real)
    requires UniqueUsers(totals)
    ensures var r := CreditGlobal(totals, u, s);
      && UniqueUsers(r)
      && TotalFor(r, u) == Some(match TotalFor(totals, u)
                                case Some(g) => GlobalRow(u, g.totalScore + s)
                                case None => GlobalRow(u, s))
      && |r| == |totals| + (if TotalFor(totals, u).None? then 1 else 0)
      && (forall i :: 0 <= i < |totals| && totals[i].userId != u ==> r[i] == totals[i])
      && (forall i :: 0 <= i < |r| ==> r[i].userId == u || (i < |totals| && r[i].userId == totals[i].userId))
  {
    var r := CreditGlobal(totals, u, s);
    match FindTotal(totals, u)
    case Some(i) =>
      assert UniqueUsers(r) by {
        forall a, b | 0 <= a < b < |r| ensures r[a].userId != r[b].userId {
          assert totals[a].userId != totals[b].userId;
        }
      }
      TotalForMatch(r, u, i);
    case None =>
      assert UniqueUsers(r) by {
        forall a, b | 0 <= a < b < |r| ensures r[a].userId != r[b].userId {
          if b < |totals| {
            assert totals[a].userId != totals[b].userId;
          }
        }
      }
      TotalForMatch(r, u, |totals|);
  }

  /** Other users' global rows are untouched by the global upsert. */
  lemma CreditGlobalOthers(totals: seq<GlobalRow>, u: UserId, s: real, u': UserId)
    requires UniqueUsers(totals) && u' != u
    ensures TotalFor(CreditGlobal(totals, u, s), u') == TotalFor(totals, u')
  {
    var r := CreditGlobal(totals, u, s);
    CreditGlobalEffect(totals, u, s);
    match FindTotal(totals, u')
    case Some(j) =>
      assert r[j] == totals[j];
      TotalForMatch(r, u', j);
    case None =>
  }

  /** The (u, c) lookup after one credit to (u', c'): credited once if the
      keys agree, unchanged otherwise. */
  lemma RowForAfterCredit(rows: seq<LeaderboardRow>, u': UserId, c': CharacterId, s: real, u: UserId, c: CharacterId)
    requires UniqueKeys(rows)
    ensures RowFor(CreditCharacter(rows, u', c', s), u, c)
      == if u' == u && c' == c then Some(Credited(RowFor(rows, u, c), u, c, s)) else RowFor(rows, u, c)
  {
    if u' == u && c' == c {
      CreditCharacterEffect(rows, u, c, s);
    } else {
      CreditCharacterOthers(rows, u', c', s, u, c);
    }
  }

  /** u's global lookup after one credit to u': credited once if the users
      agree, unchanged otherwise. */
  lemma TotalForAfterCredit(totals: seq<GlobalRow>, u': UserId, s: real, u: UserId)
    requires UniqueUsers(totals)
    ensures TotalFor(CreditGlobal(totals, u', s), u)
      == if u' != u then TotalFor(totals, u)
         else match TotalFor(totals, u)
              case Some(g) => Some(GlobalRow(u, g.totalScore + s))
              case None => Some(GlobalRow(u, s))
  {
    if u' == u {
      CreditGlobalEffect(totals, u, s);
    } else {
      CreditGlobalOthers(totals, u', s, u);
    }
  }

  /** `updateLeaderboard` is additive, not idempotent: two calls with the same
      score add 2s to the row's score and 2 to its message count. */
  lemma CreditTwice(rows: seq<LeaderboardRow>, u: UserId, c: CharacterId, s: real)
    requires UniqueKeys(rows)
    ensures var once := CreditCharacter(rows, u, c, s);
      var twice := CreditCharacter(once, u, c, s);
      && RowFor(twice, u, c).Some?
      && RowFor(twice, u, c).value.score
         == (if RowFor(rows, u, c).Some? then RowFor(rows, u, c).value.score else 0.0) + 2.0 * s
      && RowFor(twice, u, c).value.messageCount
         == (if RowFor(rows, u, c).Some? then RowFor(rows, u, c).value.messageCount else 0) + 2
      && RowFor(twice, u, c) != RowFor(once, u, c)
  {
    var once := CreditCharacter(rows, u, c, s);
    CreditCharacterEffect(rows, u, c, s);
    CreditCharacterEffect(once, u, c, s);
  }

  // ---------------------------------------------------------------------
  // Per-user sums and the balance between the two tables
  // ---------------------------------------------------------------------

  /** What one row adds to user u's sum of per-character scores. */
  function Share(row: LeaderboardRow, u: UserId): real {
    if row.userId == u then row.score else 0.0
  }

  /** Sum of u's per-character scores. */
  function UserTotal(rows: seq<LeaderboardRow>, u: UserId): real {
    if rows == [] then 0.0 else UserTotal(rows[..|rows| - 1], u) + Share(rows[|rows| - 1], u)
  }

  /** u's global `totalScore`, 0 when u has no global row. */
  function GlobalTotal(totals: seq<GlobalRow>, u: UserId): real {
    match TotalFor(totals, u)
    case Some(g) => g.totalScore
    case None => 0.0
  }

  /** For every user, the per-character scores sum to the global total. */
  ghost predicate Balanced(rows: seq<LeaderboardRow>, totals: seq<GlobalRow>) {
    forall u :: UserTotal(rows, u) == GlobalTotal(totals, u)
  }

  /** Every per-character row has counted at least one message. */
  ghost predicate CountsPositive(rows: seq<LeaderboardRow>) {
    forall i :: 0 <= i < |rows| ==> rows[i].messageCount >= 1
  }

  lemma {:induction false} UserTotalAppend(rows: seq<LeaderboardRow>, x: LeaderboardRow, u: UserId)
    ensures UserTotal(rows + [x], u) == UserTotal(rows, u) + Share(x, u)
  {
    assert (rows + [x])[..|rows|] == rows;
  }

  /** Replacing one row by a row of the same user shifts that user's sum by
      the score difference and leaves everyone else's sum alone. */
  lemma {:induction false} UserTotalUpdate(rows: seq<LeaderboardRow>, i: nat, x: LeaderboardRow, u: UserId)
    requires i < |rows| && x.userId == rows[i].userId
    ensures UserTotal(rows[i := x], u) == UserTotal(rows, u) + Share(x, u) - Share(rows[i], u)
  {
    var n := |rows|;
    if i == n - 1 {
      assert rows[i := x][..n - 1] == rows[..n - 1];
    } else {
      assert rows[i := x][..n - 1] == rows[..n - 1][i := x];
      UserTotalUpdate(rows[..n - 1], i, x, u);
    }
  }

  /** One credit of s to (u, c) adds s to u's per-character sum and nothing to
      any other user's. */
  lemma CreditCharacterUserTotal(rows: seq<LeaderboardRow>, u: UserId, c: CharacterId, s: real, v: UserId)
    ensures UserTotal(CreditCharacter(rows, u, c, s), v) == UserTotal(rows, v) + (if v == u then s else 0.0)
  {
    match FindRow(rows, u, c)
    case Some(i) =>
      UserTotalUpdate(rows, i, Credited(Some(rows[i]), u, c, s), v);
    case None =>
      UserTotalAppend(rows, Credited(None, u, c, s), v);
  }

  /** One credit of s adds s to u's global total and nothing to any other user's. */
  lemma CreditGlobalTotal(totals: seq<GlobalRow>, u: UserId, s: real, v: UserId)
    requires UniqueUsers(totals)
    ensures GlobalTotal(CreditGlobal(totals, u, s), v) == GlobalTotal(totals, v) + (if v == u then s else 0.0)
  {
    if v == u {
      CreditGlobalEffect(totals, u, s);
    } else {
      CreditGlobalOthers(totals, u, s, v);
    }
  }

  /** Both halves of `updateLeaderboard` together keep the tables balanced. */
  lemma CreditPreservesBalance(rows: seq<LeaderboardRow>, totals: seq<GlobalRow>, u: UserId, c: CharacterId, s: real)
    requires UniqueUsers(totals) && Balanced(rows, totals)
    ensures Balanced(CreditCharacter(rows, u, c, s), CreditGlobal(totals, u, s))
  {
    forall v ensures UserTotal(CreditCharacter(rows, u, c, s), v) == GlobalTotal(CreditGlobal(totals, u, s), v) {
      CreditCharacterUserTotal(rows, u, c, s, v);
      CreditGlobalTotal(totals, u, s, v);
      assert UserTotal(rows, v) == GlobalTotal(totals, v);
    }
  }

  /** The per-character upsert keeps every message count at least 1. */
  lemma CreditPreservesCounts(rows: seq<LeaderboardRow>, u: UserId, c: CharacterId, s: real)
    requires CountsPositive(rows)
    ensures CountsPositive(CreditCharacter(rows, u, c, s))
  {
  }

  // ---------------------------------------------------------------------
  // The tables as the replay of every `updateLeaderboard` call
  // ---------------------------------------------------------------------

  /** The arguments of one `updateLeaderboard` call. */
  datatype Award = Award(characterId: CharacterId, userId: UserId, score: real)

  /** The `leaderboard` table after the given calls, starting empty. */
  function ReplayRows(awards: seq<Award>): seq<LeaderboardRow> {
    if awards == [] then []
    else
      var a := awards[|awards| - 1];
      CreditCharacter(ReplayRows(awards[..|awards| - 1]), a.userId, a.characterId, a.score)
  }

  /** The `globalLeaderboard` table after the given calls, starting empty. */
  function ReplayTotals(awards: seq<Award>): seq<GlobalRow> {
    if awards == [] then []
    else
      var a := awards[|awards| - 1];
      CreditGlobal(ReplayTotals(awards[..|awards| - 1]), a.userId, a.score)
  }

  /** One more call credits both replayed tables once. */
  lemma ReplayOneMore(awards: seq<Award>, a: Award)
    ensures ReplayRows(awards + [a]) == CreditCharacter(ReplayRows(awards), a.userId, a.characterId, a.score)
    ensures ReplayTotals(awards + [a]) == CreditGlobal(ReplayTotals(awards), a.userId, a.score)
  {
    assert (awards + [a])[..|awards|] == awards;
  }

  /** Number of calls for key (u, c). */
  function KeyCount(awards: seq<Award>, u: UserId, c: CharacterId): nat {
    if awards == [] then 0
    else
      var a := awards[|awards| - 1];
      KeyCount(awards[..|awards| - 1], u, c) + (if a.userId == u && a.characterId == c then 1 else 0)
  }

  /** Sum of the scores of the calls for key (u, c). */
  function KeySum(awards: seq<Award>, u: UserId, c: CharacterId): real {
    if awards == [] then 0.0
    else
      var a := awards[|awards| - 1];
      KeySum(awards[..|awards| - 1], u, c) + (if a.userId == u && a.characterId == c then a.score else 0.0)
  }

  /** Number of calls for user u, over all characters. */
  function UserCount(awards: seq<Award>, u: UserId): nat {
    if awards == [] then 0
    else UserCount(awards[..|awards| - 1], u) + (if awards[|awards| - 1].userId == u then 1 else 0)
  }

  /** Sum of the scores of the calls for user u, over all characters. */
  function UserSum(awards: seq<Award>, u: UserId): real {
    if awards == [] then 0.0
    else
      var a := awards[|awards| - 1];
      UserSum(awards[..|awards| - 1], u) + (if a.userId == u then a.score else 0.0)
  }

  lemma {:induction false} KeySumOfNoCalls(awards: seq<Award>, u: UserId, c: CharacterId)
    requires KeyCount(awards, u, c) == 0
    ensures KeySum(awards, u, c) == 0.0
  {
    if awards != [] {
      KeySumOfNoCalls(awards[..|awards| - 1], u, c);
    }
  }

  lemma {:induction false} UserSumOfNoCalls(awards: seq<Award>, u: UserId)
    requires UserCount(awards, u) == 0
    ensures UserSum(awards, u) == 0.0
  {
    if awards != [] {
      UserSumOfNoCalls(awards[..|awards| - 1], u);
    }
  }

  /** One more call adds one to its key's count and its score to the key's sum. */
  lemma KeyStep(awards: seq<Award>, a: Award, u: UserId, c: CharacterId)
    ensures KeyCount(awards + [a], u, c) == KeyCount(awards, u, c) + (if a.userId == u && a.characterId == c then 1 else 0)
    ensures KeySum(awards + [a], u, c) == KeySum(awards, u, c) + (if a.userId == u && a.characterId == c then a.score else 0.0)
  {
    assert (awards + [a])[..|awards|] == awards;
  }

  /** One more call adds one to its user's count and its score to the user's sum. */
  lemma UserStep(awards: seq<Award>, a: Award, u: UserId)
    ensures UserCount(awards + [a], u) == UserCount(awards, u) + (if a.userId == u then 1 else 0)
    ensures UserSum(awards + [a], u) == UserSum(awards, u) + (if a.userId == u then a.score else 0.0)
  {
    assert (awards + [a])[..|awards|] == awards;
  }

  /** The replayed tables satisfy both `.unique()` invariants. */
  lemma {:induction false} ReplayUnique(awards: seq<Award>)
    ensures UniqueKeys(ReplayRows(awards)) && UniqueUsers(ReplayTotals(awards))
  {
    if awards != [] {
      var a := awards[|awards| - 1];
      var prefix := awards[..|awards| - 1];
      ReplayUnique(prefix);
      CreditCharacterEffect(ReplayRows(prefix), a.userId, a.characterId, a.score);
      CreditGlobalEffect(ReplayTotals(prefix), a.userId, a.score);
    }
  }

  /** The replayed tables satisfy both `.unique()` invariants, are balanced,
      and count at least one message per row. */
  lemma {:induction false} ReplayInvariants(awards: seq<Award>)
    ensures UniqueKeys(ReplayRows(awards)) && UniqueUsers(ReplayTotals(awards))
    ensures Balanced(ReplayRows(awards), ReplayTotals(awards))
    ensures CountsPositive(ReplayRows(awards))
  {
    ReplayUnique(awards);
    if awards == [] {
      forall u ensures UserTotal([], u) == GlobalTotal([], u) {
        assert FindTotal([], u).None?;
      }
    } else {
      var a := awards[|awards| - 1];
      var prefix := awards[..|awards| - 1];
      ReplayInvariants(prefix);
      CreditPreservesBalance(ReplayRows(prefix), ReplayTotals(prefix), a.userId, a.characterId, a.score);
      CreditPreservesCounts(ReplayRows(prefix), a.userId, a.characterId, a.score);
    }
  }

  /** One credit moves a (u, c) row that holds `count` calls summing to `sum`
      to one that holds the calls including this one. */
  lemma RowStep(before: seq<LeaderboardRow>, a: Award, u: UserId, c: CharacterId, count: nat, sum: real)
    requires UniqueKeys(before) && (count == 0 ==> sum == 0.0)
    requires RowFor(before, u, c) == if count == 0 then None else Some(LeaderboardRow(u, sum, count, Some(c)))
    ensures var hit := a.userId == u && a.characterId == c;
      var count', sum' := count + (if hit then 1 else 0), sum + (if hit then a.score else 0.0);
      RowFor(CreditCharacter(before, a.userId, a.characterId, a.score), u, c)
        == if count' == 0 then None else Some(LeaderboardRow(u, sum', count', Some(c)))
  {
    RowForAfterCredit(before, a.userId, a.characterId, a.score, u, c);
  }

  /** One credit moves u's global row that holds `count` calls summing to
      `sum` to one that holds the calls including this one. */
  lemma TotalStep(before: seq<GlobalRow>, a: Award, u: UserId, count: nat, sum: real)
    requires UniqueUsers(before) && (count == 0 ==> sum == 0.0)
    requires TotalFor(before, u) == if count == 0 then None else Some(GlobalRow(u, sum))
    ensures var hit := a.userId == u;
      var count', sum' := count + (if hit then 1 else 0), sum + (if hit then a.score else 0.0);
      TotalFor(CreditGlobal(before, a.userId, a.score), u) == if count' == 0 then None else Some(GlobalRow(u, sum'))
  {
    TotalForAfterCredit(before, a.userId, a.score, u);
  }

  /** Replaying one more call steps the (u, c) row as `RowStep` says. */
  lemma ReplayRowStep(prefix: seq<Award>, a: Award, u: UserId, c: CharacterId, count: nat, sum: real)
    requires count == 0 ==> sum == 0.0
    requires RowFor(ReplayRows(prefix), u, c) == if count == 0 then None else Some(LeaderboardRow(u, sum, count, Some(c)))
    ensures var hit := a.userId == u && a.characterId == c;
      var count', sum' := count + (if hit then 1 else 0), sum + (if hit then a.score else 0.0);
      RowFor(ReplayRows(prefix + [a]), u, c) == if count' == 0 then None else Some(LeaderboardRow(u, sum', count', Some(c)))
  {
    ReplayUnique(prefix);
    ReplayOneMore(prefix, a);
    RowStep(ReplayRows(prefix), a, u, c, count, sum);
  }

  /** Replaying one more call steps u's global row as `TotalStep` says. */
  lemma ReplayTotalStep(prefix: seq<Award>, a: Award, u: UserId, count: nat, sum: real)
    requires count == 0 ==> sum == 0.0
    requires TotalFor(ReplayTotals(prefix), u) == if count == 0 then None else Some(GlobalRow(u, sum))
    ensures var hit := a.userId == u;
      var count', sum' := count + (if hit then 1 else 0), sum + (if hit then a.score else 0.0);
      TotalFor(ReplayTotals(prefix + [a]), u) == if count' == 0 then None else Some(GlobalRow(u, sum'))
  {
    ReplayUnique(prefix);
    ReplayOneMore(prefix, a);
    TotalStep(ReplayTotals(prefix), a, u, count, sum);
  }

  /** After any sequence of calls from empty tables, the row for (u, c) exists
      exactly when some call was for (u, c); its messageCount is the number of
      such calls and its score the sum of their scores. */
  lemma {:induction false} ReplayRowFor(awards: seq<Award>, u: UserId, c: CharacterId)
    ensures RowFor(ReplayRows(awards), u, c)
      == if KeyCount(awards, u, c) == 0 then None
         else Some(LeaderboardRow(u, KeySum(awards, u, c), KeyCount(awards, u, c), Some(c)))
  {
    if awards != [] {
      var a := awards[|awards| - 1];
      var prefix := awards[..|awards| - 1];
      assert awards == prefix + [a];
      ReplayRowFor(prefix, u, c);
      KeyStep(prefix, a, u, c);
      if KeyCount(prefix, u, c) == 0 {
        KeySumOfNoCalls(prefix, u, c);
      }
      ReplayRowStep(prefix, a, u, c, KeyCount(prefix, u, c), KeySum(prefix, u, c));
    }
  }

  /** After any sequence of calls from empty tables, u has a global row exactly
      when some call was for u, and its totalScore is the sum of those calls'
      scores across all characters. */
  lemma {:induction false} ReplayTotalFor(awards: seq<Award>, u: UserId)
    ensures TotalFor(ReplayTotals(awards), u)
      == if UserCount(awards, u) == 0 then None else Some(GlobalRow(u, UserSum(awards, u)))
  {
    if awards != [] {
      var a := awards[|awards| - 1];
      var prefix := awards[..|awards| - 1];
      assert awards == prefix + [a];
      ReplayTotalFor(prefix, u);
      UserStep(prefix, a, u);
      if UserCount(prefix, u) == 0 {
        UserSumOfNoCalls(prefix, u);
      }
      ReplayTotalStep(prefix, a, u, UserCount(prefix, u), UserSum(prefix, u));
    }
  }

  // ---------------------------------------------------------------------
  // `getLeaderboard`
  // ---------------------------------------------------------------------

  /** A leaderboard row with the display name `getLeaderboard` derives. */
  datatype RankedRow = RankedRow(entry: LeaderboardRow, username: string)

  /** "Player " followed by the first six characters of the user id (all of
      it when shorter, as `slice(0, 6)` does). */
  function Username(u: UserId): (r: string)
    ensures |r| >= 7 && r[..7] == "Player "
    ensures r[7..] <= u
    ensures |r[7..]| == if |u| < 6 then |u| else 6
  {
    "Player " + (if |u| < 6 then u else u[..6])
  }

  /** The ten most recently created rows, newest first (creation order, not
      score order), each with its derived username. */
  function GetLeaderboard(rows: seq<LeaderboardRow>): (r: seq<RankedRow>)
    ensures |r| == if |rows| < 10 then |rows| else 10
    ensures forall i :: 0 <= i < |r| ==>
      r[i].entry == rows[|rows| - 1 - i] && r[i].username == Username(rows[|rows| - 1 - i].userId)
  {
    var top := Tables.TakeNewest(rows, 10);
    seq(|top|, i requires 0 <= i < |top| => RankedRow(top[i], Username(top[i].userId)))
  }
}
