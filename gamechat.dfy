/** The chat screen's logic: the send handler with its pending flag, the
    countdown to the next character, and the affection bar, colour, message
    count caption and score badge shown for each character and turn. */
module GameChat {
  import opened Schema
  import Store
  import Chat

  // ---------------------------------------------------------------------
  // `String.prototype.trim`
  // ---------------------------------------------------------------------

  /** The characters `trim` removes: JavaScript white space and line
      terminators. */
  predicate IsJsWhitespace(ch: char) {
    ch in {'\t', '\n', '\U{000B}', '\U{000C}', '\r', ' ', '\U{00A0}', '\U{1680}',
           '\U{2000}', '\U{2001}', '\U{2002}', '\U{2003}', '\U{2004}', '\U{2005}',
           '\U{2006}', '\U{2007}', '\U{2008}', '\U{2009}', '\U{200A}', '\U{2028}',
           '\U{2029}', '\U{202F}', '\U{205F}', '\U{3000}', '\U{FEFF}'}
  }

  /** Every character of s[lo..hi] is white space. */
  predicate Blank(s: string, lo: nat, hi: nat)
    requires lo <= hi <= |s|
  {
    forall k :: lo <= k < hi ==> IsJsWhitespace(s[k])
  }

  /** First position at or after i that is not white space. */
  function ContentStart(s: string, i: nat): (n: nat)
    requires i <= |s|
    ensures i <= n <= |s| && Blank(s, i, n)
    ensures n < |s| ==> !IsJsWhitespace(s[n])
    decreases |s| - i
  {
    if i == |s| || !IsJsWhitespace(s[i]) then i else ContentStart(s, i + 1)
  }

  /** Position just after the last character in s[lo..j] that is not white space. */
  function ContentEnd(s: string, lo: nat, j: nat): (e: nat)
    requires lo <= j <= |s|
    ensures lo <= e <= j && Blank(s, e, j)
    ensures e > lo ==> !IsJsWhitespace(s[e - 1])
  {
    if j == lo || !IsJsWhitespace(s[j - 1]) then j else ContentEnd(s, lo, j - 1)
  }

  /** `s.trim()`: the slice of s left after dropping leading and trailing
      white space; empty exactly when s is all white space. */
  function Trim(s: string): (r: string)
    ensures exists i :: 0 <= i <= |s| - |r| && r == s[i..i + |r|] && Blank(s, 0, i) && Blank(s, i + |r|, |s|)
    ensures r != "" ==> !IsJsWhitespace(r[0]) && !IsJsWhitespace(r[|r| - 1])
    ensures r == "" <==> Blank(s, 0, |s|)
  {
    var lo := ContentStart(s, 0);
    var hi := ContentEnd(s, lo, |s|);
    s[lo..hi]
  }

  /** Trimming twice is trimming once. */
  lemma TrimIdempotent(s: string)
    ensures Trim(Trim(s)) == Trim(s)
  {
    var r := Trim(s);
    if r != "" {
      assert ContentStart(r, 0) == 0;
      assert ContentEnd(r, 0, |r|) == |r|;
    }
  }

  // ---------------------------------------------------------------------
  // `handleSendMessage`
  // ---------------------------------------------------------------------

  /** The state changes of the chat form, in order. */
  datatype FormEvent = PendingSet(pending: bool) | Sent(characterId: CharacterId, text: string) | InputCleared

  /** The chat form's state: the selected character, the input text and the
      "AI is replying" flag. */
  class ChatForm {
    var characterId: Option<CharacterId>
    var message: string
    var aiPending: bool
    /** Every state change of the form, oldest first. */
    ghost var events: seq<FormEvent>

    constructor (selected: Option<CharacterId>)
      ensures characterId == selected && message == "" && !aiPending && events == []
    {
      characterId, message, aiPending, events := selected, "", false, [];
    }

    /** Nothing happens without a selected character or with a blank input.
        Otherwise the flag is raised, the trimmed text is sent, the input is
        cleared only if the send succeeded, and the flag is lowered whether
        or not it did. */
    method HandleSendMessage(store: Store.Store, user: Option<UserId>)
      requires store.Valid()
      modifies this, store
      ensures store.Valid()
      ensures characterId == old(characterId)
      ensures old(characterId).None? || Trim(old(message)) == "" ==>
        && message == old(message) && aiPending == old(aiPending) && events == old(events)
        && unchanged(store)
      ensures old(characterId).Some? && Trim(old(message)) != "" ==>
        var text := Trim(old(message));
        var c := old(characterId).value;
        && events == old(events) + [PendingSet(true), Sent(c, text)]
                     + (if user.Some? then [InputCleared] else []) + [PendingSet(false)]
        && !aiPending
        && message == (if user.Some? then "" else old(message))
        && store.messages == old(store.messages) + (if user.Some? then [UserTurn(c, user.value, text)] else [])
        && store.leaderboard == old(store.leaderboard)
      ensures old(characterId).Some? && Trim(old(message)) != "" && user.None? ==> unchanged(store)
      ensures old(characterId).Some? && Trim(old(message)) != "" && user.Some? ==>
        var text := Trim(old(message));
        var c := old(characterId).value;
        var turn := UserTurn(c, user.value, text);
        var task := GenerateResponseTask(c, user.value, Chat.CurrentScore(old(store.leaderboard), user.value, c));
        && store.scheduled == old(store.scheduled) + [task]
        && store.log == old(store.log) + [Store.InsertedMessage(turn), Store.ScheduledTask(task)]
        && store.characters == old(store.characters) && store.globalLeaderboard == old(store.globalLeaderboard)
        && store.awards == old(store.awards)
    {
      if characterId.None? || Trim(message) == "" {
        return;
      }
      var c := characterId.value;
      var text := Trim(message);
      ghost var before := events;
      aiPending := true;
      events := events + [PendingSet(true)];
      events := events + [Sent(c, text)];
      assert events == before + [PendingSet(true), Sent(c, text)];
      var sent := store.SendMessage(user, c, text);
      ghost var during := events;
      if sent.Ok? {
        message := "";
        events := events + [InputCleared];
      }
      assert events == during + (if user.Some? then [InputCleared] else []);
      aiPending := false;
      events := events + [PendingSet(false)];
    }
  }

  // ---------------------------------------------------------------------
  // Decimal text (`Number.prototype.toString`, `padStart(2, '0')`)
  // ---------------------------------------------------------------------

  predicate IsDigit(ch: char) {
    '0' <= ch <= '9'
  }

  predicate AllDigits(s: string) {
    forall k :: 0 <= k < |s| ==> IsDigit(s[k])
  }

  function DigitChar(d: nat): char
    requires d < 10
  {
    ('0' as int + d) as char
  }

  /** Decimal text of n, most significant digit first, no leading zero. */
  function NatToString(n: nat): (r: string)
    ensures |r| >= 1 && AllDigits(r)
    ensures |r| == 1 <==> n < 10
    ensures n < 100 ==> |r| <= 2
    ensures r[0] == '0' <==> n == 0
  {
    if n < 10 then [DigitChar(n)] else NatToString(n / 10) + [DigitChar(n % 10)]
  }

  /** Value of a string of decimal digits (leading zeros allowed). */
  function ParseNat(s: string): nat
    requires AllDigits(s)
  {
    if s == "" then 0 else ParseNat(s[..|s| - 1]) * 10 + (s[|s| - 1] as int - '0' as int)
  }

  lemma {:induction false} ParseNatToString(n: nat)
    ensures ParseNat(NatToString(n)) == n
  {
    if n >= 10 {
      var r := NatToString(n);
      assert r[..|r| - 1] == NatToString(n / 10);
      ParseNatToString(n / 10);
    }
  }

  lemma {:induction false} ParseLeadingZero(s: string)
    requires AllDigits(s)
    ensures AllDigits("0" + s) && ParseNat("0" + s) == ParseNat(s)
  {
    if s != "" {
      assert ("0" + s)[..|"0" + s| - 1] == "0" + s[..|s| - 1];
      ParseLeadingZero(s[..|s| - 1]);
    }
  }

  /** `n.toString().padStart(2, '0')`: at least two digits, reading back as n. */
  function Pad2(n: nat): (r: string)
    ensures |r| >= 2 && AllDigits(r) && ParseNat(r) == n
    ensures n < 100 ==> |r| == 2
    ensures n >= 10 ==> r == NatToString(n)
  {
    var d := NatToString(n);
    ParseNatToString(n);
    if |d| >= 2 then d else (ParseLeadingZero(d); "0" + d)
  }

  // ---------------------------------------------------------------------
  // The countdown to the next character
  // ---------------------------------------------------------------------

  const HourMs: nat := 60 * 60 * 1000
  const MinuteMs: nat := 60 * 1000
  const SecondMs: nat := 1000
  /** A new character is due 24 hours after the latest one was created. */
  const DayMs: nat := 24 * 60 * 60 * 1000

  /** The greatest creation time: the first element after sorting by
      descending `_creationTime`. */
  function Latest(times: seq<int>): (r: int)
    requires |times| > 0
    ensures r in times
    ensures forall t :: t in times ==> t <= r
  {
    if |times| == 1 then times[0]
    else
      var rest := Latest(times[1..]);
      assert times == [times[0]] + times[1..];
      if times[0] >= rest then times[0] else rest
  }

  /** Milliseconds left until expiry, clamped at 0. */
  function Remaining(expiry: int, now: int): (d: nat)
    ensures now <= expiry ==> d == expiry - now
    ensures now >= expiry ==> d == 0
  {
    if expiry - now < 0 then 0 else expiry - now
  }

  datatype Clock = Clock(hours: nat, minutes: nat, seconds: nat)
  {
    /** The milliseconds the three fields stand for. */
    function Millis(): nat {
      hours * HourMs + minutes * MinuteMs + seconds * SecondMs
    }
  }

  /** hours = floor(d / 1h), minutes = floor((d mod 1h) / 1min),
      seconds = floor((d mod 1min) / 1s): the clock reading of d, to the
      second below. */
  function Breakdown(d: nat): (c: Clock)
    ensures c.minutes < 60 && c.seconds < 60
    ensures c.Millis() <= d < c.Millis() + SecondMs
  {
    var c := Clock(d / HourMs, (d % HourMs) / MinuteMs, (d % MinuteMs) / SecondMs);
    assert (d % HourMs) % MinuteMs == d % MinuteMs by {
      var h, m := d / 3600000, (d % 3600000) / 60000;
      assert d == h * 3600000 + m * 60000 + (d % 3600000) % 60000;
      assert d == (h * 60 + m) * 60000 + (d % 3600000) % 60000;
    }
    c
  }

  /** The breakdown is the only clock reading with minutes and seconds under
      60 that lies within the second below d. */
  lemma BreakdownUnique(d: nat, c: Clock)
    requires c.minutes < 60 && c.seconds < 60
    requires c.Millis() <= d < c.Millis() + SecondMs
    ensures c == Breakdown(d)
  {
    var b := Breakdown(d);
    assert c.minutes * MinuteMs + c.seconds * SecondMs < HourMs;
    assert b.minutes * MinuteMs + b.seconds * SecondMs < HourMs;
  }

  /** "HH:MM:SS", each field at least two digits. */
  function ClockText(c: Clock): string {
    Pad2(c.hours) + ":" + Pad2(c.minutes) + ":" + Pad2(c.seconds)
  }

  /** The countdown text, or none while there is no character. */
  function Countdown(creationTimes: seq<int>, now: int): (r: Option<string>)
    ensures r.None? <==> creationTimes == []
  {
    if creationTimes == [] then None
    else Some(ClockText(Breakdown(Remaining(Latest(creationTimes) + DayMs, now))))
  }

  /** A clock text with minutes and seconds under 60 splits at its two
      colons into three digit strings that read back as the clock. */
  lemma ClockTextReadsBack(c: Clock)
    requires c.minutes < 60 && c.seconds < 60
    ensures var text := ClockText(c);
      && |text| >= 8 && text[|text| - 6] == ':' && text[|text| - 3] == ':'
      && AllDigits(text[..|text| - 6]) && AllDigits(text[|text| - 5..|text| - 3]) && AllDigits(text[|text| - 2..])
      && Clock(ParseNat(text[..|text| - 6]), ParseNat(text[|text| - 5..|text| - 3]), ParseNat(text[|text| - 2..])) == c
  {
    var h, m, s := Pad2(c.hours), Pad2(c.minutes), Pad2(c.seconds);
    var text := h + ":" + m + ":" + s;
    assert text[..|text| - 6] == h;
    assert text[|text| - 5..|text| - 3] == m;
    assert text[|text| - 2..] == s;
  }

  /** Nothing left reads as 00:00:00. */
  lemma ZeroClockText()
    ensures ClockText(Breakdown(0)) == "00:00:00"
  {
    assert Breakdown(0) == Clock(0, 0, 0);
    assert NatToString(0) == "0";
    assert Pad2(0) == "00";
  }

  /** The countdown reads back as the time left until 24 hours after the
      newest character's creation, to the second below: the text ends in
      ":MM:SS" with two-digit minutes and seconds under 60, the hours before
      them have at least two digits, and the three numbers give back the
      remaining milliseconds; it reads 00:00:00 once that moment has passed. */
  lemma CountdownReadsBack(creationTimes: seq<int>, now: int)
    requires creationTimes != []
    ensures var text := Countdown(creationTimes, now).value;
      var d := Remaining(Latest(creationTimes) + DayMs, now);
      && |text| >= 8 && text[|text| - 6] == ':' && text[|text| - 3] == ':'
      && AllDigits(text[..|text| - 6]) && AllDigits(text[|text| - 5..|text| - 3]) && AllDigits(text[|text| - 2..])
      && var clock := Clock(ParseNat(text[..|text| - 6]), ParseNat(text[|text| - 5..|text| - 3]),
                            ParseNat(text[|text| - 2..]));
         clock.minutes < 60 && clock.seconds < 60
         && clock.Millis() <= d < clock.Millis() + SecondMs
    ensures now >= Latest(creationTimes) + DayMs ==> Countdown(creationTimes, now) == Some("00:00:00")
  {
    var d := Remaining(Latest(creationTimes) + DayMs, now);
    var c := Breakdown(d);
    var text := ClockText(c);
    assert Countdown(creationTimes, now) == Some(text);
    ClockTextReadsBack(c);
    assert Clock(ParseNat(text[..|text| - 6]), ParseNat(text[|text| - 5..|text| - 3]), ParseNat(text[|text| - 2..])) == c;
    if now >= Latest(creationTimes) + DayMs {
      ZeroClockText();
    }
  }

  // ---------------------------------------------------------------------
  // Per-character affection bar and labels, per-turn score badge
  // ---------------------------------------------------------------------

  function Abs(x: real): real {
    if x < 0.0 then -x else x
  }

  /** The bar width in percent for the user's row for a character: full
      above 50, otherwise the score as a percentage of 50 in absolute value,
      0 without a row. It exceeds 100 for scores below -50. */
  function PercentageScore(entry: Option<LeaderboardRow>): (r: real)
    ensures r >= 0.0
    ensures entry.None? ==> r == 0.0
    ensures entry.Some? && entry.value.score > 50.0 ==> r == 100.0
    ensures entry.Some? && entry.value.score <= 50.0 ==> r == 2.0 * Abs(entry.value.score)
    ensures r <= 100.0 <==> entry.None? || entry.value.score >= -50.0
  {
    if entry.Some? && entry.value.score > 50.0 then 100.0
    else if entry.Some? && entry.value.score != 0.0 then Abs(entry.value.score / 50.0 * 100.0)
    else 0.0
  }

  /** The bar is pink for a positive score and red otherwise (including a
      missing row). */
  function BarIsPink(entry: Option<LeaderboardRow>): (pink: bool)
    ensures pink ==> PercentageScore(entry) > 0.0
    ensures !pink && PercentageScore(entry) > 0.0 ==> entry.value.score < 0.0
    ensures pink <==> entry.Some? && entry.value.score > 0.0
  {
    entry.Some? && entry.value.score > 0.0
  }

  /** The message count caption: nothing without a row, "1 message",
      "N messages" for larger counts, "No messages" otherwise. */
  function MessageCountLabel(entry: Option<LeaderboardRow>): (r: Option<string>)
    ensures r.None? <==> entry.None?
    ensures entry.Some? && entry.value.messageCount == 1 ==> r == Some("1 message")
    ensures entry.Some? && entry.value.messageCount <= 0 ==> r == Some("No messages")
    ensures entry.Some? && entry.value.messageCount > 1 ==>
      (var caption := r.value;
      && |caption| > 9 && caption[|caption| - 9..] == " messages"
      && AllDigits(caption[..|caption| - 9]) && ParseNat(caption[..|caption| - 9]) == entry.value.messageCount
      && caption[0] != '0' && caption == NatToString(entry.value.messageCount) + " messages")
  {
    match entry
    case None => None
    case Some(row) =>
      if row.messageCount == 1 then Some("1 message")
      else if row.messageCount > 0 then
        var digits := NatToString(row.messageCount);
        ParseNatToString(row.messageCount);
        assert (digits + " messages")[..|digits|] == digits;
        Some(digits + " messages")
      else Some("No messages")
  }

  /** A turn shows its score badge only when it has a non-zero score. */
  function ScoreShown(m: Message): (shown: bool)
    ensures shown ==> m.score.Some?
    ensures shown <==> m.score.Some? && m.score.value != 0.0
  {
    m.score.Some? && m.score.value != 0.0
  }

  /** An AI turn shows its badge exactly when the judge's score was non-zero;
      a user turn never shows one. */
  lemma BadgeFollowsJudge(c: CharacterId, u: UserId, text: string, scores: real)
    ensures ScoreShown(AiTurn(c, u, text, Chat.Normalize(scores))) <==> scores != 0.0
    ensures !ScoreShown(UserTurn(c, u, text))
  {
  }
}
