/** The character queries. Both list every character ever created, newest
    first; `collect()` always yields an array, so the "No character available"
    branch of the source is unreachable and an empty table gives an empty list. */
module Characters {
  import opened Schema
  import Tables

  /** `getActiveCharacter`: all characters, most recently created first. */
  function GetActiveCharacter(chars: seq<Character>): (r: seq<Character>)
    ensures |r| == |chars|
    ensures forall i :: 0 <= i < |chars| ==> r[i] == chars[|chars| - 1 - i]
  {
    Tables.NewestFirst(chars)
  }

  /** `getPreviousCharacter`: the same query, hence the same list. */
  function GetPreviousCharacter(chars: seq<Character>): (r: seq<Character>)
    ensures |r| == |chars|
    ensures forall i :: 0 <= i < |chars| ==> r[i] == chars[|chars| - 1 - i]
    ensures r == GetActiveCharacter(chars)
  {
    Tables.NewestFirst(chars)
  }

  /** The record `createNewCharacter` inserts: the given fields and no
      `activeDate`. */
  function NewCharacter(name: string, personality: string, background: string,
                        interests: seq<string>, preferences: Preferences): Character
  {
    Character(name, personality, background, interests,
              Preferences(preferences.likes, preferences.dislikes), None)
  }
}
