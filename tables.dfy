/** Orderings the document store applies to a table read. Tables are kept in
    insertion order, which is `_creationTime` order, so a descending read is
    the table reversed. */
module Tables {

  /** `.order("desc")`: newest document first. */
  function NewestFirst<T>(s: seq<T>): (r: seq<T>)
    ensures |r| == |s|
    ensures forall i :: 0 <= i < |s| ==> r[i] == s[|s| - 1 - i]
  {
    if s == [] then [] else [s[|s| - 1]] + NewestFirst(s[..|s| - 1])
  }

  /** `.order("desc").take(n)`: the n newest documents, newest first. */
  function TakeNewest<T>(s: seq<T>, n: nat): (r: seq<T>)
    ensures |r| == if |s| < n then |s| else n
    ensures forall i :: 0 <= i < |r| ==> r[i] == s[|s| - 1 - i]
  {
    var all := NewestFirst(s);
    if |all| <= n then all else all[..n]
  }
}
