/** String operations shared by the Python and TypeScript models: searching, splitting, joining and stripping. */
module Texts {

  /** Position of the first `c`, or the length. */
  function IndexOf(s: string, c: char): (n: nat)
    ensures n <= |s| && (n < |s| ==> s[n] == c)
  {
    if s == [] || s[0] == c then 0 else 1 + IndexOf(s[1..], c)
  }

  lemma {:induction false} IndexOfIsFirst(s: string, c: char, n: nat)
    requires n <= |s| && (n < |s| ==> s[n] == c) && forall i | 0 <= i < n :: s[i] != c
    ensures IndexOf(s, c) == n
  {
    if n > 0 {
      IndexOfIsFirst(s[1..], c, n - 1);
    }
  }

  lemma {:induction false} NotBefore(s: string, c: char)
    ensures c !in s[..IndexOf(s, c)]
  {
    if s != [] && s[0] != c {
      NotBefore(s[1..], c);
      assert s[..IndexOf(s, c)] == [s[0]] + s[1..][..IndexOf(s[1..], c)];
    }
  }

  function LastIndexOf(s: string, c: char): (n: nat)
    requires c in s
    ensures n < |s| && s[n] == c && c !in s[n + 1..]
  {
    if s[|s| - 1] == c then |s| - 1
    else
      assert c in s[..|s| - 1];
      var n := LastIndexOf(s[..|s| - 1], c);
      assert s[n + 1..] == s[..|s| - 1][n + 1..] + [s[|s| - 1]];
      n
  }

  // ----- stripping

  function TrimLeft(s: string, space: char -> bool): (r: string)
    ensures |r| <= |s| && (r != [] ==> !space(r[0]))
    ensures forall c | c in r :: c in s
  {
    if s != [] && space(s[0]) then
      assert s == [s[0]] + s[1..];
      TrimLeft(s[1..], space)
    else s
  }

  function TrimRight(s: string, space: char -> bool): (r: string)
    ensures r <= s && (r != [] ==> !space(r[|r| - 1]))
  {
    if s != [] && space(s[|s| - 1]) then TrimRight(s[..|s| - 1], space) else s
  }

  function Trim(s: string, space: char -> bool): (r: string)
    ensures forall c | c in r :: c in s
    ensures r != [] ==> !space(r[0]) && !space(r[|r| - 1])
  {
    var t := TrimLeft(s, space);
    var r := TrimRight(t, space);
    assert r == t[..|r|];
    assert r != [] ==> r[0] == t[0];
    r
  }

  lemma TrimIdempotent(s: string, space: char -> bool)
    ensures Trim(Trim(s, space), space) == Trim(s, space)
  {
  }

  // ----- splitting and joining

  function Join(parts: seq<string>, separator: string): string
  {
    if parts == [] then ""
    else if |parts| == 1 then parts[0]
    else parts[0] + (separator + Join(parts[1..], separator))
  }

  function Split(s: string, c: char): (parts: seq<string>)
    ensures parts != [] && forall p | p in parts :: c !in p
  {
    var n := IndexOf(s, c);
    NotBefore(s, c);
    if n == |s| then assert s[..n] == s; [s] else [s[..n]] + Split(s[n + 1..], c)
  }

  lemma SplitOnce(head: string, c: char, tail: string)
    requires c !in head
    ensures Split(head + ([c] + tail), c) == [head] + Split(tail, c)
  {
    var s := head + ([c] + tail);
    assert s[|head|] == c;
    assert forall i | 0 <= i < |head| :: s[i] == head[i];
    IndexOfIsFirst(s, c, |head|);
    assert s[..|head|] == head;
    assert s[|head| + 1..] == tail;
  }

  lemma SplitNothing(s: string, c: char)
    requires c !in s
    ensures Split(s, c) == [s]
  {
    IndexOfIsFirst(s, c, |s|);
    hide IndexOf;
  }

  lemma {:induction false} SplitJoin(parts: seq<string>, c: char)
    requires parts != [] && forall p | p in parts :: c !in p
    ensures Split(Join(parts, [c]), c) == parts
  {
    hide Split, IndexOf;
    if |parts| == 1 {
      SplitNothing(parts[0], c);
    } else {
      SplitJoin(parts[1..], c);
      SplitOnce(parts[0], c, Join(parts[1..], [c]));
    }
  }

  /** A joined text contains what its parts and the separator contain, and nothing else. */
  lemma {:induction false} JoinContents(parts: seq<string>, separator: string, c: char)
    requires c !in separator && forall p | p in parts :: c !in p
    ensures c !in Join(parts, separator)
  {
    if |parts| > 1 {
      JoinContents(parts[1..], separator, c);
    }
  }

  // ----- case

  /** Lower case, for ASCII letters only. */
  function LowerChar(c: char): char
  {
    if 'A' <= c <= 'Z' then (c as int + 32) as char else c
  }

  function Lower(s: string): (r: string)
    ensures |r| == |s| && forall i | 0 <= i < |s| :: r[i] == LowerChar(s[i])
  {
    if s == [] then [] else [LowerChar(s[0])] + Lower(s[1..])
  }
}
