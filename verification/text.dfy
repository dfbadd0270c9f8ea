/**
 The string primitives the services rely on: ASCII case mapping, whitespace
 trimming, substring search and prefix tests, written over `seq<char>`.

 JavaScript's `toLowerCase`, `toUpperCase`, `trim`, `\s` and `\w` are modelled
 over ASCII only: `\w` is `[A-Za-z0-9_]` and whitespace is space, tab, line
 feed, vertical tab, form feed and carriage return.
 */
module Text {

  predicate IsSpace(c: char) {
    c == ' ' || c == '\t' || c == '\n' || c == '\r' || c == '\U{B}' || c == '\U{C}'
  }

  /** The `\w` character class. */
  predicate IsWordChar(c: char) {
    ('a' <= c <= 'z') || ('A' <= c <= 'Z') || ('0' <= c <= '9') || c == '_'
  }

  predicate IsQuote(c: char) {
    c == '"' || c == '\''
  }

  function LowerChar(c: char): char {
    if 'A' <= c <= 'Z' then (c as int + 32) as char else c
  }

  function UpperChar(c: char): char {
    if 'a' <= c <= 'z' then (c as int - 32) as char else c
  }

  function Lower(s: string): (r: string)
    ensures |r| == |s|
    ensures forall i :: 0 <= i < |s| ==> r[i] == LowerChar(s[i])
  {
    seq(|s|, i requires 0 <= i < |s| => LowerChar(s[i]))
  }

  function Upper(s: string): (r: string)
    ensures |r| == |s|
    ensures forall i :: 0 <= i < |s| ==> r[i] == UpperChar(s[i])
  {
    seq(|s|, i requires 0 <= i < |s| => UpperChar(s[i]))
  }

  predicate StartsWith(s: string, p: string) {
    |p| <= |s| && s[..|p|] == p
  }

  /** `p` occurs in `s` at position `i`. */
  predicate OccursAt(s: string, p: string, i: int) {
    0 <= i && i + |p| <= |s| && s[i..i + |p|] == p
  }

  /** JavaScript's `s.includes(p)`: some position of `s` starts an occurrence of `p`. */
  predicate Contains(s: string, p: string)
    ensures Contains(s, p) <==> exists i :: OccursAt(s, p, i)
    decreases |s|
  {
    if |p| > |s| then
      false
    else if s[..|p|] == p then
      assert OccursAt(s, p, 0);
      true
    else
      var rest := Contains(s[1..], p);
      assert forall i :: OccursAt(s[1..], p, i) <==> OccursAt(s, p, i + 1) by {
        forall i
          ensures OccursAt(s[1..], p, i) <==> OccursAt(s, p, i + 1)
        {
          if 0 <= i && i + |p| <= |s| - 1 {
            assert s[1..][i..i + |p|] == s[i + 1..i + 1 + |p|];
          }
        }
      }
      assert forall i :: OccursAt(s, p, i) ==> i >= 1;
      assert forall i :: OccursAt(s, p, i) ==> OccursAt(s[1..], p, i - 1);
      rest
  }

  /** An occurrence of `p` inside an occurrence of `q` is an occurrence in the whole text. */
  lemma ContainsTransitive(s: string, q: string, p: string)
    requires Contains(s, q) && Contains(q, p)
    ensures Contains(s, p)
  {
    var i :| OccursAt(s, q, i);
    var j :| OccursAt(q, p, j);
    var w := s[i + j..i + j + |p|];
    forall k | 0 <= k < |p|
      ensures w[k] == p[k]
    {
      assert w[k] == s[i + j + k] == s[i..i + |q|][j + k] == q[j + k] == q[j..j + |p|][k];
    }
    assert w == p;
    assert OccursAt(s, p, i + j);
  }

  /** Length of the longest prefix of `s` made of whitespace. */
  function SpaceRun(s: string): (n: nat)
    ensures n <= |s|
    ensures forall i :: 0 <= i < n ==> IsSpace(s[i])
    ensures n == |s| || !IsSpace(s[n])
  {
    if |s| > 0 && IsSpace(s[0]) then 1 + SpaceRun(s[1..]) else 0
  }

  /** Length of the longest prefix of `s` made of `\w` characters. */
  function WordRun(s: string): (n: nat)
    ensures n <= |s|
    ensures forall i :: 0 <= i < n ==> IsWordChar(s[i])
    ensures n == |s| || !IsWordChar(s[n])
  {
    if |s| > 0 && IsWordChar(s[0]) then 1 + WordRun(s[1..]) else 0
  }

  /** The first position at or after `from` that does not hold a whitespace character. */
  function SkipSpaces(s: string, from: nat): (j: nat)
    requires from <= |s|
    ensures from <= j <= |s|
    ensures forall i :: from <= i < j ==> IsSpace(s[i])
    ensures j == |s| || !IsSpace(s[j])
  {
    var n := SpaceRun(s[from..]);
    assert forall i :: from <= i < from + n ==> s[i] == s[from..][i - from];
    from + n
  }

  /** The first position at or after `from` that does not hold a `\w` character. */
  function SkipWord(s: string, from: nat): (j: nat)
    requires from <= |s|
    ensures from <= j <= |s|
    ensures forall i :: from <= i < j ==> IsWordChar(s[i])
    ensures j == |s| || !IsWordChar(s[j])
  {
    var n := WordRun(s[from..]);
    assert forall i :: from <= i < from + n ==> s[i] == s[from..][i - from];
    from + n
  }

  function TrimEnd(s: string): (r: string)
    ensures |r| <= |s| && r == s[..|r|]
    ensures forall i :: |r| <= i < |s| ==> IsSpace(s[i])
    ensures |r| == 0 || !IsSpace(r[|r| - 1])
  {
    if |s| > 0 && IsSpace(s[|s| - 1]) then TrimEnd(s[..|s| - 1]) else s
  }

  /** JavaScript's `trim()`: the slice of `s` between its leading and trailing whitespace. */
  function Trim(s: string): (r: string)
    ensures |r| <= |s|
    ensures SpaceRun(s) + |r| <= |s| && r == s[SpaceRun(s)..SpaceRun(s) + |r|]
    ensures |r| == 0 || (!IsSpace(r[0]) && !IsSpace(r[|r| - 1]))
  {
    var k := SpaceRun(s);
    var r := TrimEnd(s[k..]);
    assert r == s[k..k + |r|];
    r
  }

  /** JavaScript's `s.substring(0, n)`: the first `n` characters, or all of `s`. */
  function Take<T>(s: seq<T>, n: nat): (r: seq<T>)
    ensures |r| == if |s| <= n then |s| else n
    ensures r == s[..|r|]
  {
    if |s| <= n then s else s[..n]
  }

  /** Decimal rendering of a natural number, as `String(n)` prints it. */
  function NatToString(n: nat): (r: string)
    ensures |r| >= 1
    ensures forall i :: 0 <= i < |r| ==> '0' <= r[i] <= '9'
  {
    var d := ['0' + (n % 10) as char];
    if n < 10 then d else NatToString(n / 10) + d
  }

  /** No phrase of `phrases`, lowercased, occurs in `lowered`. */
  predicate NoneOccurs(lowered: string, phrases: seq<string>)
    ensures NoneOccurs(lowered, phrases) <==>
      forall k :: 0 <= k < |phrases| ==> !Contains(lowered, Lower(phrases[k]))
  {
    if |phrases| == 0 then true
    else !Contains(lowered, Lower(phrases[0])) && NoneOccurs(lowered, phrases[1..])
  }
}
