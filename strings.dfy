/** The few JavaScript string operations the core relies on. */
module Strings {

  /** Position of the first `c` in `s`, or `|s|` when `s` has none. */
  function IndexOf(s: string, c: char): (i: nat)
    ensures i <= |s|
    ensures i < |s| ==> s[i] == c
    ensures forall j | 0 <= j < i :: s[j] != c
  {
    if |s| == 0 then 0
    else if s[0] == c then 0
    else 1 + IndexOf(s[1..], c)
  }

  /** The pieces joined back with single spaces (JavaScript's `parts.join(" ")`). */
  function JoinWithSpace(parts: seq<string>): string
    requires |parts| > 0
  {
    if |parts| == 1 then parts[0] else parts[0] + " " + JoinWithSpace(parts[1..])
  }

  /** JavaScript's `s.split(" ")`: the text between single spaces, empty pieces kept. */
  function SplitOnSpace(s: string): (parts: seq<string>)
    ensures |parts| > 0
    ensures forall k | 0 <= k < |parts| :: ' ' !in parts[k]
    ensures JoinWithSpace(parts) == s
    decreases |s|
  {
    var i := IndexOf(s, ' ');
    if i == |s| then
      [s]
    else
      var rest := SplitOnSpace(s[i + 1..]);
      assert ([s[..i]] + rest)[1..] == rest;
      assert s == s[..i] + " " + s[i + 1..];
      [s[..i]] + rest
  }

  /** Splitting undoes joining: space-free pieces come back unchanged. */
  lemma {:induction false} SplitJoin(parts: seq<string>)
    requires |parts| > 0
    requires forall k | 0 <= k < |parts| :: ' ' !in parts[k]
    ensures SplitOnSpace(JoinWithSpace(parts)) == parts
  {
    var s := JoinWithSpace(parts);
    var p := parts[0];
    if |parts| == 1 {
      assert s == p;
    } else {
      var rest := parts[1..];
      assert s == p + " " + JoinWithSpace(rest);
      var i := IndexOf(s, ' ');
      assert s[|p|] == ' ';
      assert i == |p|;
      assert s[..i] == p;
      assert s[i + 1..] == JoinWithSpace(rest);
      SplitJoin(rest);
      assert parts == [p] + rest;
    }
  }

  /** ASCII lower-casing of one character. */
  function LowerAscii(c: char): char
  {
    if 'A' <= c <= 'Z' then (c as int + 32) as char else c
  }

  /** ASCII lower-casing of a string. */
  function Lowered(s: string): (r: string)
    ensures |r| == |s|
  {
    seq(|s|, i requires 0 <= i < |s| => LowerAscii(s[i]))
  }

  /** `needle` occurs somewhere in `haystack`, ignoring ASCII case
      (a `$regex` with option "i" whose pattern has no metacharacters). */
  predicate ContainsIgnoringCase(haystack: string, needle: string)
  {
    exists i | 0 <= i <= |haystack| - |needle| :: OccursAt(haystack, needle, i)
  }

  /** `needle` matches `haystack` at position `i`, ignoring ASCII case. */
  predicate OccursAt(haystack: string, needle: string, i: int)
    requires 0 <= i <= |haystack| - |needle|
  {
    Lowered(haystack[i..i + |needle|]) == Lowered(needle)
  }
}
