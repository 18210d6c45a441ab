/** Searching in strings, as the standard string class does it; where that
    answers "no position" these answer the length of the string. */
module Text {

  /** The first `c` at or after `start`. */
  function Find(s: string, c: char, start: nat): (i: nat)
    requires start <= |s|
    ensures start <= i <= |s|
    ensures i < |s| ==> s[i] == c
    decreases |s| - start
  {
    if start == |s| || s[start] == c then start else Find(s, c, start + 1)
  }

  lemma {:induction false} NoneBefore(s: string, c: char, start: nat)
    requires start <= |s|
    ensures forall k :: start <= k < Find(s, c, start) ==> s[k] != c
    decreases |s| - start
  {
    if start < |s| && s[start] != c { NoneBefore(s, c, start + 1); }
  }

  predicate StartsWith(s: string, prefix: string) {
    prefix <= s
  }

  /** `t` stands in `s` at `i`. */
  predicate TextAt(s: string, t: string, i: nat) {
    i + |t| <= |s| && forall k :: 0 <= k < |t| ==> s[i + k] == t[k]
  }

  /** The first place at or after `start` where `t` begins. */
  function FindText(s: string, t: string, start: nat): (i: nat)
    requires start <= |s| && t != ""
    ensures start <= i <= |s|
    ensures i < |s| ==> TextAt(s, t, i)
    decreases |s| - start
  {
    if start == |s| || TextAt(s, t, start) then start else FindText(s, t, start + 1)
  }

  lemma {:induction false} NoTextBefore(s: string, t: string, start: nat)
    requires start <= |s| && t != ""
    ensures forall k :: start <= k < FindText(s, t, start) ==> !TextAt(s, t, k)
    decreases |s| - start
  {
    if start < |s| && !TextAt(s, t, start) { NoTextBefore(s, t, start + 1); }
  }

  predicate Contains(s: string, t: string)
    requires t != ""
  {
    FindText(s, t, 0) < |s|
  }

  /** No `c` in `s`. */
  predicate Free(s: string, c: char) {
    forall k :: 0 <= k < |s| ==> s[k] != c
  }

  /** A place that is `c`, with none before it, is what Find finds. */
  lemma FindIs(s: string, c: char, start: nat, i: nat)
    requires start <= i <= |s| && (i < |s| ==> s[i] == c)
    requires forall k :: start <= k < i ==> s[k] != c
    ensures Find(s, c, start) == i
  {
    NoneBefore(s, c, start);
  }

  lemma FindTextIs(s: string, t: string, start: nat, i: nat)
    requires t != "" && start <= i < |s| && TextAt(s, t, i)
    requires forall k :: start <= k < i ==> !TextAt(s, t, k)
    ensures FindText(s, t, start) == i
  {
    NoTextBefore(s, t, start);
  }

  /** The text up to the first `c` holds none. */
  lemma FreeUpTo(s: string, c: char, start: nat)
    requires start <= |s|
    ensures Free(s[start..Find(s, c, start)], c)
  {
    NoneBefore(s, c, start);
  }

  /** The last `c`, -1 when there is none. */
  function FindLast(s: string, c: char): (i: int)
    ensures -1 <= i < |s|
    ensures i >= 0 ==> s[i] == c
    ensures forall k :: i < k < |s| ==> s[k] != c
  {
    if s == "" then -1 else if s[|s| - 1] == c then |s| - 1 else FindLast(s[..|s| - 1], c)
  }

  function Lower(c: char): char {
    if 'A' <= c <= 'Z' then c + 32 as char else c
  }
}
