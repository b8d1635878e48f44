/** ASCII-level string operations standing in for the Python string methods
    and regular expressions the extractor uses: `in`, `startswith`, `find`,
    `count`, `lower` and the `\d` character class. */
module Text {

  predicate IsDigit(c: char) {
    '0' <= c <= '9'
  }

  predicate AllDigits(s: string) {
    forall i :: 0 <= i < |s| ==> IsDigit(s[i])
  }

  /** `pat` occurs in `s` starting at index `i`. */
  ghost predicate OccursAt(s: string, pat: string, i: int) {
    0 <= i && i + |pat| <= |s| && s[i..i + |pat|] == pat
  }

  /** `pat` occurs somewhere in `s`: the meaning of Python's `pat in s`. */
  ghost predicate Occurs(s: string, pat: string) {
    exists i :: OccursAt(s, pat, i)
  }

  /** Python's `s.startswith(prefix)`. */
  predicate StartsWith(s: string, prefix: string) {
    |prefix| <= |s| && s[..|prefix|] == prefix
  }

  /** Python's `pat in s` on strings, as a scan over the suffixes of `s`. */
  predicate Contains(s: string, pat: string)
    decreases |s|
  {
    StartsWith(s, pat) || (|s| > 0 && Contains(s[1..], pat))
  }

  /** The scan finds `pat` exactly when it occurs somewhere in `s`. */
  lemma {:induction false} ContainsIsOccurs(s: string, pat: string)
    ensures Contains(s, pat) <==> Occurs(s, pat)
    decreases |s|
  {
    if StartsWith(s, pat) {
      assert OccursAt(s, pat, 0);
    } else if |s| > 0 {
      ContainsIsOccurs(s[1..], pat);
      if Contains(s[1..], pat) {
        var i :| OccursAt(s[1..], pat, i);
        OccursAfterFirst(s, pat, i);
      }
      if Occurs(s, pat) {
        var i :| OccursAt(s, pat, i);
        OccursInTail(s, pat, i);
      }
    }
  }

  /** An occurrence in the tail is one index further on in the whole string. */
  lemma OccursAfterFirst(s: string, pat: string, i: int)
    requires |s| > 0 && OccursAt(s[1..], pat, i)
    ensures OccursAt(s, pat, i + 1)
  {
    assert s[1..][i..i + |pat|] == s[i + 1..i + 1 + |pat|];
  }

  /** An occurrence that is not a prefix is one index earlier in the tail. */
  lemma OccursInTail(s: string, pat: string, i: int)
    requires OccursAt(s, pat, i) && !StartsWith(s, pat)
    ensures |s| > 0 && OccursAt(s[1..], pat, i - 1)
  {
    if i == 0 {
      assert false;
    }
    assert s[1..][i - 1..i - 1 + |pat|] == s[i..i + |pat|];
  }

  /** The empty string occurs in every string, so `"" in s` is always true. */
  lemma EmptyOccursEverywhere(s: string)
    ensures Contains(s, "")
    ensures Occurs(s, "")
  {
    assert OccursAt(s, "", 0);
  }

  /** Python's `s.find(pat, start)` for a non-negative `start`: the lowest
      index at or after `start` where `pat` occurs, or -1 when there is none. */
  function Find(s: string, pat: string, start: nat): (r: int)
    ensures r == -1 <==> forall i :: start <= i ==> !OccursAt(s, pat, i)
    ensures r != -1 ==> start <= r && OccursAt(s, pat, r)
    ensures r != -1 ==> forall i :: start <= i < r ==> !OccursAt(s, pat, i)
    decreases |s| - start
  {
    if start + |pat| > |s| then -1
    else if s[start..start + |pat|] == pat then
      assert OccursAt(s, pat, start);
      start
    else Find(s, pat, start + 1)
  }

  /** Python's `s.count(c)` for a one-character needle: the number of
      occurrences of `c` in `s`. */
  function CountChar(s: string, c: char): (n: nat)
    ensures n == multiset(s)[c]
  {
    if s == [] then 0
    else
      assert s == [s[0]] + s[1..];
      (if s[0] == c then 1 else 0) + CountChar(s[1..], c)
  }

  /** Python's `str.lower()` restricted to ASCII letters. */
  function LowerChar(c: char): char {
    if 'A' <= c <= 'Z' then (c as int + 32) as char else c
  }

  /** Lower-casing keeps the length, leaves no upper-case ASCII letter,
      shifts each upper-case letter by the 32 code points separating the
      two cases, and leaves every other character alone. */
  function Lower(s: string): (r: string)
    ensures |r| == |s|
    ensures forall i :: 0 <= i < |r| ==> !('A' <= r[i] <= 'Z')
    ensures forall i :: 0 <= i < |s| && 'A' <= s[i] <= 'Z' ==> r[i] as int == s[i] as int + 32
    ensures forall i :: 0 <= i < |s| && !('A' <= s[i] <= 'Z') ==> r[i] == s[i]
  {
    seq(|s|, i requires 0 <= i < |s| => LowerChar(s[i]))
  }

  /** Lower-casing twice is lower-casing once. */
  lemma LowerIdempotent(s: string)
    ensures Lower(Lower(s)) == Lower(s)
  {
  }
}
