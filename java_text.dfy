/**
 * The few pieces of java.lang.String and hudson.Util that the plugin relies on,
 * written out so that their edge cases are visible: `trim` strips every
 * character up to U+0020 at both ends, `Util.fixEmptyAndTrim` turns null and
 * blank text into null, `indexOf` answers -1 when the character is absent.
 */
module JavaText {
  import opened Wrappers

  /** Java's `trim` removes the characters whose code is at most U+0020. */
  predicate IsTrimmable(c: char) {
    c <= ' '
  }

  /** Number of trimmable characters at the front of `s`. */
  function LeadingBlanks(s: string): (n: nat)
    ensures n <= |s|
    ensures forall k :: 0 <= k < n ==> IsTrimmable(s[k])
    ensures n < |s| ==> !IsTrimmable(s[n])
  {
    if |s| > 0 && IsTrimmable(s[0]) then 1 + LeadingBlanks(s[1..]) else 0
  }

  /** Length of `s` once the trimmable characters at its end are dropped. */
  function TrailingCut(s: string): (n: nat)
    ensures n <= |s|
    ensures forall k :: n <= k < |s| ==> IsTrimmable(s[k])
    ensures n > 0 ==> !IsTrimmable(s[n - 1])
  {
    if |s| > 0 && IsTrimmable(s[|s| - 1]) then TrailingCut(s[..|s| - 1]) else |s|
  }

  /** `String.trim()`. */
  function Trim(s: string): (r: string)
    ensures |r| <= |s|
    ensures r == [] || (!IsTrimmable(r[0]) && !IsTrimmable(r[|r| - 1]))
  {
    var front := s[LeadingBlanks(s)..];
    front[..TrailingCut(front)]
  }

  /** Trimming drops only trimmable characters, at both ends, and keeps the middle. */
  lemma TrimKeepsMiddle(s: string)
    ensures var i := LeadingBlanks(s);
            && i + |Trim(s)| <= |s|
            && s[i..i + |Trim(s)|] == Trim(s)
            && (forall k :: i + |Trim(s)| <= k < |s| ==> IsTrimmable(s[k]))
  {
  }

  /** `trim` is idempotent. */
  lemma TrimIdempotent(s: string)
    ensures Trim(Trim(s)) == Trim(s)
  {
  }

  /** Text with no character at or below U+0020 at either end is left as it is. */
  lemma TrimOfTrimmed(s: string)
    requires s == [] || (!IsTrimmable(s[0]) && !IsTrimmable(s[|s| - 1]))
    ensures Trim(s) == s
  {
  }

  /** `hudson.Util.fixEmptyAndTrim`: null and blank text become null, anything else is trimmed. */
  function FixEmptyAndTrim(s: Option<string>): (r: Option<string>)
    ensures r.None? <==> s.None? || Trim(s.value) == []
    ensures r.Some? ==> r.value != [] && Trim(r.value) == r.value
    ensures s.Some? && Trim(s.value) != [] ==> r == Some(Trim(s.value))
  {
    match s
    case None => None
    case Some(text) =>
      var t := Trim(text);
      TrimIdempotent(text);
      if t == [] then None else Some(t)
  }

  /** Applying `fixEmptyAndTrim` twice gives what applying it once gives. */
  lemma FixEmptyAndTrimIdempotent(s: Option<string>)
    ensures FixEmptyAndTrim(FixEmptyAndTrim(s)) == FixEmptyAndTrim(s)
  {
  }

  /** `String.indexOf(char)`: the first position of `c`, or -1. */
  function IndexOf(s: string, c: char): (r: int)
    ensures -1 <= r < |s|
  {
    if |s| == 0 then -1
    else if s[0] == c then 0
    else
      var rest := IndexOf(s[1..], c);
      if rest == -1 then -1 else rest + 1
  }

  /** `indexOf` finds the first occurrence, and answers -1 exactly when there is none. */
  lemma {:induction false} IndexOfMeaning(s: string, c: char)
    ensures IndexOf(s, c) >= 0 ==> s[IndexOf(s, c)] == c
    ensures forall k :: 0 <= k < IndexOf(s, c) ==> s[k] != c
    ensures IndexOf(s, c) == -1 <==> c !in s
  {
    if |s| > 0 && s[0] != c {
      IndexOfMeaning(s[1..], c);
      assert forall k :: 1 <= k < |s| ==> s[k] == s[1..][k - 1];
      assert c in s[1..] ==> c in s;
    }
  }

  /** `String.startsWith(prefix)`. */
  predicate StartsWith(s: string, prefix: string) {
    |prefix| <= |s| && s[..|prefix|] == prefix
  }

  /** ASCII upper case to lower case; other characters are left alone. */
  function ToLowerAscii(c: char): (r: char)
    ensures 'A' <= c <= 'Z' ==> r as int == c as int + 32
    ensures !('A' <= c <= 'Z') ==> r == c
  {
    if 'A' <= c <= 'Z' then (c as int + 32) as char else c
  }

  /** ASCII lower case to upper case; other characters are left alone. */
  function ToUpperAscii(c: char): (r: char)
    ensures 'a' <= c <= 'z' ==> r as int == c as int - 32
    ensures !('a' <= c <= 'z') ==> r == c
  {
    if 'a' <= c <= 'z' then (c as int - 32) as char else c
  }

  /**
   * `String.equalsIgnoreCase` against a lower-case ASCII word. Java folds case
   * over all of Unicode; no character outside ASCII folds onto the letters of
   * the words this plugin compares with ("add", "delete", "remove"), so ASCII
   * folding decides the same.
   */
  predicate EqualsIgnoreCase(s: string, lowerWord: string) {
    |s| == |lowerWord| && forall k :: 0 <= k < |s| ==> ToLowerAscii(s[k]) == lowerWord[k]
  }

  /** Lower-casing a whole string, character by character. */
  function LowerAscii(s: string): (r: string)
    ensures |r| == |s| && forall k :: 0 <= k < |s| ==> r[k] == ToLowerAscii(s[k])
  {
    seq(|s|, k requires 0 <= k < |s| => ToLowerAscii(s[k]))
  }

  /** Upper-casing a whole string, character by character. */
  function UpperAscii(s: string): (r: string)
    ensures |r| == |s| && forall k :: 0 <= k < |s| ==> r[k] == ToUpperAscii(s[k])
  {
    seq(|s|, k requires 0 <= k < |s| => ToUpperAscii(s[k]))
  }
}
