/**
 * The one piece of `java.lang.String` that user creation relies on: `trim()`.
 * Java's `trim` removes from both ends every char whose code is at most U+0020
 * (space and all control characters). This is not Unicode white space: a
 * no-break space U+00A0 survives, a NUL U+0000 does not.
 */
module JavaString {

  /** True of the chars `String.trim()` removes. */
  predicate IsTrimmable(c: char) {
    c <= ' '
  }

  /** True when `s` holds nothing but trimmable chars (so also when it is empty). */
  predicate AllTrimmable(s: string) {
    forall i :: 0 <= i < |s| ==> IsTrimmable(s[i])
  }

  /**
   * Where `String.trim()` starts its result: the index of the first kept char
   * of `s`, or `|s|` when there is none.
   */
  function TrimStart(s: string): (st: nat)
    ensures st <= |s|
    ensures forall i :: 0 <= i < st ==> IsTrimmable(s[i])
    ensures st < |s| ==> !IsTrimmable(s[st])
  {
    if s == [] || !IsTrimmable(s[0]) then 0 else 1 + TrimStart(s[1..])
  }

  /**
   * Where `String.trim()` ends its result, given its start `st`: one past the
   * last kept char of `s` at or after `st`, or `st` when there is none.
   */
  function TrimEnd(s: string, st: nat): (len: nat)
    requires st <= |s|
    ensures st <= len <= |s|
    ensures forall i :: len <= i < |s| ==> IsTrimmable(s[i])
    ensures st < len ==> !IsTrimmable(s[len - 1])
  {
    if |s| == st || !IsTrimmable(s[|s| - 1]) then |s| else TrimEnd(s[..|s| - 1], st)
  }

  /**
   * `String.trim()`: what is left of `s` once the trimmable chars at both ends
   * are gone. It is empty exactly when every char of `s` is trimmable, and
   * otherwise starts and ends with a kept char.
   */
  function Trim(s: string): (r: string)
    ensures |r| <= |s|
    ensures r == [] <==> AllTrimmable(s)
    ensures r != [] ==> !IsTrimmable(r[0]) && !IsTrimmable(r[|r| - 1])
  {
    var st := TrimStart(s);
    var len := TrimEnd(s, st);
    s[st..len]
  }

  /**
   * Trim has one answer: any slice of `s` whose surroundings are all trimmable
   * and that is empty or starts and ends with a kept char is `Trim(s)`.
   */
  lemma TrimUnique(s: string, lo: nat, hi: nat)
    requires lo <= hi <= |s|
    requires forall i :: 0 <= i < lo ==> IsTrimmable(s[i])
    requires forall i :: hi <= i < |s| ==> IsTrimmable(s[i])
    requires lo < hi ==> !IsTrimmable(s[lo]) && !IsTrimmable(s[hi - 1])
    ensures Trim(s) == s[lo..hi]
  {
  }
}
