/**
 * The few PHP and WordPress string primitives the updater's decisions depend on,
 * written out with PHP's own semantics.
 */
module Php {

  /** PHP's `empty()` on a string: both "" and "0" are empty. */
  predicate Empty(s: string) {
    s == "" || s == "0"
  }

  /** `ltrim($s, $c)` for one character: drops every leading `c`, not just the first. */
  function LTrim(s: string, c: char): (r: string)
    ensures |r| <= |s| && r == s[|s| - |r|..]
    ensures forall i :: 0 <= i < |s| - |r| ==> s[i] == c
    ensures r == [] || r[0] != c
    decreases |s|
  {
    if |s| > 0 && s[0] == c then LTrim(s[1..], c) else s
  }

  /** Trimming a second time changes nothing. */
  lemma LTrimIdempotent(s: string, c: char)
    ensures LTrim(LTrim(s, c), c) == LTrim(s, c)
  {
  }

  predicate IsSlash(ch: char) {
    ch == '/' || ch == '\\'
  }

  /** WordPress `untrailingslashit`: `rtrim($s, '/\\')`, every trailing slash or backslash goes. */
  function UntrailingSlashIt(s: string): (r: string)
    ensures r <= s
    ensures forall i :: |r| <= i < |s| ==> IsSlash(s[i])
    ensures r == [] || !IsSlash(r[|r| - 1])
    decreases |s|
  {
    if |s| > 0 && IsSlash(s[|s| - 1]) then UntrailingSlashIt(s[..|s| - 1]) else s
  }

  /** WordPress `trailingslashit`: exactly one '/' after the path with its trailing slashes removed. */
  function TrailingSlashIt(s: string): (r: string)
    ensures |r| > 0 && r[|r| - 1] == '/'
    ensures r[..|r| - 1] <= s
    ensures forall i :: |r| - 1 <= i < |s| ==> IsSlash(s[i])
    ensures |r| == 1 || !IsSlash(r[|r| - 2])
  {
    UntrailingSlashIt(s) + "/"
  }

  /** `mb_strtolower` on one character, restricted to ASCII letters. */
  function AsciiLower(ch: char): (r: char)
    ensures 'A' <= ch <= 'Z' ==> 'a' <= r <= 'z' && r as int - ch as int == 32
    ensures !('A' <= ch <= 'Z') ==> r == ch
  {
    if 'A' <= ch <= 'Z' then (ch as int - 'A' as int + 'a' as int) as char else ch
  }

  /** `mb_strtolower(mb_substr($slug, 0, 1))`: the lower-cased first character, "" for "". */
  function FirstLetter(slug: string): (r: string)
    ensures |r| == if slug == "" then 0 else 1
    ensures slug != "" ==> r[0] == AsciiLower(slug[0])
  {
    if slug == "" then "" else [AsciiLower(slug[0])]
  }
}
