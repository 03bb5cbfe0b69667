/** Searching in strings, and what characters stand for. */
module Strings {

  const CRLF := "\r\n"

  predicate StartsWith(s: string, p: string) {
    |p| <= |s| && s[..|p|] == p
  }

  /** The position of the first occurrence of `p`, or the length of `s` when there is none. */
  function Find(s: string, p: string): (pos: nat)
    requires p != ""
    ensures pos <= |s|
    ensures pos < |s| ==> StartsWith(s[pos..], p)
    ensures forall i :: 0 <= i < pos ==> !StartsWith(s[i..], p)
  {
    if s == "" then 0
    else if StartsWith(s, p) then 0
    else
      var pos := 1 + Find(s[1..], p);
      assert forall i :: 1 <= i <= |s| ==> s[i..] == s[1..][i - 1..];
      pos
  }

  /** `p` does not occur in `s`. */
  ghost predicate Free(s: string, p: string) {
    forall i :: 0 <= i <= |s| ==> !StartsWith(s[i..], p)
  }

  /** The first occurrence of a delimiter whose first character does not recur in it. */
  lemma FindDelimiter(a: string, p: string, c: string)
    requires p != "" && p[0] !in p[1..] && Free(a, p)
    ensures Find(a + p + c, p) == |a|
  {
    var s := a + p + c;
    assert s[|a|..] == p + c;
    forall i | 0 <= i < |a| ensures !StartsWith(s[i..], p) {
      if i + |p| <= |a| {
        assert s[i..][..|p|] == a[i..][..|p|] && !StartsWith(a[i..], p);
      } else {
        assert s[i..][|a| - i] == p[0] && p[1..][|a| - i - 1] == p[|a| - i];
      }
    }
  }

  /** The other way round: when `p` occurs in `a`, a search finds an occurrence within `a`. */
  lemma FindOccurrence(a: string, p: string, c: string)
    requires p != "" && !Free(a, p)
    ensures Find(a + p + c, p) + |p| <= |a|
  {
    var s := a + p + c;
    var i :| 0 <= i <= |a| && StartsWith(a[i..], p);
    assert s[i..][..|p|] == a[i..][..|p|];
    assert StartsWith(s[i..], p);
  }

  /** Searching again, from anywhere before the first occurrence. */
  lemma FindShift(s: string, p: string, n: nat)
    requires p != "" && n <= Find(s, p) < |s|
    ensures Find(s[n..], p) == Find(s, p) - n
  {
    var i := Find(s, p);
    assert forall j :: 0 <= j <= |s| - n ==> s[n..][j..] == s[n + j..];
    assert StartsWith(s[n..][i - n..], p);
  }

  predicate IsHex(c: char) { '0' <= c <= '9' || 'A' <= c <= 'F' || 'a' <= c <= 'f' }

  function HexValue(c: char): (d: nat)
    requires IsHex(c)
    ensures d < 16
  {
    if c <= '9' then (c - '0') as nat else if c <= 'F' then (c - 'A') as nat + 10 else (c - 'a') as nat + 10
  }

  predicate IsSpace(c: char) { c == ' ' || '\t' <= c <= '\r' }

  predicate IsBlank(c: char) { c == ' ' || c == '\t' }

  function Lower(c: char): char {
    if 'A' <= c <= 'Z' then c - 'A' + 'a' else c
  }

  /** `s` starts with `p`, letter case apart. */
  predicate StartsWithNoCase(s: string, p: string) {
    |p| <= |s| && forall i :: 0 <= i < |p| ==> Lower(s[i]) == Lower(p[i])
  }

  function SkipSpace(s: string): (r: string)
    ensures |r| <= |s|
  {
    if s != "" && IsSpace(s[0]) then SkipSpace(s[1..]) else s
  }

  predicate AllSpace(s: string) { forall c :: c in s ==> IsSpace(c) }

  function TrimLeft(s: string): (r: string)
    ensures |r| <= |s|
  {
    if s != "" && IsBlank(s[0]) then TrimLeft(s[1..]) else s
  }

  function TrimRight(s: string): (r: string)
    ensures |r| <= |s|
  {
    if s != "" && IsBlank(s[|s| - 1]) then TrimRight(s[..|s| - 1]) else s
  }

  function Trim(s: string): string { TrimRight(TrimLeft(s)) }

  predicate Trimmed(s: string) { s == "" || (!IsBlank(s[0]) && !IsBlank(s[|s| - 1])) }

  // ---------- the characters, spelled out ----------

  const SMALL := "abcdefghijklmnopqrstuvwxyz"
  const CAPITALS := "ABCDEFGHIJKLMNOPQRSTUVWXYZ"
  const DIGITS := "0123456789"

  lemma InSmall(c: char)
    ensures c in SMALL <==> 'a' <= c <= 'z'
    ensures 'a' <= c <= 'z' ==> SMALL[c as int - 97] == c
  {
  }

  lemma InCapitals(c: char)
    ensures c in CAPITALS <==> 'A' <= c <= 'Z'
    ensures 'A' <= c <= 'Z' ==> CAPITALS[c as int - 65] == c
  {
  }

  lemma InDigits(c: char)
    ensures c in DIGITS <==> '0' <= c <= '9'
    ensures '0' <= c <= '9' ==> DIGITS[c as int - 48] == c
  {
  }

  /** Hexadecimal digits, small or capital, and their values. */
  lemma HexDigits(c: char)
    ensures IsHex(c) <==> c in "0123456789abcdef" || c in "0123456789ABCDEF"
    ensures IsHex(c) ==> "0123456789abcdef"[HexValue(c)] == c || "0123456789ABCDEF"[HexValue(c)] == c
  {
  }

  /** Letters differ by their case only. */
  lemma LowerInFull(c: char)
    ensures c in CAPITALS ==> c as int - 65 < 26 && Lower(c) == SMALL[c as int - 65]
    ensures c !in CAPITALS ==> Lower(c) == c
  {
  }
}
