/** String helpers shared by the validators, the review form and the
    catalogue search: whitespace, `trim()`, `toLowerCase()` and
    `includes()` over `seq<char>`. */
module Text {

  /** The characters `String.prototype.trim` strips: the white space and
      line terminators of section 12.2 and 12.3 of ECMA-262 — tab, line
      tab, form feed, space, no-break space, the byte-order mark, the
      space separators (U+1680, U+2000 to U+200A, U+202F, U+205F,
      U+3000), line feed, carriage return, and U+2028 and U+2029. */
  predicate IsSpace(c: char) {
    || c == ' ' || c == '\t' || c == '\n' || c == '\r'
    || c == '\U{000B}' || c == '\U{000C}' || c == '\U{00A0}' || c == '\U{FEFF}'
    || c == '\U{1680}' || ('\U{2000}' <= c <= '\U{200A}')
    || c == '\U{2028}' || c == '\U{2029}' || c == '\U{202F}' || c == '\U{205F}' || c == '\U{3000}'
  }

  /** Every character is white space: `!s.trim()` in the source. */
  predicate IsBlank(s: string) {
    forall i :: 0 <= i < |s| ==> IsSpace(s[i])
  }

  /** `sub` sits in `s` starting at index `i`. */
  predicate OccursAt(s: string, sub: string, i: int) {
    0 <= i && i + |sub| <= |s| && s[i..i + |sub|] == sub
  }

  /** `sub` occurs somewhere in `s`. */
  ghost predicate Occurs(s: string, sub: string) {
    exists i :: OccursAt(s, sub, i)
  }

  /** The index of the first character at or after `i` that is not white
      space, or `|s|` when there is none. */
  function SkipSpace(s: string, i: nat): (k: nat)
    requires i <= |s|
    ensures i <= k <= |s|
    ensures forall j :: i <= j < k ==> IsSpace(s[j])
    ensures k < |s| ==> !IsSpace(s[k])
    decreases |s| - i
  {
    if i < |s| && IsSpace(s[i]) then SkipSpace(s, i + 1) else i
  }

  /** The index just past the last character before `m` that is not white
      space, looking no lower than `lo`. */
  function SkipSpaceBack(s: string, lo: nat, m: nat): (e: nat)
    requires lo <= m <= |s|
    ensures lo <= e <= m
    ensures forall j :: e <= j < m ==> IsSpace(s[j])
    ensures e > lo ==> !IsSpace(s[e - 1])
    decreases m
  {
    if m > lo && IsSpace(s[m - 1]) then SkipSpaceBack(s, lo, m - 1) else m
  }

  /** `s.trim()`: what is left once the white space at both ends is
      dropped — an infix of `s` that neither starts nor ends with white
      space, and empty exactly when `s` is blank. */
  function Trim(s: string): (r: string)
    ensures exists i :: OccursAt(s, r, i) && IsBlank(s[..i]) && IsBlank(s[i + |r|..])
    ensures r == [] || (!IsSpace(r[0]) && !IsSpace(r[|r| - 1]))
    ensures r == [] <==> IsBlank(s)
  {
    var k := SkipSpace(s, 0);
    var e := SkipSpaceBack(s, k, |s|);
    assert OccursAt(s, s[k..e], k);
    assert IsBlank(s[..k]) by {
      forall j | 0 <= j < k ensures IsSpace(s[..k][j]) { assert s[..k][j] == s[j]; }
    }
    assert IsBlank(s[e..]) by {
      forall j | 0 <= j < |s| - e ensures IsSpace(s[e..][j]) { assert s[e..][j] == s[e + j]; }
    }
    assert k + |s[k..e]| == e;
    s[k..e]
  }

  /** ASCII case folding: `toLowerCase()` on the characters A–Z. */
  function LowerChar(c: char): (r: char)
    ensures 'A' <= c <= 'Z' ==> 'a' <= r <= 'z' && r as int - 'a' as int == c as int - 'A' as int
    ensures !('A' <= c <= 'Z') ==> r == c
  {
    if 'A' <= c <= 'Z' then (c as int - 'A' as int + 'a' as int) as char else c
  }

  function Lower(s: string): (r: string)
    ensures |r| == |s|
    ensures forall i :: 0 <= i < |s| ==> r[i] == LowerChar(s[i])
  {
    if s == [] then [] else [LowerChar(s[0])] + Lower(s[1..])
  }

  /** `s` starts with `p`. */
  predicate StartsWith(s: string, p: string) {
    |p| <= |s| && s[..|p|] == p
  }

  /** `s.includes(sub)`: `sub` occurs somewhere in `s` (the empty string
      occurs everywhere). */
  function Contains(s: string, sub: string): (r: bool)
    ensures r <==> exists i :: OccursAt(s, sub, i)
    decreases |s|
  {
    if StartsWith(s, sub) then
      assert OccursAt(s, sub, 0);
      true
    else if s == [] then
      false
    else
      var rest := Contains(s[1..], sub);
      assert !OccursAt(s, sub, 0);
      assert forall j :: OccursAt(s[1..], sub, j) <==> OccursAt(s, sub, j + 1);
      assert forall i :: OccursAt(s, sub, i) ==> OccursAt(s[1..], sub, i - 1);
      rest
  }
}
