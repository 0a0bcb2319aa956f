/** The string primitives the content script relies on: JavaScript's
    `String.prototype.trim`, `toLowerCase` and `includes`. */
module Strings {

  /** The characters `trim` removes: the WhiteSpace and LineTerminator code
      points of ECMAScript (sections 12.2 and 12.3 of ECMA-262). */
  predicate IsWhitespace(c: char) {
    || c == '\t' || c == '\n' || c == '\U{000B}' || c == '\U{000C}' || c == '\r'
    || c == ' ' || c == '\U{00A0}' || c == '\U{1680}'
    || ('\U{2000}' <= c <= '\U{200A}')
    || c == '\U{2028}' || c == '\U{2029}' || c == '\U{202F}' || c == '\U{205F}'
    || c == '\U{3000}' || c == '\U{FEFF}'
  }

  ghost predicate AllWhitespace(s: string) {
    forall i :: 0 <= i < |s| ==> IsWhitespace(s[i])
  }

  /** Neither end of `s` is whitespace (vacuously true of the empty string). */
  ghost predicate IsTrimmed(s: string) {
    s == [] || (!IsWhitespace(s[0]) && !IsWhitespace(s[|s| - 1]))
  }

  /** `s[i..j]` is what is left of `s` once the whitespace at both ends is
      cut: everything outside it is whitespace, and a non-empty `s[i..j]`
      starts and ends with something that is not. */
  ghost predicate TrimsTo(s: string, i: int, j: int) {
    && 0 <= i <= j <= |s|
    && (forall p :: 0 <= p < i ==> IsWhitespace(s[p]))
    && (forall p :: j <= p < |s| ==> IsWhitespace(s[p]))
    && (i < j ==> !IsWhitespace(s[i]) && !IsWhitespace(s[j - 1]))
  }

  /** The index of the first non-whitespace character of `s` at or after `i`
      (or `|s|`). */
  function SkipLeading(s: string, i: nat): (k: nat)
    requires i <= |s|
    ensures i <= k <= |s|
    ensures forall p :: i <= p < k ==> IsWhitespace(s[p])
    ensures k < |s| ==> !IsWhitespace(s[k])
    decreases |s| - i
  {
    if i < |s| && IsWhitespace(s[i]) then SkipLeading(s, i + 1) else i
  }

  /** The index just past the last non-whitespace character of `s` before `j`,
      never going below `lo`. */
  function SkipTrailing(s: string, lo: nat, j: nat): (m: nat)
    requires lo <= j <= |s|
    ensures lo <= m <= j
    ensures forall p :: m <= p < j ==> IsWhitespace(s[p])
    ensures lo < m ==> !IsWhitespace(s[m - 1])
    decreases j
  {
    if lo < j && IsWhitespace(s[j - 1]) then SkipTrailing(s, lo, j - 1) else j
  }

  /** Where the text that `trim` keeps begins and ends. */
  function TrimBounds(s: string): (b: (nat, nat))
    ensures TrimsTo(s, b.0, b.1)
  {
    var i := SkipLeading(s, 0);
    (i, SkipTrailing(s, i, |s|))
  }

  /** `String.prototype.trim`: a slice of its input, never longer. */
  function Trim(s: string): (t: string)
    ensures |t| <= |s|
    ensures exists i :: OccursAt(s, t, i)
  {
    assert OccursAt(s, s[TrimBounds(s).0..TrimBounds(s).1], TrimBounds(s).0);
    s[TrimBounds(s).0..TrimBounds(s).1]
  }

  /** Cutting whitespace from both ends has exactly one outcome: whatever
      slice `s[i..j]` is bordered by whitespace only and has no whitespace at
      its own ends, `Trim` returns it. */
  lemma TrimIsUnique(s: string, i: int, j: int)
    requires TrimsTo(s, i, j)
    ensures Trim(s) == s[i..j]
  {
    var (k, m) := TrimBounds(s);
    if i < j {
      assert k <= i < m;
      assert i == k && j == m;
    } else {
      assert forall p :: 0 <= p < |s| ==> IsWhitespace(s[p]);
      assert k == m;
    }
  }

  /** The result of `trim` has no whitespace at either end. */
  lemma TrimIsTrimmed(s: string)
    ensures IsTrimmed(Trim(s))
  {
    var (k, m) := TrimBounds(s);
    if k < m {
      assert Trim(s)[0] == s[k] && Trim(s)[m - k - 1] == s[m - 1];
    }
  }

  lemma {:induction false} TrimIdempotent(s: string)
    ensures Trim(Trim(s)) == Trim(s)
  {
    var r := Trim(s);
    TrimIsTrimmed(s);
    assert r[0..|r|] == r;
    TrimIsUnique(r, 0, |r|);
  }

  /** `trim` yields the empty string exactly when the input is blank. */
  lemma {:induction false} TrimEmptyIff(s: string)
    ensures Trim(s) == [] <==> AllWhitespace(s)
  {
    if AllWhitespace(s) {
      TrimIsUnique(s, |s|, |s|);
    }
  }

  /** `toLowerCase` for the Basic Latin and Cyrillic capitals. */
  function ToLowerChar(c: char): (l: char)
    ensures 'A' <= c <= 'Z' ==> l as int == c as int + 32
    ensures '\U{0410}' <= c <= '\U{042F}' ==> l as int == c as int + 0x20  // А..Я to а..я
    ensures '\U{0400}' <= c <= '\U{040F}' ==> l as int == c as int + 0x50  // Ѐ..Џ to ѐ..џ
    ensures !('A' <= c <= 'Z') && !('\U{0400}' <= c <= '\U{042F}') ==> l == c
    ensures !('A' <= l <= 'Z') && !('\U{0400}' <= l <= '\U{042F}')
  {
    if 'A' <= c <= 'Z' then (c as int + 32) as char
    else if '\U{0410}' <= c <= '\U{042F}' then (c as int + 0x20) as char
    else if '\U{0400}' <= c <= '\U{040F}' then (c as int + 0x50) as char
    else c
  }

  function ToLower(s: string): (r: string)
    ensures |r| == |s|
    ensures forall i :: 0 <= i < |s| ==> r[i] == ToLowerChar(s[i])
  {
    seq(|s|, i requires 0 <= i < |s| => ToLowerChar(s[i]))
  }

  /** `sub` occurs in `s` starting at index `i`. */
  ghost predicate OccursAt(s: string, sub: string, i: int) {
    0 <= i && i + |sub| <= |s| && s[i..i + |sub|] == sub
  }

  /** `String.prototype.includes`. */
  function Contains(s: string, sub: string): (b: bool)
    ensures b <==> exists i :: OccursAt(s, sub, i)
  {
    if sub <= s then
      assert OccursAt(s, sub, 0);
      true
    else if s == [] then
      assert forall i :: !OccursAt(s, sub, i);
      false
    else
      OccursShift(s, sub);
      Contains(s[1..], sub)
  }

  /** An occurrence of `sub` that is not at the front of `s` is an occurrence
      in `s[1..]`, one index earlier. */
  lemma OccursShift(s: string, sub: string)
    requires s != [] && !(sub <= s)
    ensures (exists i :: OccursAt(s, sub, i)) <==> (exists i :: OccursAt(s[1..], sub, i))
  {
    if i :| OccursAt(s[1..], sub, i) {
      assert s[1 + i..1 + i + |sub|] == s[1..][i..i + |sub|];
      assert OccursAt(s, sub, i + 1);
    }
    assert !OccursAt(s, sub, 0);
    if i :| OccursAt(s, sub, i) {
      assert s[1..][i - 1..i - 1 + |sub|] == s[i..i + |sub|];
      assert OccursAt(s[1..], sub, i - 1);
    }
  }
}
