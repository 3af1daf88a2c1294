/**
 * Character and string helpers shared by the client script and the server
 * routes: ASCII case folding, the regular-expression notion of a word
 * character, substring search and ECMAScript `String.prototype.trim`.
 */
module Text {

  predicate IsUpper(c: char) { 'A' <= c <= 'Z' }

  predicate IsLower(c: char) { 'a' <= c <= 'z' }

  predicate IsDigit(c: char) { '0' <= c <= '9' }

  /** The characters `\w` matches in a regular expression without the `u` flag. */
  predicate IsWordChar(c: char) { IsUpper(c) || IsLower(c) || IsDigit(c) || c == '_' }

  /** ASCII lower-casing of one character; every other character is left alone. */
  function LowerChar(c: char): char {
    if IsUpper(c) then (c as int + 32) as char else c
  }

  /** ASCII lower-casing of a string, character by character. */
  function LowerStr(s: string): (r: string)
    ensures |r| == |s|
    ensures forall i :: 0 <= i < |s| ==> r[i] == LowerChar(s[i])
  {
    seq(|s|, i requires 0 <= i < |s| => LowerChar(s[i]))
  }

  /** Equality after lower-casing both sides, the `a.toLowerCase() === b.toLowerCase()` test. */
  predicate EqualsIgnoreCase(a: string, b: string) {
    LowerStr(a) == LowerStr(b)
  }

  /** A character whose lower-case form is a lower-case letter is itself a letter, hence a word character. */
  lemma LowerLetterIsWordChar(c: char)
    requires IsLower(LowerChar(c))
    ensures IsWordChar(c)
  {
  }

  lemma LowerStrAppend(a: string, b: string)
    ensures LowerStr(a + b) == LowerStr(a) + LowerStr(b)
  {
  }

  /** `EqualsIgnoreCase` is an equivalence relation. */
  lemma EqualsIgnoreCaseEquivalence(a: string, b: string, c: string)
    ensures EqualsIgnoreCase(a, a)
    ensures EqualsIgnoreCase(a, b) ==> EqualsIgnoreCase(b, a)
    ensures EqualsIgnoreCase(a, b) && EqualsIgnoreCase(b, c) ==> EqualsIgnoreCase(a, c)
  {
  }

  /** `text.includes(sub)`: `sub` occurs somewhere in `text` as a contiguous block. */
  predicate Contains(text: string, sub: string)
    decreases |text|
  {
    |sub| <= |text| && (text[..|sub|] == sub || (0 < |text| && Contains(text[1..], sub)))
  }

  /** `Contains` agrees with the positional definition of an occurrence. */
  lemma {:induction false} ContainsAt(text: string, sub: string, i: nat)
    requires i + |sub| <= |text|
    ensures text[i..i + |sub|] == sub ==> Contains(text, sub)
    decreases i
  {
    if i > 0 && text[i..i + |sub|] == sub {
      assert text[1..][i - 1..i - 1 + |sub|] == text[i..i + |sub|];
      ContainsAt(text[1..], sub, i - 1);
    }
  }

  /** An occurrence yields a position: the converse of `ContainsAt`. */
  lemma {:induction false} ContainsHasPosition(text: string, sub: string) returns (i: nat)
    requires Contains(text, sub)
    ensures i + |sub| <= |text| && text[i..i + |sub|] == sub
    decreases |text|
  {
    if text[..|sub|] == sub {
      i := 0;
    } else {
      var j := ContainsHasPosition(text[1..], sub);
      assert text[1..][j..j + |sub|] == text[j + 1..j + 1 + |sub|];
      i := j + 1;
    }
  }

  /** Every character of an occurring block occurs in `text`; used contrapositively to rule occurrences out. */
  lemma ContainedCharOccurs(text: string, sub: string, k: nat)
    requires k < |sub|
    ensures Contains(text, sub) ==> sub[k] in text
  {
    if Contains(text, sub) {
      var i := ContainsHasPosition(text, sub);
      assert text[i..i + |sub|][k] == text[i + k];
    }
  }

  /**
   * The characters ECMAScript's `trim` removes: WhiteSpace (tab, vertical
   * tab, form feed, space, no-break space, the byte order mark and the
   * Unicode space separators) and LineTerminator (line feed, carriage
   * return, line and paragraph separators).
   */
  predicate IsTrimmable(c: char) {
    || c == '\t' || c == '\n' || c == '\U{B}' || c == '\U{C}' || c == '\r' || c == ' '
    || c == '\U{A0}' || c == '\U{1680}' || ('\U{2000}' <= c <= '\U{200A}')
    || c == '\U{2028}' || c == '\U{2029}' || c == '\U{202F}' || c == '\U{205F}'
    || c == '\U{3000}' || c == '\U{FEFF}'
  }

  /** Drops the leading trimmable characters; the result is the rest of `s`. */
  function TrimStart(s: string): (r: string)
    ensures |r| <= |s| && r == s[|s| - |r|..]
    ensures forall k :: 0 <= k < |s| - |r| ==> IsTrimmable(s[k])
    ensures |r| == 0 || !IsTrimmable(r[0])
    decreases |s|
  {
    if |s| > 0 && IsTrimmable(s[0]) then TrimStart(s[1..]) else s
  }

  /** Drops the trailing trimmable characters; the result is the start of `s`. */
  function TrimEnd(s: string): (r: string)
    ensures |r| <= |s| && r == s[..|r|]
    ensures forall k :: |r| <= k < |s| ==> IsTrimmable(s[k])
    ensures |r| == 0 || !IsTrimmable(r[|r| - 1])
    decreases |s|
  {
    if |s| > 0 && IsTrimmable(s[|s| - 1]) then TrimEnd(s[..|s| - 1]) else s
  }

  /**
   * `s.trim()`: the block of `s` left once the trimmable characters at both
   * ends are gone; it neither starts nor ends with one.
   */
  function Trim(s: string): (r: string)
    ensures exists i, j :: 0 <= i <= j <= |s| && r == s[i..j]
                           && (forall k :: 0 <= k < i ==> IsTrimmable(s[k]))
                           && (forall k :: j <= k < |s| ==> IsTrimmable(s[k]))
    ensures |r| == 0 || (!IsTrimmable(r[0]) && !IsTrimmable(r[|r| - 1]))
  {
    var a := TrimStart(s);
    var r := TrimEnd(a);
    TrimmedBlock(s, a, r);
    r
  }

  /** A suffix after trimmable characters, cut before trimmable characters, is a block between trimmable margins. */
  lemma TrimmedBlock(s: string, a: string, r: string)
    requires |a| <= |s| && a == s[|s| - |a|..] && forall k :: 0 <= k < |s| - |a| ==> IsTrimmable(s[k])
    requires |r| <= |a| && r == a[..|r|] && forall k :: |r| <= k < |a| ==> IsTrimmable(a[k])
    ensures exists i, j :: 0 <= i <= j <= |s| && r == s[i..j]
                           && (forall k :: 0 <= k < i ==> IsTrimmable(s[k]))
                           && (forall k :: j <= k < |s| ==> IsTrimmable(s[k]))
  {
    var i := |s| - |a|;
    var j := i + |r|;
    assert r == s[i..j];
    forall k | j <= k < |s|
      ensures IsTrimmable(s[k])
    {
      assert s[k] == a[k - i];
    }
  }

  /** Trimming twice is trimming once. */
  lemma TrimIdempotent(s: string)
    ensures Trim(Trim(s)) == Trim(s)
  {
    var t := Trim(s);
    if |t| > 0 {
      assert TrimStart(t) == t;
      assert TrimEnd(t) == t;
    }
  }
}
