/** Character classes and the string operations of Python's `str` that the analyzer uses:
    `strip()`, `lower()`, `isalpha()` and the word characters of the regex `\b`.
    Character classes are exact for the code points up to U+00FF (ASCII and Latin-1). */
module Text {

  /** `c.isspace()`: the characters Python treats as whitespace. */
  predicate IsSpace(c: char) {
    var n := c as int;
    (0x09 <= n <= 0x0D) || (0x1C <= n <= 0x20) || n == 0x85 || n == 0xA0 || n == 0x1680
    || (0x2000 <= n <= 0x200A) || n == 0x2028 || n == 0x2029 || n == 0x202F || n == 0x205F || n == 0x3000
  }

  predicate AllSpace(s: string) {
    forall k :: 0 <= k < |s| ==> IsSpace(s[k])
  }

  /** `c.isalpha()` for code points up to U+00FF. */
  predicate IsLetter(c: char) {
    var n := c as int;
    ('A' <= c <= 'Z') || ('a' <= c <= 'z') || n == 0xAA || n == 0xB5 || n == 0xBA
    || (0xC0 <= n <= 0xD6) || (0xD8 <= n <= 0xF6) || (0xF8 <= n <= 0xFF)
  }

  /** `w.isalpha()`: non-empty and made of letters only. */
  predicate IsAlpha(w: string) {
    |w| > 0 && forall k :: 0 <= k < |w| ==> IsLetter(w[k])
  }

  /** A character matched by the regex class `\w` (letters, digits, numerics, underscore). */
  predicate IsWordChar(c: char) {
    var n := c as int;
    IsLetter(c) || ('0' <= c <= '9') || c == '_' || n == 0xB2 || n == 0xB3 || n == 0xB9 || (0xBC <= n <= 0xBE)
  }

  /** The characters that `lower()` changes: A-Z and the Latin-1 capitals (not the multiplication sign). */
  predicate IsUpper(c: char) {
    ('A' <= c <= 'Z') || (0xC0 <= c as int <= 0xDE && c as int != 0xD7)
  }

  function LowerChar(c: char): (d: char)
    ensures !IsUpper(d)
    ensures IsSpace(d) == IsSpace(c) && IsLetter(d) == IsLetter(c)
    ensures 'a' <= d <= 'z' ==> IsLetter(c)
  {
    if IsUpper(c) then (c as int + 32) as char else c
  }

  /** `s.lower()`, character by character. */
  function Lower(s: string): (r: string)
    ensures |r| == |s|
    ensures forall k :: 0 <= k < |s| ==> r[k] == LowerChar(s[k])
  {
    if s == [] then [] else [LowerChar(s[0])] + Lower(s[1..])
  }

  predicate NoUpper(s: string) {
    forall k :: 0 <= k < |s| ==> !IsUpper(s[k])
  }

  /** A lower-cased string has no capitals left, and lowering it again changes nothing. */
  lemma LowerIsLowerCase(s: string)
    ensures NoUpper(Lower(s))
    ensures Lower(Lower(s)) == Lower(s)
  {
    var r := Lower(s);
    assert Lower(r) == r by {
      LowerKeepsNoUpper(r);
    }
  }

  /** A string without capitals is its own lower-case form, and only such a string is. */
  lemma {:induction false} LowerKeepsNoUpper(s: string)
    ensures NoUpper(s) <==> Lower(s) == s
  {
    if NoUpper(s) {
      forall k | 0 <= k < |s| ensures Lower(s)[k] == s[k] {
        assert !IsUpper(s[k]);
      }
    }
    if Lower(s) == s {
      forall k | 0 <= k < |s| ensures !IsUpper(s[k]) {
        assert s[k] == LowerChar(s[k]);
      }
    }
  }

  /** The number of characters of class `p` that `s` starts with. */
  function LeadingRun(p: char -> bool, s: string): (n: nat)
    ensures n <= |s|
    ensures forall k :: 0 <= k < n ==> p(s[k])
    ensures n < |s| ==> !p(s[n])
  {
    if s != [] && p(s[0]) then 1 + LeadingRun(p, s[1..]) else 0
  }

  /** The number of characters of class `p` that `s` ends with. */
  function TrailingRun(p: char -> bool, s: string): (n: nat)
    ensures n <= |s|
    ensures forall k :: |s| - n <= k < |s| ==> p(s[k])
    ensures n < |s| ==> !p(s[|s| - n - 1])
  {
    if s != [] && p(s[|s| - 1]) then 1 + TrailingRun(p, s[..|s| - 1]) else 0
  }

  /** `s` without the characters of class `p` at either end. */
  function Trim(p: char -> bool, s: string): string {
    var i := LeadingRun(p, s);
    if i == |s| then [] else s[i..|s| - TrailingRun(p, s)]
  }

  /** Trimming keeps a slice, and what it drops at either end is of the class. */
  lemma TrimKeepsSlice(p: char -> bool, s: string)
    ensures var r, i := Trim(p, s), LeadingRun(p, s);
      && i + |r| <= |s| && r == s[i..i + |r|]
      && (forall k :: 0 <= k < i ==> p(s[k]))
      && (forall k :: i + |r| <= k < |s| ==> p(s[k]))
  {
    var i := LeadingRun(p, s);
    if i < |s| {
      assert !p(s[i]);
      assert i < |s| - TrailingRun(p, s);
    }
  }

  /** What trimming keeps neither starts nor ends with the class, and it keeps nothing exactly
      when every character is of the class. */
  lemma TrimEnds(p: char -> bool, s: string)
    ensures var r := Trim(p, s);
      && (r != [] ==> !p(r[0]) && !p(r[|r| - 1]))
      && (r == [] <==> forall k :: 0 <= k < |s| ==> p(s[k]))
  {
    var i := LeadingRun(p, s);
    if i < |s| {
      var j := |s| - TrailingRun(p, s);
      assert !p(s[i]);
      assert i < j;
      var r := Trim(p, s);
      assert r[0] == s[i] && r[|r| - 1] == s[j - 1];
    }
  }

  /** `s.strip()`: `s` without the whitespace at either end. */
  function Strip(s: string): string {
    Trim(IsSpace, s)
  }

  /** `strip()` keeps a slice of the line: what it drops is whitespace, what it keeps neither
      starts nor ends with whitespace, and it keeps nothing exactly when the line is blank. */
  lemma StripSlice(s: string)
    ensures var r, i := Strip(s), LeadingRun(IsSpace, s);
      && i + |r| <= |s| && r == s[i..i + |r|]
      && (forall k :: 0 <= k < i ==> IsSpace(s[k]))
      && (forall k :: i + |r| <= k < |s| ==> IsSpace(s[k]))
      && (r != [] ==> !IsSpace(r[0]) && !IsSpace(r[|r| - 1]))
      && (r == [] <==> AllSpace(s))
  {
    TrimKeepsSlice(IsSpace, s);
    TrimEnds(IsSpace, s);
  }
}
