/** The three string operations the demo relies on: `String.prototype.trim`,
    `String.prototype.toLowerCase` and `String.prototype.includes`. */
module Text {

  /** The code points `trim` removes: ECMAScript's WhiteSpace (tab, vertical tab,
      form feed, the byte-order mark and every space separator) and its
      LineTerminator characters. */
  predicate IsWhitespace(c: char) {
    c == '\t' || c == '\n' || c == '\U{000B}' || c == '\U{000C}' || c == '\r'
    || c == ' ' || c == '\U{00A0}' || c == '\U{1680}'
    || ('\U{2000}' <= c <= '\U{200A}')
    || c == '\U{2028}' || c == '\U{2029}' || c == '\U{202F}' || c == '\U{205F}'
    || c == '\U{3000}' || c == '\U{FEFF}'
  }

  predicate AllWhitespace(s: string) {
    forall i :: 0 <= i < |s| ==> IsWhitespace(s[i])
  }

  /** Drops the leading whitespace: what is left is a suffix of `s` that is
      empty or starts with a character `trim` keeps. */
  function TrimStart(s: string): (r: string)
    ensures |r| <= |s| && r == s[|s| - |r|..]
    ensures AllWhitespace(s[..|s| - |r|])
    ensures r == [] || !IsWhitespace(r[0])
  {
    if |s| > 0 && IsWhitespace(s[0]) then
      var r := TrimStart(s[1..]);
      assert s[..|s| - |r|] == [s[0]] + s[1..][..|s| - 1 - |r|];
      assert s[1..][|s| - 1 - |r|..] == s[|s| - |r|..];
      r
    else
      s
  }

  /** Drops the trailing whitespace: what is left is a prefix of `s` that is
      empty or ends with a character `trim` keeps, and it is empty only when
      `s` is all whitespace. */
  function TrimEnd(s: string): (r: string)
    ensures |r| <= |s| && r == s[..|r|]
    ensures AllWhitespace(s[|r|..])
    ensures r == [] || !IsWhitespace(r[|r| - 1])
    // follows from the second clause; stated for the callers' sake
    ensures |s| > 0 && !IsWhitespace(s[0]) ==> |r| > 0
  {
    if |s| > 0 && IsWhitespace(s[|s| - 1]) then
      var r := TrimEnd(s[..|s| - 1]);
      assert s[|r|..] == s[..|s| - 1][|r|..] + [s[|s| - 1]];
      assert |s| > 1 ==> s[..|s| - 1][0] == s[0];
      r
    else
      s
  }

  /** `s.trim()`: what is left of `s` once its leading and its trailing
      whitespace are gone. */
  function Trim(s: string): (r: string)
    ensures r == [] || (!IsWhitespace(r[0]) && !IsWhitespace(r[|r| - 1]))
  {
    TrimEnd(TrimStart(s))
  }

  /** `s.trim()` is `s` with a whitespace prefix and a whitespace suffix cut
      off; with the contract of `Trim` this fixes the result for every `s`. */
  lemma TrimIsInfix(s: string)
    ensures exists a :: 0 <= a && a + |Trim(s)| <= |s| && Trim(s) == s[a..a + |Trim(s)|]
                        && AllWhitespace(s[..a]) && AllWhitespace(s[a + |Trim(s)|..])
  {
    var t := TrimStart(s);
    var a := |s| - |t|;
    var r := TrimEnd(t);
    assert r == t[..|r|];
    assert t == s[a..];
    assert s[a + |r|..] == t[|r|..];
    assert s[a..][..|r|] == s[a..a + |r|];
    assert Trim(s) == r;
    assert AllWhitespace(s[..a]) && AllWhitespace(s[a + |r|..]);
    assert 0 <= a && a + |r| <= |s| && r == s[a..a + |r|];
  }

  /** `!s.trim()` in JavaScript: the trimmed text is empty exactly when every
      character of `s` is whitespace. */
  lemma TrimEmptyIff(s: string)
    ensures Trim(s) == [] <==> AllWhitespace(s)
  {
    var t := TrimStart(s);
    if t == [] {
      assert s[..|s|] == s;
    } else {
      assert t[0] == s[|s| - |t|];
    }
  }

  /** The lower-case form of a character, as far as it can matter to matching
      lower-case ASCII words: the ASCII capitals, and the Kelvin sign, whose
      lower-case form is the ASCII letter `k`. Every other character is kept. */
  function LowerChar(c: char): char {
    if 'A' <= c <= 'Z' then (c as int + 32) as char
    else if c == '\U{212A}' then 'k'
    else c
  }

  /** The characters whose lower-case form is a given lower-case ASCII letter. */
  lemma LowerCharIs(c: char, x: char)
    requires 'a' <= x <= 'z'
    ensures LowerChar(c) == x <==> c == x || c as int == x as int - 32 || (x == 'k' && c == '\U{212A}')
  {
  }

  /** `s.toLowerCase()`, character by character. */
  function ToLower(s: string): (r: string)
    ensures |r| == |s|
    ensures forall i :: 0 <= i < |s| ==> r[i] == LowerChar(s[i])
  {
    seq(|s|, i requires 0 <= i < |s| => LowerChar(s[i]))
  }

  /** Lower-casing twice is lower-casing once. */
  lemma ToLowerIdempotent(s: string)
    ensures ToLower(ToLower(s)) == ToLower(s)
  {
  }

  /** Lower-casing works piecewise on a concatenation. */
  lemma ToLowerConcat(a: string, b: string)
    ensures ToLower(a + b) == ToLower(a) + ToLower(b)
  {
  }

  /** `w` occurs in `s` starting at index `i`. */
  predicate OccursAt(s: string, w: string, i: int) {
    0 <= i && i + |w| <= |s| && s[i..i + |w|] == w
  }

  predicate StartsWith(s: string, w: string) {
    |w| <= |s| && s[..|w|] == w
  }

  /** `s.includes(w)`: scans `s` from the left for a position where `w` starts. */
  predicate Contains(s: string, w: string)
    decreases |s|
  {
    StartsWith(s, w) || (|s| > 0 && Contains(s[1..], w))
  }

  /** The scan finds `w` exactly when `w` occurs somewhere in `s`. */
  lemma {:induction false} ContainsIff(s: string, w: string)
    ensures Contains(s, w) <==> exists i :: OccursAt(s, w, i)
    decreases |s|
  {
    if StartsWith(s, w) {
      assert OccursAt(s, w, 0);
    } else if |s| > 0 {
      ContainsIff(s[1..], w);
      forall i ensures OccursAt(s[1..], w, i) <==> OccursAt(s, w, i + 1) {
        if 0 <= i && i + 1 + |w| <= |s| {
          assert s[1..][i..i + |w|] == s[i + 1..i + 1 + |w|];
        }
      }
      if exists i :: OccursAt(s, w, i) {
        var i :| OccursAt(s, w, i);
        assert OccursAt(s[1..], w, i - 1);
      }
    }
  }

  /** `w` is absent from `t` when no two adjacent characters of `t` spell the
      first two characters of `w`. */
  lemma NotContainsByPrefix(t: string, w: string)
    requires |w| >= 2
    requires forall i :: 0 <= i < |t| - 1 ==> !(t[i] == w[0] && t[i + 1] == w[1])
    ensures !Contains(t, w)
  {
    forall i ensures !OccursAt(t, w, i) {
      if 0 <= i && i + |w| <= |t| {
        assert t[i..i + |w|][0] == t[i] && t[i..i + |w|][1] == t[i + 1];
      }
    }
    ContainsIff(t, w);
  }

  /** Text on either side of an occurrence does not hide it. */
  lemma ContainsExtend(s: string, w: string, before: string, after: string)
    requires Contains(s, w)
    ensures Contains(before + s + after, w)
  {
    ContainsIff(s, w);
    var i :| OccursAt(s, w, i);
    var t := before + s + after;
    assert t[|before| + i..|before| + i + |w|] == s[i..i + |w|];
    assert OccursAt(t, w, |before| + i);
    ContainsIff(t, w);
  }
}
