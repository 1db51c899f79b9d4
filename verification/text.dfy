/** The string operations the routes apply to request fields:
    `String.prototype.trim`, `String.prototype.toLowerCase` and the PIN
    pattern `^\d{4,6}$`. Strings are sequences of Unicode scalar values. */
module Text {

  /** The characters `trim` removes: ECMAScript WhiteSpace and LineTerminator. */
  predicate IsSpace(c: char)
  {
    || c == ' ' || c == '\t' || c == '\n' || c == '\r'
    || c == '\U{000B}' || c == '\U{000C}' || c == '\U{00A0}' || c == '\U{1680}'
    || ('\U{2000}' <= c <= '\U{200A}')
    || c == '\U{2028}' || c == '\U{2029}' || c == '\U{202F}' || c == '\U{205F}'
    || c == '\U{3000}' || c == '\U{FEFF}'
  }

  /** An ASCII decimal digit, the class `\d` of a JavaScript regular expression. */
  predicate IsDigit(c: char)
  {
    '0' <= c <= '9'
  }

  function TrimStart(s: string): (r: string)
    ensures |r| <= |s| && r == s[|s| - |r|..]
    ensures forall i :: 0 <= i < |s| - |r| ==> IsSpace(s[i])
    ensures r == [] || !IsSpace(r[0])
  {
    if s != [] && IsSpace(s[0]) then TrimStart(s[1..]) else s
  }

  function TrimEnd(s: string): (r: string)
    ensures |r| <= |s| && r == s[..|r|]
    ensures forall i :: |r| <= i < |s| ==> IsSpace(s[i])
    ensures r == [] || !IsSpace(r[|r| - 1])
  {
    if s != [] && IsSpace(s[|s| - 1]) then TrimEnd(s[..|s| - 1]) else s
  }

  /** `r` is the piece of `s` starting at `i`, and everything around it is
      white space. */
  ghost predicate IsSpaceCut(s: string, r: string, i: int)
  {
    && 0 <= i <= |s| - |r|
    && r == s[i..i + |r|]
    && (forall k :: 0 <= k < i ==> IsSpace(s[k]))
    && (forall k :: i + |r| <= k < |s| ==> IsSpace(s[k]))
  }

  /** Neither starts nor ends with white space: what a `trim: true`
      schema path stores. */
  predicate IsTrimmed(s: string)
  {
    s == [] || (!IsSpace(s[0]) && !IsSpace(s[|s| - 1]))
  }

  /** `trim`: `s` without its leading and trailing white space. The result
      is a contiguous piece of `s`, everything cut away is white space, and
      what remains neither starts nor ends with it. */
  function Trim(s: string): (r: string)
    ensures exists i :: IsSpaceCut(s, r, i)
    ensures IsTrimmed(r)
  {
    var a := TrimStart(s);
    var r := TrimEnd(a);
    var i := |s| - |a|;
    assert IsSpaceCut(s, r, i);
    r
  }

  /** A string without surrounding white space is its own trim. */
  lemma TrimmedIsFixed(s: string)
    requires IsTrimmed(s)
    ensures Trim(s) == s
  {
    if s != [] {
      assert TrimStart(s) == s;
      assert TrimEnd(s) == s;
    }
  }

  /** Trimming twice is trimming once. */
  lemma TrimIdempotent(s: string)
    ensures Trim(Trim(s)) == Trim(s)
  {
    var r := Trim(s);
    if r != [] {
      assert TrimStart(r) == r;
      assert TrimEnd(r) == r;
    }
  }

  predicate IsUpper(c: char)
  {
    'A' <= c <= 'Z'
  }

  /** No ASCII capital letter: what a `lowercase: true` schema path stores. */
  predicate IsLowerCase(s: string)
  {
    forall i :: 0 <= i < |s| ==> !IsUpper(s[i])
  }

  /** ASCII case mapping of one character. */
  function LowerChar(c: char): (d: char)
    ensures IsSpace(d) == IsSpace(c)
    ensures IsUpper(c) == (d != c)
    ensures !IsUpper(d)
  {
    if 'A' <= c <= 'Z' then (c as int + 32) as char else c
  }

  /** `toLowerCase`, restricted to the ASCII letters. */
  function ToLower(s: string): (r: string)
    ensures |r| == |s|
    ensures forall i :: 0 <= i < |s| ==> r[i] == LowerChar(s[i])
    ensures IsLowerCase(r)
  {
    if s == [] then [] else [LowerChar(s[0])] + ToLower(s[1..])
  }

  /** The username key both `/register` and `/login` look users up by:
      `username.toLowerCase().trim()`. */
  function NormalizeUsername(s: string): string
  {
    Trim(ToLower(s))
  }

  /** Lower-casing never touches white space, so it commutes with `trim`,
      and the normalized key is as long as the trimmed input. */
  lemma {:induction false} NormalizeIsLowerOfTrim(s: string)
    ensures NormalizeUsername(s) == ToLower(Trim(s))
    ensures |NormalizeUsername(s)| == |Trim(s)|
  {
    TrimStartLower(s);
    TrimEndLower(TrimStart(s));
  }

  lemma {:induction false} TrimStartLower(s: string)
    ensures TrimStart(ToLower(s)) == ToLower(TrimStart(s))
  {
    if s != [] {
      assert ToLower(s)[1..] == ToLower(s[1..]);
      TrimStartLower(s[1..]);
    }
  }

  lemma {:induction false} TrimEndLower(s: string)
    ensures TrimEnd(ToLower(s)) == ToLower(TrimEnd(s))
  {
    if s != [] {
      assert ToLower(s)[..|s| - 1] == ToLower(s[..|s| - 1]);
      TrimEndLower(s[..|s| - 1]);
    }
  }

  /** A text without capital letters is its own lower-casing. */
  lemma LowerCaseIsFixed(s: string)
    requires IsLowerCase(s)
    ensures ToLower(s) == s
  {
    assert forall i :: 0 <= i < |s| ==> ToLower(s)[i] == s[i];
  }

  /** Lower-casing twice is lower-casing once. */
  lemma ToLowerIdempotent(s: string)
    ensures ToLower(ToLower(s)) == ToLower(s)
  {
  }

  /** The normalized key is trimmed and lower-case, hence a fixed point
      of normalization. */
  lemma NormalizeIsNormal(s: string)
    ensures IsTrimmed(NormalizeUsername(s)) && IsLowerCase(NormalizeUsername(s))
    ensures Trim(NormalizeUsername(s)) == NormalizeUsername(s)
    ensures ToLower(NormalizeUsername(s)) == NormalizeUsername(s)
  {
    TrimIdempotent(ToLower(s));
    NormalizeIsLowerOfTrim(s);
    ToLowerIdempotent(Trim(s));
  }

  /** `/^\d{4,6}$/.test(pin)`: four to six ASCII digits and nothing else. */
  predicate IsPinFormat(pin: string)
  {
    4 <= |pin| <= 6 && forall i :: 0 <= i < |pin| ==> IsDigit(pin[i])
  }
}
