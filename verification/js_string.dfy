/** The two JavaScript string primitives the input check relies on:
    `String.prototype.trim` and the `length` property, which counts UTF-16
    code units rather than characters. Dafny characters are Unicode scalar
    values, so a character outside the Basic Multilingual Plane counts twice. */
module JsString {

  /** The code points `trim` removes: the WhiteSpace production of the
      ECMAScript language specification (TAB, VT, FF, ZWNBSP and every
      Unicode space separator, category Zs) and its LineTerminator
      production (LF, CR, LINE SEPARATOR, PARAGRAPH SEPARATOR). */
  predicate IsWhitespace(c: char) {
    || c == '\t' || c == '\n' || c == '\U{000B}' || c == '\U{000C}' || c == '\r'
    || c == ' ' || c == '\U{00A0}' || c == '\U{1680}'
    || ('\U{2000}' <= c <= '\U{200A}')
    || c == '\U{2028}' || c == '\U{2029}' || c == '\U{202F}' || c == '\U{205F}'
    || c == '\U{3000}' || c == '\U{FEFF}'
  }

  /** `s` with its leading whitespace removed: a suffix of `s` that starts
      with a non-whitespace character (or is empty), and everything cut off
      is whitespace. */
  function TrimStart(s: string): (r: string)
    ensures |r| <= |s| && r == s[|s| - |r|..]
    ensures forall k :: 0 <= k < |s| - |r| ==> IsWhitespace(s[k])
    ensures r != [] ==> !IsWhitespace(r[0])
  {
    if s != [] && IsWhitespace(s[0]) then TrimStart(s[1..]) else s
  }

  /** `s` with its trailing whitespace removed: a prefix of `s` that ends
      with a non-whitespace character (or is empty), and everything cut off
      is whitespace. */
  function TrimEnd(s: string): (r: string)
    ensures |r| <= |s| && r == s[..|r|]
    ensures forall k :: |r| <= k < |s| ==> IsWhitespace(s[k])
    ensures r != [] ==> !IsWhitespace(r[|r| - 1])
  {
    if s != [] && IsWhitespace(s[|s| - 1]) then TrimEnd(s[..|s| - 1]) else s
  }

  /** `r` is the slice `s[i..i + |r|]`, and everything outside it is whitespace. */
  ghost predicate SliceWithWhitespaceAround(s: string, r: string, i: nat) {
    && i + |r| <= |s|
    && r == s[i..i + |r|]
    && (forall k :: 0 <= k < i ==> IsWhitespace(s[k]))
    && (forall k :: i + |r| <= k < |s| ==> IsWhitespace(s[k]))
  }

  /** Neither end of `r` is whitespace. */
  predicate HasNoBorderWhitespace(r: string) {
    r != [] ==> !IsWhitespace(r[0]) && !IsWhitespace(r[|r| - 1])
  }

  /** `String.prototype.trim`: the slice of `s` left after removing leading
      and trailing whitespace. */
  function Trim(s: string): (r: string)
    ensures SliceWithWhitespaceAround(s, r, |s| - |TrimStart(s)|)
    ensures HasNoBorderWhitespace(r)
  {
    TrimEndOfSuffix(s, TrimStart(s));
    TrimEnd(TrimStart(s))
  }

  /** Trimming the end of a suffix `t` of `s` leaves a slice of `s` that has
      whitespace on both sides. */
  lemma TrimEndOfSuffix(s: string, t: string)
    requires |t| <= |s| && t == s[|s| - |t|..]
    requires forall k :: 0 <= k < |s| - |t| ==> IsWhitespace(s[k])
    requires t != [] ==> !IsWhitespace(t[0])
    ensures SliceWithWhitespaceAround(s, TrimEnd(t), |s| - |t|)
    ensures HasNoBorderWhitespace(TrimEnd(t))
  {
    var r := TrimEnd(t);
    PrefixOfSuffix(s, t, r);
  }

  /** A prefix `r` of a suffix `t` of `s`, with only whitespace after it in
      `t`, is a slice of `s` with only whitespace after it in `s`. */
  lemma PrefixOfSuffix(s: string, t: string, r: string)
    requires |t| <= |s| && t == s[|s| - |t|..]
    requires |r| <= |t| && r == t[..|r|]
    requires forall k :: |r| <= k < |t| ==> IsWhitespace(t[k])
    ensures r == s[|s| - |t|..|s| - |t| + |r|]
    ensures forall k :: |s| - |t| + |r| <= k < |s| ==> IsWhitespace(s[k])
    ensures r != [] ==> r[0] == t[0]
  {
    var i := |s| - |t|;
    forall k | i + |r| <= k < |s|
      ensures IsWhitespace(s[k])
    {
      assert s[k] == t[k - i];
    }
  }

  /** Trim is the ONLY slice of `s` that has whitespace around it and none at
      its borders: an independent characterisation of what `Trim` returns. */
  lemma TrimUnique(s: string, r: string, i: nat)
    requires SliceWithWhitespaceAround(s, r, i)
    requires HasNoBorderWhitespace(r)
    ensures r == Trim(s)
  {
  }

  /** Trimming twice is trimming once. */
  lemma TrimIdempotent(s: string)
    ensures Trim(Trim(s)) == Trim(s)
  {
    var t := Trim(s);
    assert SliceWithWhitespaceAround(t, t, 0) by {
      assert t == t[0..|t|];
    }
    TrimUnique(t, t, 0);
  }

  /** The trimmed text is empty exactly when every character is whitespace. */
  lemma TrimEmptyIffAllWhitespace(s: string)
    ensures Trim(s) == [] <==> forall k :: 0 <= k < |s| ==> IsWhitespace(s[k])
  {
    if forall k :: 0 <= k < |s| ==> IsWhitespace(s[k]) {
      assert SliceWithWhitespaceAround(s, [], 0);
      TrimUnique(s, [], 0);
    }
  }

  /** A character outside the Basic Multilingual Plane, stored by JavaScript
      as a surrogate pair. */
  predicate IsSupplementary(c: char) {
    c as int >= 0x1_0000
  }

  /** UTF-16 code units `c` occupies. */
  function CodeUnits(c: char): nat {
    if IsSupplementary(c) then 2 else 1
  }

  /** The JavaScript `length` of `s`: between one and two code units per
      character, exactly one per character when none is supplementary. With
      `Utf16LengthAppend` the single-character case fixes the value. */
  function Utf16Length(s: string): (n: nat)
    ensures |s| <= n <= 2 * |s|
    ensures n == |s| <==> forall k :: 0 <= k < |s| ==> !IsSupplementary(s[k])
    ensures |s| == 1 ==> n == CodeUnits(s[0])
  {
    if s == [] then 0 else CodeUnits(s[0]) + Utf16Length(s[1..])
  }

  /** The JavaScript length of a concatenation is the sum of the lengths. */
  lemma {:induction false} Utf16LengthAppend(a: string, b: string)
    ensures Utf16Length(a + b) == Utf16Length(a) + Utf16Length(b)
  {
    if a == [] {
      assert a + b == b;
    } else {
      assert (a + b)[1..] == a[1..] + b;
      Utf16LengthAppend(a[1..], b);
    }
  }
}
