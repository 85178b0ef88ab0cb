/** The string operations the handlers use: `String.prototype.trim`, `toLowerCase`, and
    the whitespace set that `trim`, `parseInt` and `JSON.parse` skip. */
module JsStrings {

  /** WhiteSpace and LineTerminator code points of ECMAScript (sections 12.2 and 12.3 of ECMA-262):
      TAB, VT, FF, ZWNBSP, every space separator (category Zs), LF, CR, LS and PS. */
  predicate IsWhiteSpace(c: char) {
    || c == '\t' || c == '\U{000B}' || c == '\U{000C}' || c == '\U{FEFF}'
    || c == ' ' || c == '\U{00A0}' || c == '\U{1680}' || ('\U{2000}' <= c <= '\U{200A}')
    || c == '\U{202F}' || c == '\U{205F}' || c == '\U{3000}'
    || c == '\n' || c == '\r' || c == '\U{2028}' || c == '\U{2029}'
  }

  /** The four whitespace characters JSON allows around a value (section 2 of RFC 8259). */
  predicate IsJsonWhiteSpace(c: char) {
    c == ' ' || c == '\t' || c == '\n' || c == '\r'
  }

  /** `s` without its leading characters in `ws`. */
  function TrimStart(s: string, ws: char -> bool): (r: string)
    ensures |r| <= |s| && r == s[|s| - |r|..]
    ensures forall i :: 0 <= i < |s| - |r| ==> ws(s[i])
    ensures r != [] ==> !ws(r[0])
  {
    if s != [] && ws(s[0]) then TrimStart(s[1..], ws) else s
  }

  /** `s` without its trailing characters in `ws`. */
  function TrimEnd(s: string, ws: char -> bool): (r: string)
    ensures |r| <= |s| && r == s[..|r|]
    ensures forall i :: |r| <= i < |s| ==> ws(s[i])
    ensures r != [] ==> !ws(r[|r| - 1])
  {
    if s != [] && ws(s[|s| - 1]) then TrimEnd(s[..|s| - 1], ws) else s
  }

  function Trim(s: string, ws: char -> bool): string {
    TrimEnd(TrimStart(s, ws), ws)
  }

  /** `String.prototype.trim`. */
  function JsTrim(s: string): (r: string)
    ensures r == [] || (!IsWhiteSpace(r[0]) && !IsWhiteSpace(r[|r| - 1]))
    ensures (forall i :: 0 <= i < |s| ==> IsWhiteSpace(s[i])) ==> r == []
  {
    Trim(s, IsWhiteSpace)
  }

  /** `r` is `s[i..i + |r|]`, and every character of `s` outside that part is whitespace. */
  predicate InnerPart(s: string, r: string, i: int) {
    && 0 <= i <= |s| - |r| && r == s[i..i + |r|]
    && (forall j :: 0 <= j < i ==> IsWhiteSpace(s[j]))
    && (forall j :: i + |r| <= j < |s| ==> IsWhiteSpace(s[j]))
  }

  /** The trim is a contiguous part of `s`: only whitespace is cut before it and after it. */
  lemma JsTrimSlice(s: string)
    ensures exists i :: InnerPart(s, JsTrim(s), i)
  {
    var t := TrimStart(s, IsWhiteSpace);
    var r := TrimEnd(t, IsWhiteSpace);
    var i := |s| - |t|;
    assert r == JsTrim(s);
    assert t == s[i..] && r == t[..|r|];
    assert r == s[i..i + |r|];
    assert forall j :: 0 <= j < i ==> IsWhiteSpace(s[j]);
    assert forall j :: i + |r| <= j < |s| ==> IsWhiteSpace(s[j]) by {
      forall j | i + |r| <= j < |s|
        ensures IsWhiteSpace(s[j])
      {
        assert s[j] == t[j - i];
      }
    }
    assert InnerPart(s, r, i);
  }

  /** A string with no whitespace at either end is its own trim. */
  lemma TrimOfTrimmed(s: string, ws: char -> bool)
    requires s == [] || (!ws(s[0]) && !ws(s[|s| - 1]))
    ensures Trim(s, ws) == s
  {
  }

  lemma JsTrimIdempotent(s: string)
    ensures JsTrim(JsTrim(s)) == JsTrim(s)
  {
    var t := JsTrim(s);
    assert t == [] || (!IsWhiteSpace(t[0]) && !IsWhiteSpace(t[|t| - 1]));
    TrimOfTrimmed(t, IsWhiteSpace);
    assert JsTrim(t) == Trim(t, IsWhiteSpace);
  }

  /** ASCII case mapping of `toLowerCase`. */
  function LowerChar(c: char): char {
    if 'A' <= c <= 'Z' then (c as int + 32) as char else c
  }

  /** `String.prototype.toLowerCase` (ASCII letters only). */
  function ToLower(s: string): (r: string)
    ensures |r| == |s|
    ensures forall i :: 0 <= i < |s| ==> r[i] == LowerChar(s[i])
  {
    if s == [] then [] else [LowerChar(s[0])] + ToLower(s[1..])
  }

  lemma ToLowerIdempotent(s: string)
    ensures ToLower(ToLower(s)) == ToLower(s)
  {
  }

  /** Lower-casing never turns a character into whitespace or back. */
  lemma LowerKeepsWhiteSpace(c: char)
    ensures IsWhiteSpace(LowerChar(c)) == IsWhiteSpace(c)
  {
  }

  lemma {:induction false} TrimStartToLower(s: string)
    ensures TrimStart(ToLower(s), IsWhiteSpace) == ToLower(TrimStart(s, IsWhiteSpace))
  {
    if s != [] {
      LowerKeepsWhiteSpace(s[0]);
      assert ToLower(s)[1..] == ToLower(s[1..]);
      if IsWhiteSpace(s[0]) {
        TrimStartToLower(s[1..]);
      }
    }
  }

  lemma {:induction false} TrimEndToLower(s: string)
    ensures TrimEnd(ToLower(s), IsWhiteSpace) == ToLower(TrimEnd(s, IsWhiteSpace))
  {
    if s != [] {
      LowerKeepsWhiteSpace(s[|s| - 1]);
      assert ToLower(s)[..|s| - 1] == ToLower(s[..|s| - 1]);
      if IsWhiteSpace(s[|s| - 1]) {
        TrimEndToLower(s[..|s| - 1]);
      }
    }
  }

  /** Trimming and lower-casing commute. */
  lemma JsTrimToLower(s: string)
    ensures JsTrim(ToLower(s)) == ToLower(JsTrim(s))
  {
    TrimStartToLower(s);
    TrimEndToLower(TrimStart(s, IsWhiteSpace));
  }

  /** Case-insensitive equality as the handlers write it: `a.toLowerCase() === b.toLowerCase()`. */
  predicate SameIgnoringCase(a: string, b: string) {
    ToLower(a) == ToLower(b)
  }
}
