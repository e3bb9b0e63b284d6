/**
 * The few JavaScript value semantics the application relies on:
 * truthiness in `a || b` and `String.prototype.trim`.
 */
module Js {
  import opened Wrappers

  /** `s || d` where `s` is a string or undefined: the empty string is falsy. */
  function OrString(s: Option<string>, d: string): (r: string)
    ensures s.Some? && s.value != "" ==> r == s.value
    ensures s.None? || s.value == "" ==> r == d
  {
    if s.Some? && s.value != "" then s.value else d
  }

  /** `b || false` where `b` is a boolean or undefined. */
  function OrFalse(b: Option<bool>): (r: bool)
    ensures r <==> b == Some(true)
  {
    b.Some? && b.value
  }

  /** `s || undefined`: keeps a non-empty string, maps '' and undefined to undefined. */
  function OrUndefined(s: Option<string>): (r: Option<string>)
    ensures r.None? <==> s.None? || s == Some("")
    ensures r.Some? ==> r == s
  {
    if s.Some? && s.value != "" then s else None
  }

  /**
   * WhiteSpace and LineTerminator code points of section 12.2 and 12.3 of
   * ECMAScript (ECMA-262), which `trim` removes at both ends.
   */
  predicate IsWhiteSpace(c: char) {
    c == '\U{9}' || c == '\U{B}' || c == '\U{C}' || c == '\U{20}' || c == '\U{A0}' ||
    c == '\U{FEFF}' || c == '\U{1680}' || ('\U{2000}' <= c <= '\U{200A}') ||
    c == '\U{202F}' || c == '\U{205F}' || c == '\U{3000}' ||
    c == '\U{A}' || c == '\U{D}' || c == '\U{2028}' || c == '\U{2029}'
  }

  /** A string that `trim` turns into '': every character is white space. */
  predicate IsBlank(s: string) {
    forall i :: 0 <= i < |s| ==> IsWhiteSpace(s[i])
  }

  /** Removes leading white space. */
  function TrimStart(s: string): string {
    if s != [] && IsWhiteSpace(s[0]) then TrimStart(s[1..]) else s
  }

  /** Removes trailing white space. */
  function TrimEnd(s: string): string {
    if s != [] && IsWhiteSpace(s[|s| - 1]) then TrimEnd(s[..|s| - 1]) else s
  }

  /** `String.prototype.trim`. */
  function Trim(s: string): string {
    TrimEnd(TrimStart(s))
  }

  /** `TrimStart` drops a blank prefix and stops at the first other character. */
  lemma {:induction false} TrimStartSplits(s: string)
    ensures var r := TrimStart(s);
      |r| <= |s| && r == s[|s| - |r|..] && IsBlank(s[..|s| - |r|]) && (r != [] ==> !IsWhiteSpace(r[0]))
  {
    if s != [] && IsWhiteSpace(s[0]) {
      TrimStartSplits(s[1..]);
      var r := TrimStart(s[1..]);
      assert s[..|s| - |r|] == [s[0]] + s[1..][..|s| - 1 - |r|];
    }
  }

  /** `TrimEnd` of a string is empty exactly when the string is blank. */
  lemma {:induction false} TrimEndEmptyIffBlank(s: string)
    ensures TrimEnd(s) == "" <==> IsBlank(s)
  {
    if s != [] && IsWhiteSpace(s[|s| - 1]) {
      TrimEndEmptyIffBlank(s[..|s| - 1]);
      assert s == s[..|s| - 1] + [s[|s| - 1]];
    }
  }

  /** `!s.trim()` holds exactly for the blank strings. */
  lemma TrimEmptyIffBlank(s: string)
    ensures Trim(s) == "" <==> IsBlank(s)
  {
    var t := TrimStart(s);
    TrimStartSplits(s);
    TrimEndEmptyIffBlank(t);
    if t != [] {
      assert t[0] == s[|s| - |t|];
    } else {
      assert s[..|s|] == s;
    }
  }
}
