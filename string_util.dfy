/**
 * StringUtil.isEmpty: a string is empty when it is null or has no
 * characters, or, when whitespace is excluded, when nothing is left after
 * trimming. A string is a seq<char>; a Dafny char is a Unicode scalar value
 * rather than a Java UTF-16 code unit, which trim cannot tell apart, since
 * every surrogate lies above the space.
 */
module StringUtil {
  import opened Wrappers

  /** What String.trim removes from either end: every character up to and including the space. */
  predicate IsTrimmed(c: char) {
    c <= ' '
  }

  /** String.trim: leading and trailing characters at or below the space removed. */
  function Trim(s: seq<char>): (r: seq<char>)
    ensures |r| <= |s|
  {
    TrimEnd(TrimStart(s))
  }

  function TrimStart(s: seq<char>): (r: seq<char>)
    ensures |r| <= |s|
  {
    if |s| > 0 && IsTrimmed(s[0]) then TrimStart(s[1..]) else s
  }

  function TrimEnd(s: seq<char>): (r: seq<char>)
    ensures |r| <= |s|
  {
    if |s| > 0 && IsTrimmed(s[|s| - 1]) then TrimEnd(s[..|s| - 1]) else s
  }

  /** isEmpty(string, excludeWhitespace). */
  function IsEmptyExcluding(s: Option<seq<char>>, excludeWhitespace: bool): (r: bool)
    ensures !excludeWhitespace ==> (r <==> s.None? || s.value == [])
    ensures excludeWhitespace ==> (r <==> s.None? || forall i :: 0 <= i < |s.value| ==> IsTrimmed(s.value[i]))
  {
    if s.None? then true
    else
      TrimEmpty(s.value);
      if excludeWhitespace then |Trim(s.value)| == 0 else |s.value| == 0
  }

  /** isEmpty(string): only null and the empty string are empty. */
  function IsEmpty(s: Option<seq<char>>): (r: bool)
    ensures r <==> s.None? || s.value == []
  {
    IsEmptyExcluding(s, false)
  }

  /** Trimming leaves nothing exactly when every character is at or below the space. */
  lemma {:induction false} TrimStartEmpty(s: seq<char>)
    ensures TrimStart(s) == [] <==> forall i :: 0 <= i < |s| ==> IsTrimmed(s[i])
  {
    if |s| > 0 && IsTrimmed(s[0]) {
      TrimStartEmpty(s[1..]);
      assert forall i :: 1 <= i < |s| ==> s[i] == s[1..][i - 1];
    }
  }

  /** TrimEnd of a string starting with a kept character keeps it. */
  lemma {:induction false} TrimEndKeepsFirst(s: seq<char>)
    requires |s| > 0 && !IsTrimmed(s[0])
    ensures |TrimEnd(s)| > 0
  {
    if IsTrimmed(s[|s| - 1]) {
      assert |s| > 1;
      TrimEndKeepsFirst(s[..|s| - 1]);
    }
  }

  lemma TrimEmpty(s: seq<char>)
    ensures Trim(s) == [] <==> forall i :: 0 <= i < |s| ==> IsTrimmed(s[i])
  {
    TrimStartEmpty(s);
    var t := TrimStart(s);
    if t != [] {
      assert !IsTrimmed(t[0]) by { TrimStartStopsAtKept(s); }
      TrimEndKeepsFirst(t);
    }
  }

  lemma {:induction false} TrimStartStopsAtKept(s: seq<char>)
    requires TrimStart(s) != []
    ensures !IsTrimmed(TrimStart(s)[0])
  {
    if |s| > 0 && IsTrimmed(s[0]) {
      TrimStartStopsAtKept(s[1..]);
    }
  }

  /** null is empty whichever way whitespace is treated. */
  lemma NullIsEmpty(excludeWhitespace: bool)
    ensures IsEmptyExcluding(None, excludeWhitespace)
  {
  }

  /**
   * With whitespace excluded a string is empty exactly when it holds nothing
   * but characters at or below the space; without, only "" is.
   */
  lemma IsEmptyExcludingSpec(s: seq<char>, excludeWhitespace: bool)
    ensures excludeWhitespace ==>
      (IsEmptyExcluding(Some(s), true) <==> forall i :: 0 <= i < |s| ==> IsTrimmed(s[i]))
    ensures !excludeWhitespace ==> (IsEmptyExcluding(Some(s), false) <==> s == [])
  {
    TrimEmpty(s);
  }

  /** "", "  " and a string with visible characters, in both modes. */
  lemma EmptyWhitespaceAndText()
    ensures IsEmptyExcluding(Some(""), false) && IsEmptyExcluding(Some(""), true)
    ensures !IsEmpty(Some("  ")) && IsEmptyExcluding(Some("  "), true)
    ensures !IsEmpty(Some("This is a String")) && !IsEmptyExcluding(Some("This is a String"), true)
  {
    IsEmptyExcludingSpec("  ", true);
    IsEmptyExcludingSpec("This is a String", true);
    assert !IsTrimmed("This is a String"[0]);
  }

  /** A character above the space makes a string non-empty in both modes. */
  lemma VisibleCharacterIsNotEmpty(s: seq<char>, i: nat, excludeWhitespace: bool)
    requires i < |s| && !IsTrimmed(s[i])
    ensures !IsEmptyExcluding(Some(s), excludeWhitespace)
  {
    IsEmptyExcludingSpec(s, excludeWhitespace);
  }
}
