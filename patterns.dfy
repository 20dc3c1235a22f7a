/**
 * The three regular expressions the API routes test, each written out as a
 * character-level predicate (anchored with `^` and `$`, no flags, so `\d`
 * and `[0-9]` are the ASCII digits and the whole string must match).
 */
module Patterns {
  import opened Wrappers
  import opened Text

  predicate AllDigits(s: string) {
    forall i :: 0 <= i < |s| ==> IsDigit(s[i])
  }

  /** `/^\d{5}-\d{7}-\d{1}$/`: a Pakistani CNIC such as 12345-1234567-1. */
  predicate IsCnic(s: string) {
    && |s| == 15
    && AllDigits(s[..5]) && s[5] == '-'
    && AllDigits(s[6..13]) && s[13] == '-'
    && IsDigit(s[14])
  }

  /** A CNIC is three digit groups of lengths 5, 7 and 1 joined by hyphens. */
  lemma CnicIsGroups(a: string, b: string, c: string)
    requires |a| == 5 && |b| == 7 && |c| == 1
    ensures IsCnic(a + "-" + b + "-" + c) <==> AllDigits(a) && AllDigits(b) && AllDigits(c)
  {
    var s := a + "-" + b + "-" + c;
    assert s[..5] == a && s[6..13] == b && s[14] == c[0];
    assert s[5] == '-' && s[13] == '-';
  }

  /** A CNIC has no white space, so the schema's `trim` leaves it as it is. */
  lemma CnicSurvivesTrim(s: string)
    requires IsCnic(s)
    ensures NoSpace(s) && Trim(s) == s
  {
    forall i | 0 <= i < |s| ensures !IsSpace(s[i]) {
      if i < 5 { assert s[..5][i] == s[i]; }
      else if 6 <= i < 13 { assert s[6..13][i - 6] == s[i]; }
    }
    TrimNoSpace(s);
  }

  /** `/^[0-9]{11}$/`. */
  predicate IsPhone(s: string) {
    |s| == 11 && AllDigits(s)
  }

  /** A phone number has no white space either. */
  lemma PhoneSurvivesTrim(s: string)
    requires IsPhone(s)
    ensures NoSpace(s) && Trim(s) == s
  {
    TrimNoSpace(s);
  }

  /**
   * `/^\S+@\S+\.\S+$/` as the regular expression defines it: no white space
   * anywhere, and an '@' and a later '.' that split the string into three
   * non-empty parts. The `\S` runs may themselves contain '@' and '.'.
   */
  predicate EmailShape(s: string) {
    NoSpace(s) && exists i, j | 0 <= i < j < |s| :: EmailSplit(s, i, j)
  }

  predicate EmailSplit(s: string, i: int, j: int)
    requires 0 <= i < j < |s|
  {
    1 <= i && i + 2 <= j && j + 2 <= |s| && s[i] == '@' && s[j] == '.'
  }

  /** The first occurrence of `c` at or after `from`. */
  function FirstFrom(s: string, c: char, from: nat): (r: Option<nat>)
    ensures r.Some? ==> from <= r.value < |s| && s[r.value] == c
    ensures r.Some? ==> forall k :: from <= k < r.value ==> s[k] != c
    ensures r.None? ==> forall k :: from <= k < |s| ==> s[k] != c
    decreases |s| - from
  {
    if from >= |s| then None
    else if s[from] == c then Some(from)
    else FirstFrom(s, c, from + 1)
  }

  /** The last occurrence of `c` strictly before `upto`. */
  function LastBefore(s: string, c: char, upto: nat): (r: Option<nat>)
    requires upto <= |s|
    ensures r.Some? ==> r.value < upto && s[r.value] == c
    ensures r.Some? ==> forall k :: r.value < k < upto ==> s[k] != c
    ensures r.None? ==> forall k :: 0 <= k < upto ==> s[k] != c
  {
    if upto == 0 then None
    else if s[upto - 1] == c then Some(upto - 1)
    else LastBefore(s, c, upto - 1)
  }

  /**
   * A one-pass matcher: take the first '@' after the first character and
   * the last '.' before the last character, and check that at least one
   * character lies between them.
   */
  function MatchEmail(s: string): bool {
    && NoSpace(s)
    && |s| >= 2
    && match FirstFrom(s, '@', 1)
       case None => false
       case Some(i) =>
         match LastBefore(s, '.', |s| - 1)
         case None => false
         case Some(j) => i + 2 <= j
  }

  /** The matcher accepts exactly the strings the regular expression does. */
  lemma MatchEmailIsShape(s: string)
    ensures MatchEmail(s) <==> EmailShape(s)
  {
    if MatchEmail(s) {
      var i := FirstFrom(s, '@', 1).value;
      var j := LastBefore(s, '.', |s| - 1).value;
      assert EmailSplit(s, i, j);
    }
    if EmailShape(s) {
      var i, j :| 0 <= i < j < |s| && EmailSplit(s, i, j);
      var a := FirstFrom(s, '@', 1);
      assert a.Some? && a.value <= i;
      var b := LastBefore(s, '.', |s| - 1);
      assert b.Some? && j <= b.value;
    }
  }

  /** A valid email has no white space, so `trim` keeps it. */
  lemma EmailSurvivesTrim(s: string)
    requires EmailShape(s)
    ensures Trim(s) == s
  {
    TrimNoSpace(s);
  }
}
