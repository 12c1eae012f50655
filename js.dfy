/**
 * The few JavaScript built-ins the contact form and the relay lean on:
 * `undefined`/`null` as an option, the whitespace class shared by `\s` and
 * `String.prototype.trim`, and the test the form's email regex performs.
 */
module Js {

  datatype Option<+T> = None | Some(value: T)

  /** ECMAScript WhiteSpace and LineTerminator code points: what `\s` matches and `trim` strips. */
  predicate IsSpace(c: char) {
    || c == '\t' || c == '\n' || c == '\U{B}' || c == '\U{C}' || c == '\r'
    || c == ' ' || c == '\U{A0}' || c == '\U{1680}'
    || ('\U{2000}' <= c <= '\U{200A}')
    || c == '\U{2028}' || c == '\U{2029}' || c == '\U{202F}' || c == '\U{205F}'
    || c == '\U{3000}' || c == '\U{FEFF}'
  }

  predicate NoSpace(s: string) {
    forall i :: 0 <= i < |s| ==> !IsSpace(s[i])
  }

  predicate AllSpace(s: string) {
    forall i :: 0 <= i < |s| ==> IsSpace(s[i])
  }

  /** Drops leading whitespace, and only that. */
  function TrimStart(s: string): (r: string)
    ensures |r| <= |s| && r == s[|s| - |r|..]
    ensures AllSpace(s[..|s| - |r|])
    ensures r == [] || !IsSpace(r[0])
    ensures r == [] <==> AllSpace(s)
  {
    if s != [] && IsSpace(s[0]) then
      var r := TrimStart(s[1..]);
      TrimStartStep(s, r);
      r
    else s
  }

  /** One step of `TrimStart`: a leading space joins the whitespace cut from the rest. */
  lemma TrimStartStep(s: string, r: string)
    requires s != [] && IsSpace(s[0])
    requires |r| <= |s| - 1 && r == s[1..][|s| - 1 - |r|..] && AllSpace(s[1..][..|s| - 1 - |r|])
    requires r == [] <==> AllSpace(s[1..])
    ensures r == s[|s| - |r|..] && AllSpace(s[..|s| - |r|])
    ensures r == [] <==> AllSpace(s)
  {
    var cut, cutFromRest := s[..|s| - |r|], s[1..][..|s| - 1 - |r|];
    assert forall i | 1 <= i < |cut| :: cut[i] == cutFromRest[i - 1];
    assert forall i | 1 <= i < |s| :: s[i] == s[1..][i - 1];
  }

  /** Drops trailing whitespace, and only that. */
  function TrimEnd(s: string): (r: string)
    ensures |r| <= |s| && r == s[..|r|]
    ensures AllSpace(s[|r|..])
    ensures r == [] || !IsSpace(r[|r| - 1])
    ensures r == [] <==> AllSpace(s)
  {
    if s != [] && IsSpace(s[|s| - 1]) then
      var r := TrimEnd(s[..|s| - 1]);
      SpacesThenSpace(s, |r|);
      r
    else s
  }

  lemma SpacesThenSpace(s: string, k: nat)
    requires k < |s| && IsSpace(s[|s| - 1]) && AllSpace(s[..|s| - 1][k..])
    ensures AllSpace(s[k..])
  {
    assert forall i | 0 <= i < |s| - 1 - k :: s[k..][i] == s[..|s| - 1][k..][i];
  }

  /** `r` is `s` with `a` whitespace characters cut from the front and only whitespace from the back. */
  predicate StripsTo(s: string, a: nat, r: string) {
    && a + |r| <= |s|
    && r == s[a..a + |r|]
    && AllSpace(s[..a])
    && AllSpace(s[a + |r|..])
  }

  /**
   * `s.trim()`: the input with its leading and trailing whitespace removed
   * and nothing else; empty exactly for all-whitespace strings, and the
   * identity on already trimmed ones.
   */
  function Trim(s: string): (r: string)
    ensures |r| <= |s|
    ensures exists a :: StripsTo(s, a, r)
    ensures r == [] <==> AllSpace(s)
    ensures r == [] || (!IsSpace(r[0]) && !IsSpace(r[|r| - 1]))
    ensures (s == [] || (!IsSpace(s[0]) && !IsSpace(s[|s| - 1]))) ==> r == s
  {
    var middle := TrimStart(s);
    var r := TrimEnd(middle);
    StripBoth(s, |s| - |middle|, middle, r);
    r
  }

  /** Cutting whitespace off the front and then off the back cuts only whitespace from `s`. */
  lemma StripBoth(s: string, a: nat, middle: string, r: string)
    requires a <= |s| && middle == s[a..] && AllSpace(s[..a])
    requires middle == [] || !IsSpace(middle[0])
    requires middle == [] <==> AllSpace(s)
    requires |r| <= |middle| && r == middle[..|r|] && AllSpace(middle[|r|..])
    requires r == [] || !IsSpace(r[|r| - 1])
    requires r == [] <==> AllSpace(middle)
    ensures StripsTo(s, a, r)
    ensures r == [] <==> AllSpace(s)
    ensures r == [] || (!IsSpace(r[0]) && !IsSpace(r[|r| - 1]))
    ensures (s == [] || (!IsSpace(s[0]) && !IsSpace(s[|s| - 1]))) ==> r == s
  {
    assert s[a + |r|..] == middle[|r|..];
    if r != [] {
      assert r[0] == middle[0];
    }
  }

  /** `!s.trim()`: the form's "is required" test, which holds of the all-whitespace strings. */
  predicate IsBlank(s: string) {
    AllSpace(s)
  }

  lemma BlankIffTrimEmpty(s: string)
    ensures IsBlank(s) <==> Trim(s) == ""
  {
  }

  /** Index of the first `c` in `s` at or after `from`, or -1. */
  function IndexOfFrom(s: string, c: char, from: nat): (k: int)
    ensures k == -1 || (from <= k < |s| && s[k] == c)
    ensures forall i :: from <= i < |s| && (k == -1 || i < k) ==> s[i] != c
    decreases |s| - from
  {
    if from >= |s| then -1
    else if s[from] == c then from
    else IndexOfFrom(s, c, from + 1)
  }

  /** Index of the last `c` in `s`, or -1. */
  function LastIndexOf(s: string, c: char): (k: int)
    ensures -1 <= k < |s|
    ensures k >= 0 ==> s[k] == c
    ensures forall i :: k < i < |s| ==> s[i] != c
  {
    if s == [] then -1
    else if s[|s| - 1] == c then |s| - 1
    else LastIndexOf(s[..|s| - 1], c)
  }

  /**
   * `/^\S+@\S+\.\S+$/.test(s)`: no whitespace, and the first `@` after the
   * first character lies at least two places before the last `.` that is
   * not the final character.
   */
  predicate IsEmailShaped(s: string) {
    && NoSpace(s)
    && |s| > 0
    && var at := IndexOfFrom(s, '@', 1);
       var dot := LastIndexOf(s[..|s| - 1], '.');
       at >= 1 && dot >= at + 2
  }

  /** The shape stated on positions: an `@` after at least one character, a `.` two or more places later, and a character after that. */
  ghost predicate HasAtThenDot(s: string) {
    exists i, j | 0 < i < |s| && i + 2 <= j < |s| - 1 :: s[i] == '@' && s[j] == '.'
  }

  lemma EmailShapedIffPositions(s: string)
    ensures IsEmailShaped(s) <==> NoSpace(s) && HasAtThenDot(s)
  {
    if |s| > 0 {
      var at := IndexOfFrom(s, '@', 1);
      var dot := LastIndexOf(s[..|s| - 1], '.');
      if at >= 1 && dot >= at + 2 {
        assert s[dot] == s[..|s| - 1][dot];
      }
      if HasAtThenDot(s) {
        var i, j :| 0 < i < |s| && i + 2 <= j < |s| - 1 && s[i] == '@' && s[j] == '.';
        assert 1 <= at <= i;
        assert s[..|s| - 1][j] == '.';
        assert j <= dot;
      }
    }
  }

  /** A `\S+` run. */
  ghost predicate Word(w: string) {
    |w| > 0 && NoSpace(w)
  }

  /** The regular expression read literally: three `\S+` runs joined by `@` and `.`. */
  ghost predicate MatchesEmailPattern(s: string) {
    exists a, b, c {:trigger Word(a), Word(b), Word(c)} ::
      Word(a) && Word(b) && Word(c) && s == a + "@" + b + "." + c
  }

  lemma EmailShapedIffPattern(s: string)
    ensures IsEmailShaped(s) <==> MatchesEmailPattern(s)
  {
    EmailShapedIffPositions(s);
    if NoSpace(s) && HasAtThenDot(s) {
      ShapedMatchesPattern(s);
    }
    if MatchesEmailPattern(s) {
      PatternIsShaped(s);
    }
  }

  /** The positions of an `@` and a later `.` cut the string into the regular expression's three runs. */
  lemma ShapedMatchesPattern(s: string)
    requires NoSpace(s) && HasAtThenDot(s)
    ensures MatchesEmailPattern(s)
  {
    var i, j :| 0 < i < |s| && i + 2 <= j < |s| - 1 && s[i] == '@' && s[j] == '.';
    var a, b, c := s[..i], s[i + 1..j], s[j + 1..];
    assert Word(a) by {
      forall k | 0 <= k < |a| ensures !IsSpace(a[k]) { assert a[k] == s[k]; }
    }
    assert Word(b) by {
      forall k | 0 <= k < |b| ensures !IsSpace(b[k]) { assert b[k] == s[i + 1 + k]; }
    }
    assert Word(c) by {
      forall k | 0 <= k < |c| ensures !IsSpace(c[k]) { assert c[k] == s[j + 1 + k]; }
    }
    assert s == a + "@" + b + "." + c;
  }

  /** Three `\S+` runs joined by `@` and `.` put an `@` and a `.` at the positions the shape test looks for. */
  lemma PatternIsShaped(s: string)
    requires MatchesEmailPattern(s)
    ensures NoSpace(s) && HasAtThenDot(s)
  {
    var a, b, c :| Word(a) && Word(b) && Word(c) && s == a + "@" + b + "." + c;
    var i, j := |a|, |a| + 1 + |b|;
    assert s[i] == '@' && s[j] == '.';
    forall k | 0 <= k < |s| ensures !IsSpace(s[k]) {
      if k < i {
        assert s[k] == a[k];
      } else if i < k < j {
        assert s[k] == b[k - i - 1];
      } else if j < k {
        assert s[k] == c[k - j - 1];
      }
    }
  }

  /** A non-blank string that starts or ends with whitespace never passes the email test. */
  lemma PaddedEmailIsNotShaped(s: string)
    requires s != [] && (IsSpace(s[0]) || IsSpace(s[|s| - 1]))
    ensures !IsEmailShaped(s)
  {
  }
}
