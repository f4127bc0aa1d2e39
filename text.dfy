/**
  The character classes and the case-insensitive comparison the marina
  program takes from the C library (`isdigit`, `isspace`, `isalpha`,
  `tolower`, `strcasecmp`), in the "C" locale: only ASCII letters have case.
 */
module Text {

  predicate IsDigit(c: char) {
    '0' <= c <= '9'
  }

  /** `isspace`: space, tab, newline, vertical tab, form feed, carriage return. */
  predicate IsSpace(c: char) {
    c == ' ' || c == '\t' || c == '\n' || c == '\U{000B}' || c == '\U{000C}' || c == '\r'
  }

  predicate IsAlpha(c: char) {
    'a' <= c <= 'z' || 'A' <= c <= 'Z'
  }

  predicate IsUpper(c: char) {
    'A' <= c <= 'Z'
  }

  /** `tolower` */
  function LowerChar(c: char): (r: char)
    ensures !IsUpper(r)
    ensures IsAlpha(r) <==> IsAlpha(c)
    ensures !IsUpper(c) ==> r == c
  {
    if IsUpper(c) then (c as int + 32) as char else c
  }

  /** The string with every ASCII capital replaced by its small letter. */
  function Lower(s: string): (r: string)
    ensures |r| == |s|
  {
    if s == [] then [] else [LowerChar(s[0])] + Lower(s[1..])
  }

  /** A string with no capital letter is its own lower-case form. */
  lemma {:induction false} LowerOfLowercase(s: string)
    requires forall i :: 0 <= i < |s| ==> !IsUpper(s[i])
    ensures Lower(s) == s
  {
    if s != [] {
      LowerOfLowercase(s[1..]);
    }
  }

  /**
    `strcasecmp`, reduced to the sign of its result: the strings are compared
    character by character after lowering, and a proper prefix comes first.
    It is zero exactly when the strings are equal up to case.
   */
  function CaseCmp(s: string, t: string): (r: int)
    ensures -1 <= r <= 1
    ensures r == 0 <==> Lower(s) == Lower(t)
  {
    if s == [] then (if t == [] then 0 else -1)
    else if t == [] then 1
    else
      var a, b := LowerChar(s[0]), LowerChar(t[0]);
      assert Lower(s) == [a] + Lower(s[1..]) && Lower(t) == [b] + Lower(t[1..]);
      if a < b then
        assert Lower(s)[0] != Lower(t)[0];
        -1
      else if a > b then
        assert Lower(s)[0] != Lower(t)[0];
        1
      else
        assert Lower(s) == Lower(t) <==> Lower(s[1..]) == Lower(t[1..]) by {
          if Lower(s) == Lower(t) {
            assert Lower(s[1..]) == Lower(s)[1..] && Lower(t[1..]) == Lower(t)[1..];
          }
        }
        CaseCmp(s[1..], t[1..])
  }

  /** Swapping the arguments negates the comparison. */
  lemma {:induction false} CaseCmpAntisymmetric(s: string, t: string)
    ensures CaseCmp(t, s) == -CaseCmp(s, t)
  {
    if s != [] && t != [] && LowerChar(s[0]) == LowerChar(t[0]) {
      CaseCmpAntisymmetric(s[1..], t[1..]);
    }
  }

  /** "Not after" is transitive, so sorting by CaseCmp is well defined. */
  lemma {:induction false} CaseCmpTransitive(s: string, t: string, u: string)
    requires CaseCmp(s, t) <= 0 && CaseCmp(t, u) <= 0
    ensures CaseCmp(s, u) <= 0
  {
    if s != [] && t != [] && u != []
       && LowerChar(s[0]) == LowerChar(t[0]) && LowerChar(t[0]) == LowerChar(u[0]) {
      CaseCmpTransitive(s[1..], t[1..], u[1..]);
    }
  }
}
