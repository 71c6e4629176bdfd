/** Plugin names: the registry's case folding and the name pattern `[A-Za-z][_A-Za-z0-9]+`. */
module Names {

  predicate IsAsciiUpper(c: char) { 'A' <= c <= 'Z' }

  predicate IsAsciiLetter(c: char) { 'a' <= c <= 'z' || IsAsciiUpper(c) }

  predicate IsAsciiDigit(c: char) { '0' <= c <= '9' }

  /** The second character class of the pattern: `_`, an ASCII letter or an ASCII digit. */
  predicate IsNameChar(c: char) { c == '_' || IsAsciiLetter(c) || IsAsciiDigit(c) }

  /** `String.toLowerCase` on one character, restricted to ASCII. */
  function LowerChar(c: char): (r: char)
    ensures IsAsciiUpper(c) ==> r as int == c as int + 32
    ensures !IsAsciiUpper(c) ==> r == c
    ensures !IsAsciiUpper(r)
  {
    if IsAsciiUpper(c) then (c as int + 32) as char else c
  }

  /** The registry key of a name: `name.toLowerCase()`. */
  function Lower(s: string): (r: string)
  {
    seq(|s|, i requires 0 <= i < |s| => LowerChar(s[i]))
  }

  /** Lowering a key again gives the same key, so a registry key is its own key. */
  lemma LowerIdempotent(s: string)
    ensures Lower(Lower(s)) == Lower(s)
  {
    var once := Lower(s);
    var twice := Lower(once);
    forall i | 0 <= i < |s| ensures twice[i] == once[i] {
      assert !IsAsciiUpper(once[i]);
    }
  }

  /** Lowering keeps every name character a name character. */
  lemma LowerKeepsNameChars(s: string)
    requires forall i :: 0 <= i < |s| ==> IsNameChar(s[i])
    ensures forall i :: 0 <= i < |Lower(s)| ==> IsNameChar(Lower(s)[i])
  {
  }

  /** What a full match of `[A-Za-z][_A-Za-z0-9]+` means, stated by character classes. */
  predicate ValidName(s: string)
  {
    && |s| >= 2
    && IsAsciiLetter(s[0])
    && forall i :: 1 <= i < |s| ==> IsNameChar(s[i])
  }

  /** The states of a matcher for the pattern: before the first class, after it, inside the `+` loop. */
  datatype MatchState = Begin | AfterFirst | InRest | Dead

  function Step(st: MatchState, c: char): MatchState
  {
    match st
    case Begin => if IsAsciiLetter(c) then AfterFirst else Dead
    case AfterFirst => if IsNameChar(c) then InRest else Dead
    case InRest => if IsNameChar(c) then InRest else Dead
    case Dead => Dead
  }

  function Run(st: MatchState, s: string): MatchState
    decreases |s|
  {
    if s == [] then st else Run(Step(st, s[0]), s[1..])
  }

  /** `String.matches(NAME_REGEX)`: the matcher consumes the whole input and accepts. */
  predicate MatchesNameRegex(s: string)
  {
    Run(Begin, s) == InRest
  }

  lemma {:induction false} RunDeadStays(s: string)
    ensures Run(Dead, s) == Dead
    decreases |s|
  {
    if s != [] { RunDeadStays(s[1..]); }
  }

  lemma {:induction false} RunInRest(s: string)
    ensures Run(InRest, s) == InRest <==> forall i :: 0 <= i < |s| ==> IsNameChar(s[i])
    decreases |s|
  {
    if s != [] {
      RunInRest(s[1..]);
      if !IsNameChar(s[0]) {
        RunDeadStays(s[1..]);
      } else {
        assert forall i :: 1 <= i < |s| ==> s[i] == s[1..][i - 1];
      }
    }
  }

  /** The matcher and the character-class reading of the pattern agree on every string. */
  lemma {:induction false} MatchesNameRegexIff(s: string)
    ensures MatchesNameRegex(s) <==> ValidName(s)
  {
    if s == [] {
    } else if !IsAsciiLetter(s[0]) {
      RunDeadStays(s[1..]);
    } else {
      var t := s[1..];
      assert Run(Begin, s) == Run(AfterFirst, t);
      if t == [] {
      } else if !IsNameChar(t[0]) {
        RunDeadStays(t[1..]);
      } else {
        assert Run(AfterFirst, t) == Run(InRest, t[1..]);
        RunInRest(t[1..]);
        assert forall i :: 2 <= i < |s| ==> s[i] == t[1..][i - 2];
      }
    }
  }

  /** A name is accepted only if it has at least two characters and begins with an ASCII letter. */
  lemma NameRegexNeedsTwoChars(s: string)
    requires MatchesNameRegex(s)
    ensures |s| >= 2 && IsAsciiLetter(s[0])
  {
    MatchesNameRegexIff(s);
  }
}
