/** The allow-list for client-chosen keys, checked only where untrusted keys
    enter: the server transform of a keyed collection. */
module KeyValidation {

  /** One character of the class `[0-9a-zA-Z]|-|_`. */
  predicate IsKeyChar(c: char) {
    ('0' <= c <= '9') || ('a' <= c <= 'z') || ('A' <= c <= 'Z') || c == '-' || c == '_'
  }

  /** The anchored pattern `^(class)+$`: one or more key characters and
      nothing else, matched from the left as the regular expression does. */
  predicate MatchesKeyPattern(s: string)
    decreases |s|
  {
    |s| > 0 && IsKeyChar(s[0]) && (|s| == 1 || MatchesKeyPattern(s[1..]))
  }

  /** The length check comes first; only keys shorter than 11 characters
      are matched against the pattern. */
  predicate IsValidKey(key: string) {
    if |key| >= 11 then false else MatchesKeyPattern(key)
  }

  /** The pattern accepts exactly the non-empty strings of key characters. */
  lemma {:induction false} MatchesKeyPatternIff(s: string)
    ensures MatchesKeyPattern(s) <==> |s| > 0 && forall i :: 0 <= i < |s| ==> IsKeyChar(s[i])
    decreases |s|
  {
    if |s| > 1 {
      MatchesKeyPatternIff(s[1..]);
      if forall i :: 0 <= i < |s| ==> IsKeyChar(s[i]) {
        assert forall i :: 0 <= i < |s| - 1 ==> IsKeyChar(s[1..][i]) by {
          forall i | 0 <= i < |s| - 1 ensures IsKeyChar(s[1..][i]) { assert s[1..][i] == s[i + 1]; }
        }
      }
      if MatchesKeyPattern(s) {
        forall i | 0 <= i < |s| ensures IsKeyChar(s[i]) {
          if i > 0 { assert s[i] == s[1..][i - 1]; }
        }
      }
    }
  }

  /** A key is valid iff it has 1 to 10 characters, each a letter, a digit,
      `-` or `_`. */
  lemma IsValidKeyIff(key: string)
    ensures IsValidKey(key) <==> 1 <= |key| <= 10 && forall i :: 0 <= i < |key| ==> IsKeyChar(key[i])
  {
    MatchesKeyPatternIff(key);
  }

  /** Keys of 11 or more characters are refused whatever they contain. */
  lemma LongKeyIsInvalid(key: string)
    requires |key| >= 11
    ensures !IsValidKey(key)
  {
  }

  /** The empty key is refused: the pattern needs at least one character. */
  lemma EmptyKeyIsInvalid()
    ensures !IsValidKey("")
  {
  }

  /** One disallowed character anywhere (a space, a dot, ...) makes the key invalid. */
  lemma {:induction false} DisallowedCharIsInvalid(key: string, i: nat)
    requires i < |key| && !IsKeyChar(key[i])
    ensures !IsValidKey(key)
  {
    IsValidKeyIff(key);
  }
}
