/**
 * The username rule of the User model: the pattern `^[a-zA-Z0-9]+([_.-]?[a-zA-Z0-9])*$`,
 * checked by a regex validator that calls Python's `re.search`.
 */
module Usernames {

  predicate IsAsciiAlnum(c: char) {
    'a' <= c <= 'z' || 'A' <= c <= 'Z' || '0' <= c <= '9'
  }

  predicate IsSeparator(c: char) {
    c == '_' || c == '.' || c == '-'
  }

  /**
   * `([_.-]?[a-zA-Z0-9])*` followed by the end of the text. Each repetition is either one
   * letter or digit, or one separator and then one letter or digit; which one applies is decided
   * by the next character, so matching needs no backtracking.
   */
  predicate RepeatedGroups(s: string)
    decreases |s|
  {
    if s == [] then true
    else if IsAsciiAlnum(s[0]) then RepeatedGroups(s[1..])
    else IsSeparator(s[0]) && |s| >= 2 && IsAsciiAlnum(s[1]) && RepeatedGroups(s[2..])
  }

  /**
   * The whole text matches `[a-zA-Z0-9]+([_.-]?[a-zA-Z0-9])*`. The characters of `+` beyond the
   * first are each also one repetition of the group, so the pattern is one letter or digit
   * followed by the repeated group.
   */
  predicate MatchesPattern(s: string) {
    |s| > 0 && IsAsciiAlnum(s[0]) && RepeatedGroups(s[1..])
  }

  /**
   * The validator as written: `re.search` with `^...$`, where Python's `$` matches at the end of
   * the text and also just before a newline that ends it.
   */
  predicate AcceptedAsWritten(s: string) {
    MatchesPattern(s) || (|s| > 0 && s[|s| - 1] == '\n' && MatchesPattern(s[..|s| - 1]))
  }

  /** The rule the validator's message describes, and the one the store enforces. */
  predicate IsValidUsername(s: string) {
    MatchesPattern(s)
  }

  /** Only letters, digits and `_ . -`, never two separators in a row. */
  predicate AlphabetAndSeparators(s: string) {
    && (forall i :: 0 <= i < |s| ==> IsAsciiAlnum(s[i]) || IsSeparator(s[i]))
    && (forall i :: 0 <= i < |s| - 1 ==> !(IsSeparator(s[i]) && IsSeparator(s[i + 1])))
  }

  /** A declarative reading of the pattern. */
  predicate WellFormed(s: string) {
    && |s| > 0
    && IsAsciiAlnum(s[0])
    && IsAsciiAlnum(s[|s| - 1])
    && AlphabetAndSeparators(s)
  }

  /** The repeated group accepts exactly the well-separated texts that do not end in a separator. */
  lemma {:induction false} RepeatedGroupsShape(s: string)
    ensures RepeatedGroups(s) <==> AlphabetAndSeparators(s) && (s != [] ==> IsAsciiAlnum(s[|s| - 1]))
    decreases |s|
  {
    if s == [] {
    } else if IsAsciiAlnum(s[0]) {
      RepeatedGroupsShape(s[1..]);
      ShapeCons(s);
    } else if IsSeparator(s[0]) && |s| >= 2 && IsAsciiAlnum(s[1]) {
      RepeatedGroupsShape(s[2..]);
      ShapeCons(s[1..]);
      ShapeCons(s);
    } else if IsSeparator(s[0]) && |s| >= 2 {
      assert !AlphabetAndSeparators(s) by {
        if !IsSeparator(s[1]) {
          assert !(IsAsciiAlnum(s[1]) || IsSeparator(s[1]));
        }
      }
    } else if IsSeparator(s[0]) {
      assert !IsAsciiAlnum(s[|s| - 1]);
    } else {
      assert !(IsAsciiAlnum(s[0]) || IsSeparator(s[0]));
    }
  }

  /** How the declarative shape of `s` splits into its first character and the rest. */
  lemma ShapeCons(s: string)
    requires |s| > 0
    ensures AlphabetAndSeparators(s) <==>
      && (IsAsciiAlnum(s[0]) || IsSeparator(s[0]))
      && (|s| > 1 ==> !(IsSeparator(s[0]) && IsSeparator(s[1])))
      && AlphabetAndSeparators(s[1..])
  {
    if AlphabetAndSeparators(s[1..]) && (IsAsciiAlnum(s[0]) || IsSeparator(s[0]))
      && (|s| > 1 ==> !(IsSeparator(s[0]) && IsSeparator(s[1])))
    {
      forall i | 0 <= i < |s| ensures IsAsciiAlnum(s[i]) || IsSeparator(s[i]) {
        if i > 0 { assert s[i] == s[1..][i - 1]; }
      }
      forall i | 0 <= i < |s| - 1 ensures !(IsSeparator(s[i]) && IsSeparator(s[i + 1])) {
        if i > 0 { assert s[i] == s[1..][i - 1] && s[i + 1] == s[1..][i]; }
      }
    }
    if AlphabetAndSeparators(s) {
      forall i | 0 <= i < |s[1..]| ensures IsAsciiAlnum(s[1..][i]) || IsSeparator(s[1..][i]) {
        assert s[1..][i] == s[i + 1];
      }
      forall i | 0 <= i < |s[1..]| - 1 ensures !(IsSeparator(s[1..][i]) && IsSeparator(s[1..][i + 1])) {
        assert s[1..][i] == s[i + 1] && s[1..][i + 1] == s[i + 2];
      }
    }
  }

  /**
   * A valid username is non-empty, starts and ends with an ASCII letter or digit, contains only
   * letters, digits and `_ . -`, and never has two separators side by side; and every text of
   * that shape is a valid username.
   */
  lemma UsernameCharacterised(s: string)
    ensures IsValidUsername(s) <==> WellFormed(s)
  {
    if |s| > 0 {
      RepeatedGroupsShape(s[1..]);
      ShapeCons(s);
      if |s| > 1 {
        assert s[1..][|s[1..]| - 1] == s[|s| - 1];
      }
    }
  }

  /**
   * The validator as written accepts exactly the well-formed usernames and the well-formed
   * usernames followed by one newline.
   */
  lemma AsWrittenAcceptsTrailingNewline(s: string)
    ensures AcceptedAsWritten(s) <==>
      WellFormed(s) || (|s| > 0 && s[|s| - 1] == '\n' && WellFormed(s[..|s| - 1]))
  {
    UsernameCharacterised(s);
    if |s| > 0 {
      UsernameCharacterised(s[..|s| - 1]);
    }
  }

  /** The input that shows it: "ann\n" passes the validator as written but is not a valid username. */
  lemma NewlineCounterexample()
    ensures AcceptedAsWritten("ann\n")
    ensures !IsValidUsername("ann\n")
  {
    var s := "ann\n";
    assert s[..|s| - 1] == "ann";
    UsernameCharacterised(s);
    UsernameCharacterised("ann");
    assert !IsAsciiAlnum(s[|s| - 1]);
  }
}
