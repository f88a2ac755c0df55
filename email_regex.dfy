/** The e-mail pattern `[A-Za-z0-9._%-+]+@[A-Za-z0-9.-]+\.[A-Za-z]{2,4}`,
    which the payload classes pass to @Email and which must match the whole
    string. Inside the first character class `%-+` is a range from '%' to '+'
    (that is `% & ' ( ) * +`), so a '-' is not allowed before the '@'. */
module EmailRegex {
  import opened Constraints

  predicate IsAsciiLetter(c: char) { 'A' <= c <= 'Z' || 'a' <= c <= 'z' }
  predicate IsAsciiDigit(c: char) { '0' <= c <= '9' }

  /** `[A-Za-z0-9._%-+]` */
  predicate InLocalClass(c: char) {
    IsAsciiLetter(c) || IsAsciiDigit(c) || c == '.' || c == '_' || '%' <= c <= '+'
  }

  /** `[A-Za-z0-9.-]` */
  predicate InDomainClass(c: char) {
    IsAsciiLetter(c) || IsAsciiDigit(c) || c == '.' || c == '-'
  }

  predicate AllLocal(s: string) { forall i :: 0 <= i < |s| ==> InLocalClass(s[i]) }
  predicate AllDomain(s: string) { forall i :: 0 <= i < |s| ==> InDomainClass(s[i]) }
  predicate AllLetters(s: string) { forall i :: 0 <= i < |s| ==> IsAsciiLetter(s[i]) }

  /** The pattern matches `s` with its literal '@' at index `at` and its
      literal '.' at index `dot`: one or more local characters, '@', one or
      more domain characters, '.', and two to four letters up to the end. */
  predicate SplitsAsEmail(s: string, at: int, dot: int) {
    0 < at && at + 1 < dot && dot < |s| && 2 <= |s| - dot - 1 <= 4 &&
    s[at] == '@' && s[dot] == '.' &&
    AllLocal(s[..at]) && AllDomain(s[at + 1..dot]) && AllLetters(s[dot + 1..])
  }

  /** Whole-string match of the pattern: some placement of '@' and '.' fits. */
  ghost predicate MatchesPattern(s: string) {
    exists at, dot :: SplitsAsEmail(s, at, dot)
  }

  /** Index of the first occurrence of `c` in `s` at or after `from`, or |s|
      when there is none. */
  function FirstIndexOfChar(s: string, c: char, from: nat): (k: nat)
    requires from <= |s|
    ensures from <= k <= |s|
    ensures k < |s| ==> s[k] == c
    ensures forall j :: from <= j < k ==> s[j] != c
    decreases |s| - from
  {
    if from == |s| then from
    else if s[from] == c then from
    else FirstIndexOfChar(s, c, from + 1)
  }

  /** A decision procedure for the pattern: the '@' can only be the first one
      (neither class admits '@'), and the final '.' can only sit three, four
      or five characters from the end. */
  function EmailMatches(s: string): bool {
    var at := FirstIndexOfChar(s, '@', 0);
    SplitsAsEmail(s, at, |s| - 3) || SplitsAsEmail(s, at, |s| - 4) || SplitsAsEmail(s, at, |s| - 5)
  }

  /** The decision procedure accepts exactly the strings the pattern matches. */
  lemma EmailMatchesIsPattern(s: string)
    ensures EmailMatches(s) <==> MatchesPattern(s)
  {
    var first := FirstIndexOfChar(s, '@', 0);
    if EmailMatches(s) {
      if SplitsAsEmail(s, first, |s| - 3) {
        assert SplitsAsEmail(s, first, |s| - 3);
      } else if SplitsAsEmail(s, first, |s| - 4) {
        assert SplitsAsEmail(s, first, |s| - 4);
      } else {
        assert SplitsAsEmail(s, first, |s| - 5);
      }
    }
    if MatchesPattern(s) {
      var at, dot :| SplitsAsEmail(s, at, dot);
      forall j | 0 <= j < at ensures s[j] != '@' {
        assert s[..at][j] == s[j];
      }
      assert dot == |s| - 3 || dot == |s| - 4 || dot == |s| - 5;
    }
  }

  /** The quirk of the range `%-+`: a '-' before the first '@' always makes
      the pattern fail, while '%', '&', ''', '(', ')', '*' and '+' are allowed. */
  lemma HyphenRejectedInLocalPart(s: string, i: int)
    requires 0 <= i < |s| && s[i] == '-'
    requires forall j :: 0 <= j < i ==> s[j] != '@'
    ensures !MatchesPattern(s)
  {
    forall at, dot ensures !SplitsAsEmail(s, at, dot) {
      if i < at <= |s| {
        assert s[..at][i] == '-';
      }
    }
  }

  lemma RangeCharactersAllowedInLocalPart(c: char)
    ensures InLocalClass(c) <==> IsAsciiLetter(c) || IsAsciiDigit(c) || c in "._%&'()*+"
  {
  }

  /** Any matching string contains a character above U+0020 (its '@'), so the
      pattern alone already rules out blank strings. */
  lemma MatchImpliesNotBlank(s: string)
    requires EmailMatches(s)
    ensures NotBlank(s)
  {
    var at := FirstIndexOfChar(s, '@', 0);
    assert s[at] > ' ';
  }

  /** Any local part, '@', domain, '.' and two-to-four-letter suffix drawn
      from the pattern's classes form a matching address. */
  lemma ComposedAddressMatches(local: string, domain: string, tld: string)
    requires |local| > 0 && AllLocal(local)
    requires |domain| > 0 && AllDomain(domain)
    requires 2 <= |tld| <= 4 && AllLetters(tld)
    ensures EmailMatches(local + "@" + domain + "." + tld)
  {
    var s := local + "@" + domain + "." + tld;
    var at, dot := |local|, |local| + 1 + |domain|;
    assert s[..at] == local;
    assert s[at + 1..dot] == domain;
    assert s[dot + 1..] == tld;
    assert SplitsAsEmail(s, at, dot);
    EmailMatchesIsPattern(s);
  }

  /** A string without '@' never matches. */
  lemma NoAtSignNoMatch(s: string)
    requires forall i :: 0 <= i < |s| ==> s[i] != '@'
    ensures !EmailMatches(s)
  {
    assert FirstIndexOfChar(s, '@', 0) == |s|;
  }

  /** The e-mail of the resource tests' fixture matches. */
  lemma FixtureEmailMatches()
    ensures EmailMatches("def.userModel@gmail.com")
  {
    ComposedAddressMatches("def.userModel", "gmail", "com");
    assert "def.userModel" + "@" + "gmail" + "." + "com" == "def.userModel@gmail.com";
  }

  /** The e-mail that the invalid payloads of the resource tests keep valid matches. */
  lemma BaseEmailMatches()
    ensures EmailMatches("def.user@gmail.com")
  {
    ComposedAddressMatches("def.user", "gmail", "com");
    assert "def.user" + "@" + "gmail" + "." + "com" == "def.user@gmail.com";
  }

  /** The two e-mail values the resource tests expect to be refused. */
  lemma RejectedEmails()
    ensures !EmailMatches("def.user")
    ensures !EmailMatches("       ")
  {
    NoAtSignNoMatch("def.user");
    NoAtSignNoMatch("       ");
  }

  /** Concrete instances of the quirk: '-' is refused before the '@' ... */
  lemma HyphenBeforeAtRejected()
    ensures !EmailMatches("jack-dawson@gmail.com")
  {
    HyphenRejectedInLocalPart("jack-dawson@gmail.com", 4);
    EmailMatchesIsPattern("jack-dawson@gmail.com");
  }

  /** ... while '+' is accepted before it ... */
  lemma PlusBeforeAtAccepted()
    ensures EmailMatches("jack+dawson@gmail.com")
  {
    ComposedAddressMatches("jack+dawson", "gmail", "com");
    assert "jack+dawson" + "@" + "gmail" + "." + "com" == "jack+dawson@gmail.com";
  }

  /** ... and '-' is accepted after it. */
  lemma HyphenAfterAtAccepted()
    ensures EmailMatches("jack@mail-server.com")
  {
    ComposedAddressMatches("jack", "mail-server", "com");
    assert "jack" + "@" + "mail-server" + "." + "com" == "jack@mail-server.com";
  }
}
