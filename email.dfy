/**
 * The e-mail pattern `^[^\s@]+@[^\s@]+\.[^\s@]+$` shared by the login,
 * registration and contact forms.
 */
module Email {
  import opened Text

  /** Membership in the character class `[^\s@]`. */
  predicate InAddressClass(c: char) {
    !IsJsWhitespace(c) && c != '@'
  }

  /** `t` matches `[^\s@]+`. */
  ghost predicate AddressRun(t: string) {
    |t| > 0 && forall k :: 0 <= k < |t| ==> InAddressClass(t[k])
  }

  /** The pattern matches `s` with its `@` at `i` and its escaped `.` at `j`. */
  ghost predicate MatchesAt(s: string, i: int, j: int) {
    && 0 < i && i + 1 < j && j + 1 < |s|
    && s[i] == '@' && s[j] == '.'
    && AddressRun(s[..i]) && AddressRun(s[i + 1..j]) && AddressRun(s[j + 1..])
  }

  /** The regular expression's language: some split of `s` into the three runs. */
  ghost predicate MatchesEmailPattern(s: string) {
    exists i, j :: MatchesAt(s, i, j)
  }

  /**
   * `emailRegex.test(s)`, decided by one scan: no white space anywhere, a
   * first `@` that is not the first character and has no `@` after it, and a
   * `.` in the domain that is neither its first nor its last character.
   */
  predicate IsValidEmail(s: string) {
    var at := IndexOf(s, '@');
    && (forall k :: 0 <= k < |s| ==> !IsJsWhitespace(s[k]))
    && 0 < at < |s|
    && '@' !in s[at + 1..]
    && exists k :: at + 1 < k < |s| - 1 && s[k] == '.'
  }

  /** The scan accepts exactly the strings the regular expression matches. */
  lemma EmailCheckMatchesPattern(s: string)
    ensures IsValidEmail(s) <==> MatchesEmailPattern(s)
  {
    var at := IndexOf(s, '@');
    if IsValidEmail(s) {
      var j :| at + 1 < j < |s| - 1 && s[j] == '.';
      var domain, host, tld := s[at + 1..], s[at + 1..j], s[j + 1..];
      forall k | 0 <= k < |host| ensures InAddressClass(host[k]) {
        assert host[k] == domain[k];
      }
      forall k | 0 <= k < |tld| ensures InAddressClass(tld[k]) {
        assert tld[k] == domain[k + j - at];
      }
      assert MatchesAt(s, at, j);
    }
    if MatchesEmailPattern(s) {
      var i, j :| MatchesAt(s, i, j);
      assert at == i;
      forall k | 0 <= k < |s| ensures !IsJsWhitespace(s[k]) {
        if k < i { assert s[k] == s[..i][k]; }
        else if i < k < j { assert s[k] == s[i + 1..j][k - i - 1]; }
        else if j < k { assert s[k] == s[j + 1..][k - j - 1]; }
      }
      var domain := s[i + 1..];
      forall k | 0 <= k < |domain| ensures domain[k] != '@' {
        var m := i + 1 + k;
        assert domain[k] == s[m];
        if m < j { assert s[m] == s[i + 1..j][m - i - 1]; }
        else if j < m { assert s[m] == s[j + 1..][m - j - 1]; }
      }
      assert s[j] == '.';
    }
  }
}
