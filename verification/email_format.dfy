/** The email shape the lead importer accepts: the JavaScript regular
    expression `^[^@\s]+@[^@\s]+\.[^@\s]+$`. */
module EmailFormat {
  import opened Text

  /** One character of the class `[^@\s]`. */
  predicate PlainChar(c: char) {
    c != '@' && !IsSpace(c)
  }

  /** A string matched by `[^@\s]+`. */
  predicate PlainRun(t: string) {
    |t| > 0 && forall k :: 0 <= k < |t| ==> PlainChar(t[k])
  }

  /** The regular expression read literally: the whole string splits as
      run `@` run `.` run, each run matching `[^@\s]+`. The positions of the
      `@` and of the `.` are the split points. */
  ghost predicate MatchesEmailPattern(s: string) {
    exists at, dot ::
      0 <= at < dot < |s| && s[at] == '@' && s[dot] == '.' &&
      PlainRun(s[..at]) && PlainRun(s[at + 1..dot]) && PlainRun(s[dot + 1..])
  }

  /** A decision procedure for the same language: the first `@` is preceded by
      a non-empty run, everything after it is a run of at least three
      characters, and a `.` occurs strictly inside that run. */
  predicate ValidEmail(s: string) {
    var at := IndexOf(s, '@');
    0 < at && at + 3 < |s| &&
    PlainRun(s[..at]) && PlainRun(s[at + 1..]) && '.' in s[at + 2..|s| - 1]
  }

  /** Every string the decision procedure accepts matches the expression. */
  lemma ValidEmailMatchesPattern(s: string)
    requires ValidEmail(s)
    ensures MatchesEmailPattern(s)
  {
    var at := IndexOf(s, '@');
    var rest := s[at + 2..|s| - 1];
    var i :| 0 <= i < |rest| && rest[i] == '.';
    var dot := at + 2 + i;
    var domain := s[at + 1..];
    var host, tld := s[at + 1..dot], s[dot + 1..];
    forall k | 0 <= k < |host| ensures PlainChar(host[k]) {
      assert host[k] == domain[k];
    }
    forall k | 0 <= k < |tld| ensures PlainChar(tld[k]) {
      assert tld[k] == domain[dot - at + k];
    }
    assert s[at] == '@' && s[dot] == '.';
  }

  /** Every string the expression matches is accepted by the decision procedure. */
  lemma PatternIsValidEmail(s: string, at: nat, dot: nat)
    requires at < dot < |s| && s[at] == '@' && s[dot] == '.'
    requires PlainRun(s[..at]) && PlainRun(s[at + 1..dot]) && PlainRun(s[dot + 1..])
    ensures ValidEmail(s)
  {
    forall k | 0 <= k < at ensures s[k] != '@' {
      assert s[k] == s[..at][k];
    }
    assert IndexOf(s, '@') == at;
    var domain := s[at + 1..];
    forall k | 0 <= k < |domain| ensures PlainChar(domain[k]) {
      if k < dot - at - 1 {
        assert domain[k] == s[at + 1..dot][k];
      } else if k > dot - at - 1 {
        assert domain[k] == s[dot + 1..][k - (dot - at)];
      }
    }
    assert s[at + 2..|s| - 1][dot - at - 2] == '.';
  }

  /** The decision procedure accepts exactly the strings the regular
      expression matches. */
  lemma ValidEmailIffPattern(s: string)
    ensures ValidEmail(s) <==> MatchesEmailPattern(s)
  {
    if ValidEmail(s) {
      ValidEmailMatchesPattern(s);
    }
    if MatchesEmailPattern(s) {
      var at, dot :|
        0 <= at < dot < |s| && s[at] == '@' && s[dot] == '.' &&
        PlainRun(s[..at]) && PlainRun(s[at + 1..dot]) && PlainRun(s[dot + 1..]);
      PatternIsValidEmail(s, at, dot);
    }
  }
}
