/** The owner-email check of the intake form (components/add-pet-form.tsx): the regular
    expression `^[^\s@]+@[^\s@]+\.[^\s@]+$`, and a direct scan that decides it. */
module EmailShape {
  import opened Text

  /** One `[^\s@]+` run: non-empty, no whitespace, no '@'. */
  predicate EmailPart(t: string) {
    t != [] && forall i :: 0 <= i < |t| ==> !IsSpace(t[i]) && t[i] != '@'
  }

  /** The whole string reads as local '@' host '.' tld, each an `EmailPart`. */
  ghost predicate MatchesEmailPattern(s: string) {
    exists local, host, tld ::
      EmailPart(local) && EmailPart(host) && EmailPart(tld) &&
      s == local + "@" + host + "." + tld
  }

  /** The scan: no whitespace at all, one '@' with something before it, and after it a '.'
      that is neither the first nor the last character. */
  predicate IsEmailShaped(s: string) {
    var at := IndexOf(s, '@');
    && (forall i :: 0 <= i < |s| ==> !IsSpace(s[i]))
    && 0 < at < |s|
    && '@' !in s[at + 1..]
    && at + 3 <= |s|
    && '.' in s[at + 2..|s| - 1]
  }

  /** The scan accepts exactly the strings the regular expression matches. */
  lemma EmailShapeCorrect(s: string)
    ensures IsEmailShaped(s) <==> MatchesEmailPattern(s)
  {
    if IsEmailShaped(s) {
      ScanGivesPattern(s);
    }
    if MatchesEmailPattern(s) {
      var local, host, tld :| EmailPart(local) && EmailPart(host) && EmailPart(tld) &&
                              s == local + "@" + host + "." + tld;
      PatternGivesScan(s, local, host, tld);
    }
  }

  lemma ScanGivesPattern(s: string)
    requires IsEmailShaped(s)
    ensures MatchesEmailPattern(s)
  {
    var at := IndexOf(s, '@');
    var inner := s[at + 2..|s| - 1];
    var k :| 0 <= k < |inner| && inner[k] == '.';
    var dot := at + 2 + k;
    assert s[dot] == '.';
    var local, host, tld := s[..at], s[at + 1..dot], s[dot + 1..];
    assert forall i :: 0 <= i < |host| ==> host[i] == s[at + 1..][i];
    assert forall i :: 0 <= i < |tld| ==> tld[i] == s[at + 1..][dot - at + i];
    assert EmailPart(local) && EmailPart(host) && EmailPart(tld);
    assert s == local + "@" + host + "." + tld;
  }

  lemma PatternGivesScan(s: string, local: string, host: string, tld: string)
    requires EmailPart(local) && EmailPart(host) && EmailPart(tld)
    requires s == local + "@" + host + "." + tld
    ensures IsEmailShaped(s)
  {
    var at := |local|;
    var dot := at + 1 + |host|;
    assert s[at] == '@' && s[dot] == '.';
    assert forall i :: 0 <= i < at ==> s[i] == local[i];
    assert forall i :: at < i < dot ==> s[i] == host[i - at - 1];
    assert forall i :: dot < i < |s| ==> s[i] == tld[i - dot - 1];
    assert IndexOf(s, '@') == at;
    assert forall i :: 0 <= i < |s| ==> !IsSpace(s[i]);
    var rest := s[at + 1..];
    forall i | 0 <= i < |rest| ensures rest[i] != '@' {
      assert rest[i] == s[at + 1 + i];
    }
    assert s[at + 2..|s| - 1][dot - at - 2] == '.';
  }
}
