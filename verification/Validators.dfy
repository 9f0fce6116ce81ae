/** `is_valid_phone` and `is_valid_email`: full matches against two fixed
    patterns, and what each pattern accepts, stated without regular
    expressions. */
module Validators {
  import opened Regex

  /** `\+?\d{10,14}` */
  const PhonePattern: Re := Concat(Opt(Lit('+')), Repeat(Digit, 10, 14))

  /** The characters `[^@ \t\r\n]` excludes. */
  const Excluded: set<char> := {'@', ' ', '\t', '\r', '\n'}

  /** `[^@ \t\r\n]+` */
  const Part: Re := Plus(NoneOf(Excluded))

  /** `[^@ \t\r\n]+@[^@ \t\r\n]+\.[^@ \t\r\n]+` */
  const EmailPattern: Re := Concat(Part, Concat(Lit('@'), Concat(Part, Concat(Lit('.'), Part))))

  predicate IsValidPhone(s: string) {
    Matches(PhonePattern, s)
  }

  predicate IsValidEmail(s: string) {
    Matches(EmailPattern, s)
  }

  /** A phone number: an optional single leading '+', then 10 to 14 digits
      and nothing else. */
  predicate IsPhoneShape(s: string) {
    if |s| > 0 && s[0] == '+' then IsDigitRun(s[1..]) else IsDigitRun(s)
  }

  /** Between 10 and 14 digits and nothing else. */
  predicate IsDigitRun(d: string) {
    10 <= |d| <= 14 && forall i :: 0 <= i < |d| ==> IsDigit(d[i])
  }

  /** No '@', space, tab, CR or LF anywhere. */
  predicate Clean(s: string) {
    forall i :: 0 <= i < |s| ==> s[i] !in Excluded
  }

  /** A clean domain with a '.' that is neither its first nor its last character. */
  predicate IsDomainShape(d: string) {
    Clean(d) && exists dot :: 0 < dot < |d| - 1 && d[dot] == '.'
  }

  /** A non-empty clean local part, one '@', then a domain. Because '@' is
      not clean, the '@' is the only one in the string. */
  predicate IsEmailShape(s: string) {
    exists at :: 0 < at < |s| && s[at] == '@' && Clean(s[..at]) && IsDomainShape(s[at + 1..])
  }

  lemma PartMatches(s: string)
    ensures Matches(Part, s) <==> |s| >= 1 && Clean(s)
  {
    PlusOfClass(NoneOf(Excluded), s);
  }

  /** `is_valid_phone` accepts exactly the phone shape. */
  lemma PhoneIff(s: string)
    ensures IsValidPhone(s) <==> IsPhoneShape(s)
  {
    var run := Repeat(Digit, 10, 14);
    ConcatIff(Opt(Lit('+')), run, s);
    if IsValidPhone(s) {
      var k :| 0 <= k <= |s| && Matches(Opt(Lit('+')), s[..k]) && Matches(run, s[k..]);
      RepeatOfClass(Digit, 10, 14, s[k..]);
      assert s[..k] == [] || Matches(Lit('+'), s[..k]);
      if s[..k] != [] {
        assert k == 1 && s[0] == s[..k][0];
      } else {
        assert k == 0 && s[k..] == s;
        assert |s| > 0 ==> IsDigit(s[k..][0]);
      }
    }
    if IsPhoneShape(s) {
      var k := if |s| > 0 && s[0] == '+' then 1 else 0;
      var d := s[k..];
      if k == 1 {
        assert s[..k] == ['+'] && d == s[1..];
      } else {
        assert s[..k] == [] && d == s;
      }
      assert IsDigitRun(d);
      RepeatOfClass(Digit, 10, 14, d);
      assert Matches(Opt(Lit('+')), s[..k]);
    }
  }

  /** The domain half of the email pattern, `[^@ \t\r\n]+\.[^@ \t\r\n]+`. */
  lemma DomainIff(d: string)
    ensures Matches(Concat(Part, Concat(Lit('.'), Part)), d) <==> IsDomainShape(d)
  {
    ConcatIff(Part, Concat(Lit('.'), Part), d);
    if Matches(Concat(Part, Concat(Lit('.'), Part)), d) {
      var k :| 0 <= k <= |d| && Matches(Part, d[..k]) && Matches(Concat(Lit('.'), Part), d[k..]);
      PartMatches(d[..k]);
      LitThen('.', Part, d[k..]);
      PartMatches(d[k..][1..]);
      assert d[k] == '.';
      assert d == d[..k] + [d[k]] + d[k..][1..];
      assert Clean(d) by {
        forall i | 0 <= i < |d| ensures d[i] !in Excluded {
          if i < k { assert d[i] == d[..k][i]; }
          else if i > k { assert d[i] == d[k..][1..][i - k - 1]; }
        }
      }
    }
    if IsDomainShape(d) {
      var dot :| 0 < dot < |d| - 1 && d[dot] == '.';
      PartMatches(d[..dot]);
      PartMatches(d[dot..][1..]);
      LitThen('.', Part, d[dot..]);
    }
  }

  /** `is_valid_email` accepts exactly the email shape. */
  lemma EmailIff(s: string)
    ensures IsValidEmail(s) <==> IsEmailShape(s)
  {
    var domain := Concat(Part, Concat(Lit('.'), Part));
    ConcatIff(Part, Concat(Lit('@'), domain), s);
    if IsValidEmail(s) {
      var k :| 0 <= k <= |s| && Matches(Part, s[..k]) && Matches(Concat(Lit('@'), domain), s[k..]);
      PartMatches(s[..k]);
      LitThen('@', domain, s[k..]);
      DomainIff(s[k..][1..]);
      assert s[k] == '@' && s[k..][1..] == s[k + 1..];
      var d := s[k + 1..];
      var dot :| 0 < dot < |d| - 1 && d[dot] == '.';
      assert 0 < k < |s| && s[k] == '@' && Clean(s[..k]) && IsDomainShape(s[k + 1..]);
    }
    if IsEmailShape(s) {
      var at :| 0 < at < |s| && s[at] == '@' && Clean(s[..at]) && IsDomainShape(s[at + 1..]);
      PartMatches(s[..at]);
      assert s[at..][1..] == s[at + 1..];
      DomainIff(s[at + 1..]);
      LitThen('@', domain, s[at..]);
      assert Matches(Part, s[..at]) && Matches(Concat(Lit('@'), domain), s[at..]);
    }
  }

  /** A string without an '@' is never an email. */
  lemma NoAtIsInvalid(s: string)
    requires forall i :: 0 <= i < |s| ==> s[i] != '@'
    ensures !IsValidEmail(s)
  {
    EmailIff(s);
  }
}
