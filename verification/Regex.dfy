/** The fragment of Python's regular expressions that the two validators use,
    with `re.fullmatch` read as membership of the whole string in the
    pattern's language. */
module Regex {

  /** `\d` read over ASCII. */
  predicate IsDigit(c: char) {
    '0' <= c <= '9'
  }

  datatype Re =
    | Lit(c: char)                      // a literal character, such as `\+` or `\.`
    | Digit                             // `\d`
    | NoneOf(excluded: set<char>)       // a negated class `[^...]`
    | Opt(r: Re)                        // `r?`
    | Plus(r: Re)                       // `r+`
    | Repeat(r: Re, lo: nat, hi: nat)   // `r{lo,hi}`
    | Concat(a: Re, b: Re)              // `ab`

  function Size(r: Re): nat {
    match r
    case Lit(_) => 1
    case Digit => 1
    case NoneOf(_) => 1
    case Opt(a) => Size(a) + 1
    case Plus(a) => Size(a) + 1
    case Repeat(a, _, hi) => (Size(a) + 1) * (hi + 1)
    case Concat(a, b) => Size(a) + Size(b) + 1
  }

  /** `re.fullmatch(r, s) is not None`: the whole of `s` is in the language
      of `r`, found by trying split points from the left as a backtracking
      matcher does. */
  predicate Matches(r: Re, s: string)
    decreases Size(r), |s|, |s| + 2
  {
    match r
    case Lit(c) => s == [c]
    case Digit => |s| == 1 && IsDigit(s[0])
    case NoneOf(x) => |s| == 1 && s[0] !in x
    case Opt(a) => s == [] || Matches(a, s)
    case Plus(a) => Matches(a, s) || PlusFrom(a, s, 1)
    case Repeat(a, lo, hi) =>
      || (lo == 0 && s == [])
      || (0 < hi && SplitFrom(a, Repeat(a, if lo == 0 then 0 else lo - 1, hi - 1), s, 0))
    case Concat(a, b) => SplitFrom(a, b, s, 0)
  }

  /** Some split of `s` at `k` or later has `a` matching the left part and
      `b` the right part. */
  predicate SplitFrom(a: Re, b: Re, s: string, k: nat)
    decreases Size(a) + Size(b) + 1, |s|, |s| + 1 - k
  {
    k <= |s| && ((Matches(a, s[..k]) && Matches(b, s[k..])) || SplitFrom(a, b, s, k + 1))
  }

  /** Some split of `s` at `k` or later, short of the end, has `a` matching
      the left part and `a+` the non-empty right part. */
  predicate PlusFrom(a: Re, s: string, k: nat)
    requires 1 <= k
    decreases Size(a) + 1, |s|, |s| + 1 - k
  {
    k < |s| && ((Matches(a, s[..k]) && Matches(Plus(a), s[k..])) || PlusFrom(a, s, k + 1))
  }

  lemma {:induction false} SplitFromIff(a: Re, b: Re, s: string, k: nat)
    ensures SplitFrom(a, b, s, k) <==>
              exists j :: k <= j <= |s| && Matches(a, s[..j]) && Matches(b, s[j..])
    decreases |s| + 1 - k
  {
    if k <= |s| {
      SplitFromIff(a, b, s, k + 1);
    }
  }

  lemma {:induction false} PlusFromIff(a: Re, s: string, k: nat)
    requires 1 <= k
    ensures PlusFrom(a, s, k) <==>
              exists j :: k <= j < |s| && Matches(a, s[..j]) && Matches(Plus(a), s[j..])
    decreases |s| + 1 - k
  {
    if k < |s| {
      PlusFromIff(a, s, k + 1);
    }
  }

  /** `ab` matches exactly the strings that split into an `a` part and a `b` part. */
  lemma ConcatIff(a: Re, b: Re, s: string)
    ensures Matches(Concat(a, b), s) <==>
              exists k :: 0 <= k <= |s| && Matches(a, s[..k]) && Matches(b, s[k..])
  {
    SplitFromIff(a, b, s, 0);
  }

  /** `a+` matches one `a`, or an `a` on a non-empty prefix followed by `a+`. */
  lemma PlusIff(a: Re, s: string)
    ensures Matches(Plus(a), s) <==>
              || Matches(a, s)
              || exists k :: 1 <= k < |s| && Matches(a, s[..k]) && Matches(Plus(a), s[k..])
  {
    PlusFromIff(a, s, 1);
  }

  /** `a{lo,hi}` matches the empty string when lo is 0, or an `a` followed by
      `a{lo-1,hi-1}`. */
  lemma RepeatIff(a: Re, lo: nat, hi: nat, s: string)
    ensures var lo' := if lo == 0 then 0 else lo - 1;
            Matches(Repeat(a, lo, hi), s) <==>
              || (lo == 0 && s == [])
              || (0 < hi && exists k :: 0 <= k <= |s| && Matches(a, s[..k]) && Matches(Repeat(a, lo', hi - 1), s[k..]))
  {
    if 0 < hi {
      SplitFromIff(a, Repeat(a, if lo == 0 then 0 else lo - 1, hi - 1), s, 0);
    }
  }

  /** A pattern that matches exactly one character: a literal, `\d` or a class. */
  predicate IsClass(r: Re) {
    r.Lit? || r.Digit? || r.NoneOf?
  }

  /** The characters a one-character pattern accepts. */
  predicate Accepts(r: Re, c: char)
    requires IsClass(r)
  {
    match r
    case Lit(d) => c == d
    case Digit => IsDigit(c)
    case NoneOf(x) => c !in x
  }

  lemma ClassMatches(r: Re, s: string)
    requires IsClass(r)
    ensures Matches(r, s) <==> |s| == 1 && Accepts(r, s[0])
  {
  }

  /** `c+` for a one-character pattern `c`: a non-empty run of accepted characters. */
  lemma {:induction false} PlusOfClass(r: Re, s: string)
    requires IsClass(r)
    ensures Matches(Plus(r), s) <==> |s| >= 1 && forall i :: 0 <= i < |s| ==> Accepts(r, s[i])
    decreases |s|
  {
    ClassMatches(r, s);
    PlusIff(r, s);
    if |s| > 1 {
      PlusOfClass(r, s[1..]);
      ClassMatches(r, s[..1]);
      if Matches(Plus(r), s) {
        var k :| 1 <= k < |s| && Matches(r, s[..k]) && Matches(Plus(r), s[k..]);
        ClassMatches(r, s[..k]);
        assert k == 1;
      }
      if forall i :: 0 <= i < |s| ==> Accepts(r, s[i]) {
        assert forall i :: 0 <= i < |s[1..]| ==> Accepts(r, s[1..][i]);
        assert s[..1] == [s[0]];
        assert Matches(r, s[..1]) && Matches(Plus(r), s[1..]);
      }
    }
  }

  /** `c{lo,hi}` for a one-character pattern `c`: between lo and hi accepted characters. */
  lemma {:induction false} RepeatOfClass(r: Re, lo: nat, hi: nat, s: string)
    requires IsClass(r)
    ensures Matches(Repeat(r, lo, hi), s) <==>
              lo <= |s| <= hi && forall i :: 0 <= i < |s| ==> Accepts(r, s[i])
    decreases hi
  {
    var lo' := if lo == 0 then 0 else lo - 1;
    RepeatIff(r, lo, hi, s);
    if 0 < hi {
      if s == [] {
        assert forall k | 0 <= k <= |s| :: !Matches(r, s[..k]) by {
          forall k | 0 <= k <= |s| ensures !Matches(r, s[..k]) { ClassMatches(r, s[..k]); }
        }
      } else {
        RepeatOfClass(r, lo', hi - 1, s[1..]);
        if Matches(Repeat(r, lo, hi), s) {
          var k :| 0 <= k <= |s| && Matches(r, s[..k]) && Matches(Repeat(r, lo', hi - 1), s[k..]);
          ClassMatches(r, s[..k]);
          assert k == 1;
        }
        if lo <= |s| <= hi && forall i :: 0 <= i < |s| ==> Accepts(r, s[i]) {
          assert forall i :: 0 <= i < |s[1..]| ==> Accepts(r, s[1..][i]);
          ClassMatches(r, s[..1]);
          assert s[..1] == [s[0]];
          assert Matches(r, s[..1]) && Matches(Repeat(r, lo', hi - 1), s[1..]);
        }
      }
    }
  }

  /** A literal followed by a pattern: the first character is that literal
      and the rest matches the pattern. */
  lemma LitThen(c: char, r: Re, s: string)
    ensures Matches(Concat(Lit(c), r), s) <==> |s| >= 1 && s[0] == c && Matches(r, s[1..])
  {
    ConcatIff(Lit(c), r, s);
    if Matches(Concat(Lit(c), r), s) {
      var k :| 0 <= k <= |s| && Matches(Lit(c), s[..k]) && Matches(r, s[k..]);
      assert s[..k] == [c];
    }
    if |s| >= 1 && s[0] == c && Matches(r, s[1..]) {
      assert s[..1] == [c];
    }
  }
}
