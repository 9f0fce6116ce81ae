/** The string operations the chat handler uses: `str.strip()`, `str.lower()`,
    the substring test `kw in s`, and `sep.join(items)`. Characters are read
    as ASCII: whitespace is Python's ASCII whitespace, and only 'A'..'Z' have
    a lower-case form. */
module Text {

  /** Python's `str.isspace()` on ASCII: tab, LF, VT, FF, CR, the four
      separators 0x1C..0x1F, and space. */
  predicate IsSpace(c: char) {
    c == ' ' || ('\t' <= c <= '\r') || ('\U{1C}' <= c <= '\U{1F}')
  }

  predicate AllSpace(s: string) {
    forall i :: 0 <= i < |s| ==> IsSpace(s[i])
  }

  /** Drops the longest all-whitespace prefix. */
  function TrimStart(s: string): string {
    if s != [] && IsSpace(s[0]) then TrimStart(s[1..]) else s
  }

  /** Drops the longest all-whitespace suffix. */
  function TrimEnd(s: string): string {
    if s != [] && IsSpace(s[|s| - 1]) then TrimEnd(s[..|s| - 1]) else s
  }

  /** TrimStart keeps a suffix of `s` that does not start with whitespace and
      drops only whitespace. */
  lemma {:induction false} TrimStartSpec(s: string)
    ensures var r := TrimStart(s);
            && |r| <= |s| && r == s[|s| - |r|..]
            && AllSpace(s[..|s| - |r|])
            && (r == [] || !IsSpace(r[0]))
  {
    if s != [] && IsSpace(s[0]) {
      TrimStartSpec(s[1..]);
      var r := TrimStart(s);
      assert s[..|s| - |r|] == [s[0]] + s[1..][..|s[1..]| - |r|];
    }
  }

  /** TrimEnd keeps a prefix of `s` that does not end with whitespace and
      drops only whitespace. */
  lemma {:induction false} TrimEndSpec(s: string)
    ensures var r := TrimEnd(s);
            && |r| <= |s| && r == s[..|r|]
            && AllSpace(s[|r|..])
            && (r == [] || !IsSpace(r[|r| - 1]))
  {
    if s != [] && IsSpace(s[|s| - 1]) {
      TrimEndSpec(s[..|s| - 1]);
      var r := TrimEnd(s);
      assert s[|r|..] == s[..|s| - 1][|r|..] + [s[|s| - 1]];
    }
  }

  /** `s.strip()`: the result neither starts nor ends with whitespace. */
  function Strip(s: string): (r: string)
    ensures r == [] || (!IsSpace(r[0]) && !IsSpace(r[|r| - 1]))
  {
    var t := TrimStart(s);
    TrimStartSpec(s);
    TrimEndSpec(t);
    var r := TrimEnd(t);
    assert r != [] ==> r[0] == t[0];
    r
  }

  /** What `s.strip()` cuts off on either side is whitespace, and what it
      keeps is a slice of `s`. */
  lemma StripIsSlice(s: string)
    ensures var r := Strip(s);
            exists a :: 0 <= a <= |s| - |r| && s[a..a + |r|] == r
                        && AllSpace(s[..a]) && AllSpace(s[a + |r|..])
  {
    var t := TrimStart(s);
    var r := TrimEnd(t);
    TrimStartSpec(s);
    TrimEndSpec(t);
    var a := |s| - |t|;
    assert t == s[a..] && r == t[..|r|];
    assert s[a..a + |r|] == r;
    assert s[a + |r|..] == t[|r|..];
  }

  /** Stripping twice is stripping once. */
  lemma StripIdempotent(s: string)
    ensures Strip(Strip(s)) == Strip(s)
  {
    var r := Strip(s);
    assert TrimStart(r) == r;
    assert TrimEnd(r) == r;
  }

  function LowerChar(c: char): char {
    if 'A' <= c <= 'Z' then (c as int - 'A' as int + 'a' as int) as char else c
  }

  /** `s.lower()`: each character mapped by LowerChar. */
  function Lower(s: string): string {
    seq(|s|, i requires 0 <= i < |s| => LowerChar(s[i]))
  }

  /** `s.lower() == "yes"` holds for exactly the eight spellings of "yes"
      in any mix of cases. */
  lemma LowerIsYes(s: string)
    ensures Lower(s) == "yes" <==>
              && |s| == 3
              && (s[0] == 'y' || s[0] == 'Y')
              && (s[1] == 'e' || s[1] == 'E')
              && (s[2] == 's' || s[2] == 'S')
  {
    if |s| == 3 {
      var l := Lower(s);
      LowerCharIs(s[0], 'y');
      LowerCharIs(s[1], 'e');
      LowerCharIs(s[2], 's');
      if l[0] == 'y' && l[1] == 'e' && l[2] == 's' {
        assert l == "yes";
      }
    }
  }

  lemma LowerCharIs(c: char, lo: char)
    requires 'a' <= lo <= 'z'
    ensures LowerChar(c) == lo <==> c == lo || c as int == lo as int - 32
  {
  }

  /** `sub` occurs in `s` starting at index `i`. */
  predicate OccursAt(s: string, sub: string, i: nat) {
    i + |sub| <= |s| && s[i..i + |sub|] == sub
  }

  /** `sub in s`, scanning from the left. */
  function Contains(s: string, sub: string): bool
    decreases |s|
  {
    |sub| <= |s| && (s[..|sub|] == sub || Contains(s[1..], sub))
  }

  /** The scan finds `sub` exactly when it occurs somewhere in `s`. */
  lemma {:induction false} ContainsIff(s: string, sub: string)
    ensures Contains(s, sub) <==> exists i: nat :: OccursAt(s, sub, i)
    decreases |s|
  {
    if |sub| > |s| {
      assert forall i: nat :: !OccursAt(s, sub, i);
    } else if s[..|sub|] == sub {
      assert OccursAt(s, sub, 0);
    } else {
      ContainsIff(s[1..], sub);
      assert forall i: nat :: OccursAt(s[1..], sub, i) <==> OccursAt(s, sub, i + 1) by {
        forall i: nat ensures OccursAt(s[1..], sub, i) <==> OccursAt(s, sub, i + 1) {
          if i + |sub| <= |s[1..]| {
            assert s[1..][i..i + |sub|] == s[i + 1..i + 1 + |sub|];
          }
        }
      }
      assert !OccursAt(s, sub, 0);
      if exists i: nat :: OccursAt(s, sub, i) {
        var i: nat :| OccursAt(s, sub, i);
        assert OccursAt(s[1..], sub, i - 1);
      }
    }
  }

  /** `sep.join(items)`. */
  function Join(items: seq<string>, sep: string): string {
    if items == [] then ""
    else if |items| == 1 then items[0]
    else items[0] + sep + Join(items[1..], sep)
  }

  /** Every joined item appears in the joined string. */
  lemma {:induction false} JoinContainsEach(items: seq<string>, sep: string, k: nat)
    requires k < |items|
    ensures exists i: nat :: OccursAt(Join(items, sep), items[k], i)
  {
    var j := Join(items, sep);
    if |items| == 1 {
      assert OccursAt(j, items[k], 0);
    } else if k == 0 {
      assert j[0..|items[0]|] == items[0];
      assert OccursAt(j, items[k], 0);
    } else {
      JoinContainsEach(items[1..], sep, k - 1);
      var rest := Join(items[1..], sep);
      var i: nat :| OccursAt(rest, items[k], i);
      var off := |items[0]| + |sep|;
      assert j == items[0] + sep + rest;
      assert j[off + i..off + i + |items[k]|] == rest[i..i + |items[k]|];
      assert OccursAt(j, items[k], off + i);
    }
  }

  /** A joined list behind any prefix still contains each item. */
  lemma PrefixedJoinContainsEach(prefix: string, items: seq<string>, sep: string, k: nat)
    requires k < |items|
    ensures Contains(prefix + Join(items, sep), items[k])
  {
    var joined := Join(items, sep);
    var whole := prefix + joined;
    JoinContainsEach(items, sep, k);
    var i: nat :| OccursAt(joined, items[k], i);
    assert whole[|prefix| + i..|prefix| + i + |items[k]|] == joined[i..i + |items[k]|];
    assert OccursAt(whole, items[k], |prefix| + i);
    ContainsIff(whole, items[k]);
  }
}
