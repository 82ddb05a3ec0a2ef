/** String primitives shared by the client and the server models.

    Case mapping is the ASCII part of Python's `str.lower`/`str.upper` and of
    JavaScript's `toLowerCase`/`toUpperCase`; `Contains` is Python's `in` and
    JavaScript's `includes` on strings; `ReplaceAll` is Python's `str.replace`;
    `Trim` is `str.strip()` or `String.prototype.trim` depending on the
    whitespace predicate passed to it. */
module Text {

  function LowerChar(c: char): char {
    if 'A' <= c <= 'Z' then (c as int + 32) as char else c
  }

  function UpperChar(c: char): char {
    if 'a' <= c <= 'z' then (c as int - 32) as char else c
  }

  function Lower(s: string): (r: string)
    ensures |r| == |s|
    ensures forall i :: 0 <= i < |s| ==> r[i] == LowerChar(s[i])
  {
    seq(|s|, i requires 0 <= i < |s| => LowerChar(s[i]))
  }

  function Upper(s: string): (r: string)
    ensures |r| == |s|
    ensures forall i :: 0 <= i < |s| ==> r[i] == UpperChar(s[i])
  {
    seq(|s|, i requires 0 <= i < |s| => UpperChar(s[i]))
  }

  /** Lower-casing distributes over concatenation. */
  lemma LowerAppend(a: string, b: string)
    ensures Lower(a + b) == Lower(a) + Lower(b)
  {
  }

  /** Lower-casing forgets any earlier change of case. */
  lemma LowerForgetsCase(s: string)
    ensures Lower(Upper(s)) == Lower(s) && Lower(Lower(s)) == Lower(s)
  {
  }

  /** Upper-casing forgets any earlier change of case. */
  lemma UpperForgetsCase(s: string)
    ensures Upper(Lower(s)) == Upper(s) && Upper(Upper(s)) == Upper(s)
  {
  }

  /** Python's `str(n)` for an integer: decimal digits, a minus sign first
      when negative. */
  function NatToString(n: nat): (r: string)
    ensures |r| >= 1
    ensures forall i :: 0 <= i < |r| ==> '0' <= r[i] <= '9'
  {
    if n < 10 then [('0' as int + n) as char] else NatToString(n / 10) + [('0' as int + n % 10) as char]
  }

  function IntToString(n: int): (r: string)
    ensures n >= 0 ==> r == NatToString(n)
    ensures n < 0 ==> r == "-" + NatToString(-n)
  {
    if n >= 0 then NatToString(n) else "-" + NatToString(-n)
  }

  /** `p` occurs in `s` starting at index `i`. */
  ghost predicate OccursAt(s: string, p: string, i: int) {
    0 <= i && i + |p| <= |s| && s[i..i + |p|] == p
  }

  /** Substring test, scanning left to right. */
  predicate Contains(s: string, p: string)
    decreases |s|
  {
    (|p| <= |s| && s[..|p|] == p) || (|s| > 0 && Contains(s[1..], p))
  }

  /** `Contains` is exactly "occurs at some index". */
  lemma {:induction false} ContainsIff(s: string, p: string)
    ensures Contains(s, p) <==> exists i :: OccursAt(s, p, i)
    decreases |s|
  {
    if |p| <= |s| && s[..|p|] == p {
      assert OccursAt(s, p, 0);
    } else if |s| > 0 {
      ContainsIff(s[1..], p);
      if Contains(s[1..], p) {
        var i :| OccursAt(s[1..], p, i);
        assert s[1..][i..i + |p|] == s[i + 1..i + 1 + |p|];
        assert OccursAt(s, p, i + 1);
      } else {
        forall i | OccursAt(s, p, i) && i > 0 ensures false {
          assert s[1..][i - 1..i - 1 + |p|] == s[i..i + |p|];
          assert OccursAt(s[1..], p, i - 1);
        }
      }
    }
  }

  /** A string never contains a longer one. */
  lemma {:induction false} ContainsLength(s: string, p: string)
    requires Contains(s, p)
    ensures |p| <= |s|
    decreases |s|
  {
    if !(|p| <= |s| && s[..|p|] == p) {
      ContainsLength(s[1..], p);
    }
  }

  /** A string embedded anywhere in a longer one is found. */
  lemma ContainsInfix(a: string, p: string, b: string)
    ensures Contains(a + p + b, p)
  {
    var s := a + p + b;
    assert s[|a|..|a| + |p|] == p;
    assert OccursAt(s, p, |a|);
    ContainsIff(s, p);
  }

  /** The same, for a string already known to be split around `p`. */
  lemma ContainsSplit(s: string, a: string, p: string, b: string)
    requires s == a + p + b
    ensures Contains(s, p)
  {
    ContainsInfix(a, p, b);
  }

  /** An occurrence stays an occurrence inside any surrounding text. */
  lemma ContainsWithin(a: string, s: string, b: string, p: string)
    requires Contains(s, p)
    ensures Contains(a + s + b, p)
  {
    ContainsIff(s, p);
    var i :| OccursAt(s, p, i);
    var t := a + s + b;
    assert t[|a| + i..|a| + i + |p|] == s[i..i + |p|];
    assert OccursAt(t, p, |a| + i);
    ContainsIff(t, p);
  }

  /** An exact occurrence is also an occurrence after lower-casing both sides. */
  lemma ContainsLower(s: string, p: string)
    requires Contains(s, p)
    ensures Contains(Lower(s), Lower(p))
  {
    ContainsIff(s, p);
    var i :| OccursAt(s, p, i);
    assert Lower(s)[i..i + |p|] == Lower(p);
    assert OccursAt(Lower(s), Lower(p), i);
    ContainsIff(Lower(s), Lower(p));
  }

  /** Python's `str.replace(old, new)`: every non-overlapping occurrence of
      `pat`, found left to right, is replaced by `repl`. */
  function ReplaceAll(s: string, pat: string, repl: string): string
    requires |pat| > 0
    decreases |s|
  {
    if |s| < |pat| then s
    else if s[..|pat|] == pat then repl + ReplaceAll(s[|pat|..], pat, repl)
    else [s[0]] + ReplaceAll(s[1..], pat, repl)
  }

  /** Replacing a pattern that does not occur leaves the string as it was. */
  lemma {:induction false} ReplaceAllAbsent(s: string, pat: string, repl: string)
    requires |pat| > 0 && !Contains(s, pat)
    ensures ReplaceAll(s, pat, repl) == s
    decreases |s|
  {
    if |s| >= |pat| {
      ReplaceAllAbsent(s[1..], pat, repl);
      assert [s[0]] + s[1..] == s;
    }
  }

  /** The first `k` characters after replacement are the original ones,
      unless a replacement has begun among them. */
  lemma {:induction false} ReplacePrefix(t: string, pat: string, repl: string, k: nat)
    requires |pat| > 0 && repl != [] && k <= |t| && k <= |ReplaceAll(t, pat, repl)|
    ensures ReplaceAll(t, pat, repl)[..k] == t[..k] || repl[0] in ReplaceAll(t, pat, repl)[..k]
    decreases |t|
  {
    var r := ReplaceAll(t, pat, repl);
    if k > 0 && |t| >= |pat| {
      if t[..|pat|] == pat {
        assert r[0] == repl[0];
      } else {
        var rest := ReplaceAll(t[1..], pat, repl);
        ReplacePrefix(t[1..], pat, repl, k - 1);
        assert r[..k] == [t[0]] + rest[..k - 1];
        assert t[..k] == [t[0]] + t[1..][..k - 1];
      }
    }
  }

  /** Replacing every occurrence of `pat` leaves none behind, provided the
      replacement neither contains `pat` nor begins or ends with one of its
      characters. */
  lemma {:induction false} ReplaceAllRemoves(s: string, pat: string, repl: string)
    requires |pat| > 0 && repl != [] && repl[0] !in pat && repl[|repl| - 1] !in pat
    requires !Contains(repl, pat)
    ensures !Contains(ReplaceAll(s, pat, repl), pat)
    decreases |s|
  {
    if |s| < |pat| {
      if Contains(s, pat) {
        ContainsLength(s, pat);
      }
    } else if s[..|pat|] == pat {
      ReplaceAllRemoves(s[|pat|..], pat, repl);
      NoOccurrenceAcrossRepl(repl, ReplaceAll(s[|pat|..], pat, repl), pat);
    } else {
      ReplaceAllRemoves(s[1..], pat, repl);
      NoOccurrenceAtFront(s, pat, repl);
    }
  }

  /** Neither part holds `pat`, and the first part ends in a character `pat`
      lacks: then no occurrence straddles the two either. */
  lemma NoOccurrenceAcrossRepl(repl: string, rest: string, pat: string)
    requires |pat| > 0 && repl != [] && repl[|repl| - 1] !in pat
    requires !Contains(repl, pat) && !Contains(rest, pat)
    ensures !Contains(repl + rest, pat)
  {
    var res := repl + rest;
    ContainsIff(rest, pat);
    ContainsIff(repl, pat);
    forall i ensures !OccursAt(res, pat, i) {
      if 0 <= i && i + |pat| <= |res| {
        if i >= |repl| {
          assert !OccursAt(rest, pat, i - |repl|);
          assert rest[i - |repl|..i - |repl| + |pat|] == res[i..i + |pat|];
        } else if i + |pat| <= |repl| {
          assert !OccursAt(repl, pat, i);
          assert repl[i..i + |pat|] == res[i..i + |pat|];
        } else {
          assert res[i..i + |pat|][|repl| - 1 - i] == repl[|repl| - 1];
        }
      }
    }
    ContainsIff(res, pat);
  }

  /** A string that does not start with `pat` keeps its first character in
      front of the replaced remainder; no occurrence can start there. */
  lemma NoOccurrenceAtFront(s: string, pat: string, repl: string)
    requires |pat| > 0 && repl != [] && repl[0] !in pat
    requires |s| >= |pat| && s[..|pat|] != pat
    requires !Contains(ReplaceAll(s[1..], pat, repl), pat)
    ensures !Contains(ReplaceAll(s, pat, repl), pat)
  {
    var rest := ReplaceAll(s[1..], pat, repl);
    assert ReplaceAll(s, pat, repl) == [s[0]] + rest;
    FrontNotPattern(s, pat, repl);
    ConsNoOccurrence(s[0], rest, pat);
  }

  /** A string whose tail lacks `pat` and which does not start with `pat` lacks it. */
  lemma ConsNoOccurrence(c: char, rest: string, pat: string)
    requires !Contains(rest, pat) && !OccursAt([c] + rest, pat, 0)
    ensures !Contains([c] + rest, pat)
  {
    var res := [c] + rest;
    ContainsIff(rest, pat);
    forall i | 1 <= i && i + |pat| <= |res| ensures !OccursAt(res, pat, i) {
      assert !OccursAt(rest, pat, i - 1);
      assert rest[i - 1..i - 1 + |pat|] == res[i..i + |pat|];
    }
    ContainsIff(res, pat);
  }

  /** The replaced text of a string not starting with `pat` does not start with it. */
  lemma FrontNotPattern(s: string, pat: string, repl: string)
    requires |pat| > 0 && repl != [] && repl[0] !in pat
    requires |s| >= |pat| && s[..|pat|] != pat
    ensures !OccursAt(ReplaceAll(s, pat, repl), pat, 0)
  {
    var rest := ReplaceAll(s[1..], pat, repl);
    var res := ReplaceAll(s, pat, repl);
    var k := |pat| - 1;
    assert res == [s[0]] + rest;
    if |pat| <= |res| {
      ReplacePrefix(s[1..], pat, repl, k);
      if rest[..k] == s[1..][..k] {
        assert res[..|pat|] == [s[0]] + rest[..k];
        assert s[..|pat|] == [s[0]] + s[1..][..k];
      } else {
        var j :| 0 <= j < k && rest[..k][j] == repl[0];
        assert res[..|pat|][j + 1] == repl[0];
      }
    }
  }

  /** JavaScript's white space and line terminators, as `trim` and `\s` use them. */
  predicate IsJsSpace(c: char) {
    var n := c as int;
    (0x09 <= n <= 0x0D) || n == 0x20 || n == 0xA0 || n == 0x1680
    || (0x2000 <= n <= 0x200A) || n == 0x2028 || n == 0x2029 || n == 0x202F
    || n == 0x205F || n == 0x3000 || n == 0xFEFF
  }

  /** Python's `str.isspace` characters, as `str.strip()` uses them. */
  predicate IsPySpace(c: char) {
    var n := c as int;
    (0x09 <= n <= 0x0D) || (0x1C <= n <= 0x20) || n == 0x85 || n == 0xA0 || n == 0x1680
    || (0x2000 <= n <= 0x200A) || n == 0x2028 || n == 0x2029 || n == 0x202F
    || n == 0x205F || n == 0x3000
  }

  function TrimStart(s: string, space: char -> bool): (r: string)
    ensures |r| <= |s| && r == s[|s| - |r|..]
    ensures r != [] ==> !space(r[0])
    ensures forall i :: 0 <= i < |s| - |r| ==> space(s[i])
    ensures forall c :: c in r ==> c in s
    decreases |s|
  {
    if s != [] && space(s[0]) then TrimStart(s[1..], space) else s
  }

  function TrimEnd(s: string, space: char -> bool): (r: string)
    ensures |r| <= |s| && r == s[..|r|]
    ensures r != [] ==> !space(r[|r| - 1])
    ensures forall i :: |r| <= i < |s| ==> space(s[i])
    ensures forall c :: c in r ==> c in s
    decreases |s|
  {
    if s != [] && space(s[|s| - 1]) then TrimEnd(s[..|s| - 1], space) else s
  }

  /** Both ends stripped; the result is a slice of `s` with no white space at
      either end, and everything cut off is white space. */
  function Trim(s: string, space: char -> bool): (r: string)
    ensures |r| <= |s|
    ensures r != [] ==> !space(r[0]) && !space(r[|r| - 1])
    ensures (forall i :: 0 <= i < |s| ==> space(s[i])) <==> r == []
    ensures forall c :: c in r ==> c in s
  {
    TrimEnd(TrimStart(s, space), space)
  }

  function JsTrim(s: string): string { Trim(s, IsJsSpace) }

  function PyStrip(s: string): string { Trim(s, IsPySpace) }
}
