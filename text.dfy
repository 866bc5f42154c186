/** Python `str` operations used by the modelled code: `strip`, `lower`,
    `in` (substring test), `startswith`, `join`, `split` on one character,
    `replace`, and decimal rendering of a positive integer. */
module Text {

  /** `c.isspace()` in Python 3: the characters `str.strip()` and the regular
      expression class `\s` treat as whitespace. */
  predicate IsSpace(c: char) {
    var n := c as int;
    (9 <= n <= 13) || (28 <= n <= 32) || n == 0x85 || n == 0xA0 || n == 0x1680
    || (0x2000 <= n <= 0x200A) || n == 0x2028 || n == 0x2029 || n == 0x202F
    || n == 0x205F || n == 0x3000
  }

  predicate AllSpace(s: string) {
    forall i :: 0 <= i < |s| ==> IsSpace(s[i])
  }

  /** `s.lstrip()`: drop the leading whitespace. */
  function StripLeft(s: string): (r: string)
    ensures |r| <= |s| && r == s[|s| - |r|..]
    ensures forall i :: 0 <= i < |s| - |r| ==> IsSpace(s[i])
    ensures r != [] ==> !IsSpace(r[0])
  {
    if s != [] && IsSpace(s[0]) then StripLeft(s[1..]) else s
  }

  /** `s.rstrip()`: drop the trailing whitespace. */
  function StripRight(s: string): (r: string)
    ensures |r| <= |s| && r == s[..|r|]
    ensures forall i :: |r| <= i < |s| ==> IsSpace(s[i])
    ensures r != [] ==> !IsSpace(r[|r| - 1])
  {
    if s != [] && IsSpace(s[|s| - 1]) then StripRight(s[..|s| - 1]) else s
  }

  /** `s.strip()`: drop the leading and trailing whitespace. */
  function Strip(s: string): (r: string)
    ensures |r| <= |s|
    ensures r != [] ==> !IsSpace(r[0]) && !IsSpace(r[|r| - 1])
  {
    StripRight(StripLeft(s))
  }

  predicate IsStripped(s: string) {
    s != [] ==> !IsSpace(s[0]) && !IsSpace(s[|s| - 1])
  }

  /** A string without surrounding whitespace is its own strip. */
  lemma StripOfStripped(s: string)
    requires IsStripped(s)
    ensures Strip(s) == s
  {
  }

  /** Stripping twice is stripping once. */
  lemma StripIdempotent(s: string)
    ensures Strip(Strip(s)) == Strip(s)
  {
    StripOfStripped(Strip(s));
  }

  lemma {:induction false} StripLeftPadded(w: string, s: string)
    requires AllSpace(w)
    ensures StripLeft(w + s) == StripLeft(s)
  {
    if w != [] {
      assert (w + s)[0] == w[0];
      assert (w + s)[1..] == w[1..] + s;
      StripLeftPadded(w[1..], s);
    } else {
      assert w + s == s;
    }
  }

  lemma {:induction false} StripRightPadded(s: string, w: string)
    requires AllSpace(w)
    ensures StripRight(s + w) == StripRight(s)
  {
    if w != [] {
      assert (s + w)[|s + w| - 1] == w[|w| - 1];
      assert (s + w)[..|s + w| - 1] == s + w[..|w| - 1];
      StripRightPadded(s, w[..|w| - 1]);
    } else {
      assert s + w == s;
    }
  }

  lemma {:induction false} StripLeftAppend(s: string, w: string)
    requires StripLeft(s) != []
    ensures StripLeft(s + w) == StripLeft(s) + w
  {
    assert s != [];
    assert (s + w)[0] == s[0];
    if IsSpace(s[0]) {
      assert (s + w)[1..] == s[1..] + w;
      StripLeftAppend(s[1..], w);
    }
  }

  /** A string strips to nothing exactly when it is all whitespace. */
  lemma AllSpaceStrip(s: string)
    ensures Strip(s) == [] <==> AllSpace(s)
  {
    var l := StripLeft(s);
    if l != [] {
      assert !IsSpace(s[|s| - |l|]);
    }
  }

  /** Surrounding whitespace never changes the strip of a string. */
  lemma StripPadded(w1: string, s: string, w2: string)
    requires AllSpace(w1) && AllSpace(w2)
    ensures Strip(w1 + s + w2) == Strip(s)
  {
    assert w1 + s + w2 == w1 + (s + w2);
    StripLeftPadded(w1, s + w2);
    if StripLeft(s) == [] {
      assert AllSpace(s) by { AllSpaceStrip(s); }
      StripLeftPadded(s, w2);
      assert StripLeft(w2) == [] by { assert StripLeft(w2) == w2[|w2| - |StripLeft(w2)|..]; }
    } else {
      StripLeftAppend(s, w2);
      StripRightPadded(StripLeft(s), w2);
    }
  }

  function LowerChar(c: char): char {
    if 'A' <= c <= 'Z' then (c as int + 32) as char else c
  }

  /** `s.lower()`, restricted to the ASCII letters. */
  function Lower(s: string): (r: string)
    ensures |r| == |s|
    ensures forall i :: 0 <= i < |s| ==> r[i] == LowerChar(s[i])
  {
    seq(|s|, i requires 0 <= i < |s| => LowerChar(s[i]))
  }

  lemma LowerIdempotent(s: string)
    ensures Lower(Lower(s)) == Lower(s)
  {
  }

  /** Lower-casing keeps whitespace where it is, so it commutes with `lstrip`. */
  lemma {:induction false} StripLeftLower(s: string)
    ensures StripLeft(Lower(s)) == Lower(StripLeft(s))
    decreases |s|
  {
    if s != [] {
      assert Lower(s)[0] == LowerChar(s[0]);
      assert IsSpace(LowerChar(s[0])) == IsSpace(s[0]);
      if IsSpace(s[0]) {
        assert Lower(s)[1..] == Lower(s[1..]);
        StripLeftLower(s[1..]);
      }
    }
  }

  /** Lower-casing commutes with `rstrip`. */
  lemma {:induction false} StripRightLower(s: string)
    ensures StripRight(Lower(s)) == Lower(StripRight(s))
    decreases |s|
  {
    if s != [] {
      assert Lower(s)[|s| - 1] == LowerChar(s[|s| - 1]);
      assert IsSpace(LowerChar(s[|s| - 1])) == IsSpace(s[|s| - 1]);
      if IsSpace(s[|s| - 1]) {
        assert Lower(s)[..|s| - 1] == Lower(s[..|s| - 1]);
        StripRightLower(s[..|s| - 1]);
      }
    }
  }

  /** Lower-casing commutes with `strip`. */
  lemma StripLower(s: string)
    ensures Strip(Lower(s)) == Lower(Strip(s))
  {
    StripLeftLower(s);
    StripRightLower(StripLeft(s));
  }

  predicate StartsWith(s: string, p: string) {
    |p| <= |s| && s[..|p|] == p
  }

  /** A text starts with any prefix it was built from. */
  lemma PrefixStartsWith(p: string, s: string)
    ensures StartsWith(p + s, p)
  {
    assert (p + s)[..|p|] == p;
  }

  /** `sub in s`. */
  predicate Contains(s: string, sub: string)
    decreases |s|
  {
    StartsWith(s, sub) || (s != [] && Contains(s[1..], sub))
  }

  predicate OccursAt(s: string, sub: string, i: int) {
    0 <= i <= |s| - |sub| && s[i..i + |sub|] == sub
  }

  /** `Contains` holds exactly when the pattern sits at some position. */
  lemma {:induction false} ContainsAt(s: string, sub: string)
    ensures Contains(s, sub) <==> exists i :: OccursAt(s, sub, i)
  {
    if StartsWith(s, sub) {
      assert OccursAt(s, sub, 0);
    } else if s == [] {
      assert forall i :: !OccursAt(s, sub, i);
    } else {
      ContainsAt(s[1..], sub);
      if Contains(s[1..], sub) {
        var i :| OccursAt(s[1..], sub, i);
        assert s[i + 1..i + 1 + |sub|] == s[1..][i..i + |sub|];
        assert OccursAt(s, sub, i + 1);
      }
      if exists i :: OccursAt(s, sub, i) {
        var i :| OccursAt(s, sub, i);
        assert i != 0;
        assert s[1..][i - 1..i - 1 + |sub|] == s[i..i + |sub|];
        assert OccursAt(s[1..], sub, i - 1);
      }
    }
  }

  lemma {:induction false} ShortNotContains(s: string, sub: string)
    requires |s| < |sub|
    ensures !Contains(s, sub)
  {
    if s != [] {
      ShortNotContains(s[1..], sub);
    }
  }

  lemma {:induction false} NotContainsSuffix(s: string, k: nat, p: string)
    requires k <= |s| && !Contains(s, p)
    ensures !Contains(s[k..], p)
  {
    if k > 0 {
      NotContainsSuffix(s[1..], k - 1, p);
      assert s[1..][k - 1..] == s[k..];
    }
  }

  /** `sep.join(parts)`. */
  function Join(sep: string, parts: seq<string>): (r: string)
    decreases |parts|
  {
    if parts == [] then ""
    else if |parts| == 1 then parts[0]
    else parts[0] + sep + Join(sep, parts[1..])
  }

  function TotalLength(parts: seq<string>): nat {
    if parts == [] then 0 else |parts[0]| + TotalLength(parts[1..])
  }

  /** Joining n parts inserts exactly n - 1 separators. */
  lemma {:induction false} JoinLength(sep: string, parts: seq<string>)
    requires parts != []
    ensures |Join(sep, parts)| == TotalLength(parts) + (|parts| - 1) * |sep|
  {
    if |parts| > 1 {
      JoinLength(sep, parts[1..]);
    }
  }

  /** Joining is empty only for no parts or a single empty part. */
  lemma {:induction false} JoinEmpty(sep: string, parts: seq<string>)
    requires sep != ""
    ensures Join(sep, parts) == "" <==> parts == [] || parts == [""]
  {
  }

  lemma {:induction false} JoinAppend(sep: string, parts: seq<string>, x: string)
    ensures Join(sep, parts + [x]) == if parts == [] then x else Join(sep, parts) + sep + x
  {
    if |parts| == 1 {
      assert parts + [x] == [parts[0], x];
    } else if |parts| > 1 {
      assert (parts + [x])[1..] == parts[1..] + [x];
      JoinAppend(sep, parts[1..], x);
    }
  }

  /** `s.split(c)` for a one-character separator: the pieces between the separators. */
  function Split(s: string, c: char): (r: seq<string>)
    ensures r != []
    decreases |s|
  {
    if s == [] then [""]
    else
      var rest := Split(s[1..], c);
      if s[0] == c then [""] + rest else [[s[0]] + rest[0]] + rest[1..]
  }

  /** No piece of a split holds the separator. */
  lemma {:induction false} SplitPiecesFree(s: string, c: char)
    ensures forall k :: 0 <= k < |Split(s, c)| ==> c !in Split(s, c)[k]
  {
    if s != [] {
      SplitPiecesFree(s[1..], c);
    }
  }

  /** Joining the pieces of a split with the separator gives the string back. */
  lemma {:induction false} SplitJoin(s: string, c: char)
    ensures Join([c], Split(s, c)) == s
  {
    if s != [] {
      var rest := Split(s[1..], c);
      SplitJoin(s[1..], c);
      if s[0] == c {
        assert Split(s, c) == [""] + rest;
      } else {
        var r := [[s[0]] + rest[0]] + rest[1..];
        if |rest| == 1 {
        } else {
          assert r[1..] == rest[1..];
          assert Join([c], rest) == rest[0] + [c] + Join([c], rest[1..]);
        }
      }
    }
  }

  /** `s.replace(pat, rep)`: every non-overlapping occurrence of `pat`, scanned
      from the left, is replaced by `rep`. */
  function Replace(s: string, pat: string, rep: string): (r: string)
    requires pat != ""
    decreases |s|
  {
    if |s| < |pat| then s
    else if StartsWith(s, pat) then rep + Replace(s[|pat|..], pat, rep)
    else [s[0]] + Replace(s[1..], pat, rep)
  }

  /** Replacing a pattern that does not occur changes nothing. */
  lemma {:induction false} ReplaceAbsent(s: string, pat: string, rep: string)
    requires pat != ""
    requires !Contains(s, pat)
    ensures Replace(s, pat, rep) == s
  {
    if |s| >= |pat| {
      ReplaceAbsent(s[1..], pat, rep);
    }
  }

  /** When the replacement starts like the pattern, a replaced string starts like the original. */
  lemma ReplaceHead(s: string, pat: string, rep: string)
    requires pat != "" && rep != "" && rep[0] == pat[0]
    requires s != []
    ensures Replace(s, pat, rep) != [] && Replace(s, pat, rep)[0] == s[0]
  {
  }

  /** After replacing a two-character pattern by a text that starts with the
      pattern's first character, does not hold the pattern and does not end in
      the first character, no occurrence of the pattern is left. */
  lemma {:induction false} ReplaceLeavesNone(s: string, pat: string, rep: string)
    requires |pat| == 2 && rep != [] && rep[0] == pat[0]
    requires !Contains(rep, pat) && rep[|rep| - 1] != pat[0]
    ensures !Contains(Replace(s, pat, rep), pat)
    decreases |s|
  {
    if |s| < |pat| {
      ShortNotContains(s, pat);
    } else if StartsWith(s, pat) {
      ReplaceLeavesNone(s[2..], pat, rep);
      NoneAcross(rep, Replace(s[2..], pat, rep), pat);
    } else {
      var t := Replace(s[1..], pat, rep);
      ReplaceLeavesNone(s[1..], pat, rep);
      if s[0] == pat[0] {
        ReplaceHead(s[1..], pat, rep);
        assert s[..2] == [s[0], s[1]];
      }
      NoneAcross([s[0]], t, pat);
    }
  }

  /** A two-character pattern occurs in a concatenation only inside a part or across the seam. */
  lemma {:induction false} NoneAcross(a: string, b: string, p: string)
    requires |p| == 2 && a != []
    requires !Contains(a, p) && !Contains(b, p)
    requires b != [] ==> !(a[|a| - 1] == p[0] && b[0] == p[1])
    ensures !Contains(a + b, p)
    decreases |a|
  {
    var ab := a + b;
    if |a| == 1 {
      assert ab[1..] == b;
    } else {
      assert ab[1..] == a[1..] + b;
      assert ab[..2] == a[..2];
      NoneAcross(a[1..], b, p);
    }
  }

  /** Replacing one two-character pattern keeps another one absent, when the
      replacement neither holds it nor can form it with a neighbour. */
  lemma {:induction false} ReplaceKeepsAbsent(s: string, pat: string, rep: string, p: string)
    requires |pat| == 2 && |p| == 2 && rep != [] && rep[0] == pat[0]
    requires !Contains(s, p) && !Contains(rep, p)
    requires rep[0] != p[1] && rep[|rep| - 1] != p[0]
    ensures !Contains(Replace(s, pat, rep), p)
    decreases |s|
  {
    if |s| < |pat| {
    } else if StartsWith(s, pat) {
      NotContainsSuffix(s, 2, p);
      ReplaceKeepsAbsent(s[2..], pat, rep, p);
      NoneAcross(rep, Replace(s[2..], pat, rep), p);
    } else {
      var t := Replace(s[1..], pat, rep);
      NotContainsSuffix(s, 1, p);
      ReplaceKeepsAbsent(s[1..], pat, rep, p);
      ShortNotContains([s[0]], p);
      if s[0] == p[0] {
        ReplaceHead(s[1..], pat, rep);
        assert s[..2] == [s[0], s[1]];
      }
      NoneAcross([s[0]], t, p);
    }
  }

  function DigitChar(d: nat): char
    requires d < 10
  {
    ('0' as int + d) as char
  }

  /** `str(n)` for a natural number: its decimal digits, most significant first. */
  function NatToString(n: nat): (r: string)
    ensures r != []
    ensures forall i :: 0 <= i < |r| ==> '0' <= r[i] <= '9'
    ensures n > 0 ==> r[0] != '0'
  {
    if n < 10 then [DigitChar(n)] else NatToString(n / 10) + [DigitChar(n % 10)]
  }

  function DigitsValue(s: string): nat
    requires forall i :: 0 <= i < |s| ==> '0' <= s[i] <= '9'
  {
    if s == [] then 0 else DigitsValue(s[..|s| - 1]) * 10 + (s[|s| - 1] as int - '0' as int)
  }

  /** Reading the decimal digits back gives the number. */
  lemma {:induction false} NatToStringValue(n: nat)
    ensures DigitsValue(NatToString(n)) == n
  {
    if n >= 10 {
      NatToStringValue(n / 10);
      var r := NatToString(n);
      assert r[..|r| - 1] == NatToString(n / 10);
    }
  }
}
