/** Character classes and string primitives with the meaning Python 3 gives
    them on `str`: `\s`/`str.isspace`, `\w`, `\d`, `str.lower`, `str.strip`,
    the `in` operator on strings, and `<=` on strings. */
module Text {

  /** Python's whitespace set (`str.isspace`, and regex `\s` on str patterns). */
  predicate IsSpace(c: char) {
    ('\t' <= c <= '\r') || ('\U{1c}' <= c <= '\U{1f}') || c == ' ' || c == '\U{85}' || c == '\U{a0}'
    || c == '\U{1680}' || ('\U{2000}' <= c <= '\U{200a}') || c == '\U{2028}' || c == '\U{2029}'
    || c == '\U{202f}' || c == '\U{205f}' || c == '\U{3000}'
  }

  /** Regex `\d`, restricted to ASCII digits. */
  predicate IsDigit(c: char) { '0' <= c <= '9' }

  predicate IsAsciiUpper(c: char) { 'A' <= c <= 'Z' }

  predicate IsAsciiLower(c: char) { 'a' <= c <= 'z' }

  /** Regex `\w` (alphanumerics and underscore), restricted to Latin-1. */
  predicate IsWordChar(c: char) {
    IsDigit(c) || IsAsciiUpper(c) || IsAsciiLower(c) || c == '_'
    || c == '\U{aa}' || c == '\U{b2}' || c == '\U{b3}' || c == '\U{b5}' || c == '\U{b9}' || c == '\U{ba}'
    || ('\U{bc}' <= c <= '\U{be}') || ('\U{c0}' <= c <= '\U{ff}' && c != '\U{d7}' && c != '\U{f7}')
  }

  lemma WordAndSpaceDisjoint(c: char)
    ensures !(IsWordChar(c) && IsSpace(c))
  {
  }

  /** `str.lower` on one character: ASCII and Latin-1 capitals map to their small letters. */
  function LowerChar(c: char): (r: char)
    ensures IsSpace(r) == IsSpace(c) && IsWordChar(r) == IsWordChar(c) && IsDigit(r) == IsDigit(c)
    ensures !IsAsciiUpper(r)
  {
    if IsAsciiUpper(c) || ('\U{c0}' <= c <= '\U{de}' && c != '\U{d7}') then (c as int + 32) as char else c
  }

  /** `str.lower`. */
  function Lower(s: string): (r: string)
    ensures |r| == |s|
    ensures forall i :: 0 <= i < |s| ==> r[i] == LowerChar(s[i])
  {
    seq(|s|, i requires 0 <= i < |s| => LowerChar(s[i]))
  }

  lemma LowerIdempotent(s: string)
    ensures Lower(Lower(s)) == Lower(s)
  {
  }

  lemma LowerAppend(a: string, b: string)
    ensures Lower(a + b) == Lower(a) + Lower(b)
  {
  }

  lemma LowerSlice(s: string, i: int, j: int)
    requires 0 <= i <= j <= |s|
    ensures Lower(s[i..j]) == Lower(s)[i..j]
  {
  }

  /** The characters of `s` all lie in a class. */
  datatype CharClass = Space | Word | Digit | AsciiLowercase

  predicate InClass(c: char, k: CharClass) {
    match k
    case Space => IsSpace(c)
    case Word => IsWordChar(c)
    case Digit => IsDigit(c)
    case AsciiLowercase => IsAsciiLower(c)
  }

  predicate AllIn(s: string, k: CharClass) {
    forall i :: 0 <= i < |s| ==> InClass(s[i], k)
  }

  /** Length of the longest prefix of `s` in class `k` (what a greedy `k+` consumes). */
  function RunLength(s: string, k: CharClass): (n: nat)
    ensures n <= |s|
    ensures AllIn(s[..n], k)
    ensures n < |s| ==> !InClass(s[n], k)
  {
    if |s| > 0 && InClass(s[0], k) then 1 + RunLength(s[1..], k) else 0
  }

  lemma RunLengthAll(s: string, k: CharClass)
    requires AllIn(s, k)
    ensures RunLength(s, k) == |s|
  {
  }

  /** A greedy run over `b + u` takes exactly `b` when `u` starts outside the class. */
  lemma RunLengthPrefix(b: string, u: string, k: CharClass)
    requires AllIn(b, k) && (u != "" ==> !InClass(u[0], k))
    ensures RunLength(b + u, k) == |b|
  {
    assert (b + u)[..|b|] == b;
    RunLengthStops(b + u, k, |b|);
  }

  /** A greedy run over a class stops at the first character outside it. */
  lemma RunLengthStops(s: string, k: CharClass, n: int)
    requires 0 <= n <= |s| && AllIn(s[..n], k) && (n < |s| ==> !InClass(s[n], k))
    ensures RunLength(s, k) == n
    decreases n
  {
    if n > 0 {
      assert s[1..][..n - 1] == s[1..n];
      RunLengthStops(s[1..], k, n - 1);
    }
  }

  /** `str.strip()`: the span of `s` without leading and trailing whitespace. */
  function Strip(s: string): (r: string)
    ensures r == "" || (!IsSpace(r[0]) && !IsSpace(r[|r| - 1]))
    ensures exists i, j :: 0 <= i <= j <= |s| && r == s[i..j] && AllIn(s[..i], Space) && AllIn(s[j..], Space)
  {
    var i := RunLength(s, Space);
    var t := s[i..];
    var j := |t| - TrailingSpaces(t);
    assert t[..j] == s[i..i + j] && s[i + j..] == t[j..];
    t[..j]
  }

  /** Number of whitespace characters at the end of `s`. */
  function TrailingSpaces(s: string): (n: nat)
    ensures n <= |s|
    ensures AllIn(s[|s| - n..], Space)
    ensures n < |s| ==> !IsSpace(s[|s| - n - 1])
  {
    if |s| > 0 && IsSpace(s[|s| - 1]) then
      var n := 1 + TrailingSpaces(s[..|s| - 1]);
      assert s[|s| - n..] == s[..|s| - 1][|s| - n..] + [s[|s| - 1]];
      n
    else 0
  }

  /** A string that has no leading or trailing whitespace is its own strip. */
  lemma StripTrimmed(s: string)
    requires s == "" || (!IsSpace(s[0]) && !IsSpace(s[|s| - 1]))
    ensures Strip(s) == s
  {
  }

  lemma StripIdempotent(s: string)
    ensures Strip(Strip(s)) == Strip(s)
  {
    StripTrimmed(Strip(s));
  }

  lemma StripAllSpace(s: string)
    requires AllIn(s, Space)
    ensures Strip(s) == ""
  {
    RunLengthAll(s, Space);
  }

  /** `t` occurs in `s` at index `i`. */
  predicate OccursAt(s: string, t: string, i: int) {
    0 <= i && i + |t| <= |s| && s[i..i + |t|] == t
  }

  /** Python's `t in s`: `t` is a substring of `s`. */
  predicate Contains(s: string, t: string)
    decreases |s|
  {
    if |t| <= |s| && s[..|t|] == t then true
    else if s == [] then false
    else Contains(s[1..], t)
  }

  lemma {:induction false} ContainsIff(s: string, t: string)
    ensures Contains(s, t) <==> exists i :: OccursAt(s, t, i)
    decreases |s|
  {
    if |t| <= |s| && s[..|t|] == t {
      assert OccursAt(s, t, 0);
    } else if s == [] {
    } else {
      ContainsIff(s[1..], t);
      if Contains(s[1..], t) {
        var i :| OccursAt(s[1..], t, i);
        assert OccursAt(s, t, i + 1);
      } else {
        forall i | OccursAt(s, t, i) ensures false {
          assert i != 0;
          assert OccursAt(s[1..], t, i - 1);
        }
      }
    }
  }

  lemma ContainsAt(s: string, t: string, i: int)
    requires OccursAt(s, t, i)
    ensures Contains(s, t)
  {
    ContainsIff(s, t);
  }

  /** The stripped text is a substring of the text. */
  lemma StripContained(s: string)
    ensures Contains(s, Strip(s))
  {
    var i, j :| 0 <= i <= j <= |s| && Strip(s) == s[i..j] && AllIn(s[..i], Space) && AllIn(s[j..], Space);
    ContainsAt(s, Strip(s), i);
  }

  /** The middle piece of a concatenation is a substring of it. */
  lemma ContainsMiddle(a: string, b: string, c: string)
    ensures Contains(a + b + c, b)
  {
    assert (a + b + c)[|a|..|a| + |b|] == b;
    ContainsAt(a + b + c, b, |a|);
  }

  /** A substring of a substring is a substring. */
  lemma ContainsTransitive(s: string, t: string, u: string)
    requires Contains(s, t) && Contains(t, u)
    ensures Contains(s, u)
  {
    ContainsIff(s, t);
    ContainsIff(t, u);
    var i :| OccursAt(s, t, i);
    var j :| OccursAt(t, u, j);
    SliceOfSlice(s, i, i + |t|, j, j + |u|);
    ContainsAt(s, u, i + j);
  }

  lemma SliceOfSlice(s: string, a: int, b: int, c: int, d: int)
    requires 0 <= a <= b <= |s| && 0 <= c <= d <= b - a
    ensures s[a..b][c..d] == s[a + c..a + d]
  {
    var x, y := s[a..b][c..d], s[a + c..a + d];
    forall k | 0 <= k < |x| ensures x[k] == y[k] {
      assert x[k] == s[a..b][c + k] == s[a + c + k];
    }
  }

  /** A string that holds a character `s` lacks is not a substring of `s`. */
  lemma NotContainsMissingChar(s: string, t: string, c: char)
    requires c in t && c !in s
    ensures !Contains(s, t)
  {
    ContainsIff(s, t);
    var k :| 0 <= k < |t| && t[k] == c;
    forall i | 0 <= i && i + |t| <= |s| ensures !OccursAt(s, t, i) {
      assert s[i..i + |t|][k] == s[i + k] != c;
    }
  }

  /** Lower-casing preserves substring occurrences. */
  lemma ContainsLower(s: string, t: string)
    requires Contains(s, t)
    ensures Contains(Lower(s), Lower(t))
  {
    ContainsIff(s, t);
    var i :| OccursAt(s, t, i);
    LowerSlice(s, i, i + |t|);
    ContainsAt(Lower(s), Lower(t), i);
  }

  /** Python's `a <= b` on strings: lexicographic order by code point. */
  predicate LexLe(a: string, b: string)
    decreases |a|
  {
    if a == [] then true
    else if b == [] then false
    else if a[0] != b[0] then a[0] < b[0]
    else LexLe(a[1..], b[1..])
  }

  lemma {:induction false} LexLeTotal(a: string, b: string)
    ensures LexLe(a, b) || LexLe(b, a)
    ensures LexLe(a, b) && LexLe(b, a) ==> a == b
    decreases |a|
  {
    if a != [] && b != [] && a[0] == b[0] {
      LexLeTotal(a[1..], b[1..]);
      if LexLe(a, b) && LexLe(b, a) {
        assert a == [a[0]] + a[1..] && b == [b[0]] + b[1..];
      }
    }
  }

  lemma {:induction false} LexLeTransitive(a: string, b: string, c: string)
    requires LexLe(a, b) && LexLe(b, c)
    ensures LexLe(a, c)
    decreases |a|
  {
    if a != [] && b != [] && c != [] && a[0] == b[0] == c[0] {
      LexLeTransitive(a[1..], b[1..], c[1..]);
    }
  }

  lemma {:induction false} LexLeReflexive(a: string)
    ensures LexLe(a, a)
    decreases |a|
  {
    if a != [] {
      LexLeReflexive(a[1..]);
    }
  }

  /** Value of a string of ASCII digits, most significant first. */
  function DigitsValue(s: string): (v: nat)
    requires AllIn(s, Digit)
    decreases |s|
  {
    if s == [] then 0 else (s[0] as int - '0' as int) * Pow10(|s| - 1) + DigitsValue(s[1..])
  }

  function Pow10(n: nat): (p: nat)
    ensures p >= 1
  {
    if n == 0 then 1 else 10 * Pow10(n - 1)
  }

  lemma MulMono(a: int, b: int, p: nat)
    requires a <= b
    ensures a * p <= b * p
  {
  }

  lemma {:induction false} DigitsValueBound(s: string)
    requires AllIn(s, Digit)
    ensures DigitsValue(s) < Pow10(|s|)
    decreases |s|
  {
    if s != [] {
      DigitsValueBound(s[1..]);
      var d, p := s[0] as int - '0' as int, Pow10(|s| - 1);
      assert DigitsValue(s) == d * p + DigitsValue(s[1..]);
      MulMono(d + 1, 10, p);
      assert (d + 1) * p == d * p + p;
      assert Pow10(|s|) == 10 * p;
    }
  }

  /** The ASCII digit for 0 <= d <= 9. */
  function DigitChar(d: int): (c: char)
    requires 0 <= d <= 9
    ensures IsDigit(c) && c as int - '0' as int == d
  {
    ('0' as int + d) as char
  }

  /** `str(n)` for a natural number. */
  function NatToString(n: nat): (s: string)
    ensures |s| > 0 && AllIn(s, Digit)
    ensures DigitsValue(s) == n
    decreases n
  {
    if n < 10 then [DigitChar(n)]
    else
      var s := NatToString(n / 10) + [DigitChar(n % 10)];
      DigitsValueAppend(NatToString(n / 10), DigitChar(n % 10));
      s
  }

  /** The last `width` decimal digits of `n`, zero-padded (the `%02d` family). */
  function PadDigits(n: nat, width: nat): (s: string)
    ensures |s| == width && AllIn(s, Digit)
    ensures n < Pow10(width) ==> DigitsValue(s) == n
    decreases width
  {
    if width == 0 then ""
    else
      var s := PadDigits(n / 10, width - 1) + [DigitChar(n % 10)];
      DigitsValueAppend(PadDigits(n / 10, width - 1), DigitChar(n % 10));
      s
  }

  /** Appending a digit: value(s + [c]) = 10 * value(s) + c. */
  lemma {:induction false} DigitsValueAppend(s: string, c: char)
    requires AllIn(s, Digit) && IsDigit(c)
    ensures AllIn(s + [c], Digit)
    ensures DigitsValue(s + [c]) == DigitsValue(s) * 10 + (c as int - '0' as int)
    decreases |s|
  {
    AllInAppend(s, c, Digit);
    if s != [] {
      var t := s + [c];
      assert t[0] == s[0] && t[1..] == s[1..] + [c];
      DigitsValueAppend(s[1..], c);
      var d, p := s[0] as int - '0' as int, Pow10(|s| - 1);
      assert DigitsValue(t) == d * Pow10(|s|) + DigitsValue(s[1..] + [c]);
      assert DigitsValue(s) == d * p + DigitsValue(s[1..]);
      assert Pow10(|s|) == p * 10;
      ShiftDigit(d, p, DigitsValue(s[1..]), c as int - '0' as int);
    } else {
      assert s + [c] == [c];
    }
  }

  /** A character of the class appended to a string of that class. */
  lemma AllInAppend(s: string, c: char, k: CharClass)
    requires AllIn(s, k) && InClass(c, k)
    ensures AllIn(s + [c], k)
  {
    forall i | 0 <= i < |s + [c]| ensures InClass((s + [c])[i], k) {
      if i < |s| { assert (s + [c])[i] == s[i]; }
    }
  }

  /** The arithmetic of shifting a leading digit past an appended one. */
  lemma ShiftDigit(d: int, p: int, r: int, e: int)
    ensures d * (p * 10) + (r * 10 + e) == (d * p + r) * 10 + e
  {
    assert d * (p * 10) == (d * p) * 10;
  }

  /** On digit strings of equal length, string order is numeric order; this is
      why zero-padded, year-first period keys can be compared as strings. */
  lemma {:induction false} LexLeDigits(a: string, b: string)
    requires |a| == |b| && AllIn(a, Digit) && AllIn(b, Digit)
    ensures LexLe(a, b) <==> DigitsValue(a) <= DigitsValue(b)
    decreases |a|
  {
    if a != [] {
      var p := Pow10(|a| - 1);
      var da, db := a[0] as int - '0' as int, b[0] as int - '0' as int;
      var va, vb := DigitsValue(a[1..]), DigitsValue(b[1..]);
      assert DigitsValue(a) == da * p + va && DigitsValue(b) == db * p + vb;
      DigitsValueBound(a[1..]);
      DigitsValueBound(b[1..]);
      if a[0] == b[0] {
        LexLeDigits(a[1..], b[1..]);
      } else if a[0] < b[0] {
        LeadingDigitDecides(da, db, va, vb, p);
      } else {
        LeadingDigitDecides(db, da, vb, va, p);
      }
    }
  }

  lemma LeadingDigitDecides(da: int, db: int, va: int, vb: int, p: int)
    requires 0 <= va < p && 0 <= vb < p && da < db
    ensures da * p + va < db * p + vb
  {
    MulMono(da + 1, db, p);
    assert (da + 1) * p == da * p + p;
  }

  /** Comparing two strings that share a prefix compares what follows it. */
  lemma {:induction false} LexLeCommonPrefix(p: string, a: string, b: string)
    ensures LexLe(p + a, p + b) == LexLe(a, b)
    decreases |p|
  {
    if p != [] {
      assert (p + a)[0] == p[0] == (p + b)[0];
      assert (p + a)[1..] == p[1..] + a && (p + b)[1..] == p[1..] + b;
      LexLeCommonPrefix(p[1..], a, b);
    } else {
      assert p + a == a && p + b == b;
    }
  }

  /** Strings of equal length that differ are ordered by their first parts when those differ. */
  lemma {:induction false} LexLeSplit(a1: string, a2: string, b1: string, b2: string)
    requires |a1| == |b1|
    ensures a1 == b1 ==> LexLe(a1 + a2, b1 + b2) == LexLe(a2, b2)
    ensures a1 != b1 ==> LexLe(a1 + a2, b1 + b2) == LexLe(a1, b1)
    decreases |a1|
  {
    if a1 == b1 {
      LexLeCommonPrefix(a1, a2, b2);
    } else if a1[0] == b1[0] {
      assert (a1 + a2)[1..] == a1[1..] + a2 && (b1 + b2)[1..] == b1[1..] + b2;
      LexLeSplit(a1[1..], a2, b1[1..], b2);
    }
  }
}
