/**
 * The string operations the application relies on: lower-casing, substring search
 * (`String.prototype.includes`), an ordering of strings, and the decimal text of
 * a number.
 */
module Strings {

  /** `toLowerCase` on one character, for the ASCII letters A to Z. */
  function LowerChar(c: char): char {
    if IsUpper(c) then (c as int + 32) as char else c
  }

  predicate IsUpper(c: char) {
    'A' <= c <= 'Z'
  }

  /**
   * `toLowerCase` on a string: the length is kept, no upper-case letter is
   * left, every upper-case letter becomes its lower-case partner and every
   * other character stays where it was.
   */
  function Lower(s: string): (r: string)
    ensures |r| == |s|
    ensures forall i :: 0 <= i < |r| ==> !IsUpper(r[i])
    ensures forall i :: 0 <= i < |s| && IsUpper(s[i]) ==> 'a' <= r[i] <= 'z' && r[i] as int - s[i] as int == 32
    ensures forall i :: 0 <= i < |s| && !IsUpper(s[i]) ==> r[i] == s[i]
  {
    seq(|s|, i requires 0 <= i < |s| => LowerChar(s[i]))
  }

  /** `s.includes(sub)`: `sub` occurs in `s` as a contiguous block. */
  function Contains(s: string, sub: string): bool
    decreases |s|
  {
    sub <= s || (|s| > 0 && Contains(s[1..], sub))
  }

  /** `sub` sits inside `s` starting at offset `i`. */
  predicate OccursAt(s: string, sub: string, i: int) {
    0 <= i <= |s| - |sub| && s[i..i + |sub|] == sub
  }

  /**
   * Contains agrees with the positional definition of a substring: there is an
   * offset at which `sub` sits inside `s`.
   */
  lemma {:induction false} ContainsAt(s: string, sub: string)
    ensures Contains(s, sub) <==> exists i :: OccursAt(s, sub, i)
    decreases |s|
  {
    if sub <= s {
      assert OccursAt(s, sub, 0);
    } else if |s| > 0 {
      ContainsAt(s[1..], sub);
      if exists i :: OccursAt(s, sub, i) {
        var i :| OccursAt(s, sub, i);
        assert i != 0;
        assert OccursAt(s[1..], sub, i - 1);
      }
      if exists j :: OccursAt(s[1..], sub, j) {
        var j :| OccursAt(s[1..], sub, j);
        assert s[1..][j..j + |sub|] == s[j + 1..j + 1 + |sub|];
        assert OccursAt(s, sub, j + 1);
      }
    } else {
      assert forall i :: !OccursAt(s, sub, i);
    }
  }

  /** Lower-casing twice changes nothing more than lower-casing once. */
  lemma LowerIdempotent(s: string)
    ensures Lower(Lower(s)) == Lower(s)
  {
  }

  /** A string includes only texts no longer than itself. */
  lemma {:induction false} ContainsLength(s: string, sub: string)
    ensures Contains(s, sub) ==> |sub| <= |s|
    decreases |s|
  {
    if !(sub <= s) && |s| > 0 {
      ContainsLength(s[1..], sub);
    }
  }

  /** Every string includes the empty string. */
  lemma ContainsEmpty(s: string)
    ensures Contains(s, "")
  {
  }

  /** Lexicographic order on character codes: `a` is a prefix of `b` or is smaller at the first difference. */
  predicate LexLeq(a: string, b: string) {
    a == [] || (b != [] && (a[0] < b[0] || (a[0] == b[0] && LexLeq(a[1..], b[1..]))))
  }

  lemma {:induction false} LexLeqReflexive(a: string)
    ensures LexLeq(a, a)
  {
    if a != [] {
      LexLeqReflexive(a[1..]);
    }
  }

  lemma {:induction false} LexLeqAntisymmetric(a: string, b: string)
    requires LexLeq(a, b) && LexLeq(b, a)
    ensures a == b
  {
    if a != [] && b != [] {
      LexLeqAntisymmetric(a[1..], b[1..]);
      assert a == [a[0]] + a[1..] && b == [b[0]] + b[1..];
    }
  }

  lemma {:induction false} LexLeqTransitive(a: string, b: string, c: string)
    requires LexLeq(a, b) && LexLeq(b, c)
    ensures LexLeq(a, c)
  {
    if a != [] && b != [] && c != [] && a[0] == b[0] == c[0] {
      LexLeqTransitive(a[1..], b[1..], c[1..]);
    }
  }

  lemma {:induction false} LexLeqTotal(a: string, b: string)
    ensures LexLeq(a, b) || LexLeq(b, a)
  {
    if a != [] && b != [] && a[0] == b[0] {
      LexLeqTotal(a[1..], b[1..]);
    }
  }

  predicate IsDigit(c: char) {
    '0' <= c <= '9'
  }

  predicate AllDigits(s: string) {
    forall i :: 0 <= i < |s| ==> IsDigit(s[i])
  }

  function DigitChar(d: nat): (c: char)
    requires d < 10
    ensures IsDigit(c)
  {
    ('0' as int + d) as char
  }

  function DigitValue(c: char): nat
    requires IsDigit(c)
  {
    c as int - '0' as int
  }

  /** The decimal text of a natural number, as `String(n)` writes it: no sign, no leading zeros. */
  function NatToString(n: nat): (r: string)
    ensures |r| > 0 && AllDigits(r)
    ensures r[0] == '0' ==> n == 0
  {
    if n < 10 then [DigitChar(n)] else NatToString(n / 10) + [DigitChar(n % 10)]
  }

  /** Reads a string of decimal digits back as a number. */
  function ParseNat(s: string): nat
    requires AllDigits(s)
  {
    if s == [] then 0 else ParseNat(s[..|s| - 1]) * 10 + DigitValue(s[|s| - 1])
  }

  /** The decimal text of a number reads back as that number. */
  lemma {:induction false} ParseNatToString(n: nat)
    ensures ParseNat(NatToString(n)) == n
  {
    var s := NatToString(n);
    if n >= 10 {
      ParseNatToString(n / 10);
      assert s[..|s| - 1] == NatToString(n / 10);
    }
  }

  /**
   * A canonical digit string (at least one digit, no leading zero unless it is
   * "0" itself) is the decimal text of the number it reads as.
   */
  lemma {:induction false} NatToStringParseNat(s: string)
    requires s != [] && AllDigits(s)
    requires |s| > 1 ==> s[0] != '0'
    ensures NatToString(ParseNat(s)) == s
    decreases |s|
  {
    var init := s[..|s| - 1];
    var v := DigitValue(s[|s| - 1]);
    if |s| > 1 {
      ParseNatPositive(init);
      NatToStringParseNat(init);
      var n := ParseNat(s);
      assert n == ParseNat(init) * 10 + v;
      assert n / 10 == ParseNat(init) && n % 10 == v;
      assert s == init + [s[|s| - 1]];
    } else {
      assert ParseNat(init) == 0;
      assert s == [s[0]];
    }
  }

  /** A digit string that does not start with '0' reads as a positive number. */
  lemma {:induction false} ParseNatPositive(s: string)
    requires s != [] && AllDigits(s) && s[0] != '0'
    ensures ParseNat(s) >= 1
    decreases |s|
  {
    if |s| > 1 {
      ParseNatPositive(s[..|s| - 1]);
    } else {
      assert ParseNat(s[..0]) == 0;
    }
  }

  /**
   * The text of an integer, as `toString` writes it: a minus sign exactly when
   * the number is negative, followed by digits that read back as its magnitude.
   */
  function IntToString(n: int): (r: string)
    ensures |r| > 0 && (r[0] == '-' <==> n < 0)
    ensures n >= 0 ==> AllDigits(r) && ParseNat(r) == n
    ensures n < 0 ==> AllDigits(r[1..]) && ParseNat(r[1..]) == -n
    ensures n >= 0 && |r| > 1 ==> r[0] != '0'
    ensures n < 0 ==> |r| > 1 && r[1] != '0'
  {
    if n >= 0 then
      ParseNatToString(n);
      NatToString(n)
    else
      ParseNatToString(-n);
      var digits := NatToString(-n);
      assert ("-" + digits)[1..] == digits;
      "-" + digits
  }
}
