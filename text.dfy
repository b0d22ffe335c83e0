/**
 * Strings as the store and the serializers see them: ASCII lower-casing
 * (Ruby's `downcase`, SQL `lower`), substring containment (SQL `LIKE '%q%'`),
 * lexicographic order on character codes (SQL `ORDER BY`), and the decimal
 * form of an integer (Ruby's `Integer#to_s`) together with its parser.
 */
module Text {
  import opened Wrappers

  predicate IsUpper(c: char) { 'A' <= c <= 'Z' }

  /** Lower-cases one ASCII letter; every other character is left alone. */
  function ToLower(c: char): (r: char)
    ensures !IsUpper(r)
    ensures !IsUpper(c) ==> r == c
    ensures IsUpper(c) ==> 'a' <= r <= 'z' && r as int - c as int == 'a' as int - 'A' as int
  {
    if IsUpper(c) then (c as int - 'A' as int + 'a' as int) as char else c
  }

  /** Lower-cases a whole string, character by character. */
  function Lower(s: string): (r: string)
    ensures |r| == |s|
    ensures forall i :: 0 <= i < |s| ==> r[i] == ToLower(s[i])
    ensures forall i :: 0 <= i < |r| ==> !IsUpper(r[i])
  {
    seq(|s|, i requires 0 <= i < |s| => ToLower(s[i]))
  }

  /** Lower-casing commutes with taking a slice. */
  lemma LowerSlice(s: string, i: nat, j: nat)
    requires i <= j <= |s|
    ensures Lower(s)[i..j] == Lower(s[i..j])
  {
  }

  /** `sub` occurs in `s` as a contiguous block: SQL `s LIKE '%sub%'` without wildcards in `sub`. */
  predicate Contains(s: string, sub: string) {
    exists i | 0 <= i <= |s| - |sub| :: OccursAt(s, sub, i)
  }

  /** `sub` occurs in `s` starting at position `i`. */
  predicate OccursAt(s: string, sub: string, i: int) {
    0 <= i && i + |sub| <= |s| && s[i..i + |sub|] == sub
  }

  /** A case-sensitive occurrence is also a case-insensitive one. */
  lemma ContainsLower(s: string, sub: string)
    requires Contains(s, sub)
    ensures Contains(Lower(s), Lower(sub))
  {
    var i :| 0 <= i <= |s| - |sub| && OccursAt(s, sub, i);
    LowerSlice(s, i, i + |sub|);
    assert OccursAt(Lower(s), Lower(sub), i);
  }

  /** The empty pattern `'%%'` matches every string. */
  lemma ContainsEmpty(s: string)
    ensures Contains(s, "")
  {
    assert OccursAt(s, "", 0);
  }

  /** Lexicographic order on character codes; a proper prefix sorts first. */
  predicate LessEq(a: string, b: string)
  {
    if a == [] then true
    else if b == [] then false
    else if a[0] != b[0] then a[0] < b[0]
    else LessEq(a[1..], b[1..])
  }

  lemma {:induction false} LessEqReflexive(a: string)
    ensures LessEq(a, a)
  {
    if a != [] { LessEqReflexive(a[1..]); }
  }

  lemma {:induction false} LessEqTotal(a: string, b: string)
    ensures LessEq(a, b) || LessEq(b, a)
  {
    if a != [] && b != [] && a[0] == b[0] { LessEqTotal(a[1..], b[1..]); }
  }

  lemma {:induction false} LessEqTransitive(a: string, b: string, c: string)
    requires LessEq(a, b) && LessEq(b, c)
    ensures LessEq(a, c)
  {
    if a != [] && b != [] && c != [] && a[0] == b[0] && b[0] == c[0] {
      LessEqTransitive(a[1..], b[1..], c[1..]);
    }
  }

  lemma {:induction false} LessEqAntisymmetric(a: string, b: string)
    requires LessEq(a, b) && LessEq(b, a)
    ensures a == b
  {
    if a != [] && b != [] {
      LessEqAntisymmetric(a[1..], b[1..]);
      assert a == [a[0]] + a[1..] && b == [b[0]] + b[1..];
    }
  }

  // ---------------------------------------------------------------------
  // Decimal digits

  predicate IsDigit(c: char) { '0' <= c <= '9' }

  predicate AllDigits(s: string) { forall i :: 0 <= i < |s| ==> IsDigit(s[i]) }

  function DigitChar(d: nat): (c: char)
    requires d < 10
    ensures IsDigit(c) && c as int - '0' as int == d
  {
    ('0' as int + d) as char
  }

  function DigitValue(c: char): (d: nat)
    requires IsDigit(c)
    ensures d < 10 && DigitChar(d) == c
  {
    c as int - '0' as int
  }

  /** The decimal form of a natural number: digits only, no leading zero. */
  function NatToString(n: nat): (r: string)
    ensures |r| > 0 && AllDigits(r)
    ensures r[0] == '0' ==> n == 0 && |r| == 1
    decreases n
  {
    if n < 10 then [DigitChar(n)] else NatToString(n / 10) + [DigitChar(n % 10)]
  }

  /** The value of a string of decimal digits, most significant first. */
  function DigitsValue(s: string): nat
    requires AllDigits(s)
  {
    if s == [] then 0 else DigitsValue(s[..|s| - 1]) * 10 + DigitValue(s[|s| - 1])
  }

  /** Reads a natural number written in decimal; anything else is rejected. */
  function ParseNat(s: string): (r: Option<nat>)
    ensures r.Some? <==> |s| > 0 && AllDigits(s)
  {
    if |s| > 0 && AllDigits(s) then Some(DigitsValue(s)) else None
  }

  lemma {:induction false} ParseNatRoundTrip(n: nat)
    ensures ParseNat(NatToString(n)) == Some(n)
    decreases n
  {
    if n < 10 {
      var t := [DigitChar(n)];
      assert t[..0] == [];
      assert DigitsValue(t) == n;
    } else {
      ParseNatRoundTrip(n / 10);
      var s := NatToString(n / 10);
      var t := s + [DigitChar(n % 10)];
      assert t[..|t| - 1] == s;
      assert DigitsValue(t) == DigitsValue(s) * 10 + n % 10;
    }
  }

  /** The decimal form of an integer, as Ruby's `Integer#to_s` writes it: a minus sign for negatives. */
  function IntToString(n: int): (r: string)
    ensures |r| > 0
    ensures n >= 0 ==> AllDigits(r)
    ensures n < 0 ==> r[0] == '-' && AllDigits(r[1..])
  {
    if n < 0 then "-" + NatToString(-n) else NatToString(n)
  }

  /** Reads an optionally negative decimal integer. */
  function ParseInt(s: string): Option<int>
  {
    if |s| > 0 && s[0] == '-' then
      match ParseNat(s[1..])
      case Some(v) => Some(-(v as int))
      case None => None
    else
      match ParseNat(s)
      case Some(v) => Some(v)
      case None => None
  }

  /** A minus sign before a decimal numeral negates its value. */
  lemma ParseSigned(digits: string, v: nat)
    requires ParseNat(digits) == Some(v)
    ensures ParseInt("-" + digits) == Some(-(v as int))
  {
    assert ("-" + digits)[1..] == digits;
  }

  /** `to_s` loses nothing: its output parses back to the same integer. */
  lemma IntToStringRoundTrip(n: int)
    ensures ParseInt(IntToString(n)) == Some(n)
  {
    if n < 0 {
      ParseNatRoundTrip(-n);
      ParseSigned(NatToString(-n), -n);
    } else {
      ParseNatRoundTrip(n);
    }
  }
}
