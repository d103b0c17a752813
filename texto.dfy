/** String helpers the screens use: case mapping, `includes`, the first-match
    `replace`, and decimal rendering and reading of numbers. Case mapping is
    the ASCII part of JavaScript's Unicode rules. */
module Texto {

  function LowerChar(c: char): (r: char)
    ensures 'A' <= c <= 'Z' ==> 'a' <= r <= 'z'
    ensures !('A' <= c <= 'Z') ==> r == c
  {
    if 'A' <= c <= 'Z' then (c as int - 'A' as int + 'a' as int) as char else c
  }

  function UpperChar(c: char): (r: char)
    ensures 'a' <= c <= 'z' ==> 'A' <= r <= 'Z'
    ensures !('a' <= c <= 'z') ==> r == c
  {
    if 'a' <= c <= 'z' then (c as int - 'a' as int + 'A' as int) as char else c
  }

  /** `String.prototype.toLowerCase`, restricted to ASCII letters. */
  function ToLower(s: string): (r: string)
    ensures |r| == |s|
    ensures forall i :: 0 <= i < |s| ==> r[i] == LowerChar(s[i])
  {
    seq(|s|, i requires 0 <= i < |s| => LowerChar(s[i]))
  }

  /** `String.prototype.toUpperCase`, restricted to ASCII letters. */
  function ToUpper(s: string): (r: string)
    ensures |r| == |s|
    ensures forall i :: 0 <= i < |s| ==> r[i] == UpperChar(s[i])
  {
    seq(|s|, i requires 0 <= i < |s| => UpperChar(s[i]))
  }

  /** `sub` occurs in `s` starting at position `i`. */
  predicate OccursAt(s: string, sub: string, i: nat)
  {
    i + |sub| <= |s| && s[i..i + |sub|] == sub
  }

  /** `s.includes(sub)`: `sub` occurs in `s` at some position. */
  predicate Includes(s: string, sub: string)
  {
    exists i: nat | i <= |s| :: OccursAt(s, sub, i)
  }

  /** Every string includes the empty string and itself. */
  lemma IncludesVacioYPropio(s: string)
    ensures Includes(s, "")
    ensures Includes(s, s)
  {
    assert OccursAt(s, "", 0);
    assert OccursAt(s, s, 0);
  }

  /** `s.indexOf(a)`, or `|s|` when `a` does not occur (JavaScript gives -1). */
  function IndexOf(s: string, a: char): (i: nat)
    ensures i <= |s|
    ensures a !in s[..i]
    ensures i < |s| ==> s[i] == a
    ensures i == |s| <==> a !in s
  {
    if s == [] then 0
    else if s[0] == a then 0
    else
      var k := IndexOf(s[1..], a);
      assert s[..k + 1] == [s[0]] + s[1..][..k];
      k + 1
  }

  /** `s.replace(a, b)` with a one-character pattern: only the first
      occurrence of `a` is replaced. */
  function ReplaceFirst(s: string, a: char, b: char): (r: string)
    ensures |r| == |s|
    ensures a !in s ==> r == s
    ensures a in s ==> exists i :: 0 <= i < |s| && s[i] == a && a !in s[..i] && r[i] == b
                                   && forall j :: 0 <= j < |s| && j != i ==> r[j] == s[j]
  {
    var i := IndexOf(s, a);
    if i == |s| then s
    else
      var r := s[..i] + [b] + s[i + 1..];
      assert |r| == |s| && r[i] == b;
      assert forall j :: 0 <= j < |s| && j != i ==> r[j] == s[j];
      r
  }

  predicate IsDigit(c: char)
  {
    '0' <= c <= '9'
  }

  function DigitChar(d: nat): (c: char)
    requires d < 10
    ensures IsDigit(c) && c as int - '0' as int == d
  {
    ('0' as int + d) as char
  }

  function DigitValue(c: char): (d: nat)
    requires IsDigit(c)
    ensures d < 10 && DigitChar(d) == c
  {
    c as int - '0' as int
  }

  /** `String(n)` for a natural number: its decimal digits, most significant
      first, without leading zeros. */
  function NatToString(n: nat): (s: string)
    ensures |s| >= 1
    ensures forall i :: 0 <= i < |s| ==> IsDigit(s[i])
  {
    if n < 10 then [DigitChar(n)] else NatToString(n / 10) + [DigitChar(n % 10)]
  }

  /** Reads a string of decimal digits. */
  function ParseNat(s: string): nat
    requires forall i :: 0 <= i < |s| ==> IsDigit(s[i])
  {
    if s == [] then 0 else ParseNat(s[..|s| - 1]) * 10 + DigitValue(s[|s| - 1])
  }

  /** Reading back what `NatToString` writes gives the number. */
  lemma {:induction false} ParseNatToString(n: nat)
    ensures ParseNat(NatToString(n)) == n
  {
    var s := NatToString(n);
    if n >= 10 {
      ParseNatToString(n / 10);
      assert s[..|s| - 1] == NatToString(n / 10);
    } else {
      assert s[..|s| - 1] == [];
    }
  }

  /** Digit text without a leading zero is what `NatToString` writes for
      the number it reads as. */
  lemma {:induction false} NatToStringParseNat(t: string)
    requires |t| >= 1 && t[0] != '0'
    requires forall i :: 0 <= i < |t| ==> IsDigit(t[i])
    ensures ParseNat(t) >= 1 && NatToString(ParseNat(t)) == t
    decreases |t|
  {
    var p := t[..|t| - 1];
    var u := DigitValue(t[|t| - 1]);
    if |t| == 1 {
      assert p == [];
      assert DigitValue(t[0]) != 0;
    } else {
      assert p[0] == t[0];
      NatToStringParseNat(p);
      var a, n := ParseNat(p), ParseNat(t);
      assert n == 10 * a + u && 0 <= u < 10;
      assert n / 10 == a && n % 10 == u;
      assert t == p + [t[|t| - 1]];
    }
  }

  /** Numbers of 1 to 4 digits are written with exactly that many digits. */
  lemma LongitudNatToString(n: nat)
    ensures n < 10 ==> |NatToString(n)| == 1
    ensures 10 <= n < 100 ==> |NatToString(n)| == 2
    ensures 1000 <= n < 10000 ==> |NatToString(n)| == 4
  {
    if 10 <= n < 100 {
      assert NatToString(n) == NatToString(n / 10) + [DigitChar(n % 10)];
    }
    if 1000 <= n < 10000 {
      var n1, n2, n3 := n / 10, n / 10 / 10, n / 10 / 10 / 10;
      assert 100 <= n1 < 1000 && 10 <= n2 < 100 && 1 <= n3 < 10;
      assert |NatToString(n3)| == 1;
      assert NatToString(n2) == NatToString(n3) + [DigitChar(n2 % 10)];
      assert NatToString(n1) == NatToString(n2) + [DigitChar(n1 % 10)];
      assert NatToString(n) == NatToString(n1) + [DigitChar(n % 10)];
    }
  }
}
