/** The Ruby string operations the tool relies on: chomp, to_s, to_i and include?. */
module Text {
  predicate IsDigit(c: char) {
    '0' <= c <= '9'
  }

  /** No character matches /\D/. */
  predicate AllDigits(s: string) {
    forall i :: 0 <= i < |s| ==> IsDigit(s[i])
  }

  /** String#chomp with the default separator: drops one trailing "\r\n", "\n" or "\r". */
  function Chomp(s: string): string {
    if |s| >= 2 && s[|s| - 2..] == "\r\n" then s[..|s| - 2]
    else if |s| >= 1 && (s[|s| - 1] == '\n' || s[|s| - 1] == '\r') then s[..|s| - 1]
    else s
  }

  /** Chomp removes at most one trailing "\r\n", "\n" or "\r" and keeps the rest. */
  lemma ChompDrops(s: string)
    ensures var r := Chomp(s); r == s || r + "\r\n" == s || r + "\n" == s || r + "\r" == s
  {
    if |s| >= 2 && s[|s| - 2..] == "\r\n" {
      assert s[..|s| - 2] + "\r\n" == s;
    } else if |s| >= 1 && (s[|s| - 1] == '\n' || s[|s| - 1] == '\r') {
      assert s[..|s| - 1] + [s[|s| - 1]] == s;
    }
  }

  lemma ChompCrLf(s: string)
    ensures Chomp(s + "\r\n") == s
  {
    assert (s + "\r\n")[|s|..] == "\r\n";
    assert (s + "\r\n")[..|s|] == s;
  }

  /** A lone trailing "\n" is dropped. */
  lemma ChompLf(s: string)
    requires s == [] || s[|s| - 1] != '\r'
    ensures Chomp(s + "\n") == s
  {
    assert (s + "\n")[..|s|] == s;
    if |s| >= 1 {
      assert (s + "\n")[|s| - 1..] == [s[|s| - 1], '\n'];
    }
  }

  /** A trailing "\r" is dropped. */
  lemma ChompCr(s: string)
    ensures Chomp(s + "\r") == s
  {
    assert (s + "\r")[..|s|] == s;
    if |s| >= 1 {
      assert (s + "\r")[|s| - 1..] == [s[|s| - 1], '\r'];
    }
  }

  /** A string that ends in neither "\n" nor "\r" is kept as is. */
  lemma ChompUnterminated(s: string)
    requires s == [] || (s[|s| - 1] != '\n' && s[|s| - 1] != '\r')
    ensures Chomp(s) == s
  {
    if |s| >= 2 {
      assert s[|s| - 2..][1] == s[|s| - 1];
    }
  }

  function DigitChar(d: nat): (c: char)
    requires d < 10
    ensures IsDigit(c)
  {
    "0123456789"[d]
  }

  function DigitValue(c: char): (d: nat)
    requires IsDigit(c)
    ensures d < 10
  {
    c as int - '0' as int
  }

  /** Integer#to_s for a non-negative integer. */
  function NatToString(n: nat): (s: string)
    ensures |s| > 0 && AllDigits(s)
  {
    if n < 10 then [DigitChar(n)] else NatToString(n / 10) + [DigitChar(n % 10)]
  }

  /** Integer#to_s: the decimal digits, after a '-' when negative. */
  function IntToString(i: int): string {
    if i < 0 then "-" + NatToString(-i) else NatToString(i)
  }

  /** The number a run of decimal digits denotes, most significant first. */
  function DecimalValue(s: string): nat
    requires AllDigits(s)
  {
    if s == [] then 0 else DecimalValue(s[..|s| - 1]) * 10 + DigitValue(s[|s| - 1])
  }

  predicate IsSpace(c: char) {
    c == ' ' || c == '\t' || c == '\n' || c == '\U{0B}' || c == '\U{0C}' || c == '\r'
  }

  function SkipSpace(s: string): string {
    if |s| > 0 && IsSpace(s[0]) then SkipSpace(s[1..]) else s
  }

  /**
   * The digits String#to_i reads from the start of s: a digit, then further
   * digits, each optionally preceded by one '_' separator.
   */
  function DigitRun(s: string): (r: string)
    ensures AllDigits(r)
  {
    if |s| > 0 && IsDigit(s[0]) then [s[0]] + DigitsAfterDigit(s[1..]) else []
  }

  function DigitsAfterDigit(s: string): (r: string)
    ensures AllDigits(r)
  {
    if |s| > 0 && IsDigit(s[0]) then [s[0]] + DigitsAfterDigit(s[1..])
    else if |s| > 1 && s[0] == '_' && IsDigit(s[1]) then [s[1]] + DigitsAfterDigit(s[2..])
    else []
  }

  /** String#to_i: leading white space, an optional sign, then the digit run; 0 when there is none. */
  function ToI(s: string): int {
    var t := SkipSpace(s);
    if |t| > 0 && t[0] == '-' then 0 - DecimalValue(DigitRun(t[1..]))
    else if |t| > 0 && t[0] == '+' then DecimalValue(DigitRun(t[1..]))
    else DecimalValue(DigitRun(t))
  }

  lemma {:induction false} DigitsAfterAllDigits(s: string)
    requires AllDigits(s)
    ensures DigitsAfterDigit(s) == s
  {
    if s != [] {
      DigitsAfterAllDigits(s[1..]);
    }
  }

  lemma {:induction false} DecimalValueOfNat(n: nat)
    ensures DecimalValue(NatToString(n)) == n
  {
    if n >= 10 {
      var s := NatToString(n / 10) + [DigitChar(n % 10)];
      assert s[..|s| - 1] == NatToString(n / 10);
      DecimalValueOfNat(n / 10);
    }
  }

  /** Round trip: String#to_i reads back what Integer#to_s wrote. */
  lemma ToIOfToString(i: int)
    ensures ToI(IntToString(i)) == i
  {
    var n: nat := if i < 0 then -i else i;
    var s := NatToString(n);
    assert DigitRun(s) == s by {
      DigitsAfterAllDigits(s[1..]);
      assert [s[0]] + s[1..] == s;
    }
    assert SkipSpace(s) == s;
    DecimalValueOfNat(n);
    if i < 0 {
      assert IntToString(i) == "-" + s;
      assert SkipSpace("-" + s) == "-" + s;
      assert ("-" + s)[1..] == s;
    }
  }

  predicate IsPrefix(p: string, s: string) {
    |p| <= |s| && s[..|p|] == p
  }

  /** String#include?: needle occurs somewhere in hay. */
  predicate Contains(hay: string, needle: string)
    decreases |hay|
  {
    IsPrefix(needle, hay) || (|hay| > 0 && Contains(hay[1..], needle))
  }

  lemma ContainsSelf(s: string)
    ensures Contains(s, s)
  {
    assert s[..|s|] == s;
  }

  /** A needle found at offset i is contained. */
  lemma {:induction false} ContainsAt(hay: string, needle: string, i: nat)
    requires i + |needle| <= |hay| && hay[i..i + |needle|] == needle
    ensures Contains(hay, needle)
    decreases i
  {
    if i > 0 {
      assert hay[1..][i - 1..i - 1 + |needle|] == needle;
      ContainsAt(hay[1..], needle, i - 1);
    }
  }
}
