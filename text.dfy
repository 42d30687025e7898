/** The few `java.lang.String` operations the services rely on. */
module Text {

  /** `s.startsWith(prefix)`. */
  predicate StartsWith(s: string, prefix: string)
    ensures StartsWith(s, prefix) ==> |prefix| <= |s| && s == prefix + s[|prefix|..]
  {
    |prefix| <= |s| && s[..|prefix|] == prefix
  }

  /** `s.contains(sub)`: `sub` occurs in `s` at some offset. */
  predicate Contains(s: string, sub: string)
    ensures Contains(s, sub) <==> exists i :: 0 <= i <= |s| && StartsWith(s[i..], sub)
    decreases |s|
  {
    if StartsWith(s, sub) then assert s[0..] == s; true
    else if s == [] then false
    else
      var rest := Contains(s[1..], sub);
      assert forall i :: 1 <= i <= |s| ==> s[i..] == s[1..][i - 1..];
      rest
  }

  /** Two prefixes of the same string: the shorter is a prefix of the longer. */
  lemma PrefixesOfOneString(s: string, p: string, q: string)
    requires StartsWith(s, p) && StartsWith(s, q)
    ensures StartsWith(q, p) || StartsWith(p, q)
  {
    if |p| <= |q| {
      assert q[..|p|] == s[..|q|][..|p|] == s[..|p|];
    } else {
      assert p[..|q|] == s[..|p|][..|q|] == s[..|q|];
    }
  }

  /** A string that differs from `p` inside `p`'s length does not start with `p`. */
  lemma DiffersAt(s: string, p: string, k: nat)
    requires k < |p| && k < |s| && s[k] != p[k]
    ensures !StartsWith(s, p)
  {
  }

  /** Lower-casing of one character, as `toLowerCase` does for the Latin and
      the basic Cyrillic capitals; every other character is left as it is. */
  function LowerChar(c: char): char
  {
    if 'A' <= c <= 'Z' then (c as int + 32) as char
    else if 'А' <= c <= 'Я' then (c as int + 32) as char
    else if c == 'Ё' then 'ё'
    else c
  }

  /** `s.toLowerCase()`, character by character. */
  function Lower(s: string): (r: string)
    ensures |r| == |s|
    ensures forall i :: 0 <= i < |s| ==> r[i] == LowerChar(s[i])
  {
    seq(|s|, i requires 0 <= i < |s| => LowerChar(s[i]))
  }

  /** The decimal digits of `n`, as `String.valueOf` writes them. */
  function Digits(n: nat): (r: string)
    ensures |r| >= 1
    ensures forall i :: 0 <= i < |r| ==> '0' <= r[i] <= '9'
  {
    var d := ['0' + (n % 10) as char];
    if n < 10 then d else Digits(n / 10) + d
  }

  /** The number a string of decimal digits denotes, read from the left;
      a character that is not a digit counts as 0. */
  function DigitsValue(s: string): nat
  {
    if s == [] then 0
    else
      var c := s[|s| - 1];
      DigitsValue(s[..|s| - 1]) * 10 + (if '0' <= c <= '9' then c as int - '0' as int else 0)
  }

  /** Reading back the digits of `n` gives `n`. */
  lemma {:induction false} DigitsRoundTrip(n: nat)
    ensures DigitsValue(Digits(n)) == n
  {
    var d := ['0' + (n % 10) as char];
    assert d[0] as int - '0' as int == n % 10;
    if n < 10 {
      assert Digits(n) == d;
      assert d[..0] == [];
    } else {
      DigitsRoundTrip(n / 10);
      var s := Digits(n / 10) + d;
      assert s[..|s| - 1] == Digits(n / 10);
    }
  }

  /** `Long.parseLong` on what `DecimalString` writes: an optional minus sign, then digits. */
  function ReadDecimal(s: string): int
  {
    if |s| > 0 && s[0] == '-' then -(DigitsValue(s[1..]) as int) else DigitsValue(s)
  }

  /** `String.valueOf(long)`: an optional minus sign, then the digits. */
  function DecimalString(x: int): (r: string)
    ensures |r| >= 1 && (r[0] == '-' <==> x < 0)
    ensures forall i :: 0 < i < |r| ==> '0' <= r[i] <= '9'
  {
    if x < 0 then "-" + Digits(-x) else Digits(x)
  }

  /** The decimal form of a number reads back as that number, so different
      numbers are written differently. */
  lemma DecimalRoundTrip(x: int)
    ensures ReadDecimal(DecimalString(x)) == x
  {
    if x < 0 {
      assert DecimalString(x)[1..] == Digits(-x);
      DigitsRoundTrip(-x);
    } else {
      DigitsRoundTrip(x);
    }
  }

  lemma DecimalStringInjective(x: int, y: int)
    ensures DecimalString(x) == DecimalString(y) ==> x == y
  {
    DecimalRoundTrip(x);
    DecimalRoundTrip(y);
  }
}
